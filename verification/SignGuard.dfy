/**
  The guard against signing twice: what was last signed, as a value, and every run of
  requests against it. Sign bytes are modelled by the canonical record they encode.
 */
module SignGuard {
  import opened Options

  type Signature = string

  const STEP_NONE := 0
  const STEP_PROPOSE := 1
  const STEP_PREVOTE := 2
  const STEP_PRECOMMIT := 3

  const VOTE_TYPE_PREVOTE := 1
  const VOTE_TYPE_PRECOMMIT := 2

  /** Times are in nanoseconds; `body` stands for the fields the guard never looks into. */
  datatype Message =
    | Vote(kind: int, height: int, round: int, body: string, time: int, signature: Option<Signature>)
    | Proposal(height: int, round: int, body: string, time: int, signature: Option<Signature>)

  /** What gets signed: the message without its signature, for one chain, at millisecond resolution. */
  datatype Canonical =
    | CanonicalVote(chain: string, kind: int, height: int, round: int, body: string, millis: int)
    | CanonicalProposal(chain: string, height: int, round: int, body: string, millis: int)

  function SignBytes(chain: string, m: Message): Canonical {
    match m
    case Vote(kind, h, r, body, time, _) => CanonicalVote(chain, kind, h, r, body, time / 1_000_000)
    case Proposal(h, r, body, time, _) => CanonicalProposal(chain, h, r, body, time / 1_000_000)
  }

  /** The step a message belongs to; an unknown kind of vote has none. */
  function StepOf(m: Message): Option<int> {
    match m
    case Proposal(_, _, _, _, _) => Some(STEP_PROPOSE)
    case Vote(kind, _, _, _, _, _) =>
      if kind == VOTE_TYPE_PREVOTE then Some(STEP_PREVOTE)
      else if kind == VOTE_TYPE_PRECOMMIT then Some(STEP_PRECOMMIT)
      else None
  }

  datatype Slot = Slot(height: int, round: int, step: int)

  predicate Earlier(a: Slot, b: Slot) {
    a.height < b.height || (a.height == b.height && (a.round < b.round || (a.round == b.round && a.step < b.step)))
  }

  /** The slot a canonical record was signed for. */
  function SlotOf(c: Canonical): Slot {
    match c
    case CanonicalVote(_, kind, h, r, _, _) =>
      Slot(h, r, if kind == VOTE_TYPE_PREVOTE then STEP_PREVOTE else STEP_PRECOMMIT)
    case CanonicalProposal(_, h, r, _, _) => Slot(h, r, STEP_PROPOSE)
  }

  datatype Info = Info(slot: Slot, signature: Option<Signature>, signBytes: Option<Canonical>)

  const INITIAL := Info(Slot(0, 0, STEP_NONE), None, None)

  datatype Answer = Success | HeightRegression | RoundRegression | StepRegression | NoSignature | Conflict | Panic

  datatype Check = Same | Fresh | Refused(why: Answer)

  /** checkHRS */
  function CheckSlot(info: Info, s: Slot): Check {
    if info.slot.height > s.height then Refused(HeightRegression)
    else if info.slot.height == s.height then
      if info.slot.round > s.round then Refused(RoundRegression)
      else if info.slot.round == s.round then
        if info.slot.step > s.step then Refused(StepRegression)
        else if info.slot.step == s.step then
          if info.signBytes == None then Refused(NoSignature)
          else if info.signature == None then Refused(Panic)
          else Same
        else Fresh
      else Fresh
    else Fresh
  }

  function WithoutTime(c: Canonical): Canonical {
    c.(millis := 0)
  }

  datatype Reply = Reply(info: Info, message: Message, outcome: Answer, signed: Option<Canonical>)

  /** signVote and signProposal: the new state, the message as left behind, and the bytes passed to `sign`, if any. */
  function Handle(info: Info, sign: Canonical -> Option<Signature>, chain: string, m: Message): Reply {
    var step := StepOf(m);
    if step == None then Reply(info, m, Panic, None) else
    var slot := Slot(m.height, m.round, step.value);
    var bytes := SignBytes(chain, m);
    match CheckSlot(info, slot)
    case Refused(why) => Reply(info, m, why, None)
    case Fresh =>
      var sig := sign(bytes);
      Reply(Info(slot, sig, Some(bytes)), m.(signature := sig), Success, Some(bytes))
    case Same =>
      var last := info.signBytes.value;
      if bytes == last then Reply(info, m.(signature := info.signature), Success, None)
      else if last.CanonicalVote? != m.Vote? then Reply(info, m, Panic, None)
      else if WithoutTime(bytes) == WithoutTime(last) then
        Reply(info, m.(time := last.millis * 1_000_000, signature := info.signature), Success, None)
      else Reply(info, m, Conflict, None)
  }

  datatype Request = Request(chain: string, message: Message)

  function Run(sign: Canonical -> Option<Signature>, reqs: seq<Request>): Info {
    if reqs == [] then INITIAL else
    var n := |reqs| - 1;
    Handle(Run(sign, reqs[..n]), sign, reqs[n].chain, reqs[n].message).info
  }

  function ReplyTo(sign: Canonical -> Option<Signature>, reqs: seq<Request>, i: nat): Reply
    requires i < |reqs|
  {
    Handle(Run(sign, reqs[..i]), sign, reqs[i].chain, reqs[i].message)
  }

  /** Everything `sign` was ever asked to sign, in order. */
  function Log(sign: Canonical -> Option<Signature>, reqs: seq<Request>): seq<Canonical> {
    if reqs == [] then [] else
    var n := |reqs| - 1;
    var signed := ReplyTo(sign, reqs, n).signed;
    Log(sign, reqs[..n]) + if signed == None then [] else [signed.value]
  }

  ghost predicate AlwaysSigns(sign: Canonical -> Option<Signature>) {
    forall c :: sign(c).Some?
  }

  // ---- The invariant --------------------------------------------------------------------

  /** The stored bytes are the last in the log, signed for the stored slot. */
  ghost predicate Consistent(sign: Canonical -> Option<Signature>, info: Info, log: seq<Canonical>) {
    && (log == [] ==> info == INITIAL)
    && (log != [] ==>
          var last := log[|log| - 1];
          info == Info(SlotOf(last), sign(last), Some(last)) && info.slot.step != STEP_NONE)
  }

  ghost predicate Increasing(log: seq<Canonical>) {
    forall i, j :: 0 <= i < j < |log| ==> Earlier(SlotOf(log[i]), SlotOf(log[j]))
  }

  lemma {:induction false} HandleKeeps(sign: Canonical -> Option<Signature>, info: Info, log: seq<Canonical>,
                                       chain: string, m: Message)
    requires Consistent(sign, info, log) && Increasing(log)
    ensures var r := Handle(info, sign, chain, m);
            var log' := log + if r.signed == None then [] else [r.signed.value];
            Consistent(sign, r.info, log') && Increasing(log')
  {
    var r := Handle(info, sign, chain, m);
    if r.signed == None {
      assert log + [] == log;
    } else {
      assert Earlier(info.slot, SlotOf(r.signed.value));
    }
  }

  lemma {:induction false} RunConsistent(sign: Canonical -> Option<Signature>, reqs: seq<Request>)
    ensures Consistent(sign, Run(sign, reqs), Log(sign, reqs)) && Increasing(Log(sign, reqs))
  {
    if reqs != [] {
      var n := |reqs| - 1;
      RunConsistent(sign, reqs[..n]);
      HandleKeeps(sign, Run(sign, reqs[..n]), Log(sign, reqs[..n]), reqs[n].chain, reqs[n].message);
    }
  }

  /** In every run `sign` sees strictly increasing slots, so at most one byte string for each. */
  lemma {:induction false} NeverSignsTwice(sign: Canonical -> Option<Signature>, reqs: seq<Request>, i: nat, j: nat)
    requires i < |Log(sign, reqs)| && j < |Log(sign, reqs)|
    ensures i < j ==> Earlier(SlotOf(Log(sign, reqs)[i]), SlotOf(Log(sign, reqs)[j]))
    ensures SlotOf(Log(sign, reqs)[i]) == SlotOf(Log(sign, reqs)[j]) ==> i == j
  {
    RunConsistent(sign, reqs);
  }

  /**
    A successful call leaves a message that matches the stored state: its sign bytes, after
    any restored timestamp, are the ones last signed, and its signature is theirs.
   */
  lemma {:induction false} SuccessMatchesState(sign: Canonical -> Option<Signature>, reqs: seq<Request>, i: nat)
    requires i < |reqs| && ReplyTo(sign, reqs, i).outcome == Success
    ensures var r := ReplyTo(sign, reqs, i);
            var bytes := SignBytes(reqs[i].chain, r.message);
            && r.info.signBytes == Some(bytes)
            && r.message.signature == r.info.signature == sign(bytes)
            && bytes in Log(sign, reqs[..i + 1])
  {
    RunConsistent(sign, reqs[..i]);
    assert reqs[..i + 1][..i] == reqs[..i];
    RunConsistent(sign, reqs[..i + 1]);
    assert Run(sign, reqs[..i + 1]) == ReplyTo(sign, reqs, i).info;
  }

  lemma {:induction false} LogGrows(sign: Canonical -> Option<Signature>, reqs: seq<Request>, i: nat)
    requires i <= |reqs|
    ensures Log(sign, reqs[..i]) <= Log(sign, reqs)
    decreases |reqs| - i
  {
    if i == |reqs| {
      assert reqs[..i] == reqs;
    } else {
      LogGrows(sign, reqs, i + 1);
      assert reqs[..i + 1][..i] == reqs[..i];
    }
  }

  /** The slot a message asks for. */
  function Asked(m: Message): Slot
    requires StepOf(m).Some?
  {
    Slot(m.height, m.round, StepOf(m).value)
  }

  lemma {:induction false} SuccessAsked(sign: Canonical -> Option<Signature>, reqs: seq<Request>, i: nat)
    requires i < |reqs| && ReplyTo(sign, reqs, i).outcome == Success
    ensures StepOf(reqs[i].message).Some?
    ensures SlotOf(SignBytes(reqs[i].chain, ReplyTo(sign, reqs, i).message)) == Asked(reqs[i].message)
  {
  }

  /** However often a slot is asked for, all successful answers carry the same bytes and signature. */
  lemma {:induction false} OneAnswerPerSlot(sign: Canonical -> Option<Signature>, reqs: seq<Request>, i: nat, j: nat)
    requires i < |reqs| && ReplyTo(sign, reqs, i).outcome == Success
    requires j < |reqs| && ReplyTo(sign, reqs, j).outcome == Success
    requires StepOf(reqs[i].message).Some? && StepOf(reqs[j].message).Some?
    requires Asked(reqs[i].message) == Asked(reqs[j].message)
    ensures SignBytes(reqs[i].chain, ReplyTo(sign, reqs, i).message) == SignBytes(reqs[j].chain, ReplyTo(sign, reqs, j).message)
    ensures ReplyTo(sign, reqs, i).message.signature == ReplyTo(sign, reqs, j).message.signature
  {
    var log := Log(sign, reqs);
    forall k | k in {i, j}
      ensures SignBytes(reqs[k].chain, ReplyTo(sign, reqs, k).message) in log
      ensures ReplyTo(sign, reqs, k).message.signature == sign(SignBytes(reqs[k].chain, ReplyTo(sign, reqs, k).message))
    {
      SuccessMatchesState(sign, reqs, k);
      LogGrows(sign, reqs, k + 1);
    }
    SuccessAsked(sign, reqs, i);
    SuccessAsked(sign, reqs, j);
    var a :| 0 <= a < |log| && log[a] == SignBytes(reqs[i].chain, ReplyTo(sign, reqs, i).message);
    var b :| 0 <= b < |log| && log[b] == SignBytes(reqs[j].chain, ReplyTo(sign, reqs, j).message);
    NeverSignsTwice(sign, reqs, a, b);
  }

  /** With a signer that always signs, the guard panics only on a vote of unknown kind. */
  lemma {:induction false} PanicsOnlyOnUnknownVotes(sign: Canonical -> Option<Signature>, reqs: seq<Request>, i: nat)
    requires AlwaysSigns(sign) && i < |reqs|
    ensures ReplyTo(sign, reqs, i).outcome == Panic <==> StepOf(reqs[i].message) == None
    ensures ReplyTo(sign, reqs, i).outcome != NoSignature
  {
    RunConsistent(sign, reqs[..i]);
  }

  /** A request is answered exactly when its slot is later, or repeats the last slot for the same content. */
  lemma {:induction false} SuccessExactly(sign: Canonical -> Option<Signature>, reqs: seq<Request>, i: nat)
    requires AlwaysSigns(sign) && i < |reqs| && StepOf(reqs[i].message).Some?
    ensures var info := Run(sign, reqs[..i]);
            ReplyTo(sign, reqs, i).outcome == Success <==>
            || Earlier(info.slot, Asked(reqs[i].message))
            || (info.slot == Asked(reqs[i].message) && info.signBytes.Some?
                && WithoutTime(info.signBytes.value) == WithoutTime(SignBytes(reqs[i].chain, reqs[i].message)))
  {
    RunConsistent(sign, reqs[..i]);
  }

  // ---- The order of a round -------------------------------------------------------------

  /** Proposal, prevote and precommit, with the numbers Tendermint gives the two kinds of vote. */
  datatype Phase = Proposing | Prevoting | Precommitting

  ghost predicate SignedIn(c: Canonical, p: Phase) {
    match p
    case Proposing => c.CanonicalProposal?
    case Prevoting => c.CanonicalVote? && c.kind == 1
    case Precommitting => c.CanonicalVote? && c.kind == 2
  }

  ghost predicate AskedIn(m: Message, p: Phase) {
    match p
    case Proposing => m.Proposal?
    case Prevoting => m.Vote? && m.kind == 1
    case Precommitting => m.Vote? && m.kind == 2
  }

  /** A round is proposed, then prevoted, then precommitted. */
  predicate Precedes(p: Phase, q: Phase) {
    (p.Proposing? && !q.Proposing?) || (p.Prevoting? && q.Precommitting?)
  }

  /** What two messages must agree on to have the same bytes signed: everything but the part of a millisecond. */
  lemma {:induction false} SignBytesExactly(chain: string, m: Message, chain': string, m': Message)
    ensures SignBytes(chain, m) == SignBytes(chain', m') <==>
            && chain == chain' && m.height == m'.height && m.round == m'.round && m.body == m'.body
            && (exists ms: int :: ms * 1_000_000 <= m.time < (ms + 1) * 1_000_000 && ms * 1_000_000 <= m'.time < (ms + 1) * 1_000_000)
            && (m.Vote? <==> m'.Vote?) && (m.Vote? ==> m.kind == m'.kind)
  {
    if m.time / 1_000_000 == m'.time / 1_000_000 {
      var ms := m.time / 1_000_000;
      assert ms * 1_000_000 <= m.time < (ms + 1) * 1_000_000 && ms * 1_000_000 <= m'.time < (ms + 1) * 1_000_000;
    }
  }

  /** The answer to any message, from the record signed last. */
  lemma {:induction false} AnswerExactly(sign: Canonical -> Option<Signature>, info: Info, log: seq<Canonical>,
                                         chain: string, m: Message, p: Phase, q: Phase)
    requires Consistent(sign, info, log) && AlwaysSigns(sign) && log != []
    requires SignedIn(log[|log| - 1], p) && AskedIn(m, q)
    ensures var last := log[|log| - 1];
            var answer := Handle(info, sign, chain, m).outcome;
            if last.height != m.height then answer == (if last.height < m.height then Success else HeightRegression)
            else if last.round != m.round then answer == (if last.round < m.round then Success else RoundRegression)
            else if p != q then answer == (if Precedes(p, q) then Success else StepRegression)
            else answer == (if last == SignBytes(chain, m.(time := last.millis * 1_000_000)) then Success else Conflict)
  {
  }

  /** Before anything is signed only heights and rounds below zero are refused. */
  lemma {:induction false} FirstAnswer(sign: Canonical -> Option<Signature>, chain: string, m: Message, q: Phase)
    requires AskedIn(m, q)
    ensures Handle(INITIAL, sign, chain, m).outcome ==
            if m.height < 0 then HeightRegression else if m.height == 0 && m.round < 0 then RoundRegression else Success
  {
  }

  lemma {:induction false} LogPhases(sign: Canonical -> Option<Signature>, reqs: seq<Request>, i: nat)
    requires i < |Log(sign, reqs)|
    ensures exists p :: SignedIn(Log(sign, reqs)[i], p)
  {
    var n := |reqs| - 1;
    if i < |Log(sign, reqs[..n])| {
      LogPhases(sign, reqs[..n], i);
      var p :| SignedIn(Log(sign, reqs[..n])[i], p);
      assert SignedIn(Log(sign, reqs)[i], p);
    } else {
      var m := reqs[n].message;
      var p := if m.Proposal? then Proposing else if m.kind == 1 then Prevoting else Precommitting;
      assert SignedIn(Log(sign, reqs)[i], p);
    }
  }

  /**
    In every run the signed records go up in height and round, and those of one round are at most
    one proposal, then at most one prevote, then at most one precommit.
   */
  lemma {:induction false} RoundsInOrder(sign: Canonical -> Option<Signature>, reqs: seq<Request>, i: nat, j: nat)
    requires i < j < |Log(sign, reqs)|
    ensures var a, b := Log(sign, reqs)[i], Log(sign, reqs)[j];
            && (a.height < b.height || (a.height == b.height && a.round <= b.round))
            && (a.height == b.height && a.round == b.round ==>
                  exists p, q :: SignedIn(a, p) && SignedIn(b, q) && Precedes(p, q))
  {
    NeverSignsTwice(sign, reqs, i, j);
    LogPhases(sign, reqs, i);
    LogPhases(sign, reqs, j);
    var p :| SignedIn(Log(sign, reqs)[i], p);
    var q :| SignedIn(Log(sign, reqs)[j], q);
    PhaseSlots(Log(sign, reqs)[i], p, Log(sign, reqs)[j], q);
  }

  lemma {:induction false} PhaseSlots(a: Canonical, p: Phase, b: Canonical, q: Phase)
    requires SignedIn(a, p) && SignedIn(b, q)
    ensures a.height == b.height && a.round == b.round ==> (Earlier(SlotOf(a), SlotOf(b)) <==> Precedes(p, q))
  {
  }

  // ---- The object -----------------------------------------------------------------------

  /** A message on its way through the guard. */
  class Letter {
    var message: Message

    constructor (message: Message)
      ensures this.message == message
    {
      this.message := message;
    }
  }

  class LastSignedInfo {
    var height: int
    var round: int
    var step: int
    var signature: Option<Signature>
    var signBytes: Option<Canonical>

    function View(): Info
      reads this
    {
      Info(Slot(height, round, step), signature, signBytes)
    }

    constructor ()
      ensures View() == INITIAL
    {
      height, round, step := 0, 0, STEP_NONE;
      signature, signBytes := None, None;
    }

    method CheckHRS(h: int, r: int, s: int) returns (check: Check)
      ensures check == CheckSlot(View(), Slot(h, r, s))
    {
      if height > h {
        return Refused(HeightRegression);
      }
      if height == h {
        if round > r {
          return Refused(RoundRegression);
        }
        if round == r {
          if step > s {
            return Refused(StepRegression);
          } else if step == s {
            if signBytes != None {
              if signature == None {
                return Refused(Panic);
              }
              return Same;
            }
            return Refused(NoSignature);
          }
        }
      }
      return Fresh;
    }

    method SaveSigned(h: int, r: int, s: int, bytes: Canonical, sig: Option<Signature>)
      modifies this
      ensures View() == Info(Slot(h, r, s), sig, Some(bytes))
    {
      height, round, step := h, r, s;
      signature, signBytes := sig, Some(bytes);
    }

    /** SignVote and SignProposal; the letter gets the signature and any restored timestamp. */
    method Sign(sign: Canonical -> Option<Signature>, chain: string, letter: Letter)
      returns (outcome: Answer, signed: Option<Canonical>)
      modifies this, letter
      ensures Reply(View(), letter.message, outcome, signed) == Handle(old(View()), sign, chain, old(letter.message))
    {
      var m := letter.message;
      var s := StepOf(m);
      if s == None {
        return Panic, None;
      }
      var bytes := SignBytes(chain, m);
      var check := CheckHRS(m.height, m.round, s.value);
      match check {
        case Refused(why) =>
          return why, None;
        case Same =>
          var last := signBytes.value;
          if bytes == last {
            letter.message := m.(signature := signature);
          } else if last.CanonicalVote? != m.Vote? {
            return Panic, None;
          } else if WithoutTime(last) == WithoutTime(bytes) {
            letter.message := m.(time := last.millis * 1_000_000);
            letter.message := letter.message.(signature := signature);
          } else {
            return Conflict, None;
          }
          return Success, None;
        case Fresh =>
          var sig := sign(bytes);
          SaveSigned(m.height, m.round, s.value, bytes, sig);
          letter.message := m.(signature := sig);
          return Success, Some(bytes);
      }
    }
  }
}
