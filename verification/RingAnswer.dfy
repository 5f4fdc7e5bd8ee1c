/** What the ring answers to a change of power, and what a block of changes comes to. */
module RingAnswers {
  import opened WordSizes
  import opened Sums
  import opened Addresses
  import opened RingModel
  import opened RingReports

  /** How far a change to `p` takes a validator from its power in the current set. */
  function Distance(r: Ring, id: Address, p: int): int
    requires r.Shaped()
  {
    if p < Get(r.Cum(), id) then Get(r.Cum(), id) - p else p - Get(r.Cum(), id)
  }

  /** The flow tracked for all other validators, and this change, stay within a third of the total less one. */
  ghost predicate WithinThird(r: Ring, id: Address, p: int)
    requires r.Shaped()
  {
    3 * (Total(r.flow - {id}) + Distance(r, id, p) + 1) <= Total(r.Cum())
  }

  /** The next set is the one `r` would have, except for one validator's power. */
  ghost predicate NextDiffers(r: Ring, r': Ring, id: Address, p: int)
    requires r.Shaped() && r'.Shaped()
  {
    forall k :: Get(Rotate(r').Cum(), k) == if k == id then p else Get(Rotate(r).Cum(), k)
  }

  ghost predicate NextSame(r: Ring, r': Ring)
    requires r.Shaped() && r'.Shaped()
  {
    forall k :: Get(Rotate(r').Cum(), k) == Get(Rotate(r).Cum(), k)
  }

  lemma {:induction false} TrackedTotal(flow: Powers, id: Address, f: int)
    ensures Total(flow[id := f]) == Total(flow - {id}) + f
  {
    TotalRemove(flow[id := f], id);
    assert flow[id := f] - {id} == flow - {id};
  }

  lemma {:induction false} NextAfter(r: Ring, id: Address, p: int)
    requires r.Shaped()
    ensures var r' := r.(delta := r.delta[r.head := r.Head()[id := p]]);
            r'.Shaped() && NextDiffers(r, r', id, p)
  {
  }

  lemma {:induction false} NextIgnoresFlow(r: Ring, flow: Powers)
    requires r.Shaped()
    ensures r.(flow := flow).Shaped() && Rotate(r.(flow := flow)) == Rotate(r)
  {
  }

  /**
    The answer to any change: refused below zero and from 2^63 on, refused when the flow would pass
    a third, and otherwise the distance from the current power. Only an accepted change shows in
    the next set, for that validator alone.
   */
  lemma {:induction false} AlterExactly(r: Ring, id: Address, p: int)
    requires r.Shaped()
    ensures var (r', answer) := AlterPower(r, id, p);
            && r'.Shaped()
            && (if p < 0 then answer == NegativePower && r' == r
                else if p >= 0x8000_0000_0000_0000 then answer == PowerTooLarge && r' == r
                else if !WithinThird(r, id, p) then answer == FlowExceeded && NextSame(r, r')
                else answer == Accepted(Distance(r, id, p)) && NextDiffers(r, r', id, p))
  {
    hide Total, Rotate;
    var f := Distance(r, id, p);
    if 0 <= p < INT64_LIMIT {
      TrackedTotal(r.flow, id, f);
      Third(Total(r.flow[id := f]), Total(r.Cum()));
      var (r', answer) := AlterPower(r, id, p);
      NextIgnoresFlow(r, r'.flow);
      NextAfter(r.(flow := r'.flow), id, p);
    }
  }

  lemma {:induction false} Third(x: int, total: int)
    ensures x > total / 3 - 1 <==> 3 * (x + 1) > total
  {
  }

  // ---- A block of changes ---------------------------------------------------------------

  ghost predicate OnlyChanges(ops: seq<Op>) {
    forall i :: 0 <= i < |ops| ==> ops[i].Alter?
  }

  /** For every validator the flow answered to its last accepted change. */
  ghost function LastFlows(r: Ring, ops: seq<Op>): map<Address, int>
    requires r.Shaped() && OnlyChanges(ops)
  {
    if ops == [] then map[] else
    var n := |ops| - 1;
    var answer := AlterPower(Run(r, ops[..n]), ops[n].id, ops[n].p).1;
    if answer.Accepted? then LastFlows(r, ops[..n])[ops[n].id := answer.flow] else LastFlows(r, ops[..n])
  }

  lemma {:induction false} FlowsAreShifts(r: Ring, ops: seq<Op>)
    requires r.Shaped() && r.Head() == map[] && OnlyChanges(ops)
    ensures Run(r, ops).Cum() == r.Cum() && LastFlows(r, ops) == Shifts(r.Cum(), Run(r, ops).Head())
  {
    if ops != [] {
      hide Total, AlterPower, Shifts;
      var n := |ops| - 1;
      FlowsAreShifts(r, ops[..n]);
      AlterKeepsCum(Run(r, ops[..n]), ops[n].id, ops[n].p);
      OneMoreShift(r.Cum(), Run(r, ops[..n]).Head(), ops[n].id, ops[n].p);
    } else {
      assert Shifts(r.Cum(), map[]) == map[];
    }
  }

  lemma {:induction false} OneMoreShift(m: Powers, d: Powers, id: Address, p: int)
    ensures Shifts(m, d[id := p]) == Shifts(m, d)[id := Abs(p - Get(m, id))]
  {
  }

  lemma {:induction false} AlterKeepsCum(r: Ring, id: Address, p: int)
    requires r.Shaped()
    ensures var (r', answer) := AlterPower(r, id, p);
            && r'.Shaped() && r'.Cum() == r.Cum()
            && r'.Head() == (if answer.Accepted? then r.Head()[id := p] else r.Head())
            && (answer.Accepted? ==> answer.flow == Abs(p - Get(r.Cum(), id)))
  {
    hide Total;
  }

  /** A rotation moves exactly the flows answered to the last accepted changes of its block. */
  lemma {:induction false} BlockMoves(r: Ring, ops: seq<Op>)
    requires r.Shaped() && r.Head() == map[] && OnlyChanges(ops)
    ensures Moved(r.Cum(), Rotate(Run(r, ops)).Cum()) == Total(LastFlows(r, ops))
  {
    hide Total, Run, LastFlows, Rotate, Overlay;
    FlowsAreShifts(r, ops);
    OverlayMoved(r.Cum(), true, Run(r, ops).Head());
    RotatedCum(Run(r, ops));
  }

  lemma {:induction false} RotatedCum(r: Ring)
    requires r.Shaped()
    ensures Rotate(r).Cum() == Overlay(r.Cum(), true, r.Head()) && Rotate(r).Head() == map[]
  {
  }

  /** A block starts with no changes: in a new ring and after every rotation. */
  lemma {:induction false} BlockStarts(initial: Powers, window: int, ops: seq<Op>)
    requires ops == [] || ops[|ops| - 1].Turn?
    ensures Run(NewRing(initial, window), ops).Head() == map[]
  {
    if ops != [] {
      RotatedCum(Run(NewRing(initial, window), ops[..|ops| - 1]));
    }
  }

  /** So in every run: each block moves what its last accepted changes were answered with. */
  lemma {:induction false} EveryBlockMoves(initial: Powers, window: int, before: seq<Op>, ops: seq<Op>)
    requires (before == [] || before[|before| - 1].Turn?) && OnlyChanges(ops)
    ensures var r := Run(NewRing(initial, window), before);
            r.Shaped() && Moved(r.Cum(), Rotate(Run(r, ops)).Cum()) == Total(LastFlows(r, ops))
  {
    hide Run, Moved, Total, LastFlows, OnlyChanges;
    BlockStarts(initial, window, before);
    BlockMoves(Run(NewRing(initial, window), before), ops);
  }

  // ---- New rings and retained sets ------------------------------------------------------

  /** A new ring has at least one bucket, and the initial set at every delay. */
  lemma {:induction false} NewRingMeaning(initial: Powers, window: int, delay: nat)
    ensures var r := NewRing(initial, window);
            && r.Shaped() && |r.delta| == (if window > 1 then window else 1)
            && r.PreviousSet(delay) == initial
  {
    IndexBack(NewRing(initial, window), 0);
  }

  ghost predicate Positive(m: Powers) {
    forall k :: k in m ==> m[k] > 0
  }

  ghost predicate AllPositive(r: Ring) {
    forall i :: 0 <= i < |r.cum| ==> Positive(r.cum[i])
  }

  lemma {:induction false} RotatePositive(r: Ring)
    requires Safe(r) && AllPositive(r)
    ensures AllPositive(Rotate(r))
  {
    hide Total, Accumulate;
    assert Positive(NextCum(r)) by {
      assert Positive(r.cum[r.head]) && InRange(r.delta[r.head], INT64_LIMIT);
    }
  }

  /** Whatever is done, no set the ring holds lists a validator without power. */
  lemma {:induction false} NoIdleValidators(initial: Powers, window: int, ops: seq<Op>)
    requires Positive(initial)
    ensures AllPositive(Run(NewRing(initial, window), ops))
    decreases |ops|
  {
    if ops != [] {
      var before, op := ops[..|ops| - 1], ops[|ops| - 1];
      var r0 := NewRing(initial, window);
      NoIdleValidators(initial, window, before);
      NewRingSafe(initial, window);
      RunSafe(r0, before);
      match op {
        case Turn => RotatePositive(Run(r0, before));
        case Alter(id, p) => AlterKeepsSets(Run(r0, before), id, p);
      }
    }
  }

  lemma {:induction false} AlterKeepsSets(r: Ring, id: Address, p: int)
    requires r.Shaped()
    ensures AlterPower(r, id, p).0.cum == r.cum
  {
    hide Total;
  }
}
