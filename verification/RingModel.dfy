/**
  The validator ring as a value: a window of per-block power changes, the set each block
  started from, and the flow accepted so far in the head block. The class `Window` in
  ValidatorRing is proved to act on its fields as these functions say.
 */
module RingModel {
  import opened WordSizes
  import opened Sums
  import opened Addresses

  type Powers = map<Address, int>

  datatype AlterResult = Accepted(flow: int) | NegativePower | PowerTooLarge | FlowExceeded

  // ---- Sets of powers -------------------------------------------------------------------

  /** One change; a trimming set drops an entry that is set to zero. */
  function Change(m: Powers, trim: bool, id: Address, p: int): Powers {
    if trim && p == 0 then m - {id} else m[id := p]
  }

  /** Overwrite `m` with every entry of `d`. */
  function Overlay(m: Powers, trim: bool, d: Powers): Powers {
    map k | k in m.Keys + d.Keys && !(trim && k in d && d[k] == 0) :: if k in d then d[k] else m[k]
  }

  function Plus(add: bool, x: int, y: int): int {
    if add then x + y else x - y
  }

  /** Add every entry of `d` to `m`, or subtract it. */
  function Accumulate(m: Powers, d: Powers, add: bool): (r: Powers)
    ensures r.Keys == m.Keys + d.Keys
  {
    map k | k in m.Keys + d.Keys :: if k in d then Plus(add, Get(m, k), d[k]) else m[k]
  }

  function Differences(a: Powers, b: Powers): (r: Powers)
    ensures r.Keys == a.Keys + b.Keys
  {
    map k | k in a.Keys + b.Keys :: Abs(Get(b, k) - Get(a, k))
  }

  function Overlaps(a: Powers, b: Powers): (r: Powers)
    ensures r.Keys == a.Keys + b.Keys
  {
    map k | k in a.Keys + b.Keys :: Min(Get(a, k), Get(b, k))
  }

  /** `m` with the addresses of `n` added at zero power. */
  function Widen(m: Powers, n: Powers): (r: Powers)
    ensures r.Keys == m.Keys + n.Keys
  {
    map k | k in m.Keys + n.Keys :: Get(m, k)
  }

  /** The power that changes hands between two sets: the sum of absolute differences. */
  ghost function Moved(a: Powers, b: Powers): int {
    Total(Differences(a, b))
  }

  /** The power two sets have in common. */
  ghost function Common(a: Powers, b: Powers): int {
    Total(Overlaps(a, b))
  }

  predicate InRange(m: Powers, limit: int) {
    forall k :: k in m ==> 0 <= m[k] < limit
  }

  predicate NonNegative(m: Powers) {
    forall k :: k in m ==> 0 <= m[k]
  }

  // ---- The ring -------------------------------------------------------------------------

  /** The `%` operator on non-negative operands. */
  function Remainder(a: nat, n: nat): (m: nat)
    requires n > 0
    ensures m < n
  {
    if a < n then a else Remainder(a - n, n)
  }

  lemma {:induction false} ModBySubtraction(b: nat, n: nat)
    requires n > 0
    ensures (b + n) % n == b % n
  {
    var q := (b + n) / n - b / n - 1;
    assert n * q == b % n - (b + n) % n;
  }

  lemma {:induction false} RemainderIsMod(a: nat, n: nat)
    requires n > 0
    ensures Remainder(a, n) == a % n
  {
    if a >= n {
      RemainderIsMod(a - n, n);
      ModBySubtraction(a - n, n);
    }
  }

  datatype Ring = Ring(delta: seq<Powers>, cum: seq<Powers>, power: Powers, flow: Powers,
                       head: nat, populated: nat)
  {
    predicate Shaped() {
      && 0 < |delta| == |cum|
      && head < |delta|
      && populated <= |delta|
    }

    function Index(i: int): (j: nat)
      requires Shaped() && -|delta| <= i
      ensures j < |delta|
    {
      Remainder(|delta| + head + i, |delta|)
    }

    function Head(): Powers
      requires Shaped()
    { delta[head] }

    function Cum(): Powers
      requires Shaped()
    { cum[head] }

    /** The bucket used k rotations back. */
    function Back(k: nat): nat
      requires Shaped() && k <= |delta|
    {
      Index(0 - k)
    }

    function PreviousSet(delay: nat): Powers
      requires Shaped()
    {
      cum[Back(if delay > populated then populated else delay)]
    }

    function Flow(id: Address, p: int): int
      requires Shaped()
    {
      Abs(p - Get(Cum(), id))
    }

    ghost function MaxFlow(): int
      requires Shaped()
    {
      Total(Cum()) / 3 - 1
    }
  }

  function NewRing(initial: Powers, window: int): Ring {
    var size := if window < 1 then 1 else window;
    Ring(seq(size, _ => map[]), seq(size, i => if i == 0 then initial else map[]), map[], map[], 0, 0)
  }

  ghost function AlterPower(r: Ring, id: Address, p: int): (Ring, AlterResult)
    requires r.Shaped()
  {
    if p < 0 then (r, NegativePower)
    else if p >= INT64_LIMIT then (r, PowerTooLarge)
    else
      var flow := r.Flow(id, p);
      var tracked := r.flow[id := flow];
      if Total(tracked) > r.MaxFlow() then
        (r.(flow := tracked[id := r.Flow(id, Get(r.Head(), id))]), FlowExceeded)
      else
        (r.(flow := tracked, delta := r.delta[r.head := r.Head()[id := p]]), Accepted(flow))
  }

  function NextCum(r: Ring): Powers
    requires r.Shaped()
  {
    Overlay(r.Cum(), true, r.Head())
  }

  function Rotate(r: Ring): (r': Ring)
    requires r.Shaped()
    ensures r'.Shaped() && |r'.delta| == |r.delta|
    ensures r'.Cum() == NextCum(r)
  {
    var next := r.Index(1);
    Ring(r.delta[next := map[]], r.cum[next := NextCum(r)],
         Accumulate(Accumulate(r.power, r.delta[next], false), r.Head(), true), map[], next,
         if r.populated < |r.delta| then r.populated + 1 else r.populated)
  }

  /** What Rotate reports: the change of total power and the total flow. */
  ghost function RotateReport(r: Ring): (int, int)
    requires r.Shaped()
  {
    var r' := Rotate(r);
    (Total(r'.Cum()) - Total(r'.cum[r'.Back(1)]), Total(r.flow))
  }

  // ---- Runs -----------------------------------------------------------------------------

  datatype Op = Alter(id: Address, p: int) | Turn
  datatype Output = Altered(result: AlterResult) | Turned(change: int, flow: int)

  ghost function Step(r: Ring, op: Op): (Ring, Output)
    requires r.Shaped()
    ensures var r' := Step(r, op).0; r'.Shaped() && |r'.delta| == |r.delta|
  {
    match op
    case Alter(id, p) => var (r', res) := AlterPower(r, id, p); (r', Altered(res))
    case Turn => (Rotate(r), Turned(RotateReport(r).0, RotateReport(r).1))
  }

  ghost function Run(r: Ring, ops: seq<Op>): (r': Ring)
    requires r.Shaped()
    ensures r'.Shaped() && |r'.delta| == |r.delta|
    decreases |ops|
  {
    if ops == [] then r else Step(Run(r, ops[..|ops| - 1]), ops[|ops| - 1]).0
  }

  ghost function Outputs(r: Ring, ops: seq<Op>): seq<Output>
    requires r.Shaped()
    decreases |ops|
  {
    if ops == [] then [] else
    var before := ops[..|ops| - 1];
    Outputs(r, before) + [Step(Run(r, before), ops[|ops| - 1]).1]
  }

  // ---- The flow invariant ---------------------------------------------------------------

  /** How far the entries of `d` are from the powers in `m`. */
  function Shifts(m: Powers, d: Powers): (r: Powers)
    ensures r.Keys == d.Keys
  {
    map k | k in d :: Abs(d[k] - Get(m, k))
  }

  /** Each tracked flow is the distance from the current power to the head's power (zero if unset). */
  ghost predicate Tracks(cum: Powers, head: Powers, flow: Powers) {
    && head.Keys <= flow.Keys
    && forall id :: id in flow ==> flow[id] == Abs(Get(head, id) - Get(cum, id))
  }

  /** The changes gathered in the head add up to less than a third of the current power. */
  ghost predicate Bounded(cum: Powers, head: Powers) {
    head == map[] || Total(Shifts(cum, head)) <= Total(cum) / 3 - 1
  }

  predicate Ranges(r: Ring)
    requires r.Shaped()
  {
    forall i :: 0 <= i < |r.delta| ==> NonNegative(r.cum[i]) && InRange(r.delta[i], INT64_LIMIT)
  }

  ghost predicate Safe(r: Ring) {
    && r.Shaped()
    && Ranges(r)
    && Tracks(r.Cum(), r.Head(), r.flow)
    && Bounded(r.Cum(), r.Head())
  }

  lemma {:induction false} NewRingSafe(initial: Powers, window: int)
    requires NonNegative(initial)
    ensures Safe(NewRing(initial, window))
    ensures NewRing(initial, window).Cum() == initial
  {
  }

  lemma {:induction false} TracksBound(cum: Powers, head: Powers, flow: Powers)
    requires Tracks(cum, head, flow)
    ensures Total(Shifts(cum, head)) <= Total(flow)
  {
    var padded := map k | k in flow :: Get(Shifts(cum, head), k);
    assert forall k :: k in flow ==> padded[k] <= flow[k];
    TotalPad(Shifts(cum, head), padded);
    TotalMonotone(padded, flow);
  }

  lemma {:induction false} AcceptTracks(cum: Powers, head: Powers, flow: Powers, id: Address, p: int)
    requires Tracks(cum, head, flow)
    ensures Tracks(cum, head[id := p], flow[id := Abs(p - Get(cum, id))])
  {
  }

  lemma {:induction false} RefuseTracks(cum: Powers, head: Powers, flow: Powers, id: Address, f: int)
    requires Tracks(cum, head, flow)
    ensures Tracks(cum, head, flow[id := f][id := Abs(Get(head, id) - Get(cum, id))])
  {
  }

  lemma {:induction false} AlterPowerRanges(r: Ring, id: Address, p: int)
    requires r.Shaped() && Ranges(r)
    ensures Ranges(AlterPower(r, id, p).0)
  {
  }

  lemma {:induction false} AlterPowerSafe(r: Ring, id: Address, p: int)
    requires Safe(r)
    ensures Safe(AlterPower(r, id, p).0)
  {
    hide Total;
    var (r', res) := AlterPower(r, id, p);
    AlterPowerRanges(r, id, p);
    if res.Accepted? {
      AcceptTracks(r.Cum(), r.Head(), r.flow, id, p);
      TracksBound(r'.Cum(), r'.Head(), r'.flow);
    } else if res.FlowExceeded? {
      RefuseTracks(r.Cum(), r.Head(), r.flow, id, r.Flow(id, p));
    }
  }

  lemma {:induction false} OverlayMoved(m: Powers, trim: bool, d: Powers)
    ensures Moved(m, Overlay(m, trim, d)) == Total(Shifts(m, d))
  {
    var all := Widen(Shifts(m, d), m);
    var differences := Differences(m, Overlay(m, trim, d));
    assert forall k :: k in all ==> all[k] == Get(differences, k);
    TotalPad(Shifts(m, d), all);
    TotalPad(differences, all);
  }

  lemma {:induction false} RotateSafe(r: Ring)
    requires Safe(r)
    ensures Safe(Rotate(r))
  {
  }

  lemma {:induction false} RunSafe(r: Ring, ops: seq<Op>)
    requires Safe(r)
    ensures Safe(Run(r, ops))
    decreases |ops|
  {
    if ops != [] {
      var before := ops[..|ops| - 1];
      RunSafe(r, before);
      match ops[|ops| - 1] {
        case Alter(id, p) => AlterPowerSafe(Run(r, before), id, p);
        case Turn => RotateSafe(Run(r, before));
      }
    }
  }

  lemma {:induction false} CommonAtLeast(a: Powers, b: Powers)
    requires NonNegative(a) && NonNegative(b)
    ensures Total(a) - Moved(a, b) <= Common(a, b)
  {
    TotalPad(a, Widen(a, b));
    assert forall k :: k in Widen(a, b) ==> Widen(a, b)[k] <= Overlaps(a, b)[k] + Differences(a, b)[k];
    TotalSubadditive(Overlaps(a, b), Differences(a, b), Widen(a, b));
  }

  lemma {:induction false} CommonAtMost(a: Powers, b: Powers)
    ensures Common(a, b) <= Total(b)
  {
    TotalPad(b, Widen(b, a));
    TotalMonotone(Overlaps(a, b), Widen(b, a));
  }

  lemma {:induction false} OverlayBounded(cum: Powers, head: Powers)
    requires Bounded(cum, head)
    ensures var moved := Moved(cum, Overlay(cum, true, head)); moved == 0 || moved <= Total(cum) / 3 - 1
  {
    OverlayMoved(cum, true, head);
  }

  lemma {:induction false} OverlayOverlaps(cum: Powers, head: Powers)
    requires NonNegative(cum) && NonNegative(head)
    requires Bounded(cum, head) && Total(cum) > 0
    ensures var next := Overlay(cum, true, head);
            3 * Common(cum, next) > 2 * Total(cum) && Total(next) > 0
  {
    var next := Overlay(cum, true, head);
    OverlayBounded(cum, head);
    CommonAtLeast(cum, next);
    CommonAtMost(cum, next);
  }

  /**
    The promise of the ring: however power is altered, and whatever is refused on the way,
    each rotation moves no power at all or at most a third of the total less one.
   */
  lemma {:induction false} RotationBounded(initial: Powers, window: int, ops: seq<Op>)
    requires NonNegative(initial)
    ensures var r := Run(NewRing(initial, window), ops);
            var moved := Moved(r.Cum(), Rotate(r).Cum());
            moved == 0 || moved <= Total(r.Cum()) / 3 - 1
  {
    NewRingSafe(initial, window);
    RunSafe(NewRing(initial, window), ops);
    var r := Run(NewRing(initial, window), ops);
    OverlayBounded(r.Cum(), r.Head());
  }

  /**
    Successive sets keep more than two thirds of the old power in common, so a ring that
    starts with power never runs out of it.
   */
  lemma {:induction false} RotationOverlap(initial: Powers, window: int, ops: seq<Op>)
    requires NonNegative(initial) && Total(initial) > 0
    ensures var r := Run(NewRing(initial, window), ops);
            Total(r.Cum()) > 0 && 3 * Common(r.Cum(), Rotate(r).Cum()) > 2 * Total(r.Cum())
  {
    NewRingSafe(initial, window);
    RunSafe(NewRing(initial, window), ops);
    RunKeepsPower(NewRing(initial, window), ops);
    var r := Run(NewRing(initial, window), ops);
    OverlayOverlaps(r.Cum(), r.Head());
  }

  lemma {:induction false} StepKeepsPower(r: Ring, op: Op)
    requires Safe(r) && Total(r.Cum()) > 0
    ensures Total(Step(r, op).0.Cum()) > 0
  {
    if op.Turn? {
      OverlayOverlaps(r.Cum(), r.Head());
    }
  }

  lemma {:induction false} RunKeepsPower(r: Ring, ops: seq<Op>)
    requires Safe(r) && Total(r.Cum()) > 0
    ensures Total(Run(r, ops).Cum()) > 0
    decreases |ops|
  {
    if ops != [] {
      var before := ops[..|ops| - 1];
      RunKeepsPower(r, before);
      RunSafe(r, before);
      StepKeepsPower(Run(r, before), ops[|ops| - 1]);
    }
  }
}
