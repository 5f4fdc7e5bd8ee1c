/**
  The ring against an unbounded history: every set that was ever current and every block's
  changes, with nothing forgotten. The ring keeps the newest of them.
 */
module RingHistory {
  import opened WordSizes
  import opened Sums
  import opened Addresses
  import opened RingModel
  import opened RingReports

  /** `sets[i]` was current before block i, `deltas[i]` are the changes block i asked for. */
  datatype History = History(sets: seq<Powers>, deltas: seq<Powers>, flow: Powers)
  {
    predicate Shaped() {
      |sets| == |deltas| > 0
    }

    /** The number of rotations so far. */
    function Age(): nat
      requires Shaped()
    {
      |sets| - 1
    }
  }

  function Begin(initial: Powers): History {
    History([initial], [map[]], map[])
  }

  ghost function Record(h: History, op: Op): (h': History)
    requires h.Shaped()
    ensures h'.Shaped()
  {
    var n := h.Age();
    match op
    case Turn =>
      History(h.sets + [Overlay(h.sets[n], true, h.deltas[n])], h.deltas + [map[]], map[])
    case Alter(id, p) =>
      var flow := Abs(p - Get(h.sets[n], id));
      if p < 0 || p >= INT64_LIMIT then h
      else if Total(h.flow[id := flow]) > Total(h.sets[n]) / 3 - 1 then
        h.(flow := h.flow[id := flow][id := Abs(Get(h.deltas[n], id) - Get(h.sets[n], id))])
      else
        h.(flow := h.flow[id := flow], deltas := h.deltas[n := h.deltas[n][id := p]])
  }

  ghost function Chronicle(h: History, ops: seq<Op>): (h': History)
    requires h.Shaped()
    ensures h'.Shaped()
    decreases |ops|
  {
    if ops == [] then h else Record(Chronicle(h, ops[..|ops| - 1]), ops[|ops| - 1])
  }

  /** The sum of `id`'s powers in the `k` buckets behind the head. */
  function BehindHead(r: Ring, id: Address, k: nat): int
    requires r.Shaped() && k < |r.delta|
  {
    if k == 0 then 0 else BehindHead(r, id, k - 1) + Get(r.delta[r.Back(k)], id)
  }

  /** Bucket k back holds what the history recorded k blocks ago; older buckets are still empty. */
  predicate KeepsBucket(r: Ring, h: History, k: nat)
    requires r.Shaped() && h.Shaped() && k < |r.delta|
  {
    var n := h.Age();
    if k <= n then r.cum[r.Back(k)] == h.sets[n - k] && r.delta[r.Back(k)] == h.deltas[n - k]
    else r.cum[r.Back(k)] == map[] && r.delta[r.Back(k)] == map[]
  }

  ghost predicate Refines(r: Ring, h: History) {
    && r.Shaped() && h.Shaped()
    && r.populated == Min(h.Age(), |r.delta|)
    && r.flow == h.flow
    && (forall k :: 0 <= k < |r.delta| ==> KeepsBucket(r, h, k))
    && (forall id :: Get(r.power, id) == BehindHead(r, id, |r.delta| - 1))
  }

  lemma {:induction false} BeginRefines(initial: Powers, window: int)
    ensures Refines(NewRing(initial, window), Begin(initial))
  {
    var r, h := NewRing(initial, window), Begin(initial);
    forall k | 0 <= k < |r.delta| ensures KeepsBucket(r, h, k) {
      IndexBack(r, k);
    }
    forall id ensures Get(r.power, id) == BehindHead(r, id, |r.delta| - 1) {
      NothingBehind(r, id, |r.delta| - 1);
    }
  }

  lemma {:induction false} NothingBehind(r: Ring, id: Address, k: nat)
    requires r.Shaped() && k < |r.delta|
    requires forall i :: 0 <= i < |r.delta| ==> r.delta[i] == map[]
    ensures BehindHead(r, id, k) == 0
  {
    if k > 0 { NothingBehind(r, id, k - 1); }
  }

  /** Only the head bucket can be altered, so the sum behind it stays. */
  lemma {:induction false} BehindUnmoved(r: Ring, r': Ring, id: Address, k: nat)
    requires r.Shaped() && r'.Shaped() && k < |r.delta| == |r'.delta| && r.head == r'.head
    requires forall i :: 0 <= i < |r.delta| && i != r.head ==> r'.delta[i] == r.delta[i]
    ensures BehindHead(r', id, k) == BehindHead(r, id, k)
  {
    if k > 0 {
      BehindUnmoved(r, r', id, k - 1);
      IndexBack(r, k);
      IndexBack(r', k);
    }
  }

  /** Rotating pushes the head behind and drops the oldest bucket. */
  lemma {:induction false} BehindRotated(r: Ring, id: Address, k: nat)
    requires r.Shaped() && 1 <= k < |r.delta|
    ensures BehindHead(Rotate(r), id, k) == Get(r.Head(), id) + BehindHead(r, id, k - 1)
  {
    IndexAges(r, k);
    IndexBack(r, k - 1);
    IndexNext(r);
    if k > 1 {
      BehindRotated(r, id, k - 1);
      IndexBack(r, k - 1);
    }
  }

  lemma {:induction false} AlterFields(r: Ring, id: Address, p: int)
    requires r.Shaped()
    ensures var r' := AlterPower(r, id, p).0; r'.Shaped() && r' == r.(flow := r'.flow, delta := r.delta[r.head := r'.Head()])
  {
    hide Total;
  }

  lemma {:induction false} RecordFields(h: History, id: Address, p: int)
    requires h.Shaped()
    ensures var h' := Record(h, Alter(id, p));
            |h'.deltas| == |h.deltas| && h' == h.(flow := h'.flow, deltas := h.deltas[h.Age() := h'.deltas[h.Age()]])
  {
    hide Total;
  }

  /** Ring and history, agreeing on the current set, the head and the flow, decide a change alike. */
  lemma {:induction false} SameDecision(r: Ring, h: History, id: Address, p: int)
    requires r.Shaped() && h.Shaped() && r.flow == h.flow
    requires r.Cum() == h.sets[h.Age()] && r.Head() == h.deltas[h.Age()]
    ensures var r', h' := AlterPower(r, id, p).0, Record(h, Alter(id, p));
            && r'.Shaped() && |h'.deltas| == |h.deltas|
            && r'.flow == h'.flow && r'.Head() == h'.deltas[h.Age()]
  {
    hide Total;
  }

  lemma {:induction false} AlterHead(r: Ring, h: History, id: Address, p: int)
    requires Refines(r, h)
    ensures r.Cum() == h.sets[h.Age()] && r.Head() == h.deltas[h.Age()]
    ensures var r', h' := AlterPower(r, id, p).0, Record(h, Alter(id, p));
            && r'.flow == h'.flow && r'.Head() == h'.deltas[h.Age()]
            && r' == r.(flow := r'.flow, delta := r.delta[r.head := r'.Head()])
            && h' == h.(flow := h'.flow, deltas := h.deltas[h.Age() := h'.deltas[h.Age()]])
  {
    hide AlterPower, Record, BehindHead;
    assert KeepsBucket(r, h, 0);
    IndexBack(r, 0);
    AlterFields(r, id, p);
    RecordFields(h, id, p);
    SameDecision(r, h, id, p);
  }

  lemma {:induction false} AlterBucket(r: Ring, h: History, id: Address, p: int, k: nat)
    requires Refines(r, h) && k < |r.delta|
    ensures KeepsBucket(AlterPower(r, id, p).0, Record(h, Alter(id, p)), k)
  {
    AlterHead(r, h, id, p);
    assert KeepsBucket(r, h, k);
    IndexBack(r, k);
    IndexBack(AlterPower(r, id, p).0, k);
  }

  lemma {:induction false} AlterRefines(r: Ring, h: History, id: Address, p: int)
    requires Refines(r, h)
    ensures Refines(AlterPower(r, id, p).0, Record(h, Alter(id, p)))
  {
    var r' := AlterPower(r, id, p).0;
    AlterHead(r, h, id, p);
    forall k | 0 <= k < |r.delta| ensures KeepsBucket(r', Record(h, Alter(id, p)), k) {
      AlterBucket(r, h, id, p, k);
    }
    forall a ensures Get(r'.power, a) == BehindHead(r', a, |r.delta| - 1) {
      BehindUnmoved(r, r', a, |r.delta| - 1);
    }
  }

  lemma {:induction false} RotatePower(r: Ring, id: Address)
    requires r.Shaped()
    requires Get(r.power, id) == BehindHead(r, id, |r.delta| - 1)
    ensures Get(Rotate(r).power, id) == BehindHead(Rotate(r), id, |r.delta| - 1)
  {
    IndexOldest(r);
    IndexBack(r, 0);
    assert Get(Rotate(r).power, id) == Get(r.power, id) - Get(r.delta[r.Index(1)], id) + Get(r.Head(), id);
    if |r.delta| > 1 {
      BehindRotated(r, id, |r.delta| - 1);
    }
  }

  lemma {:induction false} RotateBuckets(r: Ring, h: History, k: nat)
    requires Refines(r, h) && k < |r.delta|
    ensures KeepsBucket(Rotate(r), Record(h, Turn), k)
  {
    var r' := Rotate(r);
    IndexNext(r);
    IndexBack(r', k);
    assert KeepsBucket(r, h, 0);
    IndexBack(r, 0);
    if k > 0 {
      assert KeepsBucket(r, h, k - 1);
      IndexAges(r, k);
      IndexBack(r, k - 1);
    }
  }

  lemma {:induction false} RotateRefines(r: Ring, h: History)
    requires Refines(r, h)
    ensures Refines(Rotate(r), Record(h, Turn))
  {
    forall k | 0 <= k < |r.delta| ensures KeepsBucket(Rotate(r), Record(h, Turn), k) {
      RotateBuckets(r, h, k);
    }
    forall id ensures Get(Rotate(r).power, id) == BehindHead(Rotate(r), id, |r.delta| - 1) {
      RotatePower(r, id);
    }
  }

  lemma {:induction false} RunRefines(r: Ring, h: History, ops: seq<Op>)
    requires Refines(r, h)
    ensures Refines(Run(r, ops), Chronicle(h, ops))
    decreases |ops|
  {
    if ops != [] {
      var before := ops[..|ops| - 1];
      RunRefines(r, h, before);
      match ops[|ops| - 1] {
        case Alter(id, p) => AlterRefines(Run(r, before), Chronicle(h, before), id, p);
        case Turn => RotateRefines(Run(r, before), Chronicle(h, before));
      }
    }
  }

  ghost predicate Linked(h: History)
    requires h.Shaped()
  {
    forall i :: 0 <= i < h.Age() ==> h.sets[i + 1] == Overlay(h.sets[i], true, h.deltas[i])
  }

  lemma {:induction false} ChronicleLinked(h: History, ops: seq<Op>)
    requires h.Shaped() && Linked(h)
    ensures Linked(Chronicle(h, ops))
    decreases |ops|
  {
    if ops != [] {
      ChronicleLinked(h, ops[..|ops| - 1]);
    }
  }

  lemma {:induction false} RefinesPrevious(r: Ring, h: History, delay: nat)
    requires Refines(r, h)
    ensures var n := h.Age();
            r.PreviousSet(delay) == h.sets[n - (if Min(delay, n) < |r.delta| then Min(delay, n) else 0)]
  {
    var k := if delay > r.populated then r.populated else delay;
    IndexBack(r, k);
    IndexBack(r, 0);
    assert KeepsBucket(r, h, if k == |r.delta| then 0 else k);
  }

  lemma {:induction false} RefinesLinks(r: Ring, h: History, k: nat)
    requires Refines(r, h) && Linked(h) && 1 <= k < |r.delta| && k <= h.Age()
    ensures Overlay(r.cum[r.Back(k)], true, r.delta[r.Back(k)]) == r.cum[r.Back(k - 1)]
  {
    assert KeepsBucket(r, h, k) && KeepsBucket(r, h, k - 1);
    var i := h.Age() - k;
    assert h.sets[i + 1] == Overlay(h.sets[i], true, h.deltas[i]);
  }

  /**
    The ring is the newest window of the history: the set `delay` rotations ago as long as
    the window reaches back that far, the oldest set still known when the chain is younger
    than that, and the current set again when the delay is a full turn. The buckets still
    held carry each set to the next, and `power` sums the changes of all blocks behind the head.
   */
  ghost predicate IsWindow(r: Ring, h: History) {
    && r.Shaped() && h.Shaped()
    && (forall delay: nat ::
          r.PreviousSet(delay) == h.sets[h.Age() - (if Min(delay, h.Age()) < |r.delta| then Min(delay, h.Age()) else 0)])
    && (forall k :: 1 <= k < |r.delta| && k <= h.Age() ==>
          Overlay(r.cum[r.Back(k)], true, r.delta[r.Back(k)]) == r.cum[r.Back(k - 1)])
    && (forall id :: Get(r.power, id) == BehindHead(r, id, |r.delta| - 1))
  }

  lemma {:induction false} RefinesIsWindow(r: Ring, h: History)
    requires Refines(r, h) && Linked(h)
    ensures IsWindow(r, h)
  {
    forall delay: nat {
      RefinesPrevious(r, h, delay);
    }
    forall k | 1 <= k < |r.delta| && k <= h.Age() {
      RefinesLinks(r, h, k);
    }
  }

  /** In every run the ring is the newest window of the full history. */
  lemma {:induction false} RingIsHistoryWindow(initial: Powers, window: int, ops: seq<Op>)
    ensures IsWindow(Run(NewRing(initial, window), ops), Chronicle(Begin(initial), ops))
  {
    BeginRefines(initial, window);
    RunRefines(NewRing(initial, window), Begin(initial), ops);
    ChronicleLinked(Begin(initial), ops);
    RefinesIsWindow(Run(NewRing(initial, window), ops), Chronicle(Begin(initial), ops));
  }
}
