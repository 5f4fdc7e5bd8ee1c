/** What the ring reports to its caller, and exactly when the reports can be trusted. */
module RingReports {
  import opened WordSizes
  import opened Sums
  import opened Addresses
  import opened RingModel

  // ---- Index arithmetic -----------------------------------------------------------------

  lemma {:induction false} IndexBack(r: Ring, k: nat)
    requires r.Shaped() && k <= |r.delta|
    ensures r.Back(k) == if k <= r.head then r.head - k else r.head - k + |r.delta|
  {
    if k <= r.head {
      assert r.Back(k) == Remainder(r.head - k, |r.delta|);
    }
  }

  lemma {:induction false} IndexNext(r: Ring)
    requires r.Shaped()
    ensures r.Index(1) == if r.head + 1 < |r.delta| then r.head + 1 else 0
  {
    assert r.Index(1) == Remainder(r.head + 1, |r.delta|);
  }

  /** After a rotation what was k-1 back is k back. */
  lemma {:induction false} IndexAges(r: Ring, k: nat)
    requires r.Shaped() && 1 <= k <= |r.delta|
    ensures Rotate(r).Back(k) == r.Back(k - 1)
  {
    IndexNext(r);
    IndexBack(r, k - 1);
    IndexBack(Rotate(r), k);
  }

  /** The bucket that is reused next is the oldest one. */
  lemma {:induction false} IndexOldest(r: Ring)
    requires r.Shaped()
    ensures r.Index(1) == r.Back(|r.delta| - 1)
  {
    IndexNext(r);
    IndexBack(r, |r.delta| - 1);
  }

  // ---- Reports --------------------------------------------------------------------------

  /** By how much each entry of `d` raises or lowers the power in `m`. */
  function Raises(m: Powers, d: Powers): (r: Powers)
    ensures r.Keys == d.Keys
  {
    map k | k in d :: d[k] - Get(m, k)
  }

  /** A rotation changes the total power by what the head's entries raise and lower together. */
  lemma {:induction false} OverlayTotal(m: Powers, trim: bool, d: Powers)
    ensures Total(Overlay(m, trim, d)) == Total(m) + Total(Raises(m, d))
  {
    var next := Overlay(m, trim, d);
    var before, raises := Widen(m, d), Widen(Raises(m, d), m);
    var after := map k | k in m.Keys + d.Keys :: Get(next, k);
    assert forall k :: k in after ==> after[k] == before[k] + raises[k];
    TotalAdditive(before, raises, after);
    TotalPad(m, before);
    TotalPad(Raises(m, d), raises);
    TotalPad(next, after);
  }

  /**
    Rotate reports the change of total power exactly when the window has a second bucket to
    compare with, or what the head raises and lowers cancels out.
   */
  lemma {:induction false} ChangeReportExact(r: Ring)
    requires r.Shaped()
    ensures RotateReport(r).0 == Total(Rotate(r).Cum()) - Total(r.Cum())
            <==> (|r.delta| > 1 || Total(Raises(r.Cum(), r.Head())) == 0)
  {
    hide Total;
    IndexAges(r, 1);
    IndexBack(r, 0);
    IndexNext(r);
    OverlayTotal(r.Cum(), true, r.Head());
  }

  lemma {:induction false} ChangeReportMissing()
    ensures var r := Run(NewRing(map[7 := 9], 1), [Alter(7, 10)]);
            RotateReport(r).0 == 0 && Total(Rotate(r).Cum()) == Total(r.Cum()) + 1
  {
    var r0 := NewRing(map[7 := 9], 1);
    var start: Powers := map[7 := 9];
    assert r0.Cum() == start;
    TotalUpdate(map[], 7 as Address, 9);
    assert Total(start) == 9 by { assert start == map[][7 := 9]; }
    TotalUpdate(map[], 7 as Address, 1);
    assert r0.flow[7 := 1] == map[][7 := 1];
    var (r, out) := Step(r0, Alter(7, 10));
    assert out == Altered(Accepted(1)) && r.Head() == map[7 := 10];
    assert Run(r0, [Alter(7, 10)]) == r by {
      assert [Alter(7, 10)][..0] == [];
    }
    assert Rotate(r).Cum() == start[7 := 10];
    TotalUpdate(start, 7, 10);
    assert Rotate(r).Back(1) == 0;
  }

  /** Validators whose changes were all refused since the last rotation: their whole power counts as flow. */
  function Strays(cum: Powers, head: Powers, flow: Powers): (s: Powers)
    ensures s.Keys == flow.Keys - head.Keys
  {
    map k | k in flow.Keys - head.Keys :: Get(cum, k)
  }

  lemma {:induction false} TracksSplit(cum: Powers, head: Powers, flow: Powers)
    requires Tracks(cum, head, flow) && NonNegative(cum)
    ensures Total(flow) == Total(Shifts(cum, head)) + Total(Strays(cum, head, flow))
  {
    var shifts := map k | k in flow :: Get(Shifts(cum, head), k);
    var strays := map k | k in flow :: Get(Strays(cum, head, flow), k);
    assert forall k :: k in flow ==> flow[k] == shifts[k] + strays[k];
    TotalAdditive(shifts, strays, flow);
    assert Total(shifts) == Total(Shifts(cum, head)) by { TotalPad(Shifts(cum, head), shifts); }
    assert Total(strays) == Total(Strays(cum, head, flow)) by { TotalPad(Strays(cum, head, flow), strays); }
  }

  /** The total flow reported by Rotate is what moves plus the power of the strays, so never too small. */
  lemma {:induction false} FlowReport(r: Ring)
    requires Safe(r)
    ensures RotateReport(r).1 >= Moved(r.Cum(), Rotate(r).Cum())
    ensures RotateReport(r).1 == Moved(r.Cum(), Rotate(r).Cum())
            <==> forall k :: k in r.flow && k !in r.Head() ==> Get(r.Cum(), k) == 0
  {
    var strays := Strays(r.Cum(), r.Head(), r.flow);
    OverlayMoved(r.Cum(), true, r.Head());
    TracksSplit(r.Cum(), r.Head(), r.flow);
    TotalNonNegative(strays);
    TotalZero(strays);
    assert forall k :: k in strays <==> k in r.flow && k !in r.Head();
  }

  lemma {:induction false} TotalZero(m: Powers)
    requires NonNegative(m)
    ensures Total(m) == 0 <==> forall k :: k in m ==> m[k] == 0
    decreases |m|
  {
    if m != map[] {
      var k :| k in m;
      TotalRemove(m, k);
      TotalNonNegative(m - {k});
      TotalZero(m - {k});
      assert forall j :: j in m ==> j == k || (j in m - {k} && (m - {k})[j] == m[j]);
      assert forall j :: j in m - {k} ==> j in m;
    }
  }

  /** A refused change is a no-op exactly when that validator was already touched in this block. */
  lemma {:induction false} RefusalUndone(r: Ring, id: Address, p: int)
    requires Safe(r)
    requires AlterPower(r, id, p).1.FlowExceeded?
    ensures AlterPower(r, id, p).0 == r <==> id in r.flow
    ensures Total(AlterPower(r, id, p).0.flow)
            == Total(r.flow) + (if id in r.flow then 0 else Get(r.Cum(), id))
  {
    var prev := r.Flow(id, Get(r.Head(), id));
    var r' := AlterPower(r, id, p).0;
    assert r'.flow == r.flow[id := prev];
    TotalUpdate(r.flow, id, prev);
  }

  /** A first change in a block that is refused leaves the validator's whole power behind as flow. */
  lemma {:induction false} RefusalLeavesFlow()
    ensures var r := NewRing(map[7 := 9], 2);
            var (r', out) := AlterPower(r, 7, 100);
            out == FlowExceeded && r'.flow == map[7 := 9] && r' != r
  {
    var r := NewRing(map[7 := 9], 2);
    var start: Powers := map[7 := 9];
    assert r.Cum() == start && r.Head() == map[];
    TotalUpdate(map[], 7 as Address, 9);
    assert Total(start) == 9 by { assert start == map[][7 := 9]; }
    TotalUpdate(map[], 7 as Address, 91);
    assert r.flow[7 := 91] == map[][7 := 91];
  }

  /** After it a rotation that moves nothing reports that power as flow. */
  lemma {:induction false} FlowOverstated()
    ensures var r := Run(NewRing(map[7 := 9], 2), [Alter(7, 100)]);
            RotateReport(r).1 == 9 && Moved(r.Cum(), Rotate(r).Cum()) == 0
  {
    hide AlterPower, Total, Moved;
    var r0 := NewRing(map[7 := 9], 2);
    RefusalLeavesFlow();
    RefusalKeeps(r0, 7, 100);
    var r := AlterPower(r0, 7, 100).0;
    assert Run(r0, [Alter(7, 100)]) == r by { assert [Alter(7, 100)][..0] == []; }
    TotalUpdate(map[], 7 as Address, 9);
    EmptyTotal<Address>();
    assert r.flow == map[][7 := 9] && r.Head() == map[];
    OverlayMoved(r.Cum(), true, r.Head());
    assert Shifts(r.Cum(), r.Head()) == map[];
  }

  lemma {:induction false} RefusalKeeps(r: Ring, id: Address, p: int)
    requires r.Shaped() && AlterPower(r, id, p).1.FlowExceeded?
    ensures AlterPower(r, id, p).0 == r.(flow := AlterPower(r, id, p).0.flow)
  {
    hide Total;
  }

  // ---- When the set can change at all ---------------------------------------------------

  lemma {:induction false} MovedNothing(a: Powers, b: Powers)
    requires Moved(a, b) == 0
    ensures forall k :: Get(a, k) == Get(b, k)
  {
    TotalZero(Differences(a, b));
    forall k ensures Get(a, k) == Get(b, k) {
      if k in a || k in b {
        assert k in Differences(a, b);
      }
    }
  }

  lemma {:induction false} SameGetsSameTotal(a: Powers, b: Powers)
    requires forall k :: Get(a, k) == Get(b, k)
    ensures Total(a) == Total(b)
  {
    TotalPad(a, Widen(a, b));
    TotalPad(b, Widen(a, b));
  }

  lemma {:induction false} SmallSetStays(cum: Powers, head: Powers)
    requires Bounded(cum, head) && Total(cum) < 6
    ensures forall k :: Get(Overlay(cum, true, head), k) == Get(cum, k)
  {
    hide Total, Bounded, Overlay;
    OverlayBounded(cum, head);
    TotalNonNegative(Differences(cum, Overlay(cum, true, head)));
    MovedNothing(cum, Overlay(cum, true, head));
  }

  /** With less than six units of total power no validator's power ever changes. */
  lemma {:induction false} SmallRingsFrozen(r: Ring, ops: seq<Op>)
    requires Safe(r) && Total(r.Cum()) < 6
    ensures forall k :: Get(Run(r, ops).Cum(), k) == Get(r.Cum(), k)
    decreases |ops|
  {
    hide Total, AlterPower, Rotate, Overlay, Bounded;
    if ops != [] {
      var before := ops[..|ops| - 1];
      SmallRingsFrozen(r, before);
      RunSafe(r, before);
      if !ops[|ops| - 1].Turn? { StepKeepsCum(Run(r, before), ops[|ops| - 1]); }
      SameGetsSameTotal(Run(r, before).Cum(), r.Cum());
      SmallSetStays(Run(r, before).Cum(), Run(r, before).Head());
    }
  }

  lemma {:induction false} StepKeepsCum(r: Ring, op: Op)
    requires r.Shaped() && !op.Turn?
    ensures Step(r, op).0.Cum() == r.Cum()
  {
  }

  /** From six units on a block can start by raising any validator's power. */
  lemma {:induction false} LargeRingsMove(r: Ring, id: Address)
    requires Safe(r) && r.flow == map[] && Total(r.Cum()) >= 6
    requires Get(r.Cum(), id) + 1 < INT64_LIMIT
    ensures var (r', res) := AlterPower(r, id, Get(r.Cum(), id) + 1);
            res.Accepted? && Get(Rotate(r').Cum(), id) == Get(r.Cum(), id) + 1
  {
    TotalUpdate(map[], id, 1);
    assert r.flow[id := 1] == map[][id := 1];
  }
}
