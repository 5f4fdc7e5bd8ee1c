/** Writing a ring out and reading it back, and what a restored ring can and cannot answer. */
module RingPersist {
  import opened WordSizes
  import opened Sums
  import opened Sorting
  import opened Addresses
  import opened RingModel
  import opened RingReports
  import opened RingHistory

  datatype Validator = Validator(id: Address, power: int)

  datatype PersistedRing = PersistedRing(delta: seq<seq<Validator>>, cum: seq<seq<Validator>>,
                                         power: seq<Validator>, flow: seq<Validator>, head: nat)

  /** big.Int.Uint64: the low 64 bits of the absolute value. */
  function Uint64(p: int): int {
    Abs(p) % UINT64_LIMIT
  }

  function PersistSet(m: Powers): (pvs: seq<Validator>)
    ensures |pvs| == |m.Keys|
  {
    var ids := SortedAddresses(m.Keys);
    seq(|ids|, i requires 0 <= i < |ids| =>
      assert ids[i] in Elements(ids);
      Validator(ids[i], Uint64(m[ids[i]])))
  }

  /** A set is written out in increasing order of address, every validator once. */
  lemma {:induction false} PersistSorted(m: Powers)
    ensures forall i, j :: 0 <= i < j < |PersistSet(m)| ==> PersistSet(m)[i].id as int < PersistSet(m)[j].id as int
    ensures forall id :: id in m <==> exists i :: 0 <= i < |PersistSet(m)| && PersistSet(m)[i].id == id
  {
    hide SortedAddresses, Elements;
    var ids := SortedAddresses(m.Keys);
    forall i, j | 0 <= i < j < |ids| ensures ids[i] as int < ids[j] as int {
      AddressesAscend(m.Keys, i, j);
    }
    forall id ensures id in m <==> exists i :: 0 <= i < |PersistSet(m)| && PersistSet(m)[i].id == id {
      PersistedOnce(m, id);
    }
  }

  lemma {:induction false} PersistedOnce(m: Powers, id: Address)
    ensures id in m <==> exists i :: 0 <= i < |PersistSet(m)| && PersistSet(m)[i].id == id
  {
    hide SortedAddresses;
    var ids := SortedAddresses(m.Keys);
    assert id in m <==> id in Elements(ids);
    if id in m {
      var i :| 0 <= i < |ids| && ids[i] == id;
      assert PersistSet(m)[i].id == id;
    }
  }

  function UnpersistSet(pvs: seq<Validator>): Powers {
    if pvs == [] then map[]
    else
      var last := pvs[|pvs| - 1];
      UnpersistSet(pvs[..|pvs| - 1])[last.id := last.power]
  }

  lemma {:induction false} UnpersistedAt(pvs: seq<Validator>, id: Address)
    requires forall i, j :: 0 <= i < j < |pvs| ==> pvs[i].id != pvs[j].id
    ensures id in UnpersistSet(pvs) <==> exists i :: 0 <= i < |pvs| && pvs[i].id == id
    ensures forall i :: 0 <= i < |pvs| ==> pvs[i].id in UnpersistSet(pvs) && UnpersistSet(pvs)[pvs[i].id] == pvs[i].power
  {
    if pvs != [] {
      UnpersistedAt(pvs[..|pvs| - 1], id);
    }
  }

  lemma {:induction false} PersistedAt(m: Powers, k: Address)
    ensures var back := UnpersistSet(PersistSet(m));
            (k in back <==> k in m) && (k in m ==> back[k] == Uint64(m[k]))
  {
    var ids, pvs := SortedAddresses(m.Keys), PersistSet(m);
    UnpersistedAt(pvs, k);
    if k in m {
      assert k in Elements(ids);
      var i :| 0 <= i < |ids| && ids[i] == k;
      assert pvs[i] == Validator(k, Uint64(m[k]));
    } else {
      forall i | 0 <= i < |pvs| ensures pvs[i].id != k {
        assert ids[i] in Elements(ids);
      }
    }
  }

  lemma {:induction false} Uint64Exact(p: int)
    ensures Uint64(p) == p <==> 0 <= p < UINT64_LIMIT
  {
  }

  /** A set survives being persisted exactly when its powers are 64-bit unsigned numbers. */
  lemma {:induction false} SetRoundTrip(m: Powers)
    ensures UnpersistSet(PersistSet(m)) == m <==> InRange(m, UINT64_LIMIT)
  {
    hide UnpersistSet, PersistSet;
    var back := UnpersistSet(PersistSet(m));
    forall k ensures k in back <==> k in m
             ensures k in m ==> (back[k] == m[k] <==> 0 <= m[k] < UINT64_LIMIT) {
      PersistedAt(m, k);
      if k in m { Uint64Exact(m[k]); }
    }
  }

  function Persistable(r: Ring): PersistedRing
    requires r.Shaped()
  {
    PersistedRing(seq(|r.delta|, i requires 0 <= i < |r.delta| => PersistSet(r.delta[i])),
                  seq(|r.delta|, i requires 0 <= i < |r.delta| => PersistSet(r.cum[i])),
                  PersistSet(r.power), PersistSet(r.flow), r.head)
  }

  /** The number of populated buckets is not written out: a restored ring starts from zero. */
  function UnpersistRing(pc: PersistedRing): Ring
    requires |pc.delta| == |pc.cum|
  {
    Ring(seq(|pc.delta|, i requires 0 <= i < |pc.delta| => UnpersistSet(pc.delta[i])),
         seq(|pc.delta|, i requires 0 <= i < |pc.delta| => UnpersistSet(pc.cum[i])),
         UnpersistSet(pc.power), UnpersistSet(pc.flow), pc.head, 0)
  }

  predicate Fits(r: Ring) {
    && r.Shaped()
    && (forall i :: 0 <= i < |r.delta| ==> InRange(r.delta[i], UINT64_LIMIT) && InRange(r.cum[i], UINT64_LIMIT))
    && InRange(r.flow, UINT64_LIMIT)
  }

  /** Two rings that differ at most in the bookkeeping no decision depends on. */
  predicate Alike(r: Ring, s: Ring) {
    && r.Shaped() && s.Shaped()
    && r.delta == s.delta && r.cum == s.cum && r.flow == s.flow && r.head == s.head
  }

  lemma {:induction false} RestoreAlike(r: Ring)
    requires Fits(r)
    ensures Alike(r, UnpersistRing(Persistable(r)))
  {
    var s := UnpersistRing(Persistable(r));
    forall i | 0 <= i < |r.delta| ensures s.delta[i] == r.delta[i] && s.cum[i] == r.cum[i] {
      SetRoundTrip(r.delta[i]);
      SetRoundTrip(r.cum[i]);
    }
    SetRoundTrip(r.flow);
  }

  lemma {:induction false} AlterFlowFits(r: Ring, id: Address, p: int)
    requires Fits(r)
    ensures InRange(AlterPower(r, id, p).0.flow, UINT64_LIMIT)
  {
    assert 0 <= Get(r.Cum(), id) < UINT64_LIMIT && 0 <= Get(r.Head(), id) < UINT64_LIMIT;
  }

  lemma {:induction false} AlterFits(r: Ring, id: Address, p: int)
    requires Fits(r)
    ensures Fits(AlterPower(r, id, p).0)
  {
    AlterFlowFits(r, id, p);
  }

  lemma {:induction false} RotateFits(r: Ring)
    requires Fits(r)
    ensures Fits(Rotate(r))
  {
    assert InRange(NextCum(r), UINT64_LIMIT);
  }

  lemma {:induction false} RunFits(r: Ring, ops: seq<Op>)
    requires Fits(r)
    ensures Fits(Run(r, ops))
    decreases |ops|
  {
    if ops != [] {
      RunFits(r, ops[..|ops| - 1]);
      match ops[|ops| - 1] {
        case Alter(id, p) => AlterFits(Run(r, ops[..|ops| - 1]), id, p);
        case Turn => RotateFits(Run(r, ops[..|ops| - 1]));
      }
    }
  }

  lemma {:induction false} AlterAlike(r: Ring, s: Ring, id: Address, p: int)
    requires Alike(r, s)
    ensures Alike(AlterPower(r, id, p).0, AlterPower(s, id, p).0) && AlterPower(r, id, p).1 == AlterPower(s, id, p).1
  {
    assert r.Cum() == s.Cum() && r.Head() == s.Head() && r.MaxFlow() == s.MaxFlow();
  }

  lemma {:induction false} RotateAlike(r: Ring, s: Ring)
    requires Alike(r, s)
    ensures Alike(Rotate(r), Rotate(s)) && RotateReport(r) == RotateReport(s)
  {
    assert r.Index(1) == s.Index(1) && NextCum(r) == NextCum(s);
    assert Rotate(r).Back(1) == Rotate(s).Back(1);
  }

  lemma {:induction false} RunAlike(r: Ring, s: Ring, ops: seq<Op>)
    requires Alike(r, s)
    ensures Alike(Run(r, ops), Run(s, ops)) && Outputs(r, ops) == Outputs(s, ops)
    decreases |ops|
  {
    if ops != [] {
      var before := ops[..|ops| - 1];
      RunAlike(r, s, before);
      match ops[|ops| - 1] {
        case Alter(id, p) => AlterAlike(Run(r, before), Run(s, before), id, p);
        case Turn => RotateAlike(Run(r, before), Run(s, before));
      }
    }
  }

  /**
    A ring saved at any point of any run answers every later sequence of calls as the
    original does: same acceptances, flows, rotation reports and current sets.
   */
  lemma {:induction false} RestoredRingEquivalent(initial: Powers, window: int, past: seq<Op>, future: seq<Op>)
    requires InRange(initial, UINT64_LIMIT)
    ensures var r := Run(NewRing(initial, window), past);
            var s := UnpersistRing(Persistable(r));
            && s.Shaped()
            && Outputs(s, future) == Outputs(r, future)
            && Run(s, future).Cum() == Run(r, future).Cum()
  {
    var r := Run(NewRing(initial, window), past);
    RunFits(NewRing(initial, window), past);
    RestoreAlike(r);
    RunAlike(r, UnpersistRing(Persistable(r)), future);
  }

  // ---- Previous sets after a restore ----------------------------------------------------

  function Turns(ops: seq<Op>): nat {
    if ops == [] then 0 else Turns(ops[..|ops| - 1]) + if ops[|ops| - 1].Turn? then 1 else 0
  }

  lemma {:induction false} RotateCum(r: Ring, k: nat)
    requires r.Shaped() && k + 1 < |r.delta|
    ensures Rotate(r).cum[Rotate(r).Back(k + 1)] == r.cum[r.Back(k)]
  {
    hide Overlay, Accumulate;
    IndexAges(r, k + 1);
    IndexNext(r);
    IndexBack(r, k);
  }

  lemma {:induction false} AlterCum(r: Ring, id: Address, p: int, k: nat)
    requires r.Shaped() && k < |r.delta|
    ensures var r' := AlterPower(r, id, p).0; r'.Shaped() && |r'.delta| == |r.delta| && r'.cum[r'.Back(k)] == r.cum[r.Back(k)]
  {
    hide Total, Remainder;
  }

  /** While the window reaches, the set current before a run is found as many rotations back as it made. */
  lemma {:induction false} CumStays(r: Ring, ops: seq<Op>)
    requires r.Shaped() && Turns(ops) < |r.delta|
    ensures Run(r, ops).cum[Run(r, ops).Back(Turns(ops))] == r.Cum()
    decreases |ops|
  {
    hide Rotate, AlterPower, Remainder;
    if ops == [] {
      IndexBack(r, 0);
    } else {
      var before, op := ops[..|ops| - 1], ops[|ops| - 1];
      CumStays(r, before);
      match op {
        case Turn => RotateCum(Run(r, before), Turns(before));
        case Alter(id, p) => AlterCum(Run(r, before), id, p, Turns(before));
      }
    }
  }

  lemma {:induction false} PopulatedByTurns(r: Ring, ops: seq<Op>)
    requires r.Shaped()
    ensures Run(r, ops).populated == Min(r.populated + Turns(ops), |r.delta|)
    decreases |ops|
  {
    if ops != [] {
      PopulatedByTurns(r, ops[..|ops| - 1]);
    }
  }

  lemma {:induction false} AlikePreviousSet(r: Ring, s: Ring, delay: nat)
    requires Alike(r, s) && s.populated <= r.populated
    ensures s.PreviousSet(delay) == r.cum[r.Back(if delay > s.populated then s.populated else delay)]
    ensures delay <= s.populated || s.populated == r.populated ==> s.PreviousSet(delay) == r.PreviousSet(delay)
  {
  }

  /**
    A restored ring has forgotten how many buckets are populated: it finds the previous set
    the original finds as long as the delay does not reach past the restore or a whole window
    has passed since, and otherwise answers with the set that was current at the restore.
   */
  lemma {:induction false} RestoredPreviousSet(r: Ring, future: seq<Op>, delay: nat)
    requires Fits(r)
    ensures var r', s' := Run(r, future), Run(UnpersistRing(Persistable(r)), future);
            if delay <= Turns(future) || r.populated == 0 || Turns(future) >= |r.delta|
            then s'.PreviousSet(delay) == r'.PreviousSet(delay)
            else s'.PreviousSet(delay) == r.Cum()
  {
    hide Run, PersistSet, UnpersistSet, Turns, Remainder;
    var s := UnpersistRing(Persistable(r));
    RestoreAlike(r);
    RunAlike(r, s, future);
    PopulatedByTurns(r, future);
    PopulatedByTurns(s, future);
    AlikePreviousSet(Run(r, future), Run(s, future), delay);
    if Turns(future) < |r.delta| { CumStays(r, future); }
  }

  /** A ring of one validator of power nine, raised to ten and rotated. */
  ghost function Raised(): Ring {
    Rotate(AlterPower(NewRing(map[7 := 9], 2), 7, 10).0)
  }

  lemma {:induction false} RaisedSets()
    ensures Raised().cum == [map[7 := 9], map[7 := 10]] && Raised().head == 1 && Raised().populated == 1
    ensures Fits(Raised())
  {
    var start: Powers := map[7 := 9];
    var r0 := NewRing(start, 2);
    TotalUpdate(map[], 7 as Address, 9);
    assert Total(start) == 9 by { assert start == map[][7 := 9]; }
    TotalUpdate(map[], 7 as Address, 1);
    assert r0.Cum() == start && r0.flow[7 := 1] == map[][7 := 1];
    var r1 := AlterPower(r0, 7, 10).0;
    assert AlterPower(r0, 7, 10).1 == Accepted(1) && r1.Head() == map[7 := 10];
    IndexNext(r1);
    assert NextCum(r1) == map[7 := 10];
  }

  lemma {:induction false} RaisedByRun()
    ensures Run(NewRing(map[7 := 9], 2), [Alter(7, 10), Turn]) == Raised()
  {
    hide AlterPower, Rotate;
    var ops := [Alter(7, 10), Turn];
    assert ops[..1] == [Alter(7, 10)] && ops[..1][..0] == [];
  }

  /** Restored after a run of one rotation, a ring answers with the current set where the original has the one before. */
  lemma {:induction false} RestoredForgets()
    ensures var r := Run(NewRing(map[7 := 9], 2), [Alter(7, 10), Turn]);
            var s := UnpersistRing(Persistable(r));
            s.Shaped() && r.PreviousSet(1) == map[7 := 9] && s.PreviousSet(1) == map[7 := 10]
  {
    hide PersistSet, UnpersistSet, Raised, Run;
    RaisedByRun();
    RaisedSets();
    IndexBack(Raised(), 1);
    IndexBack(Raised(), 0);
    RestoreAlike(Raised());
  }
}
