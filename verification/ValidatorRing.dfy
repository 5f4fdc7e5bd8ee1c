/** The ring buffer of validator sets, updated in place. */
module ValidatorRing {
  import opened WordSizes
  import opened Sums
  import opened Addresses
  import opened RingModel
  import opened RingPersist
  import opened ValidatorSets

  /** The sets hold the given powers, with running totals that add up. */
  ghost predicate Hold(sets: seq<Set>, ps: seq<Powers>)
    reads sets
  {
    |sets| == |ps| && forall i :: 0 <= i < |sets| ==> sets[i].Valid() && sets[i].powers == ps[i]
  }

  ghost predicate Distinct(sets: seq<Set>) {
    forall i, j :: 0 <= i < j < |sets| ==> sets[i] != sets[j]
  }

  lemma {:induction false} HoldUpdate(sets: seq<Set>, ps: seq<Powers>, i: nat, s: Set)
    requires Hold(sets, ps) && i < |sets| && s.Valid()
    ensures Hold(sets[i := s], ps[i := s.powers])
  {
  }

  lemma {:induction false} DistinctUpdate(sets: seq<Set>, i: nat, s: Set)
    requires Distinct(sets) && i < |sets| && s !in sets
    ensures Distinct(sets[i := s])
  {
  }

  method EmptySets(n: nat, trim: bool) returns (sets: seq<Set>)
    ensures |sets| == n && fresh(sets) && Distinct(sets) && Hold(sets, seq(n, _ => map[]))
    ensures forall i :: 0 <= i < n ==> sets[i].Valid() && sets[i].powers == map[] && sets[i].trim == trim
  {
    hide Total;
    sets := [];
    for i := 0 to n
      invariant |sets| == i && fresh(sets) && Distinct(sets)
      invariant forall j :: 0 <= j < i ==> sets[j].Valid() && sets[j].powers == map[] && sets[j].trim == trim
    {
      var s := new Set(trim);
      sets := sets + [s];
    }
  }

  /** A copy of the initial set, then an empty set for every other bucket. */
  method InitialSets(initial: Set, n: nat) returns (sets: seq<Set>)
    requires n > 0
    ensures |sets| == n && fresh(sets) && Hold(sets, NewRing(initial.powers, n).cum)
  {
    hide Total;
    var first := Copy(initial, false);
    var others := EmptySets(n - 1, true);
    sets := [first] + others;
  }

  method UnpersistSets(pvss: seq<seq<Validator>>) returns (sets: seq<Set>)
    ensures |sets| == |pvss| && fresh(sets) && Distinct(sets)
    ensures forall i :: 0 <= i < |sets| ==>
              sets[i].Valid() && sets[i].powers == UnpersistSet(pvss[i]) && !sets[i].trim
  {
    hide Total, UnpersistSet;
    sets := [];
    for i := 0 to |pvss|
      invariant |sets| == i && fresh(sets) && Distinct(sets)
      invariant forall j :: 0 <= j < i ==>
                  sets[j].Valid() && sets[j].powers == UnpersistSet(pvss[j]) && !sets[j].trim
    {
      var s := Unpersist(pvss[i]);
      sets := sets + [s];
    }
  }

  /** The ring with a fresh bucket at `next`. */
  function Fill(r: Ring, next: nat, c: Powers): Ring
    requires r.Shaped() && next < |r.delta|
  {
    r.(delta := r.delta[next := map[]], cum := r.cum[next := c])
  }

  function Restart(r: Ring, next: nat): Ring {
    r.(flow := map[], head := next, populated := if r.populated < |r.delta| then r.populated + 1 else r.populated)
  }

  lemma {:induction false} RotateParts(r: Ring)
    requires r.Shaped()
    ensures var next := r.Index(1);
            var power := Accumulate(Accumulate(r.power, r.delta[next], false), r.Head(), true);
            RingModel.Rotate(r) == Restart(Fill(r.(power := power), next, Overlay(r.Cum(), true, r.Head())), next)
  {
  }

  class Window {
    var delta: seq<Set>
    var cum: seq<Set>
    var power: Set
    var flow: Set
    var head: nat
    var size: nat
    var populated: nat

    /** The ring this object stands for. */
    ghost var view: Ring

    /** No set plays two parts. */
    ghost predicate Separate()
      reads this
    {
      && Distinct(delta)
      && (forall i, j :: 0 <= i < |delta| && 0 <= j < |cum| ==> delta[i] != cum[j])
      && power != flow
      && power !in delta && power !in cum
      && flow !in delta && flow !in cum
    }

    ghost predicate Valid()
      reads this, delta, cum, power, flow
    {
      && 0 < size == |delta| == |cum| && head < size && populated <= size
      && view.Shaped() && |view.delta| == size
      && Separate()
      && Hold(delta, view.delta) && Hold(cum, view.cum)
      && (forall i :: 0 <= i < size ==> !delta[i].trim)
      && power.Valid() && power.powers == view.power && !power.trim
      && flow.Valid() && flow.powers == view.flow && !flow.trim
      && head == view.head && populated == view.populated
    }

    constructor (initial: Set, windowSize: int)
      requires initial.Valid()
      ensures Valid() && fresh(delta) && fresh(cum) && fresh(power) && fresh(flow)
      ensures view == NewRing(initial.powers, windowSize)
    {
      hide Total, Hold, Distinct;
      var n := if windowSize < 1 then 1 else windowSize;
      var deltas := EmptySets(n, false);
      var cums := InitialSets(initial, n);
      var p := new Set(false);
      var f := new Set(false);
      delta, cum, power, flow := deltas, cums, p, f;
      head, populated, size := 0, 0, n;
      view := NewRing(initial.powers, windowSize);
    }

    method TrackFlow(id: Address, f: int)
      requires Valid()
      modifies this`view, flow
      ensures Valid() && view == old(view).(flow := old(view).flow[id := f])
    {
      hide Total, Hold, Distinct;
      var _ := flow.ChangePower(id, f);
      view := view.(flow := flow.powers);
    }

    method ChangeHead(id: Address, p: int)
      requires Valid()
      modifies this`view, delta[head]
      ensures Valid() && view == old(view).(delta := old(view).delta[head := old(view).Head()[id := p]])
    {
      hide Total;
      var _ := delta[head].ChangePower(id, p);
      view := view.(delta := view.delta[head := delta[head].powers]);
    }

    method AlterPower(id: Address, p: int) returns (res: AlterResult)
      requires Valid()
      modifies this`view, flow, delta[head]
      ensures Valid()
      ensures (view, res) == RingModel.AlterPower(old(view), id, p)
    {
      hide Total, Distinct;
      if p < 0 {
        return NegativePower;
      }
      if p >= INT64_LIMIT {
        return PowerTooLarge;
      }
      var f := Abs(p - Get(cum[head].powers, id));
      var maxFlow := cum[head].totalPower / 3 - 1;
      TrackFlow(id, f);
      if flow.totalPower > maxFlow {
        var prevFlow := Abs(Get(delta[head].powers, id) - Get(cum[head].powers, id));
        TrackFlow(id, prevFlow);
        return FlowExceeded;
      }
      ChangeHead(id, p);
      return Accepted(f);
    }

    /** The set the next block starts from. */
    method NextSet() returns (c: Set)
      requires Valid()
      ensures fresh(c) && c.Valid() && c.powers == Overlay(view.Cum(), true, view.Head())
    {
      hide Total, Overlay;
      c := Copy(cum[head], true);
      ValidatorSets.Alter(c, delta[head]);
    }

    /** Move the tail's changes out of the running power totals and the head's changes in. */
    method ShiftPower(next: nat)
      requires Valid() && next < size
      modifies this`view, power
      ensures Valid()
      ensures view == old(view).(power := Accumulate(Accumulate(old(view).power, view.delta[next], false), view.Head(), true))
    {
      hide Total, Accumulate;
      AddOrSubtract(power, delta[next], false);
      AddOrSubtract(power, delta[head], true);
      view := view.(power := power.powers);
    }

    /** Put an empty delta and the set `c` into bucket `next`. */
    method FillBucket(next: nat, c: Set)
      requires Valid() && next < size
      requires c.Valid() && c !in delta && c != power && c != flow
      modifies this`delta, this`cum, this`view
      ensures Valid()
      ensures view == Fill(old(view), next, c.powers)
    {
      hide Total, Hold, Distinct;
      var d := new Set(false);
      HoldUpdate(delta, view.delta, next, d);
      HoldUpdate(cum, view.cum, next, c);
      DistinctUpdate(delta, next, d);
      delta := delta[next := d];
      cum := cum[next := c];
      view := Fill(view, next, c.powers);
    }

    /** Start accumulating at bucket `next` with no flow. */
    method RestartAt(next: nat)
      requires Valid() && next < size
      modifies this`flow, this`head, this`populated, this`view
      ensures Valid()
      ensures view == Restart(old(view), next)
    {
      hide Total;
      flow := new Set(false);
      head := next;
      if populated < size {
        populated := populated + 1;
      }
      view := Restart(view, next);
    }

    method Rotate() returns (totalPowerChange: int, totalFlow: int)
      requires Valid()
      modifies this, power
      ensures Valid()
      ensures view == RingModel.Rotate(old(view))
      ensures (totalPowerChange, totalFlow) == RotateReport(old(view))
    {
      hide Total, RingModel.Rotate, Separate, Hold;
      totalFlow := flow.totalPower;
      Advance();
      totalPowerChange := CumChange();
    }

    /** Turn to the next bucket. */
    method Advance()
      requires Valid()
      modifies this, power
      ensures Valid()
      ensures view == RingModel.Rotate(old(view))
    {
      hide Total, Accumulate, Overlay, RingModel.Rotate, Fill, Restart, Separate, Hold, Remainder;
      var next := Remainder(size + head + 1, size);
      ShiftPower(next);
      var c := NextSet();
      FillBucket(next, c);
      RestartAt(next);
      RotateParts(old(view));
    }

    method CumChange() returns (d: int)
      requires Valid()
      ensures d == Total(view.Cum()) - Total(view.cum[view.Back(1)])
    {
      hide Total;
      d := cum[head].totalPower - cum[Remainder(size + head - 1, size)].totalPower;
    }

    method Power(id: Address) returns (p: int)
      requires Valid()
      ensures p == Get(NextCum(view), id)
    {
      if id in delta[head].powers {
        p := delta[head].powers[id];
      } else {
        p := Get(cum[head].powers, id);
      }
    }

    method PreviousSet(delay: nat) returns (s: Set)
      requires Valid()
      ensures s in cum && s.powers == view.PreviousSet(delay)
    {
      var d := if delay > populated then populated else delay;
      s := cum[Remainder(size + head - d, size)];
    }

    /** Buckets in order head, previous, and so on. */
    method OrderedBuckets() returns (ds: seq<Set>, cs: seq<Set>)
      requires Valid()
      ensures |ds| == |cs| == size
      ensures forall k :: 0 <= k < size ==>
                ds[k].powers == view.delta[view.Back(k)] && cs[k].powers == view.cum[view.Back(k)]
    {
      ds, cs := [], [];
      for i := 0 to size
        invariant |ds| == |cs| == i
        invariant forall k :: 0 <= k < i ==>
                    ds[k].powers == view.delta[view.Back(k)] && cs[k].powers == view.cum[view.Back(k)]
      {
        var index := Remainder(size + head - i, size);
        assert index == view.Back(i);
        ds := ds + [delta[index]];
        cs := cs + [cum[index]];
      }
    }

    method Persist() returns (pc: PersistedRing)
      requires Valid()
      ensures pc == Persistable(view)
    {
      hide Total, PersistSet;
      var ds, cs := [], [];
      for i := 0 to size
        invariant |ds| == |cs| == i
        invariant forall j :: 0 <= j < i ==> ds[j] == PersistSet(delta[j].powers) && cs[j] == PersistSet(cum[j].powers)
      {
        var d := delta[i].Validators();
        var c := cum[i].Validators();
        ds, cs := ds + [d], cs + [c];
      }
      var p := power.Validators();
      var f := flow.Validators();
      pc := PersistedRing(ds, cs, p, f, head);
    }

    constructor Restore(pc: PersistedRing)
      requires |pc.delta| == |pc.cum| && pc.head < |pc.delta|
      ensures Valid() && fresh(delta) && fresh(cum) && fresh(power) && fresh(flow)
      ensures view == UnpersistRing(pc)
    {
      hide Total, UnpersistSet;
      var deltas := UnpersistSets(pc.delta);
      var cums := UnpersistSets(pc.cum);
      var p := Unpersist(pc.power);
      var f := Unpersist(pc.flow);
      delta, cum, power, flow := deltas, cums, p, f;
      head, populated, size := pc.head, 0, |pc.delta|;
      view := UnpersistRing(pc);
    }
  }
}
