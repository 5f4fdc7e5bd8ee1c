/** Validator sets as mutable objects: a powers map with a running total, and the bulk operations on them. */
module ValidatorSets {
  import opened Sums
  import opened Sorting
  import opened Addresses
  import opened RingModel
  import opened RingPersist

  class Set {
    var powers: Powers
    var totalPower: int
    var trim: bool

    /** The running total is the sum of the powers. */
    ghost predicate Valid()
      reads this
    {
      totalPower == Total(powers)
    }

    constructor (trim: bool)
      ensures Valid() && powers == map[] && this.trim == trim
    {
      powers, totalPower, this.trim := map[], 0, trim;
    }

    method ChangePower(id: Address, power: int) returns (flow: int)
      requires Valid()
      modifies this
      ensures Valid() && trim == old(trim)
      ensures powers == Change(old(powers), trim, id, power)
      ensures flow == power - Get(old(powers), id)
    {
      flow := power - Get(powers, id);
      totalPower := totalPower + flow;
      TotalUpdate(powers, id, power);
      TotalDelete(powers, id);
      if trim && power == 0 {
        powers := powers - {id};
      } else {
        powers := powers[id := power];
      }
    }

    method Validators() returns (pvs: seq<Validator>)
      ensures pvs == PersistSet(powers)
    {
      var ids := SortAddresses(powers.Keys);
      pvs := [];
      for i := 0 to |ids|
        invariant |pvs| == i
        invariant forall j :: 0 <= j < i ==> pvs[j] == Validator(ids[j], Uint64(powers[ids[j]]))
      {
        pvs := pvs + [Validator(ids[i], Uint64(powers[ids[i]]))];
      }
      SortIs(ids, powers.Keys, AtMost);
    }
  }

  method SortAddresses(s: set<Address>) returns (ids: seq<Address>)
    ensures StrictlySorted(ids, AtMost)
    ensures forall id :: id in ids <==> id in s
  {
    ids := SortedAddresses(s);
    assert forall id :: id in ids <==> id in Elements(ids);
  }

  function Restrict(m: Powers, ids: seq<Address>): (r: Powers)
    requires forall id :: id in ids ==> id in m
    ensures r.Keys == Elements(ids)
  {
    map k | k in Elements(ids) :: m[k]
  }

  lemma {:induction false} RestrictGrows(m: Powers, ids: seq<Address>)
    requires ids != [] && StrictlySorted(ids, AtMost)
    requires forall id :: id in ids ==> id in m
    ensures var n := |ids| - 1;
            ids[n] !in Restrict(m, ids[..n]) && Restrict(m, ids) == Restrict(m, ids[..n])[ids[n] := m[ids[n]]]
  {
    assert ids == ids[..|ids| - 1] + [ids[|ids| - 1]];
  }

  lemma {:induction false} OverlayStep(m: Powers, trim: bool, d: Powers, id: Address, p: int)
    requires id !in d
    ensures Change(Overlay(m, trim, d), trim, id, p) == Overlay(m, trim, d[id := p])
  {
  }

  /** The powers `d` adds to those in `m`, or what is left after taking them away. */
  function Combine(m: Powers, d: Powers, add: bool): (r: Powers)
    ensures r.Keys == d.Keys
  {
    map k | k in d :: Plus(add, Get(m, k), d[k])
  }

  lemma {:induction false} CombineStep(m: Powers, trim: bool, d: Powers, add: bool, id: Address, p: int)
    requires id !in d
    ensures Get(Overlay(m, trim, Combine(m, d, add)), id) == Get(m, id)
    ensures Combine(m, d[id := p], add) == Combine(m, d, add)[id := Plus(add, Get(m, id), p)]
  {
  }

  lemma {:induction false} CombineAccumulates(m: Powers, d: Powers, add: bool)
    ensures Overlay(m, false, Combine(m, d, add)) == Accumulate(m, d, add)
  {
  }

  /** Changing the powers of `ids` one after the other to those in `d`. */
  function AlterEach(m: Powers, trim: bool, d: Powers, ids: seq<Address>): Powers
    requires forall id :: id in ids ==> id in d
  {
    if ids == [] then m else
    var n := |ids| - 1;
    Change(AlterEach(m, trim, d, ids[..n]), trim, ids[n], d[ids[n]])
  }

  /** Adding or subtracting the powers of `ids` in `d` one after the other. */
  function AddEach(m: Powers, trim: bool, d: Powers, add: bool, ids: seq<Address>): Powers
    requires forall id :: id in ids ==> id in d
  {
    if ids == [] then m else
    var n := |ids| - 1;
    var before := AddEach(m, trim, d, add, ids[..n]);
    Change(before, trim, ids[n], Plus(add, Get(before, ids[n]), d[ids[n]]))
  }

  lemma {:induction false} AlterEachOverlays(m: Powers, trim: bool, d: Powers, ids: seq<Address>)
    requires StrictlySorted(ids, AtMost)
    requires forall id :: id in ids ==> id in d
    ensures AlterEach(m, trim, d, ids) == Overlay(m, trim, Restrict(d, ids))
  {
    if ids == [] {
      assert Overlay(m, trim, Restrict(d, ids)) == m;
    } else {
      var n := |ids| - 1;
      AlterEachOverlays(m, trim, d, ids[..n]);
      RestrictGrows(d, ids);
      OverlayStep(m, trim, Restrict(d, ids[..n]), ids[n], d[ids[n]]);
    }
  }

  lemma {:induction false} AddEachCombines(m: Powers, trim: bool, d: Powers, add: bool, ids: seq<Address>)
    requires StrictlySorted(ids, AtMost)
    requires forall id :: id in ids ==> id in d
    ensures AddEach(m, trim, d, add, ids) == Overlay(m, trim, Combine(m, Restrict(d, ids), add))
  {
    if ids == [] {
      assert Overlay(m, trim, Combine(m, Restrict(d, ids), add)) == m;
    } else {
      hide Overlay, Combine;
      var n := |ids| - 1;
      AddEachCombines(m, trim, d, add, ids[..n]);
      RestrictGrows(d, ids);
      CombineStep(m, trim, Restrict(d, ids[..n]), add, ids[n], d[ids[n]]);
      OverlayStep(m, trim, Combine(m, Restrict(d, ids[..n]), add), ids[n], Plus(add, Get(m, ids[n]), d[ids[n]]));
    }
  }

  /** What is still to come of an iteration is untouched, even when the set changes while it is iterated. */
  ghost predicate Ahead(now: Powers, before: Powers, ids: seq<Address>, i: nat) {
    forall j :: i <= j < |ids| ==> ids[j] in now && ids[j] in before && now[ids[j]] == before[ids[j]]
  }

  lemma {:induction false} ChangeAhead(now: Powers, before: Powers, ids: seq<Address>, i: nat, trim: bool, p: int)
    requires StrictlySorted(ids, AtMost) && i < |ids| && Ahead(now, before, ids, i)
    ensures Ahead(Change(now, trim, ids[i], p), before, ids, i + 1)
  {
  }

  lemma {:induction false} AlteredAll(m: Powers, trim: bool, d: Powers, ids: seq<Address>)
    requires StrictlySorted(ids, AtMost) && forall id :: id in ids <==> id in d
    ensures AlterEach(m, trim, d, ids) == Overlay(m, trim, d)
  {
    hide Overlay, AlterEach;
    AlterEachOverlays(m, trim, d, ids);
    assert Restrict(d, ids) == d;
  }

  lemma {:induction false} AddedAll(m: Powers, trim: bool, d: Powers, add: bool, ids: seq<Address>)
    requires StrictlySorted(ids, AtMost) && forall id :: id in ids <==> id in d
    ensures AddEach(m, trim, d, add, ids) == Overlay(m, trim, Combine(m, d, add))
    ensures AddEach(m, false, d, add, ids) == Accumulate(m, d, add)
  {
    hide Overlay, Combine, Accumulate, AddEach;
    AddEachCombines(m, trim, d, add, ids);
    AddEachCombines(m, false, d, add, ids);
    CombineAccumulates(m, d, add);
    assert Restrict(d, ids) == d;
  }

  method Alter(vs: Set, other: Set)
    requires vs.Valid()
    modifies vs
    ensures vs.Valid() && vs.trim == old(vs.trim)
    ensures vs.powers == Overlay(old(vs.powers), vs.trim, old(other.powers))
  {
    hide Change, Overlay;
    var ids := SortAddresses(other.powers.Keys);
    for i := 0 to |ids|
      invariant vs.Valid() && vs.trim == old(vs.trim) && Ahead(other.powers, old(other.powers), ids, i)
      invariant vs.powers == AlterEach(old(vs.powers), vs.trim, old(other.powers), ids[..i])
    {
      assert ids[..i + 1][..i] == ids[..i];
      var p := other.powers[ids[i]];
      ChangeAhead(other.powers, old(other.powers), ids, i, vs.trim, p);
      var _ := vs.ChangePower(ids[i], p);
    }
    assert ids[..|ids|] == ids;
    AlteredAll(old(vs.powers), vs.trim, old(other.powers), ids);
  }

  /** Add, and Subtract when `add` is not set. */
  method AddOrSubtract(vs: Set, other: Set, add: bool)
    requires vs.Valid()
    modifies vs
    ensures vs.Valid() && vs.trim == old(vs.trim)
    ensures vs.powers == Overlay(old(vs.powers), vs.trim, Combine(old(vs.powers), old(other.powers), add))
    ensures !vs.trim ==> vs.powers == Accumulate(old(vs.powers), old(other.powers), add)
  {
    hide Change, Overlay, Combine, Accumulate;
    var ids := SortAddresses(other.powers.Keys);
    for i := 0 to |ids|
      invariant vs.Valid() && vs.trim == old(vs.trim) && Ahead(other.powers, old(other.powers), ids, i)
      invariant vs.powers == AddEach(old(vs.powers), vs.trim, old(other.powers), add, ids[..i])
    {
      assert ids[..i + 1][..i] == ids[..i];
      var p := Plus(add, Get(vs.powers, ids[i]), other.powers[ids[i]]);
      ChangeAhead(other.powers, old(other.powers), ids, i, vs.trim, p);
      var _ := vs.ChangePower(ids[i], p);
    }
    assert ids[..|ids|] == ids;
    AddedAll(old(vs.powers), vs.trim, old(other.powers), add, ids);
  }

  /** Copy, and CopyTrim when `trim` is set: the copy keeps zero entries either way. */
  method Copy(vs: Set, trim: bool) returns (copy: Set)
    ensures fresh(copy) && copy.Valid()
    ensures copy.powers == vs.powers && copy.trim == trim
  {
    copy := new Set(false);
    Alter(copy, vs);
    copy.trim := trim;
  }

  method Unpersist(pvs: seq<Validator>) returns (vs: Set)
    ensures fresh(vs) && vs.Valid() && !vs.trim
    ensures vs.powers == UnpersistSet(pvs)
  {
    vs := new Set(false);
    for i := 0 to |pvs|
      invariant fresh(vs) && vs.Valid() && !vs.trim
      invariant vs.powers == UnpersistSet(pvs[..i])
    {
      assert pvs[..i + 1][..i] == pvs[..i];
      var _ := vs.ChangePower(pvs[i].id, pvs[i].power);
    }
    assert pvs[..|pvs|] == pvs;
  }
}
