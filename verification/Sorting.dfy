/** Strictly sorted enumerations of finite sets: the model of a library sort over distinct keys. */
module Sorting {

  ghost predicate TotalOrder<T(!new)>(le: (T, T) -> bool) {
    && (forall x :: le(x, x))
    && (forall x, y :: le(x, y) || le(y, x))
    && (forall x, y :: le(x, y) && le(y, x) ==> x == y)
    && (forall x, y, z :: le(x, y) && le(y, z) ==> le(x, z))
  }

  ghost predicate StrictlySorted<T>(s: seq<T>, le: (T, T) -> bool) {
    forall i, j :: 0 <= i < j < |s| ==> le(s[i], s[j]) && s[i] != s[j]
  }

  function Elements<T>(s: seq<T>): set<T> {
    set x | x in s
  }

  lemma {:induction false} NoElements<T>(s: seq<T>)
    ensures Elements(s) == {} <==> s == []
  {
    assert s != [] ==> s[0] in Elements(s);
  }

  lemma {:induction false} LeastExists<T(!new)>(s: set<T>, le: (T, T) -> bool)
    requires TotalOrder(le)
    requires s != {}
    ensures exists x :: x in s && forall y :: y in s ==> le(x, y)
    decreases |s|
  {
    var z :| z in s;
    var rest := s - {z};
    if rest == {} {
      assert s == {z};
    } else {
      LeastExists(rest, le);
      var x :| x in rest && forall y :: y in rest ==> le(x, y);
      var m := if le(x, z) then x else z;
      assert m in s && forall y :: y in s ==> le(m, y);
    }
  }

  function Least<T(!new)>(s: set<T>, le: (T, T) -> bool): (m: T)
    requires TotalOrder(le)
    requires s != {}
    ensures m in s && forall y :: y in s ==> le(m, y)
  {
    LeastExists(s, le);
    var x :| x in s && forall y :: y in s ==> le(x, y);
    x
  }

  lemma {:induction false} SortedCons<T>(m: T, rest: seq<T>, le: (T, T) -> bool)
    requires StrictlySorted(rest, le)
    requires forall y :: y in Elements(rest) ==> le(m, y) && m != y
    ensures StrictlySorted([m] + rest, le)
    ensures Elements([m] + rest) == {m} + Elements(rest)
  {
    assert forall i :: 0 <= i < |rest| ==> rest[i] in Elements(rest);
  }

  /** The elements of `s`, each once, in increasing order. */
  function Sort<T(!new)>(s: set<T>, le: (T, T) -> bool): (r: seq<T>)
    requires TotalOrder(le)
    ensures StrictlySorted(r, le)
    ensures Elements(r) == s
    ensures |r| == |s|
    decreases |s|
  {
    if s == {} then [] else
    var m := Least(s, le);
    var rest := Sort(s - {m}, le);
    SortedCons(m, rest, le);
    [m] + rest
  }

  /** A strictly sorted sequence is determined by its elements. */
  lemma {:induction false} SortedUnique<T(!new)>(a: seq<T>, b: seq<T>, le: (T, T) -> bool)
    requires TotalOrder(le)
    requires StrictlySorted(a, le) && StrictlySorted(b, le)
    requires Elements(a) == Elements(b)
    ensures a == b
    decreases |a|
  {
    assert a != [] ==> a[0] in Elements(a);
    assert b != [] ==> b[0] in Elements(b);
    if a != [] && b != [] {
      assert a[0] in Elements(b) && b[0] in Elements(a);
      assert a[0] == b[0];
      forall x ensures x in Elements(a[1..]) <==> x in Elements(b[1..]) {
        assert x in Elements(a[1..]) <==> x in Elements(a) && x != a[0];
        assert x in Elements(b[1..]) <==> x in Elements(b) && x != b[0];
      }
      SortedUnique(a[1..], b[1..], le);
    }
  }

  lemma {:induction false} SortIs<T(!new)>(r: seq<T>, s: set<T>, le: (T, T) -> bool)
    requires TotalOrder(le)
    requires StrictlySorted(r, le)
    requires Elements(r) == s
    ensures r == Sort(s, le)
  {
    SortedUnique(r, Sort(s, le), le);
  }
}
