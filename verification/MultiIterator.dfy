/** Merging any number of sorted iterators with a binary heap of their current keys. */
module MultiIterators {
  import opened Sorting
  import opened Bytes

  datatype KV = KV(key: Bytes, value: Slice)

  /** What is left of the iterator that was passed at position `order`. */
  datatype Cursor = Cursor(order: nat, rest: seq<KV>)

  /** A pair together with the position of the iterator it comes from. */
  datatype Entry = Entry(order: nat, kv: KV)

  // ---- The order of the merge -----------------------------------------------------------

  function LessComp(reverse: bool): int {
    if reverse then 1 else -1
  }

  /** Key order in the direction of the merge, then the order the iterators were passed in. */
  predicate Before(reverse: bool, a: Entry, b: Entry) {
    var comp := Compare(a.kv.key, b.kv.key);
    comp == LessComp(reverse) || (comp == 0 && a.order < b.order)
  }

  function First(c: Cursor): Entry
    requires c.rest != []
  {
    Entry(c.order, c.rest[0])
  }

  predicate Less(reverse: bool, a: Cursor, b: Cursor)
    requires a.rest != [] && b.rest != []
  {
    Before(reverse, First(a), First(b))
  }

  lemma {:induction false} BeforeTransitive(reverse: bool, a: Entry, b: Entry, c: Entry)
    requires !Before(reverse, b, a) && !Before(reverse, c, b)
    ensures !Before(reverse, c, a)
    ensures Before(reverse, a, b) ==> Before(reverse, a, c)
  {
    var (x, y, z) := (a.kv.key, b.kv.key, c.kv.key);
    CompareFlip(x, y);
    CompareFlip(y, z);
    CompareFlip(x, z);
    CompareEqual(x, y);
    CompareEqual(y, z);
    CompareEqual(x, z);
    if Below(x, y) && Below(y, z) { CompareTransitive(x, y, z); }
    if Below(z, y) && Below(y, x) { CompareTransitive(z, y, x); }
  }

  lemma {:induction false} BeforeTotal(reverse: bool, a: Entry, b: Entry)
    ensures !(Before(reverse, a, b) && Before(reverse, b, a))
    ensures Before(reverse, a, b) || Before(reverse, b, a) || (a.kv.key == b.kv.key && a.order == b.order)
  {
    CompareFlip(a.kv.key, b.kv.key);
    CompareEqual(a.kv.key, b.kv.key);
  }

  ghost predicate Ordered(reverse: bool, s: seq<Entry>) {
    forall i, j :: 0 <= i < j < |s| ==> Before(reverse, s[i], s[j])
  }

  ghost predicate SortedKeys(reverse: bool, s: seq<KV>) {
    forall i, j :: 0 <= i < j < |s| ==> Compare(s[i].key, s[j].key) == LessComp(reverse)
  }

  // ---- Heaps of cursors -----------------------------------------------------------------

  predicate NonEmpty(s: seq<Cursor>) {
    forall i :: 0 <= i < |s| ==> s[i].rest != []
  }

  function Parent(j: int): int {
    (j - 1) / 2
  }

  /** No element sorts before its parent. */
  ghost predicate Heap(reverse: bool, s: seq<Cursor>)
    requires NonEmpty(s)
  {
    forall j :: 1 <= j < |s| ==> !Less(reverse, s[j], s[Parent(j)])
  }

  lemma {:induction false} RootLeast(reverse: bool, s: seq<Cursor>, j: nat)
    requires NonEmpty(s) && Heap(reverse, s) && j < |s|
    ensures !Less(reverse, s[j], s[0])
  {
    if j == 0 {
      BeforeTotal(reverse, First(s[0]), First(s[0]));
    } else {
      RootLeast(reverse, s, Parent(j));
      BeforeTransitive(reverse, First(s[0]), First(s[Parent(j)]), First(s[j]));
    }
  }

  function Tail(c: Cursor): Cursor
    requires c.rest != []
  {
    Cursor(c.order, c.rest[1..])
  }

  /** The cursors after taking the first pair of `c`. */
  ghost function Advance(m: multiset<Cursor>, c: Cursor): multiset<Cursor>
    requires c.rest != []
  {
    if Tail(c).rest == [] then m - multiset{c} else m - multiset{c} + multiset{Tail(c)}
  }

  // ---- Sifting --------------------------------------------------------------------------

  function Swapped(s: seq<Cursor>, i: nat, j: nat): (r: seq<Cursor>)
    requires i < |s| && j < |s|
    ensures multiset(r) == multiset(s) && |r| == |s|
  {
    s[i := s[j]][j := s[i]]
  }

  /** Heap order holds below `i0` in the first `n` elements, except between `i` and its children. */
  ghost predicate Sifting(reverse: bool, s: seq<Cursor>, i0: nat, n: nat, i: nat)
    requires NonEmpty(s) && n <= |s|
  {
    && i0 <= i < n
    && (forall j :: 1 <= j < n && Parent(j) >= i0 && Parent(j) != i ==> !Less(reverse, s[j], s[Parent(j)]))
    && (i > i0 && Parent(i) >= i0 ==> forall j :: 1 <= j < n && Parent(j) == i ==> !Less(reverse, s[j], s[Parent(i)]))
  }

  /** `j` is the child of `i` that no other child of `i` sorts before. */
  predicate LeastChild(reverse: bool, s: seq<Cursor>, n: nat, i: nat, j: nat)
    requires NonEmpty(s) && n <= |s|
  {
    && 1 <= j < n && Parent(j) == i
    && forall k :: 1 <= k < n && Parent(k) == i ==> !Less(reverse, s[k], s[j])
  }

  lemma {:induction false} PickChild(reverse: bool, s: seq<Cursor>, n: nat, i: nat)
    requires NonEmpty(s) && n <= |s| && 2 * i + 1 < n
    ensures var j := 2 * i + 1;
            LeastChild(reverse, s, n, i, if j + 1 < n && Less(reverse, s[j + 1], s[j]) then j + 1 else j)
  {
    var j := 2 * i + 1;
    BeforeTotal(reverse, First(s[j]), First(s[j]));
    if j + 1 < n {
      BeforeTotal(reverse, First(s[j]), First(s[j + 1]));
      BeforeTotal(reverse, First(s[j + 1]), First(s[j + 1]));
    }
  }

  lemma {:induction false} SiftStep(reverse: bool, s: seq<Cursor>, i0: nat, n: nat, i: nat, j: nat)
    requires NonEmpty(s) && n <= |s| && Sifting(reverse, s, i0, n, i)
    requires LeastChild(reverse, s, n, i, j) && Less(reverse, s[j], s[i])
    ensures NonEmpty(Swapped(s, i, j)) && Sifting(reverse, Swapped(s, i, j), i0, n, j)
  {
    BeforeTotal(reverse, First(s[i]), First(s[j]));
  }

  lemma {:induction false} SiftLeaf(reverse: bool, s: seq<Cursor>, i0: nat, n: nat, i: nat)
    requires NonEmpty(s) && n <= |s| && Sifting(reverse, s, i0, n, i)
    requires 2 * i + 1 >= n
    ensures forall k :: 1 <= k < n && Parent(k) >= i0 ==> !Less(reverse, s[k], s[Parent(k)])
  {
  }

  lemma {:induction false} SiftDone(reverse: bool, s: seq<Cursor>, i0: nat, n: nat, i: nat, j: nat)
    requires NonEmpty(s) && n <= |s| && Sifting(reverse, s, i0, n, i)
    requires LeastChild(reverse, s, n, i, j) && !Less(reverse, s[j], s[i])
    ensures forall k :: 1 <= k < n && Parent(k) >= i0 ==> !Less(reverse, s[k], s[Parent(k)])
  {
    forall k | 1 <= k < n && Parent(k) == i ensures !Less(reverse, s[k], s[i]) {
      BeforeTransitive(reverse, First(s[i]), First(s[j]), First(s[k]));
    }
  }

  // ---- What the sources still have to yield ---------------------------------------------

  /** The pairs of all sources, each with the position of its source. */
  ghost function Pairs(sources: seq<seq<KV>>): set<Entry> {
    set i, j | 0 <= i < |sources| && 0 <= j < |sources[i]| :: Entry(i, sources[i][j])
  }

  /** A cursor for every source that has something to yield. */
  function Opened(sources: seq<seq<KV>>): seq<Cursor> {
    if sources == [] then [] else
    var n := |sources| - 1;
    Opened(sources[..n]) + if sources[n] == [] then [] else [Cursor(n, sources[n])]
  }

  ghost predicate AllSorted(reverse: bool, sources: seq<seq<KV>>) {
    forall i :: 0 <= i < |sources| ==> SortedKeys(reverse, sources[i])
  }

  lemma {:induction false} OpenedSome(sources: seq<seq<KV>>)
    ensures NonEmpty(Opened(sources))
    ensures Opened(sources) == [] <==> forall i :: 0 <= i < |sources| ==> sources[i] == []
  {
    if sources != [] {
      var n := |sources| - 1;
      OpenedSome(sources[..n]);
      assert forall i :: 0 <= i < n ==> sources[..n][i] == sources[i];
    }
  }

  lemma {:induction false} OpenedMembers(sources: seq<seq<KV>>, c: Cursor)
    ensures multiset(Opened(sources))[c] ==
            if c.order < |sources| && c.rest == sources[c.order] && c.rest != [] then 1 else 0
  {
    if sources != [] {
      OpenedMembers(sources[..|sources| - 1], c);
    }
  }

  /** The source whose next pair comes first, if any has one left. */
  function NextSource(reverse: bool, sources: seq<seq<KV>>): (i: nat)
    ensures i <= |sources| && (i < |sources| ==> sources[i] != [])
  {
    if sources == [] then 0 else
    var n := |sources| - 1;
    var i := NextSource(reverse, sources[..n]);
    if sources[n] == [] then (if i == n then n + 1 else i)
    else if i == n || Before(reverse, Entry(n, sources[n][0]), Entry(i, sources[i][0])) then n
    else i
  }

  lemma {:induction false} NextFirst(reverse: bool, sources: seq<seq<KV>>, j: nat)
    requires j < |sources| && sources[j] != []
    ensures var i := NextSource(reverse, sources);
            i < |sources| && !Before(reverse, Entry(j, sources[j][0]), Entry(i, sources[i][0]))
  {
    hide Before;
    var n := |sources| - 1;
    var k := NextSource(reverse, sources[..n]);
    if j < n {
      NextFirst(reverse, sources[..n], j);
      if sources[n] != [] {
        BeforeTotal(reverse, Entry(n, sources[n][0]), Entry(k, sources[k][0]));
      }
      if sources[n] != [] && Before(reverse, Entry(n, sources[n][0]), Entry(k, sources[k][0])) {
        BeforeTransitive(reverse, Entry(n, sources[n][0]), Entry(k, sources[k][0]), Entry(j, sources[j][0]));
      }
    } else {
      BeforeTotal(reverse, Entry(n, sources[n][0]), Entry(n, sources[n][0]));
    }
  }

  function Size(sources: seq<seq<KV>>): nat {
    if sources == [] then 0 else Size(sources[..|sources| - 1]) + |sources[|sources| - 1]|
  }

  /** The sources after taking the next pair of one of them. */
  function Taken(sources: seq<seq<KV>>, i: nat): (r: seq<seq<KV>>)
    requires i < |sources| && sources[i] != []
    ensures |r| == |sources|
  {
    sources[i := sources[i][1..]]
  }

  lemma {:induction false} TakenSmaller(sources: seq<seq<KV>>, i: nat)
    requires i < |sources| && sources[i] != []
    ensures Size(Taken(sources, i)) == Size(sources) - 1
  {
    var n := |sources| - 1;
    if i < n {
      TakenSmaller(sources[..n], i);
      assert Taken(sources, i)[..n] == Taken(sources[..n], i);
    } else {
      assert Taken(sources, i)[..n] == sources[..n];
    }
  }

  /** What a merge serves: the least next pair, again and again. */
  function Served(reverse: bool, sources: seq<seq<KV>>): seq<Entry>
    decreases Size(sources)
  {
    var i := NextSource(reverse, sources);
    if i == |sources| then []
    else
      TakenSmaller(sources, i);
      [Entry(i, sources[i][0])] + Served(reverse, Taken(sources, i))
  }

  lemma {:induction false} ServedNothing(reverse: bool, sources: seq<seq<KV>>)
    ensures Served(reverse, sources) == [] <==> Opened(sources) == []
  {
    OpenedSome(sources);
    var i := NextSource(reverse, sources);
    if i == |sources| {
      forall j | 0 <= j < |sources| ensures sources[j] == [] {
        if sources[j] != [] { NextFirst(reverse, sources, j); }
      }
    }
  }

  /** The root of a heap of all cursors is the one to serve from. */
  lemma {:induction false} RootServes(reverse: bool, s: seq<Cursor>, sources: seq<seq<KV>>)
    requires NonEmpty(s) && Heap(reverse, s) && s != [] && multiset(s) == multiset(Opened(sources))
    ensures var i := NextSource(reverse, sources); i < |sources| && s[0] == Cursor(i, sources[i])
  {
    hide Heap, Before, Opened;
    var c := s[0];
    assert c in multiset(s);
    OpenedMembers(sources, c);
    NextFirst(reverse, sources, c.order);
    var i := NextSource(reverse, sources);
    OpenedMembers(sources, Cursor(i, sources[i]));
    assert Cursor(i, sources[i]) in multiset(s);
    var j :| 0 <= j < |s| && s[j] == Cursor(i, sources[i]);
    RootLeast(reverse, s, j);
    BeforeTotal(reverse, First(c), First(s[j]));
  }

  lemma {:induction false} OpenedAdvance(sources: seq<seq<KV>>, i: nat)
    requires i < |sources| && sources[i] != []
    ensures multiset(Opened(Taken(sources, i))) == Advance(multiset(Opened(sources)), Cursor(i, sources[i]))
  {
    hide Opened;
    var c := Cursor(i, sources[i]);
    var m, m' := multiset(Opened(sources)), multiset(Opened(Taken(sources, i)));
    OpenedMembers(sources, c);
    OpenedMembers(sources, Tail(c));
    forall d ensures m'[d] == Advance(m, c)[d] {
      OpenedMembers(sources, d);
      OpenedMembers(Taken(sources, i), d);
    }
  }

  // ---- Merging sorted sources -----------------------------------------------------------

  lemma {:induction false} TakenPairs(sources: seq<seq<KV>>, i: nat)
    requires i < |sources| && sources[i] != []
    ensures Pairs(sources) == Pairs(Taken(sources, i)) + {Entry(i, sources[i][0])}
  {
    var after := Taken(sources, i);
    forall e ensures e in Pairs(sources) <==> e in Pairs(after) || e == Entry(i, sources[i][0]) {
      if e in Pairs(sources) {
        var j, k :| 0 <= j < |sources| && 0 <= k < |sources[j]| && e == Entry(j, sources[j][k]);
        if j != i {
          assert after[j][k] == sources[j][k];
        } else if k > 0 {
          assert after[j][k - 1] == sources[j][k];
        }
      }
      if e in Pairs(after) {
        var j, k :| 0 <= j < |after| && 0 <= k < |after[j]| && e == Entry(j, after[j][k]);
        assert after[j][k] == sources[j][if j == i then k + 1 else k];
      }
    }
  }

  /** Over sorted sources the least next pair comes before everything else. */
  lemma {:induction false} NextBefore(reverse: bool, sources: seq<seq<KV>>, e: Entry)
    requires AllSorted(reverse, sources) && NextSource(reverse, sources) < |sources|
    requires e in Pairs(Taken(sources, NextSource(reverse, sources)))
    ensures var i := NextSource(reverse, sources); Before(reverse, Entry(i, sources[i][0]), e)
  {
    var i := NextSource(reverse, sources);
    var after := Taken(sources, i);
    var j, k :| 0 <= j < |after| && 0 <= k < |after[j]| && e == Entry(j, after[j][k]);
    if j == i {
      assert after[j][k] == sources[i][k + 1];
    } else {
      hide Before, NextSource;
      var head := Entry(j, sources[j][0]);
      NextFirst(reverse, sources, j);
      BeforeTotal(reverse, Entry(i, sources[i][0]), head);
      if k > 0 { SortedBefore(reverse, sources[j], j, k); }
      BeforeTotal(reverse, head, e);
      BeforeTransitive(reverse, Entry(i, sources[i][0]), head, e);
    }
  }

  lemma {:induction false} SortedBefore(reverse: bool, s: seq<KV>, order: nat, k: nat)
    requires SortedKeys(reverse, s) && 0 < k < |s|
    ensures Before(reverse, Entry(order, s[0]), Entry(order, s[k]))
  {
  }

  /** Over sorted sources the merge serves all their pairs, ordered by key and then by source. */
  lemma {:induction false} ServedSorted(reverse: bool, sources: seq<seq<KV>>)
    requires AllSorted(reverse, sources)
    ensures Ordered(reverse, Served(reverse, sources)) && Elements(Served(reverse, sources)) == Pairs(sources)
    decreases Size(sources)
  {
    hide Before, NextSource;
    var i := NextSource(reverse, sources);
    var s := Served(reverse, sources);
    if i == |sources| {
      assert forall j :: 0 <= j < |sources| ==> sources[j] == [] by {
        ServedNothing(reverse, sources);
        OpenedSome(sources);
      }
    } else {
      var after := Taken(sources, i);
      TakenSmaller(sources, i);
      TakenSorted(reverse, sources, i);
      ServedSorted(reverse, after);
      TakenPairs(sources, i);
      assert s == [s[0]] + s[1..];
      forall k | 0 < k < |s| ensures Before(reverse, s[0], s[k]) {
        assert s[k] in Elements(s[1..]);
        NextBefore(reverse, sources, s[k]);
      }
    }
  }

  lemma {:induction false} TakenSorted(reverse: bool, sources: seq<seq<KV>>, i: nat)
    requires AllSorted(reverse, sources) && i < |sources| && sources[i] != []
    ensures AllSorted(reverse, Taken(sources, i))
  {
  }

  // ---- Two sources that come in the other order -----------------------------------------

  function From(order: nat, s: seq<KV>): (r: seq<Entry>)
    ensures |r| == |s| && forall i :: 0 <= i < |s| ==> r[i] == Entry(order, s[i])
  {
    seq(|s|, i requires 0 <= i < |s| => Entry(order, s[i]))
  }

  lemma {:induction false} NextOfTwo(reverse: bool, a: seq<KV>, b: seq<KV>)
    ensures NextSource(reverse, [a, b]) ==
            if a == [] then (if b == [] then 2 else 1)
            else if b != [] && Before(reverse, Entry(1, b[0]), Entry(0, a[0])) then 1 else 0
  {
    hide Before;
    assert [a, b][..1] == [a] && [a][..0] == [];
  }

  lemma {:induction false} ServeFirst(reverse: bool, a: seq<KV>, b: seq<KV>)
    requires NextSource(reverse, [a, b]) == 0 && a != []
    ensures Served(reverse, [a, b]) == [Entry(0, a[0])] + Served(reverse, [a[1..], b])
  {
    hide NextSource;
    assert Taken([a, b], 0) == [a[1..], b];
  }

  lemma {:induction false} ServeSecond(reverse: bool, a: seq<KV>, b: seq<KV>)
    requires NextSource(reverse, [a, b]) == 1 && b != []
    ensures Served(reverse, [a, b]) == [Entry(1, b[0])] + Served(reverse, [a, b[1..]])
  {
    hide NextSource;
    assert Taken([a, b], 1) == [a, b[1..]];
  }

  lemma {:induction false} ServeNone(reverse: bool, a: seq<KV>, b: seq<KV>)
    requires NextSource(reverse, [a, b]) == 2
    ensures Served(reverse, [a, b]) == []
  {
    hide NextSource;
  }

  lemma {:induction false} FromRest(order: nat, s: seq<KV>)
    requires s != []
    ensures From(order, s) == [Entry(order, s[0])] + From(order, s[1..])
  {
  }

  /** A source left alone is served to its end. */
  lemma {:induction false} ServedAlone(reverse: bool, a: seq<KV>, b: seq<KV>)
    requires a == [] || b == []
    ensures Served(reverse, [a, b]) == From(0, a) + From(1, b)
  {
    hide Served;
    if b == [] { FirstAlone(reverse, a); } else { SecondAlone(reverse, b); }
  }

  lemma {:induction false} FirstAlone(reverse: bool, a: seq<KV>)
    ensures Served(reverse, [a, []]) == From(0, a)
  {
    hide NextSource, Served;
    NextOfTwo(reverse, a, []);
    if a == [] {
      ServeNone(reverse, a, []);
    } else {
      ServeFirst(reverse, a, []);
      FirstAlone(reverse, a[1..]);
      FromRest(0, a);
    }
  }

  lemma {:induction false} SecondAlone(reverse: bool, b: seq<KV>)
    ensures Served(reverse, [[], b]) == From(1, b)
  {
    hide NextSource, Served;
    NextOfTwo(reverse, [], b);
    if b == [] {
      ServeNone(reverse, [], b);
    } else {
      ServeSecond(reverse, [], b);
      SecondAlone(reverse, b[1..]);
      FromRest(1, b);
    }
  }

  /** A source running against the merge only comes up with earlier keys, so it is served to its end. */
  lemma {:induction false} AgainstStep(reverse: bool, s: seq<KV>, order: nat, e: Entry)
    requires SortedKeys(!reverse, s) && |s| > 1 && Before(reverse, Entry(order, s[0]), e)
    ensures SortedKeys(!reverse, s[1..]) && Before(reverse, Entry(order, s[1]), e)
  {
    CompareFlip(s[0].key, s[1].key);
    BeforeTotal(reverse, Entry(order, s[1]), Entry(order, s[0]));
    BeforeTotal(reverse, Entry(order, s[0]), e);
    BeforeTransitive(reverse, Entry(order, s[1]), Entry(order, s[0]), e);
  }

  lemma {:induction false} FirstThenSecond(reverse: bool, a: seq<KV>, b: seq<KV>)
    requires SortedKeys(!reverse, a) && a != [] && b != [] && Before(reverse, Entry(0, a[0]), Entry(1, b[0]))
    ensures Served(reverse, [a, b]) == From(0, a) + From(1, b)
    decreases |a|
  {
    hide Before, NextSource, Served;
    NextOfTwo(reverse, a, b);
    BeforeTotal(reverse, Entry(0, a[0]), Entry(1, b[0]));
    ServeFirst(reverse, a, b);
    FromRest(0, a);
    if |a| > 1 {
      AgainstStep(reverse, a, 0, Entry(1, b[0]));
      FirstThenSecond(reverse, a[1..], b);
    } else {
      ServedAlone(reverse, a[1..], b);
    }
  }

  lemma {:induction false} SecondThenFirst(reverse: bool, a: seq<KV>, b: seq<KV>)
    requires SortedKeys(!reverse, b) && a != [] && b != [] && Before(reverse, Entry(1, b[0]), Entry(0, a[0]))
    ensures Served(reverse, [a, b]) == From(1, b) + From(0, a)
    decreases |b|
  {
    hide Before, NextSource, Served;
    NextOfTwo(reverse, a, b);
    ServeSecond(reverse, a, b);
    FromRest(1, b);
    if |b| > 1 {
      AgainstStep(reverse, b, 1, Entry(0, a[0]));
      SecondThenFirst(reverse, a, b[1..]);
    } else {
      ServedAlone(reverse, a, b[1..]);
    }
  }

  // ---- The iterator ---------------------------------------------------------------------

  class MultiIterator {
    var iterators: seq<Cursor>
    var reverse: bool

    /** What each source has left. */
    ghost var sources: seq<seq<KV>>

    /** Everything still to come. */
    ghost function Remaining(): seq<Entry>
      reads this
    {
      Served(reverse, sources)
    }

    ghost predicate Valid()
      reads this
    {
      && NonEmpty(iterators)
      && Heap(reverse, iterators)
      && multiset(iterators) == multiset(Opened(sources))
    }

    constructor (reverse: bool, sources: seq<seq<KV>>)
      ensures Valid() && this.reverse == reverse && this.sources == sources
    {
      hide Less, Heap, Opened;
      this.reverse, this.sources := reverse, sources;
      iterators := [];
      new;
      Open(sources);
      OpenedSome(sources);
      Heapify();
    }

    /** Keep the sources that have something to yield. */
    method Open(sources: seq<seq<KV>>)
      modifies this`iterators
      ensures iterators == Opened(sources)
    {
      iterators := [];
      for i := 0 to |sources|
        invariant iterators == Opened(sources[..i])
      {
        assert sources[..i + 1][..i] == sources[..i];
        if sources[i] != [] {
          iterators := iterators + [Cursor(i, sources[i])];
        }
      }
      assert sources[..|sources|] == sources;
    }

    method Heapify()
      requires NonEmpty(iterators)
      modifies this`iterators
      ensures multiset(iterators) == multiset(old(iterators)) && NonEmpty(iterators)
      ensures Heap(reverse, iterators)
    {
      hide Less;
      var n := |iterators|;
      var i := n / 2;
      while i > 0
        invariant 0 <= i <= n / 2 && |iterators| == n && NonEmpty(iterators)
        invariant multiset(iterators) == multiset(old(iterators))
        invariant forall j :: 1 <= j < n && Parent(j) >= i ==> !Less(reverse, iterators[j], iterators[Parent(j)])
      {
        i := i - 1;
        Down(i, n);
      }
    }

    /** Whether there is a current pair. */
    method HasCurrent() returns (b: bool)
      requires Valid()
      ensures b <==> Remaining() != []
    {
      hide Heap, Opened, Served;
      SomeLeft();
      b := |iterators| > 0;
    }

    /** The current pair, served from the root of the heap. */
    method Current() returns (kv: KV)
      requires Valid() && Remaining() != []
      ensures kv == Remaining()[0].kv
    {
      hide Heap, Opened, NextSource;
      SomeLeft();
      RootServes(reverse, iterators, sources);
      kv := iterators[0].rest[0];
    }

    lemma {:induction false} SomeLeft()
      requires Valid()
      ensures iterators != [] <==> Remaining() != []
    {
      hide Heap, Opened, Served;
      ServedNothing(reverse, sources);
      assert |iterators| == |multiset(iterators)| == |Opened(sources)|;
    }

    /** Move the root to the end and restore heap order before it. */
    method SinkRoot()
      requires NonEmpty(iterators) && iterators != [] && Heap(reverse, iterators)
      modifies this`iterators
      ensures |iterators| == |old(iterators)| && NonEmpty(iterators)
      ensures multiset(iterators) == multiset(old(iterators))
      ensures iterators[|iterators| - 1..] == [old(iterators)[0]]
      ensures forall j :: 1 <= j < |iterators| - 1 ==> !Less(reverse, iterators[j], iterators[Parent(j)])
    {
      hide Less;
      var n := |iterators| - 1;
      iterators := Swapped(iterators, 0, n);
      if n > 0 {
        Down(0, n);
      }
    }

    /** heap.Pop */
    method Pop() returns (c: Cursor)
      requires NonEmpty(iterators) && iterators != [] && Heap(reverse, iterators)
      modifies this`iterators
      ensures c == old(iterators)[0]
      ensures multiset(iterators) == multiset(old(iterators)) - multiset{c}
      ensures NonEmpty(iterators) && Heap(reverse, iterators)
    {
      hide Less;
      c := iterators[0];
      SinkRoot();
      var n := |iterators| - 1;
      assert iterators == iterators[..n] + [c];
      iterators := iterators[..n];
    }

    /** heap.Push */
    method Push(c: Cursor)
      requires NonEmpty(iterators) && Heap(reverse, iterators) && c.rest != []
      modifies this`iterators
      ensures multiset(iterators) == multiset(old(iterators)) + multiset{c}
      ensures NonEmpty(iterators) && Heap(reverse, iterators)
    {
      hide Less;
      iterators := iterators + [c];
      Up();
    }

    /** Advance the iterator the current pair came from. */
    method Next()
      requires Valid() && Remaining() != []
      modifies this`iterators, this`sources
      ensures Valid()
      ensures Remaining() == old(Remaining())[1..]
    {
      hide Less, Heap, Opened, NextSource;
      SomeLeft();
      RootServes(reverse, iterators, sources);
      ghost var i := NextSource(reverse, sources);
      OpenedAdvance(sources, i);
      var c := Pop();
      c := Tail(c);
      if c.rest != [] {
        Push(c);
      }
      sources := Taken(sources, i);
    }

    /** The child of `i` to sift into. */
    method ChildOf(i: nat, n: nat) returns (j: nat)
      requires 2 * i + 1 < n <= |iterators| && NonEmpty(iterators)
      ensures LeastChild(reverse, iterators, n, i, j)
    {
      hide Less, LeastChild;
      PickChild(reverse, iterators, n, i);
      j := 2 * i + 1;
      if j + 1 < n && Less(reverse, iterators[j + 1], iterators[j]) {
        j := j + 1;
      }
    }

    /** Sift down within the first `n` elements. */
    method Down(i0: nat, n: nat)
      requires i0 < n <= |iterators| && NonEmpty(iterators)
      requires forall j :: 1 <= j < n && Parent(j) > i0 ==> !Less(reverse, iterators[j], iterators[Parent(j)])
      modifies this`iterators
      ensures |iterators| == |old(iterators)| && NonEmpty(iterators)
      ensures multiset(iterators) == multiset(old(iterators))
      ensures iterators[n..] == old(iterators)[n..]
      ensures forall j :: 1 <= j < n && Parent(j) >= i0 ==> !Less(reverse, iterators[j], iterators[Parent(j)])
    {
      hide Less;
      var i := i0;
      while 2 * i + 1 < n
        invariant |iterators| == |old(iterators)| && NonEmpty(iterators)
        invariant Sifting(reverse, iterators, i0, n, i)
        invariant multiset(iterators) == multiset(old(iterators))
        invariant iterators[n..] == old(iterators)[n..]
      {
        var j := ChildOf(i, n);
        if !Less(reverse, iterators[j], iterators[i]) {
          SiftDone(reverse, iterators, i0, n, i, j);
          return;
        }
        SiftStep(reverse, iterators, i0, n, i, j);
        iterators := Swapped(iterators, i, j);
        i := j;
      }
      SiftLeaf(reverse, iterators, i0, n, i);
    }

    /** Sift the last element up. */
    method Up()
      requires iterators != [] && NonEmpty(iterators)
      requires forall j :: 1 <= j < |iterators| - 1 ==> !Less(reverse, iterators[j], iterators[Parent(j)])
      modifies this`iterators
      ensures |iterators| == |old(iterators)| && NonEmpty(iterators)
      ensures multiset(iterators) == multiset(old(iterators))
      ensures Heap(reverse, iterators)
    {
      hide Less;
      var j: nat := |iterators| - 1;
      while j > 0 && Less(reverse, iterators[j], iterators[Parent(j)])
        invariant |iterators| == |old(iterators)| && NonEmpty(iterators)
        invariant multiset(iterators) == multiset(old(iterators))
        invariant Rising(reverse, iterators, j)
      {
        var i: nat := Parent(j);
        RiseStep(reverse, iterators, j);
        iterators := Swapped(iterators, i, j);
        j := i;
      }
    }
  }

  /** Heap order holds except between `j` and its parent. */
  ghost predicate Rising(reverse: bool, s: seq<Cursor>, j: nat)
    requires NonEmpty(s)
  {
    && j < |s|
    && (forall k :: 1 <= k < |s| && k != j ==> !Less(reverse, s[k], s[Parent(k)]))
    && (j > 0 ==> forall k :: 1 <= k < |s| && Parent(k) == j ==> !Less(reverse, s[k], s[Parent(j)]))
  }

  lemma {:induction false} RiseStep(reverse: bool, s: seq<Cursor>, j: nat)
    requires NonEmpty(s) && j > 0 && Rising(reverse, s, j) && Less(reverse, s[j], s[Parent(j)])
    ensures NonEmpty(Swapped(s, Parent(j), j)) && Rising(reverse, Swapped(s, Parent(j), j), Parent(j))
  {
    hide Less;
    var i := Parent(j);
    var t := Swapped(s, i, j);
    forall k | 1 <= k < |t| && k != i ensures !Less(reverse, t[k], t[Parent(k)]) {
      RiseKeeps(reverse, s, j, k);
    }
    if i > 0 {
      forall k | 1 <= k < |t| && Parent(k) == i ensures !Less(reverse, t[k], t[Parent(i)]) {
        RiseClears(reverse, s, j, k);
      }
    }
  }

  lemma {:induction false} RiseKeeps(reverse: bool, s: seq<Cursor>, j: nat, k: nat)
    requires NonEmpty(s) && j > 0 && Rising(reverse, s, j) && Less(reverse, s[j], s[Parent(j)])
    requires 1 <= k < |s| && k != Parent(j)
    ensures var t := Swapped(s, Parent(j), j); NonEmpty(t) && !Less(reverse, t[k], t[Parent(k)])
  {
    hide Before;
    var i := Parent(j);
    BeforeTotal(reverse, First(s[i]), First(s[j]));
    if Parent(k) == i && k != j {
      // a sibling of j: it did not sort before the old parent, which the new one sorts before
      BeforeTransitive(reverse, First(s[j]), First(s[i]), First(s[k]));
    }
  }

  lemma {:induction false} RiseClears(reverse: bool, s: seq<Cursor>, j: nat, k: nat)
    requires NonEmpty(s) && Parent(j) > 0 && Rising(reverse, s, j) && Less(reverse, s[j], s[Parent(j)])
    requires 1 <= k < |s| && Parent(k) == Parent(j)
    ensures var t := Swapped(s, Parent(j), j); NonEmpty(t) && !Less(reverse, t[k], t[Parent(Parent(j))])
  {
    hide Before;
    var i := Parent(j);
    if k != j {
      BeforeTransitive(reverse, First(s[Parent(i)]), First(s[i]), First(s[k]));
    }
  }
}
