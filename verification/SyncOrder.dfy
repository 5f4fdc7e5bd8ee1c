/** In which order Sync writes. */
module SyncOrders {
  import opened Sorting
  import opened Addresses
  import opened Options
  import opened Accounts
  import opened StateModel
  import opened StateSync

  /** Operations one after the other, up to the first that is refused. */
  function Applied(w: Reader, ops: seq<Op>): (Reader, bool)
    decreases |ops|
  {
    if ops == [] then (w, true) else
    var (w', ok) := Apply(w, ops[0]);
    if ok then Applied(w', ops[1..]) else (w', false)
  }

  lemma {:induction false} AppliedAppend(w: Reader, a: seq<Op>, b: seq<Op>)
    ensures Applied(w, a + b) == var (w', ok) := Applied(w, a); if ok then Applied(w', b) else (w', false)
    decreases |a|
  {
    hide Apply;
    if a == [] {
      assert a + b == b;
    } else {
      assert (a + b)[1..] == a[1..] + b;
      AppliedAppend(Apply(w, a[0]).0, a[1..], b);
    }
  }

  function At(op: Op): int {
    match op
    case ReadAccount(a) => a as int
    case ReadWord(a, _) => a as int
    case Update(account) => account.address as int
    case Remove(a) => a as int
    case Store(a, _, _) => a as int
  }

  /** By address; and for one address its storage by key, and then the account. */
  predicate Before(x: Op, y: Op) {
    || At(x) < At(y)
    || (At(x) == At(y) && x.Store? && (y.Update? || (y.Store? && x.k as int < y.k as int)))
  }

  ghost predicate InOrder(ops: seq<Op>) {
    forall i, j :: 0 <= i < j < |ops| ==> Before(ops[i], ops[j])
  }

  /** What an entry of the cache has to be written back with. */
  predicate Due(a: Address, info: Info, op: Op) {
    match op
    case Remove(x) => x == a && info.removed
    case Update(account) => account.address == a && info.updated && !info.removed && info.account == Some(account)
    case Store(x, k, v) => x == a && info.updated && !info.removed && k in info.storage && info.storage[k] == v
    case _ => false
  }

  ghost predicate DueFrom(ops: seq<Op>, addresses: seq<Address>, entries: map<Address, Info>)
    requires forall a :: a in addresses ==> a in entries
  {
    forall op :: op in ops <==> exists a :: a in addresses && Due(a, entries[a], op)
  }

  // ---- One entry -----------------------------------------------------------------------------

  lemma {:induction false} WordsInOrder(w: Reader, a: Address, keys: seq<Word>, storage: map<Word, Word>) returns (ops: seq<Op>)
    requires StrictlySorted(keys, WordOrder) && forall k :: k in keys ==> k in storage
    ensures SyncWords(w, a, keys, storage) == Applied(w, ops) && InOrder(ops)
    ensures forall op :: op in ops <==> op.Store? && op.a == a && op.k in keys && op.v == storage[op.k]
    decreases |keys|
  {
    hide SetStorage, InOrder;
    if keys == [] {
      ops := [];
      NothingInOrder();
    } else {
      var k, v := keys[0], storage[keys[0]];
      var w' := SetStorage(w, a, k, v).0;
      var rest := WordsInOrder(w', a, keys[1..], storage);
      ops := [Store(a, k, v)] + rest;
      assert keys == [k] + keys[1..];
      forall op | op in rest ensures Before(Store(a, k, v), op) {
        KeyAfter(keys, op.k);
      }
      ConsInOrder(Store(a, k, v), rest);
    }
  }

  lemma {:induction false} KeyAfter(keys: seq<Word>, k: Word)
    requires keys != [] && StrictlySorted(keys, WordOrder) && k in keys[1..]
    ensures keys[0] as int < k as int
  {
    var j :| 0 < j < |keys| && keys[j] == k;
    assert WordOrder(keys[0], keys[j]) && keys[0] != keys[j];
  }

  lemma {:induction false} ConsInOrder(op: Op, rest: seq<Op>)
    requires InOrder(rest) && forall y :: y in rest ==> Before(op, y)
    ensures InOrder([op] + rest)
  {
    hide Before;
  }

  lemma {:induction false} EntryInOrder(w: Reader, a: Address, info: Info) returns (ops: seq<Op>)
    requires Writable(info) && (info.account.Some? ==> info.account.value.address == a)
    ensures SyncEntry(w, a, info) == Applied(w, ops) && InOrder(ops)
    ensures forall op :: op in ops <==> Due(a, info, op)
  {
    hide SetStorage, UpdateAccount, RemoveAccount, Sort, SyncWords;
    if info.removed {
      ops := [Remove(a)];
      assert Applied(w, ops) == RemoveAccount(w, a) by { AppliedOne(w, Remove(a)); }
    } else if info.updated {
      var stores := WordsInOrder(w, a, SortedWords(info.storage.Keys), info.storage);
      var last := Update(info.account.value);
      ops := stores + [last];
      AppliedAppend(w, stores, [last]);
      AppliedOne(Applied(w, stores).0, last);
      forall i, j | 0 <= i < j < |ops| ensures Before(ops[i], ops[j]) {
        if j < |stores| { assert ops[i] == stores[i] && ops[j] == stores[j]; } else { assert ops[i] in stores; }
      }
    } else {
      ops := [];
    }
  }

  lemma {:induction false} AppliedOne(w: Reader, op: Op)
    ensures Applied(w, [op]) == Apply(w, op)
  {
    hide Apply;
    assert [op][1..] == [];
  }

  // ---- All entries ---------------------------------------------------------------------------

  lemma {:induction false} OrderedAppend(a: seq<Op>, b: seq<Op>)
    requires InOrder(a) && InOrder(b) && forall x, y :: x in a && y in b ==> At(x) < At(y)
    ensures InOrder(a + b)
  {
    forall i, j | 0 <= i < j < |a + b| ensures Before((a + b)[i], (a + b)[j]) {
      if i < |a| <= j { assert a[i] in a && b[j - |a|] in b; }
    }
  }

  lemma {:induction false} AllInOrder(w: Reader, addresses: seq<Address>, entries: map<Address, Info>) returns (ops: seq<Op>)
    requires Filed(entries) && StrictlySorted(addresses, AtMost)
    requires forall a :: a in addresses ==> a in entries && Writable(entries[a])
    ensures SyncAll(w, addresses, entries) == Applied(w, ops) && InOrder(ops) && DueFrom(ops, addresses, entries)
    decreases |addresses|
  {
    hide SyncEntry, InOrder, Writable;
    if addresses == [] {
      ops := [];
      NothingInOrder();
    } else {
      var a := addresses[0];
      var first := EntryInOrder(w, a, entries[a]);
      var rest := AllInOrder(SyncEntry(w, a, entries[a]).0, addresses[1..], entries);
      ops := first + rest;
      AppliedAppend(w, first, rest);
      assert addresses == [a] + addresses[1..];
      forall x, y | x in first && y in rest ensures At(x) < At(y) {
        var b :| b in addresses[1..] && Due(b, entries[b], y);
        assert AtMost(a, b) && a != b;
      }
      OrderedAppend(first, rest);
    }
  }

  lemma {:induction false} NothingInOrder()
    ensures InOrder([])
  {
  }

  /**
    Sync writes what is due and nothing else, by ascending address, the storage of an account by
    ascending key and before the account itself, and stops at the first operation that is refused.
   */
  lemma {:induction false} SyncInOrder(w: Reader, entries: map<Address, Info>) returns (ops: seq<Op>)
    requires Filed(entries) && forall a :: a in entries ==> Writable(entries[a])
    ensures Sync(w, entries) == Applied(w, ops) && InOrder(ops)
    ensures forall op :: op in ops <==> exists a :: a in entries && Due(a, entries[a], op)
  {
    hide Sort, SyncAll, InOrder, Writable, Due;
    var addresses := SortedAddresses(entries.Keys);
    assert forall a :: a in addresses <==> a in Elements(addresses);
    ops := AllInOrder(w, addresses, entries);
  }
}
