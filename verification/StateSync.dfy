/** Writing a cache back: what Sync leaves in the backend, and when it can. */
module StateSync {
  import opened Sorting
  import opened Addresses
  import opened Options
  import opened Accounts
  import opened StateModel

  predicate WordOrder(a: Word, b: Word) {
    a <= b
  }

  function SyncWords(w: Reader, a: Address, keys: seq<Word>, storage: map<Word, Word>): (Reader, bool)
    requires forall k :: k in keys ==> k in storage
    decreases |keys|
  {
    if keys == [] then (w, true)
    else
      var (w', ok) := SetStorage(w, a, keys[0], storage[keys[0]]);
      if ok then SyncWords(w', a, keys[1..], storage) else (w', false)
  }

  function SortedWords(s: set<Word>): (r: seq<Word>)
    ensures StrictlySorted(r, WordOrder) && forall k :: k in r <==> k in s
  {
    var r := Sort(s, WordOrder);
    assert forall k :: k in r <==> k in Elements(r);
    r
  }

  /** Storage goes out before the account it belongs to. */
  function SyncEntry(w: Reader, a: Address, info: Info): (Reader, bool) {
    if info.removed then RemoveAccount(w, a)
    else if info.updated then
      var (w', ok) := SyncWords(w, a, SortedWords(info.storage.Keys), info.storage);
      if !ok || info.account.None? then (w', false) else UpdateAccount(w', info.account.value)
    else (w, true)
  }

  function SyncAll(w: Reader, addresses: seq<Address>, entries: map<Address, Info>): (Reader, bool)
    requires forall a :: a in addresses ==> a in entries
    decreases |addresses|
  {
    if addresses == [] then (w, true)
    else
      var (w', ok) := SyncEntry(w, addresses[0], entries[addresses[0]]);
      if ok then SyncAll(w', addresses[1..], entries) else (w', false)
  }

  lemma {:induction false} SyncStep(w: Reader, addresses: seq<Address>, entries: map<Address, Info>, i: nat)
    requires i <= |addresses| && forall a :: a in addresses ==> a in entries
    ensures SyncAll(w, addresses[i..], entries) ==
            if i == |addresses| then (w, true)
            else
              var (w', ok) := SyncEntry(w, addresses[i], entries[addresses[i]]);
              if ok then SyncAll(w', addresses[i + 1..], entries) else (w', false)
  {
    hide SyncEntry;
    if i < |addresses| {
      assert addresses[i..][1..] == addresses[i + 1..];
    }
  }

  function Sync(w: Reader, entries: map<Address, Info>): (Reader, bool) {
    var addresses := SortedAddresses(entries.Keys);
    assert forall a :: a in addresses ==> a in Elements(addresses);
    SyncAll(w, addresses, entries)
  }

  // ---- What a successful Sync writes ----------------------------------------------------

  ghost predicate WordsSet(r: Reader, r': Reader, a: Address, keys: seq<Word>, storage: map<Word, Word>)
    requires forall k :: k in keys ==> k in storage
  {
    && (forall x :: ViewAccount(r', x) == ViewAccount(r, x))
    && (forall x, j :: ViewStorage(r', x, j) == if x == a && j in keys then storage[j] else ViewStorage(r, x, j))
  }

  lemma {:induction false} SyncWordsWrites(w: Reader, a: Address, keys: seq<Word>, storage: map<Word, Word>)
    requires Coherent(w) && forall k :: k in keys ==> k in storage
    ensures var (w', ok) := SyncWords(w, a, keys, storage);
            Coherent(w') && (ok ==> WordsSet(w, w', a, keys, storage))
    decreases |keys|
  {
    hide SetStorage, Coherent;
    if keys != [] {
      SetStorageWrites(w, a, keys[0], storage[keys[0]]);
      var (w1, ok) := SetStorage(w, a, keys[0], storage[keys[0]]);
      SyncWordsWrites(w1, a, keys[1..], storage);
      assert keys == [keys[0]] + keys[1..];
    }
  }

  /** `r'` reads as `r` with one cache entry written through. */
  ghost predicate EntrySet(r: Reader, r': Reader, a: Address, info: Info) {
    && (forall x :: ViewAccount(r', x) ==
          if x == a && info.removed then None else if x == a && info.updated then info.account else ViewAccount(r, x))
    && (forall x, j :: ViewStorage(r', x, j) ==
          if x == a && !info.removed && info.updated && j in info.storage then info.storage[j] else ViewStorage(r, x, j))
  }

  lemma {:induction false} SyncEntryWrites(w: Reader, a: Address, info: Info)
    requires Coherent(w) && (info.account.Some? ==> info.account.value.address == a)
    ensures var (w', ok) := SyncEntry(w, a, info);
            Coherent(w') && (ok ==> EntrySet(w, w', a, info))
  {
    hide UpdateAccount, RemoveAccount, Coherent, Sort;
    if info.removed {
      RemoveAccountWrites(w, a);
    } else if info.updated {
      var keys := SortedWords(info.storage.Keys);
      SyncWordsWrites(w, a, keys, info.storage);
      var w1 := SyncWords(w, a, keys, info.storage).0;
      if info.account.Some? {
        UpdateAccountWrites(w1, info.account.value);
      }
    }
  }

  /** The account at `x` after writing entries through, and the word at `(x, k)`. */
  function Written(entries: map<Address, Info>, x: Address, before: Option<Account>): Option<Account> {
    if x !in entries then before
    else if entries[x].removed then None
    else if entries[x].updated then entries[x].account
    else before
  }

  function WrittenWord(entries: map<Address, Info>, x: Address, k: Word, before: Word): Word {
    if x in entries && !entries[x].removed && entries[x].updated && k in entries[x].storage then entries[x].storage[k]
    else before
  }

  ghost predicate EntriesSet(r: Reader, r': Reader, addresses: seq<Address>, entries: map<Address, Info>) {
    && (forall x :: ViewAccount(r', x) ==
          if x in addresses then Written(entries, x, ViewAccount(r, x)) else ViewAccount(r, x))
    && (forall x, k :: ViewStorage(r', x, k) ==
          if x in addresses then WrittenWord(entries, x, k, ViewStorage(r, x, k)) else ViewStorage(r, x, k))
  }

  ghost predicate Filed(entries: map<Address, Info>) {
    forall a :: a in entries && entries[a].account.Some? ==> entries[a].account.value.address == a
  }

  lemma {:induction false} SyncAllWrites(w: Reader, addresses: seq<Address>, entries: map<Address, Info>)
    requires Coherent(w) && Filed(entries)
    requires StrictlySorted(addresses, AtMost) && forall a :: a in addresses ==> a in entries
    ensures var (w', ok) := SyncAll(w, addresses, entries);
            Coherent(w') && (ok ==> EntriesSet(w, w', addresses, entries))
    decreases |addresses|
  {
    hide SyncEntry, Coherent;
    if addresses != [] {
      var a := addresses[0];
      SyncEntryWrites(w, a, entries[a]);
      var (w1, ok) := SyncEntry(w, a, entries[a]);
      SyncAllWrites(w1, addresses[1..], entries);
      assert addresses == [a] + addresses[1..];
      assert a !in addresses[1..];
    }
  }

  /**
    After any error-free Sync the backend reads as the cache did: every account, and all
    storage of accounts the cache did not remove.
   */
  lemma {:induction false} SyncAgrees(entries: map<Address, Info>, backend: Reader)
    requires Coherent(Cache(entries, backend))
    ensures var top := Cache(entries, backend);
            var (b', ok) := Sync(backend, entries);
            && Coherent(b')
            && (ok ==> forall a :: ViewAccount(b', a) == ViewAccount(top, a))
            && (ok ==> forall a, k :: !(a in entries && entries[a].removed) ==> ViewStorage(b', a, k) == ViewStorage(top, a, k))
  {
    hide SyncAll, Sort;
    var top := Cache(entries, backend);
    var addresses := SortedAddresses(entries.Keys);
    assert forall a :: a in addresses <==> a in Elements(addresses);
    SyncAllWrites(backend, addresses, entries);
    var (b', ok) := Sync(backend, entries);
    if ok {
      forall a ensures ViewAccount(b', a) == ViewAccount(top, a) {
        assert a in entries ==> CoherentEntry(entries[a], backend, a);
      }
      forall a, k | !(a in entries && entries[a].removed) ensures ViewStorage(b', a, k) == ViewStorage(top, a, k) {
        assert a in entries ==> CoherentEntry(entries[a], backend, a);
      }
    }
  }

  // ---- When Sync succeeds ---------------------------------------------------------------

  /** Writing storage needs an account to write: a nil account cannot be updated. */
  predicate Writable(info: Info) {
    info.updated && !info.removed ==> info.account.Some?
  }

  /** The state is itself a cache and has the account marked as removed. */
  predicate RemovedIn(w: Reader, a: Address) {
    w.Cache? && a in w.entries && w.entries[a].removed
  }

  /** Both states have the same accounts marked as removed, `a` perhaps excepted. */
  ghost predicate SameRemoved(w: Reader, w': Reader, a: Address) {
    forall x :: x != a ==> (RemovedIn(w', x) <==> RemovedIn(w, x))
  }

  lemma {:induction false} SetStorageRefused(w: Reader, a: Address, k: Word, v: Word)
    ensures var (w', ok) := SetStorage(w, a, k, v);
            (ok <==> !RemovedIn(w, a)) && forall x :: RemovedIn(w', x) <==> RemovedIn(w, x)
  {
  }

  lemma {:induction false} UpdateRefused(w: Reader, account: Account)
    ensures var (w', ok) := UpdateAccount(w, account);
            (ok <==> !RemovedIn(w, account.address)) && forall x :: RemovedIn(w', x) <==> RemovedIn(w, x)
  {
  }

  lemma {:induction false} RemoveRefused(w: Reader, a: Address)
    ensures var (w', ok) := RemoveAccount(w, a);
            (ok <==> !RemovedIn(w, a)) && SameRemoved(w, w', a) && (RemovedIn(w, a) ==> RemovedIn(w', a))
  {
  }

  lemma {:induction false} SyncWordsRefused(w: Reader, a: Address, keys: seq<Word>, storage: map<Word, Word>)
    requires forall k :: k in keys ==> k in storage
    ensures var (w', ok) := SyncWords(w, a, keys, storage);
            (ok <==> keys == [] || !RemovedIn(w, a)) && forall x :: RemovedIn(w', x) <==> RemovedIn(w, x)
    decreases |keys|
  {
    hide SetStorage;
    if keys != [] {
      SetStorageRefused(w, a, keys[0], storage[keys[0]]);
      SyncWordsRefused(SetStorage(w, a, keys[0], storage[keys[0]]).0, a, keys[1..], storage);
    }
  }

  /** The entry can be written to `w`. */
  predicate Accepts(w: Reader, a: Address, info: Info) {
    Writable(info) && (info.removed || info.updated ==> !RemovedIn(w, a))
  }

  lemma {:induction false} SyncEntryRefused(w: Reader, a: Address, info: Info)
    requires info.account.Some? ==> info.account.value.address == a
    ensures var (w', ok) := SyncEntry(w, a, info);
            (ok <==> Accepts(w, a, info)) && SameRemoved(w, w', a)
  {
    hide Sort, UpdateAccount, RemoveAccount, SyncWords;
    RemoveRefused(w, a);
    var keys := SortedWords(info.storage.Keys);
    SyncWordsRefused(w, a, keys, info.storage);
    if info.account.Some? {
      UpdateRefused(SyncWords(w, a, keys, info.storage).0, info.account.value);
    }
  }

  lemma {:induction false} SyncAllRefused(w: Reader, addresses: seq<Address>, entries: map<Address, Info>)
    requires Filed(entries) && StrictlySorted(addresses, AtMost) && forall a :: a in addresses ==> a in entries
    ensures SyncAll(w, addresses, entries).1 <==> forall a :: a in addresses ==> Accepts(w, a, entries[a])
    decreases |addresses|
  {
    hide SyncEntry, Writable, RemovedIn;
    if addresses != [] {
      var a := addresses[0];
      SyncEntryRefused(w, a, entries[a]);
      var w' := SyncEntry(w, a, entries[a]).0;
      SyncAllRefused(w', addresses[1..], entries);
      assert addresses == [a] + addresses[1..];
      assert forall x :: x in addresses[1..] ==> x != a;
      assert forall x :: x in addresses[1..] ==> (Accepts(w', x, entries[x]) <==> Accepts(w, x, entries[x]));
    }
  }

  /**
    Sync succeeds exactly when storage was only set on existing accounts and nothing it has to
    write was removed in the state below, which only a state that is a cache remembers.
   */
  lemma {:induction false} SyncSucceeds(entries: map<Address, Info>, backend: Reader)
    requires Filed(entries)
    ensures Sync(backend, entries).1 <==>
            forall a :: a in entries ==>
              && Writable(entries[a])
              && (entries[a].removed || entries[a].updated ==> !RemovedIn(backend, a))
  {
    hide Sort, SyncAll;
    var addresses := SortedAddresses(entries.Keys);
    assert forall a :: a in addresses <==> a in Elements(addresses);
    SyncAllRefused(backend, addresses, entries);
  }

  // ---- Runs -----------------------------------------------------------------------------

  datatype Op = ReadAccount(a: Address) | ReadWord(a: Address, k: Word)
              | Update(account: Account) | Remove(a: Address) | Store(a: Address, k: Word, v: Word)

  function Apply(r: Reader, op: Op): (Reader, bool) {
    match op
    case ReadAccount(a) => (GetAccount(r, a).1, true)
    case ReadWord(a, k) => (GetStorage(r, a, k).1, true)
    case Update(account) => UpdateAccount(r, account)
    case Remove(a) => RemoveAccount(r, a)
    case Store(a, k, v) => SetStorage(r, a, k, v)
  }

  function Run(r: Reader, ops: seq<Op>): Reader {
    if ops == [] then r else Apply(Run(r, ops[..|ops| - 1]), ops[|ops| - 1]).0
  }

  /** No operation of the run reported an error. */
  predicate ErrorFree(r: Reader, ops: seq<Op>) {
    ops == [] || (ErrorFree(r, ops[..|ops| - 1]) && Apply(Run(r, ops[..|ops| - 1]), ops[|ops| - 1]).1)
  }

  lemma {:induction false} ApplyKeeps(r: Reader, op: Op)
    requires Coherent(r) && r.Cache?
    ensures var r' := Apply(r, op).0; Coherent(r') && r'.Cache? && SameView(r.backend, r'.backend)
  {
    hide Coherent, SameView;
    match op {
      case ReadAccount(a) => GetAccountReads(r, a); LoadReads(r, a);
      case ReadWord(a, k) => GetStorageReads(r, a, k); GetStorageBackend(r, a, k);
      case Update(account) => UpdateAccountWrites(r, account);
      case Remove(a) => RemoveAccountWrites(r, a);
      case Store(a, k, v) => SetStorageWrites(r, a, k, v);
    }
  }

  lemma {:induction false} GetStorageBackend(r: Reader, a: Address, k: Word)
    requires Coherent(r) && r.Cache?
    ensures var r' := GetStorage(r, a, k).1; r'.Cache? && SameView(r.backend, r'.backend)
  {
    LoadReads(r, a);
    if k !in Load(r, a).entries[a].storage {
      GetStorageReads(Load(r, a).backend, a, k);
    }
  }

  /** Whatever is done through a cache, its backend still reads as before: dropping the cache undoes it all. */
  lemma {:induction false} DroppingRestores(backend: Reader, ops: seq<Op>)
    requires Coherent(backend)
    ensures var top := Run(Cache(map[], backend), ops);
            Coherent(top) && top.Cache? && SameView(backend, top.backend)
  {
    hide Apply;
    if ops != [] {
      DroppingRestores(backend, ops[..|ops| - 1]);
      ApplyKeeps(Run(Cache(map[], backend), ops[..|ops| - 1]), ops[|ops| - 1]);
    }
  }

  /** What one operation does to any state that reads like another, it does to both alike. */
  lemma {:induction false} ApplyAlike(r: Reader, s: Reader, op: Op)
    requires Coherent(r) && Coherent(s) && SameView(r, s)
    requires Apply(r, op).1 && Apply(s, op).1
    ensures SameView(Apply(r, op).0, Apply(s, op).0)
  {
    hide Coherent, UpdateAccount, RemoveAccount, SetStorage, GetAccount, GetStorage;
    match op {
      case ReadAccount(a) => GetAccountReads(r, a); GetAccountReads(s, a);
      case ReadWord(a, k) => GetStorageReads(r, a, k); GetStorageReads(s, a, k);
      case Update(account) => UpdateAccountWrites(r, account); UpdateAccountWrites(s, account);
      case Remove(a) => RemoveAccountWrites(r, a); RemoveAccountWrites(s, a);
      case Store(a, k, v) => SetStorageWrites(r, a, k, v); SetStorageWrites(s, a, k, v);
    }
  }

  lemma {:induction false} RunKeeps(r: Reader, ops: seq<Op>)
    requires Coherent(r)
    ensures Coherent(Run(r, ops))
  {
    if ops != [] {
      RunKeeps(r, ops[..|ops| - 1]);
      ApplyCoherent(Run(r, ops[..|ops| - 1]), ops[|ops| - 1]);
    }
  }

  lemma {:induction false} ApplyCoherent(r: Reader, op: Op)
    requires Coherent(r)
    ensures Coherent(Apply(r, op).0)
  {
    if r.Cache? {
      ApplyKeeps(r, op);
    }
  }

  // ---- Which runs meet no error ---------------------------------------------------------

  /** The account an operation writes to. */
  function Target(op: Op): Option<Address> {
    match op
    case Update(account) => Some(account.address)
    case Remove(a) => Some(a)
    case Store(a, _, _) => Some(a)
    case _ => None
  }

  /** No account is written to after the run removed it. */
  ghost predicate Tidy(ops: seq<Op>) {
    forall i, j :: 0 <= i < j < |ops| && ops[i].Remove? ==> Target(ops[j]) != Some(ops[i].a)
  }

  /** No account the run writes to is marked as removed. */
  ghost predicate Present(r: Reader, ops: seq<Op>) {
    forall i :: 0 <= i < |ops| && Target(ops[i]).Some? ==> !RemovedIn(r, Target(ops[i]).value)
  }

  lemma {:induction false} GetAccountRemoved(r: Reader, a: Address)
    ensures forall x :: RemovedIn(GetAccount(r, a).1, x) <==> RemovedIn(r, x)
  {
  }

  lemma {:induction false} GetStorageRemoved(r: Reader, a: Address, k: Word)
    ensures forall x :: RemovedIn(GetStorage(r, a, k).1, x) <==> RemovedIn(r, x)
  {
  }

  /** An operation on a cache is refused exactly when it writes to a removed account, and only removals remove. */
  lemma {:induction false} ApplyRemoved(r: Reader, op: Op, x: Address)
    requires r.Cache?
    ensures var (r', ok) := Apply(r, op);
            && r'.Cache? && (RemovedIn(r', x) <==> RemovedIn(r, x) || op == Remove(x))
            && (ok <==> !(Target(op).Some? && RemovedIn(r, Target(op).value)))
  {
    hide GetAccount, GetStorage;
    match op {
      case ReadAccount(a) => GetAccountRemoved(r, a);
      case ReadWord(a, k) => GetStorageRemoved(r, a, k);
      case Update(account) => UpdateRefused(r, account);
      case Remove(a) => RemoveRefused(r, a);
      case Store(a, k, v) => SetStorageRefused(r, a, k, v);
    }
  }

  lemma {:induction false} RunRemoved(r: Reader, ops: seq<Op>, x: Address)
    requires r.Cache?
    ensures Run(r, ops).Cache? && (RemovedIn(Run(r, ops), x) <==> RemovedIn(r, x) || Remove(x) in ops)
  {
    hide Apply, RemovedIn;
    if ops != [] {
      var before, op := ops[..|ops| - 1], ops[|ops| - 1];
      RunRemoved(r, before, x);
      ApplyRemoved(Run(r, before), op, x);
      assert ops == before + [op];
    }
  }

  /** A run on a cache meets no error exactly when it writes to no account after removing it, nor to one removed before. */
  lemma {:induction false} ErrorFreeExactly(r: Reader, ops: seq<Op>)
    requires r.Cache?
    ensures ErrorFree(r, ops) <==> Tidy(ops) && Present(r, ops)
  {
    if ops != [] {
      hide Apply, RemovedIn;
      var n := |ops| - 1;
      var before, op := ops[..n], ops[n];
      ErrorFreeExactly(r, before);
      var x := if Target(op).Some? then Target(op).value else 0;
      RunRemoved(r, before, x);
      ApplyRemoved(Run(r, before), op, x);
      TidyLast(ops);
      assert Present(r, ops) <==> Present(r, before) && (Target(op).Some? ==> !RemovedIn(r, x));
    }
  }

  lemma {:induction false} TidyLast(ops: seq<Op>)
    requires ops != []
    ensures var before, op := ops[..|ops| - 1], ops[|ops| - 1];
            Tidy(ops) <==> Tidy(before) && (Target(op).Some? ==> Remove(Target(op).value) !in before)
  {
    var n := |ops| - 1;
    var before, op := ops[..n], ops[n];
    assert forall i :: 0 <= i < n ==> before[i] == ops[i];
    if Target(op).Some? && Remove(Target(op).value) in before {
      var i :| 0 <= i < n && before[i] == Remove(Target(op).value);
      assert ops[i].Remove? && Target(ops[n]) == Some(ops[i].a);
    }
  }

  /** Plain state refuses nothing. */
  lemma {:induction false} PlainErrorFree(base: Reader, ops: seq<Op>)
    requires base.Base?
    ensures ErrorFree(base, ops) && Run(base, ops).Base?
  {
    if ops != [] {
      PlainErrorFree(base, ops[..|ops| - 1]);
    }
  }

  lemma {:induction false} BothErrorFree(lower: Reader, ops: seq<Op>)
    ensures ErrorFree(Cache(map[], lower), ops) && ErrorFree(lower, ops) <==> Tidy(ops) && Present(lower, ops)
  {
    hide ErrorFree, Tidy;
    ErrorFreeExactly(Cache(map[], lower), ops);
    if lower.Base? {
      PlainErrorFree(lower, ops);
    } else {
      ErrorFreeExactly(lower, ops);
    }
  }

  // ---- Caching a run and writing it back ------------------------------------------------

  lemma {:induction false} CachedAlike(lower: Reader, ops: seq<Op>)
    requires Coherent(lower) && ErrorFree(Cache(map[], lower), ops) && ErrorFree(lower, ops)
    ensures SameView(Run(Cache(map[], lower), ops), Run(lower, ops))
  {
    hide Apply, Coherent;
    if ops == [] {
      assert SameView(Cache(map[], lower), lower);
    } else {
      var before := ops[..|ops| - 1];
      CachedAlike(lower, before);
      DroppingRestores(lower, before);
      RunKeeps(lower, before);
      ApplyAlike(Run(Cache(map[], lower), before), Run(lower, before), ops[|ops| - 1]);
    }
  }

  /** A run that writes to no removed account reads through a cache as it does directly on whatever lies below. */
  lemma {:induction false} CacheReadsLikeDirect(lower: Reader, ops: seq<Op>)
    requires Coherent(lower) && Tidy(ops) && Present(lower, ops)
    ensures SameView(Run(Cache(map[], lower), ops), Run(lower, ops))
  {
    hide Run, Coherent, SameView, ErrorFree, Tidy, Present;
    BothErrorFree(lower, ops);
    CachedAlike(lower, ops);
  }

  /** Without that it need not: an account set again after its removal stays removed in a cache. */
  lemma {:induction false} UntidyDiffers(account: Account)
    requires account.address == 1
    ensures var base := Base(map[1 := account], map[]);
            var ops := [Remove(1), Update(account)];
            ViewAccount(Run(base, ops), 1) == Some(account) && ViewAccount(Run(Cache(map[], base), ops), 1) == None
  {
    var base := Base(map[1 := account], map[]);
    var one, ops := [Remove(1)], [Remove(1), Update(account)];
    assert ops[..1] == one && one[..0] == [];
    assert Run(base, one) == RemoveAccount(base, 1).0;
    var above := Cache(map[], base);
    assert Run(above, one) == RemoveAccount(above, 1).0;
    assert RemovedIn(Run(above, one), 1);
    UpdateRefused(Run(above, one), account);
  }

  /** What is known of an account, whether or not it is marked as removed. */
  function Known(r: Reader, x: Address): Option<Account>
    requires r.Cache?
  {
    if x in r.entries then r.entries[x].account else ViewAccount(r.backend, x)
  }

  predicate Changed(r: Reader, x: Address) {
    r.Cache? && x in r.entries && r.entries[x].updated
  }

  predicate Touched(r: Reader, x: Address) {
    Changed(r, x) || RemovedIn(r, x)
  }

  predicate Sets(op: Op, x: Address) {
    op.Update? && op.account.address == x
  }

  predicate Stores(op: Op, x: Address) {
    op.Store? && op.a == x
  }

  lemma {:induction false} LoadKnown(r: Reader, a: Address, x: Address)
    requires r.Cache? && Coherent(r)
    ensures var r' := Load(r, a);
            && Known(r', x) == Known(r, x) && (Changed(r', x) <==> Changed(r, x))
            && (RemovedIn(r'.backend, x) <==> RemovedIn(r.backend, x))
    ensures GetAccount(r, a).1 == Load(r, a)
  {
    GetAccountReads(r.backend, a);
    GetAccountRemoved(r.backend, a);
  }

  lemma {:induction false} GetStorageKnown(r: Reader, a: Address, k: Word, x: Address)
    requires r.Cache? && Coherent(r)
    ensures var r' := GetStorage(r, a, k).1;
            && r'.Cache? && Known(r', x) == Known(r, x) && (Changed(r', x) <==> Changed(r, x))
            && (RemovedIn(r'.backend, x) <==> RemovedIn(r.backend, x))
  {
    hide Coherent;
    LoadKnown(r, a, x);
    LoadReads(r, a);
    var r1 := Load(r, a);
    CoherentBelow(r1);
    GetStorageReads(r1.backend, a, k);
    GetStorageRemoved(r1.backend, a, k);
  }

  lemma {:induction false} CoherentBelow(r: Reader)
    requires r.Cache? && Coherent(r)
    ensures Coherent(r.backend) && Filed(r.entries)
  {
    assert forall a :: a in r.entries ==> CoherentEntry(r.entries[a], r.backend, a);
  }

  /** Only writes change entries, a refused one changes none, and what lies below is only read. */
  lemma {:induction false} ApplyKnown(r: Reader, op: Op, x: Address)
    requires r.Cache? && Coherent(r)
    ensures var (r', ok) := Apply(r, op);
            && r'.Cache? && (RemovedIn(r'.backend, x) <==> RemovedIn(r.backend, x))
            && (Known(r', x).Some? <==> Known(r, x).Some? || (ok && Sets(op, x)))
            && (Changed(r', x) <==> Changed(r, x) || (ok && (Sets(op, x) || Stores(op, x))))
  {
    hide GetAccount, GetStorage, Coherent, RemovedIn;
    match op {
      case ReadAccount(a) => LoadKnown(r, a, x);
      case ReadWord(a, k) => GetStorageKnown(r, a, k, x);
      case Update(account) => LoadKnown(r, account.address, x);
      case Remove(a) => LoadKnown(r, a, x);
      case Store(a, k, v) => LoadKnown(r, a, x);
    }
  }

  /** The entries a run leaves in a fresh cache, for accounts it does not remove. */
  lemma {:induction false} RunKnown(lower: Reader, ops: seq<Op>, x: Address)
    requires Coherent(lower) && Remove(x) !in ops
    ensures var top := Run(Cache(map[], lower), ops);
            && top.Cache?
            && (Known(top, x).Some? <==> ViewAccount(lower, x).Some? || exists op :: op in ops && Sets(op, x))
            && (Changed(top, x) <==> exists op :: op in ops && (Sets(op, x) || Stores(op, x)))
  {
    hide Apply, RemovedIn, Coherent, Sets, Stores;
    if ops == [] {
      assert !Changed(Cache(map[], lower), x) && Known(Cache(map[], lower), x) == ViewAccount(lower, x);
    } else {
      var before, op := ops[..|ops| - 1], ops[|ops| - 1];
      var r := Run(Cache(map[], lower), before);
      RunKnown(lower, before, x);
      DroppingRestores(lower, before);
      RunRemoved(Cache(map[], lower), before, x);
      assert !RemovedIn(Cache(map[], lower), x) by { FreshUntouched(lower, x); }
      ApplyKnown(r, op, x);
      ApplyRemoved(r, op, x);
      SetsTarget(op, x);
      assert ops == before + [op];
    }
  }

  lemma {:induction false} SetsTarget(op: Op, x: Address)
    ensures Sets(op, x) || Stores(op, x) ==> Target(op) == Some(x)
  {
  }

  lemma {:induction false} FreshUntouched(lower: Reader, x: Address)
    ensures !Touched(Cache(map[], lower), x) && !RemovedIn(Cache(map[], lower), x)
  {
  }

  /** What the run touches was there below, and what lies below is still marked as before. */
  lemma {:induction false} RunTouches(lower: Reader, ops: seq<Op>, x: Address)
    requires Coherent(lower) && Present(lower, ops)
    ensures var top := Run(Cache(map[], lower), ops);
            && top.Cache? && (RemovedIn(top.backend, x) <==> RemovedIn(lower, x))
            && (Touched(top, x) ==> !RemovedIn(lower, x))
  {
    hide Apply, RemovedIn, Changed, Coherent;
    if ops == [] {
      FreshUntouched(lower, x);
    } else {
      var before, op := ops[..|ops| - 1], ops[|ops| - 1];
      RunTouches(lower, before, x);
      DroppingRestores(lower, before);
      ApplyKnown(Run(Cache(map[], lower), before), op, x);
      ApplyRemoved(Run(Cache(map[], lower), before), op, x);
      assert ops[|ops| - 1] == op;
    }
  }

  /** Storage set on `a` can be written back: the account exists, or the run sets it, or removes it. */
  ghost predicate Owned(lower: Reader, ops: seq<Op>, a: Address) {
    ViewAccount(lower, a).Some? || Remove(a) in ops || exists op :: op in ops && Sets(op, a)
  }

  lemma {:induction false} WritableExactly(lower: Reader, ops: seq<Op>, x: Address)
    requires Coherent(lower)
    ensures var top := Run(Cache(map[], lower), ops);
            top.Cache? && (x in top.entries && !Writable(top.entries[x])
                           <==> !Owned(lower, ops, x) && exists op :: op in ops && Stores(op, x))
  {
    hide Run, Coherent, Sets, Stores;
    RunRemoved(Cache(map[], lower), ops, x);
    if Remove(x) !in ops {
      RunKnown(lower, ops, x);
    }
  }

  /** After any run that writes to nothing marked removed below, Sync is accepted exactly when all storage set is owned. */
  lemma {:induction false} WriteBackSucceeds(lower: Reader, ops: seq<Op>)
    requires Coherent(lower) && Present(lower, ops)
    ensures var top := Run(Cache(map[], lower), ops);
            && top.Cache?
            && (Sync(top.backend, top.entries).1 <==>
                forall i :: 0 <= i < |ops| && ops[i].Store? ==> Owned(lower, ops, ops[i].a))
  {
    hide Run, Sync, RemovedIn, Writable, Owned, Present, Coherent;
    DroppingRestores(lower, ops);
    var top := Run(Cache(map[], lower), ops);
    forall a ensures Touched(top, a) ==> !RemovedIn(top.backend, a) {
      RunTouches(lower, ops, a);
    }
    forall a ensures a in top.entries && !Writable(top.entries[a])
                     <==> !Owned(lower, ops, a) && exists op :: op in ops && Stores(op, a) {
      WritableExactly(lower, ops, a);
    }
    TouchedEntries(top);
    CoherentBelow(top);
    SyncSucceeds(top.entries, top.backend);
    StoresListed(ops);
  }

  lemma {:induction false} TouchedEntries(r: Reader)
    requires r.Cache?
    ensures forall a :: a in r.entries && (r.entries[a].removed || r.entries[a].updated) ==> Touched(r, a)
  {
  }

  lemma {:induction false} StoresListed(ops: seq<Op>)
    ensures forall i :: 0 <= i < |ops| && ops[i].Store? ==> ops[i] in ops && Stores(ops[i], ops[i].a)
    ensures forall op, a :: op in ops && Stores(op, a) ==> exists i :: 0 <= i < |ops| && ops[i].Store? && ops[i].a == a
  {
  }

  /** Caching a run and then syncing leaves the state the run would have made directly. */
  lemma {:induction false} WriteBackEqualsDirect(lower: Reader, ops: seq<Op>)
    requires Coherent(lower) && Tidy(ops) && Present(lower, ops)
    ensures var top, direct := Run(Cache(map[], lower), ops), Run(lower, ops);
            && top.Cache?
            && var (b', ok) := Sync(top.backend, top.entries);
               && (ok <==> forall i :: 0 <= i < |ops| && ops[i].Store? ==> Owned(lower, ops, ops[i].a))
               && (ok ==> forall a :: ViewAccount(b', a) == ViewAccount(direct, a))
               && (ok ==> forall a, k :: Remove(a) !in ops ==> ViewStorage(b', a, k) == ViewStorage(direct, a, k))
  {
    hide Run, Sync, Coherent, Tidy, Present, Owned;
    CacheReadsLikeDirect(lower, ops);
    DroppingRestores(lower, ops);
    WriteBackSucceeds(lower, ops);
    var top := Run(Cache(map[], lower), ops);
    SyncAgrees(top.entries, top.backend);
    forall a ensures a in top.entries && top.entries[a].removed <==> Remove(a) in ops {
      RunRemoved(Cache(map[], lower), ops, a);
    }
  }

  // ---- Plain state below ----------------------------------------------------------------

  lemma {:induction false} SyncWordsBase(w: Reader, a: Address, keys: seq<Word>, storage: map<Word, Word>)
    requires w.Base? && forall k :: k in keys ==> k in storage
    ensures SyncWords(w, a, keys, storage).0.Base?
    decreases |keys|
  {
    if keys != [] {
      SyncWordsBase(SetStorage(w, a, keys[0], storage[keys[0]]).0, a, keys[1..], storage);
    }
  }

  lemma {:induction false} SyncBase(w: Reader, addresses: seq<Address>, entries: map<Address, Info>)
    requires w.Base? && forall a :: a in addresses ==> a in entries
    ensures SyncAll(w, addresses, entries).0.Base?
    decreases |addresses|
  {
    hide Sort;
    if addresses != [] {
      var info := entries[addresses[0]];
      SyncWordsBase(w, addresses[0], SortedWords(info.storage.Keys), info.storage);
      SyncBase(SyncEntry(w, addresses[0], info).0, addresses[1..], entries);
    }
  }

  lemma {:induction false} LoadStays(r: Reader, a: Address)
    requires r.Cache? && r.backend.Base?
    ensures Load(r, a).backend == r.backend
  {
  }

  lemma {:induction false} BackendStays(r: Reader, op: Op)
    requires r.Cache? && r.backend.Base?
    ensures Apply(r, op).0.Cache? && Apply(r, op).0.backend == r.backend
  {
    match op {
      case ReadAccount(a) => LoadStays(r, a);
      case ReadWord(a, k) =>
        LoadStays(r, a);
        assert GetStorage(Load(r, a).backend, a, k).1 == r.backend;
      case Update(account) => LoadStays(r, account.address);
      case Remove(a) => LoadStays(r, a);
      case Store(a, k, v) => LoadStays(r, a);
    }
  }

  lemma {:induction false} RunBackend(base: Reader, ops: seq<Op>)
    requires base.Base?
    ensures var top := Run(Cache(map[], base), ops); top.Cache? && top.backend == base
  {
    hide Apply;
    if ops != [] {
      RunBackend(base, ops[..|ops| - 1]);
      BackendStays(Run(Cache(map[], base), ops[..|ops| - 1]), ops[|ops| - 1]);
    }
  }

  /** Over plain state a run that does not write to what it removed ends in the very ledger it makes directly. */
  lemma {:induction false} PlainWriteBack(base: Reader, ops: seq<Op>)
    requires base.Base? && Coherent(base) && Tidy(ops)
    requires forall i :: 0 <= i < |ops| && ops[i].Store? ==> Owned(base, ops, ops[i].a)
    ensures var top, direct := Run(Cache(map[], base), ops), Run(base, ops);
            && top.Cache? && top.backend == base && direct.Base?
            && var (b', ok) := Sync(base, top.entries);
               && ok && b'.Base? && b'.accounts == direct.accounts
               && forall a, k :: Remove(a) !in ops ==> ViewStorage(b', a, k) == ViewStorage(direct, a, k)
  {
    hide Run, Coherent, Tidy, Owned, Sort, SyncAll;
    RunBackend(base, ops);
    PlainErrorFree(base, ops);
    WriteBackEqualsDirect(base, ops);
    var top, direct := Run(Cache(map[], base), ops), Run(base, ops);
    var addresses := SortedAddresses(top.entries.Keys);
    assert forall a :: a in addresses ==> a in Elements(addresses);
    SyncBase(base, addresses, top.entries);
    SameLedger(Sync(base, top.entries).0, direct);
  }

  lemma {:induction false} SameLedger(r: Reader, s: Reader)
    requires r.Base? && s.Base? && forall a :: ViewAccount(r, a) == ViewAccount(s, a)
    ensures r.accounts == s.accounts
  {
    forall a ensures a in r.accounts <==> a in s.accounts
             ensures a in r.accounts ==> r.accounts[a] == s.accounts[a] {
      assert ViewAccount(r, a) == ViewAccount(s, a);
    }
  }

  // ---- What a run leaves, read off its operations ---------------------------------------

  /** The account last set at `a` and not removed since. */
  function AccountAfter(ops: seq<Op>, a: Address): Option<Account> {
    if ops == [] then None else
    var n := |ops| - 1;
    match ops[n]
    case Update(account) => if account.address == a then Some(account) else AccountAfter(ops[..n], a)
    case Remove(x) => if x == a then None else AccountAfter(ops[..n], a)
    case _ => AccountAfter(ops[..n], a)
  }

  /** The word last stored, or zero. */
  function WordAfter(ops: seq<Op>, a: Address, k: Word): int {
    if ops == [] then 0 else
    var n := |ops| - 1;
    match ops[n]
    case Store(x, j, v) => if x == a && j == k then v as int else WordAfter(ops[..n], a, k)
    case _ => WordAfter(ops[..n], a, k)
  }

  lemma {:induction false} PlainRunExactly(ops: seq<Op>, a: Address, k: Word)
    ensures var r := Run(Base(map[], map[]), ops);
            r.Base? && ViewAccount(r, a) == AccountAfter(ops, a) && ViewStorage(r, a, k) as int == WordAfter(ops, a, k)
  {
    if ops != [] {
      PlainRunExactly(ops[..|ops| - 1], a, k);
    }
  }

  /** From empty state, directly and through a cache, what is read is what was last written, and zero where nothing was. */
  lemma {:induction false} RunExactly(ops: seq<Op>, a: Address, k: Word)
    ensures var r := Run(Base(map[], map[]), ops);
            ViewAccount(r, a) == AccountAfter(ops, a) && ViewStorage(r, a, k) as int == WordAfter(ops, a, k)
    ensures Tidy(ops) ==>
              var r := Run(Cache(map[], Base(map[], map[])), ops);
              ViewAccount(r, a) == AccountAfter(ops, a) && ViewStorage(r, a, k) as int == WordAfter(ops, a, k)
  {
    hide Run, Tidy, AccountAfter, WordAfter;
    PlainRunExactly(ops, a, k);
    if Tidy(ops) {
      CacheReadsLikeDirect(Base(map[], map[]), ops);
    }
  }
}
