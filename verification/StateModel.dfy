/** State behind any number of write-back caches, as a value. */
module StateModel {
  import opened Addresses
  import opened Options
  import opened Accounts

  /** A cached account: what is known of it, and whether it was changed or removed. */
  datatype Info = Info(account: Option<Account>, storage: map<Word, Word>, removed: bool, updated: bool)

  datatype Reader =
    | Base(accounts: map<Address, Account>, words: map<(Address, Word), Word>)
    | Cache(entries: map<Address, Info>, backend: Reader)

  function Depth(r: Reader): nat {
    if r.Base? then 0 else 1 + Depth(r.backend)
  }

  // ---- What can be read -----------------------------------------------------------------

  function ViewAccount(r: Reader, a: Address): Option<Account> {
    match r
    case Base(accounts, _) => if a in accounts then Some(accounts[a]) else None
    case Cache(entries, backend) =>
      if a in entries then (if entries[a].removed then None else entries[a].account) else ViewAccount(backend, a)
  }

  function ViewStorage(r: Reader, a: Address, k: Word): Word {
    match r
    case Base(_, words) => if (a, k) in words then words[(a, k)] else 0
    case Cache(entries, backend) =>
      if a in entries && k in entries[a].storage then entries[a].storage[k] else ViewStorage(backend, a, k)
  }

  // ---- Operations; reading fills the caches on the way ----------------------------------

  function GetAccount(r: Reader, a: Address): (res: (Option<Account>, Reader))
    ensures Depth(res.1) == Depth(r)
    decreases r, 1
  {
    if r.Base? then (ViewAccount(r, a), r)
    else
      var r' := Load(r, a);
      (if r'.entries[a].removed then None else r'.entries[a].account, r')
  }

  /** The entry for `a`, created from the backend if necessary. */
  function Load(r: Reader, a: Address): (r': Reader)
    requires r.Cache?
    ensures r'.Cache? && a in r'.entries && Depth(r') == Depth(r)
    decreases r, 0
  {
    if a in r.entries then r
    else
      var (account, backend) := GetAccount(r.backend, a);
      Cache(r.entries[a := Info(account, map[], false, false)], backend)
  }

  function GetStorage(r: Reader, a: Address, k: Word): (res: (Word, Reader))
    ensures Depth(res.1) == Depth(r)
    decreases Depth(r)
  {
    if r.Base? then (ViewStorage(r, a, k), r)
    else
      var r' := Load(r, a);
      var info := r'.entries[a];
      if k in info.storage then (info.storage[k], r')
      else
        var (v, backend) := GetStorage(r'.backend, a, k);
        (v, Cache(r'.entries[a := info.(storage := info.storage[k := v])], backend))
  }

  function UpdateAccount(r: Reader, account: Account): (Reader, bool) {
    var a := account.address;
    if r.Base? then (r.(accounts := r.accounts[a := account]), true)
    else
      var r' := Load(r, a);
      if r'.entries[a].removed then (r', false)
      else (r'.(entries := r'.entries[a := r'.entries[a].(account := Some(account), updated := true)]), true)
  }

  function RemoveAccount(r: Reader, a: Address): (Reader, bool) {
    if r.Base? then (r.(accounts := r.accounts - {a}), true)
    else
      var r' := Load(r, a);
      if r'.entries[a].removed then (r', false)
      else (r'.(entries := r'.entries[a := r'.entries[a].(removed := true)]), true)
  }

  function SetStorage(r: Reader, a: Address, k: Word, v: Word): (Reader, bool) {
    if r.Base? then (r.(words := r.words[(a, k) := v]), true)
    else
      var r' := Load(r, a);
      var info := r'.entries[a];
      if info.removed then (r', false)
      else (r'.(entries := r'.entries[a := info.(storage := info.storage[k := v], updated := true)]), true)
  }

  // ---- Coherence ------------------------------------------------------------------------

  /** Entries not marked as updated say what the backend says; accounts are filed under their address. */
  ghost predicate Coherent(r: Reader) {
    match r
    case Base(accounts, _) => forall a :: a in accounts ==> accounts[a].address == a
    case Cache(entries, backend) =>
      && Coherent(backend)
      && forall a :: a in entries ==> CoherentEntry(entries[a], backend, a)
  }

  ghost predicate CoherentEntry(info: Info, backend: Reader, a: Address) {
    && (info.account.Some? ==> info.account.value.address == a)
    && (!info.updated ==> info.account == ViewAccount(backend, a))
    && (!info.updated ==> forall k :: k in info.storage ==> info.storage[k] == ViewStorage(backend, a, k))
  }

  /** Two states that read alike. */
  ghost predicate SameView(r: Reader, s: Reader) {
    && (forall a :: ViewAccount(r, a) == ViewAccount(s, a))
    && (forall a, k :: ViewStorage(r, a, k) == ViewStorage(s, a, k))
  }

  lemma {:induction false} AccountFiled(r: Reader, a: Address)
    requires Coherent(r)
    ensures ViewAccount(r, a).Some? ==> ViewAccount(r, a).value.address == a
  {
    if r.Cache? && a !in r.entries { AccountFiled(r.backend, a); }
  }

  /** A backend that reads alike keeps entries coherent. */
  lemma {:induction false} EntryCarries(info: Info, b: Reader, b': Reader, a: Address)
    requires CoherentEntry(info, b, a) && SameView(b, b')
    ensures CoherentEntry(info, b', a)
  {
  }

  lemma {:induction false} GetAccountReads(r: Reader, a: Address)
    requires Coherent(r)
    ensures var (account, r') := GetAccount(r, a);
            account == ViewAccount(r, a) && Coherent(r') && SameView(r, r')
    decreases r, 1
  {
    if r.Cache? { LoadReads(r, a); }
  }

  lemma {:induction false} LoadReads(r: Reader, a: Address)
    requires r.Cache? && Coherent(r)
    ensures var r' := Load(r, a);
            && Coherent(r') && SameView(r, r') && SameView(r.backend, r'.backend)
            && r'.entries[a] == (if a in r.entries then r.entries[a] else Info(ViewAccount(r.backend, a), map[], false, false))
            && r'.entries == r.entries[a := r'.entries[a]]
    decreases r, 0
  {
    if a !in r.entries {
      GetAccountReads(r.backend, a);
      AccountFiled(r.backend, a);
      var r' := Load(r, a);
      forall x | x in r'.entries ensures CoherentEntry(r'.entries[x], r'.backend, x) {
        if x != a { EntryCarries(r.entries[x], r.backend, r'.backend, x); }
      }
      forall x, k ensures ViewStorage(r, x, k) == ViewStorage(r', x, k) {
        assert ViewStorage(r.backend, x, k) == ViewStorage(r'.backend, x, k);
      }
    }
  }

  lemma {:induction false} GetStorageReads(r: Reader, a: Address, k: Word)
    requires Coherent(r)
    ensures var (v, r') := GetStorage(r, a, k);
            v == ViewStorage(r, a, k) && Coherent(r') && SameView(r, r')
    decreases Depth(r)
  {
    if r.Cache? {
      LoadReads(r, a);
      var r1 := Load(r, a);
      if k !in r1.entries[a].storage {
        GetStorageReads(r1.backend, a, k);
        var (v, backend) := GetStorage(r1.backend, a, k);
        assert ViewStorage(r1, a, k) == v;
        FillStorage(r1, a, k, backend);
      }
    }
  }

  /** Recording a word read from the backend changes no reading. */
  lemma {:induction false} FillStorage(r: Reader, a: Address, k: Word, backend: Reader)
    requires r.Cache? && Coherent(r) && a in r.entries && k !in r.entries[a].storage
    requires Coherent(backend) && SameView(r.backend, backend)
    ensures var info := r.entries[a];
            var v := ViewStorage(r.backend, a, k);
            var r' := Cache(r.entries[a := info.(storage := info.storage[k := v])], backend);
            Coherent(r') && SameView(r, r')
  {
    var info := r.entries[a];
    var v := ViewStorage(r.backend, a, k);
    var r' := Cache(r.entries[a := info.(storage := info.storage[k := v])], backend);
    forall x | x in r'.entries ensures CoherentEntry(r'.entries[x], backend, x) {
      EntryCarries(r.entries[x], r.backend, backend, x);
    }
    forall x, j ensures ViewStorage(r, x, j) == ViewStorage(r', x, j) {
      assert ViewStorage(r.backend, x, j) == ViewStorage(backend, x, j);
    }
    forall x ensures ViewAccount(r, x) == ViewAccount(r', x) {
      assert ViewAccount(r.backend, x) == ViewAccount(backend, x);
    }
  }

  // ---- Effects of writes ----------------------------------------------------------------

  /** `r'` reads as `r` with the account at `a` replaced. */
  ghost predicate AccountSet(r: Reader, r': Reader, a: Address, account: Option<Account>) {
    && (forall x :: ViewAccount(r', x) == if x == a then account else ViewAccount(r, x))
    && (forall x, k :: ViewStorage(r', x, k) == ViewStorage(r, x, k))
  }

  /** `r'` reads as `r` with one word replaced. */
  ghost predicate WordSet(r: Reader, r': Reader, a: Address, k: Word, v: Word) {
    && (forall x :: ViewAccount(r', x) == ViewAccount(r, x))
    && (forall x, j :: ViewStorage(r', x, j) == if x == a && j == k then v else ViewStorage(r, x, j))
  }

  lemma {:induction false} EntryCoherent(r: Reader, a: Address, info: Info)
    requires r.Cache? && Coherent(r) && CoherentEntry(info, r.backend, a)
    ensures Coherent(r.(entries := r.entries[a := info]))
  {
  }

  lemma {:induction false} UpdateAccountWrites(r: Reader, account: Account)
    requires Coherent(r)
    ensures var (r', ok) := UpdateAccount(r, account);
            && Coherent(r')
            && if ok then AccountSet(r, r', account.address, Some(account)) else SameView(r, r')
    ensures UpdateAccount(r, account).1 <==> !(r.Cache? && account.address in r.entries && r.entries[account.address].removed)
    ensures r.Cache? ==> UpdateAccount(r, account).0.Cache? && SameView(r.backend, UpdateAccount(r, account).0.backend)
  {
    if r.Cache? {
      var a := account.address;
      LoadReads(r, a);
      var r1 := Load(r, a);
      EntryCoherent(r1, a, r1.entries[a].(account := Some(account), updated := true));
    }
  }

  lemma {:induction false} RemoveAccountWrites(r: Reader, a: Address)
    requires Coherent(r)
    ensures var (r', ok) := RemoveAccount(r, a);
            && Coherent(r')
            && if ok then AccountSet(r, r', a, None) else SameView(r, r')
    ensures RemoveAccount(r, a).1 <==> !(r.Cache? && a in r.entries && r.entries[a].removed)
    ensures r.Cache? ==> RemoveAccount(r, a).0.Cache? && SameView(r.backend, RemoveAccount(r, a).0.backend)
  {
    if r.Cache? {
      LoadReads(r, a);
      var r1 := Load(r, a);
      EntryCoherent(r1, a, r1.entries[a].(removed := true));
    }
  }

  lemma {:induction false} SetStorageWrites(r: Reader, a: Address, k: Word, v: Word)
    requires Coherent(r)
    ensures var (r', ok) := SetStorage(r, a, k, v);
            && Coherent(r')
            && if ok then WordSet(r, r', a, k, v) else SameView(r, r')
    ensures SetStorage(r, a, k, v).1 <==> !(r.Cache? && a in r.entries && r.entries[a].removed)
    ensures r.Cache? ==> SetStorage(r, a, k, v).0.Cache? && SameView(r.backend, SetStorage(r, a, k, v).0.backend)
  {
    if r.Cache? {
      LoadReads(r, a);
      var r1 := Load(r, a);
      var info := r1.entries[a];
      EntryCoherent(r1, a, info.(storage := info.storage[k := v], updated := true));
    }
  }
}
