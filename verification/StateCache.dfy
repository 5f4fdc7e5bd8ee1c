/** The account cache as an object: entries filled on demand, changed in place, written back by Sync. */
module StateCaches {
  import opened Sorting
  import opened Addresses
  import opened Options
  import opened Accounts
  import opened StateModel
  import opened StateSync

  class StateCache {
    var entries: map<Address, Info>
    /** What the cache reads from; possibly caches all the way down. */
    var backend: Reader

    function View(): Reader
      reads this
    {
      Cache(entries, backend)
    }

    constructor (backend: Reader)
      ensures View() == Cache(map[], backend)
    {
      entries, this.backend := map[], backend;
    }

    method Get(a: Address)
      modifies this
      ensures View() == Load(old(View()), a)
    {
      if a !in entries {
        var (account, b) := StateModel.GetAccount(backend, a);
        backend := b;
        entries := entries[a := Info(account, map[], false, false)];
      }
    }

    method GetAccount(a: Address) returns (account: Option<Account>)
      modifies this
      ensures (account, View()) == StateModel.GetAccount(old(View()), a)
    {
      Get(a);
      account := if entries[a].removed then None else entries[a].account;
    }

    method UpdateAccount(account: Account) returns (ok: bool)
      modifies this
      ensures (View(), ok) == StateModel.UpdateAccount(old(View()), account)
    {
      var a := account.address;
      Get(a);
      if entries[a].removed {
        return false;
      }
      entries := entries[a := entries[a].(account := Some(account), updated := true)];
      return true;
    }

    method RemoveAccount(a: Address) returns (ok: bool)
      modifies this
      ensures (View(), ok) == StateModel.RemoveAccount(old(View()), a)
    {
      Get(a);
      if entries[a].removed {
        return false;
      }
      entries := entries[a := entries[a].(removed := true)];
      return true;
    }

    method GetStorage(a: Address, k: Word) returns (v: Word)
      modifies this
      ensures (v, View()) == StateModel.GetStorage(old(View()), a, k)
    {
      Get(a);
      if k in entries[a].storage {
        return entries[a].storage[k];
      }
      var (value, b) := StateModel.GetStorage(backend, a, k);
      backend := b;
      entries := entries[a := entries[a].(storage := entries[a].storage[k := value])];
      return value;
    }

    method SetStorage(a: Address, k: Word, v: Word) returns (ok: bool)
      modifies this
      ensures (View(), ok) == StateModel.SetStorage(old(View()), a, k, v)
    {
      Get(a);
      if entries[a].removed {
        return false;
      }
      entries := entries[a := entries[a].(storage := entries[a].storage[k := v], updated := true)];
      return true;
    }

    /** Write one changed entry out, storage before account. */
    method SyncUpdated(output: Reader, a: Address, info: Info) returns (out: Reader, ok: bool)
      requires !info.removed && info.updated
      ensures (out, ok) == SyncEntry(output, a, info)
    {
      hide Sort, StateModel.SetStorage, StateModel.UpdateAccount;
      out := output;
      var keys := SortedWords(info.storage.Keys);
      for i := 0 to |keys|
        invariant SyncWords(output, a, keys, info.storage) == SyncWords(out, a, keys[i..], info.storage)
      {
        assert keys[i..][1..] == keys[i + 1..];
        var (w, done) := StateModel.SetStorage(out, a, keys[i], info.storage[keys[i]]);
        out := w;
        if !done {
          return out, false;
        }
      }
      if info.account.None? {
        return out, false;
      }
      var (w, done) := StateModel.UpdateAccount(out, info.account.value);
      return w, done;
    }

    method SyncOne(output: Reader, a: Address, info: Info) returns (out: Reader, ok: bool)
      ensures (out, ok) == SyncEntry(output, a, info)
    {
      hide Sort, StateModel.RemoveAccount, SyncWords, SortedWords;
      if info.removed {
        var (w, removed) := StateModel.RemoveAccount(output, a);
        return w, removed;
      }
      if info.updated {
        out, ok := SyncUpdated(output, a, info);
        return;
      }
      return output, true;
    }

    /** Write all removed and changed entries to `output` in address order, stopping at the first error. */
    method Sync(output: Reader) returns (out: Reader, ok: bool)
      ensures (out, ok) == StateSync.Sync(output, entries)
    {
      hide Sort, SyncEntry, SyncAll;
      out := output;
      var addresses := SortedAddresses(entries.Keys);
      assert forall a :: a in addresses ==> a in Elements(addresses);
      assert addresses[0..] == addresses;
      for i := 0 to |addresses|
        invariant SyncAll(output, addresses, entries) == SyncAll(out, addresses[i..], entries)
      {
        SyncStep(out, addresses, entries, i);
        var done;
        out, done := SyncOne(out, addresses[i], entries[addresses[i]]);
        if !done {
          return out, false;
        }
      }
      SyncStep(out, addresses, entries, |addresses|);
      return out, true;
    }

    method Reset(backend: Reader)
      modifies this
      ensures View() == Cache(map[], backend)
    {
      this.backend, entries := backend, map[];
    }

    /**
      Sync to `output` and start over on `backend`, None standing for the output itself; on error
      nothing is reset.
     */
    method Flush(output: Reader, backend: Option<Reader>) returns (out: Reader, ok: bool)
      modifies this
      ensures (out, ok) == StateSync.Sync(output, old(entries))
      ensures View() == if !ok then old(View()) else Cache(map[], if backend.Some? then backend.value else out)
    {
      out, ok := Sync(output);
      if ok {
        Reset(if backend.Some? then backend.value else out);
      }
    }
  }
}
