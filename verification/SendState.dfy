/** SendTx on state behind caches: the ledger it works on is the one the caches show and write back. */
module SendStates {
  import opened Options
  import opened Addresses
  import opened StateModel
  import opened StateSync
  import opened SendModel
  import opened SendLaws

  /** All accounts a state shows. */
  function Live(r: Reader): Ledger {
    match r
    case Base(accounts, _) => accounts
    case Cache(entries, backend) =>
      (Live(backend) - entries.Keys)
      + (map a | a in entries && !entries[a].removed && entries[a].account.Some? :: entries[a].account.value)
  }

  lemma {:induction false} LiveIsView(r: Reader, a: Address)
    ensures ViewAccount(r, a) == if a in Live(r) then Some(Live(r)[a]) else None
  {
    if r.Cache? {
      LiveIsView(r.backend, a);
    }
  }

  function Marked(r: Reader): (s: set<Address>)
    ensures forall a :: a in s <==> RemovedIn(r, a)
  {
    if r.Base? then {} else set a | a in r.entries && r.entries[a].removed
  }

  /** The state as a SendTx finds it. */
  function StateOf(r: Reader): State {
    State(Live(r), Marked(r))
  }

  lemma {:induction false} SameLive(r: Reader, m: Ledger)
    requires forall a :: ViewAccount(r, a) == if a in m then Some(m[a]) else None
    ensures Live(r) == m
  {
    hide Live;
    forall a ensures a in Live(r) <==> a in m
             ensures a in m ==> Live(r)[a] == m[a] {
      LiveIsView(r, a);
    }
  }

  // ---- The reads and writes of a transaction --------------------------------------------

  function Reads(order: seq<Address>): (ops: seq<Op>)
    ensures |ops| == |order| && forall i :: 0 <= i < |order| ==> ops[i] == ReadAccount(order[i])
  {
    seq(|order|, i requires 0 <= i < |order| => ReadAccount(order[i]))
  }

  function Updates(accounts: Ledger, order: seq<Address>): (ops: seq<Op>)
    requires forall a :: a in order ==> a in accounts
    ensures |ops| == |order| && forall i :: 0 <= i < |order| ==> ops[i] == Update(accounts[order[i]])
  {
    seq(|order|, i requires 0 <= i < |order| => Update(accounts[order[i]]))
  }

  lemma {:induction false} RunSplit(r: Reader, a: seq<Op>, b: seq<Op>)
    ensures Run(r, a + b) == Run(Run(r, a), b)
  {
    if b == [] {
      assert a + b == a;
    } else {
      var n := |b| - 1;
      assert (a + b)[..|a + b| - 1] == a + b[..n];
      RunSplit(r, a, b[..n]);
    }
  }

  /** Reading fills caches but shows nothing new. */
  lemma {:induction false} ReadsKeep(r: Reader, order: seq<Address>)
    requires Coherent(r)
    ensures var r' := Run(r, Reads(order)); Coherent(r') && StateOf(r') == StateOf(r)
  {
    hide Live, Coherent, GetAccount;
    if order != [] {
      var n := |order| - 1;
      assert Reads(order)[..n] == Reads(order[..n]);
      ReadsKeep(r, order[..n]);
      var before := Run(r, Reads(order[..n]));
      GetAccountReads(before, order[n]);
      GetAccountRemoved(before, order[n]);
      var after := Run(r, Reads(order));
      forall a ensures ViewAccount(after, a) == if a in Live(before) then Some(Live(before)[a]) else None {
        LiveIsView(before, a);
      }
      SameLive(after, Live(before));
      assert Marked(after) == Marked(before);
    }
  }

  /** Writing accounts one by one shows each of them unless it is marked as removed. */
  lemma {:induction false} UpdatesShow(r: Reader, accounts: Ledger, order: seq<Address>, x: Address)
    requires Coherent(r) && (forall a :: a in order ==> a in accounts) && forall a :: a in accounts ==> accounts[a].address == a
    ensures var r' := Run(r, Updates(accounts, order));
            && Coherent(r') && (RemovedIn(r', x) <==> RemovedIn(r, x))
            && ViewAccount(r', x) == if x in order && !RemovedIn(r, x) then Some(accounts[x]) else ViewAccount(r, x)
  {
    hide Coherent, UpdateAccount, RemovedIn;
    if order != [] {
      var n := |order| - 1;
      assert Updates(accounts, order)[..n] == Updates(accounts, order[..n]);
      assert order == order[..n] + [order[n]];
      UpdatesShow(r, accounts, order[..n], x);
      var before := Run(r, Updates(accounts, order[..n]));
      assert Run(r, Updates(accounts, order)) == UpdateAccount(before, accounts[order[n]]).0;
      hide Run;
      UpdateRefused(before, accounts[order[n]]);
      UpdateAccountWrites(before, accounts[order[n]]);
    }
  }

  lemma {:induction false} UpdatesWriteBack(r: Reader, accounts: Ledger, order: seq<Address>)
    requires Coherent(r) && (forall a :: a in order <==> a in accounts) && forall a :: a in accounts ==> accounts[a].address == a
    ensures var r' := Run(r, Updates(accounts, order)); Coherent(r') && StateOf(r') == WriteBack(StateOf(r), accounts)
  {
    hide Live, Coherent, Run;
    var r' := Run(r, Updates(accounts, order));
    var m := WriteBack(StateOf(r), accounts).accounts;
    UpdatesShow(r, accounts, order, 0);
    forall a ensures ViewAccount(r', a) == if a in m then Some(m[a]) else None
             ensures RemovedIn(r', a) <==> RemovedIn(r, a) {
      UpdatesShow(r, accounts, order, a);
      LiveIsView(r, a);
    }
    SameLive(r', m);
    assert Marked(r') == Marked(r);
  }

  // ---- Transactions through a cache -----------------------------------------------------

  /** What it reads on the way, and the order the map of accounts is walked in when written back. */
  datatype Walk = Walk(looked: seq<Address>, order: seq<Address>)

  ghost predicate Covers(w: Walk, tx: Tx) {
    forall a :: a in w.order <==> a in Listed(tx.ins) + Listed(tx.outs)
  }

  /** The accounts an accepted transaction writes are the listed ones, each under its own address. */
  lemma {:induction false} PreparedFiled(s: State, tx: Tx, w: Walk)
    requires ValidState(s) && Covers(w, tx) && Prepare(s, tx.ins, tx.outs).Done?
    ensures var accounts := Prepare(s, tx.ins, tx.outs).value;
            (forall a :: a in w.order <==> a in accounts) && forall a :: a in accounts ==> accounts[a].address == a
  {
    hide Prepare, AmountOf;
    PreparedAccounts(s, tx.ins, tx.outs);
  }

  ghost function OpsOf(r: Reader, tx: Tx, w: Walk): seq<Op>
    requires ValidState(StateOf(r)) && Covers(w, tx)
  {
    var prepared := Prepare(StateOf(r), tx.ins, tx.outs);
    if prepared.Failed? then Reads(w.looked)
    else
      PreparedFiled(StateOf(r), tx, w);
      Reads(w.looked) + Updates(prepared.value, w.order)
  }

  /** Executed on a state of any depth, a SendTx does to what the state shows what it does to a ledger. */
  lemma {:induction false} SendRefines(r: Reader, tx: Tx, w: Walk)
    requires Coherent(r) && ValidState(StateOf(r)) && Covers(w, tx)
    ensures var r' := Run(r, OpsOf(r, tx, w));
            Coherent(r') && StateOf(r') == Execute(StateOf(r), tx.ins, tx.outs).0
  {
    hide StateOf, Coherent, Prepare, WriteBack, Run, ValidState, Covers;
    ReadsKeep(r, w.looked);
    var prepared := Prepare(StateOf(r), tx.ins, tx.outs);
    if prepared.Done? {
      PreparedFiled(StateOf(r), tx, w);
      RunSplit(r, Reads(w.looked), Updates(prepared.value, w.order));
      UpdatesWriteBack(Run(r, Reads(w.looked)), prepared.value, w.order);
    }
  }

  // ---- A block through a cache, written back to plain state -----------------------------

  ghost predicate WellFormed(txs: seq<Tx>, walks: seq<Walk>) {
    && |walks| == |txs|
    && forall i :: 0 <= i < |txs| ==> ValidLines(txs[i].ins) && ValidLines(txs[i].outs) && Covers(walks[i], txs[i])
  }

  ghost predicate OnlyUpdates(ops: seq<Op>) {
    forall op :: op in ops ==> op.ReadAccount? || op.Update?
  }

  lemma {:induction false} SendUpdates(r: Reader, tx: Tx, w: Walk)
    requires ValidState(StateOf(r)) && Covers(w, tx)
    ensures OnlyUpdates(OpsOf(r, tx, w))
  {
    hide StateOf, Prepare, ValidState, Covers;
    if Prepare(StateOf(r), tx.ins, tx.outs).Done? {
      PreparedFiled(StateOf(r), tx, w);
    }
  }

  /** The reads and writes of all transactions of a block, one after the other. */
  ghost function BlockOps(r: Reader, txs: seq<Tx>, walks: seq<Walk>): (ops: seq<Op>)
    requires Coherent(r) && ValidState(StateOf(r)) && WellFormed(txs, walks)
    ensures OnlyUpdates(ops)
    ensures var r' := Run(r, ops);
            Coherent(r') && ValidState(StateOf(r')) && StateOf(r') == RunAll(StateOf(r), txs)
  {
    if txs == [] then [] else
    var n := |txs| - 1;
    var ops := BlockOps(r, txs[..n], walks[..n]);
    var before := Run(r, ops);
    SendRefines(before, txs[n], walks[n]);
    SendUpdates(before, txs[n], walks[n]);
    ExecuteValid(StateOf(before), txs[n].ins, txs[n].outs);
    RunSplit(r, ops, OpsOf(before, txs[n], walks[n]));
    ops + OpsOf(before, txs[n], walks[n])
  }

  lemma {:induction false} UpdatesTidy(base: Reader, ops: seq<Op>)
    requires OnlyUpdates(ops) && base.Base?
    ensures Tidy(ops) && Present(base, ops) && forall i :: 0 <= i < |ops| && ops[i].Store? ==> Owned(base, ops, ops[i].a)
  {
    assert forall i :: 0 <= i < |ops| ==> ops[i] in ops;
  }

  lemma {:induction false} FreshState(base: Reader)
    requires base.Base? && Coherent(base)
    ensures Coherent(Cache(map[], base)) && StateOf(Cache(map[], base)) == State(base.accounts, {}) == StateOf(base)
  {
    SameLive(Cache(map[], base), base.accounts);
    assert Marked(Cache(map[], base)) == {};
  }

  /**
    A block of SendTx executed in a cache over plain state and synced is accepted and leaves the
    ledger the transactions make; if all totals fit in 64 bits its supply is what it was.
   */
  lemma {:induction false} BlockConserves(base: Reader, txs: seq<Tx>, walks: seq<Walk>)
    requires base.Base? && Coherent(base) && ValidState(State(base.accounts, {})) && WellFormed(txs, walks)
    ensures Coherent(Cache(map[], base)) && ValidState(StateOf(Cache(map[], base)))
    ensures var top := Run(Cache(map[], base), BlockOps(Cache(map[], base), txs, walks));
            && top.Cache? && top.backend == base
            && var (b', ok) := Sync(base, top.entries);
               && ok && b'.Base? && b'.accounts == RunAll(State(base.accounts, {}), txs).accounts
               && ((forall tx :: tx in txs ==> FitsTotals(tx)) ==>
                     Supply(State(b'.accounts, {})) == Supply(State(base.accounts, {})))
  {
    hide Coherent, ValidState, RunAll, Supply, Sync, OnlyUpdates, Tidy, Present, Owned, StateOf, ValidLines, FitsTotals;
    FreshState(base);
    var above := Cache(map[], base);
    var ops := BlockOps(above, txs, walks);
    UpdatesTidy(base, ops);
    PlainWriteBack(base, ops);
    CacheReadsLikeDirect(base, ops);
    LiveAlike(Run(above, ops), Run(base, ops));
    LiveState(Run(above, ops));
    assert forall tx :: tx in txs ==> ValidLines(tx.ins) && ValidLines(tx.outs);
    if forall tx :: tx in txs ==> FitsTotals(tx) {
      RunConserves(State(base.accounts, {}), txs);
    }
  }

  lemma {:induction false} LiveAlike(r: Reader, base: Reader)
    requires base.Base? && SameView(r, base)
    ensures Live(r) == base.accounts
  {
    SameLive(r, base.accounts);
  }

  lemma {:induction false} LiveState(r: Reader)
    ensures StateOf(r).accounts == Live(r)
  {
  }
}
