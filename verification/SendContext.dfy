/** Executing a SendTx against a writable state: working copies are adjusted and only then written back. */
module SendContexts {
  import opened WordSizes
  import opened Addresses
  import opened Options
  import opened Accounts
  import opened SendModel
  import opened SendLaws

  class StateWriter {
    var state: State

    constructor (state: State)
      ensures this.state == state
    {
      this.state := state;
    }

    method GetAccount(a: Address) returns (account: Option<Account>)
      requires state.removed !! state.accounts.Keys
      ensures account == if a in state.accounts then Some(state.accounts[a]) else None
    {
      account := if a in state.accounts then Some(state.accounts[a]) else None;
    }

    method UpdateAccount(account: Account) returns (ok: bool)
      modifies this
      ensures ok <==> account.address !in old(state).removed
      ensures state == if ok then old(state).(accounts := old(state).accounts[account.address := account]) else old(state)
    {
      if account.address in state.removed {
        return false;
      }
      state := state.(accounts := state.accounts[account.address := account]);
      return true;
    }
  }

  method CollectInputs(w: StateWriter, ins: seq<Line>) returns (r: Result<Ledger>, total: int)
    requires w.state.removed !! w.state.accounts.Keys
    ensures r == GetInputs(w.state, ins)
    ensures r.Done? ==> total == WrappedSum(ins)
  {
    var accounts: Ledger := map[];
    total := 0;
    for i := 0 to |ins|
      invariant GetInputs(w.state, ins[..i]) == Done(accounts) && total == WrappedSum(ins[..i])
    {
      assert ins[..i + 1][..i] == ins[..i];
      InputsStop(w.state, ins, i + 1);
      if ins[i].address in accounts {
        return Failed(DuplicateAddress), total;
      }
      var account := w.GetAccount(ins[i].address);
      if account == None {
        return Failed(InvalidAddress), total;
      }
      accounts := accounts[ins[i].address := account.value];
      total := (total + ins[i].amount) % UINT64_LIMIT;
    }
    assert ins[..|ins|] == ins;
    return Done(accounts), total;
  }

  /** The first failure stands. */
  lemma {:induction false} InputsStop(s: State, ins: seq<Line>, i: nat)
    requires i <= |ins|
    ensures GetInputs(s, ins[..i]).Failed? ==> GetInputs(s, ins) == GetInputs(s, ins[..i])
    decreases |ins| - i
  {
    if i == |ins| {
      assert ins[..i] == ins;
    } else {
      assert ins[..i + 1][..i] == ins[..i];
      InputsStop(s, ins, i + 1);
    }
  }

  lemma {:induction false} OutputsStop(s: State, accounts: Ledger, outs: seq<Line>, i: nat)
    requires i <= |outs|
    ensures GetOutputs(s, accounts, outs[..i]).Failed? ==> GetOutputs(s, accounts, outs) == GetOutputs(s, accounts, outs[..i])
    decreases |outs| - i
  {
    hide AllHave;
    if i == |outs| {
      assert outs[..i] == outs;
    } else {
      assert outs[..i + 1][..i] == outs[..i];
      OutputsStop(s, accounts, outs, i + 1);
    }
  }

  lemma {:induction false} DebitStop(accounts: Ledger, ins: seq<Line>, i: nat)
    requires i <= |ins|
    ensures Debit(accounts, ins[..i]).Failed? ==> Debit(accounts, ins) == Debit(accounts, ins[..i])
    decreases |ins| - i
  {
    if i == |ins| {
      assert ins[..i] == ins;
    } else {
      assert ins[..i + 1][..i] == ins[..i];
      DebitStop(accounts, ins, i + 1);
    }
  }

  lemma {:induction false} CreditStop(accounts: Ledger, outs: seq<Line>, i: nat)
    requires i <= |outs|
    ensures Credit(accounts, outs[..i]).Failed? ==> Credit(accounts, outs) == Credit(accounts, outs[..i])
    decreases |outs| - i
  {
    if i == |outs| {
      assert outs[..i] == outs;
    } else {
      assert outs[..i + 1][..i] == outs[..i];
      CreditStop(accounts, outs, i + 1);
    }
  }

  method CollectOutputs(w: StateWriter, inputs: Ledger, outs: seq<Line>) returns (r: Result<Ledger>)
    requires w.state.removed !! w.state.accounts.Keys
    ensures r == GetOutputs(w.state, inputs, outs)
  {
    hide AllHave;
    var accounts := inputs;
    for i := 0 to |outs|
      invariant GetOutputs(w.state, inputs, outs[..i]) == Done(accounts)
    {
      assert outs[..i + 1][..i] == outs[..i];
      OutputsStop(w.state, inputs, outs, i + 1);
      var a := outs[i].address;
      if a in accounts {
        return Failed(DuplicateAddress);
      }
      var account := w.GetAccount(a);
      if account == None {
        var may := AllHave(w.state, accounts, CREATE_ACCOUNT, CannotCreate);
        if may.Failed? {
          return Failed(may.error);
        }
        account := Some(NewAccount(a));
      }
      accounts := accounts[a := account.value];
    }
    assert outs[..|outs|] == outs;
    return Done(accounts);
  }

  method AdjustByInputs(accounts: Ledger, ins: seq<Line>) returns (r: Result<Ledger>)
    ensures r == Debit(accounts, ins)
  {
    var adjusted := accounts;
    for i := 0 to |ins|
      invariant Debit(accounts, ins[..i]) == Done(adjusted)
    {
      assert ins[..i + 1][..i] == ins[..i];
      DebitStop(accounts, ins, i + 1);
      var a := ins[i].address;
      if a !in adjusted {
        return Failed(InvalidAddress);
      }
      if adjusted[a].balance < ins[i].amount {
        return Failed(LowBalance);
      }
      adjusted := adjusted[a := adjusted[a].(balance := adjusted[a].balance - ins[i].amount)];
    }
    assert ins[..|ins|] == ins;
    return Done(adjusted);
  }

  method AdjustByOutputs(accounts: Ledger, outs: seq<Line>) returns (r: Result<Ledger>)
    ensures r == Credit(accounts, outs)
  {
    var adjusted := accounts;
    for i := 0 to |outs|
      invariant Credit(accounts, outs[..i]) == Done(adjusted)
    {
      assert outs[..i + 1][..i] == outs[..i];
      CreditStop(accounts, outs, i + 1);
      var a := outs[i].address;
      if a !in adjusted {
        return Failed(InvalidAddress);
      }
      if UINT64_LIMIT - 1 - adjusted[a].balance < outs[i].amount {
        return Failed(BalanceOverflow);
      }
      adjusted := adjusted[a := adjusted[a].(balance := adjusted[a].balance + outs[i].amount)];
    }
    assert outs[..|outs|] == outs;
    return Done(adjusted);
  }

  method OutputTotal(outs: seq<Line>) returns (total: int)
    ensures total == WrappedSum(outs)
  {
    total := 0;
    for i := 0 to |outs|
      invariant total == WrappedSum(outs[..i])
    {
      assert outs[..i + 1][..i] == outs[..i];
      total := (total + outs[i].amount) % UINT64_LIMIT;
    }
    assert outs[..|outs|] == outs;
  }

  lemma {:induction false} WriteStep(s: State, done: Ledger, a: Address, account: Account)
    ensures var sofar := WriteBack(s, done);
            WriteBack(s, done[a := account])
            == if a in s.removed then sofar else sofar.(accounts := sofar.accounts[a := account])
  {
  }

  /** Write the adjusted accounts, in whatever order the map is walked, ignoring refusals. */
  method WriteAccounts(w: StateWriter, accounts: Ledger)
    requires forall a :: a in accounts ==> accounts[a].address == a
    modifies w
    ensures w.state == WriteBack(old(w.state), accounts)
  {
    var todo := accounts.Keys;
    ghost var done: Ledger := map[];
    assert WriteBack(w.state, done) == w.state by { assert w.state.accounts + map[] == w.state.accounts; }
    while todo != {}
      invariant todo <= accounts.Keys
      invariant done == map a | a in accounts && a !in todo :: accounts[a]
      invariant w.state == WriteBack(old(w.state), done)
    {
      hide WriteBack;
      var a :| a in todo;
      WriteStep(old(w.state), done, a, accounts[a]);
      assert w.state.removed == old(w.state).removed by { RemovedStay(old(w.state), done); }
      var _ := w.UpdateAccount(accounts[a]);
      todo := todo - {a};
      done := done[a := accounts[a]];
    }
    assert done == accounts;
  }

  lemma {:induction false} RemovedStay(s: State, accounts: Ledger)
    ensures WriteBack(s, accounts).removed == s.removed
  {
  }

  /** What is recorded of an accepted transaction. */
  datatype Event = Input(address: Address) | Output(address: Address)

  method Record(ins: seq<Line>, outs: seq<Line>) returns (events: seq<Event>)
    ensures |events| == |ins| + |outs|
    ensures forall i :: 0 <= i < |ins| ==> events[i] == Input(ins[i].address)
    ensures forall i :: 0 <= i < |outs| ==> events[|ins| + i] == Output(outs[i].address)
  {
    events := [];
    for i := 0 to |ins|
      invariant |events| == i && forall j :: 0 <= j < i ==> events[j] == Input(ins[j].address)
    {
      events := events + [Input(ins[i].address)];
    }
    for i := 0 to |outs|
      invariant |events| == |ins| + i && forall j :: 0 <= j < |ins| ==> events[j] == Input(ins[j].address)
      invariant forall j :: 0 <= j < i ==> events[|ins| + j] == Output(outs[j].address)
    {
      events := events + [Output(outs[i].address)];
    }
  }

  /** Execute: every check comes before the first write, so a refusal leaves the state as it was. */
  method ExecuteSend(w: StateWriter, ins: seq<Line>, outs: seq<Line>) returns (r: Result<()>, events: seq<Event>)
    requires ValidState(w.state)
    modifies w
    ensures (w.state, r) == Execute(old(w.state), ins, outs)
    ensures r.Failed? ==> w.state == old(w.state) && events == []
    ensures r.Done? ==> |events| == |ins| + |outs|
                        && (forall i :: 0 <= i < |ins| ==> events[i] == Input(ins[i].address))
                        && (forall i :: 0 <= i < |outs| ==> events[|ins| + i] == Output(outs[i].address))
  {
    events := [];
    hide GetInputs, GetOutputs, Debit, Credit, AllHave, WriteBack;
    var inputs, inTotal := CollectInputs(w, ins);
    if inputs.Failed? {
      return Failed(inputs.error), [];
    }
    var may := AllHave(w.state, inputs.value, SEND, PermissionDenied);
    if may.Failed? {
      return Failed(may.error), [];
    }
    var accounts := CollectOutputs(w, inputs.value, outs);
    if accounts.Failed? {
      return Failed(accounts.error), [];
    }
    var outTotal := OutputTotal(outs);
    if outTotal > inTotal {
      return Failed(InsufficientFunds), [];
    }
    if outTotal < inTotal {
      return Failed(Overpayment), [];
    }
    if outTotal == 0 {
      return Failed(ZeroPayment), [];
    }
    var debited := AdjustByInputs(accounts.value, ins);
    if debited.Failed? {
      return Failed(debited.error), [];
    }
    var adjusted := AdjustByOutputs(debited.value, outs);
    if adjusted.Failed? {
      return Failed(adjusted.error), [];
    }
    PreparedAccounts(w.state, ins, outs);
    WriteAccounts(w, adjusted.value);
    events := Record(ins, outs);
    r := Done(());
  }
}
