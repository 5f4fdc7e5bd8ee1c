/** What an accepted SendTx does to balances, and exactly when it conserves them. */
module SendLaws {
  import opened WordSizes
  import opened Sums
  import opened Addresses
  import opened Accounts
  import opened SendModel

  /** All that the lines say about one address. */
  function AmountOf(lines: seq<Line>, a: Address): int {
    if lines == [] then 0
    else AmountOf(lines[..|lines| - 1], a) + if lines[|lines| - 1].address == a then lines[|lines| - 1].amount else 0
  }

  /** The sum of the lines whose address is among `keys`. */
  function SumWithin(lines: seq<Line>, keys: set<Address>): int {
    if lines == [] then 0
    else SumWithin(lines[..|lines| - 1], keys) + if lines[|lines| - 1].address in keys then lines[|lines| - 1].amount else 0
  }

  function Listed(lines: seq<Line>): set<Address> {
    set i | 0 <= i < |lines| :: lines[i].address
  }

  ghost predicate NoRepeats(lines: seq<Line>) {
    forall i, j :: 0 <= i < j < |lines| ==> lines[i].address != lines[j].address
  }

  lemma {:induction false} ListedLast(lines: seq<Line>)
    requires lines != []
    ensures Listed(lines) == Listed(lines[..|lines| - 1]) + {lines[|lines| - 1].address}
  {
    var n := |lines| - 1;
    forall a ensures a in Listed(lines) <==> a in Listed(lines[..n]) + {lines[n].address} {
      if a in Listed(lines) {
        var i :| 0 <= i < |lines| && lines[i].address == a;
        assert i < n ==> lines[..n][i].address == a;
      }
      if a in Listed(lines[..n]) {
        var i :| 0 <= i < n && lines[..n][i].address == a;
        assert lines[i].address == a;
      }
      assert lines[n].address in Listed(lines);
    }
  }

  // ---- The accounts collected -----------------------------------------------------------

  /** The account at `a`, or the empty one that would be created there. */
  function AccountAt(s: State, a: Address): Account {
    if a in s.accounts then s.accounts[a] else NewAccount(a)
  }

  lemma {:induction false} InputsCollected(s: State, ins: seq<Line>)
    requires GetInputs(s, ins).Done?
    ensures var accounts := GetInputs(s, ins).value;
            && accounts.Keys == Listed(ins) <= s.accounts.Keys && NoRepeats(ins)
            && forall a :: a in accounts ==> accounts[a] == s.accounts[a]
  {
    if ins != [] {
      var n := |ins| - 1;
      InputsCollected(s, ins[..n]);
      ListedLast(ins);
      RepeatsLast(ins);
    }
  }

  lemma {:induction false} RepeatsLast(lines: seq<Line>)
    requires lines != [] && NoRepeats(lines[..|lines| - 1]) && lines[|lines| - 1].address !in Listed(lines[..|lines| - 1])
    ensures NoRepeats(lines)
  {
    var n := |lines| - 1;
    forall i | 0 <= i < n ensures lines[i].address != lines[n].address {
      assert lines[..n][i].address in Listed(lines[..n]);
    }
  }

  /** Collecting one more output. */
  lemma {:induction false} OutputAdded(s: State, inputs: Ledger, outs: seq<Line>)
    requires outs != [] && GetOutputs(s, inputs, outs).Done?
    ensures var before := GetOutputs(s, inputs, outs[..|outs| - 1]);
            var last := outs[|outs| - 1].address;
            before.Done? && last !in before.value && GetOutputs(s, inputs, outs).value == before.value[last := AccountAt(s, last)]
  {
    hide AllHave;
  }

  lemma {:induction false} OutputsCollected(s: State, inputs: Ledger, outs: seq<Line>)
    requires forall a :: a in inputs ==> inputs[a] == AccountAt(s, a)
    requires GetOutputs(s, inputs, outs).Done?
    ensures var accounts := GetOutputs(s, inputs, outs).value;
            && accounts.Keys == inputs.Keys + Listed(outs) && NoRepeats(outs) && inputs.Keys !! Listed(outs)
            && forall a :: a in accounts ==> accounts[a] == AccountAt(s, a)
  {
    if outs != [] {
      hide GetOutputs, AccountAt, Listed;
      var n := |outs| - 1;
      OutputAdded(s, inputs, outs);
      OutputsCollected(s, inputs, outs[..n]);
      ListedLast(outs);
      RepeatsLast(outs);
    }
  }

  lemma {:induction false} DebitAt(accounts: Ledger, ins: seq<Line>)
    requires Debit(accounts, ins).Done?
    ensures var after := Debit(accounts, ins).value;
            && after.Keys == accounts.Keys
            && forall a :: a in after ==> after[a] == accounts[a].(balance := accounts[a].balance - AmountOf(ins, a))
  {
    if ins != [] {
      DebitAt(accounts, ins[..|ins| - 1]);
    }
  }

  lemma {:induction false} CreditAt(accounts: Ledger, outs: seq<Line>)
    requires Credit(accounts, outs).Done?
    ensures var after := Credit(accounts, outs).value;
            && after.Keys == accounts.Keys
            && forall a :: a in after ==> after[a] == accounts[a].(balance := accounts[a].balance + AmountOf(outs, a))
  {
    if outs != [] {
      CreditAt(accounts, outs[..|outs| - 1]);
    }
  }

  // ---- Every account after an accepted transaction --------------------------------------

  /** The account at `a` once the transaction's lines are applied. */
  function Settled(s: State, ins: seq<Line>, outs: seq<Line>, a: Address): Account {
    AccountAt(s, a).(balance := AccountAt(s, a).balance - AmountOf(ins, a) + AmountOf(outs, a))
  }

  lemma {:induction false} PreparedAccounts(s: State, ins: seq<Line>, outs: seq<Line>)
    requires Prepare(s, ins, outs).Done?
    ensures NoRepeats(ins) && NoRepeats(outs) && Listed(ins) !! Listed(outs) && Listed(ins) <= s.accounts.Keys
    ensures var accounts := Prepare(s, ins, outs).value;
            && accounts.Keys == Listed(ins) + Listed(outs)
            && forall a :: a in accounts ==> accounts[a] == Settled(s, ins, outs, a)
    ensures WrappedSum(ins) == WrappedSum(outs) != 0
  {
    hide AllHave, GetInputs, GetOutputs, Debit, Credit;
    var inputs := GetInputs(s, ins).value;
    InputsCollected(s, ins);
    OutputsCollected(s, inputs, outs);
    var accounts := GetOutputs(s, inputs, outs).value;
    DebitAt(accounts, ins);
    CreditAt(Debit(accounts, ins).value, outs);
  }

  lemma {:induction false} AmountOfUnlisted(lines: seq<Line>, a: Address)
    requires a !in Listed(lines)
    ensures AmountOf(lines, a) == 0
  {
    if lines != [] {
      ListedLast(lines);
      AmountOfUnlisted(lines[..|lines| - 1], a);
    }
  }

  lemma {:induction false} AmountOfOnly(lines: seq<Line>, i: nat)
    requires NoRepeats(lines) && i < |lines|
    ensures AmountOf(lines, lines[i].address) == lines[i].amount
  {
    var n := |lines| - 1;
    if i < n {
      assert lines[..n][i] == lines[i];
      AmountOfOnly(lines[..n], i);
    } else {
      forall j | 0 <= j < n ensures lines[..n][j].address != lines[n].address {
      }
      AmountOfUnlisted(lines[..n], lines[n].address);
    }
  }

  /** The account found at an address, if any, after execution. */
  lemma {:induction false} AcceptedAccounts(s: State, ins: seq<Line>, outs: seq<Line>, a: Address)
    requires ValidState(s) && Execute(s, ins, outs).1.Done?
    ensures var after := Execute(s, ins, outs).0.accounts;
            && (a in after <==> a in s.accounts || (a in Listed(outs) && a !in s.removed))
            && (a in after ==> after[a] == Settled(s, ins, outs, a))
  {
    hide Prepare;
    PreparedAccounts(s, ins, outs);
    if a !in Listed(ins) { AmountOfUnlisted(ins, a); }
    if a !in Listed(outs) { AmountOfUnlisted(outs, a); }
  }

  /** Each listed account moves by its own line only, and no other account moves. */
  lemma {:induction false} EachMovesByItsLine(s: State, ins: seq<Line>, outs: seq<Line>)
    requires ValidState(s) && Execute(s, ins, outs).1.Done?
    ensures var after := Execute(s, ins, outs).0.accounts;
            && (forall i :: 0 <= i < |ins| ==>
                  && ins[i].address in s.accounts && ins[i].address in after
                  && after[ins[i].address].balance == s.accounts[ins[i].address].balance - ins[i].amount)
            && (forall i :: 0 <= i < |outs| && outs[i].address !in s.removed ==>
                  && outs[i].address in after
                  && after[outs[i].address].balance == AccountAt(s, outs[i].address).balance + outs[i].amount)
            && (forall a :: a !in Listed(ins) && a !in Listed(outs) ==>
                  (a in after <==> a in s.accounts) && (a in after ==> after[a] == s.accounts[a]))
  {
    hide Execute, Prepare, AccountAt, AmountOf, Listed;
    forall i | 0 <= i < |ins| {
      InputMoves(s, ins, outs, i);
    }
    forall i | 0 <= i < |outs| {
      OutputMoves(s, ins, outs, i);
    }
    forall a | a !in Listed(ins) && a !in Listed(outs) {
      OtherStays(s, ins, outs, a);
    }
  }

  lemma {:induction false} InputMoves(s: State, ins: seq<Line>, outs: seq<Line>, i: nat)
    requires ValidState(s) && Execute(s, ins, outs).1.Done? && i < |ins|
    ensures var after := Execute(s, ins, outs).0.accounts;
            && ins[i].address in s.accounts && ins[i].address in after
            && after[ins[i].address].balance == s.accounts[ins[i].address].balance - ins[i].amount
  {
    hide Execute, Prepare;
    AcceptedPrepared(s, ins, outs);
    PreparedAccounts(s, ins, outs);
    AcceptedAccounts(s, ins, outs, ins[i].address);
    AmountOfOnly(ins, i);
    assert ins[i].address in Listed(ins);
    AmountOfUnlisted(outs, ins[i].address);
  }

  lemma {:induction false} OutputMoves(s: State, ins: seq<Line>, outs: seq<Line>, i: nat)
    requires ValidState(s) && Execute(s, ins, outs).1.Done? && i < |outs|
    ensures var after := Execute(s, ins, outs).0.accounts;
            outs[i].address !in s.removed ==>
              && outs[i].address in after
              && after[outs[i].address].balance == AccountAt(s, outs[i].address).balance + outs[i].amount
  {
    hide Execute, Prepare;
    AcceptedPrepared(s, ins, outs);
    PreparedAccounts(s, ins, outs);
    AcceptedAccounts(s, ins, outs, outs[i].address);
    AmountOfOnly(outs, i);
    assert outs[i].address in Listed(outs);
    AmountOfUnlisted(ins, outs[i].address);
  }

  lemma {:induction false} OtherStays(s: State, ins: seq<Line>, outs: seq<Line>, a: Address)
    requires ValidState(s) && Execute(s, ins, outs).1.Done? && a !in Listed(ins) && a !in Listed(outs)
    ensures var after := Execute(s, ins, outs).0.accounts;
            (a in after <==> a in s.accounts) && (a in after ==> after[a] == s.accounts[a])
  {
    hide Execute, Prepare, Listed;
    AcceptedAccounts(s, ins, outs, a);
    AmountOfUnlisted(ins, a);
    AmountOfUnlisted(outs, a);
  }

  lemma {:induction false} AcceptedPrepared(s: State, ins: seq<Line>, outs: seq<Line>)
    ensures Execute(s, ins, outs).1.Done? <==> Prepare(s, ins, outs).Done?
    ensures Execute(s, ins, outs).1.Failed? ==> Execute(s, ins, outs).0 == s
  {
  }

  // ---- Conservation ---------------------------------------------------------------------

  function Balances(accounts: Ledger): (m: map<Address, int>)
    ensures m.Keys == accounts.Keys
  {
    map a | a in accounts :: accounts[a].balance
  }

  ghost function Supply(s: State): int {
    Total(Balances(s.accounts))
  }

  function Spread(lines: seq<Line>, keys: set<Address>): (m: map<Address, int>)
    ensures m.Keys == keys
  {
    map a | a in keys :: AmountOf(lines, a)
  }

  lemma {:induction false} SpreadTotal(lines: seq<Line>, keys: set<Address>)
    ensures Total(Spread(lines, keys)) == SumWithin(lines, keys)
  {
    hide Total;
    if lines == [] {
      TotalPad(map[], Spread(lines, keys));
      EmptyTotal<Address>();
    } else {
      var before, last := lines[..|lines| - 1], lines[|lines| - 1];
      SpreadTotal(before, keys);
      if last.address in keys {
        assert Spread(lines, keys) == Spread(before, keys)[last.address := AmountOf(before, last.address) + last.amount];
        TotalUpdate(Spread(before, keys), last.address, AmountOf(before, last.address) + last.amount);
      } else {
        assert Spread(lines, keys) == Spread(before, keys);
      }
    }
  }

  lemma {:induction false} SumWithinAll(lines: seq<Line>, keys: set<Address>, others: set<Address>)
    requires keys !! others && Listed(lines) <= keys + others
    ensures SumWithin(lines, keys) + SumWithin(lines, others) == Sum(lines)
  {
    if lines != [] {
      ListedLast(lines);
      SumWithinAll(lines[..|lines| - 1], keys, others);
    }
  }

  /** What is sent to removed accounts is not credited anywhere. */
  function Lost(s: State, outs: seq<Line>): int {
    SumWithin(outs, s.removed)
  }

  lemma {:induction false} NothingWithin(lines: seq<Line>, keys: set<Address>)
    requires Listed(lines) !! keys
    ensures SumWithin(lines, keys) == 0
  {
    if lines != [] {
      ListedLast(lines);
      NothingWithin(lines[..|lines| - 1], keys);
    }
  }

  lemma {:induction false} SettledTotal(after: Ledger, before: map<Address, int>, ins: seq<Line>, outs: seq<Line>)
    requires after.Keys == before.Keys
    requires forall a :: a in after ==> after[a].balance == before[a] - AmountOf(ins, a) + AmountOf(outs, a)
    ensures Total(Balances(after)) == Total(before) - SumWithin(ins, after.Keys) + SumWithin(outs, after.Keys)
  {
    hide Total, AmountOf, SumWithin;
    var keys := after.Keys;
    var given := map a | a in keys :: Balances(after)[a] + AmountOf(ins, a);
    TotalAdditive(Balances(after), Spread(ins, keys), given);
    TotalAdditive(before, Spread(outs, keys), given);
    SpreadTotal(ins, keys);
    SpreadTotal(outs, keys);
  }

  /** The supply changes by exactly what the lines add and take, less what was sent to removed accounts. */
  lemma {:induction false} SupplyAfter(s: State, ins: seq<Line>, outs: seq<Line>)
    requires ValidState(s) && Execute(s, ins, outs).1.Done?
    ensures Supply(Execute(s, ins, outs).0) == Supply(s) - Sum(ins) + Sum(outs) - Lost(s, outs)
  {
    hide Execute, Prepare, Total;
    AcceptedPrepared(s, ins, outs);
    PreparedAccounts(s, ins, outs);
    var after := Execute(s, ins, outs).0.accounts;
    var keys := after.Keys;
    forall a ensures a in after <==> a in s.accounts || (a in Listed(outs) && a !in s.removed)
             ensures a in after ==> after[a] == Settled(s, ins, outs, a)
    {
      AcceptedAccounts(s, ins, outs, a);
    }
    var before := map a | a in keys :: AccountAt(s, a).balance;
    TotalPad(Balances(s.accounts), before);
    SettledTotal(after, before, ins, outs);
    NothingWithin(ins, s.removed);
    SumWithinAll(ins, keys, s.removed);
    SumWithinAll(outs, keys, s.removed);
  }

  lemma {:induction false} WrappedIsMod(lines: seq<Line>)
    ensures WrappedSum(lines) == Sum(lines) % UINT64_LIMIT
  {
    if lines != [] {
      WrappedIsMod(lines[..|lines| - 1]);
    }
  }

  /**
    An accepted SendTx conserves the supply exactly when the true sums of what it takes and
    what it credits agree. The 64-bit totals it compares only ensure this modulo 2^64, and
    what goes to an account removed earlier in the block vanishes.
   */
  lemma {:induction false} ConservedExactly(s: State, ins: seq<Line>, outs: seq<Line>)
    requires ValidState(s) && Execute(s, ins, outs).1.Done?
    ensures Supply(Execute(s, ins, outs).0) == Supply(s) <==> Sum(ins) == Sum(outs) - Lost(s, outs)
    ensures Listed(outs) !! s.removed ==> (Supply(Execute(s, ins, outs).0) - Supply(s)) % UINT64_LIMIT == 0
    ensures Listed(outs) !! s.removed && 0 <= Sum(ins) < UINT64_LIMIT && 0 <= Sum(outs) < UINT64_LIMIT
            ==> Supply(Execute(s, ins, outs).0) == Supply(s)
  {
    hide Execute, Prepare, Supply, Lost, Sum, WrappedSum, Settled;
    SupplyAfter(s, ins, outs);
    AcceptedPrepared(s, ins, outs);
    PreparedAccounts(s, ins, outs);
    WrappedIsMod(ins);
    WrappedIsMod(outs);
    if Listed(outs) !! s.removed { NothingLost(s, outs); }
  }

  lemma {:induction false} NothingLost(s: State, outs: seq<Line>)
    requires Listed(outs) !! s.removed
    ensures Lost(s, outs) == 0
  {
    NothingWithin(outs, s.removed);
  }

  /** Balances stay 64-bit numbers and accounts stay where they are filed. */
  lemma {:induction false} ExecuteValid(s: State, ins: seq<Line>, outs: seq<Line>)
    requires ValidState(s) && ValidLines(ins) && ValidLines(outs)
    ensures ValidState(Execute(s, ins, outs).0)
  {
    hide Prepare, AllHave;
    if Prepare(s, ins, outs).Done? {
      PreparedAccounts(s, ins, outs);
      PreparedRange(s, ins, outs);
    }
  }

  lemma {:induction false} PreparedRange(s: State, ins: seq<Line>, outs: seq<Line>)
    requires ValidState(s) && ValidLines(ins) && ValidLines(outs) && Prepare(s, ins, outs).Done?
    ensures forall a :: a in Prepare(s, ins, outs).value ==> IsUint64(Prepare(s, ins, outs).value[a].balance)
  {
    hide AllHave, GetInputs, GetOutputs, Debit, Credit;
    var inputs := GetInputs(s, ins).value;
    InputsCollected(s, ins);
    OutputsCollected(s, inputs, outs);
    var accounts := GetOutputs(s, inputs, outs).value;
    DebitRange(accounts, ins);
    CreditRange(Debit(accounts, ins).value, outs);
  }

  lemma {:induction false} DebitRange(accounts: Ledger, ins: seq<Line>)
    requires Debit(accounts, ins).Done? && ValidLines(ins)
    requires forall a :: a in accounts ==> IsUint64(accounts[a].balance)
    ensures forall a :: a in Debit(accounts, ins).value ==> IsUint64(Debit(accounts, ins).value[a].balance)
  {
    if ins != [] { DebitRange(accounts, ins[..|ins| - 1]); }
  }

  lemma {:induction false} CreditRange(accounts: Ledger, outs: seq<Line>)
    requires Credit(accounts, outs).Done? && ValidLines(outs)
    requires forall a :: a in accounts ==> IsUint64(accounts[a].balance)
    ensures forall a :: a in Credit(accounts, outs).value ==> IsUint64(Credit(accounts, outs).value[a].balance)
  {
    if outs != [] { CreditRange(accounts, outs[..|outs| - 1]); }
  }

  // ---- Runs, and the transaction that breaks the law ------------------------------------

  datatype Tx = Tx(ins: seq<Line>, outs: seq<Line>)

  function RunAll(s: State, txs: seq<Tx>): State {
    if txs == [] then s
    else Execute(RunAll(s, txs[..|txs| - 1]), txs[|txs| - 1].ins, txs[|txs| - 1].outs).0
  }

  /** The true totals fit in 64 bits. */
  predicate FitsTotals(tx: Tx) {
    0 <= Sum(tx.ins) < UINT64_LIMIT && 0 <= Sum(tx.outs) < UINT64_LIMIT
  }

  /** Without removed accounts no block of transactions whose totals fit in 64 bits changes the supply. */
  lemma {:induction false} RunConserves(s: State, txs: seq<Tx>)
    requires ValidState(s) && s.removed == {}
    requires forall tx :: tx in txs ==> ValidLines(tx.ins) && ValidLines(tx.outs) && FitsTotals(tx)
    ensures var after := RunAll(s, txs); ValidState(after) && after.removed == {} && Supply(after) == Supply(s)
  {
    hide Prepare, Total;
    if txs != [] {
      var before, tx := RunAll(s, txs[..|txs| - 1]), txs[|txs| - 1];
      RunConserves(s, txs[..|txs| - 1]);
      assert tx in txs;
      ExecuteValid(before, tx.ins, tx.outs);
      AcceptedPrepared(before, tx.ins, tx.outs);
      if Execute(before, tx.ins, tx.outs).1.Done? {
        ConservedExactly(before, tx.ins, tx.outs);
      }
    }
  }

  // ---- Transactions that do not conserve ------------------------------------------------

  lemma {:induction false} OneInput(s: State, l: Line)
    requires l.address in s.accounts
    ensures GetInputs(s, [l]) == Done(map[l.address := s.accounts[l.address]])
  {
    assert [l][..0] == [];
  }

  lemma {:induction false} OutputsMore(s: State, accounts: Ledger, outs: seq<Line>, l: Line)
    requires GetOutputs(s, accounts, outs).Done? && l.address !in GetOutputs(s, accounts, outs).value
    requires l.address in s.accounts || AllHave(s, GetOutputs(s, accounts, outs).value, CREATE_ACCOUNT, CannotCreate).Done?
    ensures GetOutputs(s, accounts, outs + [l]) ==
            Done(GetOutputs(s, accounts, outs).value[l.address := AccountAt(s, l.address)])
  {
    hide AllHave;
    assert (outs + [l])[..|outs|] == outs;
  }

  lemma {:induction false} OneDebit(accounts: Ledger, l: Line)
    requires l.address in accounts && accounts[l.address].balance >= l.amount
    ensures Debit(accounts, [l]) ==
            Done(accounts[l.address := accounts[l.address].(balance := accounts[l.address].balance - l.amount)])
  {
    assert [l][..0] == [];
  }

  lemma {:induction false} CreditMore(accounts: Ledger, outs: seq<Line>, l: Line)
    requires Credit(accounts, outs).Done? && l.address in Credit(accounts, outs).value
    requires Credit(accounts, outs).value[l.address].balance + l.amount < UINT64_LIMIT
    ensures var sofar := Credit(accounts, outs).value;
            Credit(accounts, outs + [l]) ==
            Done(sofar[l.address := sofar[l.address].(balance := sofar[l.address].balance + l.amount)])
  {
    assert (outs + [l])[..|outs|] == outs;
  }

  lemma {:induction false} SumsMore(outs: seq<Line>, l: Line, keys: set<Address>)
    ensures Sum(outs + [l]) == Sum(outs) + l.amount
    ensures WrappedSum(outs + [l]) == (WrappedSum(outs) + l.amount) % UINT64_LIMIT
    ensures SumWithin(outs + [l], keys) == SumWithin(outs, keys) + if l.address in keys then l.amount else 0
  {
    assert (outs + [l])[..|outs|] == outs;
  }

  lemma {:induction false} NoSums(keys: set<Address>)
    ensures Sum([]) == 0 && WrappedSum([]) == 0 && SumWithin([], keys) == 0
  {
  }

  lemma {:induction false} NoLines(s: State, accounts: Ledger)
    ensures GetOutputs(s, accounts, []) == Done(accounts) && Credit(accounts, []) == Done(accounts)
  {
  }

  /** What is sent to an account removed earlier in the block is gone. */
  lemma {:induction false} RemovedOutputLoses()
    ensures var s := State(map[0 := Account(0, 0, SEND | CREATE_ACCOUNT, SEND | CREATE_ACCOUNT, ""), 1 := Account(1, 5, 0, 0, "")], {2});
            var ins, outs := [Line(1, 5)], [Line(2, 5)];
            ValidState(s) && Execute(s, ins, outs).1.Done? && Supply(Execute(s, ins, outs).0) == Supply(s) - 5
  {
    hide Supply, GetInputs, GetOutputs, Debit, Credit, Sum, WrappedSum, SumWithin;
    var s := State(map[0 := Account(0, 0, SEND | CREATE_ACCOUNT, SEND | CREATE_ACCOUNT, ""), 1 := Account(1, 5, 0, 0, "")], {2});
    var input, output := Line(1, 5), Line(2, 5);
    assert [] + [input] == [input] && [] + [output] == [output];
    NoSums({2});
    SumsMore([], input, {2});
    SumsMore([], output, {2});
    assert Execute(s, [input], [output]).1.Done? by {
      var inputs: Ledger := map[1 := s.accounts[1]];
      OneInput(s, input);
      assert HasPermission(s.accounts[0], s.accounts[1], SEND) && HasPermission(s.accounts[0], s.accounts[1], CREATE_ACCOUNT);
      NoLines(s, inputs);
      OutputsMore(s, inputs, [], output);
      var both := inputs[2 := NewAccount(2)];
      OneDebit(both, input);
      var debited := both[1 := s.accounts[1].(balance := 0)];
      NoLines(s, debited);
      CreditMore(debited, [], output);
    }
    hide Execute;
    SupplyAfter(s, [input], [output]);
  }

  /** Output amounts that wrap around are accepted and create value. */
  lemma {:induction false} WrappedTotalsMint()
    ensures var s := State(map[0 := Account(0, 0, SEND, SEND, ""), 1 := Account(1, 5, 0, 0, ""),
                               2 := Account(2, 0, 0, 0, ""), 3 := Account(3, 0, 0, 0, "")], {});
            var ins, outs := [Line(1, 5)], [Line(2, UINT64_LIMIT - 1), Line(3, 6)];
            ValidState(s) && Execute(s, ins, outs).1.Done? && Supply(Execute(s, ins, outs).0) == Supply(s) + UINT64_LIMIT
  {
    hide Supply, GetInputs, GetOutputs, Debit, Credit, Sum, WrappedSum, SumWithin;
    var s := State(map[0 := Account(0, 0, SEND, SEND, ""), 1 := Account(1, 5, 0, 0, ""),
                       2 := Account(2, 0, 0, 0, ""), 3 := Account(3, 0, 0, 0, "")], {});
    var input, big, small := Line(1, 5), Line(2, UINT64_LIMIT - 1), Line(3, 6);
    assert [] + [input] == [input] && [] + [big] == [big] && [big] + [small] == [big, small];
    NoSums({});
    SumsMore([], input, {});
    SumsMore([], big, {});
    SumsMore([big], small, {});
    assert Execute(s, [input], [big, small]).1.Done? by {
      var inputs: Ledger := map[1 := s.accounts[1]];
      OneInput(s, input);
      assert HasPermission(s.accounts[0], s.accounts[1], SEND);
      NoLines(s, inputs);
      OutputsMore(s, inputs, [], big);
      OutputsMore(s, inputs, [big], small);
      var both := inputs[2 := s.accounts[2]][3 := s.accounts[3]];
      OneDebit(both, input);
      var debited := both[1 := s.accounts[1].(balance := 0)];
      NoLines(s, debited);
      CreditMore(debited, [], big);
      CreditMore(debited, [big], small);
    }
    hide Execute;
    SupplyAfter(s, [input], [big, small]);
  }
}
