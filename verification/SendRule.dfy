/** Who may send what: exactly which SendTx are accepted, and the error every other one gets. */
module SendRules {
  import opened WordSizes
  import opened Addresses
  import opened Accounts
  import opened SendModel
  import opened SendLaws

  // ---- Permissions, flag by flag --------------------------------------------------------

  predicate OneFlag(flag: bv64) {
    flag != 0 && flag & (flag - 1) == 0
  }

  /** The own value where the flag is set, otherwise the one fallen back to where that is set, otherwise no. */
  predicate FlagValue(perms: bv64, setBit: bv64, fallback: bv64, fallbackSet: bv64, flag: bv64) {
    if setBit & flag != 0 then perms & flag != 0 else fallbackSet & flag != 0 && fallback & flag != 0
  }

  /** An account falls back to the global one. */
  predicate Allowed(global: Account, account: Account, flag: bv64) {
    FlagValue(account.perms, account.setBit, global.perms, global.setBit, flag)
  }

  lemma {:induction false} FlagWise(perms: bv64, setBit: bv64, fallback: bv64, fallbackSet: bv64, flag: bv64)
    requires OneFlag(flag) && flag <= 0x3FFF
    ensures Grants(perms, setBit, fallback, fallbackSet, flag) <==> FlagValue(perms, setBit, fallback, fallbackSet, flag)
  {
  }

  /** Own flags win over global ones, one flag at a time, and there are fourteen flags. */
  lemma {:induction false} PermissionExactly(global: Account, account: Account, flag: bv64)
    requires OneFlag(flag)
    ensures HasPermission(global, account, flag) <==> flag <= 0x3FFF && Allowed(global, account, flag)
  {
    hide Grants, OneFlag, FlagValue;
    if flag <= 0x3FFF {
      FlagWise(account.perms, account.setBit, global.perms, global.setBit, flag);
    } else {
      NoSuchFlag(account.perms, account.setBit, global.perms, global.setBit, flag);
    }
  }

  lemma {:induction false} NoSuchFlag(perms: bv64, setBit: bv64, fallback: bv64, fallbackSet: bv64, flag: bv64)
    requires flag > 0x3FFF
    ensures !Grants(perms, setBit, fallback, fallbackSet, flag)
  {
  }

  lemma {:induction false} WithinBoth(x: bv64, a: bv64, b: bv64)
    requires x & a == a && x & b == b
    ensures x & (a | b) == a | b
  {
  }

  lemma {:induction false} WithinFirst(x: bv64, a: bv64, b: bv64)
    requires x & (a | b) == a | b
    ensures x & a == a
  {
  }

  /** All of `perm` is among the flags set and among those granted. */
  predicate Covered(known: bv64, granted: bv64, perm: bv64) {
    perm <= 0x3FFF && perm != 0 && known & perm == perm && granted & perm == perm
  }

  lemma {:induction false} BothWithin(x: bv64, a: bv64, b: bv64)
    ensures x & (a | b) == a | b <==> x & a == a && x & b == b
  {
    if x & (a | b) == a | b {
      assert a | b == b | a;
      WithinFirst(x, a, b);
      WithinFirst(x, b, a);
    }
    if x & a == a && x & b == b {
      WithinBoth(x, a, b);
    }
  }

  lemma {:induction false} BothSmall(a: bv64, b: bv64)
    ensures a | b <= 0x3FFF <==> a <= 0x3FFF && b <= 0x3FFF
    ensures a != 0 ==> a | b != 0
  {
  }

  lemma {:induction false} BothCovered(known: bv64, granted: bv64, a: bv64, b: bv64)
    requires a != 0 && b != 0
    ensures Covered(known, granted, a | b) <==> Covered(known, granted, a) && Covered(known, granted, b)
  {
    BothWithin(known, a, b);
    BothWithin(granted, a, b);
    BothSmall(a, b);
  }

  lemma {:induction false} GrantsCovered(perms: bv64, setBit: bv64, fallback: bv64, fallbackSet: bv64, perm: bv64)
    ensures Grants(perms, setBit, fallback, fallbackSet, perm)
            <==> Covered(setBit | fallbackSet, Composed(perms, setBit, fallback, fallbackSet), perm)
  {
    hide Composed;
  }

  lemma {:induction false} FlagsTogether(perms: bv64, setBit: bv64, fallback: bv64, fallbackSet: bv64, a: bv64, b: bv64)
    requires a != 0 && b != 0
    ensures Grants(perms, setBit, fallback, fallbackSet, a | b)
            <==> Grants(perms, setBit, fallback, fallbackSet, a) && Grants(perms, setBit, fallback, fallbackSet, b)
  {
    hide Grants, Covered, Composed;
    BothCovered(setBit | fallbackSet, Composed(perms, setBit, fallback, fallbackSet), a, b);
    GrantsCovered(perms, setBit, fallback, fallbackSet, a | b);
    GrantsCovered(perms, setBit, fallback, fallbackSet, a);
    GrantsCovered(perms, setBit, fallback, fallbackSet, b);
  }

  /** Several flags are granted together exactly when each is; none at all is not. */
  lemma {:induction false} PermissionsTogether(global: Account, account: Account, a: bv64, b: bv64)
    ensures a != 0 && b != 0 ==>
              (HasPermission(global, account, a | b) <==> HasPermission(global, account, a) && HasPermission(global, account, b))
    ensures !HasPermission(global, account, 0)
  {
    if a != 0 && b != 0 {
      hide Grants;
      FlagsTogether(account.perms, account.setBit, global.perms, global.setBit, a, b);
    }
  }

  // ---- What each line needs -------------------------------------------------------------

  /** The global permissions are those of the account at address zero; Send is flag 2 and CreateAccount flag 16. */
  predicate MaySend(s: State, account: Account) {
    0 in s.accounts && Allowed(s.accounts[0], account, 2)
  }

  predicate MayCreate(s: State, account: Account) {
    0 in s.accounts && Allowed(s.accounts[0], account, 16)
  }

  ghost predicate Repeats(lines: seq<Line>, i: nat)
    requires i < |lines|
  {
    exists j :: 0 <= j < i && lines[j].address == lines[i].address
  }

  /** The account of an input is there and not listed twice. */
  ghost predicate InputOk(s: State, ins: seq<Line>, i: nat)
    requires i < |ins|
  {
    !Repeats(ins, i) && ins[i].address in s.accounts
  }

  ghost predicate Clashes(ins: seq<Line>, outs: seq<Line>, i: nat)
    requires i < |outs|
  {
    Repeats(outs, i) || outs[i].address in Listed(ins)
  }

  /** An output clashes with no line before it, and is there or may be created by every account before it. */
  ghost predicate OutputOk(s: State, ins: seq<Line>, outs: seq<Line>, i: nat)
    requires i < |outs|
  {
    && !Clashes(ins, outs, i)
    && (outs[i].address in s.accounts ||
        forall a :: a in Listed(ins) + Listed(outs[..i]) ==> MayCreate(s, AccountAt(s, a)))
  }

  ghost predicate InputsOk(s: State, ins: seq<Line>) {
    forall i :: 0 <= i < |ins| ==> InputOk(s, ins, i)
  }

  ghost predicate OutputsOk(s: State, ins: seq<Line>, outs: seq<Line>) {
    forall i :: 0 <= i < |outs| ==> OutputOk(s, ins, outs, i)
  }

  // ---- Collecting inputs ----------------------------------------------------------------

  lemma {:induction false} RepeatsListed(lines: seq<Line>, i: nat)
    requires i < |lines|
    ensures Repeats(lines, i) <==> lines[i].address in Listed(lines[..i])
  {
    if Repeats(lines, i) {
      var j :| 0 <= j < i && lines[j].address == lines[i].address;
      assert lines[..i][j].address in Listed(lines[..i]);
    }
    if lines[i].address in Listed(lines[..i]) {
      var j :| 0 <= j < i && lines[..i][j].address == lines[i].address;
      assert lines[j].address == lines[i].address;
    }
  }

  lemma {:induction false} InputStep(s: State, ins: seq<Line>, i: nat)
    requires i < |ins|
    ensures GetInputs(s, ins[..i]).Failed? ==> GetInputs(s, ins[..i + 1]) == GetInputs(s, ins[..i])
    ensures GetInputs(s, ins[..i]).Done? ==>
              (GetInputs(s, ins[..i + 1]).Done? <==> InputOk(s, ins, i)) &&
              (!InputOk(s, ins, i) ==>
                 GetInputs(s, ins[..i + 1]) == Failed(if Repeats(ins, i) then DuplicateAddress else InvalidAddress))
  {
    assert ins[..i + 1][..i] == ins[..i];
    RepeatsListed(ins, i);
    if GetInputs(s, ins[..i]).Done? { InputsCollected(s, ins[..i]); }
  }

  lemma {:induction false} InputsFine(s: State, ins: seq<Line>, n: nat)
    requires n <= |ins|
    ensures GetInputs(s, ins[..n]).Done? <==> forall i :: 0 <= i < n ==> InputOk(s, ins, i)
  {
    hide GetInputs, InputOk;
    if n == 0 {
      NoInputs(s, ins);
    } else {
      InputsFine(s, ins, n - 1);
      InputStep(s, ins, n - 1);
    }
  }

  lemma {:induction false} NoInputs(s: State, ins: seq<Line>)
    ensures GetInputs(s, ins[..0]) == Done(map[])
  {
  }

  /** The first bad input decides. */
  lemma {:induction false} InputsFail(s: State, ins: seq<Line>, i: nat, n: nat)
    requires i < n <= |ins| && !InputOk(s, ins, i) && forall j :: 0 <= j < i ==> InputOk(s, ins, j)
    ensures GetInputs(s, ins[..n]) == Failed(if Repeats(ins, i) then DuplicateAddress else InvalidAddress)
  {
    hide GetInputs, InputOk, Repeats;
    if n == i + 1 {
      InputsFine(s, ins, i);
      InputStep(s, ins, i);
    } else {
      InputsFail(s, ins, i, n - 1);
      InputStep(s, ins, n - 1);
    }
  }

  // ---- Permissions of the accounts collected --------------------------------------------

  lemma {:induction false} AllHaveExactly(s: State, accounts: Ledger, flag: bv64, refusal: Error)
    requires OneFlag(flag) && flag <= 0x3FFF
    ensures AllHave(s, accounts, flag, refusal) ==
            if accounts == map[] then Done(())
            else if 0 !in s.accounts then Failed(MissingGlobalAccount)
            else if forall a :: a in accounts ==> Allowed(s.accounts[0], accounts[a], flag) then Done(())
            else Failed(refusal)
  {
    hide HasPermission, Allowed, OneFlag;
    if 0 in s.accounts {
      forall a | a in accounts
        ensures HasPermission(s.accounts[0], accounts[a], flag) <==> Allowed(s.accounts[0], accounts[a], flag)
      {
        PermissionExactly(s.accounts[0], accounts[a], flag);
      }
    }
  }

  lemma {:induction false} BothFlags()
    ensures OneFlag(SEND) && SEND == 2 && OneFlag(CREATE_ACCOUNT) && CREATE_ACCOUNT == 16
  {
  }

  ghost predicate SendersOk(s: State, ins: seq<Line>) {
    forall i :: 0 <= i < |ins| ==> MaySend(s, AccountAt(s, ins[i].address))
  }

  lemma {:induction false} SendersExactly(s: State, ins: seq<Line>)
    requires InputsOk(s, ins)
    ensures GetInputs(s, ins).Done?
    ensures AllHave(s, GetInputs(s, ins).value, SEND, PermissionDenied) ==
            if ins != [] && 0 !in s.accounts then Failed(MissingGlobalAccount)
            else if SendersOk(s, ins) then Done(())
            else Failed(PermissionDenied)
  {
    hide GetInputs, Allowed, AllHave, InputOk;
    InputsFine(s, ins, |ins|);
    assert ins[..|ins|] == ins;
    InputsCollected(s, ins);
    BothFlags();
    var accounts := GetInputs(s, ins).value;
    AllHaveExactly(s, accounts, SEND, PermissionDenied);
    if ins == [] {
      assert accounts == map[] by { assert Listed(ins) == {}; }
    } else {
      assert ins[0].address in accounts by { assert ins[0].address in Listed(ins); }
    }
    assert forall i :: 0 <= i < |ins| ==> ins[i].address in Listed(ins);
    assert forall a :: a in accounts ==> exists i :: 0 <= i < |ins| && ins[i].address == a;
  }

  // ---- Collecting outputs ---------------------------------------------------------------

  lemma {:induction false} OutputStep(s: State, ins: seq<Line>, outs: seq<Line>, i: nat)
    requires i < |outs| && InputsOk(s, ins) && GetInputs(s, ins).Done?
    ensures var inputs := GetInputs(s, ins).value;
            var before, after := GetOutputs(s, inputs, outs[..i]), GetOutputs(s, inputs, outs[..i + 1]);
            && (before.Failed? ==> after == before)
            && (before.Done? ==>
                  && (after.Done? <==> OutputOk(s, ins, outs, i))
                  && (!OutputOk(s, ins, outs, i) ==>
                        after == Failed(if Clashes(ins, outs, i) then DuplicateAddress
                                        else if 0 !in s.accounts then MissingGlobalAccount else CannotCreate)))
  {
    hide GetInputs, AllHave, InputOk, Repeats, NewAccount, MayCreate;
    var inputs := GetInputs(s, ins).value;
    assert outs[..i + 1][..i] == outs[..i];
    InputsCollected(s, ins);
    RepeatsListed(outs, i);
    if GetOutputs(s, inputs, outs[..i]).Done? {
      OutputsCollected(s, inputs, outs[..i]);
      var sofar := GetOutputs(s, inputs, outs[..i]).value;
      CreatorsAnswer(s, sofar, Listed(ins) + Listed(outs[..i]));
    }
  }

  lemma {:induction false} CreatorsAnswer(s: State, accounts: Ledger, listed: set<Address>)
    requires accounts.Keys == listed && forall a :: a in accounts ==> accounts[a] == AccountAt(s, a)
    ensures AllHave(s, accounts, CREATE_ACCOUNT, CannotCreate) ==
            if forall a :: a in listed ==> MayCreate(s, AccountAt(s, a)) then Done(())
            else Failed(if 0 !in s.accounts then MissingGlobalAccount else CannotCreate)
  {
    hide AllHave, Allowed, AccountAt, MayCreate, OneFlag;
    BothFlags();
    AllHaveExactly(s, accounts, CREATE_ACCOUNT, CannotCreate);
    CreatorsExactly(s, accounts, listed);
  }

  lemma {:induction false} CreatorsExactly(s: State, accounts: Ledger, listed: set<Address>)
    requires accounts.Keys == listed && forall a :: a in accounts ==> accounts[a] == AccountAt(s, a)
    ensures (forall a :: a in listed ==> MayCreate(s, AccountAt(s, a))) <==>
            accounts == map[] || (0 in s.accounts && forall a :: a in accounts ==> Allowed(s.accounts[0], accounts[a], 16))
  {
    hide Allowed, AccountAt;
    if accounts != map[] {
      var a :| a in accounts;
      assert a in listed;
    }
    assert forall a :: a in listed <==> a in accounts;
  }

  lemma {:induction false} NoOutputs(s: State, accounts: Ledger, outs: seq<Line>)
    ensures GetOutputs(s, accounts, outs[..0]) == Done(accounts)
  {
  }

  lemma {:induction false} OutputsFine(s: State, ins: seq<Line>, outs: seq<Line>, n: nat)
    requires n <= |outs| && InputsOk(s, ins) && GetInputs(s, ins).Done?
    ensures GetOutputs(s, GetInputs(s, ins).value, outs[..n]).Done? <==> forall i :: 0 <= i < n ==> OutputOk(s, ins, outs, i)
  {
    hide GetInputs, GetOutputs, OutputOk, InputsOk;
    if n == 0 {
      NoOutputs(s, GetInputs(s, ins).value, outs);
    } else {
      OutputsFine(s, ins, outs, n - 1);
      OutputStep(s, ins, outs, n - 1);
    }
  }

  /** The first bad output decides. */
  lemma {:induction false} OutputsFail(s: State, ins: seq<Line>, outs: seq<Line>, i: nat, n: nat)
    requires i < n <= |outs| && InputsOk(s, ins) && GetInputs(s, ins).Done?
    requires !OutputOk(s, ins, outs, i) && forall j :: 0 <= j < i ==> OutputOk(s, ins, outs, j)
    ensures GetOutputs(s, GetInputs(s, ins).value, outs[..n]) ==
            Failed(if Clashes(ins, outs, i) then DuplicateAddress
                   else if 0 !in s.accounts then MissingGlobalAccount else CannotCreate)
  {
    hide GetInputs, GetOutputs, OutputOk, InputsOk, Clashes;
    if n == i + 1 {
      OutputsFine(s, ins, outs, i);
      OutputStep(s, ins, outs, i);
    } else {
      OutputsFail(s, ins, outs, i, n - 1);
      OutputStep(s, ins, outs, n - 1);
    }
  }

  // ---- Moving the amounts ---------------------------------------------------------------

  lemma {:induction false} DebitExactly(accounts: Ledger, ins: seq<Line>)
    requires NoRepeats(ins) && forall i :: 0 <= i < |ins| ==> ins[i].address in accounts
    ensures Debit(accounts, ins).Done? <==> forall i :: 0 <= i < |ins| ==> accounts[ins[i].address].balance >= ins[i].amount
    ensures Debit(accounts, ins).Failed? ==> Debit(accounts, ins) == Failed(LowBalance)
  {
    if ins != [] {
      var n := |ins| - 1;
      var before, last := ins[..n], ins[n];
      DebitExactly(accounts, before);
      assert forall i :: 0 <= i < n ==> before[i] == ins[i];
      if Debit(accounts, before).Done? {
        DebitAt(accounts, before);
        LastUnlisted(ins);
        AmountOfUnlisted(before, last.address);
      }
    }
  }

  lemma {:induction false} LastUnlisted(lines: seq<Line>)
    requires NoRepeats(lines) && lines != []
    ensures lines[|lines| - 1].address !in Listed(lines[..|lines| - 1])
  {
    RepeatsListed(lines, |lines| - 1);
  }

  lemma {:induction false} CreditExactly(accounts: Ledger, outs: seq<Line>)
    requires NoRepeats(outs) && forall i :: 0 <= i < |outs| ==> outs[i].address in accounts
    ensures Credit(accounts, outs).Done? <==>
            forall i :: 0 <= i < |outs| ==> accounts[outs[i].address].balance + outs[i].amount < UINT64_LIMIT
    ensures Credit(accounts, outs).Failed? ==> Credit(accounts, outs) == Failed(BalanceOverflow)
  {
    if outs != [] {
      var n := |outs| - 1;
      var before, last := outs[..n], outs[n];
      CreditExactly(accounts, before);
      assert forall i :: 0 <= i < n ==> before[i] == outs[i];
      if Credit(accounts, before).Done? {
        CreditAt(accounts, before);
        LastUnlisted(outs);
        AmountOfUnlisted(before, last.address);
      }
    }
  }

  /** Every input has what it gives. */
  ghost predicate Funded(s: State, ins: seq<Line>) {
    forall i :: 0 <= i < |ins| ==> AccountAt(s, ins[i].address).balance >= ins[i].amount
  }

  /** No output's balance would pass 64 bits. */
  ghost predicate Roomy(s: State, outs: seq<Line>) {
    forall i :: 0 <= i < |outs| ==> AccountAt(s, outs[i].address).balance + outs[i].amount < UINT64_LIMIT
  }

  /** Once all accounts are collected, balances decide. */
  lemma {:induction false} BalancesExactly(s: State, accounts: Ledger, ins: seq<Line>, outs: seq<Line>)
    requires NoRepeats(ins) && NoRepeats(outs) && Listed(ins) !! Listed(outs) && accounts.Keys == Listed(ins) + Listed(outs)
    requires forall a :: a in accounts ==> accounts[a] == AccountAt(s, a)
    ensures Debit(accounts, ins).Done? <==> Funded(s, ins)
    ensures Debit(accounts, ins).Failed? ==> Debit(accounts, ins) == Failed(LowBalance)
    ensures Debit(accounts, ins).Done? ==>
              var r := Credit(Debit(accounts, ins).value, outs);
              (r.Done? <==> Roomy(s, outs)) && (r.Failed? ==> r == Failed(BalanceOverflow))
  {
    hide Debit, Credit, AccountAt;
    assert forall i :: 0 <= i < |ins| ==> ins[i].address in Listed(ins);
    assert forall i :: 0 <= i < |outs| ==> outs[i].address in Listed(outs);
    DebitExactly(accounts, ins);
    if Debit(accounts, ins).Done? {
      DebitAt(accounts, ins);
      var debited := Debit(accounts, ins).value;
      forall i | 0 <= i < |outs| ensures debited[outs[i].address].balance == accounts[outs[i].address].balance {
        AmountOfUnlisted(ins, outs[i].address);
      }
      CreditExactly(debited, outs);
    }
  }

  // ---- The whole decision ---------------------------------------------------------------

  /** What is asked once all accounts are there: equal totals that are not zero, then balances. */
  ghost function Amounts(s: State, ins: seq<Line>, outs: seq<Line>): Result<()> {
    var taken, given := Sum(ins) % UINT64_LIMIT, Sum(outs) % UINT64_LIMIT;
    if given > taken then Failed(InsufficientFunds)
    else if given < taken then Failed(Overpayment)
    else if given == 0 then Failed(ZeroPayment)
    else if !Funded(s, ins) then Failed(LowBalance)
    else if !Roomy(s, outs) then Failed(BalanceOverflow)
    else Done(())
  }

  lemma {:induction false} AmountsExactly(s: State, ins: seq<Line>, outs: seq<Line>)
    requires InputsOk(s, ins) && GetInputs(s, ins).Done? && OutputsOk(s, ins, outs)
    requires AllHave(s, GetInputs(s, ins).value, SEND, PermissionDenied).Done?
    ensures Execute(s, ins, outs).1 == Amounts(s, ins, outs)
  {
    hide GetInputs, GetOutputs, AllHave, Debit, Credit, WrappedSum, Sum, InputOk, OutputOk, AccountAt, Listed;
    var inputs := GetInputs(s, ins).value;
    InputsCollected(s, ins);
    OutputsFine(s, ins, outs, |outs|);
    assert outs[..|outs|] == outs;
    InputsAt(s, ins);
    OutputsCollected(s, inputs, outs);
    var accounts := GetOutputs(s, inputs, outs).value;
    BalancesExactly(s, accounts, ins, outs);
    WrappedIsMod(ins);
    WrappedIsMod(outs);
  }

  lemma {:induction false} InputsAt(s: State, ins: seq<Line>)
    requires GetInputs(s, ins).Done?
    ensures forall a :: a in GetInputs(s, ins).value ==> GetInputs(s, ins).value[a] == AccountAt(s, a)
  {
    InputsCollected(s, ins);
  }

  /** A SendTx is accepted exactly when every line is in order, everyone may do their part, and the amounts fit. */
  lemma {:induction false} AcceptedExactly(s: State, ins: seq<Line>, outs: seq<Line>)
    ensures Execute(s, ins, outs).1.Done? <==>
            && InputsOk(s, ins) && SendersOk(s, ins) && OutputsOk(s, ins, outs)
            && Sum(ins) % UINT64_LIMIT == Sum(outs) % UINT64_LIMIT != 0
            && Funded(s, ins) && Roomy(s, outs)
  {
    hide GetInputs, GetOutputs, AllHave, InputOk, OutputOk, AccountAt, Sum, Funded, Roomy;
    InputsFine(s, ins, |ins|);
    assert ins[..|ins|] == ins;
    if InputsOk(s, ins) {
      SendersExactly(s, ins);
      if ins == [] { NoSum(); }
      if SendersOk(s, ins) { SendersKnown(s, ins); }
      if OutputsOk(s, ins, outs) {
        if AllHave(s, GetInputs(s, ins).value, SEND, PermissionDenied).Done? {
          AmountsExactly(s, ins, outs);
        }
      } else {
        OutputsFine(s, ins, outs, |outs|);
        assert outs[..|outs|] == outs;
      }
    }
  }

  lemma {:induction false} NoSum()
    ensures Sum([]) == 0
  {
  }

  /** The error of every other one: of the first bad input, of the senders, of the first bad output, of the amounts. */
  lemma {:induction false} RefusedExactly(s: State, ins: seq<Line>, outs: seq<Line>, i: nat)
    ensures i < |ins| && !InputOk(s, ins, i) && (forall j :: 0 <= j < i ==> InputOk(s, ins, j)) ==>
              Execute(s, ins, outs).1 == Failed(if Repeats(ins, i) then DuplicateAddress else InvalidAddress)
    ensures InputsOk(s, ins) && ins != [] && 0 !in s.accounts ==> Execute(s, ins, outs).1 == Failed(MissingGlobalAccount)
    ensures InputsOk(s, ins) && 0 in s.accounts && !SendersOk(s, ins) ==> Execute(s, ins, outs).1 == Failed(PermissionDenied)
    ensures InputsOk(s, ins) && SendersOk(s, ins) &&
            i < |outs| && !OutputOk(s, ins, outs, i) && (forall j :: 0 <= j < i ==> OutputOk(s, ins, outs, j)) ==>
              Execute(s, ins, outs).1 == Failed(if Clashes(ins, outs, i) then DuplicateAddress
                                                else if 0 !in s.accounts then MissingGlobalAccount else CannotCreate)
    ensures InputsOk(s, ins) && SendersOk(s, ins) && OutputsOk(s, ins, outs) ==>
              Execute(s, ins, outs).1 == Amounts(s, ins, outs)
  {
    hide GetInputs, GetOutputs, AllHave, InputOk, OutputOk, AccountAt, Sum, Clashes, Repeats, Amounts, Debit, Credit;
    assert ins[..|ins|] == ins && outs[..|outs|] == outs;
    if i < |ins| && !InputOk(s, ins, i) && (forall j :: 0 <= j < i ==> InputOk(s, ins, j)) {
      InputsFail(s, ins, i, |ins|);
    }
    if InputsOk(s, ins) {
      SendersExactly(s, ins);
      if SendersOk(s, ins) {
        SendersKnown(s, ins);
        if i < |outs| && !OutputOk(s, ins, outs, i) && (forall j :: 0 <= j < i ==> OutputOk(s, ins, outs, j)) {
          OutputsFail(s, ins, outs, i, |outs|);
        }
        if OutputsOk(s, ins, outs) {
          AmountsExactly(s, ins, outs);
        }
      }
    }
  }

  lemma {:induction false} SendersKnown(s: State, ins: seq<Line>)
    requires SendersOk(s, ins)
    ensures ins != [] ==> 0 in s.accounts
  {
    if ins != [] { assert MaySend(s, AccountAt(s, ins[0].address)); }
  }

  /** An account created by a transaction holds what it was sent and no permission of its own. */
  lemma {:induction false} CreatedAccount(s: State, ins: seq<Line>, outs: seq<Line>, i: nat)
    requires ValidState(s) && Execute(s, ins, outs).1.Done? && i < |outs|
    requires outs[i].address !in s.accounts && outs[i].address !in s.removed
    ensures var a := outs[i].address;
            var after := Execute(s, ins, outs).0.accounts;
            a in after && after[a] == Account(a, outs[i].amount, 0, 0, "")
  {
    hide Execute, Prepare, AmountOf;
    var a := outs[i].address;
    AcceptedPrepared(s, ins, outs);
    PreparedAccounts(s, ins, outs);
    AcceptedAccounts(s, ins, outs, a);
    AmountOfOnly(outs, i);
    assert a in Listed(outs);
    AmountOfUnlisted(ins, a);
  }
}
