/** Moving value between accounts: the checks and the bookkeeping of a SendTx, as a value. */
module SendModel {
  import opened WordSizes
  import opened Addresses
  import opened Accounts

  const SEND: bv64 := 2
  const CREATE_ACCOUNT: bv64 := 16
  const ALL_PERM_FLAGS: bv64 := 0x3FFF
  const GLOBAL_PERMISSIONS_ADDRESS: Address := 0

  /** One line of a transaction: who, and how much. */
  datatype Line = Line(address: Address, amount: int)

  datatype Error = DuplicateAddress | InvalidAddress | PermissionDenied | CannotCreate | InsufficientFunds
                 | Overpayment | ZeroPayment | LowBalance | BalanceOverflow | MissingGlobalAccount

  datatype Result<T> = Done(value: T) | Failed(error: Error)

  type Ledger = map<Address, Account>

  /** The live accounts, and the addresses of accounts removed earlier in the block. */
  datatype State = State(accounts: Ledger, removed: set<Address>)

  predicate IsUint64(x: int) {
    0 <= x < UINT64_LIMIT
  }

  ghost predicate ValidLines(lines: seq<Line>) {
    forall i :: 0 <= i < |lines| ==> IsUint64(lines[i].amount)
  }

  ghost predicate ValidState(s: State) {
    && s.removed !! s.accounts.Keys
    && forall a :: a in s.accounts ==> s.accounts[a].address == a && IsUint64(s.accounts[a].balance)
  }

  // ---- Permissions ----------------------------------------------------------------------

  function Composed(perms: bv64, setBit: bv64, fallback: bv64, fallbackSet: bv64): bv64 {
    (perms & setBit) | (fallback & ((!setBit) & fallbackSet))
  }

  /** Whether flags composed with the ones they fall back to have `perm` set and granted. */
  predicate Grants(perms: bv64, setBit: bv64, fallback: bv64, fallbackSet: bv64, perm: bv64) {
    && perm <= ALL_PERM_FLAGS && perm != 0 && (setBit | fallbackSet) & perm == perm
    && Composed(perms, setBit, fallback, fallbackSet) & perm == perm
  }

  /** Own flags where set, otherwise the global account's; unset everywhere is a refusal. */
  predicate HasPermission(global: Account, account: Account, perm: bv64) {
    Grants(account.perms, account.setBit, global.perms, global.setBit, perm)
  }

  /** allHavePermission and hasCreateAccountPermission; without a global account the lookup fails hard. */
  function AllHave(s: State, accounts: Ledger, perm: bv64, refusal: Error): Result<()> {
    if accounts == map[] then Done(())
    else if GLOBAL_PERMISSIONS_ADDRESS !in s.accounts then Failed(MissingGlobalAccount)
    else if forall a :: a in accounts ==> HasPermission(s.accounts[GLOBAL_PERMISSIONS_ADDRESS], accounts[a], perm) then Done(())
    else Failed(refusal)
  }

  // ---- Collecting accounts --------------------------------------------------------------

  /** The accounts of the inputs, no address twice and none unknown. */
  function GetInputs(s: State, ins: seq<Line>): Result<Ledger> {
    if ins == [] then Done(map[])
    else
      var last := ins[|ins| - 1].address;
      match GetInputs(s, ins[..|ins| - 1])
      case Failed(e) => Failed(e)
      case Done(accounts) =>
        if last in accounts then Failed(DuplicateAddress)
        else if last !in s.accounts then Failed(InvalidAddress)
        else Done(accounts[last := s.accounts[last]])
  }

  function NewAccount(a: Address): Account {
    Account(a, 0, 0, 0, "")
  }

  /** Add the accounts of the outputs; a new one needs the creation permission from all accounts so far. */
  function GetOutputs(s: State, accounts: Ledger, outs: seq<Line>): Result<Ledger> {
    if outs == [] then Done(accounts)
    else
      var last := outs[|outs| - 1].address;
      match GetOutputs(s, accounts, outs[..|outs| - 1])
      case Failed(e) => Failed(e)
      case Done(sofar) =>
        if last in sofar then Failed(DuplicateAddress)
        else if last in s.accounts then Done(sofar[last := s.accounts[last]])
        else
          match AllHave(s, sofar, CREATE_ACCOUNT, CannotCreate)
          case Failed(e) => Failed(e)
          case Done(_) => Done(sofar[last := NewAccount(last)])
  }

  // ---- Amounts --------------------------------------------------------------------------

  /** The true sum of the amounts. */
  function Sum(lines: seq<Line>): int {
    if lines == [] then 0 else Sum(lines[..|lines| - 1]) + lines[|lines| - 1].amount
  }

  /** The sum as computed in 64 bits. */
  function WrappedSum(lines: seq<Line>): int {
    if lines == [] then 0 else (WrappedSum(lines[..|lines| - 1]) + lines[|lines| - 1].amount) % UINT64_LIMIT
  }

  function Debit(accounts: Ledger, ins: seq<Line>): Result<Ledger> {
    if ins == [] then Done(accounts)
    else
      var last := ins[|ins| - 1];
      match Debit(accounts, ins[..|ins| - 1])
      case Failed(e) => Failed(e)
      case Done(sofar) =>
        if last.address !in sofar then Failed(InvalidAddress)
        else if sofar[last.address].balance < last.amount then Failed(LowBalance)
        else Done(sofar[last.address := sofar[last.address].(balance := sofar[last.address].balance - last.amount)])
  }

  function Credit(accounts: Ledger, outs: seq<Line>): Result<Ledger> {
    if outs == [] then Done(accounts)
    else
      var last := outs[|outs| - 1];
      match Credit(accounts, outs[..|outs| - 1])
      case Failed(e) => Failed(e)
      case Done(sofar) =>
        if last.address !in sofar then Failed(InvalidAddress)
        else if UINT64_LIMIT - 1 - sofar[last.address].balance < last.amount then Failed(BalanceOverflow)
        else Done(sofar[last.address := sofar[last.address].(balance := sofar[last.address].balance + last.amount)])
  }

  // ---- The transaction ------------------------------------------------------------------

  /** The accounts to write back. */
  function Prepare(s: State, ins: seq<Line>, outs: seq<Line>): Result<Ledger> {
    match GetInputs(s, ins)
    case Failed(e) => Failed(e)
    case Done(inputs) =>
    match AllHave(s, inputs, SEND, PermissionDenied)
    case Failed(e) => Failed(e)
    case Done(_) =>
    match GetOutputs(s, inputs, outs)
    case Failed(e) => Failed(e)
    case Done(accounts) =>
    if WrappedSum(outs) > WrappedSum(ins) then Failed(InsufficientFunds)
    else if WrappedSum(outs) < WrappedSum(ins) then Failed(Overpayment)
    else if WrappedSum(outs) == 0 then Failed(ZeroPayment)
    else
      match Debit(accounts, ins)
      case Failed(e) => Failed(e)
      case Done(debited) => Credit(debited, outs)
  }

  /** Writing to a removed account fails, and the failure is not looked at. */
  function WriteBack(s: State, accounts: Ledger): State {
    s.(accounts := s.accounts + (accounts - s.removed))
  }

  function Execute(s: State, ins: seq<Line>, outs: seq<Line>): (State, Result<()>) {
    match Prepare(s, ins, outs)
    case Failed(e) => (s, Failed(e))
    case Done(accounts) => (WriteBack(s, accounts), Done(()))
  }
}
