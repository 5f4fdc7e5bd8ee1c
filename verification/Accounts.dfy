/** Accounts and the words they store. */
module Accounts {
  import opened Addresses

  /** A 32-byte word. */
  newtype Word = x: int | 0 <= x < 0x1_0000_0000_0000_0000_0000_0000_0000_0000_0000_0000_0000_0000_0000_0000_0000_0000

  /** `rest` stands for the fields no rule here looks into: public key, code, sequence and roles. */
  datatype Account = Account(address: Address, balance: int, perms: bv64, setBit: bv64, rest: string)
}
