/** Account and validator addresses: 20 bytes, ordered as big-endian numbers. */
module Addresses {
  import opened Sorting

  newtype Address = x: int | 0 <= x < 0x1_0000_0000_0000_0000_0000_0000_0000_0000_0000_0000

  predicate AtMost(a: Address, b: Address) {
    a <= b
  }

  function SortedAddresses(s: set<Address>): (r: seq<Address>)
    ensures StrictlySorted(r, AtMost)
    ensures Elements(r) == s
    ensures |r| == |s|
  {
    Sort(s, AtMost)
  }

  /** In increasing order as numbers, each address of the set once. */
  lemma {:induction false} AddressesAscend(s: set<Address>, i: nat, j: nat)
    requires i < j < |SortedAddresses(s)|
    ensures SortedAddresses(s)[i] as int < SortedAddresses(s)[j] as int
  {
  }
}
