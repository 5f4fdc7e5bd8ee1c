/** The ranges of 64-bit integers. */
module WordSizes {

  const INT64_LIMIT: int := 0x8000_0000_0000_0000
  const UINT64_LIMIT: int := 0x1_0000_0000_0000_0000
}
