/** The ranges of machine words. */
module Words {

  const U64_LIMIT: nat := 0x1_0000_0000_0000_0000
  const U64_MAX: nat := U64_LIMIT - 1

  const U256_LIMIT: nat := 0x1_0000000000000000_0000000000000000_0000000000000000_0000000000000000
  const I256_LIMIT: nat := 0x8000000000000000_0000000000000000_0000000000000000_0000000000000000
}
