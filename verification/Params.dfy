/** Template parameters and compile-time constants of the table, left arbitrary. */
module Params {
  import opened Bits

  type Key(==, !new)
  type Value(==, !new, 0)

  /** A 64-bit unsigned word, the type of hashes. */
  type Word = x: nat | x < 0x1_0000_0000_0000_0000

  /** An 8-bit partial key. */
  type Partial = x: nat | x < 256

  /** Slots in a bucket. The path code of the search needs 2 * SLOTS^5 <= 2^16; see module PathCode. */
  type SlotCount = n: nat | 1 <= n <= 8 witness 4

  const SLOTS: SlotCount

  /** kMaxNumLocks is 2^LOCK_POWER; the source has LOCK_POWER == 16. */
  const LOCK_POWER: nat

  /** Whether keys are so small that lookups skip the comparison of partial keys. */
  const IS_SIMPLE: bool

  /** The user's hash function. */
  const HASH_FN: Key -> Word

  function MaxLocks(): (n: nat)
    ensures n >= 1
  {
    Pow2(LOCK_POWER)
  }

  function Hash(k: Key): Word {
    HASH_FN(k)
  }

  function Min(a: nat, b: nat): nat {
    if a <= b then a else b
  }
}
