/** The bits of a beacon's flags byte that say which optional fields follow. */
module BeaconFlags {

  /** The source EID of the sending node is present (it should always be). */
  const SOURCE_EID_PRESENT: bv8 := 0x01

  /** The service block is present. */
  const SERVICE_BLOCK_PRESENT: bv8 := 0x02

  /** The beacon period is present. */
  const BEACON_PERIOD_PRESENT: bv8 := 0x04

  /** The union of the assigned bits; bits 3 to 7 are reserved. */
  const ASSIGNED_BITS: bv8 := SOURCE_EID_PRESENT | SERVICE_BLOCK_PRESENT | BEACON_PERIOD_PRESENT

  /** The test the decoder applies: every bit of `mask` is set in `flags`. */
  predicate Has(flags: bv8, mask: bv8) {
    flags & mask == mask
  }

  /** Each constant is one bit: bit 0, bit 1 and bit 2 respectively. */
  lemma FlagsAreSingleBits()
    ensures SOURCE_EID_PRESENT == 1 << 0
    ensures SERVICE_BLOCK_PRESENT == 1 << 1
    ensures BEACON_PERIOD_PRESENT == 1 << 2
  {
  }

  /** The three masks are pairwise disjoint and together make 7, leaving bits 3 to 7 unassigned. */
  lemma FlagsDisjoint()
    ensures SOURCE_EID_PRESENT & SERVICE_BLOCK_PRESENT == 0
    ensures SOURCE_EID_PRESENT & BEACON_PERIOD_PRESENT == 0
    ensures SERVICE_BLOCK_PRESENT & BEACON_PERIOD_PRESENT == 0
    ensures ASSIGNED_BITS == 7
  {
  }

  /** Only the assigned bits matter to `Has` for any of the three masks. */
  lemma HasIgnoresReservedBits(flags: bv8, mask: bv8)
    requires mask == SOURCE_EID_PRESENT || mask == SERVICE_BLOCK_PRESENT || mask == BEACON_PERIOD_PRESENT
    ensures Has(flags, mask) <==> Has(flags & ASSIGNED_BITS, mask)
  {
  }
}
