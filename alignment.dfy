/** The alignment every audio renderer buffer must have. */
module Alignment {

  /** A 64-bit guest virtual address. */
  type U64 = x: int | 0 <= x < 0x1_0000_0000_0000_0000

  /** `constant::BufferAlignment`: all renderer buffers sit on 0x40-byte
      boundaries. */
  const BufferAlignment: nat := 0x40

  /** A guest address is acceptable for a renderer buffer exactly when it
      is a multiple of `BufferAlignment`. */
  predicate IsAligned(address: U64)
  {
    address % BufferAlignment == 0
  }

  /** An address is acceptable exactly when it is a whole multiple of the
      alignment. */
  lemma AlignedIsMultiple(address: U64)
    ensures IsAligned(address) <==> exists k: nat :: address == k * BufferAlignment
  {
    if IsAligned(address) {
      var k: nat := address / BufferAlignment;
      assert address == k * BufferAlignment;
    }
  }

  /** Past an aligned base, an address is aligned exactly when its offset
      from the base is. */
  lemma AlignedOffset(base: U64, offset: nat)
    requires IsAligned(base)
    requires base + offset < 0x1_0000_0000_0000_0000
    ensures IsAligned(base + offset) <==> offset % BufferAlignment == 0
  {
  }
}
