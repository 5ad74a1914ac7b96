/**
 * The masked read-modify-write of the legacy driver's `_sing_reg_write`
 * (PlayingWithFusion_MAX31856.cpp): the register's previous value keeps
 * the bits outside the mask and takes the caller's data inside it.
 */
module MaskedMerge {

  /** `(orig & ~mask) | (data & mask)`. Characterised bit-wise: under the
      mask the result is the data, outside it the previous value. */
  function Merge(orig: bv8, mask: bv8, data: bv8): (r: bv8)
    ensures r & mask == data & mask
    ensures r & !mask == orig & !mask
  {
    (orig & !mask) | (data & mask)
  }

  /** The two bit-wise conditions determine the merged byte: any byte that
      meets them is the merge. */
  lemma MergeUnique(orig: bv8, mask: bv8, data: bv8, r: bv8)
    requires r & mask == data & mask
    requires r & !mask == orig & !mask
    ensures r == Merge(orig, mask, data)
  {
    assert r == (r & mask) | (r & !mask);
  }

  /** A full mask overwrites the register; an empty mask leaves it as it
      was. */
  lemma MergeExtremes(orig: bv8, data: bv8)
    ensures Merge(orig, 0xFF, data) == data
    ensures Merge(orig, 0x00, data) == orig
  {
  }

  /** Repeating a masked write changes nothing further, and of two masked
      writes with the same mask the second one wins. */
  lemma MergeIdempotent(orig: bv8, mask: bv8, data: bv8)
    ensures Merge(Merge(orig, mask, data), mask, data) == Merge(orig, mask, data)
  {
  }

  lemma MergeLastWins(orig: bv8, mask: bv8, d1: bv8, d2: bv8)
    ensures Merge(Merge(orig, mask, d1), mask, d2) == Merge(orig, mask, d2)
  {
  }

  /** A write whose data lies inside a single-bit mask sets exactly that
      bit: the merge with equal mask and data is a bit-wise or. */
  lemma MergeSetBits(orig: bv8, bits: bv8)
    ensures Merge(orig, bits, bits) == orig | bits
  {
  }
}
