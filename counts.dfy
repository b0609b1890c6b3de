/**
 The reference-count pair of a control block and its packing into one
 64-bit word. The word is what the control block stores and what every
 compare-and-swap loop reads and writes; the pair is what the loops reason
 about. The layout is fixed as `strong + weak * 2^32` (the strong count in
 the low half, as a little-endian `bit_cast` of `{strong, weak}` gives).
 */
module Counts {

  /** 2^32: one more than the largest 32-bit count. */
  const Base: int := 0x1_0000_0000

  /** The largest value a 32-bit counter holds. */
  const MaxCount: int := 0xFFFF_FFFF

  /** An unsigned 32-bit counter (`std::uint32_t`). */
  type Count = x: int | 0 <= x < 0x1_0000_0000

  /** An unsigned 64-bit word (`std::uint64_t`). */
  type Word = x: int | 0 <= x < 0x1_0000_0000_0000_0000

  /** `RefCounts`: the strong and the weak count of one control block. */
  datatype RefCounts = RefCounts(strong: Count, weak: Count)

  /** `RefCounts::as_word`. */
  function AsWord(c: RefCounts): (w: Word)
    ensures w % Base == c.strong && w / Base == c.weak
  {
    c.strong + c.weak * Base
  }

  /** `RefCounts::from_word`. */
  function FromWord(w: Word): (c: RefCounts)
    ensures c.strong + c.weak * Base == w
  {
    RefCounts(w % Base, w / Base)
  }

  /** Decoding an encoded pair gives the pair back. */
  lemma FromWordAsWord(c: RefCounts)
    ensures FromWord(AsWord(c)) == c
  {
  }

  /** Encoding a decoded word gives the word back. */
  lemma AsWordFromWord(w: Word)
    ensures AsWord(FromWord(w)) == w
  {
  }

  /** Two pairs with the same word are the same pair. */
  lemma AsWordInjective(c: RefCounts, d: RefCounts)
    requires AsWord(c) == AsWord(d)
    ensures c == d
  {
  }

  /** `++` on a `std::uint32_t`: wraps from the largest value to zero. */
  function Inc(x: Count): (r: Count)
    ensures x < MaxCount ==> r == x + 1
    ensures x == MaxCount ==> r == 0
  {
    (x + 1) % Base
  }

  /** `--` on a `std::uint32_t`: wraps from zero to the largest value. */
  function Dec(x: Count): (r: Count)
    ensures 0 < x ==> r == x - 1
    ensures x == 0 ==> r == MaxCount
  {
    (x - 1) % Base
  }

  /** The desired pair of the strong-increment loop: one more strong. */
  function AddStrong(c: RefCounts): (r: RefCounts)
    ensures r.weak == c.weak
    ensures c.strong < MaxCount ==> r.strong == c.strong + 1
  {
    c.(strong := Inc(c.strong))
  }

  /** One strong reference fewer. */
  function SubStrong(c: RefCounts): (r: RefCounts)
    ensures r.weak == c.weak
    ensures 0 < c.strong ==> r.strong == c.strong - 1
  {
    c.(strong := Dec(c.strong))
  }

  /** One weak reference more. */
  function AddWeak(c: RefCounts): (r: RefCounts)
    ensures r.strong == c.strong
    ensures c.weak < MaxCount ==> r.weak == c.weak + 1
  {
    c.(weak := Inc(c.weak))
  }

  /** One weak reference fewer. */
  function SubWeak(c: RefCounts): (r: RefCounts)
    ensures r.strong == c.strong
    ensures 0 < c.weak ==> r.weak == c.weak - 1
  {
    c.(weak := Dec(c.weak))
  }

  /**
   The desired pair of `lock`'s loop: one more strong, but only when the
   observed strong count is not zero; otherwise the pair is left as it is.
   */
  function LockDesired(c: RefCounts): (r: RefCounts)
    ensures r.weak == c.weak
    ensures c.strong == 0 ==> r == c
    ensures 0 < c.strong < MaxCount ==> r.strong == c.strong + 1
  {
    if c.strong != 0 then AddStrong(c) else c
  }

  /**
   Away from the wrap-around point `lock` reports success (a nonzero
   desired strong count) exactly when the observed strong count is nonzero.
   */
  lemma LockSucceedsIffAlive(c: RefCounts)
    requires c.strong < MaxCount
    ensures LockDesired(c).strong != 0 <==> c.strong != 0
  {
  }

  /** Every counter step moves one count by one and leaves the other alone. */
  lemma StepsMoveByOne(c: RefCounts)
    requires c.strong < MaxCount && c.weak < MaxCount
    ensures AddStrong(c) == RefCounts(c.strong + 1, c.weak)
    ensures AddWeak(c) == RefCounts(c.strong, c.weak + 1)
    ensures 0 < c.strong ==> SubStrong(c) == RefCounts(c.strong - 1, c.weak)
    ensures 0 < c.weak ==> SubWeak(c) == RefCounts(c.strong, c.weak - 1)
    ensures LockDesired(c) == c || LockDesired(c) == RefCounts(c.strong + 1, c.weak)
  {
  }

  /**
   One iteration of the strong-increment compare-and-swap loop that
   succeeds: read the word, decode it, raise strong, encode it.
   */
  function CasAddStrong(w: Word): (r: Word)
    ensures FromWord(r) == AddStrong(FromWord(w))
  {
    FromWordAsWord(AddStrong(FromWord(w)));
    AsWord(AddStrong(FromWord(w)))
  }

  /**
   One iteration of `lock`'s compare-and-swap loop that succeeds: the new
   word and the desired pair it encodes. When strong is observed as zero
   the word written back is the word read.
   */
  function CasLock(w: Word): (r: (Word, RefCounts))
    ensures r.1 == LockDesired(FromWord(w))
    ensures FromWord(r.0) == r.1
    ensures FromWord(w).strong == 0 ==> r.0 == w
  {
    var desired := LockDesired(FromWord(w));
    FromWordAsWord(desired);
    AsWordFromWord(w);
    (AsWord(desired), desired)
  }
}
