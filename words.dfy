/** Bit-level meaning of the x87 control, status and tag words and of the
    64-bit register cells.  Nothing here
    evaluates a floating-point value: every function works on bit patterns. */
module X87Words {

  // Control word: exception mask bits.
  const MASK_ZERO_DIVIDE: bv16 := 0x0004
  /** The control word FINIT loads. */
  const CONTROL_RESET: bv16 := 0x037f

  // Status word bits.
  const BUSY: bv16 := 0x8000
  const C3: bv16 := 0x4000
  const STACK_TOP_MASK: bv16 := 0x3800
  const C2: bv16 := 0x0400
  const C0: bv16 := 0x0100
  /** The bits FCLEX clears: the six exception flags, stack fault, error summary and busy. */
  const CLEARED_BY_FCLEX: bv16 := 0x80ff

  /** Tag value of an empty register. */
  const TAG_EMPTY: bv16 := 3

  // IEEE 754 binary64 fields (section 3.4 of IEEE 754-2008).
  const SIGN_BIT_DOUBLE: bv64 := 0x8000_0000_0000_0000
  const INFINITY_DOUBLE: bv64 := 0x7ff0_0000_0000_0000
  const MAGNITUDE_DOUBLE: bv64 := 0x7fff_ffff_ffff_ffff
  const FRACTION_DOUBLE: bv64 := 0x000f_ffff_ffff_ffff

  /** A physical register slot, or a stack-relative index ST(i). */
  type Slot = x: int | 0 <= x < 8

  /** The double view of `v` is +0.0 or -0.0: the only patterns that compare equal to 0. */
  predicate IsZeroDouble(v: bv64) {
    v & MAGNITUDE_DOUBLE == 0
  }

  /** The double view of `v` is +infinity or -infinity. */
  predicate IsInfinityDouble(v: bv64) {
    v & MAGNITUDE_DOUBLE == INFINITY_DOUBLE
  }

  /** The double view of `v` is a NaN: all exponent bits set, fraction non-zero. */
  predicate IsNaNDouble(v: bv64) {
    v & INFINITY_DOUBLE == INFINITY_DOUBLE && v & FRACTION_DOUBLE != 0
  }

  /** FCHS: complement the sign bit of the integer view. */
  function ChangeSign(v: bv64): (r: bv64)
    ensures r & MAGNITUDE_DOUBLE == v & MAGNITUDE_DOUBLE
    ensures (r & SIGN_BIT_DOUBLE == 0) <==> (v & SIGN_BIT_DOUBLE != 0)
  {
    v ^ SIGN_BIT_DOUBLE
  }

  lemma ChangeSignInvolutive(v: bv64)
    ensures ChangeSign(ChangeSign(v)) == v
  {
  }

  /** The masked zero-divide path of the register divides: OR the
      infinity exponent into `dst` when the zero-divide exception is masked,
      leave it alone otherwise. */
  function ZeroDivideResult(dst: bv64, control: bv16): (r: bv64)
    ensures control & MASK_ZERO_DIVIDE == 0 ==> r == dst
    ensures control & MASK_ZERO_DIVIDE != 0 ==>
      r & SIGN_BIT_DOUBLE == dst & SIGN_BIT_DOUBLE &&
      r & INFINITY_DOUBLE == INFINITY_DOUBLE &&
      r & FRACTION_DOUBLE == dst & FRACTION_DOUBLE
  {
    if control & MASK_ZERO_DIVIDE != 0 then dst | INFINITY_DOUBLE else dst
  }

  /** A zero register that the masked path rewrites becomes an infinity of the same sign. */
  lemma ZeroBecomesSignedInfinity(dst: bv64, control: bv16)
    requires IsZeroDouble(dst) && control & MASK_ZERO_DIVIDE != 0
    ensures IsInfinityDouble(ZeroDivideResult(dst, control))
    ensures ZeroDivideResult(dst, control) & SIGN_BIT_DOUBLE == dst & SIGN_BIT_DOUBLE
  {
  }

  /** A register with a non-zero fraction that the masked path rewrites becomes a NaN. */
  lemma FractionBecomesNaN(dst: bv64, control: bv16)
    requires dst & FRACTION_DOUBLE != 0 && control & MASK_ZERO_DIVIDE != 0
    ensures IsNaNDouble(ZeroDivideResult(dst, control))
  {
  }

  /** Result of a comparison of ST(0) with its operand, as the host's
      floating-point comparison reports it. */
  datatype Ordering = Less | Equal | Greater | Unordered

  /** The orderings that the bit patterns alone decide: a NaN is unordered
      with anything, and two zeros of either sign compare equal. */
  predicate OrderingAgrees(a: bv64, b: bv64, order: Ordering) {
    (IsNaNDouble(a) || IsNaNDouble(b) ==> order == Unordered) &&
    (IsZeroDouble(a) && IsZeroDouble(b) ==> order == Equal)
  }

  /** FCOM, FCOMP and FTST: clear C3, C2 and C0, then set C3 on equality
      and C0 when ST(0) is the smaller. */
  function CompareFlags(status: bv16, order: Ordering): (r: bv16)
    ensures r & !(C3 | C2 | C0) == status & !(C3 | C2 | C0)
    ensures (r & C3 != 0) <==> order == Equal
    ensures (r & C0 != 0) <==> order == Less
    ensures r & C2 == 0
  {
    var cleared := status & !(C3 | C2 | C0);
    var equal := if order == Equal then cleared | C3 else cleared;
    if order == Less then equal | C0 else equal
  }

  /** FCOMPP: clear C3, C2 and C0; set C0 for less, C3 for equal and all
      three for an unordered pair. */
  function CompareFlagsPP(status: bv16, order: Ordering): (r: bv16)
    ensures r & 0xbaff == status & 0xbaff
    ensures (r & C3 != 0) <==> (order == Equal || order == Unordered)
    ensures (r & C0 != 0) <==> (order == Less || order == Unordered)
    ensures (r & C2 != 0) <==> order == Unordered
  {
    var cleared := status & !(C3 | C2 | C0);
    match order
    case Greater => cleared
    case Less => cleared | C0
    case Equal => cleared | C3
    case Unordered => cleared | C3 | C2 | C0
  }

  /** The value FSTSW stores: the status word with bits 11-13 cleared and
      `top` ORed in at bit 10.  Because of the shift by 10, `top` occupies
      bits 10-12: its low bit merges with C2 and bit 13 always reads 0. */
  function StatusImage(status: bv16, top: bv16): (r: bv16)
    requires top < 8
    ensures (r >> 11) & 3 == top >> 1
    ensures (r >> 10) & 1 == ((status >> 10) | top) & 1
    ensures r & 0x2000 == 0
    ensures r & 0xc3ff == status & 0xc3ff
  {
    (status & !STACK_TOP_MASK) | (top << 10)
  }

  /** FCLEX: clear the exception flags, stack fault, error summary and busy bits. */
  function ClearExceptions(status: bv16): (r: bv16)
    ensures r & 0x80ff == 0
    ensures r & 0x7f00 == status & 0x7f00
  {
    status & !CLEARED_BY_FCLEX
  }

  // The tag word holds two bits per physical slot; slot numbers are passed
  // as 16-bit words below 8, so that every shift amount stays below 16.

  /** The two tag bits of physical slot `slot`: bits 2*slot and 2*slot+1 of the tag word. */
  function TagOf(tag: bv16, slot: bv16): (r: bv16)
    requires slot < 8
    ensures r < 4
  {
    (tag >> (slot << 1)) & 3
  }

  /** The low bit of a tag pair is bit 2*slot of the tag word, the high bit is bit 2*slot+1. */
  lemma TagOfBits(tag: bv16, slot: bv16)
    requires slot < 8
    ensures (TagOf(tag, slot) & 1 != 0) <==> tag & (1 << (slot * 2)) != 0
    ensures (TagOf(tag, slot) & 2 != 0) <==> tag & (2 << (slot * 2)) != 0
  {
    if slot < 4 {
      if slot < 2 {
        if slot == 0 {} else {}
      } else {
        if slot == 2 {} else {}
      }
    } else {
      if slot < 6 {
        if slot == 4 {} else {}
      } else {
        if slot == 6 {} else {}
      }
    }
  }

  /** FPU_POP's tag update: OR 3 (empty) into the bit pair of `slot`. */
  function MarkEmpty(tag: bv16, slot: bv16): (r: bv16)
    requires slot < 8
    ensures TagOf(r, slot) == TAG_EMPTY
  {
    tag | (3 << (slot * 2))
  }

  lemma MarkEmptyElsewhere(tag: bv16, slot: bv16, j: bv16)
    requires slot < 8 && j < 8 && j != slot
    ensures TagOf(MarkEmpty(tag, slot), j) == TagOf(tag, j)
  {
  }

  /** `tag` with the bit pair of physical slot `slot` replaced by `pair`. */
  function PlaceTag(tag: bv16, pair: bv16, slot: bv16): (r: bv16)
    requires slot < 8
    ensures pair < 4 ==> TagOf(r, slot) == pair
  {
    (tag & !(3 << (slot << 1))) | (pair << (slot << 1))
  }

  /** The tag update of FSTP ST(i): the bit pair of physical slot `from` is
      copied into the bit pair of physical slot `to`. */
  function CopyTag(tag: bv16, from: bv16, to: bv16): (r: bv16)
    requires from < 8 && to < 8
    ensures TagOf(r, to) == TagOf(tag, from)
  {
    PlaceTag(tag, TagOf(tag, from), to)
  }

  lemma CopyTagElsewhere(tag: bv16, from: bv16, to: bv16, j: bv16)
    requires from < 8 && to < 8 && j < 8 && j != to
    ensures TagOf(CopyTag(tag, from, to), j) == TagOf(tag, j)
  {
  }
}
