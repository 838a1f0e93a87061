/** What one FPU instruction does to the FPU state, as a function.  Memory
    reads and the host's floating-point evaluation are inputs; bus writes and
    the value stored into AX are outputs. */
module X87Semantics {
  import opened X87Words
  import opened X87Stack
  import opened X87Decode

  datatype Option<T> = None | Some(value: T)

  /** One bus write: address and value of the given width. */
  datatype BusWrite =
    | Write16(addr: bv32, w16: bv16)
    | Write32(addr: bv32, w32: bv32)
    | Write64(addr: bv32, w64: bv64)

  /** The words READ16, READ32 and READ64 return at the effective address;
      an instruction reads at most one of them. */
  datatype BusReads = BusReads(w16: bv16, w32: bv32, w64: bv64)

  /** The results of host floating-point evaluation that an instruction
      needs: how ST(0) compares with the operand, the bits of the value an
      arithmetic, conversion or rounding operation produces, and the
      single-precision bits of ST(0) that a 32-bit store writes. */
  datatype Host = Host(order: Ordering, value: bv64, single: bv32)

  /** The two fatal conditions the handlers report. */
  datatype FatalKind =
    | UnimplementedOpcode  // an opcode the handler does not implement
    | DivideByZero         // an unhandled divide-by-zero exception

  datatype Outcome =
    | Done(writes: seq<BusWrite>, ax: Option<bv16>)
    | Fatal(kind: FatalKind)

  datatype Result = Result(out: Outcome, next: FpuState)

  // IEEE 754 binary64 encodings of the constants the D9 handler loads.
  const FLD1_BITS: bv64 := 0x3ff0_0000_0000_0000   // 1.0
  const FLDL2T_BITS: bv64 := 0x400a_934f_0979_a371 // 3.3219280948873623
  const FLDL2E_BITS: bv64 := 0x3ff7_1547_652b_82fe // 1.4426950408889634
  const FLDPI_BITS: bv64 := 0x4009_21fb_5444_2d18  // 3.141592653589793
  const FLDLG2_BITS: bv64 := 0x3fd3_4413_509f_79ff // 0.3010299956639812
  const FLDLN2_BITS: bv64 := 0x3fe6_2e42_fefa_39ec // 0.693147180559945
  const FLDZ_BITS: bv64 := 0                       // 0.0

  /** The constants in the order of their sub-opcodes 0x28-0x2e. */
  const CONSTANTS: seq<bv64> :=
    [FLD1_BITS, FLDL2T_BITS, FLDL2E_BITS, FLDPI_BITS, FLDLG2_BITS, FLDLN2_BITS, FLDZ_BITS]

  /** The values pushed for sub-opcode 0x28 + k, in push order.  FLD1 ends
      with a `break`; the cases from FLDL2T to FLDLN2 have none, so each
      falls through into the next until FLDZ. */
  function ConstRun(k: ConstIndex): (vals: seq<bv64>)
    ensures |vals| == if k == 0 then 1 else 7 - k
    ensures vals[|vals| - 1] == if k == 0 then FLD1_BITS else FLDZ_BITS
    ensures forall j :: 0 <= j < |vals| ==> vals[j] == CONSTANTS[k + j]
  {
    if k == 0 then [FLD1_BITS] else CONSTANTS[k..]
  }

  /** One more case of a fall-through run extends the run by that case's
      constant; the run that reaches FLDZ is the rest of the table. */
  lemma ConstantsSnoc(k: ConstIndex, j: ConstIndex)
    requires k <= j
    ensures CONSTANTS[k..j] + [CONSTANTS[j]] == CONSTANTS[k..j + 1]
    ensures j == 6 ==> CONSTANTS[k..j + 1] == CONSTANTS[k..]
  {
  }

  /** Bits 0-15 of a pointer, as FSTENV stores them. */
  function Low16(p: bv32): (w: bv16)
    ensures w as bv32 == p & 0xffff
  {
    (p & 0xffff) as bv16
  }

  /** Bits 16-19 of the instruction pointer shifted right by 4, into bits 12-15. */
  function IpHigh(ip: bv32): (w: bv16)
    ensures w & 0x0fff == 0
    ensures (w as bv32) << 4 == ip & 0x0f_0000
  {
    ((ip & 0x0f_0000) >> 4) as bv16
  }

  /** The word at ea+8: the low 11 opcode bits with the instruction pointer's bits 16-19 over them. */
  function OpcodeWord(opcode: bv16, ip: bv32): (w: bv16)
    ensures w & 0x07ff == opcode & 0x07ff
    ensures w & 0xf000 == IpHigh(ip)
    ensures w & 0x0800 == 0
  {
    (opcode & 0x07ff) | IpHigh(ip)
  }

  /** The seven-word image FSTENV writes at `ea`, at consecutive 16-bit
      addresses (wrapping like the 32-bit address arithmetic it models). */
  function EnvImage(ea: bv32, s: FpuState): (w: seq<BusWrite>)
    ensures |w| == 7
    ensures forall k :: 0 <= k < 7 ==> w[k].Write16?
    ensures w[0].addr == ea && w[1].addr == ea + 2 && w[2].addr == ea + 4 && w[3].addr == ea + 6
    ensures w[4].addr == ea + 8 && w[5].addr == ea + 10 && w[6].addr == ea + 12
    ensures w[0].w16 == s.control && w[1].w16 == s.status && w[2].w16 == s.tag
    ensures w[3].w16 == Low16(s.instPtr) && w[4].w16 == OpcodeWord(s.opcode, s.instPtr)
    ensures w[5].w16 == Low16(s.dataPtr) && w[6].w16 == IpHigh(s.instPtr)
  {
    [ Write16(ea, s.control),
      Write16(ea + 2, s.status),
      Write16(ea + 4, s.tag),
      Write16(ea + 6, Low16(s.instPtr)),
      Write16(ea + 8, OpcodeWord(s.opcode, s.instPtr)),
      Write16(ea + 10, Low16(s.dataPtr)),
      Write16(ea + 12, IpHigh(s.instPtr)) ]
  }

  /** A well-formed FSTENV image: seven 16-bit writes. */
  predicate IsEnvImage(w: seq<BusWrite>) {
    |w| == 7 && forall k :: 0 <= k < 7 ==> w[k].Write16?
  }

  /** The 20-bit instruction pointer read back from an image. */
  function ImageInstPtr(w: seq<BusWrite>): bv32
    requires IsEnvImage(w)
  {
    JoinPointer(w[3].w16, w[4].w16 & 0xf000)
  }

  /** A pointer from its low 16 bits and bits 16-19 held in bits 12-15 of `high`. */
  function JoinPointer(low: bv16, high: bv16): bv32 {
    ((high as bv32) << 4) | (low as bv32)
  }

  /** The two pieces FSTENV splits the instruction pointer into join back
      into its low 20 bits. */
  lemma JoinInstPtr(ip: bv32)
    ensures JoinPointer(Low16(ip), IpHigh(ip)) == ip & 0x0f_ffff
  {
    assert (ip & 0x0f_0000) | (ip & 0xffff) == ip & 0x0f_ffff;
  }

  lemma ImageInstPtrOf(w: seq<BusWrite>, ip: bv32)
    requires IsEnvImage(w) && w[3].w16 == Low16(ip) && w[4].w16 & 0xf000 == IpHigh(ip)
    ensures ImageInstPtr(w) == ip & 0x0f_ffff
  {
    JoinInstPtr(ip);
  }

  /** Reading an image back recovers the saved words, the low 20 bits of
      the instruction pointer, the low 11 bits of the opcode and the low
      16 bits of the data pointer; the last word repeats the pointer's
      high bits. */
  lemma EnvImageRoundTrip(ea: bv32, s: FpuState)
    ensures IsEnvImage(EnvImage(ea, s))
    ensures ImageInstPtr(EnvImage(ea, s)) == s.instPtr & 0x0f_ffff
    ensures EnvImage(ea, s)[4].w16 & 0x07ff == s.opcode & 0x07ff
    ensures EnvImage(ea, s)[5].w16 as bv32 == s.dataPtr & 0xffff
    ensures EnvImage(ea, s)[6].w16 == EnvImage(ea, s)[4].w16 & 0xf000
  {
    var w := EnvImage(ea, s);
    ImageInstPtrOf(w, s.instPtr);
  }

  /** The FSTSW image of the state. */
  function StatusWithTop(s: FpuState): (w: bv16)
    ensures (w >> 11) & 3 == SlotWord(s.top) >> 1
    ensures (w >> 10) & 1 == ((s.status >> 10) | SlotWord(s.top)) & 1
    ensures w & 0x2000 == 0
    ensures w & 0xc3ff == s.status & 0xc3ff
  {
    StatusImage(s.status, SlotWord(s.top))
  }

  /** Whether the divide `kind` with operand `src` halts on a zero divisor:
      the memory forms test the memory operand (the 32-bit word as an
      integer, the 64-bit word as a double), the register FDIV tests ST(i)
      and the register FDIVR tests ST(0). */
  function DivideHalts(s: FpuState, kind: ArithKind, src: Operand, bus: BusReads): (halts: bool)
    ensures halts ==> kind == Div || kind == DivR
    ensures src.Mem32? ==> (halts <==> (kind == Div || kind == DivR) && bus.w32 == 0)
    ensures src.Mem64? ==> (halts <==> (kind == Div || kind == DivR) && IsZeroDouble(bus.w64))
    ensures src.Reg? ==> (halts <==> (kind == Div && IsZeroDouble(ST(s, src.i))) ||
                                     (kind == DivR && IsZeroDouble(ST(s, 0))))
  {
    (kind == Div || kind == DivR) &&
    match src
    case Mem32 => bus.w32 == 0
    case Mem64 => IsZeroDouble(bus.w64)
    case Reg(i) => IsZeroDouble(if kind == Div then ST(s, i) else ST(s, 0))
  }

  function Continue(s: FpuState): Result {
    Result(Done([], None), s)
  }

  function Store(w: BusWrite, s: FpuState): Result {
    Result(Done([w], None), s)
  }

  /** Pop when `pop` holds. */
  function PopIf(pop: bool, s: FpuState): FpuState {
    if pop then Popped(s).1 else s
  }

  /** The register divides' zero-divide path writes `ZeroDivideResult` into
      ST(i); otherwise ST(i) takes the host's quotient. */
  function DivideInto(s: FpuState, i: Slot, divisor: bv64, quotient: bv64): (r: FpuState)
    ensures !IsZeroDouble(divisor) ==> ST(r, i) == quotient
    ensures IsZeroDouble(divisor) && s.control & MASK_ZERO_DIVIDE == 0 ==> r == s
    ensures IsZeroDouble(divisor) && s.control & MASK_ZERO_DIVIDE != 0 ==> IsZeroDouble(ST(s, i)) ==>
      IsInfinityDouble(ST(r, i))
    ensures forall y: Slot :: y != i ==> ST(r, y) == ST(s, y)
    ensures r.top == s.top && r.tag == s.tag && r.status == s.status && r.control == s.control
  {
    if IsZeroDouble(divisor) then SetST(s, i, ZeroDivideResult(ST(s, i), s.control))
    else SetST(s, i, quotient)
  }

  /** The state FSTP ST(i) pops from: ST(i) := ST(0), and the tag pair of
      physical slot `top` copied into physical slot i. */
  function FstpCopied(s: FpuState, i: Slot): (r: FpuState)
    ensures ST(r, i) == ST(s, 0)
    ensures forall y: Slot :: y != i ==> ST(r, y) == ST(s, y)
    ensures Tag(r, i) == Tag(s, s.top)
    ensures r.top == s.top && r.status == s.status && r.control == s.control
  {
    SetST(s, i, ST(s, 0)).(tag := CopyTag(s.tag, SlotWord(s.top), SlotWord(i)))
  }

  /** One instruction: the outcome and the next state.  A fatal outcome
      leaves the state as it was. */
  function Step(s: FpuState, op: Op, ea: bv32, bus: BusReads, host: Host): (r: Result)
    ensures r.out.Fatal? ==> r.next == s
    ensures r.out.Fatal? && r.out.kind == UnimplementedOpcode <==> op == Unimplemented
    ensures r.out.Fatal? && r.out.kind == DivideByZero <==> op.Arith? && DivideHalts(s, op.kind, op.src, bus)
    ensures r.out.Done? && r.out.ax.Some? <==> op == FstswAx
  {
    match op
    case Unimplemented => Result(Fatal(UnimplementedOpcode), s)
    case Arith(kind, src) =>
      if DivideHalts(s, kind, src, bus) then Result(Fatal(DivideByZero), s)
      else Continue(SetST(s, 0, host.value))
    case Fcom(_, pop) => Continue(PopIf(pop, s.(status := CompareFlags(s.status, host.order))))
    case Ftst => Continue(s.(status := CompareFlags(s.status, host.order)))
    case Fcompp => Continue(Popped(Popped(s.(status := CompareFlagsPP(s.status, host.order))).1).1)
    case FldSingle => Continue(Pushed(s, bus.w32 as bv64))
    case FldDouble => Continue(Pushed(s, bus.w64))
    case FldSt(i) => Continue(Pushed(s, ST(s, i)))
    case FildInt32 => Continue(Pushed(s, host.value))
    case FildInt64 => Continue(Pushed(s, host.value))
    case FstSingle(pop) => Store(Write32(ea, host.single), PopIf(pop, s))
    case FstDouble(pop) => Store(Write64(ea, ST(s, 0)), PopIf(pop, s))
    case FstpSt(i) => Continue(Popped(FstpCopied(s, i)).1)
    case FistpInt64 => Store(Write64(ea, host.value), Popped(s).1)
    case Fldcw => Continue(s.(control := bus.w16))
    case Fstcw => Store(Write16(ea, s.control), s)
    case Fstenv => Result(Done(EnvImage(ea, s), None), s)
    case FstswMem => Store(Write16(ea, StatusWithTop(s)), s)
    case FstswAx => Result(Done([], Some(StatusWithTop(s))), s)
    case Fxch(i) => Continue(SetST(SetST(s, 0, ST(s, i)), i, ST(s, 0)))
    case Fnop => Continue(s)
    case Fchs => Continue(SetST(s, 0, ChangeSign(ST(s, 0))))
    case Fabs => Continue(SetST(s, 0, host.value))
    case FldConst(k) => Continue(PushAll(s, ConstRun(k)))
    case F2xm1 => Continue(SetST(s, 0, host.value))
    case Fyl2x => Continue(Popped(SetST(s, 1, host.value)).1)
    case Frndint => Continue(SetST(s, 0, host.value))
    case Fclex => Continue(s.(status := ClearExceptions(s.status)))
    case Finit =>
      Continue(s.(control := CONTROL_RESET, status := 0, tag := 0xffff, dataPtr := 0, instPtr := 0, opcode := 0))
    case Fsetpm => Continue(s)
    case FdivrSt(i) => Continue(DivideInto(s, i, ST(s, i), host.value))
    case ArithPop(_, i) => Continue(Popped(SetST(s, i, host.value)).1)
    case Fdivp(i) => Continue(Popped(DivideInto(s, i, ST(s, 0), host.value)).1)
  }
}
