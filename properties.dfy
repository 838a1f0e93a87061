/** Properties of single instructions and of short instruction sequences,
    stated on `Step`. */
module X87Properties {
  import opened X87Words
  import opened X87Stack
  import opened X87Decode
  import opened X87Semantics
  import opened X87Steps

  // ---------------------------------------------------------------- loads

  /** FLD ST(i) pushes the value ST(i) had before the push. */
  lemma FldStPushesCopy(s: FpuState, i: Slot, ea: bv32, bus: BusReads, host: Host)
    ensures var r := Step(s, FldSt(i), ea, bus, host);
      r.out == Done([], None) &&
      ST(r.next, 0) == ST(s, i) &&
      r.next.top == (s.top + 7) % 8 &&
      (forall x: Slot :: x < 7 ==> ST(r.next, x + 1) == ST(s, x)) &&
      r.next.tag == s.tag && r.next.status == s.status
  {
  }

  /** FLD of a 32-bit word zero-extends it into the register without conversion. */
  lemma FldSingleZeroExtends(s: FpuState, ea: bv32, bus: BusReads, host: Host)
    ensures var r := Step(s, FldSingle, ea, bus, host);
      ST(r.next, 0) & 0xffff_ffff == bus.w32 as bv64 && ST(r.next, 0) >> 32 == 0
  {
  }

  /** A 64-bit FST of ST(0) followed by a 64-bit FLD of the stored word
      pushes an exact copy of ST(0). */
  lemma StoreThenLoadDouble(s: FpuState, ea: bv32, pop: bool, bus: BusReads, host: Host)
    ensures var r := Step(s, FstDouble(pop), ea, bus, host);
      r.out.Done? && r.out.writes == [Write64(ea, ST(s, 0))] &&
      ST(Step(r.next, FldDouble, ea, bus.(w64 := r.out.writes[0].w64), host).next, 0) == ST(s, 0)
  {
  }

  // ------------------------------------------------------- FXCH and FCHS

  /** FXCH swaps ST(0) and ST(i) and changes nothing else. */
  lemma FxchSwaps(s: FpuState, i: Slot, ea: bv32, bus: BusReads, host: Host)
    ensures var r := Step(s, Fxch(i), ea, bus, host);
      r.out == Done([], None) &&
      ST(r.next, 0) == ST(s, i) && ST(r.next, i) == ST(s, 0) &&
      (forall y: Slot :: y != 0 && y != i ==> ST(r.next, y) == ST(s, y)) &&
      r.next == s.(reg := r.next.reg)
  {
  }

  /** FXCH ST(0) is a no-op. */
  lemma FxchSelf(s: FpuState, ea: bv32, bus: BusReads, host: Host)
    ensures Step(s, Fxch(0), ea, bus, host).next == s
  {
    SetSTSame(s, 0);
  }

  /** FCHS flips bit 63 of ST(0) only, so that two of them restore the state. */
  lemma FchsTwice(s: FpuState, ea: bv32, bus: BusReads, host: Host)
    ensures var r := Step(s, Fchs, ea, bus, host);
      r.out == Done([], None) &&
      ST(r.next, 0) ^ ST(s, 0) == SIGN_BIT_DOUBLE &&
      (forall y: Slot :: y != 0 ==> ST(r.next, y) == ST(s, y)) &&
      r.next.(reg := s.reg) == s &&
      Step(r.next, Fchs, ea, bus, host).next == s
  {
    var t := Step(s, Fchs, ea, bus, host).next;
    ChangeSignInvolutive(ST(s, 0));
    assert SetST(t, 0, ChangeSign(ST(t, 0))) == SetST(s, 0, ST(s, 0));
    SetSTSame(s, 0);
  }

  // --------------------------------------------------------- comparisons

  /** FCOM and FCOMP: the flags as `CompareFlags` sets them, no register
      changes, and one pop for FCOMP. */
  lemma FcomEffect(s: FpuState, src: Operand, pop: bool, ea: bv32, bus: BusReads, host: Host)
    ensures var r := Step(s, Fcom(src, pop), ea, bus, host);
      r.out == Done([], None) &&
      r.next.status == CompareFlags(s.status, host.order) &&
      r.next.reg == s.reg &&
      r.next.top == (s.top + (if pop then 1 else 0)) % 8 &&
      (pop ==> Tag(r.next, s.top) == TAG_EMPTY) &&
      (pop ==> forall p: Slot :: p != s.top ==> Tag(r.next, p) == Tag(s, p)) &&
      (!pop ==> r.next.tag == s.tag) &&
      r.next.control == s.control && r.next.opcode == s.opcode &&
      r.next.instPtr == s.instPtr && r.next.dataPtr == s.dataPtr
  {
    if pop {
      var flagged := s.(status := CompareFlags(s.status, host.order));
      forall p: Slot | p != s.top
        ensures Tag(Popped(flagged).1, p) == Tag(s, p)
      {
        PopTagFrame(flagged, p);
      }
    }
  }

  /** FCOMPP: the flags as `CompareFlagsPP` sets them, then two pops that
      mark both old stack slots empty. */
  lemma FcomppEffect(s: FpuState, ea: bv32, bus: BusReads, host: Host)
    ensures var r := Step(s, Fcompp, ea, bus, host);
      r.out == Done([], None) &&
      r.next.status == CompareFlagsPP(s.status, host.order) &&
      r.next.reg == s.reg &&
      r.next.top == (s.top + 2) % 8 &&
      Tag(r.next, s.top) == TAG_EMPTY &&
      Tag(r.next, Phys(s.top, 1)) == TAG_EMPTY
  {
    var s0 := s.(status := CompareFlagsPP(s.status, host.order));
    var s1 := Popped(s0).1;
    PopTagFrame(s1, s.top);
  }

  // ---------------------------------------------- FSTENV, FLDCW, FSTSW

  /** The 16-bit word a read at `addr` sees after the 16-bit writes `log`,
      where `mem` is what memory held before. */
  function Read16(log: seq<BusWrite>, addr: bv32, mem: bv16): (v: bv16)
    requires forall k :: 0 <= k < |log| ==> log[k].Write16?
    ensures v == mem || exists k :: 0 <= k < |log| && log[k].addr == addr && log[k].w16 == v
    decreases |log|
  {
    if log == [] then mem
    else
      var last := log[|log| - 1];
      if last.addr == addr then last.w16 else Read16(log[..|log| - 1], addr, mem)
  }

  /** A read sees the latest write to its address. */
  lemma {:induction false} Read16Latest(log: seq<BusWrite>, k: nat, addr: bv32, mem: bv16)
    requires forall j :: 0 <= j < |log| ==> log[j].Write16?
    requires k < |log| && log[k].addr == addr
    requires forall j :: k < j < |log| ==> log[j].addr != addr
    ensures Read16(log, addr, mem) == log[k].w16
    decreases |log|
  {
    if k < |log| - 1 {
      Read16Latest(log[..|log| - 1], k, addr, mem);
    }
  }

  /** Reading back a FSTENV image returns the control, status and tag
      words at ea, ea+2 and ea+4, whatever memory held before. */
  lemma EnvImageReadBack(ea: bv32, s: FpuState, mem: bv16)
    ensures Read16(EnvImage(ea, s), ea, mem) == s.control
    ensures Read16(EnvImage(ea, s), ea + 2, mem) == s.status
    ensures Read16(EnvImage(ea, s), ea + 4, mem) == s.tag
  {
    var w := EnvImage(ea, s);
    Read16Latest(w, 0, ea, mem);
    Read16Latest(w, 1, ea + 2, mem);
    Read16Latest(w, 2, ea + 4, mem);
  }

  /** FSTENV changes no FPU state, and a later FLDCW from the same address
      restores the control word it saved. */
  lemma FstenvThenFldcw(s: FpuState, t: FpuState, ea: bv32, bus: BusReads, host: Host, mem: bv16)
    ensures var r := Step(s, Fstenv, ea, bus, host);
      r.next == s && r.out.Done? &&
      Step(t, Fldcw, ea, bus.(w16 := Read16(r.out.writes, ea, mem)), host).next == t.(control := s.control)
  {
    EnvImageReadBack(ea, s, mem);
  }

  /** The memory and AX forms of FSTSW produce the same image and leave the
      state alone; the image has the stack top in bits 10-12 and 0 in bit 13. */
  lemma FstswForms(s: FpuState, ea: bv32, bus: BusReads, host: Host)
    ensures var m := Step(s, FstswMem, ea, bus, host);
            var a := Step(s, FstswAx, ea, bus, host);
      m.next == s && a.next == s &&
      m.out == Done([Write16(ea, StatusWithTop(s))], None) &&
      a.out == Done([], Some(StatusWithTop(s))) &&
      (StatusWithTop(s) >> 11) & 3 == SlotWord(s.top) >> 1 &&
      StatusWithTop(s) & 0x2000 == 0 &&
      StatusWithTop(s) & 0xc3ff == s.status & 0xc3ff
  {
  }

  // ---------------------------------------------------- FINIT and FCLEX

  /** FINIT resets the control, status and tag words and the pointers and
      opcode; the registers and the stack top are left as they were. */
  lemma FinitReset(s: FpuState, ea: bv32, bus: BusReads, host: Host)
    ensures var r := Step(s, Finit, ea, bus, host).next;
      r.control == 0x037f && r.status == 0 && r.tag == 0xffff &&
      r.dataPtr == 0 && r.instPtr == 0 && r.opcode == 0 &&
      r.reg == s.reg && r.top == s.top &&
      forall p: Slot :: Tag(r, p) == TAG_EMPTY
  {
  }

  /** FCLEX clears bits 0-7 and 15 of the status word and keeps the rest;
      nothing else changes. */
  lemma FclexClears(s: FpuState, ea: bv32, bus: BusReads, host: Host)
    ensures var r := Step(s, Fclex, ea, bus, host).next;
      r.status & 0x80ff == 0 && r.status & 0x7f00 == s.status & 0x7f00 &&
      r == s.(status := r.status)
  {
  }

  // ------------------------------------------------------ constant loads

  /** The number of registers the constant load of sub-opcode 0x28 + k pushes. */
  function ConstPushCount(k: ConstIndex): nat {
    |ConstRun(k)|
  }

  /** The constant loads push 1, 6, 5, 4, 3, 2 and 1 registers for
      sub-opcodes 0x28 to 0x2e. */
  lemma ConstPushCounts(k: ConstIndex)
    ensures ConstPushCount(k) == [1, 6, 5, 4, 3, 2, 1][k]
  {
  }

  /** The pushes of a constant load on the state itself. */
  lemma ConstRunEffect(s: FpuState, k: ConstIndex)
    ensures var t := PushAll(s, ConstRun(k));
      t.top == (s.top - ConstPushCount(k)) % 8 &&
      ST(t, 0) == (if k == 0 then FLD1_BITS else FLDZ_BITS) &&
      t.tag == s.tag && t.status == s.status && t.control == s.control
  {
    var vals := ConstRun(k);
    assert vals != [] && vals[|vals| - 1] == if k == 0 then FLD1_BITS else FLDZ_BITS;
  }

  /** Every constant load from 0x29 on leaves 0.0 in ST(0), FLD1 leaves 1.0;
      the top drops by the push count modulo 8, and the words do not change. */
  lemma ConstantLoadEffect(s: FpuState, k: ConstIndex, ea: bv32, bus: BusReads, host: Host)
    ensures var r := Step(s, FldConst(k), ea, bus, host);
      r.out == Done([], None) &&
      r.next.top == (s.top - ConstPushCount(k)) % 8 &&
      ST(r.next, 0) == (if k == 0 then FLD1_BITS else FLDZ_BITS) &&
      r.next.tag == s.tag && r.next.status == s.status && r.next.control == s.control
  {
    StepLoadConstant(s, k, ea, bus, host);
    ConstRunEffect(s, k);
  }

  /** After the pushes of a constant load, ST(j) holds the j-th constant
      counted back from the last one pushed. */
  lemma ConstRunValues(s: FpuState, k: ConstIndex, j: Slot)
    requires j < ConstPushCount(k)
    ensures ST(PushAll(s, ConstRun(k)), j) == CONSTANTS[k + ConstPushCount(k) - 1 - j]
  {
    var vals := ConstRun(k);
    var n := |vals|;
    PushAllValues(s, vals, j);
    assert vals[n - 1 - j] == CONSTANTS[k + (n - 1 - j)];
  }

  /** The registers that were on the stack before a constant load sit
      ConstPushCount(k) places deeper after it. */
  lemma ConstRunOlder(s: FpuState, k: ConstIndex, j: Slot)
    requires j + ConstPushCount(k) < 8
    ensures ST(PushAll(s, ConstRun(k)), j + ConstPushCount(k)) == ST(s, j)
  {
    PushAllOlder(s, ConstRun(k), j);
  }

  /** After a constant load, ST(j) holds the constant pushed j pushes before
      the last one, and the registers below sit ConstPushCount(k) places deeper. */
  lemma ConstantLoadStack(s: FpuState, k: ConstIndex, ea: bv32, bus: BusReads, host: Host, j: Slot)
    ensures var r := Step(s, FldConst(k), ea, bus, host).next;
      (j < ConstPushCount(k) ==> ST(r, j) == CONSTANTS[k + ConstPushCount(k) - 1 - j]) &&
      (j + ConstPushCount(k) < 8 ==> ST(r, j + ConstPushCount(k)) == ST(s, j))
  {
    StepLoadConstant(s, k, ea, bus, host);
    if j < ConstPushCount(k) {
      ConstRunValues(s, k, j);
    }
    if j + ConstPushCount(k) < 8 {
      ConstRunOlder(s, k, j);
    }
  }

  // -------------------------------------------------------- zero divides

  /** Register FDIVR with a zero ST(i) writes `ZeroDivideResult` into ST(i);
      it never pops and never touches the status word. */
  lemma FdivrStZeroDivide(s: FpuState, i: Slot, ea: bv32, bus: BusReads, host: Host)
    requires IsZeroDouble(ST(s, i))
    ensures var r := Step(s, FdivrSt(i), ea, bus, host);
      r.out == Done([], None) &&
      ST(r.next, i) == ZeroDivideResult(ST(s, i), s.control) &&
      (s.control & MASK_ZERO_DIVIDE != 0 ==> IsInfinityDouble(ST(r.next, i))) &&
      (s.control & MASK_ZERO_DIVIDE == 0 ==> r.next == s)
  {
    if s.control & MASK_ZERO_DIVIDE != 0 {
      ZeroBecomesSignedInfinity(ST(s, i), s.control);
    } else {
      SetSTSame(s, i);
    }
  }

  /** Register FDIVR never pops and keeps the status word, zero divisor or not. */
  lemma FdivrStKeepsStack(s: FpuState, i: Slot, ea: bv32, bus: BusReads, host: Host)
    ensures var r := Step(s, FdivrSt(i), ea, bus, host).next;
      r.top == s.top && r.tag == s.tag && r.status == s.status &&
      forall y: Slot :: y != i ==> ST(r, y) == ST(s, y)
  {
  }

  /** FDIVP with a zero ST(0) rewrites ST(i) through `ZeroDivideResult`, then
      always pops; the status word is never touched. */
  lemma FdivpZeroDivide(s: FpuState, i: Slot, ea: bv32, bus: BusReads, host: Host)
    ensures var r := Step(s, Fdivp(i), ea, bus, host);
      r.out == Done([], None) &&
      r.next.top == (s.top + 1) % 8 &&
      r.next.status == s.status &&
      Tag(r.next, s.top) == TAG_EMPTY &&
      (IsZeroDouble(ST(s, 0)) ==>
        r.next.reg[Phys(s.top, i)] == ZeroDivideResult(ST(s, i), s.control))
  {
    var d := DivideInto(s, i, ST(s, 0), host.value);
    assert Step(s, Fdivp(i), ea, bus, host) == Continue(Popped(d).1);
    if IsZeroDouble(ST(s, 0)) {
      assert d.reg == s.reg[Phys(s.top, i) := ZeroDivideResult(ST(s, i), s.control)];
    }
  }

  /** The memory divides halt on a zero divisor without changing the state,
      and otherwise store the host's quotient into ST(0): D8 FDIV and FDIVR
      test the 32-bit word as an integer, DC FDIV tests the 64-bit word for
      +0.0 or -0.0. */
  lemma MemoryDivideHalts(s: FpuState, modrm: bv8, ea: bv32, bus: BusReads, host: Host)
    requires modrm < 0xc0
    ensures RegField(modrm) >= 6 && bus.w32 == 0 ==>
      Step(s, Decode(D8, modrm), ea, bus, host) == Result(Fatal(DivideByZero), s)
    ensures RegField(modrm) >= 6 && bus.w32 != 0 ==>
      Step(s, Decode(D8, modrm), ea, bus, host) == Result(Done([], None), SetST(s, 0, host.value))
    ensures RegField(modrm) == 6 && IsZeroDouble(bus.w64) ==>
      Step(s, Decode(DC, modrm), ea, bus, host) == Result(Fatal(DivideByZero), s)
    ensures RegField(modrm) == 6 && !IsZeroDouble(bus.w64) ==>
      Step(s, Decode(DC, modrm), ea, bus, host) == Result(Done([], None), SetST(s, 0, host.value))
  {
    if RegField(modrm) >= 6 {
      var kind := if RegField(modrm) == 6 then Div else DivR;
      assert Decode(D8, modrm) == Arith(kind, Mem32);
    }
    if RegField(modrm) == 6 {
      assert Decode(DC, modrm) == Arith(Div, Mem64);
    }
  }

  /** The register forms of D8's FDIV and FDIVR halt exactly when their
      divisor is zero: ST(i) for FDIV, ST(0) for FDIVR.  Otherwise the
      host's quotient goes into ST(0). */
  lemma RegisterDivideHalts(s: FpuState, modrm: bv8, ea: bv32, bus: BusReads, host: Host)
    requires modrm >= 0xc0 && SubOp(modrm) >= 0x30
    ensures var r := Step(s, Decode(D8, modrm), ea, bus, host);
      (SubOp(modrm) < 0x38 ==> (r.out.Fatal? <==> IsZeroDouble(ST(s, RmIndex(modrm))))) &&
      (SubOp(modrm) >= 0x38 ==> (r.out.Fatal? <==> IsZeroDouble(ST(s, 0)))) &&
      (r.out.Fatal? ==> r == Result(Fatal(DivideByZero), s)) &&
      (!r.out.Fatal? ==> r == Result(Done([], None), SetST(s, 0, host.value)))
  {
    var kind := if SubOp(modrm) < 0x38 then Div else DivR;
    assert Decode(D8, modrm) == Arith(kind, Reg(RmIndex(modrm)));
  }

  /** A register divide halts only in group D8: the register form of DC
      (FDIVR into ST(i)) halts only on its unimplemented sub-opcodes. */
  lemma RegisterFdivrCompletes(s: FpuState, modrm: bv8, ea: bv32, bus: BusReads, host: Host)
    requires modrm >= 0xc0
    ensures Step(s, Decode(DC, modrm), ea, bus, host).out.Fatal? <==> Decode(DC, modrm) == Unimplemented
  {
    var op := DCRegisterOp(SubOp(modrm), RmIndex(modrm));
    assert Decode(DC, modrm) == op && !op.Arith?;
  }

  /** Likewise the register form of DE (FADDP, FMULP, FCOMPP, FDIVP). */
  lemma RegisterFdivpCompletes(s: FpuState, modrm: bv8, ea: bv32, bus: BusReads, host: Host)
    requires modrm >= 0xc0
    ensures Step(s, Decode(DE, modrm), ea, bus, host).out.Fatal? <==> Decode(DE, modrm) == Unimplemented
  {
    var op := DERegisterOp(SubOp(modrm), RmIndex(modrm));
    assert Decode(DE, modrm) == op && !op.Arith?;
  }

  // ------------------------------------------------------------ FSTP ST(i)

  /** The tag pairs after FSTP ST(i). */
  lemma FstpTags(s: FpuState, i: Slot, p: Slot)
    ensures var r := Popped(FstpCopied(s, i)).1;
      Tag(r, s.top) == TAG_EMPTY &&
      (i != s.top ==> Tag(r, i) == Tag(s, s.top)) &&
      (p != s.top && p != i ==> Tag(r, p) == Tag(s, p))
  {
    var tagged := FstpCopied(s, i);
    if i != s.top {
      PopTagFrame(tagged, i);
    }
    if p != s.top && p != i {
      PopTagFrame(tagged, p);
      SlotWordInjective(p, i);
      CopyTagElsewhere(s.tag, SlotWord(s.top), SlotWord(i), SlotWord(p));
    }
  }

  /** FSTP ST(i) copies ST(0) into ST(i) and pops, so that the value lands in
      the new ST(i-1).  Its tag update uses physical slot numbers: the tag
      pair of physical slot `top` is copied into physical slot i (not into
      the slot ST(i) occupies), then the pop marks physical slot `top` empty;
      the other pairs are kept. */
  lemma FstpStEffect(s: FpuState, i: Slot, ea: bv32, bus: BusReads, host: Host, p: Slot)
    ensures var r := Step(s, FstpSt(i), ea, bus, host).next;
      r.top == (s.top + 1) % 8 &&
      (i > 0 ==> ST(r, i - 1) == ST(s, 0)) &&
      Tag(r, s.top) == TAG_EMPTY &&
      (i != s.top ==> Tag(r, i) == Tag(s, s.top)) &&
      (p != s.top && p != i ==> Tag(r, p) == Tag(s, p))
  {
    assert Step(s, FstpSt(i), ea, bus, host).next == Popped(FstpCopied(s, i)).1;
    FstpTags(s, i, p);
  }

  // --------------------------------------------------------- a sequence

  /** FLDZ, FLDZ, FCOMPP, where the host compares the two zeros as zeros
      compare: C3 is set, C2
      and C0 are clear, and the stack is back at its starting depth with the
      registers below untouched; the two popped zeros stay in ST(6) and ST(7). */
  lemma LoadZerosThenCompare(s: FpuState, ea: bv32, bus: BusReads, host: Host)
    requires OrderingAgrees(FLDZ_BITS, FLDZ_BITS, host.order)
    ensures var s1 := Step(s, Decode(D9, 0xee), ea, bus, host).next;
            var s2 := Step(s1, Decode(D9, 0xee), ea, bus, host).next;
            var s3 := Step(s2, Decode(DE, 0xd9), ea, bus, host).next;
      s3.top == s.top &&
      s3.status & C3 != 0 && s3.status & C2 == 0 && s3.status & C0 == 0 &&
      (forall x: Slot :: x < 6 ==> ST(s3, x) == ST(s, x)) &&
      ST(s3, 6) == FLDZ_BITS && ST(s3, 7) == FLDZ_BITS
  {
    assert host.order == Equal by {
      assert IsZeroDouble(FLDZ_BITS);
    }
    assert Decode(D9, 0xee) == FldConst(6);
    assert Decode(DE, 0xd9) == Fcompp;
    assert ConstRun(6) == [FLDZ_BITS];
    var s1 := Pushed(s, FLDZ_BITS);
    StepLoadConstant(s, 6, ea, bus, host);
    PushAllOne(s, FLDZ_BITS);
    var s2 := Pushed(s1, FLDZ_BITS);
    StepLoadConstant(s1, 6, ea, bus, host);
    PushAllOne(s1, FLDZ_BITS);
    StepCompareTwice(s2, ea, bus, host);
    var s3 := Popped(Popped(s2.(status := CompareFlagsPP(s2.status, host.order))).1).1;
    assert s3.reg == s2.reg && s3.top == s.top;
  }

  // ------------------------------------------------------ fatal outcomes

  /** Group DA and the memory form of DE halt for every ModR/M byte, without
      changing the state. */
  lemma UnimplementedGroups(s: FpuState, modrm: bv8, ea: bv32, bus: BusReads, host: Host)
    ensures Step(s, Decode(DA, modrm), ea, bus, host) == Result(Fatal(UnimplementedOpcode), s)
    ensures modrm < 0xc0 ==>
      Step(s, Decode(DE, modrm), ea, bus, host) == Result(Fatal(UnimplementedOpcode), s)
  {
  }
}
