/** What `Step` does in each branch of the escape-group handlers, one
    lemma per branch.  The handlers in X87Fpu call the lemma of the branch
    they take, so that a handler's proof only has to match that branch's
    effect instead of unfolding all of `Step` over the heap. */
module X87Steps {
  import opened X87Words
  import opened X87Stack
  import opened X87Decode
  import opened X87Semantics

  // Group D8.

  lemma StepD8Arith(s: FpuState, sel: nat, src: Operand, ea: bv32, bus: BusReads, host: Host)
    requires sel == 0 || sel == 1 || sel == 4 || sel == 5
    ensures Step(s, D8Op(sel, src), ea, bus, host) == Continue(SetST(s, 0, host.value))
  {
  }

  lemma StepD8Fcom(s: FpuState, sel: nat, src: Operand, ea: bv32, bus: BusReads, host: Host)
    requires sel == 2 || sel == 3
    ensures Step(s, D8Op(sel, src), ea, bus, host)
      == Continue(PopIf(sel == 3, s.(status := CompareFlags(s.status, host.order))))
  {
  }

  lemma StepD8Divide(s: FpuState, sel: nat, src: Operand, ea: bv32, bus: BusReads, host: Host)
    requires sel == 6 || sel == 7
    ensures Step(s, D8Op(sel, src), ea, bus, host)
      == if DivideHalts(s, if sel == 6 then Div else DivR, src, bus) then Result(Fatal(DivideByZero), s)
         else Continue(SetST(s, 0, host.value))
  {
    assert D8Op(sel, src) == Arith(if sel == 6 then Div else DivR, src);
  }

  // Group D9, memory form.

  lemma StepFldSingle(s: FpuState, ea: bv32, bus: BusReads, host: Host)
    ensures Step(s, D9MemoryOp(0), ea, bus, host) == Continue(Pushed(s, bus.w32 as bv64))
  {
  }

  lemma StepFstSingle(s: FpuState, sel: nat, ea: bv32, bus: BusReads, host: Host)
    requires sel == 2 || sel == 3
    ensures Step(s, D9MemoryOp(sel), ea, bus, host) == Store(Write32(ea, host.single), PopIf(sel == 3, s))
  {
  }

  lemma StepFldcw(s: FpuState, ea: bv32, bus: BusReads, host: Host)
    ensures Step(s, D9MemoryOp(5), ea, bus, host) == Continue(s.(control := bus.w16))
  {
  }

  lemma StepFstenv(s: FpuState, ea: bv32, bus: BusReads, host: Host)
    ensures Step(s, D9MemoryOp(6), ea, bus, host) == Result(Done(EnvImage(ea, s), None), s)
  {
  }

  lemma StepFstcw(s: FpuState, ea: bv32, bus: BusReads, host: Host)
    ensures Step(s, D9MemoryOp(7), ea, bus, host) == Store(Write16(ea, s.control), s)
  {
  }

  // Group D9, register form.

  lemma StepFldSt(s: FpuState, sub: nat, i: Slot, ea: bv32, bus: BusReads, host: Host)
    requires sub < 0x08
    ensures Step(s, D9RegisterOp(sub, i), ea, bus, host) == Continue(Pushed(s, ST(s, i)))
  {
  }

  lemma StepFxch(s: FpuState, sub: nat, i: Slot, ea: bv32, bus: BusReads, host: Host)
    requires 0x08 <= sub < 0x10
    ensures Step(s, D9RegisterOp(sub, i), ea, bus, host) == Continue(SetST(SetST(s, 0, ST(s, i)), i, ST(s, 0)))
  {
  }

  lemma StepFnop(s: FpuState, i: Slot, ea: bv32, bus: BusReads, host: Host)
    ensures Step(s, D9RegisterOp(0x10, i), ea, bus, host) == Continue(s)
  {
  }

  lemma StepFchs(s: FpuState, i: Slot, ea: bv32, bus: BusReads, host: Host)
    ensures Step(s, D9RegisterOp(0x20, i), ea, bus, host) == Continue(SetST(s, 0, ChangeSign(ST(s, 0))))
  {
  }

  /** FABS, F2XM1 and FRNDINT: ST(0) takes the host's result. */
  lemma StepD9Unary(s: FpuState, sub: nat, i: Slot, ea: bv32, bus: BusReads, host: Host)
    requires sub == 0x21 || sub == 0x30 || sub == 0x3c
    ensures Step(s, D9RegisterOp(sub, i), ea, bus, host) == Continue(SetST(s, 0, host.value))
  {
    var op := D9RegisterOp(sub, i);
    assert op == Fabs || op == F2xm1 || op == Frndint;
  }

  lemma StepFtst(s: FpuState, i: Slot, ea: bv32, bus: BusReads, host: Host)
    ensures Step(s, D9RegisterOp(0x24, i), ea, bus, host)
      == Continue(s.(status := CompareFlags(s.status, host.order)))
  {
  }

  lemma StepFldConst(s: FpuState, sub: nat, i: Slot, ea: bv32, bus: BusReads, host: Host)
    requires 0x28 <= sub <= 0x2e
    ensures Step(s, D9RegisterOp(sub, i), ea, bus, host) == Continue(PushAll(s, ConstRun(sub - 0x28)))
  {
    var k: ConstIndex := sub - 0x28;
    var op := D9RegisterOp(sub, i);
    assert op == FldConst(k);
    StepLoadConstant(s, k, ea, bus, host);
  }

  lemma StepLoadConstant(s: FpuState, k: ConstIndex, ea: bv32, bus: BusReads, host: Host)
    ensures Step(s, FldConst(k), ea, bus, host) == Continue(PushAll(s, ConstRun(k)))
  {
  }

  lemma StepFyl2x(s: FpuState, i: Slot, ea: bv32, bus: BusReads, host: Host)
    ensures Step(s, D9RegisterOp(0x31, i), ea, bus, host) == Continue(Popped(SetST(s, 1, host.value)).1)
  {
  }

  // Group DB.

  lemma StepFildInt32(s: FpuState, ea: bv32, bus: BusReads, host: Host)
    ensures Step(s, DBMemoryOp(0), ea, bus, host) == Continue(Pushed(s, host.value))
  {
  }

  lemma StepFclex(s: FpuState, ea: bv32, bus: BusReads, host: Host)
    ensures Step(s, DBRegisterOp(0x22), ea, bus, host) == Continue(s.(status := ClearExceptions(s.status)))
  {
  }

  lemma StepFinit(s: FpuState, ea: bv32, bus: BusReads, host: Host)
    ensures Step(s, DBRegisterOp(0x23), ea, bus, host)
      == Continue(s.(control := CONTROL_RESET, status := 0, tag := 0xffff, dataPtr := 0, instPtr := 0, opcode := 0))
  {
  }

  lemma StepFsetpm(s: FpuState, ea: bv32, bus: BusReads, host: Host)
    ensures Step(s, DBRegisterOp(0x24), ea, bus, host) == Continue(s)
  {
  }

  // Group DC.

  lemma StepDCFcom(s: FpuState, sel: nat, ea: bv32, bus: BusReads, host: Host)
    requires sel == 2 || sel == 3
    ensures Step(s, DCMemoryOp(sel), ea, bus, host)
      == Continue(PopIf(sel == 3, s.(status := CompareFlags(s.status, host.order))))
  {
  }

  lemma StepDCDivide(s: FpuState, ea: bv32, bus: BusReads, host: Host)
    ensures Step(s, DCMemoryOp(6), ea, bus, host)
      == if IsZeroDouble(bus.w64) then Result(Fatal(DivideByZero), s) else Continue(SetST(s, 0, host.value))
  {
  }

  lemma StepFdivrSt(s: FpuState, sub: nat, i: Slot, ea: bv32, bus: BusReads, host: Host)
    requires 0x30 <= sub < 0x38
    ensures Step(s, DCRegisterOp(sub, i), ea, bus, host) == Continue(DivideInto(s, i, ST(s, i), host.value))
  {
  }

  // Group DD.

  lemma StepFldDouble(s: FpuState, ea: bv32, bus: BusReads, host: Host)
    ensures Step(s, DDMemoryOp(0), ea, bus, host) == Continue(Pushed(s, bus.w64))
  {
  }

  lemma StepFstDouble(s: FpuState, sel: nat, ea: bv32, bus: BusReads, host: Host)
    requires sel == 2 || sel == 3
    ensures Step(s, DDMemoryOp(sel), ea, bus, host) == Store(Write64(ea, ST(s, 0)), PopIf(sel == 3, s))
  {
  }

  lemma StepFstswMem(s: FpuState, ea: bv32, bus: BusReads, host: Host)
    ensures Step(s, DDMemoryOp(7), ea, bus, host) == Store(Write16(ea, StatusWithTop(s)), s)
  {
  }

  lemma StepFstpSt(s: FpuState, sub: nat, i: Slot, ea: bv32, bus: BusReads, host: Host)
    requires 0x18 <= sub < 0x20
    ensures Step(s, DDRegisterOp(sub, i), ea, bus, host) == Continue(Popped(FstpCopied(s, i)).1)
  {
  }

  // Group DE.

  lemma StepArithPop(s: FpuState, sub: nat, i: Slot, ea: bv32, bus: BusReads, host: Host)
    requires sub < 0x10
    ensures Step(s, DERegisterOp(sub, i), ea, bus, host) == Continue(Popped(SetST(s, i, host.value)).1)
  {
    assert DERegisterOp(sub, i) == ArithPop(if sub < 0x08 then Add else Mul, i);
  }

  lemma StepFcompp(s: FpuState, sub: nat, i: Slot, ea: bv32, bus: BusReads, host: Host)
    requires sub == 0x19
    ensures Step(s, DERegisterOp(sub, i), ea, bus, host)
      == Continue(Popped(Popped(s.(status := CompareFlagsPP(s.status, host.order))).1).1)
  {
    StepCompareTwice(s, ea, bus, host);
  }

  lemma StepCompareTwice(s: FpuState, ea: bv32, bus: BusReads, host: Host)
    ensures Step(s, Fcompp, ea, bus, host)
      == Continue(Popped(Popped(s.(status := CompareFlagsPP(s.status, host.order))).1).1)
  {
  }

  lemma StepFdivp(s: FpuState, sub: nat, i: Slot, ea: bv32, bus: BusReads, host: Host)
    requires 0x38 <= sub
    ensures Step(s, DERegisterOp(sub, i), ea, bus, host) == Continue(Popped(DivideInto(s, i, ST(s, 0), host.value)).1)
  {
    assert DERegisterOp(sub, i) == Fdivp(i);
  }

  // Group DF.

  lemma StepFildInt64(s: FpuState, ea: bv32, bus: BusReads, host: Host)
    ensures Step(s, DFMemoryOp(5), ea, bus, host) == Continue(Pushed(s, host.value))
  {
  }

  lemma StepFistpInt64(s: FpuState, ea: bv32, bus: BusReads, host: Host)
    ensures Step(s, DFMemoryOp(7), ea, bus, host) == Store(Write64(ea, host.value), Popped(s).1)
  {
  }

  lemma StepFstswAx(s: FpuState, ea: bv32, bus: BusReads, host: Host)
    ensures Step(s, DFRegisterOp(0x20), ea, bus, host) == Result(Done([], Some(StatusWithTop(s))), s)
  {
  }

  /** The `default:` branch of every handler. */
  lemma StepUnimplemented(s: FpuState, ea: bv32, bus: BusReads, host: Host)
    ensures Step(s, Unimplemented, ea, bus, host) == Result(Fatal(UnimplementedOpcode), s)
  {
  }
}
