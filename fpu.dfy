/** The FPU as the CPU state holds it: eight register cells in an array, and
    as fields the stack top, the tag, status, control and opcode words and
    the instruction and data pointers, updated in place by the push and pop
    primitives and by the eight escape-group handlers.  Each handler is
    proved to do what `Step` says the decoded operation does. */
module X87Fpu {
  import opened X87Words
  import opened X87Stack
  import opened X87Decode
  import opened X87Semantics
  import opened X87Steps

  class Fpu {
    var reg: array<bv64>
    var top: int
    var tagWord: bv16
    var statusWord: bv16
    var controlWord: bv16
    var opcode: bv16
    var instPtr: bv32
    var dataPtr: bv32

    ghost predicate Valid()
      reads this
    {
      reg.Length == 8 && 0 <= top < 8
    }

    /** The state as a value. */
    ghost function State(): FpuState
      reads this, reg
      requires Valid()
    {
      FpuState(reg[..], top, tagWord, statusWord, controlWord, opcode, instPtr, dataPtr)
    }

    constructor (init: FpuState)
      ensures Valid() && State() == init && fresh(reg)
    {
      reg := new bv64[8](i => if 0 <= i < 8 then init.reg[i] else 0);
      top := init.top;
      tagWord := init.tag;
      statusWord := init.status;
      controlWord := init.control;
      opcode := init.opcode;
      instPtr := init.instPtr;
      dataPtr := init.dataPtr;
      new;
      assert reg[..] == init.reg;
    }

    /** ST(x). */
    function St(x: Slot): (v: bv64)
      reads this, reg
      requires Valid()
      ensures v == ST(State(), x)
    {
      reg[Phys(top, x)]
    }

    method SetSt(x: Slot, v: bv64)
      requires Valid()
      modifies reg
      ensures Valid() && State() == SetST(old(State()), x, v)
    {
      reg[Phys(top, x)] := v;
    }

    /** FPU_PUSH. */
    method Push(v: bv64)
      requires Valid()
      modifies this, reg
      ensures Valid() && reg == old(reg)
      ensures State() == Pushed(old(State()), v)
    {
      top := top - 1;
      if top < 0 {
        top := 7;
      }
      reg[top] := v;
    }

    /** FPU_POP. */
    method Pop() returns (v: bv64)
      requires Valid()
      modifies this
      ensures Valid() && reg == old(reg)
      ensures (v, State()) == Popped(old(State()))
    {
      v := reg[top];
      tagWord := MarkEmpty(tagWord, SlotWord(top));
      top := top + 1;
      if top > 7 {
        top := 0;
      }
    }

    /** The flag update of FCOM, FCOMP and FTST. */
    method SetCompareFlags(order: Ordering)
      requires Valid()
      modifies this
      ensures Valid() && reg == old(reg)
      ensures State() == old(State()).(status := CompareFlags(old(statusWord), order))
    {
      var w := statusWord & !(C3 | C2 | C0);
      if order == Equal {
        w := w | C3;
      }
      if order == Less {
        w := w | C0;
      }
      statusWord := w;
    }

    /** The flag update of FCOMPP. */
    method SetCompareFlagsPP(order: Ordering)
      requires Valid()
      modifies this
      ensures Valid() && reg == old(reg)
      ensures State() == old(State()).(status := CompareFlagsPP(old(statusWord), order))
    {
      statusWord := CompareFlagsPP(statusWord, order);
    }

    /** FCOMPP: set the flags, then pop twice. */
    method CompareAndPopTwice(order: Ordering)
      requires Valid()
      modifies this
      ensures Valid() && reg == old(reg)
      ensures State() == Popped(Popped(old(State()).(status := CompareFlagsPP(old(statusWord), order))).1).1
    {
      SetCompareFlagsPP(order);
      var first := Pop();
      var second := Pop();
    }

    /** FADDP and FMULP: store the result in ST(i), then pop. */
    method StoreAndPop(i: Slot, v: bv64)
      requires Valid()
      modifies this, reg
      ensures Valid() && reg == old(reg)
      ensures State() == Popped(SetST(old(State()), i, v)).1
    {
      SetSt(i, v);
      var _ := Pop();
    }

    /** FDIVP: divide ST(i) by ST(0), then pop. */
    method DivideAndPop(i: Slot, quotient: bv64)
      requires Valid()
      modifies this, reg
      ensures Valid() && reg == old(reg)
      ensures State() == Popped(DivideInto(old(State()), i, ST(old(State()), 0), quotient)).1
    {
      DivideRegister(i, St(0), quotient);
      var _ := Pop();
    }

    /** The register divides of groups DC and DE: on a zero `divisor` OR
        the infinity exponent into ST(i) when the exception is masked,
        otherwise store the quotient in ST(i). */
    method DivideRegister(i: Slot, divisor: bv64, quotient: bv64)
      requires Valid()
      modifies reg
      ensures Valid() && State() == DivideInto(old(State()), i, divisor, quotient)
    {
      if divisor & MAGNITUDE_DOUBLE == 0 {
        if controlWord & MASK_ZERO_DIVIDE != 0 {
          SetSt(i, St(i) | INFINITY_DOUBLE);
        } else {
          SetSTSame(State(), i);
        }
      } else {
        SetSt(i, quotient);
      }
    }

    /** The status word with the stack top in the field FSTSW stores. */
    function StatusWord(): (w: bv16)
      reads this, reg
      requires Valid()
      ensures w == StatusWithTop(State())
    {
      (statusWord & !STACK_TOP_MASK) | ((top as bv16) << 10)
    }

    /** Escape 0xD8: arithmetic and comparison with a 32-bit memory operand
        or with ST(i). */
    method GroupD8(modrm: bv8, ea: bv32, bus: BusReads, host: Host) returns (out: Outcome)
      requires Valid()
      modifies this, reg
      ensures Valid() && reg == old(reg)
      ensures Result(out, State()) == Step(old(State()), Decode(D8, modrm), ea, bus, host)
    {
      var sel, src;
      if modrm < 0xc0 {
        sel, src := RegField(modrm), Mem32;
      } else {
        sel, src := SubOp(modrm) / 8, Reg(RmIndex(modrm));
      }
      assert Decode(D8, modrm) == D8Op(sel, src);
      out := D8Operation(sel, src, ea, bus, host);
    }

    /** The D8 sub-opcode `sel` on the operand `src`. */
    method D8Operation(sel: nat, src: Operand, ea: bv32, bus: BusReads, host: Host) returns (out: Outcome)
      requires Valid() && sel < 8
      modifies this, reg
      ensures Valid() && reg == old(reg)
      ensures Result(out, State()) == Step(old(State()), D8Op(sel, src), ea, bus, host)
    {
      ghost var s := State();
      out := Done([], None);
      if sel == 2 || sel == 3 {
        StepD8Fcom(s, sel, src, ea, bus, host);
        Compare(sel == 3, host.order);
      } else if sel == 6 || sel == 7 {
        StepD8Divide(s, sel, src, ea, bus, host);
        out := Divide(if sel == 6 then Div else DivR, src, bus, host);
      } else {
        StepD8Arith(s, sel, src, ea, bus, host);
        SetSt(0, host.value);
      }
    }

    /** FCOM and FCOMP: set the flags, then pop for FCOMP. */
    method Compare(pop: bool, order: Ordering)
      requires Valid()
      modifies this
      ensures Valid() && reg == old(reg)
      ensures State() == PopIf(pop, old(State()).(status := CompareFlags(old(statusWord), order)))
    {
      SetCompareFlags(order);
      if pop {
        var _ := Pop();
      }
    }

    /** FDIV and FDIVR of group D8: halt on a zero divisor, otherwise ST(0)
        takes the host's quotient. */
    method Divide(kind: ArithKind, src: Operand, bus: BusReads, host: Host) returns (out: Outcome)
      requires Valid() && (kind == Div || kind == DivR)
      modifies reg
      ensures Valid()
      ensures DivideHalts(old(State()), kind, src, bus) ==> out == Fatal(DivideByZero) && State() == old(State())
      ensures !DivideHalts(old(State()), kind, src, bus) ==> out == Done([], None) && State() == SetST(old(State()), 0, host.value)
    {
      var zero := match src
        case Mem32 => bus.w32 == 0
        case Mem64 => IsZeroDouble(bus.w64)
        case Reg(i) => IsZeroDouble(if kind == Div then St(i) else St(0));
      if zero {
        out := Fatal(DivideByZero);
      } else {
        out := Done([], None);
        SetSt(0, host.value);
      }
    }

    /** One case body of the constant loads: push `v` after the values
        `pushed` that the run so far pushed onto `start`. */
    method PushConstant(ghost start: FpuState, ghost pushed: seq<bv64>, v: bv64)
      requires Valid() && State() == PushAll(start, pushed)
      modifies this, reg
      ensures Valid() && reg == old(reg)
      ensures State() == PushAll(start, pushed + [v])
    {
      Push(v);
      PushAllSnoc(start, pushed, v);
    }

    /** The constant loads of escape 0xD9, sub-opcode 0x28 + k.  FLD1 pushes
        one value; every other case falls through into the next until FLDZ. */
    method LoadConstants(k: ConstIndex)
      requires Valid()
      modifies this, reg
      ensures Valid() && reg == old(reg)
      ensures State() == PushAll(old(State()), ConstRun(k))
    {
      if k == 0 {
        Push(FLD1_BITS);
        PushAllOne(old(State()), FLD1_BITS);
      } else {
        assert CONSTANTS[k..k] == [];
        FallThrough(State(), k, k);
      }
    }

    /** Case 0x28 + j of a run that entered at case 0x28 + k: push the
        constant of case j, then fall into case j + 1 unless j is FLDZ. */
    method FallThrough(ghost start: FpuState, k: ConstIndex, j: ConstIndex)
      requires Valid() && 0 < k <= j && State() == PushAll(start, CONSTANTS[k..j])
      modifies this, reg
      ensures Valid() && reg == old(reg)
      ensures State() == PushAll(start, CONSTANTS[k..])
      decreases 7 - j
    {
      PushConstant(start, CONSTANTS[k..j], CONSTANTS[j]);
      ConstantsSnoc(k, j);
      if j < 6 {
        FallThrough(start, k, j + 1);
      }
    }

    /** Escape 0xD9: loads and stores of single-precision words and of the
        control word, FSTENV, and the register operations. */
    method GroupD9(modrm: bv8, ea: bv32, bus: BusReads, host: Host) returns (out: Outcome)
      requires Valid()
      modifies this, reg
      ensures Valid() && reg == old(reg)
      ensures Result(out, State()) == Step(old(State()), Decode(D9, modrm), ea, bus, host)
    {
      if modrm < 0xc0 {
        out := D9Memory(RegField(modrm), ea, bus, host);
      } else {
        out := D9Register(SubOp(modrm), RmIndex(modrm), ea, bus, host);
      }
    }

    /** The memory form of escape 0xD9, sub-opcode `sel`. */
    method D9Memory(sel: nat, ea: bv32, bus: BusReads, host: Host) returns (out: Outcome)
      requires Valid()
      modifies this, reg
      ensures Valid() && reg == old(reg)
      ensures Result(out, State()) == Step(old(State()), D9MemoryOp(sel), ea, bus, host)
    {
      ghost var s := State();
      out := Done([], None);
      match sel {
        case 0 =>
          StepFldSingle(s, ea, bus, host);
          Push(bus.w32 as bv64);
        case 2 =>
          StepFstSingle(s, sel, ea, bus, host);
          out := Done([Write32(ea, host.single)], None);
        case 3 =>
          StepFstSingle(s, sel, ea, bus, host);
          out := Done([Write32(ea, host.single)], None);
          var _ := Pop();
        case 5 =>
          StepFldcw(s, ea, bus, host);
          controlWord := bus.w16;
        case 6 =>
          StepFstenv(s, ea, bus, host);
          var log := StoreEnvironment(ea);
          out := Done(log, None);
        case 7 =>
          StepFstcw(s, ea, bus, host);
          out := Done([Write16(ea, controlWord)], None);
        case _ =>
          StepUnimplemented(s, ea, bus, host);
          out := Fatal(UnimplementedOpcode);
      }
    }

    /** FSTENV: the seven 16-bit words written from `ea` upwards. */
    method StoreEnvironment(ea: bv32) returns (log: seq<BusWrite>)
      requires Valid()
      ensures log == EnvImage(ea, State())
    {
      log := [Write16(ea, controlWord)];
      log := log + [Write16(ea + 2, statusWord)];
      log := log + [Write16(ea + 4, tagWord)];
      log := log + [Write16(ea + 6, Low16(instPtr))];
      log := log + [Write16(ea + 8, OpcodeWord(opcode, instPtr))];
      log := log + [Write16(ea + 10, Low16(dataPtr))];
      log := log + [Write16(ea + 12, IpHigh(instPtr))];
    }

    /** The register form of escape 0xD9, sub-opcode `sub` with index `i`. */
    method D9Register(sub: nat, i: Slot, ea: bv32, bus: BusReads, host: Host) returns (out: Outcome)
      requires Valid()
      modifies this, reg
      ensures Valid() && reg == old(reg)
      ensures Result(out, State()) == Step(old(State()), D9RegisterOp(sub, i), ea, bus, host)
    {
      if sub <= 0x20 {
        out := D9StackOperation(sub, i, ea, bus, host);
      } else {
        out := D9ValueOperation(sub, i, ea, bus, host);
      }
    }

    /** Sub-opcodes up to 0x20: FLD ST(i), FXCH, FNOP and FCHS. */
    method D9StackOperation(sub: nat, i: Slot, ea: bv32, bus: BusReads, host: Host) returns (out: Outcome)
      requires Valid() && sub <= 0x20
      modifies this, reg
      ensures Valid() && reg == old(reg)
      ensures Result(out, State()) == Step(old(State()), D9RegisterOp(sub, i), ea, bus, host)
    {
      ghost var s := State();
      out := Done([], None);
      if sub < 0x08 {
        StepFldSt(s, sub, i, ea, bus, host);
        var t := St(i);
        Push(t);
      } else if sub < 0x10 {
        StepFxch(s, sub, i, ea, bus, host);
        var t := St(0);
        SetSt(0, St(i));
        SetSt(i, t);
      } else if sub == 0x10 {
        StepFnop(s, i, ea, bus, host);
      } else if sub == 0x20 {
        StepFchs(s, i, ea, bus, host);
        SetSt(0, St(0) ^ SIGN_BIT_DOUBLE);
      } else {
        assert D9RegisterOp(sub, i) == Unimplemented;
        StepUnimplemented(s, ea, bus, host);
        out := Fatal(UnimplementedOpcode);
      }
    }

    /** Sub-opcodes above 0x20: FABS, FTST, the constant loads, F2XM1,
        FYL2X and FRNDINT. */
    method D9ValueOperation(sub: nat, i: Slot, ea: bv32, bus: BusReads, host: Host) returns (out: Outcome)
      requires Valid() && sub > 0x20
      modifies this, reg
      ensures Valid() && reg == old(reg)
      ensures Result(out, State()) == Step(old(State()), D9RegisterOp(sub, i), ea, bus, host)
    {
      ghost var s := State();
      out := Done([], None);
      if sub == 0x21 || sub == 0x30 || sub == 0x3c {
        StepD9Unary(s, sub, i, ea, bus, host);
        SetSt(0, host.value);
      } else if sub == 0x24 {
        StepFtst(s, i, ea, bus, host);
        SetCompareFlags(host.order);
      } else if 0x28 <= sub <= 0x2e {
        out := D9ConstantLoad(sub, i, ea, bus, host);
      } else if sub == 0x31 {
        StepFyl2x(s, i, ea, bus, host);
        SetSt(1, host.value);
        var _ := Pop();
      } else {
        assert D9RegisterOp(sub, i) == Unimplemented;
        StepUnimplemented(s, ea, bus, host);
        out := Fatal(UnimplementedOpcode);
      }
    }

    /** Sub-opcodes 0x28-0x2e: the constant loads. */
    method D9ConstantLoad(sub: nat, i: Slot, ea: bv32, bus: BusReads, host: Host) returns (out: Outcome)
      requires Valid() && 0x28 <= sub <= 0x2e
      modifies this, reg
      ensures Valid() && reg == old(reg)
      ensures Result(out, State()) == Step(old(State()), D9RegisterOp(sub, i), ea, bus, host)
    {
      ghost var s := State();
      LoadConstants(sub - 0x28);
      out := Done([], None);
      StepFldConst(s, sub, i, ea, bus, host);
    }

    /** Escape 0xDA: no operation is implemented. */
    method GroupDA(modrm: bv8, ea: bv32, bus: BusReads, host: Host) returns (out: Outcome)
      requires Valid()
      modifies this, reg
      ensures Valid() && reg == old(reg)
      ensures Result(out, State()) == Step(old(State()), Decode(DA, modrm), ea, bus, host)
    {
      out := Fatal(UnimplementedOpcode);
    }

    /** Escape 0xDB: FILD of a 32-bit integer, FCLEX, FINIT and FSETPM. */
    method GroupDB(modrm: bv8, ea: bv32, bus: BusReads, host: Host) returns (out: Outcome)
      requires Valid()
      modifies this, reg
      ensures Valid() && reg == old(reg)
      ensures Result(out, State()) == Step(old(State()), Decode(DB, modrm), ea, bus, host)
    {
      ghost var s := State();
      if modrm < 0xc0 {
        out := Done([], None);
        if RegField(modrm) == 0 {
          StepFildInt32(s, ea, bus, host);
          Push(host.value);
        } else {
          StepUnimplemented(s, ea, bus, host);
          out := Fatal(UnimplementedOpcode);
        }
      } else {
        out := DBRegister(SubOp(modrm), ea, bus, host);
      }
    }

    /** The register form of escape 0xDB, sub-opcode `sub`. */
    method DBRegister(sub: nat, ea: bv32, bus: BusReads, host: Host) returns (out: Outcome)
      requires Valid()
      modifies this
      ensures Valid() && reg == old(reg)
      ensures Result(out, State()) == Step(old(State()), DBRegisterOp(sub), ea, bus, host)
    {
      ghost var s := State();
      out := Done([], None);
      if sub == 0x22 {
        StepFclex(s, ea, bus, host);
        statusWord := ClearExceptions(statusWord);
      } else if sub == 0x23 {
        StepFinit(s, ea, bus, host);
        controlWord := CONTROL_RESET;
        statusWord := 0;
        tagWord := 0xffff;
        dataPtr := 0;
        instPtr := 0;
        opcode := 0;
      } else if sub == 0x24 {
        StepFsetpm(s, ea, bus, host);
      } else {
        StepUnimplemented(s, ea, bus, host);
        out := Fatal(UnimplementedOpcode);
      }
    }

    /** Escape 0xDC: comparison and division with a 64-bit memory operand,
        and the register FDIVR into ST(i). */
    method GroupDC(modrm: bv8, ea: bv32, bus: BusReads, host: Host) returns (out: Outcome)
      requires Valid()
      modifies this, reg
      ensures Valid() && reg == old(reg)
      ensures Result(out, State()) == Step(old(State()), Decode(DC, modrm), ea, bus, host)
    {
      if modrm < 0xc0 {
        out := DCMemory(RegField(modrm), ea, bus, host);
      } else {
        out := DCRegister(SubOp(modrm), RmIndex(modrm), ea, bus, host);
      }
    }

    /** The memory form of escape 0xDC, sub-opcode `sel`. */
    method DCMemory(sel: nat, ea: bv32, bus: BusReads, host: Host) returns (out: Outcome)
      requires Valid()
      modifies this, reg
      ensures Valid() && reg == old(reg)
      ensures Result(out, State()) == Step(old(State()), DCMemoryOp(sel), ea, bus, host)
    {
      ghost var s := State();
      out := Done([], None);
      match sel {
        case 2 =>
          StepDCFcom(s, sel, ea, bus, host);
          Compare(false, host.order);
        case 3 =>
          StepDCFcom(s, sel, ea, bus, host);
          Compare(true, host.order);
        case 6 =>
          StepDCDivide(s, ea, bus, host);
          if IsZeroDouble(bus.w64) {
            out := Fatal(DivideByZero);
          } else {
            SetSt(0, host.value);
          }
        case _ =>
          StepUnimplemented(s, ea, bus, host);
          out := Fatal(UnimplementedOpcode);
      }
    }

    /** The register form of escape 0xDC: FDIVR into ST(i). */
    method DCRegister(sub: nat, i: Slot, ea: bv32, bus: BusReads, host: Host) returns (out: Outcome)
      requires Valid()
      modifies this, reg
      ensures Valid() && reg == old(reg)
      ensures Result(out, State()) == Step(old(State()), DCRegisterOp(sub, i), ea, bus, host)
    {
      ghost var s := State();
      if 0x30 <= sub < 0x38 {
        StepFdivrSt(s, sub, i, ea, bus, host);
        out := Done([], None);
        DivideRegister(i, St(i), host.value);
      } else {
        StepUnimplemented(s, ea, bus, host);
        out := Fatal(UnimplementedOpcode);
      }
    }

    /** Escape 0xDD: loads and stores of 64-bit words, FSTSW to memory, and
        FSTP ST(i). */
    method GroupDD(modrm: bv8, ea: bv32, bus: BusReads, host: Host) returns (out: Outcome)
      requires Valid()
      modifies this, reg
      ensures Valid() && reg == old(reg)
      ensures Result(out, State()) == Step(old(State()), Decode(DD, modrm), ea, bus, host)
    {
      ghost var s := State();
      if modrm < 0xc0 {
        out := DDMemory(RegField(modrm), ea, bus, host);
      } else {
        var sub := SubOp(modrm);
        out := Done([], None);
        if 0x18 <= sub < 0x20 {
          StepFstpSt(s, sub, RmIndex(modrm), ea, bus, host);
          StoreIntoRegister(RmIndex(modrm));
        } else {
          StepUnimplemented(s, ea, bus, host);
          out := Fatal(UnimplementedOpcode);
        }
      }
    }

    /** The memory form of escape 0xDD, sub-opcode `sel`. */
    method DDMemory(sel: nat, ea: bv32, bus: BusReads, host: Host) returns (out: Outcome)
      requires Valid()
      modifies this, reg
      ensures Valid() && reg == old(reg)
      ensures Result(out, State()) == Step(old(State()), DDMemoryOp(sel), ea, bus, host)
    {
      ghost var s := State();
      out := Done([], None);
      match sel {
        case 0 =>
          StepFldDouble(s, ea, bus, host);
          Push(bus.w64);
        case 2 =>
          StepFstDouble(s, sel, ea, bus, host);
          out := Done([Write64(ea, St(0))], None);
        case 3 =>
          StepFstDouble(s, sel, ea, bus, host);
          out := Done([Write64(ea, St(0))], None);
          var _ := Pop();
        case 7 =>
          StepFstswMem(s, ea, bus, host);
          out := Done([Write16(ea, StatusWord())], None);
        case _ =>
          StepUnimplemented(s, ea, bus, host);
          out := Fatal(UnimplementedOpcode);
      }
    }

    /** FSTP ST(i): copy ST(0) into ST(i), copy the tag pair of physical
        slot `top` into physical slot i, and pop. */
    method StoreIntoRegister(i: Slot)
      requires Valid()
      modifies this, reg
      ensures Valid() && reg == old(reg)
      ensures State() == Popped(FstpCopied(old(State()), i)).1
    {
      SetSt(i, St(0));
      tagWord := CopyTag(tagWord, SlotWord(top), SlotWord(i));
      var _ := Pop();
    }

    /** Escape 0xDE: FADDP, FMULP, FCOMPP and FDIVP. */
    method GroupDE(modrm: bv8, ea: bv32, bus: BusReads, host: Host) returns (out: Outcome)
      requires Valid()
      modifies this, reg
      ensures Valid() && reg == old(reg)
      ensures Result(out, State()) == Step(old(State()), Decode(DE, modrm), ea, bus, host)
    {
      if modrm < 0xc0 {
        out := Fatal(UnimplementedOpcode);
      } else {
        out := DERegister(SubOp(modrm), RmIndex(modrm), ea, bus, host);
      }
    }

    /** The register form of escape 0xDE, sub-opcode `sub` with index `i`. */
    method DERegister(sub: nat, i: Slot, ea: bv32, bus: BusReads, host: Host) returns (out: Outcome)
      requires Valid()
      modifies this, reg
      ensures Valid() && reg == old(reg)
      ensures Result(out, State()) == Step(old(State()), DERegisterOp(sub, i), ea, bus, host)
    {
      ghost var s := State();
      out := Done([], None);
      if sub < 0x10 {
        StepArithPop(s, sub, i, ea, bus, host);
        StoreAndPop(i, host.value);
      } else if sub == 0x19 {
        StepFcompp(s, sub, i, ea, bus, host);
        CompareAndPopTwice(host.order);
      } else if 0x38 <= sub {
        StepFdivp(s, sub, i, ea, bus, host);
        DivideAndPop(i, host.value);
      } else {
        StepUnimplemented(s, ea, bus, host);
        out := Fatal(UnimplementedOpcode);
      }
    }

    /** Escape 0xDF: FILD of a 64-bit integer, FISTP, and FSTSW AX. */
    method GroupDF(modrm: bv8, ea: bv32, bus: BusReads, host: Host) returns (out: Outcome)
      requires Valid()
      modifies this, reg
      ensures Valid() && reg == old(reg)
      ensures Result(out, State()) == Step(old(State()), Decode(DF, modrm), ea, bus, host)
    {
      ghost var s := State();
      out := Done([], None);
      if modrm < 0xc0 {
        var sel := RegField(modrm);
        if sel == 5 {
          StepFildInt64(s, ea, bus, host);
          Push(host.value);
        } else if sel == 7 {
          StepFistpInt64(s, ea, bus, host);
          out := Done([Write64(ea, host.value)], None);
          var _ := Pop();
        } else {
          StepUnimplemented(s, ea, bus, host);
          out := Fatal(UnimplementedOpcode);
        }
      } else {
        if SubOp(modrm) == 0x20 {
          StepFstswAx(s, ea, bus, host);
          out := Done([], Some(StatusWord()));
        } else {
          StepUnimplemented(s, ea, bus, host);
          out := Fatal(UnimplementedOpcode);
        }
      }
    }
  }
}
