/** Instruction decode of the eight FPU escape groups 0xD8-0xDF: from the
    group and its addressing-mode (ModR/M) byte to the operation the group's
    handler performs, or to the unimplemented-opcode outcome. */
module X87Decode {
  import opened X87Words

  /** The escape opcode that selected the handler. */
  datatype Group = D8 | D9 | DA | DB | DC | DD | DE | DF

  /** Where a two-operand instruction takes its second operand. */
  datatype Operand =
    | Mem32        // a 32-bit word read at the effective address
    | Mem64        // a 64-bit word read at the effective address
    | Reg(i: Slot) // ST(i)

  datatype ArithKind = Add | Mul | Sub | SubR | Div | DivR

  /** Which of the seven constant loads, counted from sub-opcode 0x28. */
  type ConstIndex = k: int | 0 <= k < 7

  datatype Op =
    | Unimplemented                      // the handler's `default:` branch
    | Arith(kind: ArithKind, src: Operand)  // ST(0) := ST(0) op src
    | Fcom(src: Operand, pop: bool)      // FCOM / FCOMP
    | Ftst
    | Fcompp
    | FldSingle | FldDouble | FldSt(i: Slot)
    | FildInt32 | FildInt64
    | FstSingle(pop: bool) | FstDouble(pop: bool) | FstpSt(i: Slot)
    | FistpInt64
    | Fldcw | Fstcw | Fstenv | FstswMem | FstswAx
    | Fxch(i: Slot) | Fnop | Fchs | Fabs
    | FldConst(k: ConstIndex)            // sub-opcode 0x28 + k
    | F2xm1 | Fyl2x | Frndint
    | Fclex | Finit | Fsetpm
    | FdivrSt(i: Slot)                   // 0xDC register form: ST(i) := ST(0) / ST(i)
    | ArithPop(kind: ArithKind, i: Slot) // FADDP / FMULP: ST(i) := ST(i) op ST(top), pop
    | Fdivp(i: Slot)                     // ST(i) := ST(i) / ST(0), pop

  /** Bits 3-5 of the ModR/M byte: the memory-form sub-opcode. */
  function RegField(modrm: bv8): (r: nat)
    ensures r < 8
  {
    ((modrm >> 3) & 7) as nat
  }

  /** Bits 0-5 of the ModR/M byte: the register-form sub-opcode. */
  function SubOp(modrm: bv8): (r: nat)
    ensures r < 64
  {
    (modrm & 0x3f) as nat
  }

  /** Bits 0-2 of the ModR/M byte: the stack index i of ST(i). */
  function RmIndex(modrm: bv8): (r: Slot) {
    (modrm & 7) as int
  }

  /** Group D8, memory or register form: sub-opcode `sel` applied to `src`. */
  function D8Op(sel: nat, src: Operand): Op
    requires sel < 8
  {
    match sel
    case 0 => Arith(Add, src)
    case 1 => Arith(Mul, src)
    case 2 => Fcom(src, false)
    case 3 => Fcom(src, true)
    case 4 => Arith(Sub, src)
    case 5 => Arith(SubR, src)
    case 6 => Arith(Div, src)
    case 7 => Arith(DivR, src)
  }

  /** Group D9, memory form. */
  function D9MemoryOp(sel: nat): Op {
    match sel
    case 0 => FldSingle
    case 2 => FstSingle(false)
    case 3 => FstSingle(true)
    case 5 => Fldcw
    case 6 => Fstenv
    case 7 => Fstcw
    case _ => Unimplemented
  }

  /** Group D9, register form with sub-opcode `sub` and index `i`. */
  function D9RegisterOp(sub: nat, i: Slot): Op {
    if sub < 0x08 then FldSt(i)
    else if sub < 0x10 then Fxch(i)
    else if sub == 0x10 then Fnop
    else if sub == 0x20 then Fchs
    else if sub == 0x21 then Fabs
    else if sub == 0x24 then Ftst
    else if 0x28 <= sub <= 0x2e then FldConst(sub - 0x28)
    else if sub == 0x30 then F2xm1
    else if sub == 0x31 then Fyl2x
    else if sub == 0x3c then Frndint
    else Unimplemented
  }

  function DBMemoryOp(sel: nat): Op {
    if sel == 0 then FildInt32 else Unimplemented
  }

  function DBRegisterOp(sub: nat): Op {
    if sub == 0x22 then Fclex
    else if sub == 0x23 then Finit
    else if sub == 0x24 then Fsetpm
    else Unimplemented
  }

  function DCMemoryOp(sel: nat): Op {
    match sel
    case 2 => Fcom(Mem64, false)
    case 3 => Fcom(Mem64, true)
    case 6 => Arith(Div, Mem64)
    case _ => Unimplemented
  }

  function DCRegisterOp(sub: nat, i: Slot): Op {
    if 0x30 <= sub < 0x38 then FdivrSt(i) else Unimplemented
  }

  function DDMemoryOp(sel: nat): Op {
    match sel
    case 0 => FldDouble
    case 2 => FstDouble(false)
    case 3 => FstDouble(true)
    case 7 => FstswMem
    case _ => Unimplemented
  }

  function DDRegisterOp(sub: nat, i: Slot): Op {
    if 0x18 <= sub < 0x20 then FstpSt(i) else Unimplemented
  }

  function DERegisterOp(sub: nat, i: Slot): Op {
    if sub < 0x08 then ArithPop(Add, i)
    else if sub < 0x10 then ArithPop(Mul, i)
    else if sub == 0x19 then Fcompp
    else if 0x38 <= sub then Fdivp(i)
    else Unimplemented
  }

  function DFMemoryOp(sel: nat): Op {
    if sel == 5 then FildInt64
    else if sel == 7 then FistpInt64
    else Unimplemented
  }

  function DFRegisterOp(sub: nat): Op {
    if sub == 0x20 then FstswAx else Unimplemented
  }

  /** The operation that the handler of `g` performs for `modrm`: the
      memory form (ModR/M below 0xc0) dispatches on bits 3-5, the register
      form on bits 0-5 with the stack index in bits 0-2. */
  function Decode(g: Group, modrm: bv8): (op: Op)
    ensures g == DA ==> op == Unimplemented
    ensures g == DE && modrm < 0xc0 ==> op == Unimplemented
    ensures g == D8 ==> op != Unimplemented
    ensures modrm >= 0xc0 && (op.FldSt? || op.FstpSt? || op.Fxch? || op.FdivrSt? || op.Fdivp? || op.ArithPop?) ==>
      op.i == (modrm & 7) as int
    ensures modrm >= 0xc0 && (op.Arith? || op.Fcom?) && op.src.Reg? ==> op.src.i == (modrm & 7) as int
    ensures modrm < 0xc0 ==> !(op.FldSt? || op.FstpSt? || op.Fxch? || op.FdivrSt? || op.Fdivp? || op.ArithPop?)
    ensures modrm < 0xc0 && (op.Arith? || op.Fcom?) ==> !op.src.Reg?
  {
    var memory := modrm < 0xc0;
    var sel := RegField(modrm);
    var sub := SubOp(modrm);
    var i := RmIndex(modrm);
    match g
    case D8 => if memory then D8Op(sel, Mem32) else D8Op(sub / 8, Reg(i))
    case D9 => if memory then D9MemoryOp(sel) else D9RegisterOp(sub, i)
    case DA => Unimplemented
    case DB => if memory then DBMemoryOp(sel) else DBRegisterOp(sub)
    case DC => if memory then DCMemoryOp(sel) else DCRegisterOp(sub, i)
    case DD => if memory then DDMemoryOp(sel) else DDRegisterOp(sub, i)
    case DE => if memory then Unimplemented else DERegisterOp(sub, i)
    case DF => if memory then DFMemoryOp(sel) else DFRegisterOp(sub)
  }

  /** The memory form depends on the ModR/M reg field only: the mod and r/m
      bits that address memory do not change the operation. */
  lemma MemoryFormIgnoresAddressing(g: Group, modrm: bv8, other: bv8)
    requires modrm < 0xc0 && other < 0xc0
    requires RegField(modrm) == RegField(other)
    ensures Decode(g, modrm) == Decode(g, other)
  {
  }

  /** `op` with its stack index, if it has one, replaced by `i`. */
  function WithIndex(op: Op, i: Slot): Op {
    match op
    case Arith(kind, Reg(_)) => Arith(kind, Reg(i))
    case Fcom(Reg(_), pop) => Fcom(Reg(i), pop)
    case FldSt(_) => FldSt(i)
    case FstpSt(_) => FstpSt(i)
    case Fxch(_) => Fxch(i)
    case FdivrSt(_) => FdivrSt(i)
    case ArithPop(kind, _) => ArithPop(kind, i)
    case Fdivp(_) => Fdivp(i)
    case _ => op
  }

  /** The register-form cases that take a stack index span eight sub-opcodes
      each (`case 0x00: ... case 0x07:` and so on): in those ranges two ModR/M
      bytes that agree in bits 3-7 decode to the same operation, applied to
      the index in bits 0-2 of each. */
  lemma RegisterIndexRanges(g: Group, modrm: bv8, other: bv8)
    requires modrm >= 0xc0 && modrm >> 3 == other >> 3
    requires g == D8 || g == DC || g == DD ||
      (g == D9 && SubOp(modrm) < 0x10) || (g == DE && (SubOp(modrm) < 0x10 || SubOp(modrm) >= 0x38))
    ensures Decode(g, other) == WithIndex(Decode(g, modrm), RmIndex(other))
  {
    SameEighth(modrm, other);
    var a, b := SubOp(modrm), SubOp(other);
    var i, j := RmIndex(modrm), RmIndex(other);
    match g
    case D8 =>
      assert Decode(D8, modrm) == D8Op(a / 8, Reg(i));
      assert Decode(D8, other) == D8Op(b / 8, Reg(j));
    case D9 =>
      assert Decode(D9, modrm) == D9RegisterOp(a, i);
      assert Decode(D9, other) == D9RegisterOp(b, j);
      IndexedD9(a, b, i, j);
    case DC =>
      assert Decode(DC, modrm) == DCRegisterOp(a, i);
      assert Decode(DC, other) == DCRegisterOp(b, j);
    case DD =>
      assert Decode(DD, modrm) == DDRegisterOp(a, i);
      assert Decode(DD, other) == DDRegisterOp(b, j);
    case DE =>
      assert Decode(DE, modrm) == DERegisterOp(a, i);
      assert Decode(DE, other) == DERegisterOp(b, j);
      IndexedDE(a, b, i, j);
  }

  /** In D9, FLD ST(i) and FXCH each fill one eight-wide range. */
  lemma IndexedD9(a: nat, b: nat, i: Slot, j: Slot)
    requires a < 0x10 && a / 8 == b / 8
    ensures D9RegisterOp(b, j) == WithIndex(D9RegisterOp(a, i), j)
  {
  }

  /** In DE, FADDP, FMULP and FDIVP each fill one eight-wide range. */
  lemma IndexedDE(a: nat, b: nat, i: Slot, j: Slot)
    requires a < 64 && b < 64 && (a < 0x10 || a >= 0x38) && a / 8 == b / 8
    ensures DERegisterOp(b, j) == WithIndex(DERegisterOp(a, i), j)
  {
  }

  /** Bytes that agree in bits 3-7 are both register forms when one is, and
      their sub-opcodes lie in the same eight-wide range. */
  lemma SameEighth(modrm: bv8, other: bv8)
    requires modrm >= 0xc0 && modrm >> 3 == other >> 3
    ensures other >= 0xc0
    ensures SubOp(other) / 8 == SubOp(modrm) / 8
  {
    assert (modrm & 0x3f) >> 3 == (other & 0x3f) >> 3;
  }

  /** The constant loads occupy register sub-opcodes 0x28-0x2e of group D9. */
  lemma ConstantLoadDecode(modrm: bv8)
    requires modrm >= 0xc0
    ensures Decode(D9, modrm).FldConst? <==> 0x28 <= SubOp(modrm) <= 0x2e
    ensures Decode(D9, modrm).FldConst? ==> Decode(D9, modrm).k == SubOp(modrm) - 0x28
  {
  }
}
