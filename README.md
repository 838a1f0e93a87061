# x87 FPU instruction handlers of MAME's i386 core

This project is a Dafny model of the x87 floating-point unit in MAME's i386
CPU core (`src/emu/cpu/i386/x87ops.c`). It covers three things:

- the register stack: eight 64-bit register cells addressed as
  `ST(x) = fpu_reg[(fpu_top + x) & 7]`;
- the two stack primitives `FPU_PUSH` and `FPU_POP`;
- the eight escape-group handlers `fpu_group_d8` to `fpu_group_df`, that is,
  the instructions that start with the bytes 0xD8-0xDF, including their
  `default:` branches, which halt with a fatal error.

The handlers do two kinds of work. Bit-level work is modelled exactly:

- the condition-code bits C3, C2 and C0 that the compares set;
- the status, control and tag words;
- the FSTENV memory image;
- the FSTSW image;
- FINIT and FCLEX;
- the constant loads and their fall-through;
- the zero-divide paths.

Floating-point arithmetic is not evaluated. Each result an instruction needs
from the host's floating-point unit is an input to the model (`Host`):

- how ST(0) compares with the operand;
- the bits of the value an arithmetic, conversion or rounding step produces;
- the single-precision bits that a 32-bit store writes.

Memory reads are inputs (`BusReads`). Memory writes and the value stored into
AX are outputs (`Outcome`).

The modules are:

| module | contents |
|---|---|
| `X87Words` (words.dfy) | the meaning of the status, control and tag word bits and of the double-precision bit fields, as functions on bit-vectors |
| `X87Stack` (stack.dfy) | the FPU state as a value `FpuState`, `ST`, and FPU_PUSH and FPU_POP as the functions `Pushed` and `Popped` |
| `X87Decode` (decode.dfy) | how each handler's `switch` maps the ModR/M byte to an operation `Op` |
| `X87Semantics` (semantics.dfy) | `Step`: what one decoded operation does to the state, and its outcome |
| `X87Steps` (steps.dfy) | one small lemma per handler branch, giving `Step`'s value on that branch |
| `X87Fpu` (fpu.dfy) | class `Fpu`, which holds the registers in an `array` and the stack top and words in fields. Its handler methods update them in place, and each is proved to compute `Step` of the decoded operation |
| `X87Properties` (properties.dfy) | properties of single instructions and of short instruction sequences |

The FSTENV image follows the expressions at x87ops.c:292 and :294. They
shift bits 16-19 of the instruction pointer right by 4, into bits 12-15 of
the words at ea+8 and ea+12. The word at ea+12 therefore repeats the
instruction pointer's high bits; the Intel real-mode environment layout
puts the data pointer's bits 16-19 there instead.

## Model

| member | source | states |
|---|---|---|
| X87Stack.Phys | src/emu/cpu/i386/x87ops.c:3 | ST(x) is physical slot (top + x) mod 8 |
| X87Stack.ST | src/emu/cpu/i386/x87ops.c:3 | the contract states only that ST(0) is the register at the top slot; for other x, reading the slot Phys names is the definition itself, not a stated property |
| X87Stack.SetST | src/emu/cpu/i386/x87ops.c:3 | writing ST(x) changes ST(x) only; every other ST(y), the top and all words are kept |
| X87Stack.Pushed | src/emu/cpu/i386/x87ops.c:44-53 | the top moves down by one mod 8; the new ST(0) is the value; the old ST(x) becomes ST(x+1); no other physical slot, and none of the words, change (the tag word included) |
| X87Stack.Popped | src/emu/cpu/i386/x87ops.c:55-68 | returns the old ST(0); the top moves up by one mod 8; the old ST(x+1) becomes ST(x); the registers are kept; the old top's tag pair reads 3 (empty) |
| X87Stack.PopTagFrame | src/emu/cpu/i386/x87ops.c:59 | a pop leaves the tag pair of every other physical slot as it was |
| X87Stack.PushPop | src/emu/cpu/i386/x87ops.c:44-68 | pushing and then popping returns the pushed value and restores the top and ST(0)..ST(6) |
| X87Stack.PushAll | src/emu/cpu/i386/x87ops.c:374-421 | a run of n pushes lowers the top by n mod 8, leaves the last value pushed in ST(0), and changes none of the words |
| X87Stack.PushAllValues | src/emu/cpu/i386/x87ops.c:44-53 | after a run of pushes, ST(j) is the value pushed j pushes before the last one |
| X87Stack.PushAllOlder | src/emu/cpu/i386/x87ops.c:44-53 | after n pushes, the old ST(x) is found at ST(x+n) |
| X87Fpu.Fpu.constructor | src/emu/cpu/i386/x87ops.c:3 | a new FPU object holds exactly the given state in an 8-cell register array |
| X87Fpu.Fpu.St | src/emu/cpu/i386/x87ops.c:3 | reading ST(x) from the array and top field gives ST(x) of the state |
| X87Fpu.Fpu.SetSt | src/emu/cpu/i386/x87ops.c:3 | an in-place write to ST(x) yields the state SetST describes |
| X87Fpu.Fpu.Push | src/emu/cpu/i386/x87ops.c:44-53 | the in-place push (decrement, wrap 0 to 7, store) yields exactly Pushed of the old state |
| X87Fpu.Fpu.Pop | src/emu/cpu/i386/x87ops.c:55-68 | the in-place pop returns the old ST(0) and yields exactly Popped of the old state |
| X87Words.ChangeSign | src/emu/cpu/i386/x87ops.c:339-344 | FCHS keeps the magnitude bits and complements the sign |
| X87Words.ChangeSignInvolutive | src/emu/cpu/i386/x87ops.c:339-344 | changing the sign twice gives back the original bits |
| X87Words.CompareFlags | src/emu/cpu/i386/x87ops.c:106-127 | bits other than C3, C2 and C0 are kept; C3 is set iff the values are equal; C0 is set iff ST(0) is less; C2 is always clear, so an unordered pair sets nothing |
| X87Words.CompareFlagsPP | src/emu/cpu/i386/x87ops.c:707-731 | the other bits are kept; C3 is set iff equal or unordered; C0 iff less or unordered; C2 iff unordered |
| X87Words.StatusImage | src/emu/cpu/i386/x87ops.c:641-646 | the FSTSW image has top >> 1 in bits 11-12 and 0 in bit 13; bit 10 is C2 ORed with bit 0 of top; the bits outside 10-13 are the status word's |
| X87Words.ClearExceptions | src/emu/cpu/i386/x87ops.c:485-492 | FCLEX clears bits 0-7 and 15 and keeps bits 8-14 |
| X87Words.ZeroDivideResult | src/emu/cpu/i386/x87ops.c:579-586 | with the zero-divide exception unmasked the register is kept; when it is masked, the sign and fraction are kept and the exponent is all ones |
| X87Words.ZeroBecomesSignedInfinity | src/emu/cpu/i386/x87ops.c:579-586 | a masked zero divide rewrites a zero register into an infinity of the same sign |
| X87Words.FractionBecomesNaN | src/emu/cpu/i386/x87ops.c:579-586 | a masked zero divide rewrites a register with a non-zero fraction into a NaN |
| X87Words.MarkEmpty | src/emu/cpu/i386/x87ops.c:59 | the tag pair of the given slot reads 3 (empty) afterwards |
| X87Words.MarkEmptyElsewhere | src/emu/cpu/i386/x87ops.c:59 | every other tag pair is unchanged |
| X87Words.TagOf | src/emu/cpu/i386/x87ops.c:660 | a tag pair is a value below 4 |
| X87Words.TagOfBits | src/emu/cpu/i386/x87ops.c:660 | the pair of slot n is made of bits 2n and 2n+1 of the tag word |
| X87Words.PlaceTag | src/emu/cpu/i386/x87ops.c:661-662 | after clearing and ORing in a pair, the slot's tag pair reads that pair |
| X87Words.CopyTag | src/emu/cpu/i386/x87ops.c:660-662 | the destination slot's tag pair becomes the source slot's |
| X87Words.CopyTagElsewhere | src/emu/cpu/i386/x87ops.c:660-662 | every tag pair except the destination's is unchanged |
| X87Decode.Decode | src/emu/cpu/i386/x87ops.c:82-809 | group DA always decodes to the default branch; so does the memory form of DE; D8 never does; every register-form operation that names ST(i), FADDP and FMULP and the ST(i) operand of D8 included, takes i from bits 0-2; the memory form never names a stack register |
| X87Decode.MemoryFormIgnoresAddressing | src/emu/cpu/i386/x87ops.c:90 | in the memory form only bits 3-5 of ModR/M select the operation |
| X87Decode.RegisterIndexRanges | src/emu/cpu/i386/x87ops.c:82-757 | in the register cases that span eight sub-opcodes (all of D8, FLD ST(i) and FXCH in D9, FDIVR in DC, FSTP ST(i) in DD, FADDP, FMULP and FDIVP in DE), two bytes that agree in bits 3-7 decode to the same operation, each on the index in its own bits 0-2 |
| X87Decode.ConstantLoadDecode | src/emu/cpu/i386/x87ops.c:365-421 | a D9 register-form byte is a constant load iff its sub-opcode is in 0x28-0x2e, and the constant index is the sub-opcode minus 0x28 |
| X87Semantics.ConstRun | src/emu/cpu/i386/x87ops.c:365-421 | sub-opcode 0x28+k pushes one value for FLD1 and 7-k values otherwise; the j-th push is the (k+j)-th constant; the last push is 1.0 for FLD1 and 0.0 otherwise |
| X87Semantics.ConstantsSnoc | src/emu/cpu/i386/x87ops.c:374-421 | each case that falls through adds its own constant to the run; the run that reaches FLDZ is the rest of the table |
| X87Semantics.OpcodeWord | src/emu/cpu/i386/x87ops.c:292 | the word at ea+8 holds the low 11 opcode bits in bits 0-10, 0 in bit 11, and bits 16-19 of the instruction pointer in bits 12-15 |
| X87Semantics.IpHigh | src/emu/cpu/i386/x87ops.c:294 | the word at ea+12 holds bits 16-19 of the instruction pointer in bits 12-15 and zeros below |
| X87Semantics.EnvImage | src/emu/cpu/i386/x87ops.c:286-297 | FSTENV writes seven 16-bit words at ea, ea+2, ..., ea+12: control, status, tag, the low instruction pointer, the opcode word, the low data pointer, the high instruction-pointer bits |
| X87Semantics.JoinInstPtr | src/emu/cpu/i386/x87ops.c:291-294 | the two pieces of the instruction pointer join back into its low 20 bits |
| X87Semantics.EnvImageRoundTrip | src/emu/cpu/i386/x87ops.c:286-297 | reading an image back gives the low 20 bits of the instruction pointer, the low 11 bits of the opcode and the low 16 bits of the data pointer; the last word repeats bits 12-15 of the opcode word |
| X87Semantics.StatusWithTop | src/emu/cpu/i386/x87ops.c:643 | the FSTSW image of a state has top >> 1 in bits 11-12, 0 in bit 13, C2 ORed with bit 0 of top in bit 10, and the status word's bits outside 10-13 |
| X87Semantics.DivideHalts | src/emu/cpu/i386/x87ops.c:143-235 | only FDIV and FDIVR can halt; a 32-bit memory divide halts exactly when the word is 0; a 64-bit memory divide halts exactly on +0.0 or -0.0; a register FDIV halts exactly when ST(i) is zero, a register FDIVR exactly when ST(0) is zero |
| X87Semantics.DivideInto | src/emu/cpu/i386/x87ops.c:579-590 | a non-zero divisor puts the quotient in ST(i); a zero divisor with the exception unmasked changes nothing; a masked one turns a zero ST(i) into an infinity; no other register, and not the top, tag, status or control word, changes |
| X87Semantics.FstpCopied | src/emu/cpu/i386/x87ops.c:659-662 | ST(i) takes ST(0), no other register changes, and physical slot i takes the tag pair of physical slot top |
| X87Semantics.Step | src/emu/cpu/i386/x87ops.c:82-809 | a fatal outcome leaves the state unchanged; the outcome is "unimplemented opcode" iff the default branch is taken; it is "divide by zero" iff a halting divide meets a zero divisor; only FSTSW AX sets AX |
| X87Fpu.Fpu.GroupD8 | src/emu/cpu/i386/x87ops.c:82-242 | the handler's in-place effect and outcome are Step of the decoded operation |
| X87Fpu.Fpu.D8Operation | src/emu/cpu/i386/x87ops.c:85-239 | each D8 sub-opcode, memory or register operand, does what Step says |
| X87Fpu.Fpu.Compare | src/emu/cpu/i386/x87ops.c:106-127 | FCOM sets the flags as CompareFlags says; FCOMP does the same and then pops |
| X87Fpu.Fpu.Divide | src/emu/cpu/i386/x87ops.c:143-161 | a zero divisor gives the fatal divide-by-zero outcome and leaves the state untouched; otherwise ST(0) takes the quotient |
| X87Fpu.Fpu.GroupD9 | src/emu/cpu/i386/x87ops.c:244-449 | the handler's in-place effect and outcome are Step of the decoded operation |
| X87Fpu.Fpu.D9Memory | src/emu/cpu/i386/x87ops.c:248-309 | FLD m32, FST and FSTP m32, FLDCW, FSTENV, FSTCW and the default branch do what Step says |
| X87Fpu.Fpu.StoreEnvironment | src/emu/cpu/i386/x87ops.c:286-297 | the writes issued are exactly the FSTENV image of the current state |
| X87Fpu.Fpu.D9Register | src/emu/cpu/i386/x87ops.c:312-447 | each register-form sub-opcode does what Step says |
| X87Fpu.Fpu.D9StackOperation | src/emu/cpu/i386/x87ops.c:315-344 | FLD ST(i), FXCH, FNOP, FCHS and the unassigned sub-opcodes below 0x21 do what Step says |
| X87Fpu.Fpu.D9ConstantLoad | src/emu/cpu/i386/x87ops.c:365-421 | sub-opcodes 0x28-0x2e do what Step says |
| X87Fpu.Fpu.D9ValueOperation | src/emu/cpu/i386/x87ops.c:346-446 | FABS, FTST, the constant loads, F2XM1, FYL2X, FRNDINT and the default branch do what Step says |
| X87Fpu.Fpu.LoadConstants | src/emu/cpu/i386/x87ops.c:365-421 | the in-place pushes of sub-opcode 0x28+k, with the fall-through, push exactly ConstRun(k) |
| X87Fpu.Fpu.FallThrough | src/emu/cpu/i386/x87ops.c:374-421 | continuing the fall-through from case j pushes the rest of the constant table up to FLDZ |
| X87Fpu.Fpu.PushConstant | src/emu/cpu/i386/x87ops.c:374-421 | one more push extends the run already pushed by that value |
| X87Fpu.Fpu.GroupDA | src/emu/cpu/i386/x87ops.c:451-455 | every DA byte halts as unimplemented and changes nothing |
| X87Fpu.Fpu.GroupDB | src/emu/cpu/i386/x87ops.c:457-516 | the handler's in-place effect and outcome are Step of the decoded operation |
| X87Fpu.Fpu.DBRegister | src/emu/cpu/i386/x87ops.c:481-514 | FCLEX, FINIT, FSETPM and the default branch do what Step says |
| X87Fpu.Fpu.GroupDC | src/emu/cpu/i386/x87ops.c:518-599 | the handler's in-place effect and outcome are Step of the decoded operation |
| X87Fpu.Fpu.DCMemory | src/emu/cpu/i386/x87ops.c:522-571 | FCOM and FCOMP m64, FDIV m64 (which halts on a zero operand) and the default branch do what Step says |
| X87Fpu.Fpu.DCRegister | src/emu/cpu/i386/x87ops.c:572-597 | FDIVR into ST(i) and the default branch do what Step says |
| X87Fpu.Fpu.DivideRegister | src/emu/cpu/i386/x87ops.c:576-593 | a zero divisor ORs the infinity exponent into ST(i) when the exception is masked and keeps ST(i) otherwise; a non-zero divisor stores the quotient |
| X87Fpu.Fpu.GroupDD | src/emu/cpu/i386/x87ops.c:601-671 | the handler's in-place effect and outcome are Step of the decoded operation |
| X87Fpu.Fpu.DDMemory | src/emu/cpu/i386/x87ops.c:605-650 | FLD m64, FST and FSTP m64, FSTSW m16 and the default branch do what Step says |
| X87Fpu.Fpu.StoreIntoRegister | src/emu/cpu/i386/x87ops.c:656-666 | FSTP ST(i) copies ST(0) into ST(i), copies the tag pair of physical slot top into physical slot i, then pops |
| X87Fpu.Fpu.GroupDE | src/emu/cpu/i386/x87ops.c:673-757 | the handler's in-place effect and outcome are Step of the decoded operation |
| X87Fpu.Fpu.DERegister | src/emu/cpu/i386/x87ops.c:688-755 | FADDP, FMULP, FCOMPP, FDIVP and the default branch do what Step says |
| X87Fpu.Fpu.CompareAndPopTwice | src/emu/cpu/i386/x87ops.c:707-731 | the FCOMPP flags are set, then two pops follow |
| X87Fpu.Fpu.StoreAndPop | src/emu/cpu/i386/x87ops.c:691-705 | FADDP and FMULP store the result in ST(i), then pop |
| X87Fpu.Fpu.DivideAndPop | src/emu/cpu/i386/x87ops.c:734-751 | FDIVP divides ST(i) by ST(0), with the zero-divide path, then pops |
| X87Fpu.Fpu.GroupDF | src/emu/cpu/i386/x87ops.c:759-809 | the handler's in-place effect and outcome are Step of the decoded operation |
| X87Fpu.Fpu.StatusWord | src/emu/cpu/i386/x87ops.c:798-803 | the word computed from the fields is the FSTSW image of the state |
| X87Fpu.Fpu.SetCompareFlags | src/emu/cpu/i386/x87ops.c:106-115 | the in-place flag update yields CompareFlags of the old status word and changes nothing else |
| X87Fpu.Fpu.SetCompareFlagsPP | src/emu/cpu/i386/x87ops.c:709-726 | the in-place flag update yields CompareFlagsPP of the old status word and changes nothing else |
| X87Properties.FldStPushesCopy | src/emu/cpu/i386/x87ops.c:315-321 | FLD ST(i) pushes the value ST(i) had before the push and shifts the rest of the stack down |
| X87Properties.FldSingleZeroExtends | src/emu/cpu/i386/x87ops.c:254-261 | FLD m32 puts the 32-bit word into the low half of the register and zeros in the high half |
| X87Properties.StoreThenLoadDouble | src/emu/cpu/i386/x87ops.c:611-639 | FST or FSTP m64 writes ST(0), and FLD m64 of that word pushes an exact copy |
| X87Properties.FxchSwaps | src/emu/cpu/i386/x87ops.c:324-331 | FXCH swaps ST(0) and ST(i) and changes nothing else: no other register, and none of the top, words, opcode or pointers |
| X87Properties.FxchSelf | src/emu/cpu/i386/x87ops.c:324-331 | FXCH ST(0) leaves the state unchanged |
| X87Properties.FchsTwice | src/emu/cpu/i386/x87ops.c:339-344 | FCHS flips bit 63 of ST(0), changes no other register and none of the top, words, opcode or pointers, and a second FCHS restores the whole state |
| X87Properties.FcomEffect | src/emu/cpu/i386/x87ops.c:106-127 | FCOM and FCOMP set the flags as CompareFlags says and keep the registers, control word, opcode and pointers; FCOM keeps the top and tag word; FCOMP raises the top by one, marks the old top empty and keeps every other tag pair |
| X87Properties.FcomppEffect | src/emu/cpu/i386/x87ops.c:707-731 | FCOMPP sets the flags, keeps the registers, raises the top by two and marks both popped slots empty |
| X87Properties.Read16 | src/emu/cpu/i386/x87ops.c:286-297 | a 16-bit read after a log of writes sees either the earlier memory word or a value written to that address |
| X87Properties.Read16Latest | src/emu/cpu/i386/x87ops.c:286-297 | a read sees the latest write to its address |
| X87Properties.EnvImageReadBack | src/emu/cpu/i386/x87ops.c:286-297 | reading the FSTENV image back gives the control, status and tag words at ea, ea+2 and ea+4 |
| X87Properties.FstenvThenFldcw | src/emu/cpu/i386/x87ops.c:279-297 | FSTENV leaves the state unchanged, and FLDCW from the same address restores the saved control word |
| X87Properties.FstswForms | src/emu/cpu/i386/x87ops.c:641-646 | FSTSW m16 and FSTSW AX store the same image and change nothing; the image has top >> 1 in bits 11-12 and 0 in bit 13 |
| X87Properties.FinitReset | src/emu/cpu/i386/x87ops.c:493-504 | FINIT loads 0x037f, 0 and 0xffff into the words and clears the pointers and opcode, so every tag pair reads empty; registers and top are kept |
| X87Properties.FclexClears | src/emu/cpu/i386/x87ops.c:485-492 | FCLEX clears status bits 0-7 and 15, keeps bits 8-14 and changes nothing else |
| X87Properties.ConstPushCounts | src/emu/cpu/i386/x87ops.c:365-421 | sub-opcodes 0x28-0x2e push 1, 6, 5, 4, 3, 2 and 1 registers |
| X87Properties.ConstRunEffect | src/emu/cpu/i386/x87ops.c:365-421 | the pushes lower the top by the push count, leave 1.0 (FLD1) or 0.0 (all others) in ST(0), and keep the words |
| X87Properties.ConstantLoadEffect | src/emu/cpu/i386/x87ops.c:365-421 | the same, stated for the decoded constant-load instruction |
| X87Properties.ConstRunValues | src/emu/cpu/i386/x87ops.c:374-421 | after a constant load, ST(j) holds the constant that was pushed j pushes before the last |
| X87Properties.ConstRunOlder | src/emu/cpu/i386/x87ops.c:374-421 | the registers that were on the stack before the load sit push-count places deeper |
| X87Properties.ConstantLoadStack | src/emu/cpu/i386/x87ops.c:365-421 | both of the above, for the decoded instruction |
| X87Properties.FdivrStZeroDivide | src/emu/cpu/i386/x87ops.c:576-593 | DC FDIVR with a zero ST(i) completes: when masked it leaves an infinity in ST(i), and when unmasked it changes nothing |
| X87Properties.FdivrStKeepsStack | src/emu/cpu/i386/x87ops.c:576-593 | DC FDIVR never pops, keeps the status word, and changes no register other than ST(i) |
| X87Properties.FdivpZeroDivide | src/emu/cpu/i386/x87ops.c:734-751 | FDIVP always completes and pops; with a zero ST(0) the register ST(i) was in holds ZeroDivideResult |
| X87Properties.MemoryDivideHalts | src/emu/cpu/i386/x87ops.c:143-161 | D8 FDIV and FDIVR m32 on a zero word, and DC FDIV m64 (x87ops.c:554-565) on +0.0 or -0.0, halt with a divide-by-zero error and change nothing; on any other word they complete and only ST(0) changes, to the quotient |
| X87Properties.RegisterDivideHalts | src/emu/cpu/i386/x87ops.c:217-235 | D8 register FDIV halts iff ST(i) is zero, D8 register FDIVR iff ST(0) is zero; a halt changes nothing, otherwise only ST(0) changes, to the quotient |
| X87Properties.RegisterFdivrCompletes | src/emu/cpu/i386/x87ops.c:572-597 | the register form of DC halts iff it takes its default branch |
| X87Properties.RegisterFdivpCompletes | src/emu/cpu/i386/x87ops.c:688-755 | the register form of DE halts iff it takes its default branch |
| X87Properties.FstpTags | src/emu/cpu/i386/x87ops.c:656-666 | after FSTP ST(i), physical slot top is empty, physical slot i has the old top's tag pair, and every other pair is kept |
| X87Properties.FstpStEffect | src/emu/cpu/i386/x87ops.c:656-666 | FSTP ST(i) leaves the old ST(0) in the new ST(i-1), raises the top by one, and updates the tags as FstpTags states |
| X87Properties.LoadZerosThenCompare | src/emu/cpu/i386/x87ops.c:414-421 | FLDZ, FLDZ, FCOMPP, with the host comparing two zeros as equal, sets C3, clears C2 and C0, restores the stack depth and ST(0)..ST(5), and leaves the zeros in ST(6) and ST(7) |
| X87Properties.UnimplementedGroups | src/emu/cpu/i386/x87ops.c:451-455 | group DA halts as unimplemented for every byte, and so does the memory form of DE, with the state unchanged |

## Left out

- Floating-point evaluation is not modelled. Each result comes from `Host`:
  - the FADD, FMUL, FSUB, FSUBR, FDIV and FDIVR quotients and sums;
  - the integer conversions of FILD m32 and FILD m64;
  - the single-precision image of FST m32 (`FPU_SINGLE_INT32`);
  - the rounding of FISTP m64 (`X87_FROUND`);
  - F2XM1, FYL2X and FRNDINT;
  - the ordering the compares and FTST test.
- FABS applies C `abs` to the integer view of ST(0). Its result is taken from `Host.value` like the other computed values, so the model does not state what `abs` does to those bits.
- FADDP and FMULP read their second operand as `ST(fpu_top)`, which passes a physical index to a stack-relative macro. The sum or product, and with it that operand, comes from `Host`.
- Instruction fetch, effective-address computation and the memory bus (`FETCH`, `GetEA`, `READ16/32/64`, `WRITE16/32/64`) are modelled by two parameters and one output:
  - the effective address is a parameter;
  - the words read are a parameter (`BusReads`);
  - the ordered list of writes is an output.
- `REG16(AX)` is an output of the FSTSW AX outcome. The rest of the CPU state is not part of this model.
- Cycle counting (`CYCLES`) is not modelled.
- The text of the `fatalerror` messages, and the program counter they print, are not modelled. Only which of the two fatal conditions occurs is kept.
- The widths of `fpu_inst_ptr` and `fpu_data_ptr` are taken as 32 bits. Their declarations are not part of this model, and only their low 20 bits are observed.
- X87Properties.Read16: models memory as seen through 16-bit writes only, which are the only writes FSTENV issues.
- The fall-through of the constant-load `switch` cases is modelled by the recursive method `FallThrough`, one case per call, and not by a single `switch`.
