/** The FPU state as a value, and the two stack primitives FPU_PUSH and
    FPU_POP as functions on it.  ST(x) names physical slot (top + x) & 7. */
module X87Stack {
  import opened X87Words

  /** The eight 64-bit register cells, seen through their integer view. */
  type Registers = r: seq<bv64> | |r| == 8 witness [0, 0, 0, 0, 0, 0, 0, 0]

  /** Everything the FPU instructions read or write. */
  datatype FpuState = FpuState(
    reg: Registers,
    top: Slot,
    tag: bv16,
    status: bv16,
    control: bv16,
    opcode: bv16,
    instPtr: bv32,
    dataPtr: bv32)

  /** Physical slot of ST(x) when the top of stack is `top`: (top + x) & 7. */
  function Phys(top: Slot, x: Slot): (p: Slot)
    ensures p == (top + x) % 8
  {
    if top + x < 8 then top + x else top + x - 8
  }

  /** The register ST(x); ST(0) is the register at the top slot. */
  function ST(s: FpuState, x: Slot): (v: bv64)
    ensures x == 0 ==> v == s.reg[s.top]
  {
    s.reg[Phys(s.top, x)]
  }

  /** `s` with ST(x) replaced by `v`. */
  function SetST(s: FpuState, x: Slot, v: bv64): (r: FpuState)
    ensures ST(r, x) == v
    ensures forall y: Slot :: y != x ==> ST(r, y) == ST(s, y)
    ensures r.top == s.top && r.tag == s.tag && r.status == s.status && r.control == s.control
    ensures r.opcode == s.opcode && r.instPtr == s.instPtr && r.dataPtr == s.dataPtr
  {
    s.(reg := s.reg[Phys(s.top, x) := v])
  }

  /** SetST of the value already there changes nothing. */
  lemma SetSTSame(s: FpuState, x: Slot)
    ensures SetST(s, x, ST(s, x)) == s
  {
    assert SetST(s, x, ST(s, x)).reg == s.reg;
  }

  /** A slot number as the 16-bit word the tag-word shifts use. */
  function SlotWord(p: Slot): (w: bv16)
    ensures w < 8
  {
    p as bv16
  }

  lemma SlotWordInjective(p: Slot, q: Slot)
    requires p != q
    ensures SlotWord(p) != SlotWord(q)
  {
  }

  /** The tag bits of physical slot `p`. */
  function Tag(s: FpuState, p: Slot): bv16 {
    TagOf(s.tag, SlotWord(p))
  }

  /** FPU_PUSH: move the top down by one, wrapping 0 to 7, and store `v`
      there.  The tag word is not touched. */
  function Pushed(s: FpuState, v: bv64): (r: FpuState)
    ensures r.top == (s.top + 7) % 8
    ensures ST(r, 0) == v
    ensures forall x: Slot :: x < 7 ==> ST(r, x + 1) == ST(s, x)
    ensures forall p: Slot :: p != r.top ==> r.reg[p] == s.reg[p]
    ensures r.tag == s.tag && r.status == s.status && r.control == s.control
    ensures r.opcode == s.opcode && r.instPtr == s.instPtr && r.dataPtr == s.dataPtr
  {
    var t := if s.top == 0 then 7 else s.top - 1;
    s.(top := t, reg := s.reg[t := v])
  }

  /** FPU_POP: the old ST(0), and the state whose tag word marks the old top
      slot empty and whose top has moved up by one, wrapping 7 to 0. */
  function Popped(s: FpuState): (r: (bv64, FpuState))
    ensures r.0 == ST(s, 0)
    ensures r.1.top == (s.top + 1) % 8
    ensures forall x: Slot :: x < 7 ==> ST(r.1, x) == ST(s, x + 1)
    ensures r.1.reg == s.reg
    ensures Tag(r.1, s.top) == TAG_EMPTY
    ensures r.1.status == s.status && r.1.control == s.control
    ensures r.1.opcode == s.opcode && r.1.instPtr == s.instPtr && r.1.dataPtr == s.dataPtr
  {
    var v := s.reg[s.top];
    var t := if s.top == 7 then 0 else s.top + 1;
    (v, s.(tag := MarkEmpty(s.tag, SlotWord(s.top)), top := t))
  }

  /** A pop leaves the tag pair of every slot other than the old top alone. */
  lemma PopTagFrame(s: FpuState, p: Slot)
    requires p != s.top
    ensures Tag(Popped(s).1, p) == Tag(s, p)
  {
    SlotWordInjective(p, s.top);
    MarkEmptyElsewhere(s.tag, SlotWord(s.top), SlotWord(p));
  }

  /** Push then pop restores registers, top and the words other than the
      tag word, and returns the pushed value. */
  lemma PushPop(s: FpuState, v: bv64)
    ensures Popped(Pushed(s, v)).0 == v
    ensures Popped(Pushed(s, v)).1.top == s.top
    ensures forall x: Slot :: x < 7 ==> ST(Popped(Pushed(s, v)).1, x) == ST(s, x)
  {
  }

  /** The state after pushing `vals[0]`, then `vals[1]`, and so on: the
      top moves down by the number of values, modulo 8, the last value
      pushed is ST(0), and none of the words change. */
  function PushAll(s: FpuState, vals: seq<bv64>): (r: FpuState)
    ensures r.top == (s.top - |vals|) % 8
    ensures vals != [] ==> ST(r, 0) == vals[|vals| - 1]
    ensures r.tag == s.tag && r.status == s.status && r.control == s.control
    ensures r.opcode == s.opcode && r.instPtr == s.instPtr && r.dataPtr == s.dataPtr
    decreases |vals|
  {
    if vals == [] then s else PushAll(Pushed(s, vals[0]), vals[1..])
  }

  lemma PushAllOne(s: FpuState, v: bv64)
    ensures PushAll(s, [v]) == Pushed(s, v)
  {
    assert [v][1..] == [];
  }

  /** Pushing one more value after a run of pushes. */
  lemma {:induction false} PushAllSnoc(s: FpuState, vals: seq<bv64>, v: bv64)
    ensures PushAll(s, vals + [v]) == Pushed(PushAll(s, vals), v)
    decreases |vals|
  {
    if vals == [] {
      assert [v][1..] == [];
    } else {
      assert (vals + [v])[1..] == vals[1..] + [v];
      PushAllSnoc(Pushed(s, vals[0]), vals[1..], v);
    }
  }

  /** After a run of pushes the registers that were on the stack before sit
      |vals| places further down. */
  lemma {:induction false} PushAllOlder(s: FpuState, vals: seq<bv64>, x: Slot)
    requires x + |vals| < 8
    ensures ST(PushAll(s, vals), x + |vals|) == ST(s, x)
    decreases |vals|
  {
    if vals != [] {
      var s1 := Pushed(s, vals[0]);
      PushAllOlder(s1, vals[1..], x + 1);
      assert ST(s1, x + 1) == ST(s, x);
    }
  }

  /** After a run of pushes ST(j) holds the value pushed j pushes before the last. */
  lemma {:induction false} PushAllValues(s: FpuState, vals: seq<bv64>, j: Slot)
    requires j < |vals|
    ensures ST(PushAll(s, vals), j) == vals[|vals| - 1 - j]
    decreases |vals|
  {
    var s1 := Pushed(s, vals[0]);
    var rest := vals[1..];
    if j < |rest| {
      PushAllValues(s1, rest, j);
      assert rest[|rest| - 1 - j] == vals[|vals| - 1 - j];
    } else {
      PushAllOlder(s1, rest, 0);
    }
  }
}
