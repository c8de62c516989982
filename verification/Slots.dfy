/** Frames in memory: every variable's value is in its slot, no register is relied on. What the code
    that loads and stores operands does to such a memory. */
module Slots {
  import opened Common
  import opened Layout
  import opened Ir
  import opened Represent
  import opened Static
  import opened Frames
  import opened Mips
  import opened CodeGen

  /** Slots are sequences of words. */
  ghost predicate WordLayout(lay: FrameLayout) {
    && GoodLayout(lay)
    && lay.size % 4 == 0 && (lay.slots == map[] ==> lay.size == 0)
    && forall op :: op in lay.slots ==> lay.slots[op].offset % 4 == 0
  }

  /** There is room for a word in the slot of `op`. */
  predicate HasWord(lay: FrameLayout, op: Operand) {
    op in lay.slots && lay.slots[op].size >= 4
  }

  function SlotAddr(m: Machine, fr: Frame, op: Operand): int {
    fr.fp + Offset(m.layout(fr.fn), op)
  }

  ghost predicate SlotHolds(m: Machine, fr: Frame, mem: map<int, int>, op: Operand)
    requires op in fr.env
  {
    && HasSlot(op) && HasWord(m.layout(fr.fn), op)
    && (op.Variable? ==> !Owns(fr, op.name))
    && Load(mem, SlotAddr(m, fr, op)) == fr.env[op]
  }

  /** An object of the running activation is a slot of its frame; the others lie above what is saved on
      the stack when a function is entered. */
  ghost predicate InStack(m: Machine, fr: Frame, h: Home)
    requires h in fr.objects
  {
    var r, slots := fr.objects[h], m.layout(fr.fn).slots;
    && h.depth <= fr.depth
    && if h.depth == fr.depth then
         && Variable(h.name) in slots
         && r == Region(fr.fp - slots[Variable(h.name)].offset, slots[Variable(h.name)].size)
       else
         fr.fp + 8 <= r.base && r.base % 4 == 0
  }

  ghost predicate ObjectsPlaced(m: Machine, fr: Frame) {
    forall h {:trigger InStack(m, fr, h)} :: h in fr.objects ==> InStack(m, fr, h)
  }

  ghost predicate CellsHeld(fr: Frame, mem: map<int, int>) {
    forall a {:trigger CellHolds(fr, mem, a)} :: a in fr.mem ==> CellHolds(fr, mem, a)
  }

  ghost predicate CellHolds(fr: Frame, mem: map<int, int>, a: int)
    requires a in fr.mem
  {
    IsCell(fr, a) && Load(mem, a) == fr.mem[a]
  }

  /** Memory holds the frame: its variables in their slots, and the cells of all structures and arrays. */
  ghost predicate InMemory(m: Machine, fr: Frame, mem: map<int, int>) {
    && Fits(m, fr.fn, fr.fp) && fr.fp % 4 == 0 && WordLayout(m.layout(fr.fn))
    && (forall op {:trigger SlotHolds(m, fr, mem, op)} :: op in fr.env ==> SlotHolds(m, fr, mem, op))
    && ObjectsPlaced(m, fr)
    && CellsHeld(fr, mem)
  }

  /** The processor is at work in frame `fr`. */
  ghost predicate AtWork(m: Machine, fr: Frame, c: Core) {
    && |c.regs| == 32 && Reg(c, ZERO) == 0
    && Reg(c, FP) == fr.fp && Reg(c, SP) == fr.fp - m.layout(fr.fn).size
    && InMemory(m, fr, c.mem)
  }

  /** Only registers that hold operands and the quotient register may differ. */
  ghost predicate SameRegs(c: Core, c': Core) {
    && |c'.regs| == |c.regs| == 32
    && forall r: nat :: r < 32 && !(FIRST <= r < FIRST + REGISTERS) ==> Reg(c', r) == Reg(c, r)
  }

  /** Besides, memory below `fp` may differ. */
  ghost predicate Calm(c: Core, c': Core, fp: int) {
    && SameRegs(c, c')
    && forall a {:trigger Load(c'.mem, a)} :: fp <= a ==> Load(c'.mem, a) == Load(c.mem, a)
  }

  /** Above `fr` nothing changes but the objects of the activations that wait. */
  ghost predicate SameAbove(fr: Frame, mem: map<int, int>, mem': map<int, int>) {
    forall a {:trigger Load(mem', a)} :: fr.fp <= a && !OuterCell(fr, a) ==> Load(mem', a) == Load(mem, a)
  }

  ghost predicate Mild(fr: Frame, c: Core, c': Core) {
    SameRegs(c, c') && SameAbove(fr, c.mem, c'.mem)
  }

  // ----- registers -----

  function RegisterFor(used: seq<Operand>, op: Operand): nat {
    if op == Const(0) then ZERO else FIRST + IndexOf(used, Root(op))
  }

  function UsedWith(used: seq<Operand>, op: Operand): seq<Operand> {
    if op == Const(0) || Root(op) in used then used else used + [Root(op)]
  }

  /** An operand that the three-address machine can read. */
  predicate Readable(op: Operand) {
    IsMemOp(op) ==> HasSlot(op.opr)
  }

  lemma {:induction false} IndexStable(used: seq<Operand>, more: seq<Operand>, op: Operand)
    requires op in used
    ensures IndexOf(used + more, op) == IndexOf(used, op)
    decreases |used|
  {
    if used[0] != op {
      assert (used + more)[1..] == used[1..] + more;
      IndexStable(used[1..], more, op);
    }
  }

  lemma {:induction false} IndexNew(used: seq<Operand>, op: Operand)
    requires op !in used
    ensures IndexOf(used, op) == |used| && IndexOf(used + [op], op) == |used|
    decreases |used|
  {
    if used != [] {
      assert (used + [op])[1..] == used[1..] + [op];
      IndexNew(used[1..], op);
    }
  }

  /** Operands get registers by what they are reached through; a register stays with it. */
  lemma RegisterStays(used: seq<Operand>, op: Operand)
    ensures RegisterFor(UsedWith(used, op), op) == RegisterFor(used, op)
  {
    if op != Const(0) && Root(op) !in used {
      IndexNew(used, Root(op));
    }
  }

  lemma RegistersApart(used: seq<Operand>, x: Operand, y: Operand)
    requires x != Const(0) && Root(x) in used && Root(x) != Root(y)
    ensures RegisterFor(used, x) != RegisterFor(used, y)
  {
    if y != Const(0) && Root(y) !in used {
      IndexNew(used, Root(y));
    }
  }

  lemma LoadRegister(sizes: Operand -> nat, a: Alloc, op: Operand, load: bool)
    requires |a.used| < REGISTERS && Readable(op)
    ensures var x := LoadOp(sizes, a, op, load);
            && x.reg == RegisterFor(a.used, op) && x.a.used == UsedWith(a.used, op)
            && (x.reg == ZERO || FIRST <= x.reg < FIRST + REGISTERS)
            && (x.reg == ZERO <==> op == Const(0))
  {
  }

  lemma HandleExtends(lay: FrameLayout, op: Operand, size: nat)
    ensures Extends(lay, Handle(lay, op, size)) && op in Handle(lay, op, size).slots
  {
  }

  lemma {:induction false} LoadExtends(sizes: Operand -> nat, a: Alloc, op: Operand, load: bool)
    ensures Extends(a.lay, LoadOp(sizes, a, op, load).a.lay)
    decreases op
  {
    match op
    case GetVal(o) => LoadExtends(sizes, a, o, load);
    case GetAddr(o) => LoadExtends(sizes, a, o, load);
    case _ =>
  }

  // ----- loading operands -----

  lemma SlotInFrame(m: Machine, fr: Frame, op: Operand)
    requires Fits(m, fr.fn, fr.fp) && fr.fp % 4 == 0 && WordLayout(m.layout(fr.fn)) && op in m.layout(fr.fn).slots
    ensures Aligned(SlotAddr(m, fr, op)) && fr.fp - m.layout(fr.fn).size <= SlotAddr(m, fr, op) <= fr.fp
    ensures HasWord(m.layout(fr.fn), op) ==> SlotAddr(m, fr, op) <= fr.fp - 4
  {
  }

  /** Where a cell lies. */
  lemma CellInStack(m: Machine, fr: Frame, mem: map<int, int>, a: int) returns (h: Home)
    requires InMemory(m, fr, mem) && IsCell(fr, a)
    ensures h in fr.objects && InRegion(fr.objects[h], a) && InStack(m, fr, h)
    ensures Aligned(a) && fr.fp - m.layout(fr.fn).size <= a && (h.depth == fr.depth ==> a <= fr.fp - 4)
    ensures OuterCell(fr, a) ==> h.depth < fr.depth
  {
    if OuterCell(fr, a) {
      h :| h in fr.objects && h.depth < fr.depth && InRegion(fr.objects[h], a);
    } else {
      h :| h in fr.objects && InRegion(fr.objects[h], a);
    }
    assert InStack(m, fr, h);
    CellAligned(m, fr, h, a);
  }

  lemma CellAligned(m: Machine, fr: Frame, h: Home, a: int)
    requires Fits(m, fr.fn, fr.fp) && fr.fp % 4 == 0 && WordLayout(m.layout(fr.fn))
    requires h in fr.objects && InStack(m, fr, h) && InRegion(fr.objects[h], a)
    ensures Aligned(a) && fr.fp - m.layout(fr.fn).size <= a && (h.depth == fr.depth ==> a <= fr.fp - 4)
  {
    if h.depth == fr.depth {
      SlotInFrame(m, fr, Variable(h.name));
    }
  }

  /** No cell of a waiting activation is a slot of the frame, or one of the two words that are saved
      above it. */
  lemma OuterIsAbove(m: Machine, fr: Frame, a: int)
    requires ObjectsPlaced(m, fr) && OuterCell(fr, a)
    ensures fr.fp + 8 <= a
  {
    var h :| h in fr.objects && h.depth < fr.depth && InRegion(fr.objects[h], a);
    assert InStack(m, fr, h);
  }

  /** Loading an operand puts its value into its register and changes nothing else. */
  lemma LoadOk(m: Machine, fr: Frame, sizes: Operand -> nat, a: Alloc, op: Operand, c: Core, v: int)
    requires |c.regs| == 32 && Reg(c, ZERO) == 0 && Reg(c, FP) == fr.fp && InMemory(m, fr, c.mem)
    requires |a.used| < REGISTERS && Extends(m.layout(fr.fn), a.lay) && Get(fr, op) == Some(v)
    ensures var x := LoadOp(sizes, a, op, true);
            && RunCore(x.code, c) == Some(SetReg(c, x.reg, v)) && Reg(SetReg(c, x.reg, v), x.reg) == v
            && x.reg == RegisterFor(a.used, op) && x.a.used == UsedWith(a.used, op)
            && (x.reg == ZERO || FIRST <= x.reg < FIRST + REGISTERS)
            && Extends(m.layout(fr.fn), x.a.lay)
  {
    LoadExtends(sizes, a, op, true);
    if op.GetVal? || op.GetAddr? {
      LoadRegister(sizes, a, op, true);
      LoadMemory(m, fr, sizes, a, op, c, v);
    } else {
      LoadRegister(sizes, a, op, true);
      if HasSlot(op) {
        assert SlotHolds(m, fr, c.mem, op);
        LoadWord(m, fr, sizes, a, op, c);
      } else if op != Const(0) {
        RunCoreOne(LoadOp(sizes, a, op, true).code[0], c);
      }
    }
  }

  lemma RunCoreOne(ins: Ins, c: Core)
    ensures RunCore([ins], c) == Straight(ins, c)
  {
    if Straight(ins, c).Some? {
      assert [ins][1..] == [];
    }
  }

  lemma WordCode(sizes: Operand -> nat, a: Alloc, op: Operand)
    requires HasSlot(op) && |a.used| < REGISTERS
    ensures var x := LoadOp(sizes, a, op, true); x.code == [Lw(x.reg, Offset(x.a.lay, op), FP)]
    ensures LoadOp(sizes, a, op, true).a.lay == Handle(a.lay, op, sizes(op))
  {
  }

  lemma LoadWord(m: Machine, fr: Frame, sizes: Operand -> nat, a: Alloc, op: Operand, c: Core)
    requires |c.regs| == 32 && Reg(c, FP) == fr.fp && InMemory(m, fr, c.mem) && HasSlot(op)
    requires op in m.layout(fr.fn).slots
    requires |a.used| < REGISTERS && Extends(m.layout(fr.fn), a.lay)
    ensures var x := LoadOp(sizes, a, op, true);
            RunCore(x.code, c) == Some(SetReg(c, x.reg, Load(c.mem, SlotAddr(m, fr, op))))
  {
    hide LoadOp, RunCore;
    var x := LoadOp(sizes, a, op, true);
    WordCode(sizes, a, op);
    HandleExtends(a.lay, op, sizes(op));
    SlotInFrame(m, fr, op);
    RunCoreOne(x.code[0], c);
  }

  lemma SetRegTwice(c: Core, r: nat, v: int, w: int)
    ensures SetReg(SetReg(c, r, v), r, w) == SetReg(c, r, w)
  {
  }

  /** One more instruction that writes the same register. */
  lemma ThenSet(code: Text32, c: Core, r: nat, v: int, last: Ins, w: int)
    requires RunCore(code, c) == Some(SetReg(c, r, v))
    requires Straight(last, SetReg(c, r, v)) == Some(SetReg(SetReg(c, r, v), r, w))
    ensures RunCore(code + [last], c) == Some(SetReg(c, r, w))
  {
    RunCoreAdd(code, [last], c, SetReg(c, r, v));
    RunCoreOne(last, SetReg(c, r, v));
    SetRegTwice(c, r, v, w);
  }

  /** Operands that are reached through a slot. */
  lemma LoadMemory(m: Machine, fr: Frame, sizes: Operand -> nat, a: Alloc, op: Operand, c: Core, v: int)
    requires |c.regs| == 32 && Reg(c, FP) == fr.fp && InMemory(m, fr, c.mem)
    requires |a.used| < REGISTERS && Extends(m.layout(fr.fn), a.lay) && Get(fr, op) == Some(v) && IsMemOp(op)
    ensures var x := LoadOp(sizes, a, op, true); RunCore(x.code, c) == Some(SetReg(c, x.reg, v)) && FIRST <= x.reg
  {
    var o := op.opr;
    var inner := LoadOp(sizes, a, o, true);
    var r, first := inner.reg, Load(c.mem, SlotAddr(m, fr, o));
    LoadRegister(sizes, a, o, true);
    if op.GetVal? {
      assert SlotHolds(m, fr, c.mem, o);
      assert CellHolds(fr, c.mem, fr.env[o]);
      var _ := CellInStack(m, fr, c.mem, fr.env[o]);
      LoadWord(m, fr, sizes, a, o, c);
      ThenSet(inner.code, c, r, first, Lw(r, 0, r), v);
    } else {
      assert InStack(m, fr, Home(fr.depth, o.name));
      LoadWord(m, fr, sizes, a, o, c);
      AddressOk(m, fr, sizes, inner, o, c, first, v);
    }
  }

  lemma AddressOk(m: Machine, fr: Frame, sizes: Operand -> nat, inner: Loaded, o: Operand, c: Core, first: int, v: int)
    requires |c.regs| == 32 && Reg(c, FP) == fr.fp && InMemory(m, fr, c.mem) && FIRST <= inner.reg < FIRST + REGISTERS
    requires Extends(m.layout(fr.fn), inner.a.lay) && Get(fr, GetAddr(o)) == Some(v)
    requires RunCore(inner.code, c) == Some(SetReg(c, inner.reg, first))
    ensures RunCore(inner.code + [Addi(inner.reg, FP, Offset(Handle(inner.a.lay, o, sizes(o)), o))], c)
            == Some(SetReg(c, inner.reg, v))
  {
    assert InStack(m, fr, Home(fr.depth, o.name));
    SlotInFrame(m, fr, o);
    var off := Offset(Handle(inner.a.lay, o, sizes(o)), o);
    assert v == fr.fp + off && IsInt32(v);
    AddSets(c, inner.reg, first, off, v);
    ThenSet(inner.code, c, inner.reg, first, Addi(inner.reg, FP, off), v);
  }

  lemma AddSets(c: Core, r: nat, first: int, off: int, v: int)
    requires |c.regs| == 32 && FIRST <= r < FIRST + REGISTERS && Reg(c, FP) + off == v && IsInt32(v)
    ensures Straight(Addi(r, FP, off), SetReg(c, r, first)) == Some(SetReg(SetReg(c, r, first), r, v))
  {
  }

  /** Registers for operands may change freely. */
  lemma SetRegCalm(m: Machine, fr: Frame, c: Core, r: nat, v: int)
    requires AtWork(m, fr, c) && (r == ZERO || FIRST <= r < FIRST + REGISTERS)
    ensures AtWork(m, fr, SetReg(c, r, v)) && Calm(c, SetReg(c, r, v), fr.fp)
  {
  }

  lemma CalmThen(a: Core, b: Core, c: Core, fp: int)
    requires Calm(a, b, fp) && Calm(b, c, fp)
    ensures Calm(a, c, fp)
  {
  }

  /** Two operands, neither of which touches memory, in their registers at the same time. */
  lemma LoadTwo(m: Machine, fr: Frame, sizes: Operand -> nat, lay: FrameLayout, h: seq<nat>, op1: Operand, op2: Operand,
                c: Core, v1: int, v2: int) returns (c': Core)
    requires AtWork(m, fr, c) && Extends(m.layout(fr.fn), lay) && !IsMemOp(op1) && !IsMemOp(op2)
    requires Get(fr, op1) == Some(v1) && Get(fr, op2) == Some(v2)
    ensures var x := LoadOp(sizes, Alloc(lay, [], h), op1, true);
            var y := LoadOp(sizes, x.a, op2, true);
            && RunCore(x.code + y.code, c) == Some(c') && AtWork(m, fr, c') && Calm(c, c', fr.fp) && c'.mem == c.mem
            && Reg(c', x.reg) == v1 && Reg(c', y.reg) == v2
            && Extends(m.layout(fr.fn), y.a.lay) && |y.a.used| <= 2
  {
    var a := Alloc(lay, [], h);
    var x := LoadOp(sizes, a, op1, true);
    var y := LoadOp(sizes, x.a, op2, true);
    LoadOk(m, fr, sizes, a, op1, c, v1);
    var c1 := SetReg(c, x.reg, v1);
    SetRegCalm(m, fr, c, x.reg, v1);
    LoadOk(m, fr, sizes, x.a, op2, c1, v2);
    c' := SetReg(c1, y.reg, v2);
    SetRegCalm(m, fr, c1, y.reg, v2);
    CalmThen(c, c1, c', fr.fp);
    RunCoreAdd(x.code, y.code, c, c1);
    RegisterStays([], op1);
    if op1 != Const(0) && op1 != op2 {
      RegistersApart(x.a.used, op1, op2);
    }
  }

  // ----- storing -----

  /** Where a store to `op` goes. */
  function DestAddr(m: Machine, fr: Frame, op: Operand): int {
    if op.GetVal? && op.opr in fr.env then fr.env[op.opr] else SlotAddr(m, fr, op)
  }

  /** The slot of a variable or temporary is no cell of a structure or array. */
  lemma SlotIsNoCell(m: Machine, fr: Frame, mem: map<int, int>, op: Operand, b: int)
    requires InMemory(m, fr, mem) && IsCell(fr, b) && HasWord(m.layout(fr.fn), op)
    requires op.Variable? ==> !Owns(fr, op.name)
    ensures SlotAddr(m, fr, op) != b
  {
    var h := CellInStack(m, fr, mem, b);
    SlotInFrame(m, fr, op);
    if h.depth == fr.depth {
      assert h == Home(fr.depth, h.name);
      assert SlotsApart(m.layout(fr.fn).slots[op], m.layout(fr.fn).slots[Variable(h.name)]);
    }
  }

  lemma StoreSlot(m: Machine, fr: Frame, mem: map<int, int>, op: Operand, v: int, fr': Frame)
    requires InMemory(m, fr, mem) && Put(fr, op, v) == Some(fr')
    requires HasSlot(op) && HasWord(m.layout(fr.fn), op)
    ensures InMemory(m, fr', mem[SlotAddr(m, fr, op) := v])
  {
    var mem' := mem[SlotAddr(m, fr, op) := v];
    forall other | other in fr'.env ensures SlotHolds(m, fr', mem', other) {
      assert other != op ==> SlotHolds(m, fr, mem, other);
      assert other != op ==> SlotsApart(m.layout(fr.fn).slots[op], m.layout(fr.fn).slots[other]);
    }
    SamePlaces(m, fr, fr');
    forall b | b in fr'.mem ensures CellHolds(fr', mem', b) {
      assert CellHolds(fr, mem, b);
      SlotIsNoCell(m, fr, mem, op, b);
      SameCell(fr, fr', b);
    }
  }

  lemma SamePlaces(m: Machine, fr: Frame, fr': Frame)
    requires ObjectsPlaced(m, fr) && SameShape(fr, fr')
    ensures ObjectsPlaced(m, fr')
  {
    forall h | h in fr'.objects ensures InStack(m, fr', h) {
      assert InStack(m, fr, h);
    }
  }

  lemma SameCell(fr: Frame, fr': Frame, a: int)
    requires fr'.objects == fr.objects && IsCell(fr, a)
    ensures IsCell(fr', a)
  {
    var h :| h in fr.objects && InRegion(fr.objects[h], a);
    assert h in fr'.objects && InRegion(fr'.objects[h], a);
  }

  /** A store changes what is stored to and nothing else. */
  lemma StoreOk(m: Machine, fr: Frame, mem: map<int, int>, op: Operand, v: int, fr': Frame)
    requires InMemory(m, fr, mem) && Put(fr, op, v) == Some(fr')
    requires HasSlot(op) ==> HasWord(m.layout(fr.fn), op)
    ensures InMemory(m, fr', mem[DestAddr(m, fr, op) := v]) && SameShape(fr, fr')
    ensures Aligned(DestAddr(m, fr, op)) && fr.fp - m.layout(fr.fn).size <= DestAddr(m, fr, op)
    ensures DestAddr(m, fr, op) <= fr.fp - 4 || (!HasSlot(op) && OuterCell(fr, DestAddr(m, fr, op)))
  {
    if HasSlot(op) {
      SlotInFrame(m, fr, op);
      StoreSlot(m, fr, mem, op, v, fr');
    } else {
      StoreCell(m, fr, mem, op, v, fr');
    }
  }

  lemma StoreCell(m: Machine, fr: Frame, mem: map<int, int>, op: Operand, v: int, fr': Frame)
    requires InMemory(m, fr, mem) && Put(fr, op, v) == Some(fr') && op.GetVal?
    ensures InMemory(m, fr', mem[DestAddr(m, fr, op) := v])
    ensures Aligned(DestAddr(m, fr, op)) && fr.fp - m.layout(fr.fn).size <= DestAddr(m, fr, op)
    ensures DestAddr(m, fr, op) <= fr.fp - 4 || OuterCell(fr, DestAddr(m, fr, op))
  {
    var a := fr.env[op.opr];
    var h := CellInStack(m, fr, mem, a);
    var mem' := mem[a := v];
    forall other | other in fr'.env ensures SlotHolds(m, fr', mem', other) {
      assert SlotHolds(m, fr, mem, other);
      SlotIsNoCell(m, fr, mem, other, a);
    }
    SamePlaces(m, fr, fr');
    forall b | b in fr'.mem ensures CellHolds(fr', mem', b) {
      assert b != a ==> CellHolds(fr, mem, b);
      SameCell(fr, fr', b);
    }
  }
}
