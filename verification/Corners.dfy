/** Text that the generator emits for lists which the translator does not make, or only for calls with very
    many arguments. */
module Corners {
  import opened Common
  import opened Syntax
  import opened Ir
  import opened Frames
  import opened Mips
  import opened CodeGen
  import opened Slots
  import opened Blocks

  /** With all registers taken, what a register holds is written to the slot of the operand that it was
      for; then it is the new operand's, and the other registers are what they were. */
  lemma WrittenBack(sizes: Operand -> nat, a: Alloc, op: Operand, c: Core)
    requires op !in a.used && |a.used| == REGISTERS
    ensures var x := Allocate(sizes, a, op);
            && FIRST <= x.reg < FIRST + REGISTERS
            && x.a.used == a.used[x.reg - FIRST := op]
            && x.a.lay == Handle(a.lay, op, sizes(op))
            && var was := a.used[x.reg - FIRST];
               var at := Reg(c, FP) + Offset(x.a.lay, was);
               RunCore(x.code, c) == if Aligned(at) then Some(c.(mem := c.mem[at := Reg(c, x.reg)])) else None
  {
    hide Allocate, RunCore;
    var x := Allocate(sizes, a, op);
    Evicts(sizes, a, op);
    RunCoreOne(x.code[0], c);
  }

  lemma Evicts(sizes: Operand -> nat, a: Alloc, op: Operand)
    requires op !in a.used && |a.used| == REGISTERS
    ensures var x := Allocate(sizes, a, op);
            && FIRST <= x.reg < FIRST + REGISTERS && x.a.used == a.used[x.reg - FIRST := op]
            && x.a.lay == Handle(a.lay, op, sizes(op))
            && x.code == [Sw(x.reg, Offset(x.a.lay, a.used[x.reg - FIRST]), FP)]
  {
    hide Handle;
  }

  /** An operation other than division whose result goes to memory does what it should. */
  lemma CellResultOk(m: Machine, fr: Frame, sizes: Operand -> nat, a: Alloc, op: ArithOp, dst: Operand, r1: nat,
                     r2: nat, c: Core, v: int, fr': Frame)
    returns (c': Core)
    requires AtWork(m, fr, c) && Extends(m.layout(fr.fn), a.lay) && |a.used| < REGISTERS
    requires FIRST <= r1 < FIRST + REGISTERS && dst.GetVal? && RegisterFor(a.used, dst.opr) !in {r1, r2}
    requires op != Div && Compute(op, Reg(c, r1), Reg(c, r2)) == Some(v)
    requires Put(fr, dst, v) == Some(fr')
    ensures RunCore(ResultBlock(sizes, a, op, dst, r1, r2).code, c) == Some(c')
    ensures AtWork(m, fr', c') && Mild(fr, c, c')
  {
    var x := LoadOp(sizes, a, dst.opr, true);
    var address := fr.env[dst.opr];
    LoadOk(m, fr, sizes, a, dst.opr, c, address);
    var c1 := SetReg(c, x.reg, address);
    SetRegCalm(m, fr, c, x.reg, address);
    var c2 := Operated(m, fr, op, r1, r2, c1, v);
    c' := StoreWord(m, fr, dst, r1, 0, x.reg, c2, v, fr');
    RunCoreAdd([Alu(op, r1, r1, r2)], [Sw(r1, 0, x.reg)], c1, c2);
    RunCoreAdd(x.code, [Alu(op, r1, r1, r2)] + [Sw(r1, 0, x.reg)], c, c1);
    assert [Alu(op, r1, r1, r2)] + [Sw(r1, 0, x.reg)] == [Alu(op, r1, r1, r2), Sw(r1, 0, x.reg)];
    CalmThen(c, c1, c2, fr.fp);
    MildThen(fr, c, c2, c');
  }

  lemma Operated(m: Machine, fr: Frame, op: ArithOp, r1: nat, r2: nat, c: Core, v: int) returns (c': Core)
    requires AtWork(m, fr, c) && FIRST <= r1 < FIRST + REGISTERS
    requires op != Div && Compute(op, Reg(c, r1), Reg(c, r2)) == Some(v)
    ensures RunCore([Alu(op, r1, r1, r2)], c) == Some(c') && c' == SetReg(c, r1, v)
    ensures AtWork(m, fr, c') && Calm(c, c', fr.fp)
  {
    WrapExactly(v);
    RunCoreOne(Alu(op, r1, r1, r2), c);
    c' := SetReg(c, r1, v);
    SetRegCalm(m, fr, c, r1, v);
  }

  /** A division whose result goes to memory puts the quotient into the register that holds the address, so that
      the quotient is stored at itself, if that is an address of a word, and not where it belongs. */
  lemma QuotientAtItself(sizes: Operand -> nat, a: Alloc, dst: Operand, r1: nat, r2: nat, c: Core)
    requires dst.GetVal? && HasSlot(dst.opr) && |a.used| < REGISTERS
    requires |c.regs| == 32 && Reg(c, r2) != 0
    ensures var d := LoadOp(sizes, a, dst.opr, true);
            var v := Wrap(TruncDiv(Reg(c, r1), Reg(c, r2)));
            && ResultBlock(sizes, a, Div, dst, r1, r2).code
               == d.code + [Divide(r1, r2), Mflo(d.reg), Sw(d.reg, 0, d.reg)]
            && RunCore([Divide(r1, r2), Mflo(d.reg), Sw(d.reg, 0, d.reg)], c)
               == if Aligned(v) then Some(SetReg(c, d.reg, v).(lo := v, mem := c.mem[v := v])) else None
  {
    var d := LoadOp(sizes, a, dst.opr, true);
    var q := LoadOp(sizes, d.a, dst.opr, false);
    var v := Wrap(TruncDiv(Reg(c, r1), Reg(c, r2)));
    SameRegister(sizes, a, dst.opr);
    assert q.code == [] && d.code + q.code == d.code;
    QuotientTruncates(Reg(c, r1), Reg(c, r2));
    var c1 := c.(lo := v);
    var c2 := SetReg(c1, d.reg, v);
    RunCoreOne(Divide(r1, r2), c);
    RunCoreOne(Mflo(d.reg), c1);
    RunCoreOne(Sw(d.reg, 0, d.reg), c2);
    RunCoreAdd([Divide(r1, r2)], [Mflo(d.reg)] + [Sw(d.reg, 0, d.reg)], c, c1);
    RunCoreAdd([Mflo(d.reg)], [Sw(d.reg, 0, d.reg)], c1, c2);
    assert [Divide(r1, r2)] + ([Mflo(d.reg)] + [Sw(d.reg, 0, d.reg)])
        == [Divide(r1, r2), Mflo(d.reg), Sw(d.reg, 0, d.reg)];
  }

  lemma SameRegister(sizes: Operand -> nat, a: Alloc, o: Operand)
    requires HasSlot(o) && |a.used| < REGISTERS
    ensures var d := LoadOp(sizes, a, o, true);
            var q := LoadOp(sizes, d.a, o, false);
            q.reg == d.reg && q.code == [] && FIRST <= d.reg < FIRST + REGISTERS
  {
    LoadRegister(sizes, a, o, true);
    RegisterStays(a.used, o);
  }
}
