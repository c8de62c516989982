/** What the code of a single instruction does, as far as no jump is involved. */
module Blocks {
  import opened Common
  import opened Syntax
  import opened Ir
  import opened Frames
  import opened Mips
  import opened CodeGen
  import opened Slots

  /** Stores go where the three-address machine puts the value. */
  lemma StoreWord(m: Machine, fr: Frame, dst: Operand, r: nat, off: int, base: nat, c: Core, v: int, fr': Frame)
    returns (c': Core)
    requires AtWork(m, fr, c) && Put(fr, dst, v) == Some(fr') && Reg(c, r) == v
    requires HasSlot(dst) ==> HasWord(m.layout(fr.fn), dst)
    requires Reg(c, base) + off == DestAddr(m, fr, dst)
    ensures RunCore([Sw(r, off, base)], c) == Some(c') && AtWork(m, fr', c') && Mild(fr, c, c')
    ensures HasSlot(dst) ==> Calm(c, c', fr.fp)
  {
    StoreOk(m, fr, c.mem, dst, v, fr');
    RunCoreOne(Sw(r, off, base), c);
    c' := c.(mem := c.mem[DestAddr(m, fr, dst) := v]);
  }

  /** The register `r` survives the loading of the address that `dst` is reached through. */
  ghost predicate Survives(fr: Frame, used: seq<Operand>, dst: Operand, r: nat, v: int) {
    dst.GetVal? && RegisterFor(used, dst.opr) == r ==> dst.opr in fr.env && fr.env[dst.opr] == v
  }

  lemma MildThen(fr: Frame, a: Core, b: Core, c: Core)
    requires Calm(a, b, fr.fp) && Mild(fr, b, c)
    ensures Mild(fr, a, c)
  {
    forall x {:trigger Load(c.mem, x)} | fr.fp <= x && !OuterCell(fr, x) ensures Load(c.mem, x) == Load(a.mem, x) {
      assert Load(b.mem, x) == Load(a.mem, x);
    }
  }

  lemma StoreIntoOk(m: Machine, fr: Frame, sizes: Operand -> nat, a: Alloc, dst: Operand, r: nat, c: Core, v: int,
                    fr': Frame)
    returns (c': Core)
    requires AtWork(m, fr, c) && Extends(m.layout(fr.fn), a.lay) && Reg(c, r) == v
    requires Put(fr, dst, v) == Some(fr') && (HasSlot(dst) ==> HasWord(m.layout(fr.fn), dst))
    requires (HasSlot(dst) || |a.used| < REGISTERS) && Survives(fr, a.used, dst, r, v)
    ensures RunCore(StoreInto(sizes, a, dst, r).code, c) == Some(c') && AtWork(m, fr', c') && Mild(fr, c, c')
    ensures HasSlot(dst) ==> Calm(c, c', fr.fp)
  {
    if HasSlot(dst) {
      c' := StoreWord(m, fr, dst, r, Offset(m.layout(fr.fn), dst), FP, c, v, fr');
    } else {
      var x := LoadOp(sizes, a, dst.opr, true);
      LoadOk(m, fr, sizes, a, dst.opr, c, fr.env[dst.opr]);
      var c1 := SetReg(c, x.reg, fr.env[dst.opr]);
      SetRegCalm(m, fr, c, x.reg, fr.env[dst.opr]);
      c' := StoreWord(m, fr, dst, r, 0, x.reg, c1, v, fr');
      RunCoreAdd(x.code, [Sw(r, 0, x.reg)], c, c1);
      MildThen(fr, c, c1, c');
    }
  }

  lemma AssignOk(m: Machine, fr: Frame, sizes: Operand -> nat, lay: FrameLayout, h: seq<nat>, dst: Operand,
                 src: Operand, c: Core, v: int, fr': Frame)
    returns (c': Core)
    requires AtWork(m, fr, c) && Extends(m.layout(fr.fn), lay) && !(IsMemOp(dst) && IsMemOp(src))
    requires Get(fr, src) == Some(v) && Put(fr, dst, v) == Some(fr')
    requires HasSlot(dst) ==> HasWord(m.layout(fr.fn), dst)
    ensures var x := LoadOp(sizes, Alloc(lay, [], h), src, true);
            RunCore(x.code + StoreInto(sizes, x.a, dst, x.reg).code, c) == Some(c')
    ensures AtWork(m, fr', c') && Mild(fr, c, c')
  {
    var a := Alloc(lay, [], h);
    var x := LoadOp(sizes, a, src, true);
    LoadOk(m, fr, sizes, a, src, c, v);
    var c1 := SetReg(c, x.reg, v);
    SetRegCalm(m, fr, c, x.reg, v);
    if dst.GetVal? && RegisterFor(x.a.used, dst.opr) == x.reg {
      RegisterStays([], src);
      if src != dst.opr {
        RegistersApart(x.a.used, src, dst.opr);
      }
    }
    c' := StoreIntoOk(m, fr, sizes, x.a, dst, x.reg, c1, v, fr');
    RunCoreAdd(x.code, StoreInto(sizes, x.a, dst, x.reg).code, c, c1);
    MildThen(fr, c, c1, c');
  }

  lemma OperateOk(op: ArithOp, d: nat, r1: nat, r2: nat, c: Core, v: int) returns (c': Core)
    requires Compute(op, Reg(c, r1), Reg(c, r2)) == Some(v)
    ensures RunCore(Operate(op, d, r1, r2), c) == Some(c') && c'.mem == c.mem && c'.regs == SetReg(c, d, v).regs
  {
    WrapExactly(v);
    if op.Div? {
      QuotientTruncates(Reg(c, r1), Reg(c, r2));
      var c1 := c.(lo := v);
      RunCoreOne(Divide(r1, r2), c);
      RunCoreOne(Mflo(d), c1);
      RunCoreAdd([Divide(r1, r2)], [Mflo(d)], c, c1);
      assert [Divide(r1, r2)] + [Mflo(d)] == Operate(op, d, r1, r2);
      c' := SetReg(c1, d, v);
    } else {
      RunCoreOne(Alu(op, d, r1, r2), c);
      c' := SetReg(c, d, v);
    }
  }

  lemma ArithOk(m: Machine, fr: Frame, sizes: Operand -> nat, lay: FrameLayout, h: seq<nat>, op: ArithOp, dst: Operand,
                src1: Operand, src2: Operand, c: Core, a: int, b: int, v: int, fr': Frame)
    returns (c': Core)
    requires AtWork(m, fr, c) && Extends(m.layout(fr.fn), lay) && HasSlot(dst) && !IsMemOp(src1) && !IsMemOp(src2)
    requires Get(fr, src1) == Some(a) && Get(fr, src2) == Some(b) && Compute(op, a, b) == Some(v)
    requires Put(fr, dst, v) == Some(fr') && HasWord(m.layout(fr.fn), dst)
    ensures RunCore(ArithBlock(sizes, Alloc(lay, [], h), op, dst, src1, src2).code, c) == Some(c')
    ensures AtWork(m, fr', c') && Calm(c, c', fr.fp)
  {
    var x := LoadOp(sizes, Alloc(lay, [], h), src1, true);
    var y := LoadOp(sizes, x.a, src2, true);
    var d := LoadOp(sizes, y.a, dst, false);
    var c2 := LoadTwo(m, fr, sizes, lay, h, src1, src2, c, a, b);
    LoadRegister(sizes, y.a, dst, false);
    LoadExtends(sizes, y.a, dst, false);
    c' := ResultOk(m, fr, op, dst, d.reg, x.reg, y.reg, Offset(d.a.lay, dst), c2, v, fr');
    Glue(x.code, y.code, d.code, Operate(op, d.reg, x.reg, y.reg), [Sw(d.reg, Offset(d.a.lay, dst), FP)], c, c2, c');
    CalmThen(c, c2, c', fr.fp);
  }

  lemma Glue(a: Text32, b: Text32, none: Text32, e: Text32, f: Text32, c: Core, c1: Core, c2: Core)
    requires RunCore(a + b, c) == Some(c1) && RunCore(e + f, c1) == Some(c2) && none == []
    ensures RunCore(a + b + (none + e + f), c) == Some(c2)
  {
    RunCoreAdd(a + b, e + f, c, c1);
    assert none + e + f == e + f;
  }

  /** The result of an operation is stored at once. */
  lemma ResultOk(m: Machine, fr: Frame, op: ArithOp, dst: Operand, d: nat, r1: nat, r2: nat, off: int, c: Core, v: int,
                 fr': Frame)
    returns (c': Core)
    requires AtWork(m, fr, c) && FIRST <= d < FIRST + REGISTERS && HasSlot(dst) && HasWord(m.layout(fr.fn), dst)
    requires off == Offset(m.layout(fr.fn), dst)
    requires Compute(op, Reg(c, r1), Reg(c, r2)) == Some(v) && Put(fr, dst, v) == Some(fr')
    ensures RunCore(Operate(op, d, r1, r2) + [Sw(d, off, FP)], c) == Some(c') && AtWork(m, fr', c')
    ensures Calm(c, c', fr.fp)
  {
    var c1 := OperateOk(op, d, r1, r2, c, v);
    SetRegCalm(m, fr, c, d, v);
    var c2 := SetReg(c, d, v);
    assert forall r: nat :: Reg(c1, r) == Reg(c2, r);
    c' := StoreWord(m, fr, dst, d, off, FP, c1, v, fr');
    RunCoreAdd(Operate(op, d, r1, r2), [Sw(d, off, FP)], c, c1);
    CalmThen(c, c1, c', fr.fp);
  }
}
