/** The calling convention: arguments reach the parameters, and the caller gets its registers back. */
module Calls {
  import opened Common
  import opened Ir
  import opened Static
  import opened Frames
  import opened Mips
  import opened CodeGen
  import opened Slots
  import opened Blocks

  /** Memory, $zero, $sp, $fp and $ra are the same. */
  ghost predicate SameBase(c: Core, c': Core) {
    && |c.regs| == 32 && |c'.regs| == 32 && c'.mem == c.mem
    && Reg(c', ZERO) == Reg(c, ZERO) && Reg(c', SP) == Reg(c, SP) && Reg(c', FP) == Reg(c, FP)
       && Reg(c', RA) == Reg(c, RA)
  }

  /** The values of operands. */
  ghost predicate Values(fr: Frame, ops: seq<Operand>, vs: seq<int>) {
    |vs| == |ops| && forall i :: 0 <= i < |ops| ==> Get(fr, ops[i]) == Some(vs[i])
  }

  // ----- passing arguments -----

  lemma RegisterStable(used: seq<Operand>, x: Operand, y: Operand)
    requires x == Const(0) || Root(x) in used
    ensures RegisterFor(UsedWith(used, y), x) == RegisterFor(used, x)
    ensures x == Const(0) || Root(x) in UsedWith(used, y)
  {
    if x != Const(0) {
      IndexStable(used, [Root(y)], Root(x));
    }
  }

  /** The last of the first `n` arguments that is reached through the same slot as argument `k`. */
  function LastAlike(ops: seq<Operand>, k: nat, n: nat): (j: nat)
    requires k < n <= |ops|
    ensures k <= j < n && Root(ops[j]) == Root(ops[k])
  {
    if n == k + 1 || Root(ops[n - 1]) == Root(ops[k]) then n - 1 else LastAlike(ops, k, n - 1)
  }

  /** What is passed for the first `n` arguments: on the stack, operands that share a slot share a
      register, and the last one of them is what it holds when it is stored. */
  function Handed(ops: seq<Operand>, vs: seq<int>, n: nat): seq<int>
    requires n <= |ops| == |vs|
  {
    seq(n, k requires 0 <= k < n => if k < 4 then vs[k] else vs[LastAlike(ops, k, n)])
  }

  /** If no stack arguments clash, every argument is passed. */
  lemma HandedClear(fr: Frame, ops: seq<Operand>, vs: seq<int>)
    requires NoClash(ops) && Values(fr, ops, vs)
    ensures Handed(ops, vs, |ops|) == vs
  {
    forall k | 4 <= k < |ops| ensures vs[LastAlike(ops, k, |ops|)] == vs[k] {
      var j := LastAlike(ops, k, |ops|);
      assert ops[j] == ops[k];
    }
  }

  lemma {:induction false} LastIsLast(ops: seq<Operand>, k: nat, n: nat, i: nat)
    requires k < n <= |ops| && k <= i < n && Root(ops[i]) == Root(ops[k])
    ensures i <= LastAlike(ops, k, n)
    decreases n
  {
    if n > k + 1 && Root(ops[n - 1]) != Root(ops[k]) {
      LastIsLast(ops, k, n - 1, i);
    }
  }

  lemma SameLast(ops: seq<Operand>, i: nat, j: nat, n: nat)
    requires i < j < n <= |ops| && Root(ops[i]) == Root(ops[j])
    ensures LastAlike(ops, i, n) == LastAlike(ops, j, n)
  {
    hide LastAlike, Root;
    LastIsLast(ops, i, n, j);
    LastIsLast(ops, i, n, LastAlike(ops, j, n));
    LastIsLast(ops, j, n, LastAlike(ops, i, n));
  }

  /** Exactly when every argument is passed: stack arguments that share a slot must have one value. */
  lemma HandedExactly(ops: seq<Operand>, vs: seq<int>)
    requires |ops| == |vs|
    ensures Handed(ops, vs, |ops|) == vs <==>
            forall i, j :: 4 <= i < j < |ops| && Root(ops[i]) == Root(ops[j]) ==> vs[i] == vs[j]
  {
    hide LastAlike, Root;
    var hs, n := Handed(ops, vs, |ops|), |ops|;
    if hs == vs {
      forall i, j | 4 <= i < j < n && Root(ops[i]) == Root(ops[j]) ensures vs[i] == vs[j] {
        SameLast(ops, i, j, n);
        assert hs[i] == vs[LastAlike(ops, i, n)] && hs[j] == vs[LastAlike(ops, j, n)];
      }
    } else {
      var k :| 0 <= k < n && hs[k] != vs[k];
      assert 4 <= k < LastAlike(ops, k, n);
    }
  }

  /** Two arguments of which the last one is what reaches the callee twice: the first word of the
      structure that `p` refers to, and `p` itself. */
  lemma ClashExample(fr: Frame, p: Operand, vs: seq<int>)
    requires p.Variable? && |vs| == 6 && vs[4] != vs[5]
    requires Values(fr, [Const(1), Const(2), Const(3), Const(4), GetVal(p), p], vs)
    ensures Handed([Const(1), Const(2), Const(3), Const(4), GetVal(p), p], vs, 6)[4] != vs[4]
  {
    var ops := [Const(1), Const(2), Const(3), Const(4), GetVal(p), p];
    assert LastAlike(ops, 4, 6) == 5;
  }

  /** Argument `k` is in its register while the later ones are loaded. */
  ghost predicate InPlace(c: Core, used: seq<Operand>, op: Operand, r: nat, v: int) {
    && r == RegisterFor(used, op) && Reg(c, r) == v
    && (op == Const(0) || Root(op) in used)
  }

  ghost predicate Passed(c: Core, ops: seq<Operand>, hs: seq<int>, used: seq<Operand>, regs: seq<nat>)
    requires |hs| <= |ops| && |regs| == StackArgs(|hs|)
  {
    && (forall k :: 0 <= k < |hs| && k < 4 ==> Reg(c, A0 + k) == hs[k])
    && forall k :: 4 <= k < |hs| ==> InPlace(c, used, ops[k], regs[k - 4], hs[k])
  }

  lemma StillInPlace(fr: Frame, c: Core, used: seq<Operand>, op: Operand, r: nat, v: int, next: Operand, w: int)
    requires InPlace(c, used, op, r, v) && |c.regs| == 32 && Reg(c, ZERO) == 0
    requires Get(fr, op).Some? && Get(fr, next) == Some(w) && RegisterFor(used, next) < 32
    ensures InPlace(SetReg(c, RegisterFor(used, next), w), UsedWith(used, next), op, r,
                    if Root(op) == Root(next) then w else v)
  {
    RegisterStable(used, op, next);
    if op != Const(0) && Root(op) != Root(next) {
      RegistersApart(used, op, next);
    }
  }

  lemma {:induction false} ArgsOk(m: Machine, fr: Frame, sizes: Operand -> nat, lay: FrameLayout, h: seq<nat>,
                                  ops: seq<Operand>, n: nat, c: Core, vs: seq<int>)
    returns (c': Core)
    requires AtWork(m, fr, c) && Extends(m.layout(fr.fn), lay) && Values(fr, ops, vs)
    requires n <= |ops| <= REGISTERS
    ensures var o := LoadArgs(sizes, Alloc(lay, [], h), ops, n);
            && RunCore(o.code, c) == Some(c') && SameBase(c, c') && Extends(m.layout(fr.fn), o.a.lay)
            && Passed(c', ops, Handed(ops, vs, n), o.a.used, o.regs)
    decreases n
  {
    if n == 0 {
      c' := c;
    } else {
      var o := LoadArgs(sizes, Alloc(lay, [], h), ops, n - 1);
      var c1 := ArgsOk(m, fr, sizes, lay, h, ops, n - 1, c, vs);
      c' := NextArg(m, fr, sizes, ops, n - 1, c, c1, vs, o);
    }
  }

  lemma NextArg(m: Machine, fr: Frame, sizes: Operand -> nat, ops: seq<Operand>, n: nat, c: Core, c1: Core,
                vs: seq<int>, o: ArgsLoaded)
    returns (c': Core)
    requires AtWork(m, fr, c) && Values(fr, ops, vs) && n < |ops|
    requires |o.a.used| < REGISTERS && |o.regs| == StackArgs(n)
    requires RunCore(o.code, c) == Some(c1) && SameBase(c, c1) && Extends(m.layout(fr.fn), o.a.lay)
    requires Passed(c1, ops, Handed(ops, vs, n), o.a.used, o.regs)
    ensures var x := LoadOp(sizes, o.a, ops[n], true);
            && RunCore(if n < 4 then o.code + x.code + [Move(A0 + n, x.reg)] else o.code + x.code, c) == Some(c')
            && SameBase(c, c') && Extends(m.layout(fr.fn), x.a.lay)
            && Passed(c', ops, Handed(ops, vs, n + 1), x.a.used, if n < 4 then [] else o.regs + [x.reg])
  {
    var x := LoadOp(sizes, o.a, ops[n], true);
    LoadOk(m, fr, sizes, o.a, ops[n], c1, vs[n]);
    var c2 := SetReg(c1, x.reg, vs[n]);
    RunCoreAdd(o.code, x.code, c, c1);
    RegisterStays(o.a.used, ops[n]);
    if n < 4 {
      c' := SetReg(c2, A0 + n, vs[n]);
      RunCoreOne(Move(A0 + n, x.reg), c2);
      RunCoreAdd(o.code + x.code, [Move(A0 + n, x.reg)], c, c2);
      OneMoreInRegister(c1, c', x.reg, o.a.used, x.a.used, ops, vs, n, o.regs);
    } else {
      c' := c2;
      OneMoreInPlace(fr, c1, x.reg, o.a.used, ops, vs, n, o.regs);
    }
  }

  /** One of the first four arguments. */
  lemma OneMoreInRegister(c: Core, c': Core, r: nat, used: seq<Operand>, used': seq<Operand>, ops: seq<Operand>,
                          vs: seq<int>, n: nat, regs: seq<nat>)
    requires |vs| == |ops| && n < |ops| && n < 4 && |regs| == StackArgs(n) && |c.regs| == 32 && r < FIRST + REGISTERS
    requires r == ZERO || FIRST <= r
    requires Passed(c, ops, Handed(ops, vs, n), used, regs)
    requires c' == SetReg(SetReg(c, r, vs[n]), A0 + n, vs[n])
    ensures Passed(c', ops, Handed(ops, vs, n + 1), used', [])
  {
    var hs, hs' := Handed(ops, vs, n), Handed(ops, vs, n + 1);
    forall k | 0 <= k < |hs'| ensures Reg(c', A0 + k) == hs'[k] {
      assert k < n ==> Reg(c, A0 + k) == hs[k] == vs[k];
    }
  }

  /** One more argument for the stack: it replaces those that share its register. */
  lemma OneMoreInPlace(fr: Frame, c: Core, r: nat, used: seq<Operand>, ops: seq<Operand>, vs: seq<int>, n: nat,
                       regs: seq<nat>)
    requires Values(fr, ops, vs) && 4 <= n < |ops| && |regs| == StackArgs(n) && |c.regs| == 32 && Reg(c, ZERO) == 0
    requires Passed(c, ops, Handed(ops, vs, n), used, regs) && r == RegisterFor(used, ops[n])
    requires r == ZERO || FIRST <= r < FIRST + REGISTERS
    ensures Passed(SetReg(c, r, vs[n]), ops, Handed(ops, vs, n + 1), UsedWith(used, ops[n]), regs + [r])
  {
    var c', hs, hs' := SetReg(c, r, vs[n]), Handed(ops, vs, n), Handed(ops, vs, n + 1);
    var used', regs' := UsedWith(used, ops[n]), regs + [r];
    RegisterStays(used, ops[n]);
    forall k | 0 <= k < |hs'| && k < 4 ensures Reg(c', A0 + k) == hs'[k] {
      assert Reg(c, A0 + k) == hs[k] == vs[k];
    }
    forall k | 4 <= k < |hs'| ensures InPlace(c', used', ops[k], regs'[k - 4], hs'[k]) {
      if k < n {
        assert InPlace(c, used, ops[k], regs[k - 4], hs[k]);
        StillInPlace(fr, c, used, ops[k], regs[k - 4], hs[k], ops[n], vs[n]);
      }
    }
  }

  /** Memory after the registers `regs[..n]` have gone to consecutive words from $sp on. */
  function Spreaded(c: Core, regs: seq<nat>, n: nat, mem: map<int, int>): map<int, int>
    requires n <= |regs|
  {
    if n == 0 then mem else Spreaded(c, regs, n - 1, mem[Reg(c, SP) + 4 * (n - 1) := Reg(c, regs[n - 1])])
  }

  lemma SpreadOne(c: Core, mem: map<int, int>, reg: nat, offset: int)
    requires Aligned(Reg(c, SP)) && 0 <= offset && offset % 4 == 0
    ensures Straight(Sw(reg, offset, SP), c.(mem := mem)) == Some(c.(mem := mem[Reg(c, SP) + offset := Reg(c, reg)]))
  {
  }

  lemma {:induction false} SpreadOk(regs: seq<nat>, n: nat, c: Core, mem: map<int, int>)
    requires n <= |regs| && Aligned(Reg(c, SP))
    ensures RunCore(Spread(regs, n), c.(mem := mem)) == Some(c.(mem := Spreaded(c, regs, n, mem)))
    decreases n
  {
    hide Straight, Aligned, Reg;
    if n > 0 {
      hide RunCore;
      var mem' := mem[Reg(c, SP) + 4 * (n - 1) := Reg(c, regs[n - 1])];
      var ins := Sw(regs[n - 1], 4 * (n - 1), SP);
      SpreadOne(c, mem, regs[n - 1], 4 * (n - 1));
      RunCoreOne(ins, c.(mem := mem));
      RunCoreAdd([ins], Spread(regs, n - 1), c.(mem := mem), c.(mem := mem'));
      SpreadOk(regs, n - 1, c, mem');
    }
  }

  lemma {:induction false} SpreadAt(regs: seq<nat>, n: nat, c: Core, mem: map<int, int>, i: nat)
    requires i < n <= |regs|
    ensures Load(Spreaded(c, regs, n, mem), Reg(c, SP) + 4 * i) == Reg(c, regs[i])
    decreases n
  {
    var mem' := mem[Reg(c, SP) + 4 * (n - 1) := Reg(c, regs[n - 1])];
    if i < n - 1 {
      SpreadAt(regs, n - 1, c, mem', i);
    } else {
      SpreadNot(regs, n - 1, c, mem', Reg(c, SP) + 4 * i);
    }
  }

  lemma {:induction false} SpreadNot(regs: seq<nat>, n: nat, c: Core, mem: map<int, int>, a: int)
    requires n <= |regs| && (a < Reg(c, SP) || Reg(c, SP) + 4 * n <= a)
    ensures Load(Spreaded(c, regs, n, mem), a) == Load(mem, a)
    decreases n
  {
    if n > 0 {
      SpreadNot(regs, n - 1, c, mem[Reg(c, SP) + 4 * (n - 1) := Reg(c, regs[n - 1])], a);
    }
  }

  lemma ShiftOk(n: int, c: Core)
    requires |c.regs| == 32 && IsInt32(Reg(c, SP) + n)
    ensures RunCore(Shift(n), c) == Some(SetReg(c, SP, Reg(c, SP) + n))
  {
    if n == 0 {
      assert c.regs[SP := c.regs[SP]] == c.regs;
    } else {
      hide RunCore;
      RunCoreOne(Addi(SP, SP, n), c);
    }
  }

  lemma PushRaOk(c: Core)
    requires |c.regs| == 32 && Aligned(Reg(c, SP) - 4) && IsInt32(Reg(c, SP))
    ensures var c1 := SetReg(c, SP, Reg(c, SP) - 4);
            RunCore(PUSH_RA, c) == Some(c1.(mem := c1.mem[Reg(c, SP) - 4 := Reg(c, RA)]))
  {
    var c1 := SetReg(c, SP, Reg(c, SP) - 4);
    RunCoreOne(Addi(SP, SP, -4), c);
    RunCoreOne(Sw(RA, 0, SP), c1);
    RunCoreAdd([Addi(SP, SP, -4)], [Sw(RA, 0, SP)], c, c1);
  }

  lemma RunCoreTwo(a: Ins, b: Ins, c: Core, c1: Core, c2: Core)
    requires Straight(a, c) == Some(c1) && Straight(b, c1) == Some(c2)
    ensures RunCore([a, b], c) == Some(c2)
  {
    hide RunCore, Straight;
    RunCoreOne(a, c);
    RunCoreOne(b, c1);
    RunCoreAdd([a], [b], c, c1);
    assert [a] + [b] == [a, b];
  }

  lemma PopRaOk(c: Core)
    requires |c.regs| == 32 && Aligned(Reg(c, SP)) && IsInt32(Reg(c, SP) + 4)
    ensures var c1 := SetReg(c, RA, Load(c.mem, Reg(c, SP)));
            RunCore(POP_RA, c) == Some(SetReg(c1, SP, Reg(c, SP) + 4))
  {
    hide RunCore;
    var c1 := SetReg(c, RA, Load(c.mem, Reg(c, SP)));
    RunCoreTwo(Lw(RA, 0, SP), Addi(SP, SP, 4), c, c1, SetReg(c1, SP, Reg(c, SP) + 4));
  }

  /** What a callee with frame pointer `fp` finds: its first four arguments in registers, the others
      from fp + 8 on, and the return address of its caller at fp + 4. */
  ghost predicate Delivered(c: Core, vs: seq<int>, fp: int, callerFp: int, callerRa: int) {
    && |c.regs| == 32 && Reg(c, ZERO) == 0 && Reg(c, SP) == fp + 4 && Reg(c, FP) == callerFp
    && (forall k :: 0 <= k < |vs| && k < 4 ==> Reg(c, A0 + k) == vs[k])
    && (forall k :: 4 <= k < |vs| ==> Load(c.mem, fp + 8 + 4 * (k - 4)) == vs[k])
    && Load(c.mem, fp + 4) == callerRa
  }

  /** The jump to the callee sets nothing but $ra. */
  lemma DeliveredStays(c: Core, c': Core, v: int, vs: seq<int>, fp: int, callerFp: int, callerRa: int)
    requires Delivered(c, vs, fp, callerFp, callerRa) && c' == SetReg(c, RA, v)
    ensures Delivered(c', vs, fp, callerFp, callerRa)
  {
  }

  lemma CallFrontOk(m: Machine, fr: Frame, sizes: Operand -> nat, lay: FrameLayout, h: seq<nat>, ops: seq<Operand>,
                    c: Core, vs: seq<int>)
    returns (c': Core)
    requires AtWork(m, fr, c) && Extends(m.layout(fr.fn), lay) && Values(fr, ops, vs)
    requires |ops| <= REGISTERS && 0 <= CalleeFp(m, fr, |ops|) && fr.fp <= INT_MAX
    ensures RunCore(CallFront(sizes, Alloc(lay, [], h), ops).0, c) == Some(c')
    ensures Extends(m.layout(fr.fn), CallFront(sizes, Alloc(lay, [], h), ops).1.lay)
    ensures Delivered(c', Handed(ops, vs, |ops|), CalleeFp(m, fr, |ops|), fr.fp, Reg(c, RA)) && |c'.regs| == 32
    ensures forall a {:trigger Load(c'.mem, a)} ::
              fr.fp - m.layout(fr.fn).size <= a ==> Load(c'.mem, a) == Load(c.mem, a)
  {
    hide LoadArgs, Delivered, RunCore, Spread, Shift, Passed;
    var args, hs := LoadArgs(sizes, Alloc(lay, [], h), ops, |ops|), Handed(ops, vs, |ops|);
    var c1 := ArgsOk(m, fr, sizes, lay, h, ops, |ops|, c, vs);
    var sp := fr.fp - m.layout(fr.fn).size;
    assert Reg(c1, SP) == sp && Reg(c1, FP) == fr.fp && sp % 4 == 0;
    c' := PushOk(args.regs, args.a.used, ops, hs, c1, sp, CalleeFp(m, fr, |ops|));
    FrontParts(args.code, Shift(-4 * |args.regs|), Spread(args.regs, |args.regs|), PUSH_RA, c, c1, c');
  }

  lemma FrontParts(load: Text32, shift: Text32, spread: Text32, push: Text32, c: Core, c1: Core, c2: Core)
    requires RunCore(load, c) == Some(c1) && RunCore(shift + spread + push, c1) == Some(c2)
    ensures RunCore(load + shift + spread + push, c) == Some(c2)
  {
    RunCoreAdd(load, shift + spread + push, c, c1);
    assert load + shift + spread + push == load + (shift + spread + push);
  }

  /** The arguments from the fifth on and the return address go onto the stack. */
  lemma PushOk(regs: seq<nat>, used: seq<Operand>, ops: seq<Operand>, vs: seq<int>, c: Core, sp: int, fp: int)
    returns (c': Core)
    requires |ops| == |vs| && |regs| == StackArgs(|ops|) && Passed(c, ops, vs, used, regs) && |used| <= REGISTERS
    requires |c.regs| == 32 && Reg(c, ZERO) == 0 && Reg(c, SP) == sp && sp % 4 == 0
    requires fp == sp - 4 * |regs| - 8 && 0 <= fp && sp <= INT_MAX
    ensures RunCore(Shift(-4 * |regs|) + Spread(regs, |regs|) + PUSH_RA, c) == Some(c')
    ensures Delivered(c', vs, fp, Reg(c, FP), Reg(c, RA))
    ensures forall a {:trigger Load(c'.mem, a)} :: sp <= a ==> Load(c'.mem, a) == Load(c.mem, a)
  {
    var n := |regs|;
    var c1 := SetReg(c, SP, fp + 8);
    var c2 := c1.(mem := Spreaded(c1, regs, n, c.mem));
    c' := SetReg(c2, SP, fp + 4).(mem := c2.mem[fp + 4 := Reg(c, RA)]);
    PushRuns(regs, c, c1, c2, c', fp);
    forall k | 4 <= k < |vs| ensures Load(c'.mem, fp + 8 + 4 * (k - 4)) == vs[k] {
      var i := k - 4;
      assert InPlace(c, used, ops[k], regs[i], vs[k]);
      SpreadAt(regs, n, c1, c.mem, i);
    }
    forall a {:trigger Load(c'.mem, a)} | sp <= a ensures Load(c'.mem, a) == Load(c.mem, a) {
      SpreadNot(regs, n, c1, c.mem, a);
    }
  }

  lemma PushRuns(regs: seq<nat>, c: Core, c1: Core, c2: Core, c': Core, fp: int)
    requires |c.regs| == 32 && fp % 4 == 0 && 0 <= fp && Reg(c, SP) == fp + 8 + 4 * |regs| <= INT_MAX
    requires c1 == SetReg(c, SP, fp + 8) && c2 == c1.(mem := Spreaded(c1, regs, |regs|, c.mem))
    requires c' == SetReg(c2, SP, fp + 4).(mem := c2.mem[fp + 4 := Reg(c, RA)])
    ensures RunCore(Shift(-4 * |regs|) + Spread(regs, |regs|) + PUSH_RA, c) == Some(c')
  {
    hide RunCore, Spread, Shift, Spreaded;
    var n := |regs|;
    SpreadRuns(regs, c, c1, c2, fp);
    PushRaThere(c2, c', fp);
    RunCoreAdd(Shift(-4 * n) + Spread(regs, n), PUSH_RA, c, c2);
  }

  lemma SpreadRuns(regs: seq<nat>, c: Core, c1: Core, c2: Core, fp: int)
    requires |c.regs| == 32 && Aligned(fp + 8) && Reg(c, SP) == fp + 8 + 4 * |regs| <= INT_MAX
    requires c1 == SetReg(c, SP, fp + 8) && c2 == c1.(mem := Spreaded(c1, regs, |regs|, c.mem))
    ensures RunCore(Shift(-4 * |regs|) + Spread(regs, |regs|), c) == Some(c2)
  {
    ShiftOk(-4 * |regs|, c);
    SpreadHere(regs, c1, c2);
    RunCoreAdd(Shift(-4 * |regs|), Spread(regs, |regs|), c, c1);
  }

  lemma SpreadHere(regs: seq<nat>, c: Core, c': Core)
    requires Aligned(Reg(c, SP)) && c' == c.(mem := Spreaded(c, regs, |regs|, c.mem))
    ensures RunCore(Spread(regs, |regs|), c) == Some(c')
  {
    SpreadOk(regs, |regs|, c, c.mem);
    assert c.(mem := c.mem) == c;
  }

  lemma PushRaThere(c: Core, c': Core, fp: int)
    requires |c.regs| == 32 && fp % 4 == 0 && 0 <= fp && Reg(c, SP) == fp + 8 <= INT_MAX
    requires c' == SetReg(c, SP, fp + 4).(mem := c.mem[fp + 4 := Reg(c, RA)])
    ensures RunCore(PUSH_RA, c) == Some(c')
  {
    PushRaOk(c);
  }

  // ----- entering a function -----

  /** The frame `fr` with its first `n` parameters. */
  function Entered(fr: Frame, ps: seq<string>, vs: seq<int>, n: nat): Frame
    requires n <= |ps| == |vs|
  {
    fr.(env := Bind(ps[..n], vs[..n]))
  }

  lemma PrologueOk(f: string, lay: FrameLayout, c: Core, fp: int) returns (c': Core)
    requires |c.regs| == 32 && Reg(c, ZERO) == 0 && Reg(c, SP) == fp + 4 && Aligned(fp)
    requires lay.size <= fp && fp + 4 <= INT_MAX && (lay.slots == map[] ==> lay.size == 0)
    ensures RunCore([Mark(Fn(f)), Addi(SP, SP, -4), Sw(FP, 0, SP), Move(FP, SP)]
                    + (if lay.slots == map[] then [] else [Addi(SP, SP, 0 - lay.size)]), c) == Some(c')
    ensures |c'.regs| == 32 && Reg(c', FP) == fp && Reg(c', SP) == fp - lay.size
    ensures forall r: nat :: r != SP && r != FP ==> Reg(c', r) == Reg(c, r)
    ensures c'.mem == c.mem[fp := Reg(c, FP)]
  {
    var head := [Mark(Fn(f)), Addi(SP, SP, -4), Sw(FP, 0, SP), Move(FP, SP)];
    var c1 := SetReg(c, SP, fp);
    var c2 := c1.(mem := c.mem[fp := Reg(c, FP)]);
    var c3 := SetReg(c2, FP, fp);
    FourSteps(head, c, c, c1, c2, c3);
    if lay.slots == map[] {
      c' := c3;
      assert head + [] == head;
    } else {
      c' := SetReg(c3, SP, fp - lay.size);
      RunCoreOne(Addi(SP, SP, 0 - lay.size), c3);
      RunCoreAdd(head, [Addi(SP, SP, 0 - lay.size)], c, c3);
    }
  }

  lemma FourSteps(code: Text32, c: Core, c1: Core, c2: Core, c3: Core, c4: Core)
    requires |code| == 4
    requires Straight(code[0], c) == Some(c1) && Straight(code[1], c1) == Some(c2)
    requires Straight(code[2], c2) == Some(c3) && Straight(code[3], c3) == Some(c4)
    ensures RunCore(code, c) == Some(c4)
  {
    RunCoreOne(code[0], c);
    RunCoreOne(code[1], c1);
    RunCoreOne(code[2], c2);
    RunCoreOne(code[3], c3);
    RunCoreAdd([code[0]], [code[1]], c, c1);
    RunCoreAdd([code[0]] + [code[1]], [code[2]], c, c2);
    RunCoreAdd([code[0]] + [code[1]] + [code[2]], [code[3]], c, c3);
    assert code == [code[0]] + [code[1]] + [code[2]] + [code[3]];
  }

  /** Where argument `k` is when the callee starts. */
  ghost predicate ArgumentAt(c: Core, fp: int, vs: seq<int>, k: nat)
    requires k < |vs|
  {
    if k < 4 then Reg(c, A0 + k) == vs[k] else Load(c.mem, fp + 8 + 4 * (k - 4)) == vs[k]
  }

  /** Every parameter receives its argument. */
  lemma {:induction false} TakeParamsOk(m: Machine, fr: Frame, sizes: Operand -> nat, ps: seq<string>, vs: seq<int>,
                                        n: nat, c: Core)
    returns (c': Core)
    requires n <= |ps| == |vs| && AtWork(m, Entered(fr, ps, vs, 0), c)
    requires forall k :: 0 <= k < |vs| ==> ArgumentAt(c, fr.fp, vs, k)
    requires forall k :: 0 <= k < |ps| ==> HasWord(m.layout(fr.fn), Variable(ps[k])) && !Owns(fr, ps[k])
    ensures RunCore(TakeParams(sizes, m.layout(fr.fn), ps, n).code, c) == Some(c')
    ensures TakeParams(sizes, m.layout(fr.fn), ps, n).lay == m.layout(fr.fn)
    ensures AtWork(m, Entered(fr, ps, vs, n), c') && Calm(c, c', fr.fp)
    decreases n
  {
    if n == 0 {
      c' := c;
    } else {
      var c1 := TakeParamsOk(m, fr, sizes, ps, vs, n - 1, c);
      c' := TakeOne(m, fr, ps, vs, n, c, c1);
      var take := TakeParams(sizes, m.layout(fr.fn), ps, n - 1);
      RunCoreAdd(take.code, ParamCode(m.layout(fr.fn), ps[n - 1], n), c, c1);
    }
  }

  function ParamCode(lay: FrameLayout, p: string, n: nat): Text32
    requires n > 0
  {
    if n <= 4 then [Sw(A0 + n - 1, Offset(lay, Variable(p)), FP)]
    else [Lw(T0, 4 * (n - 4) + 4, FP), Sw(T0, Offset(lay, Variable(p)), FP)]
  }

  lemma TakeOne(m: Machine, fr0: Frame, ps: seq<string>, vs: seq<int>, n: nat, c: Core, c1: Core)
    returns (c': Core)
    requires 0 < n <= |ps| == |vs| && ArgumentAt(c, fr0.fp, vs, n - 1)
    requires HasWord(m.layout(fr0.fn), Variable(ps[n - 1])) && !Owns(fr0, ps[n - 1])
    requires AtWork(m, Entered(fr0, ps, vs, n - 1), c1) && Calm(c, c1, fr0.fp)
    ensures RunCore(ParamCode(m.layout(fr0.fn), ps[n - 1], n), c1) == Some(c')
    ensures AtWork(m, Entered(fr0, ps, vs, n), c') && Calm(c, c', fr0.fp)
  {
    var fr, fr', fp := Entered(fr0, ps, vs, n - 1), Entered(fr0, ps, vs, n), fr0.fp;
    var x, v, off := Variable(ps[n - 1]), vs[n - 1], Offset(m.layout(fr0.fn), Variable(ps[n - 1]));
    BindNext(ps, vs, n);
    if n <= 4 {
      c' := StoreWord(m, fr, x, A0 + n - 1, off, FP, c1, v, fr');
      CalmThen(c, c1, c', fp);
    } else {
      var c2 := SetReg(c1, T0, v);
      LoadStacked(fp, n, c, c1, v);
      SetRegCalm(m, fr, c1, T0, v);
      c' := StoreWord(m, fr, x, T0, off, FP, c2, v, fr');
      RunCoreAdd([Lw(T0, 4 * (n - 4) + 4, FP)], [Sw(T0, off, FP)], c1, c2);
      CalmThen(c, c1, c2, fp);
      CalmThen(c, c2, c', fp);
      assert ParamCode(m.layout(fr0.fn), ps[n - 1], n) == [Lw(T0, 4 * (n - 4) + 4, FP)] + [Sw(T0, off, FP)];
    }
  }

  lemma LoadStacked(fp: int, n: nat, c: Core, c1: Core, v: int)
    requires n > 4 && Reg(c1, FP) == fp && fp % 4 == 0 && fp >= 0 && Calm(c, c1, fp)
    requires Load(c.mem, fp + 8 + 4 * (n - 1 - 4)) == v
    ensures RunCore([Lw(T0, 4 * (n - 4) + 4, FP)], c1) == Some(SetReg(c1, T0, v))
  {
    var a := fp + 8 + 4 * (n - 1 - 4);
    assert Load(c1.mem, a) == Load(c.mem, a);
    RunCoreOne(Lw(T0, 4 * (n - 4) + 4, FP), c1);
  }

  lemma BindNext(ps: seq<string>, vs: seq<int>, n: nat)
    requires 0 < n <= |ps| == |vs|
    ensures Bind(ps[..n], vs[..n]) == Bind(ps[..n - 1], vs[..n - 1])[Variable(ps[n - 1]) := vs[n - 1]]
  {
    assert ps[..n][..n - 1] == ps[..n - 1] && vs[..n][..n - 1] == vs[..n - 1];
  }

  lemma FuncOk(m: Machine, fr: Frame, sizes: Operand -> nat, ps: seq<string>, vs: seq<int>, c: Core,
               callerFp: int, callerRa: int)
    returns (c': Core)
    requires Delivered(c, vs, fr.fp, callerFp, callerRa) && |ps| == |vs| && fr.fp + 4 <= INT_MAX
    requires Fits(m, fr.fn, fr.fp) && fr.fp % 4 == 0 && WordLayout(m.layout(fr.fn))
    requires ObjectsPlaced(m, fr) && CellsHeld(fr, c.mem) && AllOuter(fr) && fr.env == Bind(ps, vs)
    requires forall p :: p in ps ==> HasWord(m.layout(fr.fn), Variable(p))
    ensures RunCore(FuncBlock(sizes, m.layout(fr.fn), fr.fn, ps).code, c) == Some(c')
    ensures AtWork(m, fr, c') && Reg(c', RA) == Reg(c, RA)
    ensures Load(c'.mem, fr.fp) == callerFp && Load(c'.mem, fr.fp + 4) == callerRa
    ensures forall a {:trigger Load(c'.mem, a)} :: fr.fp < a ==> Load(c'.mem, a) == Load(c.mem, a)
  {
    hide RunCore, TakeParams, Bind;
    var lay, f := m.layout(fr.fn), fr.fn;
    var c1 := PrologueOk(f, lay, c, fr.fp);
    EntryInMemory(m, fr, c.mem, c1.mem);
    c' := ReceiveOk(m, fr, sizes, ps, vs, c, c1);
    var head := [Mark(Fn(f)), Addi(SP, SP, -4), Sw(FP, 0, SP), Move(FP, SP)]
                + (if lay.slots == map[] then [] else [Addi(SP, SP, 0 - lay.size)]);
    RunCoreAdd(head, TakeParams(sizes, lay, ps, |ps|).code, c, c1);
  }

  /** The parameters, after the frame has been set up. */
  lemma ReceiveOk(m: Machine, fr: Frame, sizes: Operand -> nat, ps: seq<string>, vs: seq<int>, c: Core, c1: Core)
    returns (c': Core)
    requires |ps| == |vs| && AtWork(m, fr.(env := map[]), c1) && AllOuter(fr) && fr.env == Bind(ps, vs)
    requires forall k :: 0 <= k < |vs| && k < 4 ==> Reg(c, A0 + k) == vs[k]
    requires forall k :: 4 <= k < |vs| ==> Load(c.mem, fr.fp + 8 + 4 * (k - 4)) == vs[k]
    requires forall r: nat :: r != SP && r != FP ==> Reg(c1, r) == Reg(c, r)
    requires forall a {:trigger Load(c1.mem, a)} :: fr.fp < a ==> Load(c1.mem, a) == Load(c.mem, a)
    requires forall p :: p in ps ==> HasWord(m.layout(fr.fn), Variable(p))
    ensures RunCore(TakeParams(sizes, m.layout(fr.fn), ps, |ps|).code, c1) == Some(c')
    ensures TakeParams(sizes, m.layout(fr.fn), ps, |ps|).lay == m.layout(fr.fn)
    ensures AtWork(m, fr, c') && Calm(c1, c', fr.fp)
  {
    assert ps[..0] == [] && vs[..0] == [] && ps[..|ps|] == ps && vs[..|vs|] == vs;
    forall k | 0 <= k < |vs| ensures ArgumentAt(c1, fr.fp, vs, k) {
      assert k >= 4 ==> Load(c1.mem, fr.fp + 8 + 4 * (k - 4)) == Load(c.mem, fr.fp + 8 + 4 * (k - 4));
    }
    assert Entered(fr, ps, vs, 0) == fr.(env := map[]) && Entered(fr, ps, vs, |ps|) == fr;
    c' := TakeParamsOk(m, fr, sizes, ps, vs, |ps|, c1);
  }

  /** All objects belong to activations that wait. */
  ghost predicate AllOuter(fr: Frame) {
    forall h :: h in fr.objects ==> h.depth < fr.depth
  }

  /** A frame on entry, before it has any variables. */
  lemma EntryInMemory(m: Machine, fr: Frame, mem: map<int, int>, mem': map<int, int>)
    requires Fits(m, fr.fn, fr.fp) && fr.fp % 4 == 0 && WordLayout(m.layout(fr.fn))
    requires ObjectsPlaced(m, fr) && CellsHeld(fr, mem) && AllOuter(fr)
    requires forall a {:trigger Load(mem', a)} :: fr.fp < a ==> Load(mem', a) == Load(mem, a)
    ensures InMemory(m, fr.(env := map[]), mem')
  {
    var fr' := fr.(env := map[]);
    SamePlaces(m, fr, fr');
    forall a | a in fr'.mem ensures CellHolds(fr', mem', a) {
      assert CellHolds(fr, mem, a);
      SameCell(fr, fr', a);
      var h :| h in fr.objects && InRegion(fr.objects[h], a);
      assert OuterCell(fr, a);
      OuterIsAbove(m, fr, a);
    }
  }

  // ----- leaving a function -----

  /** The code in front of the jump back. */
  lemma LeaveOk(m: Machine, fr: Frame, c: Core, v: int, r: nat) returns (c': Core)
    requires AtWork(m, fr, c) && Reg(c, r) == v && fr.fp + 4 <= INT_MAX
    ensures RunCore([Move(V0, r), Move(SP, FP), Lw(FP, 0, FP), Addi(SP, SP, 4)], c) == Some(c')
    ensures |c'.regs| == 32 && Reg(c', V0) == v && Reg(c', SP) == fr.fp + 4 && Reg(c', FP) == Load(c.mem, fr.fp)
    ensures Reg(c', RA) == Reg(c, RA) && Reg(c', ZERO) == 0 && c'.mem == c.mem
  {
    var c1 := SetReg(c, V0, v);
    var c2 := SetReg(c1, SP, fr.fp);
    var c3 := SetReg(c2, FP, Load(c.mem, fr.fp));
    c' := SetReg(c3, SP, fr.fp + 4);
    FourSteps([Move(V0, r), Move(SP, FP), Lw(FP, 0, FP), Addi(SP, SP, 4)], c, c1, c2, c3, c');
  }

  /** What a caller with frame `fr` finds when its callee has come back. */
  ghost predicate CameBack(m: Machine, fr: Frame, n: nat, c: Core, v: int) {
    && |c.regs| == 32 && Reg(c, ZERO) == 0 && Reg(c, V0) == v && Reg(c, FP) == fr.fp
    && Reg(c, SP) == CalleeFp(m, fr, n) + 4
    && InMemory(m, fr, c.mem)
  }

  lemma CallBackOk(m: Machine, fr: Frame, sizes: Operand -> nat, a: Alloc, dst: Operand, n: nat, c: Core, v: int,
                   fr': Frame)
    returns (c': Core)
    requires CameBack(m, fr, n, c, v) && Put(fr, dst, v) == Some(fr') && HasSlot(dst) && HasWord(m.layout(fr.fn), dst)
    requires Extends(m.layout(fr.fn), a.lay) && 0 <= CalleeFp(m, fr, n)
    ensures RunCore(CallBack(sizes, a, dst, n).code, c) == Some(c') && AtWork(m, fr', c')
    ensures Reg(c', RA) == Load(c.mem, Reg(c, SP))
    ensures forall b {:trigger Load(c'.mem, b)} :: fr.fp <= b ==> Load(c'.mem, b) == Load(c.mem, b)
  {
    hide RunCore, Put, StoreInto;
    var sp := fr.fp - m.layout(fr.fn).size;
    var c1 := SetReg(SetReg(c, RA, Load(c.mem, Reg(c, SP))), SP, Reg(c, SP) + 4);
    PopRaOk(c);
    ShiftOk(4 * StackArgs(n), c1);
    var c2 := SetReg(c1, SP, sp);
    c' := StoreIntoOk(m, fr, sizes, a, dst, V0, c2, v, fr');
    RunCoreAdd(POP_RA, Shift(4 * StackArgs(n)), c, c1);
    RunCoreAdd(POP_RA + Shift(4 * StackArgs(n)), StoreInto(sizes, a, dst, V0).code, c, c2);
  }
}
