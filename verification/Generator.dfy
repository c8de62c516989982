/** The code generator as the compiler runs it: a loop over the instructions that appends text and
    changes the register file and the frames on the way. It emits the text that `CodeGen` specifies. */
module Generator {
  import opened Common
  import opened Syntax
  import opened Ir
  import opened Frames
  import opened FrameTable
  import opened Mips
  import opened CodeGen
  import opened Registers

  /** The generator keeps the registers of the arguments from the fifth on in an array of 18. */
  const MAX_ARGUMENTS: nat := 22

  predicate Passable(code: Code, i: nat)
    requires i < |code|
  {
    code[i].CALL? ==> |ArgRun(code, i)| <= MAX_ARGUMENTS
  }

  ghost predicate ArgumentsFit(code: Code) {
    forall i {:trigger Passable(code, i)} :: 0 <= i < |code| ==> Passable(code, i)
  }

  class Generator {
    const regs: RegisterFile
    const table: Table
    var out: Text32

    constructor ()
      ensures regs.Valid() && regs.used == [] && regs.history == [] && fresh(regs) && fresh(regs.inUse)
      ensures fresh(regs.held)
      ensures fresh(regs.lastUse)
      ensures table.Valid() && table.frames == [] && table.currentFrame == null && fresh(table)
      ensures out == []
    {
      regs := new RegisterFile();
      table := new Table();
      out := [];
    }

    /** The frame of the function at hand, the operands in registers and the requests for registers. */
    ghost function Now(frame: FrameNode): Alloc
      reads frame, regs
    {
      Alloc(frame.Layout(), regs.used, regs.history)
    }

    ghost predicate Ready(frame: FrameNode)
      reads frame, regs, regs.inUse, regs.held, regs.lastUse
    {
      frame.Valid() && regs.Valid() && forall op :: op in regs.used ==> op in frame.Layout().slots
    }

    /** The frame and the requests for registers are as `block` leaves them. */
    ghost predicate Left(frame: FrameNode, block: Chunk)
      reads frame, regs
    {
      frame.Layout() == block.lay && regs.history == block.history
    }

    method Append(ins: Ins)
      modifies `out
      ensures out == old(out) + [ins]
    {
      out := out + [ins];
    }

    /** The register of an operand that has a slot or is a constant; what another operand has left there
        is written back. */
    method RegisterOf(frame: FrameNode, size: Operand -> nat, op: Operand) returns (reg: nat, v: Entry)
      requires Ready(frame)
      modifies `out, frame, regs, regs.inUse, regs.held, regs.lastUse
      ensures Ready(frame)
      ensures var x := Allocate(size, old(Now(frame)), op);
              out == old(out) + x.code && reg == x.reg && Now(frame) == x.a
      ensures v.op == op && op in frame.Layout().slots && v.offset == frame.Layout().slots[op].offset
    {
      hide FrameNode.Valid, Oldest;
      v := frame.HandleVariable(op, size(op));
      var evicted;
      reg, evicted := regs.GetRegForVar(op);
      if evicted.Some? {
        WriteBack(frame, reg, evicted.value);
      }
    }

    /** Stores what another operand has left in a register. */
    method WriteBack(frame: FrameNode, reg: nat, evicted: Operand)
      requires frame.Valid() && evicted in frame.Layout().slots
      modifies `out
      ensures out == old(out) + [Sw(reg, Offset(frame.Layout(), evicted), FP)]
    {
      var v := frame.Lookup(evicted);
      Append(Sw(reg, 0 - v.offset, FP));
    }

    /** Brings an operand into a register. */
    method HandleOp(frame: FrameNode, size: Operand -> nat, op: Operand, load: bool) returns (reg: nat)
      requires Ready(frame)
      modifies `out, frame, regs, regs.inUse, regs.held, regs.lastUse
      ensures Ready(frame)
      ensures var x := LoadOp(size, old(Now(frame)), op, load);
              out == old(out) + x.code && reg == x.reg && Now(frame) == x.a
      decreases op
    {
      hide FrameNode.Valid, RegisterFile.Valid;
      match op
      case Const(n) =>
        if n == 0 {
          reg := ZERO;
        } else {
          reg := OwnRegister(frame, size, op, load);
        }
      case GetVal(o) =>
        reg := HandleOp(frame, size, o, load);
        Append(Lw(reg, 0, reg));
      case GetAddr(o) =>
        reg := HandleOp(frame, size, o, load);
        var v := frame.HandleVariable(o, size(o));
        Append(Addi(reg, FP, 0 - v.offset));
      case _ =>
        reg := OwnRegister(frame, size, op, load);
    }

    /** Variables, temporaries and constants have registers of their own. */
    method OwnRegister(frame: FrameNode, size: Operand -> nat, op: Operand, load: bool) returns (reg: nat)
      requires Ready(frame) && (HasSlot(op) || (op.Const? && op.value != 0))
      modifies `out, frame, regs, regs.inUse, regs.held, regs.lastUse
      ensures Ready(frame)
      ensures var x := LoadOp(size, old(Now(frame)), op, load);
              out == old(out) + x.code && reg == x.reg && Now(frame) == x.a
    {
      var v;
      reg, v := RegisterOf(frame, size, op);
      if load {
        Append(if op.Const? then Li(reg, op.value) else Lw(reg, 0 - v.offset, FP));
      }
    }

    /** Stores a register into a variable or through an address. */
    method Store(frame: FrameNode, size: Operand -> nat, dst: Operand, reg: nat)
      requires Ready(frame)
      modifies `out, frame, regs, regs.inUse, regs.held, regs.lastUse
      ensures Ready(frame)
      ensures var store := StoreInto(size, old(Now(frame)), dst, reg);
              out == old(out) + store.code && Left(frame, store)
    {
      if HasSlot(dst) {
        var v := frame.HandleVariable(dst, size(dst));
        Append(Sw(reg, 0 - v.offset, FP));
      } else if dst.GetVal? {
        var at := HandleOp(frame, size, dst.opr, true);
        Append(Sw(reg, 0, at));
      }
    }

    method Assign(frame: FrameNode, size: Operand -> nat, dst: Operand, src: Operand)
      requires Ready(frame) && regs.used == []
      modifies `out, frame, regs, regs.inUse, regs.held, regs.lastUse
      ensures Ready(frame)
      ensures var x := LoadOp(size, old(Now(frame)), src, true);
              var store := StoreInto(size, x.a, dst, x.reg);
              out == old(out) + (x.code + store.code) && Left(frame, store)
    {
      var reg := HandleOp(frame, size, src, true);
      Store(frame, size, dst, reg);
    }

    /** Two operands in registers. */
    method Operands(frame: FrameNode, size: Operand -> nat, src1: Operand, src2: Operand) returns (r1: nat, r2: nat)
      requires Ready(frame) && regs.used == []
      modifies `out, frame, regs, regs.inUse, regs.held, regs.lastUse
      ensures Ready(frame)
      ensures var x := LoadOp(size, old(Now(frame)), src1, true);
              var y := LoadOp(size, x.a, src2, true);
              out == old(out) + (x.code + y.code) && r1 == x.reg && r2 == y.reg && Now(frame) == y.a
    {
      r1 := HandleOp(frame, size, src1, true);
      r2 := HandleOp(frame, size, src2, true);
    }

    method Arith(frame: FrameNode, size: Operand -> nat, op: ArithOp, dst: Operand, src1: Operand, src2: Operand)
      requires Ready(frame) && regs.used == []
      modifies `out, frame, regs, regs.inUse, regs.held, regs.lastUse
      ensures Ready(frame)
      ensures var block := ArithBlock(size, old(Now(frame)), op, dst, src1, src2);
              out == old(out) + block.code && Left(frame, block)
    {
      hide LoadOp, ResultBlock;
      ghost var before := out;
      ghost var x := LoadOp(size, Now(frame), src1, true);
      ghost var y := LoadOp(size, x.a, src2, true);
      var r1, r2 := Operands(frame, size, src1, src2);
      Result(frame, size, op, dst, r1, r2);
      Regroup(before, x.code + y.code, ResultBlock(size, y.a, op, dst, r1, r2).code);
    }

    lemma Regroup(a: Text32, b: Text32, c: Text32)
      ensures a + b + c == a + (b + c)
    {
    }

    /** The operation itself and the store of its result. */
    method Result(frame: FrameNode, size: Operand -> nat, op: ArithOp, dst: Operand, r1: nat, r2: nat)
      requires Ready(frame)
      modifies `out, frame, regs, regs.inUse, regs.held, regs.lastUse
      ensures Ready(frame)
      ensures var block := ResultBlock(size, old(Now(frame)), op, dst, r1, r2);
              out == old(out) + block.code && Left(frame, block)
    {
      hide LoadOp;
      if HasSlot(dst) {
        ResultToSlot(frame, size, op, dst, r1, r2);
      } else if dst.GetVal? {
        ResultToCell(frame, size, op, dst, r1, r2);
      }
    }

    method ResultToSlot(frame: FrameNode, size: Operand -> nat, op: ArithOp, dst: Operand, r1: nat, r2: nat)
      requires Ready(frame) && HasSlot(dst)
      modifies `out, frame, regs, regs.inUse, regs.held, regs.lastUse
      ensures Ready(frame)
      ensures var block := ResultBlock(size, old(Now(frame)), op, dst, r1, r2);
              out == old(out) + block.code && Left(frame, block)
    {
      hide FrameNode.Valid, RegisterFile.Valid;
      var r0 := HandleOp(frame, size, dst, false);
      var v := frame.Lookup(dst);
      out := out + (Operate(op, r0, r1, r2) + [Sw(r0, 0 - v.offset, FP)]);
    }

    method ResultToCell(frame: FrameNode, size: Operand -> nat, op: ArithOp, dst: Operand, r1: nat, r2: nat)
      requires Ready(frame) && dst.GetVal?
      modifies `out, frame, regs, regs.inUse, regs.held, regs.lastUse
      ensures Ready(frame)
      ensures var block := ResultBlock(size, old(Now(frame)), op, dst, r1, r2);
              out == old(out) + block.code && Left(frame, block)
    {
      hide FrameNode.Valid, RegisterFile.Valid;
      var at := HandleOp(frame, size, dst.opr, true);
      if op.Div? {
        var r3 := HandleOp(frame, size, dst.opr, false);
        out := out + [Divide(r1, r2), Mflo(r3), Sw(r3, 0, at)];
      } else {
        out := out + [Alu(op, r1, r1, r2), Sw(r1, 0, at)];
      }
    }

    method Jump(frame: FrameNode, size: Operand -> nat, rel: Relop, src1: Operand, src2: Operand, no: nat)
      requires Ready(frame) && regs.used == []
      modifies `out, frame, regs, regs.inUse, regs.held, regs.lastUse
      ensures Ready(frame)
      ensures var x := LoadOp(size, old(Now(frame)), src1, true);
              var y := LoadOp(size, x.a, src2, true);
              out == old(out) + (x.code + y.code + [Branch(rel, x.reg, y.reg, Lab(no))]) && Now(frame) == y.a
    {
      var r0, r1 := Operands(frame, size, src1, src2);
      Append(Branch(rel, r0, r1, Lab(no)));
    }

    method Return(frame: FrameNode, size: Operand -> nat, src: Operand)
      requires Ready(frame) && regs.used == []
      modifies `out, frame, regs, regs.inUse, regs.held, regs.lastUse
      ensures Ready(frame)
      ensures var block := ReturnBlock(size, old(Now(frame)), src);
              out == old(out) + block.code && Left(frame, block)
    {
      var reg := HandleOp(frame, size, if src.GetVal? then src.opr else src, true);
      Append(if src.GetVal? then Lw(V0, 0, reg) else Move(V0, reg));
      out := out + LEAVE;
    }

    method Input(frame: FrameNode, size: Operand -> nat, dst: Operand)
      requires Ready(frame) && regs.used == []
      modifies `out, frame, regs, regs.inUse, regs.held, regs.lastUse
      ensures Ready(frame)
      ensures var block := ReadBlock(size, old(Now(frame)), dst);
              out == old(out) + block.code && Left(frame, block)
    {
      hide FrameNode.Valid, RegisterFile.Valid;
      out := out + (PUSH_RA + [Jal(ReadRoutine)] + POP_RA);
      if HasSlot(dst) {
        var reg := HandleOp(frame, size, dst, false);
        var v := frame.HandleVariable(dst, size(dst));
        out := out + [Move(reg, V0), Sw(reg, 0 - v.offset, FP)];
      } else if dst.GetVal? {
        var reg := HandleOp(frame, size, dst.opr, true);
        Append(Sw(V0, 0, reg));
      }
    }

    method Output(frame: FrameNode, size: Operand -> nat, src: Operand)
      requires Ready(frame) && regs.used == []
      modifies `out, frame, regs, regs.inUse, regs.held, regs.lastUse
      ensures Ready(frame)
      ensures var block := WriteBlock(size, old(Now(frame)), src);
              out == old(out) + block.code && Left(frame, block)
    {
      var reg := HandleOp(frame, size, src, true);
      Append(Move(A0, reg));
      out := out + PUSH_RA;
      Append(Jal(WriteRoutine));
      out := out + POP_RA;
    }

    /** One argument, the `n`-th when counting from 0: to its register, or to be stored later. */
    method PassOne(frame: FrameNode, size: Operand -> nat, src: Operand, n: nat, argReg: seq<nat>)
      returns (argReg': seq<nat>)
      requires Ready(frame)
      modifies `out, frame, regs, regs.inUse, regs.held, regs.lastUse
      ensures Ready(frame)
      ensures var x := LoadOp(size, old(Now(frame)), src, true);
              && out == (if n < 4 then old(out) + x.code + [Move(A0 + n, x.reg)] else old(out) + x.code)
              && argReg' == (if n < 4 then argReg else argReg + [x.reg]) && Now(frame) == x.a
    {
      var reg := HandleOp(frame, size, src, true);
      if n < 4 {
        Append(Move(A0 + n, reg));
        argReg' := argReg;
      } else {
        argReg' := argReg + [reg];
      }
    }

    lemma NextArgument(size: Operand -> nat, a: Alloc, ops: seq<Operand>, n: nat, before: Text32)
      requires n < |ops|
      ensures var args := LoadArgs(size, a, ops, n);
              var x := LoadOp(size, args.a, ops[n], true);
              var more := LoadArgs(size, a, ops, n + 1);
              && before + more.code == (if n < 4 then before + args.code + x.code + [Move(A0 + n, x.reg)]
                                        else before + args.code + x.code)
              && more.regs == (if n < 4 then args.regs else args.regs + [x.reg]) && more.a == x.a
    {
    }

    lemma NoArguments(size: Operand -> nat, a: Alloc, ops: seq<Operand>)
      ensures var none := LoadArgs(size, a, ops, 0); none.code == [] && none.regs == [] && none.a == a
    {
    }

    /** The backward walk over the arguments in front of a call. */
    method PassArguments(frame: FrameNode, size: Operand -> nat, code: Code, i: nat)
      returns (argCount: nat, argReg: seq<nat>)
      requires Ready(frame) && regs.used == [] && i <= |code| && |ArgRun(code, i)| <= MAX_ARGUMENTS
      modifies `out, frame, regs, regs.inUse, regs.held, regs.lastUse
      ensures Ready(frame) && argCount == |ArgRun(code, i)|
      ensures var args := LoadArgs(size, old(Now(frame)), ArgRun(code, i), argCount);
              out == old(out) + args.code && argReg == args.regs && Now(frame) == args.a
    {
      hide LoadArgs, LoadOp;
      ghost var ops, a := ArgRun(code, i), Now(frame);
      argCount, argReg := 0, [];
      NoArguments(size, a, ops);
      var arg: nat := i;
      while arg > 0 && code[arg - 1].ARG?
        invariant Ready(frame) && arg <= i && argCount <= |ops| && ops[argCount..] == ArgRun(code, arg)
        invariant var args := LoadArgs(size, a, ops, argCount);
                  out == old(out) + args.code && argReg == args.regs && Now(frame) == args.a
        decreases arg
      {
        assert ops[argCount] == code[arg - 1].src && ops[argCount + 1..] == ops[argCount..][1..];
        NextArgument(size, a, ops, argCount, old(out));
        argReg := PassOne(frame, size, code[arg - 1].src, argCount, argReg);
        argCount, arg := argCount + 1, arg - 1;
      }
    }

    method Call(frame: FrameNode, size: Operand -> nat, code: Code, i: nat, dst: Operand, f: string)
      requires Ready(frame) && regs.used == [] && i <= |code| && |ArgRun(code, i)| <= MAX_ARGUMENTS
      modifies `out, frame, regs, regs.inUse, regs.held, regs.lastUse
      ensures Ready(frame)
      ensures var block := CallBlock(size, old(Now(frame)), dst, f, ArgRun(code, i));
              out == old(out) + block.code && Left(frame, block)
    {
      hide LoadOp, LoadArgs, CallFront, CallBack, ArgRun;
      ghost var before := out;
      ghost var (front, a) := CallFront(size, Now(frame), ArgRun(code, i));
      var argCount := BeforeCall(frame, size, code, i);
      Append(Jal(Fn(f)));
      AfterCall(frame, size, dst, argCount);
      Regroup(before, front, [Jal(Fn(f))]);
      Regroup(before, front + [Jal(Fn(f))], CallBack(size, a, dst, argCount).code);
    }

    method BeforeCall(frame: FrameNode, size: Operand -> nat, code: Code, i: nat) returns (argCount: nat)
      requires Ready(frame) && regs.used == [] && i <= |code| && |ArgRun(code, i)| <= MAX_ARGUMENTS
      modifies `out, frame, regs, regs.inUse, regs.held, regs.lastUse
      ensures Ready(frame) && argCount == |ArgRun(code, i)|
      ensures var (front, a) := CallFront(size, old(Now(frame)), ArgRun(code, i));
              out == old(out) + front && Now(frame) == a
    {
      hide LoadOp, LoadArgs, ArgRun, Spread;
      var argReg;
      argCount, argReg := PassArguments(frame, size, code, i);
      if argCount > 4 {
        var down: int := -4 * (argCount - 4);
        Append(Addi(SP, SP, down));
      }
      SpreadOut(argReg);
      out := out + PUSH_RA;
    }

    method AfterCall(frame: FrameNode, size: Operand -> nat, dst: Operand, argCount: nat)
      requires Ready(frame)
      modifies `out, frame, regs, regs.inUse, regs.held, regs.lastUse
      ensures Ready(frame)
      ensures var back := CallBack(size, old(Now(frame)), dst, argCount);
              out == old(out) + back.code && Left(frame, back)
    {
      out := out + POP_RA;
      if argCount > 4 {
        Append(Addi(SP, SP, 4 * (argCount - 4)));
      }
      Store(frame, size, dst, V0);
    }

    /** Stores the arguments from the fifth on, the last one first. */
    method SpreadOut(argReg: seq<nat>)
      modifies `out
      ensures out == old(out) + Spread(argReg, |argReg|)
    {
      var i: nat := |argReg|;
      while i > 0
        invariant i <= |argReg| && old(out) + Spread(argReg, |argReg|) == out + Spread(argReg, i)
      {
        i := i - 1;
        out := out + [Sw(argReg[i], 4 * i, SP)];
        assert out + Spread(argReg, i) == out[..|out| - 1] + ([Sw(argReg[i], 4 * i, SP)] + Spread(argReg, i));
      }
    }

    method Function(frame: FrameNode, size: Operand -> nat, f: string, code: Code, i: nat)
      requires Ready(frame) && i < |code|
      modifies `out, frame, regs, regs.inUse, regs.held, regs.lastUse
      ensures Ready(frame) && regs.used == []
      ensures var block := FuncBlock(size, old(frame.Layout()), f, Params(code, i + 1));
              out == old(out) + block.code && Left(frame, block)
    {
      hide TakeParams, Params;
      ghost var lay := frame.Layout();
      out := out + [Mark(Fn(f)), Addi(SP, SP, -4), Sw(FP, 0, SP), Move(FP, SP)];
      if frame.varlist != null {
        Append(Addi(SP, SP, 0 - frame.varlist.offset));
      }
      regs.Clear();
      ghost var head := out;
      assert head == old(out) + ([Mark(Fn(f)), Addi(SP, SP, -4), Sw(FP, 0, SP), Move(FP, SP)]
                                 + if lay.slots == map[] then [] else [Addi(SP, SP, 0 - lay.size)]) by {
        EmptyList(frame.varlist);
      }
      Parameters(frame, size, code, i + 1);
    }

    lemma EmptyList(e: Entry?)
      requires EntriesOk(e)
      ensures e == null <==> Lay(e).slots == map[]
      ensures e != null ==> Lay(e).size == e.offset
    {
      if e != null {
        assert e.op in Lay(e).slots;
      }
    }

    /** The `n`-th parameter, counted from 1, goes from its register or stack word into its slot. */
    method TakeOne(frame: FrameNode, size: Operand -> nat, name: string, n: nat)
      requires Ready(frame) && n > 0
      modifies `out, frame
      ensures Ready(frame) && frame.Layout() == Handle(old(frame.Layout()), Variable(name), size(Variable(name)))
      ensures out == old(out) + (if n <= 4 then [Sw(A0 + n - 1, Offset(frame.Layout(), Variable(name)), FP)]
                                 else [Lw(T0, 4 * (n - 4) + 4, FP), Sw(T0, Offset(frame.Layout(), Variable(name)), FP)])
    {
      var v := frame.HandleVariable(Variable(name), size(Variable(name)));
      if n <= 4 {
        Append(Sw(A0 + n - 1, 0 - v.offset, FP));
      } else {
        out := out + [Lw(T0, 4 * (n - 4) + 4, FP), Sw(T0, 0 - v.offset, FP)];
      }
    }

    lemma NextParameter(size: Operand -> nat, lay: FrameLayout, ps: seq<string>, n: nat, before: Text32)
      requires 0 < n <= |ps|
      ensures var take := TakeParams(size, lay, ps, n - 1);
              var more := TakeParams(size, lay, ps, n);
              var op := Variable(ps[n - 1]);
              && more.lay == Handle(take.lay, op, size(op))
              && before + more.code == before + take.code
                 + (if n <= 4 then [Sw(A0 + n - 1, Offset(more.lay, op), FP)]
                    else [Lw(T0, 4 * (n - 4) + 4, FP), Sw(T0, Offset(more.lay, op), FP)])
    {
    }

    /** All parameters that follow the FUNC instruction. */
    method Parameters(frame: FrameNode, size: Operand -> nat, code: Code, at: nat)
      requires Ready(frame) && at <= |code|
      modifies `out, frame
      ensures Ready(frame)
      ensures var ps := Params(code, at);
              var take := TakeParams(size, old(frame.Layout()), ps, |ps|);
              out == old(out) + take.code && frame.Layout() == take.lay
    {
      hide FrameNode.Valid;
      ghost var ps, lay := Params(code, at), frame.Layout();
      var i, param: nat := 1, at;
      while param < |code| && code[param].PARAM?
        invariant Ready(frame) && at <= param <= |code| && 1 <= i <= |ps| + 1 && ps[i - 1..] == Params(code, param)
        invariant var take := TakeParams(size, lay, ps, i - 1);
                  out == old(out) + take.code && frame.Layout() == take.lay
        decreases |code| - param
      {
        assert ps[i - 1] == code[param].name && ps[i..] == ps[i - 1..][1..];
        NextParameter(size, lay, ps, i, old(out));
        TakeOne(frame, size, code[param].name, i);
        i, param := i + 1, param + 1;
      }
    }

    /** The text of an instruction that control goes elsewhere with, or comes in by. */
    method Flow(frame: FrameNode, size: Operand -> nat, code: Code, i: nat)
      requires Ready(frame) && regs.used == [] && i < |code| && Passable(code, i)
      requires var ins := code[i]; ins.LABEL? || ins.GOTO? || ins.FUNC? || ins.IF_GOTO? || ins.RETURN? || ins.CALL?
      modifies `out, frame, regs, regs.inUse, regs.held, regs.lastUse
      ensures Ready(frame)
      ensures var block := BlockFor(code, i, old(frame.Layout()), old(regs.history), size);
              out == old(out) + block.code && Left(frame, block)
    {
      match code[i]
      case LABEL(no) => Append(Mark(Lab(no)));
      case GOTO(no) => Append(J(Lab(no)));
      case FUNC(f) => Function(frame, size, f, code, i);
      case IF_GOTO(rel, src1, src2, no) => Jump(frame, size, rel, src1, src2, no);
      case RETURN(src) => Return(frame, size, src);
      case CALL(dst, f) => Call(frame, size, code, i, dst, f);
    }

    /** The text of one instruction. */
    method Instruction(frame: FrameNode, size: Operand -> nat, code: Code, i: nat)
      requires Ready(frame) && regs.used == [] && i < |code| && Passable(code, i)
      modifies `out, frame, regs, regs.inUse, regs.held, regs.lastUse
      ensures Ready(frame) && regs.used == []
      ensures var block := BlockFor(code, i, old(frame.Layout()), old(regs.history), size);
              out == old(out) + block.code && Left(frame, block)
    {
      match code[i] {
        case ASSIGN(dst, src) => Assign(frame, size, dst, src);
        case ARITH(op, dst, src1, src2) => Arith(frame, size, op, dst, src1, src2);
        case READ(dst) => Input(frame, size, dst);
        case WRITE(src) => Output(frame, size, src);
        case DEC(_, _) =>
        case ARG(_) =>
        case PARAM(_) =>
        case NULL =>
        case _ => Flow(frame, size, code, i);
      }
      regs.Free();
    }

    /** Every frame is as the first `n` instructions have left it. */
    ghost predicate Synced(m: Machine, sizes: Sizes, n: nat, frames: seq<FrameNode>)
      requires n <= |m.code|
      reads frames
    {
      forall frame :: frame in frames ==>
        frame.Valid() && frame.Layout() == LayoutIn(m, Emit(m, sizes, n).lays, frame.name)
    }

    lemma EmitNext(m: Machine, sizes: Sizes, n: nat, f: string)
      requires n < |m.code| && ArgumentsFit(m.code) && FnAt(m.code, n + 1) == Some(f)
      ensures var before := Emit(m, sizes, n);
              var block := BlockFor(m.code, n, LayoutIn(m, before.lays, f), before.history, sizes(f));
              && Emit(m, sizes, n + 1).text == before.text + block.code
              && LayoutIn(m, Emit(m, sizes, n + 1).lays, f) == block.lay
              && Emit(m, sizes, n + 1).history == block.history
              && forall g :: g != f ==> LayoutIn(m, Emit(m, sizes, n + 1).lays, g) == LayoutIn(m, before.lays, g)
    {
    }

    /** One round of the main loop in function `frame.name`. */
    method Round(m: Machine, sizes: Sizes, n: nat, frame: FrameNode, ghost frames: seq<FrameNode>)
      requires n < |m.code| && ArgumentsFit(m.code) && FnAt(m.code, n + 1) == Some(frame.name)
      requires regs.Valid() && regs.used == [] && frame in frames && Synced(m, sizes, n, frames)
      requires forall g :: g in frames && g != frame ==> g.name != frame.name
      requires out == Emit(m, sizes, n).text && regs.history == Emit(m, sizes, n).history
      modifies `out, frame, regs, regs.inUse, regs.held, regs.lastUse
      ensures regs.Valid() && regs.used == [] && Synced(m, sizes, n + 1, frames)
      ensures out == Emit(m, sizes, n + 1).text && regs.history == Emit(m, sizes, n + 1).history
    {
      EmitNext(m, sizes, n, frame.name);
      Instruction(frame, sizes(frame.name), m.code, n);
    }

    /** Frames have different names, and every function has one. */
    ghost predicate OneEach(code: Code, frames: seq<FrameNode>) {
      && (forall g, h :: g in frames && h in frames && g != h ==> g.name != h.name)
      && forall i :: 0 <= i < |code| && code[i].FUNC? ==> exists g :: g in frames && g.name == code[i].name
    }

    /** One round of the main loop, in whatever frame is current. */
    method AnyRound(m: Machine, sizes: Sizes, n: nat, current: FrameNode?, ghost frames: seq<FrameNode>)
      requires n < |m.code| && ArgumentsFit(m.code)
      requires FnAt(m.code, n + 1) == if current == null then None else Some(current.name)
      requires current == null ==> m.code[n] == NULL
      requires current != null ==> current in frames
      requires regs.Valid() && regs.used == [] && OneEach(m.code, frames) && Synced(m, sizes, n, frames)
      requires out == Emit(m, sizes, n).text && regs.history == Emit(m, sizes, n).history
      modifies `out, frames, regs, regs.inUse, regs.held, regs.lastUse
      ensures regs.Valid() && regs.used == [] && Synced(m, sizes, n + 1, frames)
      ensures out == Emit(m, sizes, n + 1).text && regs.history == Emit(m, sizes, n + 1).history
    {
      if current != null {
        Round(m, sizes, n, current, frames);
      } else {
        EmitNothing(m, sizes, n, frames);
      }
    }

    /** The whole program: first the frames, then the text, instruction by instruction. */
    method PrintObjectCode(m: Machine, sizes: Sizes)
      requires regs.Valid() && regs.used == [] && regs.history == [] && table.Valid() && table.frames == []
      requires table.currentFrame == null
      requires ArgumentsFit(m.code) && FunctionsOnce(m.code)
      requires forall f :: m.layout(f) == FrameOf(m.code, |m.code|, f, sizes(f))
      requires forall i :: 0 <= i < |m.code| && FnAt(m.code, i + 1) == None ==> m.code[i] == NULL
      modifies `out, table, regs, regs.inUse, regs.held, regs.lastUse
      ensures out == TextOf(m, sizes)
    {
      hide Emit, LayoutIn, FrameNode.Valid, RegisterFile.Valid, FrameOf;
      table.InitFrames(m.code, sizes);
      StartSynced(m, sizes);
      out := READ_ROUTINE + WRITE_ROUTINE;
      ghost var frames := table.frames;
      var n := 0;
      while n < |m.code|
        invariant n <= |m.code| && table.frames == frames && fresh(frames) && Working(m, sizes, n, frames)
      {
        Turn(m, sizes, n, frames);
        n := n + 1;
      }
    }

    /** The first `n` instructions are done. */
    ghost predicate Working(m: Machine, sizes: Sizes, n: nat, frames: seq<FrameNode>)
      requires n <= |m.code|
      reads this, table, regs, regs.inUse, regs.held, regs.lastUse, frames
    {
      && regs.Valid() && regs.used == [] && table.frames == frames && Stacked(table.frameStack, frames)
      && OneEach(m.code, frames) && Synced(m, sizes, n, frames)
      && (table.currentFrame != null ==> table.currentFrame in frames)
      && FnAt(m.code, n) == (if table.currentFrame == null then None else Some(table.currentFrame.name))
      && out == Emit(m, sizes, n).text && regs.history == Emit(m, sizes, n).history
    }

    /** The body of the main loop. */
    method Turn(m: Machine, sizes: Sizes, n: nat, ghost frames: seq<FrameNode>)
      requires n < |m.code| && ArgumentsFit(m.code) && Working(m, sizes, n, frames)
      requires FnAt(m.code, n + 1) == None ==> m.code[n] == NULL
      modifies `out, table`currentFrame, frames, regs, regs.inUse, regs.held, regs.lastUse
      ensures Working(m, sizes, n + 1, frames)
    {
      hide Emit, LayoutIn, FrameNode.Valid, RegisterFile.Valid;
      if m.code[n].FUNC? {
        table.UpdateFramePointer(m.code[n].name);
      }
      AnyRound(m, sizes, n, table.currentFrame, frames);
    }

    /** In front of the first function there is nothing to emit. */
    lemma EmitNothing(m: Machine, sizes: Sizes, n: nat, frames: seq<FrameNode>)
      requires n < |m.code| && ArgumentsFit(m.code) && FnAt(m.code, n + 1) == None && m.code[n] == NULL
      requires Synced(m, sizes, n, frames)
      ensures Emit(m, sizes, n + 1).text == Emit(m, sizes, n).text && Synced(m, sizes, n + 1, frames)
      ensures Emit(m, sizes, n + 1).history == Emit(m, sizes, n).history
    {
    }

    lemma StartSynced(m: Machine, sizes: Sizes)
      requires table.Valid() && FunctionsOnce(m.code)
      requires table.LaidOut(FunctionsSoFar(m.code, |m.code|), m.code, |m.code|, sizes)
      requires forall f :: m.layout(f) == FrameOf(m.code, |m.code|, f, sizes(f))
      ensures OneEach(m.code, table.frames) && Synced(m, sizes, 0, table.frames)
      ensures Emit(m, sizes, 0) == Emission(READ_ROUTINE + WRITE_ROUTINE, map[], [])
    {
      var names, frames := FunctionsSoFar(m.code, |m.code|), table.frames;
      DefinedOnce(m.code, |m.code|);
      forall i | 0 <= i < |frames| ensures frames[i].name == names[i] && frames[i].Layout() == m.layout(names[i]) {
        assert table.FrameIs(i, names, m.code, |m.code|, sizes);
      }
      forall i | 0 <= i < |m.code| && m.code[i].FUNC? ensures exists g :: g in frames && g.name == m.code[i].name {
        IsSoFar(m.code, |m.code|, i);
        var j :| 0 <= j < |names| && names[j] == m.code[i].name;
        assert frames[j] in frames;
      }
    }

    lemma {:induction false} IsSoFar(code: Code, n: nat, i: nat)
      requires i < n <= |code| && code[i].FUNC?
      ensures code[i].name in FunctionsSoFar(code, n)
      decreases n
    {
      if i < n - 1 {
        IsSoFar(code, n - 1, i);
      }
    }
  }
}
