/** From formatted three-address code to MIPS. Every instruction is translated on its own: operands
    are loaded from their slots into registers that are free again afterwards. */
module CodeGen {
  import opened Syntax
  import opened Ir
  import opened Frames
  import opened Mips

  /** Registers 8 to 25 hold operands. */
  const FIRST: nat := 8
  const REGISTERS: nat := 18

  /** The sizes that the operands of each function have. */
  type Sizes = string -> Operand -> nat

  /** What changes while instructions are translated: the frame, which receives operands it has not met
      before, the operands that registers 8, 9, … hold, and the registers that have been asked for since
      the function began, oldest request first. */
  datatype Alloc = Alloc(lay: FrameLayout, used: seq<Operand>, history: seq<nat>)

  datatype Loaded = Loaded(code: Text32, reg: nat, a: Alloc)

  function IndexOf(used: seq<Operand>, op: Operand): (i: nat)
    ensures i <= |used| && (i < |used| ==> used[i] == op) && (op in used <==> i < |used|)
  {
    if used == [] then 0
    else if used[0] == op then 0
    else 1 + IndexOf(used[1..], op)
  }

  /** The number of requests since register `r` was last asked for, `history` being all requests. */
  function Age(history: seq<nat>, r: nat): nat {
    if history == [] then 0
    else if history[|history| - 1] == r then 0
    else 1 + Age(history[..|history| - 1], r)
  }

  /** Of the first `n` registers the one with the greatest age, and of several such the first. */
  function Oldest(history: seq<nat>, n: nat): (r: nat)
    ensures FIRST <= r && (0 < n ==> r < FIRST + n)
  {
    if n <= 1 then FIRST
    else
      var r := Oldest(history, n - 1);
      if Age(history, FIRST + n - 1) > Age(history, r) then FIRST + n - 1 else r
  }

  /** The register for an operand: the one that holds it already, else the first free one, else the
      one that has not been asked for longest, whose operand is written back. */
  function Allocate(sizes: Operand -> nat, a: Alloc, op: Operand): (o: Loaded)
    ensures |o.a.used| <= |a.used| + 1
  {
    var lay := Handle(a.lay, op, sizes(op));
    if op in a.used || |a.used| < REGISTERS then
      var reg := FIRST + IndexOf(a.used, op);
      Loaded([], reg, Alloc(lay, if op in a.used then a.used else a.used + [op], a.history + [reg]))
    else
      var reg := Oldest(a.history, REGISTERS);
      Loaded([Sw(reg, Offset(lay, a.used[reg - FIRST]), FP)], reg,
             Alloc(lay, a.used[reg - FIRST := op], a.history + [reg]))
  }

  function Offset(lay: FrameLayout, op: Operand): int {
    if op in lay.slots then 0 - lay.slots[op].offset else 0
  }

  /** Code that brings an operand into a register. */
  function LoadOp(sizes: Operand -> nat, a: Alloc, op: Operand, load: bool): (o: Loaded)
    ensures |o.a.used| <= |a.used| + 1
  {
    match op
    case Const(n) =>
      if n == 0 then Loaded([], ZERO, a)
      else
        var x := Allocate(sizes, a, op);
        Loaded(x.code + if load then [Li(x.reg, n)] else [], x.reg, x.a)
    case GetVal(o) =>
      var x := LoadOp(sizes, a, o, load);
      Loaded(x.code + [Lw(x.reg, 0, x.reg)], x.reg, x.a)
    case GetAddr(o) =>
      var x := LoadOp(sizes, a, o, load);
      var lay := Handle(x.a.lay, o, sizes(o));
      Loaded(x.code + [Addi(x.reg, FP, Offset(lay, o))], x.reg, x.a.(lay := lay))
    case _ =>
      var x := Allocate(sizes, a, op);
      Loaded(x.code + if load then [Lw(x.reg, Offset(x.a.lay, op), FP)] else [], x.reg, x.a)
  }

  /** The text of an instruction, and the frame and the requests for registers after it. */
  datatype Chunk = Chunk(code: Text32, lay: FrameLayout, history: seq<nat>)

  const PUSH_RA: Text32 := [Addi(SP, SP, -4), Sw(RA, 0, SP)]
  const POP_RA: Text32 := [Lw(RA, 0, SP), Addi(SP, SP, 4)]

  /** Stores a register into the place that `dst` stands for. */
  function StoreInto(sizes: Operand -> nat, a: Alloc, dst: Operand, reg: nat): Chunk {
    if HasSlot(dst) then
      var lay := Handle(a.lay, dst, sizes(dst));
      Chunk([Sw(reg, Offset(lay, dst), FP)], lay, a.history)
    else if dst.GetVal? then
      var x := LoadOp(sizes, a, dst.opr, true);
      Chunk(x.code + [Sw(reg, 0, x.reg)], x.a.lay, x.a.history)
    else Chunk([], a.lay, a.history)
  }

  function Operate(op: ArithOp, d: nat, r1: nat, r2: nat): Text32 {
    if op.Div? then [Divide(r1, r2), Mflo(d)] else [Alu(op, d, r1, r2)]
  }

  /** The operation on registers `r1` and `r2`, and the store of its result. */
  function ResultBlock(sizes: Operand -> nat, a: Alloc, op: ArithOp, dst: Operand, r1: nat, r2: nat): Chunk {
    if HasSlot(dst) then
      var d := LoadOp(sizes, a, dst, false);
      Chunk(d.code + Operate(op, d.reg, r1, r2) + [Sw(d.reg, Offset(d.a.lay, dst), FP)], d.a.lay, d.a.history)
    else if dst.GetVal? then
      var d := LoadOp(sizes, a, dst.opr, true);
      if op.Div? then
        var q := LoadOp(sizes, d.a, dst.opr, false);
        Chunk(d.code + q.code + [Divide(r1, r2), Mflo(q.reg), Sw(q.reg, 0, d.reg)], q.a.lay, q.a.history)
      else Chunk(d.code + [Alu(op, r1, r1, r2), Sw(r1, 0, d.reg)], d.a.lay, d.a.history)
    else Chunk([], a.lay, a.history)
  }

  function ArithBlock(sizes: Operand -> nat, a: Alloc, op: ArithOp, dst: Operand, src1: Operand, src2: Operand): Chunk {
    var x := LoadOp(sizes, a, src1, true);
    var y := LoadOp(sizes, x.a, src2, true);
    var result := ResultBlock(sizes, y.a, op, dst, x.reg, y.reg);
    Chunk(x.code + y.code + result.code, result.lay, result.history)
  }

  const LEAVE: Text32 := [Move(SP, FP), Lw(FP, 0, FP), Addi(SP, SP, 4), Jr(RA)]

  function ReturnBlock(sizes: Operand -> nat, a: Alloc, src: Operand): Chunk {
    if src.GetVal? then
      var x := LoadOp(sizes, a, src.opr, true);
      Chunk(x.code + [Lw(V0, 0, x.reg)] + LEAVE, x.a.lay, x.a.history)
    else
      var x := LoadOp(sizes, a, src, true);
      Chunk(x.code + [Move(V0, x.reg)] + LEAVE, x.a.lay, x.a.history)
  }

  function ReadBlock(sizes: Operand -> nat, a: Alloc, dst: Operand): Chunk {
    var call := PUSH_RA + [Jal(ReadRoutine)] + POP_RA;
    if HasSlot(dst) then
      var x := LoadOp(sizes, a, dst, false);
      Chunk(call + x.code + [Move(x.reg, V0), Sw(x.reg, Offset(x.a.lay, dst), FP)], x.a.lay, x.a.history)
    else
      var store := StoreInto(sizes, a, dst, V0);
      Chunk(call + store.code, store.lay, store.history)
  }

  function WriteBlock(sizes: Operand -> nat, a: Alloc, src: Operand): Chunk {
    var x := LoadOp(sizes, a, src, true);
    Chunk(x.code + [Move(A0, x.reg)] + PUSH_RA + [Jal(WriteRoutine)] + POP_RA, x.a.lay, x.a.history)
  }

  /** The arguments of a call, from the `k`-th on: the first four go to $a0-$a3, the others stay in
      the registers `regs`. */
  datatype ArgsLoaded = ArgsLoaded(code: Text32, regs: seq<nat>, a: Alloc)

  function LoadArgs(sizes: Operand -> nat, a: Alloc, ops: seq<Operand>, n: nat): (o: ArgsLoaded)
    requires n <= |ops|
    ensures |o.regs| == if n > 4 then n - 4 else 0
    ensures |o.a.used| <= |a.used| + n
  {
    if n == 0 then ArgsLoaded([], [], a)
    else
      var before := LoadArgs(sizes, a, ops, n - 1);
      var x := LoadOp(sizes, before.a, ops[n - 1], true);
      if n <= 4 then ArgsLoaded(before.code + x.code + [Move(A0 + n - 1, x.reg)], [], x.a)
      else ArgsLoaded(before.code + x.code, before.regs + [x.reg], x.a)
  }

  /** Stores the registers `regs[..n]` at 0($sp), 4($sp), …, the last one first. */
  function Spread(regs: seq<nat>, n: nat): Text32
    requires n <= |regs|
  {
    if n == 0 then [] else [Sw(regs[n - 1], 4 * (n - 1), SP)] + Spread(regs, n - 1)
  }

  function Shift(n: int): Text32 {
    if n == 0 then [] else [Addi(SP, SP, n)]
  }

  /** A call up to the jump. */
  function CallFront(sizes: Operand -> nat, a: Alloc, ops: seq<Operand>): (o: (Text32, Alloc))
    ensures |o.1.used| <= |a.used| + |ops|
  {
    var args := LoadArgs(sizes, a, ops, |ops|);
    (args.code + Shift(-4 * |args.regs|) + Spread(args.regs, |args.regs|) + PUSH_RA, args.a)
  }

  /** A call after the callee has come back. */
  function CallBack(sizes: Operand -> nat, a: Alloc, dst: Operand, n: nat): Chunk {
    var store := StoreInto(sizes, a, dst, V0);
    Chunk(POP_RA + Shift(4 * StackArgs(n)) + store.code, store.lay, store.history)
  }

  function CallBlock(sizes: Operand -> nat, a: Alloc, dst: Operand, f: string, ops: seq<Operand>): Chunk {
    var (front, a1) := CallFront(sizes, a, ops);
    var back := CallBack(sizes, a1, dst, |ops|);
    Chunk(front + [Jal(Fn(f))] + back.code, back.lay, back.history)
  }

  /** Stores the first `n` parameters into their slots; since `FUNC` no register has been asked for. */
  function TakeParams(sizes: Operand -> nat, lay: FrameLayout, params: seq<string>, n: nat): Chunk
    requires n <= |params|
  {
    if n == 0 then Chunk([], lay, [])
    else
      var before := TakeParams(sizes, lay, params, n - 1);
      var op := Variable(params[n - 1]);
      var lay1 := Handle(before.lay, op, sizes(op));
      var code := if n <= 4 then [Sw(A0 + n - 1, Offset(lay1, op), FP)]
                  else [Lw(T0, 4 * (n - 4) + 4, FP), Sw(T0, Offset(lay1, op), FP)];
      Chunk(before.code + code, lay1, [])
  }

  function FuncBlock(sizes: Operand -> nat, lay: FrameLayout, f: string, params: seq<string>): Chunk {
    var take := TakeParams(sizes, lay, params, |params|);
    var reserve := if lay.slots == map[] then [] else [Addi(SP, SP, 0 - lay.size)];
    Chunk([Mark(Fn(f)), Addi(SP, SP, -4), Sw(FP, 0, SP), Move(FP, SP)] + reserve + take.code, take.lay, [])
  }

  /** The code for instruction `i`, in a function whose frame is `lay` so far; `h` are the requests for
      registers. */
  function BlockFor(code: Code, i: nat, lay: FrameLayout, h: seq<nat>, sizes: Operand -> nat): Chunk
    requires i < |code|
  {
    var a := Alloc(lay, [], h);
    match code[i]
    case LABEL(no) => Chunk([Mark(Lab(no))], lay, h)
    case FUNC(f) => FuncBlock(sizes, lay, f, Params(code, i + 1))
    case ASSIGN(dst, src) =>
      var x := LoadOp(sizes, a, src, true);
      var store := StoreInto(sizes, x.a, dst, x.reg);
      Chunk(x.code + store.code, store.lay, store.history)
    case ARITH(op, dst, src1, src2) => ArithBlock(sizes, a, op, dst, src1, src2)
    case GOTO(no) => Chunk([J(Lab(no))], lay, h)
    case IF_GOTO(rel, src1, src2, no) =>
      var x := LoadOp(sizes, a, src1, true);
      var y := LoadOp(sizes, x.a, src2, true);
      Chunk(x.code + y.code + [Branch(rel, x.reg, y.reg, Lab(no))], y.a.lay, y.a.history)
    case RETURN(src) => ReturnBlock(sizes, a, src)
    case CALL(dst, f) => CallBlock(sizes, a, dst, f, ArgRun(code, i))
    case READ(dst) => ReadBlock(sizes, a, dst)
    case WRITE(src) => WriteBlock(sizes, a, src)
    case _ => Chunk([], lay, h)
  }

  /** The two routines in front of the program. */
  const READ_ROUTINE: Text32 :=
    [Mark(ReadRoutine), Li(V0, 4), La(A0, Prompt), Syscall, Li(V0, 5), Syscall, Jr(RA)]
  const WRITE_ROUTINE: Text32 :=
    [Mark(WriteRoutine), Li(V0, 1), Syscall, Li(V0, 4), La(A0, NewLine), Syscall, Move(V0, ZERO), Jr(RA)]

  /** The text of the first `n` instructions, and the frames and the requests for registers as they are then. */
  datatype Emission = Emission(text: Text32, lays: map<string, FrameLayout>, history: seq<nat>)

  function LayoutIn(m: Machine, lays: map<string, FrameLayout>, f: string): FrameLayout {
    if f in lays then lays[f] else m.layout(f)
  }

  /** The code for instruction `i` in the frame of the function that it belongs to. */
  function ChunkAt(m: Machine, sizes: Sizes, lays: map<string, FrameLayout>, h: seq<nat>, i: nat): Chunk
    requires i < |m.code|
  {
    match FnAt(m.code, i + 1)
    case None => BlockFor(m.code, i, EMPTY, h, _ => 4)
    case Some(f) => BlockFor(m.code, i, LayoutIn(m, lays, f), h, sizes(f))
  }

  function Emit(m: Machine, sizes: Sizes, n: nat): Emission
    requires n <= |m.code|
  {
    if n == 0 then Emission(READ_ROUTINE + WRITE_ROUTINE, map[], [])
    else
      var before := Emit(m, sizes, n - 1);
      var chunk := ChunkAt(m, sizes, before.lays, before.history, n - 1);
      Emission(before.text + chunk.code,
               match FnAt(m.code, n) case None => before.lays case Some(f) => before.lays[f := chunk.lay],
               chunk.history)
  }

  function TextOf(m: Machine, sizes: Sizes): Text32 {
    Emit(m, sizes, |m.code|).text
  }

  // ----- calls whose operands have registers of their own -----

  /** The registers suffice for a call. */
  predicate FewOperands(dst: Operand, ops: seq<Operand>) {
    |ops| <= (if HasSlot(dst) then REGISTERS else REGISTERS - 1)
  }

  predicate Encodable(code: Code, i: nat)
    requires i < |code|
  {
    code[i].CALL? ==> FewOperands(code[i].dst, ArgRun(code, i))
  }

  /** No call has more arguments than there are registers. */
  ghost predicate FewArguments(code: Code) {
    forall i {:trigger Encodable(code, i)} :: 0 <= i < |code| ==> Encodable(code, i)
  }
}
