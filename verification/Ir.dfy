/** The three-address code and a small-step machine that gives it meaning. */
module Ir {
  import opened Common
  import opened Syntax
  import opened Layout

  datatype Operand =
    | Variable(name: string)
    | Temp(no: nat)
    | Const(value: int)
    | GetAddr(opr: Operand)
    | GetVal(opr: Operand)

  datatype Instr =
    | LABEL(no: nat)
    | FUNC(name: string)
    | ASSIGN(dst: Operand, src: Operand)
    | ARITH(op: ArithOp, dst: Operand, src1: Operand, src2: Operand)
    | GOTO(no: nat)
    | IF_GOTO(relop: Relop, src1: Operand, src2: Operand, no: nat)
    | RETURN(src: Operand)
    | DEC(name: string, size: nat)
    | ARG(src: Operand)
    | CALL(dst: Operand, name: string)
    | PARAM(name: string)
    | READ(dst: Operand)
    | WRITE(src: Operand)
    | NULL

  type Code = seq<Instr>

  /** A variable or a temporary: an operand that has a cell of its own. */
  predicate HasSlot(op: Operand) {
    op.Variable? || op.Temp?
  }

  /** Operands that touch memory or take an address. */
  predicate IsMemOp(op: Operand) {
    op.GetAddr? || op.GetVal?
  }

  /** Where a frame keeps an operand: `offset` bytes below the frame pointer, `size` bytes long. */
  datatype Slot = Slot(offset: nat, size: nat)

  datatype FrameLayout = FrameLayout(slots: map<Operand, Slot>, size: nat)

  /** A program together with the places that the frames of its functions give to their operands. */
  datatype Machine = Machine(code: Code, layout: string -> FrameLayout)

  /** One activation, the one that `depth` others wait for: values of variables and temporaries, the
      structures and arrays declared so far by it and by those that wait, with the bytes they occupy.
      All activations share one memory; the running one has it as `mem`, by address. */
  datatype Frame = Frame(fn: string, fp: int, env: map<Operand, int>,
                         depth: nat, objects: map<Home, Region>, mem: map<int, int>)

  /** A suspended activation: it goes on at `ret` once `dst` has received the result. */
  datatype Caller = Caller(frame: Frame, dst: Operand, ret: nat)

  datatype State =
    | Running(pc: nat, frame: Frame, callers: seq<Caller>, args: seq<int>, io: Console)
    | Halted(result: int, final: Console)

  /** The first occurrence of `ins` at or after position `from`. */
  function Find(code: Code, from: nat, ins: Instr): Option<nat>
    decreases |code| - from
  {
    if from >= |code| then None
    else if code[from] == ins then Some(from)
    else Find(code, from + 1, ins)
  }

  /** `part` stands in `code` from position `at` on. */
  predicate Inside(code: Code, at: nat, part: Code) {
    at + |part| <= |code| && code[at..at + |part|] == part
  }

  /** The function whose code position `pc` belongs to. */
  function FnAt(code: Code, pc: nat): Option<string> {
    if pc == 0 || pc > |code| then None
    else if code[pc - 1].FUNC? then Some(code[pc - 1].name)
    else FnAt(code, pc - 1)
  }

  /** The names in the run of PARAM instructions that starts at `pc`. */
  function Params(code: Code, pc: nat): seq<string>
    decreases |code| - pc
  {
    if pc < |code| && code[pc].PARAM? then [code[pc].name] + Params(code, pc + 1) else []
  }

  /** The operands of the run of ARG instructions that ends just before `pc`, last one first. */
  function ArgRun(code: Code, pc: nat): seq<Operand>
    requires pc <= |code|
  {
    if pc > 0 && code[pc - 1].ARG? then [code[pc - 1].src] + ArgRun(code, pc - 1) else []
  }

  /** Parameters become variables; a repeated name keeps the last value. */
  function Bind(params: seq<string>, args: seq<int>): map<Operand, int>
    requires |params| == |args|
  {
    if params == [] then map[]
    else
      var n := |params| - 1;
      Bind(params[..n], args[..n])[Variable(params[n]) := args[n]]
  }

  /** Whether the activation has declared a structure or array `x`. */
  predicate Owns(fr: Frame, x: string) {
    Home(fr.depth, x) in fr.objects
  }

  predicate InRegion(r: Region, a: int) {
    r.base <= a && a + 4 <= r.base + r.size && (a - r.base) % 4 == 0
  }

  /** Whether the four bytes at `a` are a word of a structure or array that is declared and alive. */
  predicate IsCell(fr: Frame, a: int) {
    exists h :: h in fr.objects && InRegion(fr.objects[h], a)
  }

  /** The same, but of an activation that waits. */
  predicate OuterCell(fr: Frame, a: int) {
    exists h :: h in fr.objects && h.depth < fr.depth && InRegion(fr.objects[h], a)
  }

  function Get(fr: Frame, op: Operand): Option<int> {
    match op
    case Const(n) => Some(n)
    case GetAddr(o) => if o.Variable? && Owns(fr, o.name) then Some(fr.objects[Home(fr.depth, o.name)].base) else None
    case GetVal(o) =>
      if HasSlot(o) && o in fr.env && fr.env[o] in fr.mem then Some(fr.mem[fr.env[o]]) else None
    case _ => if op in fr.env then Some(fr.env[op]) else None
  }

  function Put(fr: Frame, op: Operand, v: int): Option<Frame> {
    match op
    case Variable(x) => if Owns(fr, x) then None else Some(fr.(env := fr.env[op := v]))
    case Temp(_) => Some(fr.(env := fr.env[op := v]))
    case GetVal(o) =>
      if HasSlot(o) && o in fr.env && IsCell(fr, fr.env[o])
      then Some(fr.(mem := fr.mem[fr.env[o] := v]))
      else None
    case _ => None
  }

  /** A structure or array is declared; its name is no longer that of a scalar. */
  function Aggregate(fr: Frame, x: string, slot: Slot): Frame {
    fr.(objects := fr.objects[Home(fr.depth, x) := Region(fr.fp - slot.offset, slot.size)],
        env := fr.env - {Variable(x)})
  }

  /** Jumps lead to a label of the running function. */
  function Target(m: Machine, fr: Frame, no: nat): Option<nat> {
    var pc :- Find(m.code, 0, LABEL(no));
    if FnAt(m.code, pc) == Some(fr.fn) then Some(pc) else None
  }

  /** The frame pointer of an activation that `fr` starts with `n` arguments: below the caller's
      slots come the arguments from the fifth on, the saved return address and the saved frame pointer. */
  function CalleeFp(m: Machine, fr: Frame, n: nat): int {
    fr.fp - m.layout(fr.fn).size - 4 * StackArgs(n) - 8
  }

  function StackArgs(n: nat): nat {
    if n > 4 then n - 4 else 0
  }

  /** The stack has room for a frame of `f` at `fp`, and below it for the return address that is
      saved while an integer is read or written. */
  predicate Fits(m: Machine, f: string, fp: int) {
    4 <= fp - m.layout(f).size && fp + 4 <= INT_MAX
  }

  /** What a function leaves of the memory: its own structures and arrays are gone. */
  function Remains(fr: Frame): map<int, int> {
    map a | a in fr.mem && OuterCell(fr, a) :: fr.mem[a]
  }

  /** `fr` returns `v`. */
  function Resume(v: int, fr: Frame, ks: seq<Caller>, io: Console): Option<State> {
    if ks == [] then Some(Halted(v, io))
    else
      var back :- Put(ks[0].frame.(mem := Remains(fr)), ks[0].dst, v);
      Some(Running(ks[0].ret, back, ks[1..], [], io))
  }

  /** The frame a program starts with. */
  function FirstFrame(f: string, fp: int): Frame {
    Frame(f, fp, map[], 0, map[], map[])
  }

  /** The frame that a call makes: it takes the memory over from the caller. */
  function Callee(m: Machine, fr: Frame, f: string, params: seq<string>, args: seq<int>): Frame
    requires |params| == |args|
  {
    Frame(f, CalleeFp(m, fr, |args|), Bind(params, args), fr.depth + 1, fr.objects, fr.mem)
  }

  /** The caller's frame while it waits. */
  function Suspended(fr: Frame): Frame {
    fr.(mem := map[])
  }

  function Invoke(m: Machine, f: string, st: State, dst: Operand): Option<State>
    requires st.Running?
  {
    var entry :- Find(m.code, 0, FUNC(f));
    var params := Params(m.code, entry + 1);
    if |params| != |st.args| || !Fits(m, f, CalleeFp(m, st.frame, |params|)) then None
    else
      Some(Running(entry + 1, Callee(m, st.frame, f, params, st.args),
                   [Caller(Suspended(st.frame), dst, st.pc + 1)] + st.callers, [], st.io))
  }

  /** The instructions that neither pass arguments nor call. */
  function Plain(m: Machine, ins: Instr, st: State): Option<State>
    requires st.Running?
  {
    var next := st.(pc := st.pc + 1);
    match ins
    case LABEL(_) => Some(next)
    case PARAM(_) => Some(next)
    case NULL => Some(next)
    case ASSIGN(dst, src) =>
      var v :- Get(st.frame, src);
      var fr :- Put(st.frame, dst, v);
      Some(next.(frame := fr))
    case ARITH(op, dst, src1, src2) =>
      var a :- Get(st.frame, src1);
      var b :- Get(st.frame, src2);
      var v :- Compute(op, a, b);
      var fr :- Put(st.frame, dst, v);
      Some(next.(frame := fr))
    case GOTO(no) =>
      var pc :- Target(m, st.frame, no);
      Some(st.(pc := pc))
    case IF_GOTO(relop, src1, src2, no) =>
      var a :- Get(st.frame, src1);
      var b :- Get(st.frame, src2);
      var pc :- Target(m, st.frame, no);
      Some(if Compare(relop, a, b) then st.(pc := pc) else next)
    case RETURN(src) =>
      var v :- Get(st.frame, src);
      Resume(v, st.frame, st.callers, st.io)
    case DEC(x, size) =>
      var slots := m.layout(st.frame.fn).slots;
      if Variable(x) in slots && slots[Variable(x)].size == size
      then Some(next.(frame := Aggregate(st.frame, x, slots[Variable(x)])))
      else None
    case READ(dst) =>
      if st.io.input == [] then None
      else
        var fr :- Put(st.frame, dst, st.io.input[0]);
        Some(next.(frame := fr, io := st.io.Read()))
    case WRITE(src) =>
      var v :- Get(st.frame, src);
      Some(next.(io := st.io.Write(v)))
    case _ => None
  }

  /** One step; `None` when the machine has halted or what it is asked to do has no meaning.
      ARG queues a value, CALL hands the queue to the callee; nothing else may run in between. */
  function Step(m: Machine, st: State): Option<State> {
    if st.Halted? || st.pc >= |m.code| then None
    else
      match m.code[st.pc]
      case ARG(src) =>
        var v :- Get(st.frame, src);
        Some(st.(pc := st.pc + 1, args := [v] + st.args))
      case CALL(dst, f) => Invoke(m, f, st, dst)
      case ins => if st.args != [] then None else Plain(m, ins, st)
  }

  /** A run lists the states that the machine goes through. */
  ghost predicate IsRun(m: Machine, run: seq<State>) {
    run != [] && forall i {:trigger Follows(m, run, i)} :: 0 <= i < |run| - 1 ==> Follows(m, run, i)
  }

  ghost predicate Follows(m: Machine, run: seq<State>, i: int)
    requires 0 <= i < |run| - 1
  {
    Step(m, run[i]) == Some(run[i + 1])
  }

  /** `Reaches` and `Gets` stay folded, so that proofs which only pass them around are not burdened
      with runs. */
  ghost predicate Reaches(m: Machine, a: State, b: State) {
    forall k {:trigger Unfold(k)} :: Unfold(k) ==> exists run :: IsRun(m, run) && run[0] == a && run[|run| - 1] == b
  }

  lemma Stay(m: Machine, a: State)
    ensures Reaches(m, a, a)
  {
    assert IsRun(m, [a]);
  }

  lemma One(m: Machine, a: State, b: State)
    requires Step(m, a) == Some(b)
    ensures Reaches(m, a, b)
  {
    var run := [a, b];
    assert Follows(m, run, 0);
    assert IsRun(m, run) && run[0] == a && run[1] == b;
  }

  lemma Then(m: Machine, a: State, b: State, c: State)
    requires Reaches(m, a, b) && Reaches(m, b, c)
    ensures Reaches(m, a, c)
  {
    assert Unfold(0);
    var r :| IsRun(m, r) && r[0] == a && r[|r| - 1] == b;
    var s :| IsRun(m, s) && s[0] == b && s[|s| - 1] == c;
    Join(m, r, s);
  }

  lemma Join(m: Machine, r: seq<State>, s: seq<State>)
    requires IsRun(m, r) && IsRun(m, s) && r[|r| - 1] == s[0]
    ensures IsRun(m, r + s[1..]) && (r + s[1..])[|r| + |s| - 2] == s[|s| - 1]
  {
    var run := r + s[1..];
    forall i | 0 <= i < |run| - 1 ensures Follows(m, run, i) {
      if i < |r| - 1 {
        assert Follows(m, r, i);
      } else {
        assert Follows(m, s, i - (|r| - 1));
      }
    }
  }

  /** A call for whose frame the stack has no room. */
  ghost predicate Exhausted(m: Machine, st: State) {
    && st.Running? && st.pc < |m.code| && m.code[st.pc].CALL?
    && var f := m.code[st.pc].name;
       && Find(m.code, 0, FUNC(f)).Some?
       && !Fits(m, f, CalleeFp(m, st.frame, |st.args|))
  }

  /** The machine gets from `a` to `b`, unless it first runs out of stack. */
  ghost predicate Gets(m: Machine, a: State, b: State) {
    forall k {:trigger Unfold(k)} :: Unfold(k) ==>
      exists run :: IsRun(m, run) && run[0] == a && (run[|run| - 1] == b || Exhausted(m, run[|run| - 1]))
  }

  lemma Onward(m: Machine, a: State, b: State, c: State)
    requires Gets(m, a, b) && Gets(m, b, c)
    ensures Gets(m, a, c)
  {
    assert Unfold(0);
    var r :| IsRun(m, r) && r[0] == a && (r[|r| - 1] == b || Exhausted(m, r[|r| - 1]));
    if r[|r| - 1] == b {
      var s :| IsRun(m, s) && s[0] == b && (s[|s| - 1] == c || Exhausted(m, s[|s| - 1]));
      Join(m, r, s);
    }
  }

  lemma RunsOut(m: Machine, a: State, b: State)
    requires Exhausted(m, a)
    ensures Gets(m, a, b)
  {
    assert IsRun(m, [a]);
  }

  lemma Arrived(m: Machine, a: State, b: State)
    requires Reaches(m, a, b)
    ensures Gets(m, a, b)
  {
    assert Unfold(0);
  }

  lemma Depart(m: Machine, a: State, b: State, c: State)
    requires Reaches(m, a, b) && Gets(m, b, c)
    ensures Gets(m, a, c)
  {
    assert Unfold(0);
    Onward(m, a, b, c);
  }

  lemma Arrive(m: Machine, a: State, b: State, c: State)
    requires Gets(m, a, b) && Reaches(m, b, c)
    ensures Gets(m, a, c)
  {
    assert Unfold(0);
    Onward(m, a, b, c);
  }

  /** The machine is deterministic: where it halts, no other run halts elsewhere or runs out of stack. */
  lemma HaltsOnce(m: Machine, a: State, b: State, c: State)
    requires Gets(m, a, b) && Reaches(m, a, c) && b.Halted? && c.Halted?
    ensures b == c
  {
    assert Unfold(0);
    var r :| IsRun(m, r) && r[0] == a && (r[|r| - 1] == b || Exhausted(m, r[|r| - 1]));
    var s :| IsRun(m, s) && s[0] == a && s[|s| - 1] == c;
    if |r| <= |s| {
      assert |r| < |s| ==> Follows(m, s, |r| - 1);
      RunsAgree(m, r, s, |r| - 1);
    } else {
      assert Follows(m, r, |s| - 1);
      RunsAgree(m, r, s, |s| - 1);
    }
  }

  lemma {:induction false} RunsAgree(m: Machine, r: seq<State>, s: seq<State>, i: nat)
    requires IsRun(m, r) && IsRun(m, s) && r[0] == s[0] && i < |r| && i < |s|
    ensures r[i] == s[i]
  {
    if i > 0 {
      RunsAgree(m, r, s, i - 1);
      assert Follows(m, r, i - 1) && Follows(m, s, i - 1);
    }
  }

  lemma {:induction false} FindSkips(code: Code, from: nat, k: nat, ins: Instr)
    requires from <= k < |code| && code[k] == ins
    requires forall j :: from <= j < k ==> code[j] != ins
    ensures Find(code, from, ins) == Some(k)
    decreases k - from
  {
    if from < k {
      FindSkips(code, from + 1, k, ins);
    }
  }

  lemma {:induction false} FindFinds(code: Code, from: nat, ins: Instr)
    ensures match Find(code, from, ins)
            case Some(k) => from <= k < |code| && code[k] == ins && forall j :: from <= j < k ==> code[j] != ins
            case None => forall j :: from <= j < |code| ==> code[j] != ins
    decreases |code| - from
  {
    if from < |code| && code[from] != ins {
      FindFinds(code, from + 1, ins);
    }
  }
}
