/** The part of MIPS32 that the code generator emits, as the simulator runs it. */
module Mips {
  import opened Common
  import opened Syntax

  const ZERO: nat := 0
  const V0: nat := 2
  const A0: nat := 4
  const T0: nat := 8
  const SP: nat := 29
  const FP: nat := 30
  const RA: nat := 31

  /** What a label line names: a label of the three-address code, a function, or one of the two
      routines that every program contains. */
  datatype Symbol = Lab(no: nat) | Fn(name: string) | ReadRoutine | WriteRoutine

  /** The strings in the data segment. */
  datatype Text = Prompt | NewLine

  datatype Ins =
    | Mark(sym: Symbol)
    | Li(d: nat, n: int)
    | La(d: nat, text: Text)
    | Move(d: nat, s: nat)
    | Lw(d: nat, off: int, base: nat)
    | Sw(s: nat, off: int, base: nat)
    | Addi(d: nat, s: nat, n: int)
    | Alu(op: ArithOp, d: nat, a: nat, b: nat)
    | Divide(a: nat, b: nat)
    | Mflo(d: nat)
    | J(sym: Symbol)
    | Jal(sym: Symbol)
    | Jr(r: nat)
    | Branch(rel: Relop, a: nat, b: nat, sym: Symbol)
    | Syscall

  type Text32 = seq<Ins>

  /** Registers, the quotient register and memory, word by word; memory starts out as zero. */
  datatype Core = Core(regs: seq<int>, lo: int, mem: map<int, int>)

  datatype Output = Shown(text: Text) | Took(n: int) | Gave(n: int)

  datatype Cpu = Cpu(pc: int, core: Core, input: seq<int>, out: seq<Output>)

  /** The return address that `main` is entered with. */
  const EXIT: int := -1

  function Address(text: Text): int {
    match text
    case Prompt => 0x1001_0000
    case NewLine => 0x1001_0012
  }

  /** The low 32 bits, read as a signed number. */
  function Wrap(n: int): int {
    var low := n % 0x1_0000_0000;
    if low > INT_MAX then low - 0x1_0000_0000 else low
  }

  function Load(mem: map<int, int>, a: int): int {
    if a in mem then mem[a] else 0
  }

  predicate Aligned(a: int) {
    0 <= a && a % 4 == 0
  }

  function Reg(c: Core, r: nat): int {
    if r < |c.regs| then c.regs[r] else 0
  }

  /** Register 0 stays 0. */
  function SetReg(c: Core, r: nat, v: int): Core {
    if 0 < r < |c.regs| then c.(regs := c.regs[r := v]) else c
  }

  /** What `mflo` brings after `div`: the magnitudes are divided, and the quotient is negative if one of the
      operands is. */
  function Quotient(x: int, y: int): int
    requires y != 0
  {
    var q := Abs(x) / Abs(y);
    if (x < 0) == (y < 0) then q else -q
  }

  /** The processor divides as C does. */
  lemma QuotientTruncates(x: int, y: int)
    requires y != 0
    ensures Quotient(x, y) == TruncDiv(x, y)
  {
  }

  /** Whether a conditional branch is taken: a test on the sign of the difference. */
  predicate Jumps(rel: Relop, x: int, y: int) {
    var d := x - y;
    match rel
    case Eq => d == 0
    case Ne => d != 0
    case Gt => d > 0
    case Lt => d < 0
    case Ge => d >= 0
    case Le => d <= 0
  }

  /** The processor compares as C does. */
  lemma JumpsCompare(rel: Relop, x: int, y: int)
    ensures Jumps(rel, x, y) <==> Compare(rel, x, y)
  {
  }

  /** Instructions after which the next one follows; `None` is an exception. */
  function Straight(ins: Ins, c: Core): Option<Core> {
    match ins
    case Mark(_) => Some(c)
    case Li(d, n) => Some(SetReg(c, d, n))
    case La(d, text) => Some(SetReg(c, d, Address(text)))
    case Move(d, s) => Some(SetReg(c, d, Reg(c, s)))
    case Lw(d, off, base) =>
      var a := Reg(c, base) + off;
      if Aligned(a) then Some(SetReg(c, d, Load(c.mem, a))) else None
    case Sw(s, off, base) =>
      var a := Reg(c, base) + off;
      if Aligned(a) then Some(c.(mem := c.mem[a := Reg(c, s)])) else None
    case Addi(d, s, n) =>
      if IsInt32(Reg(c, s) + n) then Some(SetReg(c, d, Reg(c, s) + n)) else None
    case Alu(op, d, a, b) =>
      var x, y := Reg(c, a), Reg(c, b);
      if op.Plus? then if IsInt32(x + y) then Some(SetReg(c, d, x + y)) else None
      else if op.Minus? then if IsInt32(x - y) then Some(SetReg(c, d, x - y)) else None
      else if op.Star? then Some(SetReg(c, d, Wrap(x * y)))
      else None
    case Divide(a, b) =>
      var x, y := Reg(c, a), Reg(c, b);
      if y == 0 then None else Some(c.(lo := Wrap(Quotient(x, y))))
    case Mflo(d) => Some(SetReg(c, d, c.lo))
    case _ => None
  }

  function RunCore(code: Text32, c: Core): Option<Core> {
    if code == [] then Some(c)
    else
      var c1 :- Straight(code[0], c);
      RunCore(code[1..], c1)
  }

  /** The place of a label line. */
  function Lookup(prog: Text32, from: nat, sym: Symbol): Option<nat>
    decreases |prog| - from
  {
    if from >= |prog| then None
    else if prog[from] == Mark(sym) then Some(from)
    else Lookup(prog, from + 1, sym)
  }

  function Service(s: Cpu): Option<Cpu> {
    var call, arg := Reg(s.core, V0), Reg(s.core, A0);
    if call == 4 && arg == Address(Prompt) then Some(s.(pc := s.pc + 1, out := s.out + [Shown(Prompt)]))
    else if call == 4 && arg == Address(NewLine) then Some(s.(pc := s.pc + 1, out := s.out + [Shown(NewLine)]))
    else if call == 1 then Some(s.(pc := s.pc + 1, out := s.out + [Gave(arg)]))
    else if call == 5 && s.input != [] then
      Some(Cpu(s.pc + 1, SetReg(s.core, V0, s.input[0]), s.input[1..], s.out + [Took(s.input[0])]))
    else None
  }

  function Perform(prog: Text32, ins: Ins, s: Cpu): Option<Cpu> {
    match ins
    case J(sym) =>
      var target :- Lookup(prog, 0, sym);
      Some(s.(pc := target))
    case Jal(sym) =>
      var target :- Lookup(prog, 0, sym);
      Some(s.(pc := target, core := SetReg(s.core, RA, s.pc + 1)))
    case Jr(r) => Some(s.(pc := Reg(s.core, r)))
    case Branch(rel, a, b, sym) =>
      var target :- Lookup(prog, 0, sym);
      Some(s.(pc := if Jumps(rel, Reg(s.core, a), Reg(s.core, b)) then target else s.pc + 1))
    case Syscall => Service(s)
    case _ =>
      var core :- Straight(ins, s.core);
      Some(s.(pc := s.pc + 1, core := core))
  }

  function Execute(prog: Text32, s: Cpu): Option<Cpu> {
    if 0 <= s.pc < |prog| then Perform(prog, prog[s.pc], s) else None
  }

  function RunFor(prog: Text32, s: Cpu, n: nat): Option<Cpu>
    decreases n
  {
    if n == 0 then Some(s)
    else
      var next :- Execute(prog, s);
      RunFor(prog, next, n - 1)
  }

  /** Kept folded like `Ir.Reaches`. */
  ghost predicate Runs(prog: Text32, a: Cpu, b: Cpu) {
    forall k {:trigger Unfold(k)} :: Unfold(k) ==> exists n: nat :: RunFor(prog, a, n) == Some(b)
  }

  lemma RunsStay(prog: Text32, a: Cpu)
    ensures Runs(prog, a, a)
  {
    assert RunFor(prog, a, 0) == Some(a);
  }

  lemma RunsOne(prog: Text32, a: Cpu, b: Cpu)
    requires Execute(prog, a) == Some(b)
    ensures Runs(prog, a, b)
  {
    assert RunFor(prog, b, 0) == Some(b);
    assert RunFor(prog, a, 1) == Some(b);
  }

  lemma RunsThen(prog: Text32, a: Cpu, b: Cpu, c: Cpu)
    requires Runs(prog, a, b) && Runs(prog, b, c)
    ensures Runs(prog, a, c)
  {
    assert Unfold(0);
    var n: nat :| RunFor(prog, a, n) == Some(b);
    var k: nat :| RunFor(prog, b, k) == Some(c);
    RunForAdd(prog, a, n, b, k);
  }

  lemma {:induction false} RunForAdd(prog: Text32, a: Cpu, n: nat, b: Cpu, k: nat)
    requires RunFor(prog, a, n) == Some(b)
    ensures RunFor(prog, a, n + k) == RunFor(prog, b, k)
    decreases n
  {
    if n > 0 {
      RunForAdd(prog, Execute(prog, a).value, n - 1, b, k);
    }
  }

  /** `part` stands in `prog` from position `at` on (what it means is kept folded). */
  ghost predicate There(prog: Text32, at: int, part: Text32) {
    && 0 <= at && at + |part| <= |prog|
    && forall k {:trigger Unfold(k)} :: Unfold(k) ==> prog[at..at + |part|] == part
  }

  lemma ThereParts(prog: Text32, at: int, a: Text32, b: Text32)
    requires There(prog, at, a + b)
    ensures There(prog, at, a) && There(prog, at + |a|, b)
  {
    assert Unfold(0);
    var whole := prog[at..at + |a + b|];
    assert whole[..|a|] == a && whole[|a|..] == b;
    assert prog[at..at + |a|] == whole[..|a|] && prog[at + |a|..at + |a| + |b|] == whole[|a|..];
  }

  lemma ThereOne(prog: Text32, at: int, ins: Ins)
    requires There(prog, at, [ins])
    ensures prog[at] == ins
  {
    assert Unfold(0);
    assert prog[at] == prog[at..at + 1][0];
  }

  lemma {:induction false} RunCoreAdd(a: Text32, b: Text32, c: Core, c1: Core)
    requires RunCore(a, c) == Some(c1)
    ensures RunCore(a + b, c) == RunCore(b, c1)
    decreases |a|
  {
    if a == [] {
      assert a + b == b;
    } else {
      assert (a + b)[1..] == a[1..] + b;
      RunCoreAdd(a[1..], b, Straight(a[0], c).value, c1);
    }
  }

  /** Straight code runs through. */
  lemma {:induction false} RunsCore(prog: Text32, s: Cpu, code: Text32, c: Core)
    requires There(prog, s.pc, code) && RunCore(code, s.core) == Some(c)
    ensures Runs(prog, s, s.(pc := s.pc + |code|, core := c))
    decreases |code|
  {
    if code == [] {
      RunsStay(prog, s);
    } else {
      assert code == [code[0]] + code[1..];
      ThereParts(prog, s.pc, [code[0]], code[1..]);
      ThereOne(prog, s.pc, code[0]);
      var next := s.(pc := s.pc + 1, core := Straight(code[0], s.core).value);
      RunsOne(prog, s, next);
      RunsCore(prog, next, code[1..], c);
      RunsThen(prog, s, next, s.(pc := s.pc + |code|, core := c));
    }
  }

  /** Straight code and one more instruction. */
  lemma RunsUpTo(prog: Text32, s: Cpu, code: Text32, last: Ins, c: Core, s': Cpu)
    requires There(prog, s.pc, code + [last]) && RunCore(code, s.core) == Some(c)
    requires Perform(prog, last, s.(pc := s.pc + |code|, core := c)) == Some(s')
    ensures Runs(prog, s, s')
  {
    hide Perform, Straight, RunCore, Runs;
    var s1 := s.(pc := s.pc + |code|, core := c);
    ThereParts(prog, s.pc, code, [last]);
    ThereOne(prog, s1.pc, last);
    RunsCore(prog, s, code, c);
    RunsOne(prog, s1, s');
    RunsThen(prog, s, s1, s');
  }

  lemma {:induction false} LookupSkips(prog: Text32, from: nat, k: nat, sym: Symbol)
    requires from <= k < |prog| && prog[k] == Mark(sym) && forall j :: from <= j < k ==> prog[j] != Mark(sym)
    ensures Lookup(prog, from, sym) == Some(k)
    decreases k - from
  {
    if from < k {
      LookupSkips(prog, from + 1, k, sym);
    }
  }

  /** The cut to 32 bits gives the one small number that differs by a multiple of 2^32, so that exactly the small
      numbers survive it. */
  lemma WrapExactly(n: int)
    ensures IsInt32(Wrap(n)) && (Wrap(n) - n) % 0x1_0000_0000 == 0
    ensures IsInt32(n) <==> Wrap(n) == n
    ensures IsInt32(n) <==> IsInt32(-n - 1)
  {
  }
}
