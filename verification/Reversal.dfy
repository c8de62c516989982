/** The compiler theorem at work: a family of programs that read `n` integers into an array and write them in the
    opposite order. What the source program does is proved for every `n` and every input, and the compiler theorem
    carries it over to the MIPS text. */
module Reversal {
  import opened Common
  import opened Syntax
  import opened Layout
  import opened Source
  import opened Meaning
  import opened Mips
  import opened CodeGen
  import opened Simulate
  import opened Compiler
  import opened Premises

  // ----- the program -----

  const ELEMENT: Exp := Index(Id("a"), Id("i"))

  /** `{ a[i] = read(); i = i + 1; }` */
  const FILL: Stmt :=
    Block(NoDec, Seq(ExpStmt(Assign(ELEMENT, Read)),
                     Seq(ExpStmt(Assign(Id("i"), Arith(Plus, Id("i"), Lit(1)))), NoStmt)))

  /** `{ i = i - 1; write(a[i]); }` */
  const SHOW: Stmt :=
    Block(NoDec, Seq(ExpStmt(Assign(Id("i"), Arith(Minus, Id("i"), Lit(1)))),
                     Seq(ExpStmt(Write(ELEMENT)), NoStmt)))

  /** `while (i < n) ...` */
  function Filling(n: nat): Stmt {
    While(Rel(Lt, Id("i"), Lit(n)), FILL)
  }

  /** `while (i > 0) ...` */
  const SHOWING: Stmt := While(Rel(Gt, Id("i"), Lit(0)), SHOW)

  function Vars(n: nat): Gamma {
    map["a" := Array(Int, n), "i" := Int]
  }

  /** `int main() { int a[n]; int i = 0; while (i < n) ... while (i > 0) ... return 0; }` */
  function Main(n: nat): Function {
    Function("main", [], Vars(n), Dec("a", Array(Int, n), None, Dec("i", Int, Some(Lit(0)), NoDec)),
             Seq(Filling(n), Seq(SHOWING, Seq(Return(Lit(0)), NoStmt))))
  }

  function Reverser(n: nat): Program {
    [Definition(Main(n))]
  }

  // ----- its states -----

  function Numbers(n: nat): Obj {
    Obj(Home(0, "a"), Array(Int, n))
  }

  function Cell(n: nat, k: nat): Loc {
    Loc(Numbers(n), [Element(k)])
  }

  /** The first `k` elements hold those of `xs`. */
  function Held(n: nat, xs: seq<int>, k: nat): (parts: map<Loc, int>)
    requires k <= |xs|
    ensures forall j :: 0 <= j < k ==> Cell(n, j) in parts && parts[Cell(n, j)] == xs[j]
  {
    if k == 0 then map[] else Held(n, xs, k - 1)[Cell(n, k - 1) := xs[k - 1]]
  }

  function Stage(n: nat, xs: seq<int>, k: nat, i: nat, io: Console): Store
    requires k <= |xs|
  {
    Store(map["i" := i], map[], 0, {Numbers(n)}, Held(n, xs, k), io)
  }

  /** What reading `xs` leaves on the console. */
  function Reads(xs: seq<int>): (es: seq<Event>)
    ensures |es| == |xs| && forall k :: 0 <= k < |xs| ==> es[k] == ReadInt(xs[k])
  {
    seq(|xs|, k requires 0 <= k < |xs| => ReadInt(xs[k]))
  }

  /** The same numbers written, the last one first. */
  function Backwards(xs: seq<int>): (es: seq<Event>)
    ensures |es| == |xs| && forall k :: 0 <= k < |xs| ==> es[k] == WriteInt(xs[|xs| - 1 - k])
  {
    seq(|xs|, k requires 0 <= k < |xs| => WriteInt(xs[|xs| - 1 - k]))
  }

  // ----- what the program does -----

  lemma ElementPart(n: nat, xs: seq<int>, k: nat, i: nat, io: Console)
    requires k <= |xs| && i < n
    ensures Part(Vars(n), Stage(n, xs, k, i, io), Named("a"), Element(i)) == Some(Cell(n, i))
    ensures PartAt(Cell(n, i)) == Some((4 * i, Int))
  {
    var a := Array(Int, n);
    assert [Element(i)][..0] == [];
    assert Follow(a, []) == Some((0, a));
    assert Select(a, Element(i)) == Some((i * 4, Int));
    assert Follow(a, [Element(i)]) == Some((0 + i * 4, Int));
    assert [] + [Element(i)] == [Element(i)];
  }

  lemma ElementPlace(n: nat, xs: seq<int>, k: nat, i: nat, io: Console, fuel: nat)
    requires k <= |xs| && i < n
    ensures Eval(Reverser(n), Vars(n), ELEMENT, Stage(n, xs, k, i, io), fuel)
         == Some((At(Cell(n, i)), Stage(n, xs, k, i, io)))
  {
    hide Eval, Part;
    ElementPart(n, xs, k, i, io);
    IndexPlace(Reverser(n), Vars(n), "a", "i", Stage(n, xs, k, i, io), fuel, i, Cell(n, i));
  }

  /** `a[i] = read(); i = i + 1;` */
  lemma FillOnce(n: nat, xs: seq<int>, k: nat, io: Console, fuel: nat)
    requires k < |xs| == n <= INT_MAX && IsInt32(xs[k]) && io.input != [] && io.input[0] == xs[k]
    ensures Exec(Reverser(n), Vars(n), FILL, Stage(n, xs, k, k, io), fuel)
         == Some(Normal(Stage(n, xs, k + 1, k + 1, io.Read())))
  {
    hide Eval, Exec, Part;
    var p, g, s := Reverser(n), Vars(n), Stage(n, xs, k, k, io);
    var s1 := s.(io := io.Read());
    var s2 := Stage(n, xs, k + 1, k, io.Read());
    var s3 := Stage(n, xs, k + 1, k + 1, io.Read());
    ElementPlace(n, xs, k, k, io, fuel);
    ElementPart(n, xs, k, k, io);
    ReadHere(p, g, s, fuel);
    AssignPlace(p, g, ELEMENT, Read, s, fuel, At(Cell(n, k)), Val(xs[k]), s1, xs[k], s2);
    Stepped(n, xs, k + 1, k, k + 1, io.Read(), Plus, fuel);
    TwoRun(p, g, Assign(ELEMENT, Read), Assign(Id("i"), Arith(Plus, Id("i"), Lit(1))), s, fuel, Val(xs[k]), s2,
           Val(k + 1), s3);
  }

  /** `i = i + 1` or `i = i - 1`. */
  lemma Stepped(n: nat, xs: seq<int>, k: nat, i: nat, j: nat, io: Console, op: ArithOp, fuel: nat)
    requires k <= |xs| && Compute(op, i, 1) == Some(j)
    ensures Eval(Reverser(n), Vars(n), Assign(Id("i"), Arith(op, Id("i"), Lit(1))), Stage(n, xs, k, i, io), fuel)
         == Some((Val(j), Stage(n, xs, k, j, io)))
  {
    hide Eval;
    var p, g, s := Reverser(n), Vars(n), Stage(n, xs, k, i, io);
    NamePlace(p, g, "i", s, fuel);
    ArithPlace(p, g, op, "i", 1, s, fuel, i, j);
    assert map["i" := i]["i" := j] == map["i" := j];
    AssignPlace(p, g, Id("i"), Arith(op, Id("i"), Lit(1)), s, fuel, Named("i"), Val(j), s, j, Stage(n, xs, k, j, io));
  }

  /** `i = i - 1; write(a[i]);` */
  lemma ShowOnce(n: nat, xs: seq<int>, i: nat, io: Console, fuel: nat)
    requires 0 < i <= |xs| == n <= INT_MAX
    ensures Exec(Reverser(n), Vars(n), SHOW, Stage(n, xs, n, i, io), fuel)
         == Some(Normal(Stage(n, xs, n, i - 1, io.Write(xs[i - 1]))))
  {
    hide Eval, Exec;
    var p, g, s := Reverser(n), Vars(n), Stage(n, xs, n, i, io);
    Stepped(n, xs, n, i, i - 1, io, Minus, fuel);
    ElementPlace(n, xs, n, i - 1, io, fuel);
    var s1 := Stage(n, xs, n, i - 1, io);
    WriteHere(p, g, ELEMENT, s1, fuel, At(Cell(n, i - 1)), xs[i - 1]);
    TwoRun(p, g, Assign(Id("i"), Arith(Minus, Id("i"), Lit(1))), Write(ELEMENT), s, fuel, Val(i - 1), s1,
           NoValue, Stage(n, xs, n, i - 1, io.Write(xs[i - 1])));
  }

  /** The first loop, from round `k` on. */
  lemma {:induction false} FillRuns(n: nat, xs: seq<int>, k: nat, rest: seq<int>, io: Console, fuel: nat)
    requires k <= |xs| == n <= INT_MAX && (forall j :: 0 <= j < n ==> IsInt32(xs[j])) && fuel >= n - k
    requires io == Console(xs[k..] + rest, Reads(xs[..k]))
    ensures Exec(Reverser(n), Vars(n), Filling(n), Stage(n, xs, k, k, io), fuel)
         == Some(Normal(Stage(n, xs, n, n, Console(rest, Reads(xs)))))
    decreases n - k
  {
    hide Eval, Exec, Holds;
    var p, g, s, cond := Reverser(n), Vars(n), Stage(n, xs, k, k, io), Rel(Lt, Id("i"), Lit(n));
    RelHolds(p, g, Lt, "i", n, s, fuel, k);
    if k == n {
      assert xs[..k] == xs && xs[k..] + rest == rest;
      WhileOver(p, g, cond, FILL, s, fuel);
    } else {
      FillOnce(n, xs, k, io, fuel);
      assert xs[..k + 1] == xs[..k] + [xs[k]];
      assert io.Read() == Console(xs[k + 1..] + rest, Reads(xs[..k + 1]));
      WhileRound(p, g, cond, FILL, s, fuel, Stage(n, xs, k + 1, k + 1, io.Read()));
      FillRuns(n, xs, k + 1, rest, io.Read(), fuel - 1);
    }
  }

  /** The second loop, when `i` elements are still to be written. */
  lemma {:induction false} ShowRuns(n: nat, xs: seq<int>, i: nat, io: Console, fuel: nat)
    requires i <= |xs| == n <= INT_MAX && fuel >= i
    ensures Exec(Reverser(n), Vars(n), SHOWING, Stage(n, xs, n, i, io), fuel)
         == Some(Normal(Stage(n, xs, n, 0, Console(io.input, io.trace + Backwards(xs[..i])))))
    decreases i
  {
    hide Eval, Exec, Holds;
    var p, g, s, cond := Reverser(n), Vars(n), Stage(n, xs, n, i, io), Rel(Gt, Id("i"), Lit(0));
    RelHolds(p, g, Gt, "i", 0, s, fuel, i);
    if i == 0 {
      assert io.trace + Backwards(xs[..0]) == io.trace;
      WhileOver(p, g, cond, SHOW, s, fuel);
    } else {
      ShowOnce(n, xs, i, io, fuel);
      var io1 := io.Write(xs[i - 1]);
      assert Backwards(xs[..i]) == [WriteInt(xs[i - 1])] + Backwards(xs[..i - 1]);
      assert io1.trace + Backwards(xs[..i - 1]) == io.trace + Backwards(xs[..i]);
      WhileRound(p, g, cond, SHOW, s, fuel, Stage(n, xs, n, i - 1, io1));
      ShowRuns(n, xs, i - 1, io1, fuel - 1);
    }
  }

  lemma Declared(n: nat, input: seq<int>, fuel: nat)
    ensures ExecDecs(Reverser(n), Vars(n), Main(n).decs, FirstStore(input), fuel)
         == Some(Stage(n, [], 0, 0, Console(input, [])))
  {
    var p, g, s := Reverser(n), Vars(n), FirstStore(input);
    var inner := Dec("i", Int, Some(Lit(0)), NoDec);
    assert OneDimensional(Array(Int, n));
    var s1 := Declare(g, s, "a", Array(Int, n)).value;
    assert s1.declared == {Numbers(n)} && s1.parts == map[] && s1.vars == map[];
    var s2 := Declare(g, s1, "i", Int).value;
    assert s2 == s1;
    NumberPlace(p, g, 0, s2, fuel);
    var s3 := WritePlace(g, s2, Named("i"), 0).value;
    assert s3 == Stage(n, [], 0, 0, Console(input, []));
    assert ExecDecs(p, g, NoDec, s3, fuel) == Some(s3);
    assert ExecDecs(p, g, inner, s1, fuel) == Some(s3);
  }

  /** The program reads its `n` numbers and writes them in the opposite order, whatever they are. */
  lemma ReverserRuns(n: nat, xs: seq<int>, rest: seq<int>)
    requires |xs| == n <= INT_MAX && forall j :: 0 <= j < n ==> IsInt32(xs[j])
    ensures Run(Reverser(n), xs + rest, n) == Some((0, Console(rest, Reads(xs) + Backwards(xs))))
  {
    hide Exec, ExecAll, ExecDecs;
    var p, g, input := Reverser(n), Vars(n), xs + rest;
    Declared(n, input, n);
    assert Stage(n, [], 0, 0, Console(input, [])) == Stage(n, xs, 0, 0, Console(input, []));
    assert xs[0..] + rest == input && Reads(xs[..0]) == [];
    FillRuns(n, xs, 0, rest, Console(input, []), n);
    ShowRuns(n, xs, n, Console(rest, Reads(xs)), n);
    assert xs[..n] == xs;
    var s1 := Stage(n, xs, n, n, Console(rest, Reads(xs)));
    var s2 := Stage(n, xs, n, 0, Console(rest, Reads(xs) + Backwards(xs)));
    SeqRuns(p, g, Filling(n), Main(n).body.rest, Stage(n, xs, 0, 0, Console(input, [])), n, s1);
    SeqRuns(p, g, SHOWING, Main(n).body.rest.rest, s1, n, s2);
    ReturnRuns(p, g, 0, s2, n);
  }

  // ----- and what the processor does -----

  lemma ReverserMeasured(n: nat)
    requires n > 0
    ensures Measured(Reverser(n), NaturalSizes(Reverser(n)))
  {
    hide FormattedCode, SizeIn;
    var p := Reverser(n);
    assert SizeOf(Array(Int, n)) == 4 * n;
    NaturallyMeasured(p);
  }

  lemma LoopsCallFree(n: nat)
    ensures StmtWithin(Filling(n), -1) && StmtWithin(SHOWING, -1)
  {
    assert Within(ELEMENT, -1) && Within(Id("i"), -1) && Within(Lit(1), -1) && Within(Lit(n), -1) && Within(Lit(0), -1);
    assert StmtWithin(FILL, -1) && StmtWithin(SHOW, -1);
  }

  lemma EdgesCallFree()
    ensures DecsWithin(Dec("i", Int, Some(Lit(0)), NoDec), -1) && StmtsWithin(Seq(Return(Lit(0)), NoStmt), -1)
  {
    assert Within(Lit(0), -1);
  }

  lemma ReverserCallFree(n: nat)
    ensures ProgramWithin(Reverser(n), -1)
  {
    LoopsCallFree(n);
    EdgesCallFree();
    MoreCallFree(SHOWING, Seq(Return(Lit(0)), NoStmt));
    MoreCallFree(Filling(n), Seq(SHOWING, Seq(Return(Lit(0)), NoStmt)));
    hide Within, StmtWithin, StmtsWithin;
    assert DecsWithin(Main(n).decs, -1);
    assert StmtsWithin(Main(n).body, -1);
  }

  lemma MoreCallFree(first: Stmt, rest: Stmts)
    requires StmtWithin(first, -1) && StmtsWithin(rest, -1)
    ensures StmtsWithin(Seq(first, rest), -1)
  {
  }

  /** The emitted text reads `n` numbers and leaves them on the console in the opposite order. */
  lemma ReversesOnProcessor(n: nat, xs: seq<int>, rest: seq<int>, s: Cpu) returns (s': Cpu)
    requires 0 < n == |xs| <= INT_MAX && forall j :: 0 <= j < n ==> IsInt32(xs[j])
    requires var p := Reverser(n); var m := MachineOf(p, NaturalSizes(p));
             Booted(m, TextOf(m, NaturalSizes(p)), s, xs + rest)
    ensures var p := Reverser(n); Runs(TextOf(MachineOf(p, NaturalSizes(p)), NaturalSizes(p)), s, s')
    ensures s'.pc == EXIT && Reg(s'.core, V0) == 0
    ensures s'.input == rest && s'.out == Shows(Reads(xs) + Backwards(xs))
  {
    hide Booted, Measured, TextOf, Run, MachineOf, NaturalSizes;
    var p := Reverser(n);
    ReverserRuns(n, xs, rest);
    ReverserMeasured(n);
    ReverserCallFree(n);
    s' := CallFreeCorrect(p, NaturalSizes(p), s, xs + rest, n, 0, Console(rest, Reads(xs) + Backwards(xs)));
  }
}
