/** Call by reference at work: a function that exchanges the two members of its argument, a structure of the
    caller. */
module Swapping {
  import opened Common
  import opened Syntax
  import opened Layout
  import opened Source
  import opened Meaning
  import opened Mips
  import opened CodeGen
  import opened Emitted
  import opened Compiler
  import opened Premises

  // ----- the program -----

  const PAIR: Type := Struct("pair", Field("x", Int, Field("y", Int, NoField)))

  /** `int swap(struct pair p) { int t = p.x; p.x = p.y; p.y = t; return 0; }` */
  const EXCHANGE: Function :=
    Function("swap", ["p"], map["p" := Ref(PAIR), "t" := Int], Dec("t", Int, Some(Dot(Id("p"), "x")), NoDec),
             Seq(ExpStmt(Assign(Dot(Id("p"), "x"), Dot(Id("p"), "y"))),
                 Seq(ExpStmt(Assign(Dot(Id("p"), "y"), Id("t"))), Seq(Return(Lit(0)), NoStmt))))

  const SHOWN: Stmts :=
    Seq(ExpStmt(Write(Dot(Id("q"), "x"))), Seq(ExpStmt(Write(Dot(Id("q"), "y"))), Seq(Return(Lit(0)), NoStmt)))

  const CALLED: Stmts := Seq(ExpStmt(Call("swap", Arg(Id("q"), NoArg))), SHOWN)

  /** `int main() { struct pair q; q.x = read(); q.y = read(); swap(q); write(q.x); write(q.y); return 0; }` */
  const MAIN: Function :=
    Function("main", [], map["q" := PAIR], Dec("q", PAIR, None, NoDec),
             Seq(ExpStmt(Assign(Dot(Id("q"), "x"), Read)), Seq(ExpStmt(Assign(Dot(Id("q"), "y"), Read)), CALLED)))

  const SWAPPER: Program := [Definition(EXCHANGE), Definition(MAIN)]

  // ----- its states -----

  /** The structure of `main`, and its members. */
  const Q: Obj := Obj(Home(0, "q"), PAIR)

  function PartOf(name: string): Loc {
    Loc(Q, [Member(name)])
  }

  function Both(a: int, b: int): map<Loc, int> {
    map[PartOf("x") := a, PartOf("y") := b]
  }

  function InMain(parts: map<Loc, int>, io: Console): Store {
    Store(map[], map[], 0, {Q}, parts, io)
  }

  function InSwap(vars: map<string, int>, parts: map<Loc, int>, io: Console): Store {
    Store(vars, map["p" := Loc(Q, [])], 1, {Q}, parts, io)
  }

  // ----- what the program does -----

  lemma Members(name: string)
    requires name == "x" || name == "y"
    ensures PartAt(Loc(Q, [])) == Some((0, PAIR)) && PartAt(PartOf(name)).Some? && IsScalar(PartOf(name))
  {
    assert [Member(name)][..0] == [];
    assert Follow(PAIR, []) == Some((0, PAIR));
    assert FindField(PAIR.members, name) == Some(if name == "x" then (0, Int) else (4, Int)) by {
      assert FindField(Field("y", Int, NoField), "y") == Some((0, Int));
    }
    assert Select(PAIR, Member(name)) == Some(if name == "x" then (0, Int) else (4, Int));
  }

  lemma OfQ(name: string, parts: map<Loc, int>, io: Console, fuel: nat)
    requires name == "x" || name == "y"
    ensures Eval(SWAPPER, MAIN.vars, Dot(Id("q"), name), InMain(parts, io), fuel)
         == Some((At(PartOf(name)), InMain(parts, io)))
  {
    Members(name);
    assert [] + [Member(name)] == [Member(name)];
    MemberPlace(SWAPPER, MAIN.vars, "q", name, InMain(parts, io), fuel, PartOf(name));
  }

  lemma OfP(name: string, vars: map<string, int>, parts: map<Loc, int>, io: Console, fuel: nat)
    requires name == "x" || name == "y"
    ensures Eval(SWAPPER, EXCHANGE.vars, Dot(Id("p"), name), InSwap(vars, parts, io), fuel)
         == Some((At(PartOf(name)), InSwap(vars, parts, io)))
  {
    Members(name);
    assert [] + [Member(name)] == [Member(name)];
    MemberPlace(SWAPPER, EXCHANGE.vars, "p", name, InSwap(vars, parts, io), fuel, PartOf(name));
  }

  lemma SwapDeclares(a: int, b: int, io: Console, fuel: nat)
    ensures ExecDecs(SWAPPER, EXCHANGE.vars, EXCHANGE.decs, InSwap(map[], Both(a, b), io), fuel)
         == Some(InSwap(map["t" := a], Both(a, b), io))
  {
    var g, s := EXCHANGE.vars, InSwap(map[], Both(a, b), io);
    hide Eval;
    OfP("x", map[], Both(a, b), io, fuel);
    assert Declare(g, s, "t", Int) == Some(s) by { assert s.vars - {"t"} == s.vars; }
    var s1 := InSwap(map["t" := a], Both(a, b), io);
    assert WritePlace(g, s, Named("t"), a) == Some(s1);
    assert ExecDecs(SWAPPER, g, NoDec, s1, fuel) == Some(s1);
  }

  /** The callee exchanges the members of the structure that its parameter stands for. */
  lemma SwapRuns(a: int, b: int, io: Console, fuel: nat)
    ensures ExecBody(SWAPPER, EXCHANGE, InSwap(map[], Both(a, b), io), fuel)
         == Some(Returned(0, InSwap(map["t" := a], Both(b, a), io)))
  {
    hide Eval, ExecAll, ExecDecs;
    var g, vars := EXCHANGE.vars, map["t" := a];
    var s0, s1, s2 := InSwap(vars, Both(a, b), io), InSwap(vars, Both(b, b), io), InSwap(vars, Both(b, a), io);
    SwapDeclares(a, b, io, fuel);
    Members("x");
    Members("y");
    OfP("x", vars, Both(a, b), io, fuel);
    OfP("y", vars, Both(a, b), io, fuel);
    assert Both(a, b)[PartOf("x") := b] == Both(b, b) && Both(b, b)[PartOf("y") := a] == Both(b, a);
    AssignPlace(SWAPPER, g, Dot(Id("p"), "x"), Dot(Id("p"), "y"), s0, fuel, At(PartOf("x")), At(PartOf("y")), s0, b,
                s1);
    OfP("y", vars, Both(b, b), io, fuel);
    NamePlace(SWAPPER, g, "t", s1, fuel);
    AssignPlace(SWAPPER, g, Dot(Id("p"), "y"), Id("t"), s1, fuel, At(PartOf("y")), Named("t"), s1, a, s2);
    ExpThen(SWAPPER, g, EXCHANGE.body.first.exp, EXCHANGE.body.rest, s0, fuel, Val(b), s1);
    ExpThen(SWAPPER, g, EXCHANGE.body.rest.first.exp, EXCHANGE.body.rest.rest, s1, fuel, Val(a), s2);
    ReturnRuns(SWAPPER, g, 0, s2, fuel);
  }

  lemma CallSwaps(a: int, b: int, io: Console, fuel: nat)
    requires fuel > 0
    ensures Eval(SWAPPER, MAIN.vars, Call("swap", Arg(Id("q"), NoArg)), InMain(Both(a, b), io), fuel)
         == Some((Val(0), InMain(Both(b, a), io)))
  {
    hide Eval, ExecBody;
    var s := InMain(Both(a, b), io);
    var arg := Object(Loc(Q, []));
    Members("x");
    Members("y");
    assert FindFunction(SWAPPER, "swap") == Some(EXCHANGE);
    assert Pass(MAIN.vars, s, Named("q")) == Some(arg);
    assert EXCHANGE.params[..0] == [] && [arg][..0] == [];
    assert BindRefs(EXCHANGE.params, [arg]) == map["p" := Loc(Q, [])] && BindVars(EXCHANGE.params, [arg]) == map[];
    assert Entered(EXCHANGE.params, [arg], s) == InSwap(map[], Both(a, b), io);
    SwapRuns(a, b, io, fuel - 1);
    CallPlace(SWAPPER, MAIN.vars, "swap", "q", s, fuel, arg, EXCHANGE, 0, InSwap(map["t" := a], Both(b, a), io));
    assert Back(s, InSwap(map["t" := a], Both(b, a), io)).parts == Both(b, a);
  }

  /** `q.name = read();` */
  lemma ReadsMember(name: string, parts: map<Loc, int>, io: Console, rest: Stmts, fuel: nat)
    requires (name == "x" || name == "y") && io.input != [] && IsInt32(io.input[0])
    ensures ExecAll(SWAPPER, MAIN.vars, Seq(ExpStmt(Assign(Dot(Id("q"), name), Read)), rest), InMain(parts, io), fuel)
         == ExecAll(SWAPPER, MAIN.vars, rest, InMain(parts[PartOf(name) := io.input[0]], io.Read()), fuel)
  {
    hide Eval, ExecAll;
    var v, s, s1 := io.input[0], InMain(parts, io), InMain(parts[PartOf(name) := io.input[0]], io.Read());
    Members(name);
    OfQ(name, parts, io, fuel);
    ReadHere(SWAPPER, MAIN.vars, s, fuel);
    AssignPlace(SWAPPER, MAIN.vars, Dot(Id("q"), name), Read, s, fuel, At(PartOf(name)), Val(v),
                InMain(parts, io.Read()), v, s1);
    ExpThen(SWAPPER, MAIN.vars, Assign(Dot(Id("q"), name), Read), rest, s, fuel, Val(v), s1);
  }

  /** `write(q.name);` */
  lemma WritesMember(name: string, parts: map<Loc, int>, io: Console, rest: Stmts, fuel: nat)
    requires (name == "x" || name == "y") && PartOf(name) in parts
    ensures ExecAll(SWAPPER, MAIN.vars, Seq(ExpStmt(Write(Dot(Id("q"), name))), rest), InMain(parts, io), fuel)
         == ExecAll(SWAPPER, MAIN.vars, rest, InMain(parts, io.Write(parts[PartOf(name)])), fuel)
  {
    hide Eval, ExecAll;
    var v, s := parts[PartOf(name)], InMain(parts, io);
    OfQ(name, parts, io, fuel);
    WriteHere(SWAPPER, MAIN.vars, Dot(Id("q"), name), s, fuel, At(PartOf(name)), v);
    ExpThen(SWAPPER, MAIN.vars, Write(Dot(Id("q"), name)), rest, s, fuel, NoValue, InMain(parts, io.Write(v)));
  }

  function Exchanged(a: int, b: int, rest: seq<int>): Console {
    Console(rest, [ReadInt(a), ReadInt(b), WriteInt(b), WriteInt(a)])
  }

  lemma SwapperDeclares(input: seq<int>, fuel: nat)
    ensures ExecDecs(SWAPPER, MAIN.vars, MAIN.decs, FirstStore(input), fuel) == Some(InMain(map[], Console(input, [])))
  {
    var s1 := InMain(map[], Console(input, []));
    assert OneDimensional(PAIR) by { assert OneDimensionalFields(Field("y", Int, NoField)); }
    var s2 := Declare(MAIN.vars, FirstStore(input), "q", PAIR).value;
    assert s2.parts == map[] && s2.declared == {Q} && s2 == s1;
    assert ExecDecs(SWAPPER, MAIN.vars, NoDec, s1, fuel) == Some(s1);
  }

  /** The program reads two numbers and writes them in the opposite order, because its callee has exchanged them. */
  lemma SwapperRuns(a: int, b: int, rest: seq<int>)
    requires IsInt32(a) && IsInt32(b)
    ensures Run(SWAPPER, [a, b] + rest, 1) == Some((0, Exchanged(a, b, rest)))
  {
    hide Eval, ExecAll, ExecDecs;
    var g, io0 := MAIN.vars, Console([a, b] + rest, []);
    SwapperDeclares([a, b] + rest, 1);
    var io1 := Console([b] + rest, [ReadInt(a)]);
    var io2 := Console(rest, [ReadInt(a), ReadInt(b)]);
    assert io0.Read() == io1 && io1.Read() == io2;
    ReadsMember("x", map[], io0, MAIN.body.rest, 1);
    ReadsMember("y", map[PartOf("x") := a], io1, CALLED, 1);
    assert map[PartOf("x") := a][PartOf("y") := b] == Both(a, b);
    CallSwaps(a, b, io2, 1);
    ExpThen(SWAPPER, g, CALLED.first.exp, SHOWN, InMain(Both(a, b), io2), 1, Val(0), InMain(Both(b, a), io2));
    WritesMember("x", Both(b, a), io2, SHOWN.rest, 1);
    WritesMember("y", Both(b, a), io2.Write(b), SHOWN.rest.rest, 1);
    assert io2.Write(b).Write(a) == Exchanged(a, b, rest);
    ReturnRuns(SWAPPER, g, 0, InMain(Both(b, a), Exchanged(a, b, rest)), 1);
    assert FindFunction(SWAPPER, "main") == Some(MAIN) by { assert SWAPPER[1..] == [Definition(MAIN)]; }
  }

  // ----- and what the processor does -----

  lemma SwapperMeasured()
    ensures Measured(SWAPPER, NaturalSizes(SWAPPER))
  {
    hide FormattedCode, SizeIn;
    assert SizeOf(PAIR) == 8 && SizeOf(Ref(PAIR)) == 8;
    NaturallyMeasured(SWAPPER);
  }

  lemma ExchangeWithin()
    ensures DecsWithin(EXCHANGE.decs, 5) && StmtsWithin(EXCHANGE.body, 5)
  {
    assert Within(Dot(Id("p"), "x"), 5) && Within(Dot(Id("p"), "y"), 5) && Within(Id("t"), 5) && Within(Lit(0), 5);
    assert StmtsWithin(EXCHANGE.body.rest, 5);
  }

  lemma ShownWithin()
    ensures StmtsWithin(SHOWN, 5)
  {
    assert Within(Dot(Id("q"), "x"), 5) && Within(Dot(Id("q"), "y"), 5) && Within(Lit(0), 5);
    assert StmtsWithin(SHOWN.rest, 5);
  }

  lemma MainWithin()
    ensures DecsWithin(MAIN.decs, 5) && StmtsWithin(MAIN.body, 5)
  {
    ShownWithin();
    assert ArgsWithin(Arg(Id("q"), NoArg), 5) && Count(Arg(Id("q"), NoArg)) == 1;
    assert StmtsWithin(CALLED, 5);
    assert Within(Dot(Id("q"), "x"), 5) && Within(Dot(Id("q"), "y"), 5);
    assert StmtsWithin(MAIN.body.rest, 5);
  }

  lemma SwapperWithin()
    ensures ProgramWithin(SWAPPER, 5)
  {
    hide DecsWithin, StmtsWithin;
    ExchangeWithin();
    MainWithin();
  }

  /** The emitted text exchanges the numbers, unless the stack has no room for the call. */
  lemma SwapsOnProcessor(a: int, b: int, rest: seq<int>, s: Cpu) returns (im: Image, s': Cpu)
    requires IsInt32(a) && IsInt32(b)
    requires var sizes := NaturalSizes(SWAPPER); var m := MachineOf(SWAPPER, sizes);
             Booted(m, TextOf(m, sizes), s, [a, b] + rest)
    ensures var sizes := NaturalSizes(SWAPPER); var m := MachineOf(SWAPPER, sizes);
            && Built(m, im) && im.text == TextOf(m, sizes) && Runs(im.text, s, s')
            && (Finished(s', 0, Exchanged(a, b, rest)) || OutOfStack(m, im, s'))
  {
    hide Booted, Measured, TextOf, Run, MachineOf, NaturalSizes, Finished, OutOfStack, FewArguments;
    SwapperRuns(a, b, rest);
    SwapperMeasured();
    SwapperWithin();
    FiveSuffice(SWAPPER);
    im, s' := CompilerCorrect(SWAPPER, NaturalSizes(SWAPPER), s, [a, b] + rest, 1, 0, Exchanged(a, b, rest));
  }
}
