/** When the compiler theorem applies to a program, and what it says of programs without calls. */
module Premises {
  import opened Common
  import opened Syntax
  import opened Layout
  import opened Ir
  import opened Source
  import opened Translate
  import opened Link
  import opened Static
  import opened Format
  import opened Frames
  import opened Mips
  import opened CodeGen
  import opened Emitted
  import opened Simulate
  import opened Arguments
  import opened Compiler

  // ----- the sizes of slots -----

  predicate Knows(p: Program, i: int, f: string, x: string) {
    0 <= i < |p| && p[i].Definition? && p[i].fn.name == f && x in p[i].fn.vars
  }

  /** Functions of one name agree on the sizes of the variables that they share. */
  ghost predicate Agreeing(p: Program) {
    forall i, j, f, x :: Knows(p, i, f, x) && Knows(p, j, f, x) ==> SizeOf(p[i].fn.vars[x]) == SizeOf(p[j].fn.vars[x])
  }

  predicate Assigns(code: Code, k: int, f: string, x: string) {
    0 <= k < |code| && FnAt(code, k) == Some(f) && Variable(x) in GivesOf(code[k])
  }

  /** Whatever variable an instruction assigns as a whole has at least a word. */
  ghost predicate Roomy(p: Program) {
    forall k, f, x, i :: Assigns(FormattedCode(p), k, f, x) && Knows(p, i, f, x) ==> SizeOf(p[i].fn.vars[x]) >= 4
  }

  function SizeIn(p: Program, f: string, x: string): nat {
    if p == [] then 4
    else if Knows(p, 0, f, x) then SizeOf(p[0].fn.vars[x])
    else SizeIn(p[1..], f, x)
  }

  /** Every variable has the size of its type, and everything else a word. */
  function NaturalSizes(p: Program): Sizes {
    (f: string) => (op: Operand) => if op.Variable? then SizeIn(p, f, op.name) else 4
  }

  lemma {:induction false} SizeInIs(p: Program, f: string, x: string) returns (i: nat)
    ensures SizeIn(p, f, x) % 4 == 0
    ensures if i < |p| then Knows(p, i, f, x) && SizeIn(p, f, x) == SizeOf(p[i].fn.vars[x])
            else i == |p| && SizeIn(p, f, x) == 4 && forall j :: !Knows(p, j, f, x)
  {
    i := 0;
    if p != [] {
      if Knows(p, 0, f, x) {
        SizeIsWords(p[0].fn.vars[x]);
      } else {
        var k := SizeInIs(p[1..], f, x);
        i := k + 1;
        if i == |p| {
          forall j ensures !Knows(p, j, f, x) {
            assert !Knows(p[1..], j - 1, f, x);
          }
        }
      }
    }
  }

  lemma NaturallyMeasured(p: Program)
    requires Agreeing(p) && Roomy(p)
    ensures Measured(p, NaturalSizes(p))
  {
    hide FormattedCode, FnAt, GivesOf, SizeIn;
    var sizes, code := NaturalSizes(p), FormattedCode(p);
    forall i, x | 0 <= i < |p| && p[i].Definition? && x in p[i].fn.vars
      ensures sizes(p[i].fn.name)(Variable(x)) == SizeOf(p[i].fn.vars[x]) {
      var _ := SizeInIs(p, p[i].fn.name, x);
      assert Knows(p, i, p[i].fn.name, x);
    }
    forall f, op ensures sizes(f)(op) % 4 == 0 {
      if op.Variable? {
        var _ := SizeInIs(p, f, op.name);
      }
    }
    forall k {:trigger RoomFor(code, sizes, k)} | 0 <= k < |code| ensures RoomFor(code, sizes, k) {
      forall f, op | FnAt(code, k) == Some(f) && op in GivesOf(code[k]) ensures sizes(f)(op) >= 4 {
        if op.Variable? {
          var i := SizeInIs(p, f, op.name);
          assert Assigns(code, k, f, op.name);
        }
      }
    }
  }

  /** There are sizes that suit a program if and only if its functions agree on them and nothing is assigned that
      has no room. */
  lemma MeasuredExactly(p: Program)
    ensures (exists sizes :: Measured(p, sizes)) <==> Agreeing(p) && Roomy(p)
  {
    hide FormattedCode, FnAt, GivesOf;
    if Agreeing(p) && Roomy(p) {
      NaturallyMeasured(p);
    }
    if sizes :| Measured(p, sizes) {
      forall i, j, f, x | Knows(p, i, f, x) && Knows(p, j, f, x)
        ensures SizeOf(p[i].fn.vars[x]) == SizeOf(p[j].fn.vars[x]) {
        assert p[i].fn.name == p[j].fn.name == f;
        assert sizes(p[i].fn.name)(Variable(x)) == SizeOf(p[i].fn.vars[x]);
        assert sizes(p[j].fn.name)(Variable(x)) == SizeOf(p[j].fn.vars[x]);
      }
      forall k, f, x, i | Assigns(FormattedCode(p), k, f, x) && Knows(p, i, f, x)
        ensures SizeOf(p[i].fn.vars[x]) >= 4 {
        assert RoomFor(FormattedCode(p), sizes, k);
      }
    }
  }

  // ----- the arguments of calls -----

  /** The registers suffice for the code of a program if and only if no call of the program has more than 18
      arguments. */
  lemma FewAsWritten(p: Program)
    ensures FewArguments(FormattedCode(p)) <==> forall site :: site in ProgramSites(p, 0, 0) ==> |site.ops| <= 18
  {
    hide TransProgram, ProgramSites, Whole, Sites, WellShaped, ArgRun;
    var o, code := TransProgram(p, 0, 0), FormattedCode(p);
    CallsInOrder(p);
    ProgramOrderly(p, 0, 0);
    forall i ensures 0 <= i < |o.code| ==> WellShaped(o.code[i]) {
      assert 0 <= i < |o.code| ==> InstrOk(o.code, i, o.t, Drawn(0, o.l));
    }
    forall i | 0 <= i < |code| && code[i].CALL? ensures Encodable(code, i) <==> |ArgRun(code, i)| <= 18 {
      ResultIsWellShaped(o.code, o.t, i);
      assert HasSlot(code[i].dst) by { CallHasSlot(code[i]); }
    }
    if FewArguments(code) {
      forall site | site in Sites(code) ensures |site.ops| <= 18 {
        var i := SiteAt(code, site);
        assert Encodable(code, i);
      }
    }
    if forall site :: site in Sites(code) ==> |site.ops| <= 18 {
      forall i {:trigger Encodable(code, i)} | 0 <= i < |code| ensures Encodable(code, i) {
        if code[i].CALL? {
          SiteOf(code, i);
        }
      }
    }
  }

  lemma CallHasSlot(ins: Instr)
    requires WellShaped(ins) && ins.CALL?
    ensures HasSlot(ins.dst)
  {
  }

  /** One operand for each argument. */
  lemma {:induction false} OneForEach(g: Gamma, args: Args, t: nat, l: nat)
    ensures |ArgOps(g, args, t, l)| == Count(args)
    decreases args
  {
    if args.Arg? {
      var a := TransExp(g, args.first, t, t + 1, l);
      OneForEach(g, args.rest, a.t, a.l);
    }
  }

  function Count(args: Args): nat {
    if args.NoArg? then 0 else 1 + Count(args.rest)
  }

  // ----- the boot state -----

  lemma MainIsFound(p: Program, sizes: Sizes)
    requires Measured(p, sizes) && FindFunction(p, "main").Some?
    ensures Lookup(TextOf(MachineOf(p, sizes), sizes), 0, Fn("main")).Some?
  {
    hide TransProgram, TransBody, TransParams, FindFunction, TextOf, Measured;
    var o, m := TransProgram(p, 0, 0), MachineOf(p, sizes);
    var m1 := Machine(o.code, m.layout);
    FramesSettled(m1, m, p, sizes);
    var _, _, _, _ := FunctionCompiled(m1, p, 0, 0, "main");
    FindThere(o.code, o.t, FUNC("main"));
    LookupThere(m, sizes, FUNC("main"));
  }

  /** The text of a program with a function `main` can be started if and only if the first frame fits below the
      greatest address. */
  lemma BootsExactly(p: Program, sizes: Sizes, input: seq<int>)
    requires Measured(p, sizes) && FindFunction(p, "main").Some?
    ensures var m := MachineOf(p, sizes);
            (exists s :: Booted(m, TextOf(m, sizes), s, input)) <==> 8 + m.layout("main").size <= INT_MAX
  {
    hide MachineOf, TextOf, Measured;
    var m := MachineOf(p, sizes);
    if 8 + m.layout("main").size <= INT_MAX {
      MainIsFound(p, sizes);
      FramesAreWords(m, p, sizes);
      var pc := Lookup(TextOf(m, sizes), 0, Fn("main")).value;
      var regs := seq(32, r => if r == SP then 8 + m.layout("main").size else if r == RA then EXIT else 0);
      assert Booted(m, TextOf(m, sizes), Cpu(pc, Core(regs, 0, map[]), input, []), input);
    }
  }

  // ----- programs whose calls have few arguments, or which have no calls -----

  /** No call in `e` has more than `k` arguments; with `k` negative there is none. */
  predicate Within(e: Exp, k: int) {
    match e
    case Call(_, args) => Count(args) <= k && ArgsWithin(args, k)
    case Assign(left, right) => Within(left, k) && Within(right, k)
    case And(left, right) => Within(left, k) && Within(right, k)
    case Or(left, right) => Within(left, k) && Within(right, k)
    case Rel(_, left, right) => Within(left, k) && Within(right, k)
    case Arith(_, left, right) => Within(left, k) && Within(right, k)
    case Index(base, index) => Within(base, k) && Within(index, k)
    case Not(arg) => Within(arg, k)
    case Paren(arg) => Within(arg, k)
    case Neg(arg) => Within(arg, k)
    case Write(arg) => Within(arg, k)
    case Dot(base, _) => Within(base, k)
    case Read => true
    case Id(_) => true
    case Lit(_) => true
  }

  predicate ArgsWithin(args: Args, k: int) {
    args.Arg? ==> Within(args.first, k) && ArgsWithin(args.rest, k)
  }

  predicate DecsWithin(decs: Decs, k: int) {
    decs.Dec? ==> (decs.init.Some? ==> Within(decs.init.value, k)) && DecsWithin(decs.rest, k)
  }

  predicate StmtsWithin(body: Stmts, k: int) {
    body.Seq? ==> StmtWithin(body.first, k) && StmtsWithin(body.rest, k)
  }

  predicate StmtWithin(st: Stmt, k: int) {
    match st
    case ExpStmt(e) => Within(e, k)
    case Return(e) => Within(e, k)
    case Block(decs, body) => DecsWithin(decs, k) && StmtsWithin(body, k)
    case While(cond, body) => Within(cond, k) && StmtWithin(body, k)
    case If(cond, thn) => Within(cond, k) && StmtWithin(thn, k)
    case IfElse(cond, thn, els) => Within(cond, k) && StmtWithin(thn, k) && StmtWithin(els, k)
  }

  predicate ProgramWithin(p: Program, k: int) {
    forall i :: 0 <= i < |p| && p[i].Definition? ==> DecsWithin(p[i].fn.decs, k) && StmtsWithin(p[i].fn.body, k)
  }

  predicate AtMost(sites: seq<CallSite>, k: int) {
    forall i :: 0 <= i < |sites| ==> |sites[i].ops| <= k
  }

  lemma {:induction false} FewInExp(g: Gamma, e: Exp, t: nat, l: nat, k: int)
    requires Within(e, k)
    ensures AtMost(ExpSites(g, e, t, l), k)
    decreases e, if IsLogical(e) then 2 else 1
  {
    hide TransExp;
    if IsLogical(e) {
      FewInCond(g, e, l, l + 1, t, l + 2, k);
    } else if e.Assign? || e.Arith? {
      FewInPair(g, e, e.left, e.right, t, t + 2, l, k);
    } else if e.Index? {
      FewInPair(g, e, e.base, e.index, t, t + 3, l, k);
    } else if e.Paren? {
      FewInExp(g, e.arg, t, l, k);
    } else if e.Neg? || e.Write? {
      FewInExp(g, e.arg, t + 1, l, k);
    } else if e.Dot? {
      FewInExp(g, e.base, t + 1, l, k);
    } else if e.Call? {
      FewInArgs(g, e.args, t, l, k);
      OneForEach(g, e.args, t, l);
    }
  }

  lemma {:induction false} FewInArgs(g: Gamma, args: Args, t: nat, l: nat, k: int)
    requires ArgsWithin(args, k)
    ensures AtMost(ArgSites(g, args, t, l), k)
    decreases args, 0
  {
    hide TransExp;
    if args.Arg? {
      var a := TransExp(g, args.first, t, t + 1, l);
      FewInExp(g, args.first, t + 1, l, k);
      FewInArgs(g, args.rest, a.t, a.l, k);
    }
  }

  lemma {:induction false} FewInPair(g: Gamma, e: Exp, left: Exp, right: Exp, t: nat, ta: nat, l: nat, k: int)
    requires left < e && right < e && Within(left, k) && Within(right, k)
    ensures var a := TransExp(g, left, t, ta, l); AtMost(ExpSites(g, left, ta, l) + ExpSites(g, right, a.t, a.l), k)
    decreases e, 0
  {
    hide TransExp, ExpSites;
    var a := TransExp(g, left, t, ta, l);
    FewInExp(g, left, ta, l, k);
    FewInExp(g, right, a.t, a.l, k);
  }

  lemma {:induction false} FewInCond(g: Gamma, e: Exp, yes: nat, no: nat, t: nat, l: nat, k: int)
    requires Within(e, k)
    ensures AtMost(CondSites(g, e, yes, no, t, l), k)
    decreases e, if IsLogical(e) then 1 else 2
  {
    hide TransExp, TransCondition;
    if e.Not? {
      FewInCond(g, e.arg, no, yes, t, l, k);
    } else if e.Rel? {
      FewInPair(g, e, e.left, e.right, t, t + 2, l, k);
    } else if e.And? {
      var a := TransCondition(g, e.left, l, no, t, l + 1);
      FewInCond(g, e.left, l, no, t, l + 1, k);
      FewInCond(g, e.right, yes, no, a.t, a.l, k);
    } else if e.Or? {
      var a := TransCondition(g, e.left, yes, l, t, l + 1);
      FewInCond(g, e.left, yes, l, t, l + 1, k);
      FewInCond(g, e.right, yes, no, a.t, a.l, k);
    } else {
      FewInExp(g, e, t + 1, l, k);
    }
  }

  lemma {:induction false} FewInDecs(g: Gamma, decs: Decs, t: nat, l: nat, k: int)
    requires DecsWithin(decs, k)
    ensures AtMost(DecSites(g, decs, t, l), k)
    decreases decs
  {
    hide TransExp;
    if decs.Dec? {
      if decs.init.None? {
        FewInDecs(g, decs.rest, t, l, k);
      } else {
        var a := TransExp(g, decs.init.value, t, t + 1, l);
        FewInExp(g, decs.init.value, t + 1, l, k);
        FewInDecs(g, decs.rest, a.t, a.l, k);
      }
    }
  }

  lemma {:induction false} FewInAll(g: Gamma, body: Stmts, t: nat, l: nat, k: int)
    requires StmtsWithin(body, k)
    ensures AtMost(AllSites(g, body, t, l), k)
    decreases body
  {
    hide TransStmt;
    if body.Seq? {
      var a := TransStmt(g, body.first, t, l);
      FewInStmt(g, body.first, t, l, k);
      FewInAll(g, body.rest, a.t, a.l, k);
    }
  }

  lemma {:induction false} FewInStmt(g: Gamma, st: Stmt, t: nat, l: nat, k: int)
    requires StmtWithin(st, k)
    ensures AtMost(StmtSites(g, st, t, l), k)
    decreases st
  {
    hide TransStmt, TransDecs, TransCondition, ExpSites, CondSites;
    match st
    case ExpStmt(e) => FewInExp(g, e, t + 1, l, k);
    case Return(e) => FewInExp(g, e, t + 1, l, k);
    case Block(decs, body) =>
      var a := TransDecs(g, decs, t, l);
      FewInDecs(g, decs, t, l, k);
      FewInAll(g, body, a.t, a.l, k);
    case While(cond, body) =>
      var c := TransCondition(g, cond, l + 1, l + 2, t, l + 3);
      FewInCond(g, cond, l + 1, l + 2, t, l + 3, k);
      FewInStmt(g, body, c.t, c.l, k);
    case If(cond, thn) =>
      var c := TransCondition(g, cond, l, l + 1, t, l + 2);
      FewInCond(g, cond, l, l + 1, t, l + 2, k);
      FewInStmt(g, thn, c.t, c.l, k);
    case IfElse(cond, thn, els) =>
      var c := TransCondition(g, cond, l, l + 1, t, l + 3);
      var a := TransStmt(g, thn, c.t, c.l);
      FewInCond(g, cond, l, l + 1, t, l + 3, k);
      FewInStmt(g, thn, c.t, c.l, k);
      FewInStmt(g, els, a.t, a.l, k);
  }

  lemma {:induction false} FewInProgram(p: Program, t: nat, l: nat, k: int)
    requires ProgramWithin(p, k)
    ensures AtMost(ProgramSites(p, t, l), k)
    decreases |p|
  {
    hide TransFunction, TransDecs;
    if p != [] {
      if p[0].Declaration? {
        FewInProgram(p[1..], t, l, k);
      } else {
        var fn, a := p[0].fn, TransFunction(p[0].fn, t, l);
        var d := TransDecs(fn.vars, fn.decs, t, l);
        FewInDecs(fn.vars, fn.decs, t, l, k);
        FewInAll(fn.vars, fn.body, d.t, d.l, k);
        FewInProgram(p[1..], a.t, a.l, k);
      }
    }
  }

  /** Calls with five arguments at most never pass two of them on the stack, and the registers suffice for them. */
  lemma FiveSuffice(p: Program)
    requires ProgramWithin(p, 5)
    ensures FewArguments(FormattedCode(p)) && ArgsClear(FormattedCode(p))
  {
    hide TransProgram, ProgramSites, Whole, ProgramWithin;
    FewInProgram(p, 0, 0, 5);
    FewAsWritten(p);
    ClearAsWritten(p);
  }

  /** The code of a program without calls has no CALL. */
  lemma NoCallInstruction(p: Program)
    requires ProgramWithin(p, -1)
    ensures forall i :: 0 <= i < |FormattedCode(p)| ==> !FormattedCode(p)[i].CALL?
  {
    hide TransProgram, Whole, Sites;
    var code := FormattedCode(p);
    CallsInOrder(p);
    FewInProgram(p, 0, 0, -1);
    forall i | 0 <= i < |code| && code[i].CALL? ensures false {
      SiteOf(code, i);
    }
  }

  /** A program without calls is compiled without reserve: the emitted text ends with the result and the exchange of
      the source program, since it cannot run out of stack. */
  lemma CallFreeCorrect(p: Program, sizes: Sizes, s: Cpu, input: seq<int>, fuel: nat, v: int, io: Console)
    returns (s': Cpu)
    requires ProgramWithin(p, -1) && Measured(p, sizes) && Run(p, input, fuel) == Some((v, io))
    requires Booted(MachineOf(p, sizes), TextOf(MachineOf(p, sizes), sizes), s, input)
    ensures Runs(TextOf(MachineOf(p, sizes), sizes), s, s') && Finished(s', v, io)
  {
    hide FormattedCode, Booted, Measured, Finished, TextOf, Run;
    NoCallInstruction(p);
    var im;
    im, s' := CompilerCorrect(p, sizes, s, input, fuel, v, io);
  }
}
