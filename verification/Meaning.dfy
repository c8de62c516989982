/** What the meaning of source programs keeps to: more fuel changes no result, and expressions without side effects
    are arithmetic. */
module Meaning {
  import opened Common
  import opened Syntax
  import opened Layout
  import opened Source

  // ----- fuel -----

  lemma {:induction false} MoreForExp(p: Program, g: Gamma, e: Exp, s: Store, n: nat, m: nat)
    requires n <= m && Eval(p, g, e, s, n).Some?
    ensures Eval(p, g, e, s, m) == Eval(p, g, e, s, n)
    decreases n, e, if IsLogical(e) then 4 else 2
  {
    match e
    case Assign(_, _) => MoreForBinary(p, g, e, s, n, m);
    case Arith(_, _, _) => MoreForBinary(p, g, e, s, n, m);
    case Index(_, _) => MoreForIndex(p, g, e, s, n, m);
    case Paren(_) => MoreForUnary(p, g, e, s, n, m);
    case Neg(_) => MoreForUnary(p, g, e, s, n, m);
    case Write(_) => MoreForUnary(p, g, e, s, n, m);
    case Dot(_, _) => MoreForDot(p, g, e, s, n, m);
    case Call(_, _) => MoreForCall(p, g, e, s, n, m);
    case Read =>
    case Id(_) =>
    case Lit(_) =>
    case _ => MoreForCond(p, g, e, s, n, m);
  }

  lemma {:induction false} MoreForUnary(p: Program, g: Gamma, e: Exp, s: Store, n: nat, m: nat)
    requires n <= m && (e.Paren? || e.Neg? || e.Write?) && Eval(p, g, e, s, n).Some?
    ensures Eval(p, g, e, s, m) == Eval(p, g, e, s, n)
    decreases n, e, 1
  {
    MoreForExp(p, g, e.arg, s, n, m);
  }

  lemma {:induction false} MoreForDot(p: Program, g: Gamma, e: Exp, s: Store, n: nat, m: nat)
    requires n <= m && e.Dot? && Eval(p, g, e, s, n).Some?
    ensures Eval(p, g, e, s, m) == Eval(p, g, e, s, n)
    decreases n, e, 1
  {
    MoreForExp(p, g, e.base, s, n, m);
  }

  lemma {:induction false} MoreForBinary(p: Program, g: Gamma, e: Exp, s: Store, n: nat, m: nat)
    requires n <= m && (e.Assign? || e.Arith?) && Eval(p, g, e, s, n).Some?
    ensures Eval(p, g, e, s, m) == Eval(p, g, e, s, n)
    decreases n, e, 1
  {
    MoreForPair(p, g, e, e.left, e.right, s, n, m);
  }

  lemma {:induction false} MoreForIndex(p: Program, g: Gamma, e: Exp, s: Store, n: nat, m: nat)
    requires n <= m && e.Index? && Eval(p, g, e, s, n).Some?
    ensures Eval(p, g, e, s, m) == Eval(p, g, e, s, n)
    decreases n, e, 1
  {
    MoreForPair(p, g, e, e.base, e.index, s, n, m);
  }

  /** Two operands, one after the other. */
  lemma {:induction false} MoreForPair(p: Program, g: Gamma, e: Exp, left: Exp, right: Exp, s: Store, n: nat, m: nat)
    requires n <= m && left < e && right < e && Eval(p, g, left, s, n).Some?
    requires Eval(p, g, right, Eval(p, g, left, s, n).value.1, n).Some?
    ensures Eval(p, g, left, s, m) == Eval(p, g, left, s, n)
    ensures var s1 := Eval(p, g, left, s, n).value.1; Eval(p, g, right, s1, m) == Eval(p, g, right, s1, n)
    decreases n, e, 0
  {
    hide Eval;
    MoreForExp(p, g, left, s, n, m);
    MoreForExp(p, g, right, Eval(p, g, left, s, n).value.1, n, m);
  }

  lemma {:induction false} MoreForCall(p: Program, g: Gamma, e: Exp, s: Store, n: nat, m: nat)
    requires n <= m && e.Call? && Eval(p, g, e, s, n).Some?
    ensures Eval(p, g, e, s, m) == Eval(p, g, e, s, n)
    decreases n, e, 0
  {
    hide PassAll, FindFunction, ExecBody;
    MoreForArgs(p, g, e.args, s, n, m);
    var (places, s1) := EvalArgs(p, g, e.args, s, n).value;
    var vs, fn := PassAll(g, s1, places).value, FindFunction(p, e.func).value;
    MoreForBody(p, fn, Entered(fn.params, vs, s1), n - 1, m - 1);
  }

  lemma {:induction false} MoreForCond(p: Program, g: Gamma, e: Exp, s: Store, n: nat, m: nat)
    requires n <= m && Holds(p, g, e, s, n).Some?
    ensures Holds(p, g, e, s, m) == Holds(p, g, e, s, n)
    decreases n, e, 3
  {
    hide Eval;
    if e.Rel? {
      MoreForPair(p, g, e, e.left, e.right, s, n, m);
    } else if e.And? || e.Or? {
      MoreForBoth(p, g, e, e.left, e.right, e.And?, s, n, m);
    } else if e.Not? {
      MoreForCond(p, g, e.arg, s, n, m);
    } else {
      MoreForExp(p, g, e, s, n, m);
    }
  }

  lemma {:induction false} MoreForBoth(p: Program, g: Gamma, e: Exp, left: Exp, right: Exp, on: bool, s: Store,
                                       n: nat, m: nat)
    requires n <= m && left < e && right < e && Holds(p, g, left, s, n).Some?
    requires Holds(p, g, left, s, n).value.0 == on ==>
               Holds(p, g, right, Holds(p, g, left, s, n).value.1, n).Some?
    ensures Holds(p, g, left, s, m) == Holds(p, g, left, s, n)
    ensures var (holds, s1) := Holds(p, g, left, s, n).value;
            holds == on ==> Holds(p, g, right, s1, m) == Holds(p, g, right, s1, n)
    decreases n, e, 1
  {
    hide Holds;
    MoreForCond(p, g, left, s, n, m);
    var (holds, s1) := Holds(p, g, left, s, n).value;
    if holds == on {
      MoreForCond(p, g, right, s1, n, m);
    }
  }

  lemma {:induction false} MoreForArgs(p: Program, g: Gamma, args: Args, s: Store, n: nat, m: nat)
    requires n <= m && EvalArgs(p, g, args, s, n).Some?
    ensures EvalArgs(p, g, args, s, m) == EvalArgs(p, g, args, s, n)
    decreases n, args
  {
    hide Eval;
    match args
    case NoArg =>
    case Arg(first, rest) =>
      MoreForExp(p, g, first, s, n, m);
      MoreForArgs(p, g, rest, Eval(p, g, first, s, n).value.1, n, m);
  }

  lemma {:induction false} MoreForBody(p: Program, fn: Function, s: Store, n: nat, m: nat)
    requires n <= m && ExecBody(p, fn, s, n).Some?
    ensures ExecBody(p, fn, s, m) == ExecBody(p, fn, s, n)
    decreases n, fn
  {
    hide ExecDecs, ExecAll;
    MoreForDecs(p, fn.vars, fn.decs, s, n, m);
    MoreForAll(p, fn.vars, fn.body, ExecDecs(p, fn.vars, fn.decs, s, n).value, n, m);
  }

  lemma {:induction false} MoreForDecs(p: Program, g: Gamma, decs: Decs, s: Store, n: nat, m: nat)
    requires n <= m && ExecDecs(p, g, decs, s, n).Some?
    ensures ExecDecs(p, g, decs, s, m) == ExecDecs(p, g, decs, s, n)
    decreases n, decs
  {
    hide Eval, Declare, WritePlace, ReadPlace;
    match decs
    case NoDec =>
    case Dec(x, t, init, rest) =>
      var s1 := Declare(g, s, x, t).value;
      if init.None? {
        MoreForDecs(p, g, rest, s1, n, m);
      } else {
        MoreForExp(p, g, init.value, s1, n, m);
        var (source, s2) := Eval(p, g, init.value, s1, n).value;
        MoreForDecs(p, g, rest, WritePlace(g, s2, Named(x), ReadPlace(s2, source).value).value, n, m);
      }
  }

  lemma {:induction false} MoreForAll(p: Program, g: Gamma, body: Stmts, s: Store, n: nat, m: nat)
    requires n <= m && ExecAll(p, g, body, s, n).Some?
    ensures ExecAll(p, g, body, s, m) == ExecAll(p, g, body, s, n)
    decreases n, body
  {
    hide Exec;
    if body.Seq? {
      MoreForStmt(p, g, body.first, s, n, m);
      var out := Exec(p, g, body.first, s, n).value;
      if out.Normal? {
        MoreForAll(p, g, body.rest, out.store, n, m);
      }
    }
  }

  lemma {:induction false} MoreForStmt(p: Program, g: Gamma, st: Stmt, s: Store, n: nat, m: nat)
    requires n <= m && Exec(p, g, st, s, n).Some?
    ensures Exec(p, g, st, s, m) == Exec(p, g, st, s, n)
    decreases n, st
  {
    hide Eval, Holds, ExecDecs, ExecAll;
    match st
    case ExpStmt(e) => MoreForExp(p, g, e, s, n, m);
    case Block(decs, body) =>
      MoreForDecs(p, g, decs, s, n, m);
      MoreForAll(p, g, body, ExecDecs(p, g, decs, s, n).value, n, m);
    case Return(e) => MoreForExp(p, g, e, s, n, m);
    case While(cond, body) => MoreForWhile(p, g, st, s, n, m);
    case If(cond, thn) =>
      MoreForCond(p, g, cond, s, n, m);
      var (holds, s1) := Holds(p, g, cond, s, n).value;
      if holds {
        MoreForStmt(p, g, thn, s1, n, m);
      }
    case IfElse(cond, thn, els) =>
      MoreForCond(p, g, cond, s, n, m);
      var (holds, s1) := Holds(p, g, cond, s, n).value;
      MoreForStmt(p, g, if holds then thn else els, s1, n, m);
  }

  lemma {:induction false} MoreForWhile(p: Program, g: Gamma, st: Stmt, s: Store, n: nat, m: nat)
    requires n <= m && st.While? && Exec(p, g, st, s, n).Some?
    ensures Exec(p, g, st, s, m) == Exec(p, g, st, s, n)
    decreases n, st, 0
  {
    hide Holds;
    MoreForCond(p, g, st.cond, s, n, m);
    var (holds, s1) := Holds(p, g, st.cond, s, n).value;
    if holds {
      MoreForStmt(p, g, st.body1, s1, n, m);
      var out := Exec(p, g, st.body1, s1, n).value;
      if out.Normal? {
        MoreForStmt(p, g, st, out.store, n - 1, m - 1);
      }
    }
  }

  /** A program has one meaning: whatever fuel brings it to its end, result and exchange are the same. */
  lemma RunDetermined(p: Program, input: seq<int>, n: nat, m: nat)
    requires Run(p, input, n).Some? && Run(p, input, m).Some?
    ensures Run(p, input, n) == Run(p, input, m)
  {
    hide ExecBody, FindFunction;
    var fn := FindFunction(p, "main").value;
    if n <= m {
      MoreForBody(p, fn, FirstStore(input), n, m);
    } else {
      MoreForBody(p, fn, FirstStore(input), m, n);
    }
  }

  // ----- expressions without side effects -----

  /** Made of variables, numbers and operators only. */
  predicate Pure(e: Exp) {
    match e
    case Id(_) => true
    case Lit(_) => true
    case Paren(arg) => Pure(arg)
    case Neg(arg) => Pure(arg)
    case Not(arg) => Pure(arg)
    case Arith(_, left, right) => Pure(left) && Pure(right)
    case Rel(_, left, right) => Pure(left) && Pure(right)
    case And(left, right) => Pure(left) && Pure(right)
    case Or(left, right) => Pure(left) && Pure(right)
    case _ => false
  }

  /** What a pure expression is in plain arithmetic, on integers of any size; truth is 1. */
  function Worth(e: Exp, env: map<string, int>): int {
    match e
    case Id(x) => if x in env then env[x] else 0
    case Lit(n) => n
    case Paren(arg) => Worth(arg, env)
    case Neg(arg) => -Worth(arg, env)
    case Not(arg) => if Worth(arg, env) == 0 then 1 else 0
    case Arith(Plus, left, right) => Worth(left, env) + Worth(right, env)
    case Arith(Minus, left, right) => Worth(left, env) - Worth(right, env)
    case Arith(Star, left, right) => Worth(left, env) * Worth(right, env)
    case Arith(Div, left, right) =>
      if Worth(right, env) == 0 then 0 else TruncDiv(Worth(left, env), Worth(right, env))
    case Rel(op, left, right) => if Compare(op, Worth(left, env), Worth(right, env)) then 1 else 0
    case And(left, right) => if Worth(left, env) != 0 && Worth(right, env) != 0 then 1 else 0
    case Or(left, right) => if Worth(left, env) != 0 || Worth(right, env) != 0 then 1 else 0
    case _ => 0
  }

  /** Of what is evaluated, every variable has a value, every result fits in 32 bits and no divisor is 0. */
  predicate Safe(e: Exp, g: Gamma, env: map<string, int>) {
    match e
    case Id(x) => x in g && x in env
    case Lit(n) => IsInt32(n)
    case Paren(arg) => Safe(arg, g, env)
    case Neg(arg) => Safe(arg, g, env) && IsInt32(Worth(e, env))
    case Not(arg) => Safe(arg, g, env)
    case Arith(op, left, right) =>
      Safe(left, g, env) && Safe(right, g, env) && IsInt32(Worth(e, env)) && (op.Div? ==> Worth(right, env) != 0)
    case Rel(_, left, right) => Safe(left, g, env) && Safe(right, g, env)
    case And(left, right) => Safe(left, g, env) && (Worth(left, env) != 0 ==> Safe(right, g, env))
    case Or(left, right) => Safe(left, g, env) && (Worth(left, env) == 0 ==> Safe(right, g, env))
    case _ => false
  }

  /** The value of an expression, once it is needed. */
  function ValueOf(p: Program, g: Gamma, e: Exp, s: Store, fuel: nat): Option<(int, Store)> {
    var (place, s1) :- Eval(p, g, e, s, fuel);
    var v :- ReadPlace(s1, place);
    Some((v, s1))
  }

  ghost predicate Computed(p: Program, g: Gamma, e: Exp, s: Store, fuel: nat) {
    && ValueOf(p, g, e, s, fuel) == (if Safe(e, g, s.vars) then Some((Worth(e, s.vars), s)) else None)
    && (Eval(p, g, e, s, fuel).Some? ==> Eval(p, g, e, s, fuel).value.1 == s)
  }

  ghost predicate Decided(p: Program, g: Gamma, e: Exp, s: Store, fuel: nat) {
    Holds(p, g, e, s, fuel) == if Safe(e, g, s.vars) then Some((Worth(e, s.vars) != 0, s)) else None
  }

  /** A pure expression has a value if and only if nothing in it goes out of bounds; then it is that of plain
      arithmetic, and nothing has changed. */
  lemma {:induction false} PureExactly(p: Program, g: Gamma, e: Exp, s: Store, fuel: nat)
    requires Pure(e)
    ensures Computed(p, g, e, s, fuel)
    decreases e, if IsLogical(e) then 1 else 0
  {
    if IsLogical(e) {
      PureHolds(p, g, e, s, fuel);
      OneOrZero(p, g, e, s, fuel);
    } else if e.Arith? {
      hide Computed;
      PureExactly(p, g, e.left, s, fuel);
      PureExactly(p, g, e.right, s, fuel);
      ArithComputed(p, g, e, s, fuel);
    } else if e.Paren? || e.Neg? {
      hide Computed;
      PureExactly(p, g, e.arg, s, fuel);
      UnaryComputed(p, g, e, s, fuel);
    }
  }

  lemma OneOrZero(p: Program, g: Gamma, e: Exp, s: Store, fuel: nat)
    requires Pure(e) && IsLogical(e) && Decided(p, g, e, s, fuel)
    ensures Computed(p, g, e, s, fuel)
  {
    hide Holds;
  }

  lemma ArithComputed(p: Program, g: Gamma, e: Exp, s: Store, fuel: nat)
    requires e.Arith? && Computed(p, g, e.left, s, fuel) && Computed(p, g, e.right, s, fuel)
    ensures Computed(p, g, e, s, fuel)
  {
  }

  lemma UnaryComputed(p: Program, g: Gamma, e: Exp, s: Store, fuel: nat)
    requires (e.Paren? || e.Neg?) && Computed(p, g, e.arg, s, fuel)
    ensures Computed(p, g, e, s, fuel)
  {
  }

  /** The same for a condition: what is not 0 is true. */
  lemma {:induction false} PureHolds(p: Program, g: Gamma, e: Exp, s: Store, fuel: nat)
    requires Pure(e)
    ensures Decided(p, g, e, s, fuel)
    decreases e, if IsLogical(e) then 0 else 1
  {
    hide Computed, Decided;
    if e.Rel? {
      PureExactly(p, g, e.left, s, fuel);
      PureExactly(p, g, e.right, s, fuel);
      RelDecided(p, g, e, s, fuel);
    } else if e.And? || e.Or? {
      PureHolds(p, g, e.left, s, fuel);
      PureHolds(p, g, e.right, s, fuel);
      BothDecided(p, g, e, s, fuel);
    } else if e.Not? {
      PureHolds(p, g, e.arg, s, fuel);
      NotDecided(p, g, e, s, fuel);
    } else {
      PureExactly(p, g, e, s, fuel);
      TestDecided(p, g, e, s, fuel);
    }
  }

  lemma RelDecided(p: Program, g: Gamma, e: Exp, s: Store, fuel: nat)
    requires e.Rel? && Computed(p, g, e.left, s, fuel) && Computed(p, g, e.right, s, fuel)
    ensures Decided(p, g, e, s, fuel)
  {
  }

  lemma BothDecided(p: Program, g: Gamma, e: Exp, s: Store, fuel: nat)
    requires (e.And? || e.Or?) && Decided(p, g, e.left, s, fuel) && Decided(p, g, e.right, s, fuel)
    ensures Decided(p, g, e, s, fuel)
  {
  }

  lemma NotDecided(p: Program, g: Gamma, e: Exp, s: Store, fuel: nat)
    requires e.Not? && Decided(p, g, e.arg, s, fuel)
    ensures Decided(p, g, e, s, fuel)
  {
  }

  lemma TestDecided(p: Program, g: Gamma, e: Exp, s: Store, fuel: nat)
    requires !IsLogical(e) && Computed(p, g, e, s, fuel)
    ensures Decided(p, g, e, s, fuel)
  {
    hide Eval;
  }

  // ----- statements that mean the same -----

  ghost predicate SameMeaning(p: Program, g: Gamma, a: Stmt, b: Stmt, s: Store) {
    forall out :: EndsIn(p, g, a, s, out) <==> EndsIn(p, g, b, s, out)
  }

  ghost predicate EndsIn(p: Program, g: Gamma, st: Stmt, s: Store, out: Outcome) {
    exists fuel :: Exec(p, g, st, s, fuel) == Some(out)
  }

  /** One round of a loop can be written in front of it. */
  lemma WhileUnrolls(p: Program, g: Gamma, cond: Exp, body: Stmt, s: Store)
    ensures var loop := While(cond, body);
            SameMeaning(p, g, loop, If(cond, Block(NoDec, Seq(body, Seq(loop, NoStmt)))), s)
  {
    var loop := While(cond, body);
    var round := Block(NoDec, Seq(body, Seq(loop, NoStmt)));
    forall out | EndsIn(p, g, loop, s, out) ensures EndsIn(p, g, If(cond, round), s, out) {
      var fuel :| Exec(p, g, loop, s, fuel) == Some(out);
      LoopThenRound(p, g, cond, body, s, fuel, out);
    }
    forall out | EndsIn(p, g, If(cond, round), s, out) ensures EndsIn(p, g, loop, s, out) {
      var fuel :| Exec(p, g, If(cond, round), s, fuel) == Some(out);
      RoundThenLoop(p, g, cond, body, s, fuel, out);
    }
  }

  lemma RoundRuns(p: Program, g: Gamma, body: Stmt, loop: Stmt, s: Store, fuel: nat)
    ensures Exec(p, g, Block(NoDec, Seq(body, Seq(loop, NoStmt))), s, fuel)
         == match Exec(p, g, body, s, fuel)
            case Some(Normal(s1)) => Exec(p, g, loop, s1, fuel)
            case other => other
  {
    hide Exec;
    var first := Exec(p, g, body, s, fuel);
    assert ExecDecs(p, g, NoDec, s, fuel) == Some(s);
    if first.Some? && first.value.Normal? {
      var last := Exec(p, g, loop, first.value.store, fuel);
      assert ExecAll(p, g, Seq(loop, NoStmt), first.value.store, fuel) == last;
    }
    assert ExecAll(p, g, Seq(body, Seq(loop, NoStmt)), s, fuel)
        == match first case Some(Normal(s1)) => Exec(p, g, loop, s1, fuel) case other => other;
    BlockRuns(p, g, Seq(body, Seq(loop, NoStmt)), s, fuel);
  }

  lemma BlockRuns(p: Program, g: Gamma, body: Stmts, s: Store, fuel: nat)
    ensures Exec(p, g, Block(NoDec, body), s, fuel) == ExecAll(p, g, body, s, fuel)
  {
    assert ExecDecs(p, g, NoDec, s, fuel) == Some(s);
  }

  lemma LoopThenRound(p: Program, g: Gamma, cond: Exp, body: Stmt, s: Store, fuel: nat, out: Outcome)
    requires Exec(p, g, While(cond, body), s, fuel) == Some(out)
    ensures EndsIn(p, g, If(cond, Block(NoDec, Seq(body, Seq(While(cond, body), NoStmt)))), s, out)
  {
    hide Holds;
    var loop := While(cond, body);
    var (holds, s1) := Holds(p, g, cond, s, fuel).value;
    if holds {
      RoundRuns(p, g, body, loop, s1, fuel);
      var first := Exec(p, g, body, s1, fuel).value;
      if first.Normal? {
        MoreForStmt(p, g, loop, first.store, fuel - 1, fuel);
      }
    }
    assert Exec(p, g, If(cond, Block(NoDec, Seq(body, Seq(loop, NoStmt)))), s, fuel) == Some(out);
  }

  lemma RoundThenLoop(p: Program, g: Gamma, cond: Exp, body: Stmt, s: Store, fuel: nat, out: Outcome)
    requires Exec(p, g, If(cond, Block(NoDec, Seq(body, Seq(While(cond, body), NoStmt)))), s, fuel) == Some(out)
    ensures EndsIn(p, g, While(cond, body), s, out)
  {
    hide Holds;
    var loop := While(cond, body);
    var (holds, s1) := Holds(p, g, cond, s, fuel).value;
    MoreForCond(p, g, cond, s, fuel, fuel + 1);
    if holds {
      RoundRuns(p, g, body, loop, s1, fuel);
      MoreForStmt(p, g, body, s1, fuel, fuel + 1);
    }
    assert Exec(p, g, loop, s, fuel + 1) == Some(out);
  }

  /** A missing else branch is an empty one, and negating the condition exchanges the branches. */
  lemma BranchLaws(p: Program, g: Gamma, cond: Exp, a: Stmt, b: Stmt, s: Store, fuel: nat)
    ensures Exec(p, g, If(cond, a), s, fuel) == Exec(p, g, IfElse(cond, a, Block(NoDec, NoStmt)), s, fuel)
    ensures Exec(p, g, IfElse(Not(cond), a, b), s, fuel) == Exec(p, g, IfElse(cond, b, a), s, fuel)
  {
    hide Holds;
    NotTurns(p, g, cond, s, fuel);
    if Holds(p, g, cond, s, fuel).Some? {
      var s1 := Holds(p, g, cond, s, fuel).value.1;
      BlockRuns(p, g, NoStmt, s1, fuel);
    }
  }

  lemma NotTurns(p: Program, g: Gamma, cond: Exp, s: Store, fuel: nat)
    ensures Holds(p, g, Not(cond), s, fuel)
         == match Holds(p, g, cond, s, fuel) case Some((holds, s1)) => Some((!holds, s1)) case None => None
  {
  }

  /** `&&` is a conditional inside another; `||` is `&&` by De Morgan's law, side effects included. */
  lemma ShortCircuit(p: Program, g: Gamma, left: Exp, right: Exp, a: Stmt, s: Store, fuel: nat)
    ensures Exec(p, g, If(And(left, right), a), s, fuel) == Exec(p, g, If(left, If(right, a)), s, fuel)
    ensures Holds(p, g, Or(left, right), s, fuel) == Holds(p, g, Not(And(Not(left), Not(right))), s, fuel)
  {
    AndHolds(p, g, left, right, s, fuel);
    AndHolds(p, g, Not(left), Not(right), s, fuel);
    OrHolds(p, g, left, right, s, fuel);
    NotTurns(p, g, left, s, fuel);
    NotTurns(p, g, And(Not(left), Not(right)), s, fuel);
    if Holds(p, g, left, s, fuel).Some? {
      NotTurns(p, g, right, Holds(p, g, left, s, fuel).value.1, fuel);
    }
    hide Holds;
  }

  lemma AndHolds(p: Program, g: Gamma, left: Exp, right: Exp, s: Store, fuel: nat)
    ensures Holds(p, g, And(left, right), s, fuel)
         == match Holds(p, g, left, s, fuel)
            case Some((true, s1)) => Holds(p, g, right, s1, fuel)
            case other => other
  {
  }

  lemma OrHolds(p: Program, g: Gamma, left: Exp, right: Exp, s: Store, fuel: nat)
    ensures Holds(p, g, Or(left, right), s, fuel)
         == match Holds(p, g, left, s, fuel)
            case Some((false, s1)) => Holds(p, g, right, s1, fuel)
            case other => other
  {
  }

  // ----- one step of the meaning at a time -----

  lemma NamePlace(p: Program, g: Gamma, x: string, s: Store, fuel: nat)
    requires x in g
    ensures Eval(p, g, Id(x), s, fuel) == Some((Named(x), s))
  {
  }

  lemma NumberPlace(p: Program, g: Gamma, n: int, s: Store, fuel: nat)
    requires IsInt32(n)
    ensures Eval(p, g, Lit(n), s, fuel) == Some((Val(n), s))
  {
  }

  lemma IndexPlace(p: Program, g: Gamma, x: string, y: string, s: Store, fuel: nat, i: nat, loc: Loc)
    requires x in g && y in g && ReadPlace(s, Named(y)) == Some(i) && Part(g, s, Named(x), Element(i)) == Some(loc)
    ensures Eval(p, g, Index(Id(x), Id(y)), s, fuel) == Some((At(loc), s))
  {
    hide Part;
    NamePlace(p, g, x, s, fuel);
    NamePlace(p, g, y, s, fuel);
  }

  lemma AssignPlace(p: Program, g: Gamma, left: Exp, right: Exp, s: Store, fuel: nat, target: Place, source: Place,
                    s1: Store, v: int, s2: Store)
    requires Eval(p, g, left, s, fuel) == Some((target, s)) && Eval(p, g, right, s, fuel) == Some((source, s1))
    requires ReadPlace(s1, source) == Some(v) && WritePlace(g, s1, target, v) == Some(s2)
    ensures Eval(p, g, Assign(left, right), s, fuel) == Some((Val(v), s2))
  {
  }

  lemma ArithPlace(p: Program, g: Gamma, op: ArithOp, x: string, n: int, s: Store, fuel: nat, v: int, r: int)
    requires x in g && IsInt32(n) && ReadPlace(s, Named(x)) == Some(v) && Compute(op, v, n) == Some(r)
    ensures Eval(p, g, Arith(op, Id(x), Lit(n)), s, fuel) == Some((Val(r), s))
  {
    NamePlace(p, g, x, s, fuel);
    NumberPlace(p, g, n, s, fuel);
  }

  lemma RelHolds(p: Program, g: Gamma, op: Relop, x: string, n: int, s: Store, fuel: nat, v: int)
    requires x in g && IsInt32(n) && ReadPlace(s, Named(x)) == Some(v)
    ensures Holds(p, g, Rel(op, Id(x), Lit(n)), s, fuel) == Some((Compare(op, v, n), s))
  {
    NamePlace(p, g, x, s, fuel);
    NumberPlace(p, g, n, s, fuel);
  }

  /** A block of two expressions. */
  lemma TwoRun(p: Program, g: Gamma, first: Exp, second: Exp, s: Store, fuel: nat, p1: Place, s1: Store, p2: Place,
               s2: Store)
    requires Eval(p, g, first, s, fuel) == Some((p1, s1)) && Eval(p, g, second, s1, fuel) == Some((p2, s2))
    ensures Exec(p, g, Block(NoDec, Seq(ExpStmt(first), Seq(ExpStmt(second), NoStmt))), s, fuel) == Some(Normal(s2))
  {
    hide Eval;
    assert ExecDecs(p, g, NoDec, s, fuel) == Some(s);
    assert Exec(p, g, ExpStmt(first), s, fuel) == Some(Normal(s1));
    assert Exec(p, g, ExpStmt(second), s1, fuel) == Some(Normal(s2));
    assert ExecAll(p, g, NoStmt, s2, fuel) == Some(Normal(s2));
    assert ExecAll(p, g, Seq(ExpStmt(second), NoStmt), s1, fuel) == Some(Normal(s2));
    assert ExecAll(p, g, Seq(ExpStmt(first), Seq(ExpStmt(second), NoStmt)), s, fuel) == Some(Normal(s2));
  }

  lemma ReadHere(p: Program, g: Gamma, s: Store, fuel: nat)
    requires s.io.input != [] && IsInt32(s.io.input[0])
    ensures Eval(p, g, Read, s, fuel) == Some((Val(s.io.input[0]), s.(io := s.io.Read())))
  {
  }

  lemma WriteHere(p: Program, g: Gamma, arg: Exp, s: Store, fuel: nat, place: Place, v: int)
    requires Eval(p, g, arg, s, fuel) == Some((place, s)) && ReadPlace(s, place) == Some(v)
    ensures Eval(p, g, Write(arg), s, fuel) == Some((NoValue, s.(io := s.io.Write(v))))
  {
  }

  lemma WhileRound(p: Program, g: Gamma, cond: Exp, body: Stmt, s: Store, fuel: nat, s1: Store)
    requires fuel > 0 && Holds(p, g, cond, s, fuel) == Some((true, s))
    requires Exec(p, g, body, s, fuel) == Some(Normal(s1))
    ensures Exec(p, g, While(cond, body), s, fuel) == Exec(p, g, While(cond, body), s1, fuel - 1)
  {
    hide Holds;
  }

  lemma WhileOver(p: Program, g: Gamma, cond: Exp, body: Stmt, s: Store, fuel: nat)
    requires Holds(p, g, cond, s, fuel) == Some((false, s))
    ensures Exec(p, g, While(cond, body), s, fuel) == Some(Normal(s))
  {
    hide Holds;
  }

  lemma SeqRuns(p: Program, g: Gamma, first: Stmt, rest: Stmts, s: Store, fuel: nat, s1: Store)
    requires Exec(p, g, first, s, fuel) == Some(Normal(s1))
    ensures ExecAll(p, g, Seq(first, rest), s, fuel) == ExecAll(p, g, rest, s1, fuel)
  {
    hide Exec;
  }

  lemma ReturnRuns(p: Program, g: Gamma, n: int, s: Store, fuel: nat)
    requires IsInt32(n)
    ensures ExecAll(p, g, Seq(Return(Lit(n)), NoStmt), s, fuel) == Some(Returned(n, s))
  {
    NumberPlace(p, g, n, s, fuel);
  }

  lemma MemberPlace(p: Program, g: Gamma, x: string, member: string, s: Store, fuel: nat, loc: Loc)
    requires x in g && Part(g, s, Named(x), Member(member)) == Some(loc)
    ensures Eval(p, g, Dot(Id(x), member), s, fuel) == Some((At(loc), s))
  {
    hide Part;
    NamePlace(p, g, x, s, fuel);
  }

  /** A call with one argument, which is a name. */
  lemma CallPlace(p: Program, g: Gamma, f: string, x: string, s: Store, fuel: nat, arg: Argument, fn: Function, v: int,
                  s': Store)
    requires x in g && Pass(g, s, Named(x)) == Some(arg) && FindFunction(p, f) == Some(fn) && fuel > 0
    requires |fn.params| == 1 && Accepts(fn.vars, fn.params, [arg])
    requires ExecBody(p, fn, Entered(fn.params, [arg], s), fuel - 1) == Some(Returned(v, s'))
    ensures Eval(p, g, Call(f, Arg(Id(x), NoArg)), s, fuel) == Some((Val(v), Back(s, s')))
  {
    hide ExecBody, Pass, FindFunction, Accepts, Entered, Back;
    NamePlace(p, g, x, s, fuel);
    assert EvalArgs(p, g, NoArg, s, fuel) == Some(([], s));
    assert [Named(x)] + [] == [Named(x)] && [Named(x)][1..] == [] && [arg] + [] == [arg];
    assert EvalArgs(p, g, Arg(Id(x), NoArg), s, fuel) == Some(([Named(x)], s));
    assert PassAll(g, s, []) == Some([]);
    assert PassAll(g, s, [Named(x)]) == Some([arg]);
  }

  /** An expression in front of other statements. */
  lemma ExpThen(p: Program, g: Gamma, e: Exp, rest: Stmts, s: Store, fuel: nat, place: Place, s1: Store)
    requires Eval(p, g, e, s, fuel) == Some((place, s1))
    ensures ExecAll(p, g, Seq(ExpStmt(e), rest), s, fuel) == ExecAll(p, g, rest, s1, fuel)
  {
    hide Eval;
    assert Exec(p, g, ExpStmt(e), s, fuel) == Some(Normal(s1));
  }
}
