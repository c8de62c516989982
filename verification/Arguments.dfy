/** Calls and their arguments: the CALL instructions of the emitted list are, in order, the calls of the source
    program, and in front of each stand exactly the operands of its arguments. */
module Arguments {
  import opened Common
  import opened Syntax
  import opened Layout
  import opened Ir
  import opened Translate
  import opened Static
  import opened Format
  import opened Simulate

  /** A call with the operands that are passed, first argument first. */
  datatype CallSite = CallSite(func: string, ops: seq<Operand>)

  // ----- the calls of the source program -----

  /** The calls that an expression makes, in the order of evaluation, with the operands that its arguments
      are translated to when the counters are at `t` and `l`. */
  function ExpSites(g: Gamma, e: Exp, t: nat, l: nat): seq<CallSite>
    decreases e, if IsLogical(e) then 2 else 0
  {
    match e
    case Assign(left, right) =>
      var a := TransExp(g, left, t, t + 2, l);
      ExpSites(g, left, t + 2, l) + ExpSites(g, right, a.t, a.l)
    case Arith(_, left, right) =>
      var a := TransExp(g, left, t, t + 2, l);
      ExpSites(g, left, t + 2, l) + ExpSites(g, right, a.t, a.l)
    case Index(base, index) =>
      var a := TransExp(g, base, t, t + 3, l);
      ExpSites(g, base, t + 3, l) + ExpSites(g, index, a.t, a.l)
    case Paren(arg) => ExpSites(g, arg, t, l)
    case Neg(arg) => ExpSites(g, arg, t + 1, l)
    case Write(arg) => ExpSites(g, arg, t + 1, l)
    case Dot(base, _) => ExpSites(g, base, t + 1, l)
    case Call(f, args) => ArgSites(g, args, t, l) + [CallSite(f, ArgOps(g, args, t, l))]
    case Read => []
    case Id(_) => []
    case Lit(_) => []
    case _ => CondSites(g, e, l, l + 1, t, l + 2)
  }

  function CondSites(g: Gamma, e: Exp, yes: nat, no: nat, t: nat, l: nat): seq<CallSite>
    decreases e, 1
  {
    match e
    case Not(arg) => CondSites(g, arg, no, yes, t, l)
    case Rel(_, left, right) =>
      var a := TransExp(g, left, t, t + 2, l);
      ExpSites(g, left, t + 2, l) + ExpSites(g, right, a.t, a.l)
    case And(left, right) =>
      var a := TransCondition(g, left, l, no, t, l + 1);
      CondSites(g, left, l, no, t, l + 1) + CondSites(g, right, yes, no, a.t, a.l)
    case Or(left, right) =>
      var a := TransCondition(g, left, yes, l, t, l + 1);
      CondSites(g, left, yes, l, t, l + 1) + CondSites(g, right, yes, no, a.t, a.l)
    case _ => ExpSites(g, e, t + 1, l)
  }

  function ArgSites(g: Gamma, args: Args, t: nat, l: nat): seq<CallSite>
    decreases args
  {
    match args
    case NoArg => []
    case Arg(first, rest) =>
      var a := TransExp(g, first, t, t + 1, l);
      ExpSites(g, first, t + 1, l) + ArgSites(g, rest, a.t, a.l)
  }

  function DecSites(g: Gamma, decs: Decs, t: nat, l: nat): seq<CallSite> {
    match decs
    case NoDec => []
    case Dec(_, _, None, rest) => DecSites(g, rest, t, l)
    case Dec(_, _, Some(init), rest) =>
      var a := TransExp(g, init, t, t + 1, l);
      ExpSites(g, init, t + 1, l) + DecSites(g, rest, a.t, a.l)
  }

  function AllSites(g: Gamma, body: Stmts, t: nat, l: nat): seq<CallSite> {
    match body
    case NoStmt => []
    case Seq(first, rest) =>
      var a := TransStmt(g, first, t, l);
      StmtSites(g, first, t, l) + AllSites(g, rest, a.t, a.l)
  }

  function StmtSites(g: Gamma, st: Stmt, t: nat, l: nat): seq<CallSite> {
    match st
    case ExpStmt(e) => ExpSites(g, e, t + 1, l)
    case Block(decs, body) =>
      var a := TransDecs(g, decs, t, l);
      DecSites(g, decs, t, l) + AllSites(g, body, a.t, a.l)
    case Return(e) => ExpSites(g, e, t + 1, l)
    case While(cond, body) =>
      var c := TransCondition(g, cond, l + 1, l + 2, t, l + 3);
      CondSites(g, cond, l + 1, l + 2, t, l + 3) + StmtSites(g, body, c.t, c.l)
    case If(cond, thn) =>
      var c := TransCondition(g, cond, l, l + 1, t, l + 2);
      CondSites(g, cond, l, l + 1, t, l + 2) + StmtSites(g, thn, c.t, c.l)
    case IfElse(cond, thn, els) =>
      var c := TransCondition(g, cond, l, l + 1, t, l + 3);
      var a := TransStmt(g, thn, c.t, c.l);
      CondSites(g, cond, l, l + 1, t, l + 3) + StmtSites(g, thn, c.t, c.l) + StmtSites(g, els, a.t, a.l)
  }

  function FunctionSites(fn: Function, t: nat, l: nat): seq<CallSite> {
    var a := TransDecs(fn.vars, fn.decs, t, l);
    DecSites(fn.vars, fn.decs, t, l) + AllSites(fn.vars, fn.body, a.t, a.l)
  }

  /** All calls of a program, function by function. */
  function ProgramSites(p: Program, t: nat, l: nat): seq<CallSite> {
    if p == [] then []
    else if p[0].Declaration? then ProgramSites(p[1..], t, l)
    else
      var a := TransFunction(p[0].fn, t, l);
      FunctionSites(p[0].fn, t, l) + ProgramSites(p[1..], a.t, a.l)
  }

  // ----- the calls of a list of instructions -----

  /** What the backward walk finds in front of each CALL. */
  function Sites(code: Code): seq<CallSite> {
    if code == [] then []
    else
      var n := |code| - 1;
      Sites(code[..n]) + if code[n].CALL? then [CallSite(code[n].name, ArgRun(code, n))] else []
  }

  /** No argument is left queued. */
  predicate Closed(code: Code) {
    code == [] || !code[|code| - 1].ARG?
  }

  predicate Makes(code: Code, sites: seq<CallSite>) {
    Closed(code) && Sites(code) == sites
  }

  predicate Still(ins: Instr) {
    !ins.CALL? && !ins.ARG?
  }

  lemma {:induction false} RunShift(a: Code, b: Code, i: nat)
    requires Closed(a) && i <= |b|
    ensures ArgRun(a + b, |a| + i) == ArgRun(b, i)
    decreases i
  {
    if i > 0 {
      RunShift(a, b, i - 1);
      assert (a + b)[|a| + i - 1] == b[i - 1];
    } else {
      ArgRunLocal(a, b, |a|);
    }
  }

  lemma {:induction false} SitesAdd(a: Code, b: Code)
    requires Closed(a)
    ensures Sites(a + b) == Sites(a) + Sites(b)
    decreases |b|
  {
    if b == [] {
      assert a + b == a;
    } else {
      var n := |b| - 1;
      assert (a + b)[..|a + b| - 1] == a + b[..n] && (a + b)[|a| + n] == b[n];
      SitesAdd(a, b[..n]);
      RunShift(a, b, n);
    }
  }

  lemma MakesAdd(a: Code, s1: seq<CallSite>, b: Code, s2: seq<CallSite>)
    requires Makes(a, s1) && Makes(b, s2)
    ensures Makes(a + b, s1 + s2)
  {
    SitesAdd(a, b);
  }

  lemma {:induction false} MakesNone(code: Code)
    requires forall i :: 0 <= i < |code| ==> Still(code[i])
    ensures Makes(code, [])
    decreases |code|
  {
    if code != [] {
      MakesNone(code[..|code| - 1]);
    }
  }

  /** Instructions behind other code that neither pass arguments nor call. */
  lemma MakesThen(a: Code, s1: seq<CallSite>, last: Code)
    requires Makes(a, s1) && forall i :: 0 <= i < |last| ==> Still(last[i])
    ensures Makes(a + last, s1)
  {
    hide Makes;
    MakesNone(last);
    MakesAdd(a, s1, last, []);
    assert s1 + [] == s1;
  }

  lemma MakesMiddle(a: Code, s1: seq<CallSite>, ins: Instr, b: Code, s2: seq<CallSite>)
    requires Makes(a, s1) && Still(ins) && Makes(b, s2)
    ensures Makes(a + [ins] + b, s1 + s2)
  {
    hide Makes;
    MakesThen(a, s1, [ins]);
    MakesAdd(a + [ins], s1, b, s2);
  }

  // ----- expressions -----

  lemma DerefMakes(code: Code, s: seq<CallSite>, addr: Operand, ty: Option<Type>, t: nat, l: nat)
    requires Makes(code, s)
    ensures Makes(Deref(code, addr, ty, t, l).code, s)
  {
    hide Makes;
    MakesThen(code, s, [ASSIGN(Temp(t), addr)]);
  }

  lemma MemberMakes(a: ExpCode, s: seq<CallSite>, name: string)
    requires Makes(a.code, s)
    ensures Makes(MemberCode(a, name).code, s)
  {
    hide Makes;
    var (offset, part) := MemberOf(a.ty, name);
    var addr := AddressOf(a.op, a.ty);
    DerefMakes(a.code, s, addr, part, a.t, a.l);
    MakesThen(a.code, s, Arithmetic(Plus, Temp(a.t), addr, Const(offset), a.t + 1).0);
  }

  lemma ElementMakes(a: ExpCode, s1: seq<CallSite>, i: ExpCode, s2: seq<CallSite>, k: nat)
    requires Makes(a.code + i.code, s1 + s2)
    ensures Makes(ElementCode(a, i, k).code, s1 + s2)
  {
    hide Makes;
    var elem, addr, code := ElemType(a.ty), AddressOf(a.op, a.ty), a.code + i.code;
    DerefMakes(code, s1 + s2, addr, Some(elem), i.t, i.l);
    var (code3, t3) := Arithmetic(Star, Temp(k), i.op, Const(SizeOf(elem)), i.t + 1);
    MakesThen(code, s1 + s2, code3);
    MakesThen(code + code3, s1 + s2, Arithmetic(Plus, Temp(i.t), addr, Temp(k), t3).0);
  }

  lemma {:induction false} PairMakes(g: Gamma, e: Exp, e1: Exp, e2: Exp, t: nat, ta: nat, l: nat)
    requires e1 < e && e2 < e
    ensures var a := TransExp(g, e1, t, ta, l);
            Makes(a.code + TransExp(g, e2, t + 1, a.t, a.l).code, ExpSites(g, e1, ta, l) + ExpSites(g, e2, a.t, a.l))
    decreases e, 0, 0
  {
    hide TransExp, ExpSites, Makes;
    var a := TransExp(g, e1, t, ta, l);
    ExpMakes(g, e1, t, ta, l);
    ExpMakes(g, e2, t + 1, a.t, a.l);
    MakesAdd(a.code, ExpSites(g, e1, ta, l), TransExp(g, e2, t + 1, a.t, a.l).code, ExpSites(g, e2, a.t, a.l));
  }

  lemma {:induction false} ExpMakes(g: Gamma, e: Exp, place: nat, t: nat, l: nat)
    ensures Makes(TransExp(g, e, place, t, l).code, ExpSites(g, e, t, l))
    decreases e, if IsLogical(e) then 3 else 1
  {
    if IsLogical(e) {
      ValueMakes(g, e, place, t, l);
    } else if e.Assign? || e.Arith? || e.Index? {
      BinaryMakes(g, e, place, t, l);
    } else if e.Call? {
      CallMakes(g, e.func, e.args, place, t, l);
    } else {
      SingleMakes(g, e, place, t, l);
    }
  }

  lemma {:induction false} BinaryMakes(g: Gamma, e: Exp, place: nat, t: nat, l: nat)
    requires e.Assign? || e.Arith? || e.Index?
    ensures Makes(TransExp(g, e, place, t, l).code, ExpSites(g, e, t, l))
    decreases e, 0, 1
  {
    hide Makes;
    match e
    case Assign(left, right) =>
      var a := TransExp(g, left, t, t + 2, l);
      var b := TransExp(g, right, t + 1, a.t, a.l);
      PairMakes(g, e, left, right, t, t + 2, l);
      MakesThen(a.code + b.code, ExpSites(g, e, t, l), [ASSIGN(a.op, b.op), ASSIGN(Temp(place), a.op)]);
    case Arith(op, left, right) =>
      var a := TransExp(g, left, t, t + 2, l);
      var b := TransExp(g, right, t + 1, a.t, a.l);
      PairMakes(g, e, left, right, t, t + 2, l);
      MakesThen(a.code + b.code, ExpSites(g, e, t, l), Arithmetic(op, Temp(place), a.op, b.op, b.t).0);
    case Index(base, index) =>
      var a := TransExp(g, base, t, t + 3, l);
      PairMakes(g, e, base, index, t, t + 3, l);
      ElementMakes(a, ExpSites(g, base, t + 3, l), TransExp(g, index, t + 1, a.t, a.l),
                   ExpSites(g, index, a.t, a.l), t + 2);
  }

  lemma {:induction false} SingleMakes(g: Gamma, e: Exp, place: nat, t: nat, l: nat)
    requires e.Paren? || e.Neg? || e.Read? || e.Write? || e.Dot? || e.Id? || e.Lit?
    ensures Makes(TransExp(g, e, place, t, l).code, ExpSites(g, e, t, l))
    decreases e, 0
  {
    hide Makes;
    match e
    case Paren(arg) => ExpMakes(g, arg, place, t, l);
    case Neg(arg) =>
      var a := TransExp(g, arg, t, t + 1, l);
      ExpMakes(g, arg, t, t + 1, l);
      MakesThen(a.code, ExpSites(g, arg, t + 1, l), Arithmetic(Minus, Temp(place), Const(0), a.op, a.t).0);
    case Write(arg) =>
      var a := TransExp(g, arg, t, t + 1, l);
      ExpMakes(g, arg, t, t + 1, l);
      MakesThen(a.code, ExpSites(g, arg, t + 1, l), [WRITE(a.op)]);
    case Dot(base, member) =>
      ExpMakes(g, base, t, t + 1, l);
      MemberMakes(TransExp(g, base, t, t + 1, l), ExpSites(g, base, t + 1, l), member);
    case _ => MakesNone(TransExp(g, e, place, t, l).code);
  }

  lemma {:induction false} ValueMakes(g: Gamma, e: Exp, place: nat, t: nat, l: nat)
    requires IsLogical(e)
    ensures Makes(TransExp(g, e, place, t, l).code, ExpSites(g, e, t, l))
    decreases e, 2
  {
    hide Makes, TransCondition, CondSites;
    var c, s := TransCondition(g, e, l, l + 1, t, l + 2).code, CondSites(g, e, l, l + 1, t, l + 2);
    var first := [ASSIGN(Temp(place), Const(0))];
    CondMakes(g, e, l, l + 1, t, l + 2);
    MakesNone(first);
    MakesAdd(first, [], c, s);
    assert [] + s == s;
    MakesThen(first + c, s, [LABEL(l), ASSIGN(Temp(place), Const(1)), LABEL(l + 1)]);
  }

  lemma {:induction false} CondMakes(g: Gamma, e: Exp, yes: nat, no: nat, t: nat, l: nat)
    ensures Makes(TransCondition(g, e, yes, no, t, l).code, CondSites(g, e, yes, no, t, l))
    decreases e, if IsLogical(e) then 1 else 2
  {
    hide Makes, TransExp, ExpSites;
    match e
    case Not(arg) => CondMakes(g, arg, no, yes, t, l);
    case Rel(op, left, right) =>
      var a := TransExp(g, left, t, t + 2, l);
      var b := TransExp(g, right, t + 1, a.t, a.l);
      PairMakes(g, e, left, right, t, t + 2, l);
      MakesThen(a.code + b.code, ExpSites(g, left, t + 2, l) + ExpSites(g, right, a.t, a.l),
                [IF_GOTO(op, a.op, b.op, yes), GOTO(no)]);
    case And(_, _) => EitherMakes(g, e, yes, no, t, l);
    case Or(_, _) => EitherMakes(g, e, yes, no, t, l);
    case _ =>
      var a := TransExp(g, e, t, t + 1, l);
      ExpMakes(g, e, t, t + 1, l);
      MakesThen(a.code, ExpSites(g, e, t + 1, l), [IF_GOTO(Ne, a.op, Const(0), yes), GOTO(no)]);
  }

  lemma {:induction false} EitherMakes(g: Gamma, e: Exp, yes: nat, no: nat, t: nat, l: nat)
    requires e.And? || e.Or?
    ensures Makes(TransCondition(g, e, yes, no, t, l).code, CondSites(g, e, yes, no, t, l))
    decreases e, 0
  {
    hide Makes;
    var yes1, no1 := if e.And? then l else yes, if e.And? then no else l;
    var a := TransCondition(g, e.left, yes1, no1, t, l + 1);
    CondMakes(g, e.left, yes1, no1, t, l + 1);
    CondMakes(g, e.right, yes, no, a.t, a.l);
    MakesMiddle(a.code, CondSites(g, e.left, yes1, no1, t, l + 1), LABEL(l),
                TransCondition(g, e.right, yes, no, a.t, a.l).code, CondSites(g, e.right, yes, no, a.t, a.l));
  }

  lemma {:induction false} EvalMakes(g: Gamma, args: Args, t: nat, l: nat)
    ensures Makes(EvalCode(g, args, t, l).code, ArgSites(g, args, t, l))
    decreases args, 0
  {
    match args
    case NoArg =>
    case Arg(first, rest) =>
      hide Makes, TransExp, ExpSites;
      var a := TransExp(g, first, t, t + 1, l);
      ExpMakes(g, first, t, t + 1, l);
      EvalMakes(g, rest, a.t, a.l);
      MakesAdd(a.code, ExpSites(g, first, t + 1, l), EvalCode(g, rest, a.t, a.l).code, ArgSites(g, rest, a.t, a.l));
  }

  lemma {:induction false} QueueMakes(code: Code, s: seq<CallSite>, ops: seq<Operand>)
    requires Makes(code, s)
    ensures Sites(code + Queue(ops)) == s
    decreases |ops|
  {
    if ops == [] {
      assert code + Queue(ops) == code;
    } else {
      QueueMakes(code, s, ops[1..]);
      var all := code + Queue(ops);
      assert all[..|all| - 1] == code + Queue(ops[1..]);
    }
  }

  /** A call: the calls in its arguments, then the call itself with just its own arguments in front. */
  lemma {:induction false} CallMakes(g: Gamma, f: string, args: Args, place: nat, t: nat, l: nat)
    ensures Makes(TransExp(g, Call(f, args), place, t, l).code, ExpSites(g, Call(f, args), t, l))
    decreases args, 1
  {
    hide EvalCode, ArgSites, ArgOps, TransArgs;
    var ev, ops := EvalCode(g, args, t, l).code, ArgOps(g, args, t, l);
    var front := TransArgs(g, args, t, l).code;
    ArgsShape(g, args, t, l);
    EvalMakes(g, args, t, l);
    QueueMakes(ev, ArgSites(g, args, t, l), ops);
    QueueRun(ev, ops);
    ArgRunLocal(front, [CALL(Temp(place), f)], |front|);
    var code := front + [CALL(Temp(place), f)];
    assert code[..|code| - 1] == front;
  }

  // ----- statements -----

  lemma {:induction false} DecsMake(g: Gamma, decs: Decs, t: nat, l: nat)
    ensures Makes(TransDecs(g, decs, t, l).code, DecSites(g, decs, t, l))
    decreases decs
  {
    hide Makes, TransExp, ExpSites;
    match decs
    case NoDec => MakesNone([NULL]);
    case Dec(x, ty, init, rest) =>
      var head := if ty.Int? then NULL else DEC(x, SizeOf(ty));
      MakesNone([head]);
      if init.None? {
        DecsMake(g, rest, t, l);
        MakesAdd([head], [], TransDecs(g, rest, t, l).code, DecSites(g, rest, t, l));
        assert [] + DecSites(g, rest, t, l) == DecSites(g, rest, t, l);
      } else {
        var a := TransExp(g, init.value, t, t + 1, l);
        ExpMakes(g, init.value, t, t + 1, l);
        DecsMake(g, rest, a.t, a.l);
        InitMakes([head], a.code, ExpSites(g, init.value, t + 1, l), ASSIGN(Variable(x), a.op),
                  TransDecs(g, rest, a.t, a.l).code, DecSites(g, rest, a.t, a.l));
      }
  }

  lemma InitMakes(head: Code, a: Code, s1: seq<CallSite>, store: Instr, b: Code, s2: seq<CallSite>)
    requires Makes(head, []) && Makes(a, s1) && Still(store) && Makes(b, s2)
    ensures Makes(head + a + [store] + b, s1 + s2)
  {
    hide Makes;
    MakesAdd(head, [], a, s1);
    assert [] + s1 == s1;
    MakesMiddle(head + a, s1, store, b, s2);
  }

  lemma {:induction false} StmtsMake(g: Gamma, body: Stmts, t: nat, l: nat)
    ensures Makes(TransStmts(g, body, t, l).code, AllSites(g, body, t, l))
    decreases body
  {
    hide Makes;
    match body
    case NoStmt => MakesNone([NULL]);
    case Seq(first, rest) =>
      var a := TransStmt(g, first, t, l);
      StmtMakes(g, first, t, l);
      StmtsMake(g, rest, a.t, a.l);
      MakesAdd(a.code, StmtSites(g, first, t, l), TransStmts(g, rest, a.t, a.l).code, AllSites(g, rest, a.t, a.l));
  }

  lemma {:induction false} StmtMakes(g: Gamma, st: Stmt, t: nat, l: nat)
    ensures Makes(TransStmt(g, st, t, l).code, StmtSites(g, st, t, l))
    decreases st
  {
    hide Makes, TransExp, ExpSites, TransCondition, CondSites;
    match st
    case ExpStmt(e) => ExpMakes(g, e, t, t + 1, l);
    case Block(decs, body) =>
      var a := TransDecs(g, decs, t, l);
      DecsMake(g, decs, t, l);
      StmtsMake(g, body, a.t, a.l);
      MakesAdd(a.code, DecSites(g, decs, t, l), TransStmts(g, body, a.t, a.l).code, AllSites(g, body, a.t, a.l));
    case Return(e) =>
      var a := TransExp(g, e, t, t + 1, l);
      ExpMakes(g, e, t, t + 1, l);
      MakesThen(a.code, ExpSites(g, e, t + 1, l), [RETURN(a.op)]);
    case While(cond, body) =>
      var c := TransCondition(g, cond, l + 1, l + 2, t, l + 3);
      CondMakes(g, cond, l + 1, l + 2, t, l + 3);
      StmtMakes(g, body, c.t, c.l);
      WhileMakes(c.code, CondSites(g, cond, l + 1, l + 2, t, l + 3), TransStmt(g, body, c.t, c.l).code,
                 StmtSites(g, body, c.t, c.l), l);
    case If(cond, thn) =>
      var c := TransCondition(g, cond, l, l + 1, t, l + 2);
      var a := TransStmt(g, thn, c.t, c.l);
      CondMakes(g, cond, l, l + 1, t, l + 2);
      StmtMakes(g, thn, c.t, c.l);
      MakesMiddle(c.code, CondSites(g, cond, l, l + 1, t, l + 2), LABEL(l), a.code, StmtSites(g, thn, c.t, c.l));
      MakesThen(c.code + [LABEL(l)] + a.code, StmtSites(g, st, t, l), [LABEL(l + 1)]);
    case IfElse(cond, thn, els) =>
      var c := TransCondition(g, cond, l, l + 1, t, l + 3);
      var a := TransStmt(g, thn, c.t, c.l);
      CondMakes(g, cond, l, l + 1, t, l + 3);
      StmtMakes(g, thn, c.t, c.l);
      StmtMakes(g, els, a.t, a.l);
      IfElseMakes(c.code, CondSites(g, cond, l, l + 1, t, l + 3), a.code, StmtSites(g, thn, c.t, c.l),
                  TransStmt(g, els, a.t, a.l).code, StmtSites(g, els, a.t, a.l), l);
  }

  lemma WhileMakes(c: Code, s1: seq<CallSite>, b: Code, s2: seq<CallSite>, l: nat)
    requires Makes(c, s1) && Makes(b, s2)
    ensures Makes([LABEL(l)] + c + [LABEL(l + 1)] + b + [GOTO(l), LABEL(l + 2)], s1 + s2)
  {
    hide Makes;
    MakesNone([LABEL(l)]);
    MakesAdd([LABEL(l)], [], c, s1);
    assert [] + s1 == s1;
    MakesMiddle([LABEL(l)] + c, s1, LABEL(l + 1), b, s2);
    MakesThen([LABEL(l)] + c + [LABEL(l + 1)] + b, s1 + s2, [GOTO(l), LABEL(l + 2)]);
  }

  lemma IfElseMakes(c: Code, s1: seq<CallSite>, a: Code, s2: seq<CallSite>, b: Code, s3: seq<CallSite>, l: nat)
    requires Makes(c, s1) && Makes(a, s2) && Makes(b, s3)
    ensures Makes(c + [LABEL(l)] + a + [GOTO(l + 2), LABEL(l + 1)] + b + [LABEL(l + 2)], s1 + s2 + s3)
  {
    hide Makes;
    var jump := [GOTO(l + 2), LABEL(l + 1)];
    MakesMiddle(c, s1, LABEL(l), a, s2);
    MakesThen(c + [LABEL(l)] + a, s1 + s2, jump);
    MakesAdd(c + [LABEL(l)] + a + jump, s1 + s2, b, s3);
    MakesThen(c + [LABEL(l)] + a + jump + b, s1 + s2 + s3, [LABEL(l + 2)]);
  }

  // ----- programs -----

  lemma {:induction false} ParamsMake(ps: seq<string>)
    ensures Makes(TransParams(ps), [])
  {
    if ps != [] {
      hide Makes;
      ParamsMake(ps[1..]);
      MakesNone([PARAM(ps[0])]);
      var none: seq<CallSite> := [];
      MakesAdd([PARAM(ps[0])], none, TransParams(ps[1..]), none);
      assert none + none == none;
    }
  }

  lemma FunctionMakes(fn: Function, t: nat, l: nat)
    ensures Makes(TransFunction(fn, t, l).code, FunctionSites(fn, t, l))
  {
    hide Makes, TransDecs, TransStmts, DecSites, AllSites, TransParams;
    var a := TransDecs(fn.vars, fn.decs, t, l);
    var b := TransStmts(fn.vars, fn.body, a.t, a.l);
    var s := FunctionSites(fn, t, l);
    DecsMake(fn.vars, fn.decs, t, l);
    StmtsMake(fn.vars, fn.body, a.t, a.l);
    MakesAdd(a.code, DecSites(fn.vars, fn.decs, t, l), b.code, AllSites(fn.vars, fn.body, a.t, a.l));
    var none: seq<CallSite> := [];
    MakesNone([FUNC(fn.name)]);
    ParamsMake(fn.params);
    MakesAdd([FUNC(fn.name)], none, TransParams(fn.params), none);
    MakesAdd([FUNC(fn.name)] + TransParams(fn.params), none + none, a.code + b.code, s);
    assert none + none + s == s;
  }

  lemma {:induction false} ProgramMakes(p: Program, t: nat, l: nat)
    ensures Makes(TransProgram(p, t, l).code, ProgramSites(p, t, l))
    decreases |p|
  {
    hide Makes, TransFunction, FunctionSites;
    MakesNone([NULL]);
    if p != [] {
      var a := if p[0].Declaration? then StmtCode([NULL], t, l) else TransFunction(p[0].fn, t, l);
      var rest := ProgramSites(p[1..], a.t, a.l);
      ProgramMakes(p[1..], a.t, a.l);
      if p[0].Definition? {
        FunctionMakes(p[0].fn, t, l);
      }
      MakesAdd(a.code, if p[0].Declaration? then [] else FunctionSites(p[0].fn, t, l),
               TransProgram(p[1..], a.t, a.l).code, rest);
      assert [] + rest == rest;
    }
  }

  // ----- after the formatting pass -----

  lemma {:induction false} SitesThen(a: Code, b: Code)
    requires forall i :: 0 <= i < |b| ==> !b[i].CALL?
    ensures Sites(a + b) == Sites(a)
    decreases |b|
  {
    if b == [] {
      assert a + b == a;
    } else {
      assert (a + b)[..|a + b| - 1] == a + b[..|b| - 1];
      SitesThen(a, b[..|b| - 1]);
    }
  }

  lemma {:induction false} FormattedSites(code: Code, n: nat, t: nat)
    requires Bracketed(code) && n <= |code|
    ensures Sites(Formatted(code, n, t).0) == Sites(code[..n])
    decreases n
  {
    if n > 0 {
      FormattedSites(code, n - 1, t);
      SiteThere(code, n - 1, t);
    }
  }

  lemma SitesEnd(a: Code, ins: Instr)
    ensures Sites(a + [ins]) == Sites(a) + if ins.CALL? then [CallSite(ins.name, ArgRun(a, |a|))] else []
  {
    assert (a + [ins])[..|a|] == a;
    ArgRunLocal(a, [ins], |a|);
  }

  lemma SiteThere(code: Code, n: nat, t: nat)
    requires Bracketed(code) && n < |code| && Sites(Formatted(code, n, t).0) == Sites(code[..n])
    ensures Sites(Formatted(code, n + 1, t).0) == Sites(code[..n + 1])
  {
    hide Sites, Bracketed, ArgRun;
    var before, piece, ins := Formatted(code, n, t).0, PieceAt(code, n, t), code[n];
    PieceKind(code, n, t);
    assert Formatted(code, n + 1, t).0 == before + piece && code[..n + 1] == code[..n] + [ins];
    SitesEnd(code[..n], ins);
    if ins.CALL? {
      SitesEnd(before, ins);
      ArgRunThere(code, n, t);
      assert code == code[..n] + code[n..];
      ArgRunLocal(code[..n], code[n..], n);
    } else {
      SitesThen(before, piece);
    }
  }

  /** In the list that code is generated from, the calls are those of the source program, in order, and the
      walk back from each finds exactly its own arguments, left to right. */
  lemma CallsInOrder(p: Program)
    ensures var o := TransProgram(p, 0, 0); Sites(Whole(o.code, o.t)) == ProgramSites(p, 0, 0)
  {
    var o := TransProgram(p, 0, 0);
    ProgramOrderly(p, 0, 0);
    ProgramMakes(p, 0, 0);
    FormattedSites(o.code, |o.code|, o.t);
    assert o.code[..|o.code|] == o.code;
  }

  // ----- when stack arguments clash -----

  lemma {:induction false} SiteOf(code: Code, i: nat)
    requires i < |code| && code[i].CALL?
    ensures CallSite(code[i].name, ArgRun(code, i)) in Sites(code)
    decreases |code|
  {
    var n := |code| - 1;
    if i < n {
      SiteOf(code[..n], i);
      assert code[..n] + code[n..] == code;
      ArgRunLocal(code[..n], code[n..], i);
    }
  }

  lemma {:induction false} SiteAt(code: Code, site: CallSite) returns (i: nat)
    requires site in Sites(code)
    ensures i < |code| && code[i].CALL? && site == CallSite(code[i].name, ArgRun(code, i))
    decreases |code|
  {
    var n := |code| - 1;
    if site in Sites(code[..n]) {
      i := SiteAt(code[..n], site);
      assert code[..n] + code[n..] == code;
      ArgRunLocal(code[..n], code[n..], i);
    } else {
      i := n;
    }
  }

  /** The condition on the list is one on the calls of the source program. */
  lemma ClearAsWritten(p: Program)
    ensures var o := TransProgram(p, 0, 0);
            ArgsClear(Whole(o.code, o.t)) <==> forall site :: site in ProgramSites(p, 0, 0) ==> NoClash(site.ops)
  {
    var o := TransProgram(p, 0, 0);
    var code := Whole(o.code, o.t);
    CallsInOrder(p);
    forall site | site in Sites(code) && ArgsClear(code) ensures NoClash(site.ops) {
      var i := SiteAt(code, site);
      assert ClearAt(code, i);
    }
    if forall site :: site in Sites(code) ==> NoClash(site.ops) {
      forall i | 0 <= i < |code| ensures ClearAt(code, i) {
        if code[i].CALL? {
          SiteOf(code, i);
        }
      }
    }
  }

  /** `f(1, 2, 3, 4, p.x, p)`, where `p` refers to a structure whose first member is `x`. */
  function Clashing(): Args {
    Arg(Lit(1), Arg(Lit(2), Arg(Lit(3), Arg(Lit(4), Arg(Dot(Id("p"), "x"), Arg(Id("p"), NoArg))))))
  }

  function ClashingProgram(more: Fields): Program {
    var ty := Ref(Struct("s", Field("x", Int, more)));
    [Definition(Function("g", ["p"], map["p" := ty], NoDec, Seq(ExpStmt(Call("f", Clashing())), NoStmt)))]
  }

  lemma OpsOne(g: Gamma, first: Exp, rest: Args, t: nat, l: nat)
    ensures var a := TransExp(g, first, t, t + 1, l);
            ArgOps(g, Arg(first, rest), t, l) == [HandleAddress(a.op, a.ty)] + ArgOps(g, rest, a.t, a.l)
  {
  }

  lemma OpsLit(g: Gamma, n: int, rest: Args, t: nat, l: nat)
    ensures ArgOps(g, Arg(Lit(n), rest), t, l) == [Const(n)] + ArgOps(g, rest, t + 1, l)
  {
    OpsOne(g, Lit(n), rest, t, l);
  }

  lemma OpsMember(g: Gamma, more: Fields, rest: Args, t: nat, l: nat)
    requires "p" in g && g["p"] == Ref(Struct("s", Field("x", Int, more)))
    ensures ArgOps(g, Arg(Dot(Id("p"), "x"), rest), t, l) == [GetVal(Variable("p"))] + ArgOps(g, rest, t + 2, l)
    ensures ArgOps(g, Arg(Id("p"), rest), t, l) == [Variable("p")] + ArgOps(g, rest, t + 1, l)
  {
    var a := TransExp(g, Id("p"), t + 1, t + 2, l);
    OpsOne(g, Dot(Id("p"), "x"), rest, t, l);
    OpsOne(g, Id("p"), rest, t, l);
    assert MemberOf(a.ty, "x") == (0, Some(Int));
  }

  lemma ClashingOps(g: Gamma, more: Fields, t: nat, l: nat)
    requires "p" in g && g["p"] == Ref(Struct("s", Field("x", Int, more)))
    ensures ArgOps(g, Clashing(), t, l)
         == [Const(1), Const(2), Const(3), Const(4), GetVal(Variable("p")), Variable("p")]
  {
    hide ArgOps;
    var last := Arg(Id("p"), NoArg);
    var stack := Arg(Dot(Id("p"), "x"), last);
    OpsLit(g, 1, Arg(Lit(2), Arg(Lit(3), Arg(Lit(4), stack))), t, l);
    OpsLit(g, 2, Arg(Lit(3), Arg(Lit(4), stack)), t + 1, l);
    OpsLit(g, 3, Arg(Lit(4), stack), t + 2, l);
    OpsLit(g, 4, stack, t + 3, l);
    OpsMember(g, more, last, t + 4, l);
    OpsMember(g, more, NoArg, t + 6, l);
    NoOps(g, t + 7, l);
  }

  lemma NoOps(g: Gamma, t: nat, l: nat)
    ensures ArgOps(g, NoArg, t, l) == []
  {
  }

  lemma ClashingSite(more: Fields)
    ensures var g := ClashingProgram(more)[0].fn.vars;
            CallSite("f", ArgOps(g, Clashing(), 1, 0)) in ProgramSites(ClashingProgram(more), 0, 0)
  {
    hide ArgOps, TransFunction, ArgSites;
    var fn := ClashingProgram(more)[0].fn;
    var site, st := CallSite("f", ArgOps(fn.vars, Clashing(), 1, 0)), ExpStmt(Call("f", Clashing()));
    assert site in ExpSites(fn.vars, st.exp, 1, 0);
    assert TransDecs(fn.vars, NoDec, 0, 0) == StmtCode([NULL], 0, 0);
    assert site in AllSites(fn.vars, fn.body, 0, 0);
    assert site in FunctionSites(fn, 0, 0);
  }

  /** A program that passes arguments which clash, so that its fifth argument does not arrive. */
  lemma ClashingExample(more: Fields)
    ensures var o := TransProgram(ClashingProgram(more), 0, 0); !ArgsClear(Whole(o.code, o.t))
  {
    hide TransProgram, ArgsClear;
    var p := ClashingProgram(more);
    var ops := ArgOps(p[0].fn.vars, Clashing(), 1, 0);
    ClashingSite(more);
    ClashingOps(p[0].fn.vars, more, 1, 0);
    assert ops[4] != ops[5] && Root(ops[4]) == Root(ops[5]);
    assert !NoClash(CallSite("f", ops).ops);
    ClearAsWritten(p);
  }
}
