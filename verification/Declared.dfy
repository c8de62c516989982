/** Structures and arrays have slots exactly where they are declared: the code of a function reserves room
    for its parameters and for the aggregates that its body declares, and for no other name that it
    reaches by address. */
module Declared {
  import opened Common
  import opened Syntax
  import opened Layout
  import opened Ir
  import opened Translate
  import opened Link
  import opened Format
  import opened Frames
  import opened Reached

  // ----- what a function declares -----

  function AggregatesOf(decs: Decs): set<Operand> {
    match decs
    case NoDec => {}
    case Dec(x, ty, _, rest) => (if ty.Int? then {} else {Variable(x)}) + AggregatesOf(rest)
  }

  function AggregatesIn(st: Stmt): set<Operand> {
    match st
    case Block(decs, body) => AggregatesOf(decs) + AggregatesInAll(body)
    case While(_, body) => AggregatesIn(body)
    case If(_, thn) => AggregatesIn(thn)
    case IfElse(_, thn, els) => AggregatesIn(thn) + AggregatesIn(els)
    case _ => {}
  }

  function AggregatesInAll(body: Stmts): set<Operand> {
    match body
    case NoStmt => {}
    case Seq(first, rest) => AggregatesIn(first) + AggregatesInAll(rest)
  }

  /** The parameters of a function and the structures and arrays that it declares. */
  function Declares(fn: Function): set<Operand> {
    (set x | x in fn.params :: Variable(x)) + AggregatesOf(fn.decs) + AggregatesInAll(fn.body)
  }

  /** The same for all functions called `f`. */
  function DeclaresAll(p: Program, f: string): set<Operand> {
    if p == [] then {}
    else (if p[0].Definition? && p[0].fn.name == f then Declares(p[0].fn) else {}) + DeclaresAll(p[1..], f)
  }

  // ----- what code declares -----

  function DeclsOf(ins: Instr): set<Operand> {
    match ins
    case DEC(x, _) => {Variable(x)}
    case PARAM(x) => {Variable(x)}
    case _ => {}
  }

  function Decls(code: Code): set<Operand> {
    if code == [] then {} else Decls(code[..|code| - 1]) + DeclsOf(code[|code| - 1])
  }

  lemma {:induction false} DeclsAdd(a: Code, b: Code)
    ensures Decls(a + b) == Decls(a) + Decls(b)
    decreases |b|
  {
    if b == [] {
      assert a + b == a;
    } else {
      assert (a + b)[..|a + b| - 1] == a + b[..|b| - 1];
      DeclsAdd(a, b[..|b| - 1]);
    }
  }

  lemma {:induction false} NoDecls(code: Code)
    requires forall i :: 0 <= i < |code| ==> DeclsOf(code[i]) == {}
    ensures Decls(code) == {}
    decreases |code|
  {
    if code != [] {
      NoDecls(code[..|code| - 1]);
    }
  }

  lemma DeclsOne(ins: Instr)
    ensures Decls([ins]) == DeclsOf(ins)
  {
    assert [ins][..0] == [];
  }

  /** Code with an instruction behind it that declares nothing. */
  lemma DeclsMore(a: Code, ins: Instr)
    requires DeclsOf(ins) == {}
    ensures Decls(a + [ins]) == Decls(a)
  {
    DeclsOne(ins);
    DeclsAdd(a, [ins]);
  }

  lemma DeclsMiddle(a: Code, ins: Instr, b: Code)
    requires DeclsOf(ins) == {}
    ensures Decls(a + [ins] + b) == Decls(a) + Decls(b)
  {
    DeclsMore(a, ins);
    DeclsAdd(a + [ins], b);
  }

  // ----- expressions declare nothing -----

  lemma ArithmeticDecls(op: ArithOp, dst: Operand, src1: Operand, src2: Operand, t: nat)
    ensures Decls(Arithmetic(op, dst, src1, src2, t).0) == {}
  {
    NoDecls(Arithmetic(op, dst, src1, src2, t).0);
  }

  lemma DerefDecls(code: Code, addr: Operand, ty: Option<Type>, t: nat, l: nat)
    requires Decls(code) == {}
    ensures Decls(Deref(code, addr, ty, t, l).code) == {}
  {
    DeclsMore(code, ASSIGN(Temp(t), addr));
  }

  lemma MemberDecls(a: ExpCode, name: string)
    requires Decls(a.code) == {}
    ensures Decls(MemberCode(a, name).code) == {}
  {
    var (offset, part) := MemberOf(a.ty, name);
    var addr := AddressOf(a.op, a.ty);
    var code := Arithmetic(Plus, Temp(a.t), addr, Const(offset), a.t + 1).0;
    DerefDecls(a.code, addr, part, a.t, a.l);
    ArithmeticDecls(Plus, Temp(a.t), addr, Const(offset), a.t + 1);
    DeclsAdd(a.code, code);
  }

  lemma ElementDecls(a: ExpCode, i: ExpCode, k: nat)
    requires Decls(a.code) == {} && Decls(i.code) == {}
    ensures Decls(ElementCode(a, i, k).code) == {}
  {
    hide Arithmetic;
    var elem, addr, code := ElemType(a.ty), AddressOf(a.op, a.ty), a.code + i.code;
    var (code3, t3) := Arithmetic(Star, Temp(k), i.op, Const(SizeOf(elem)), i.t + 1);
    var (code4, t4) := Arithmetic(Plus, Temp(i.t), addr, Temp(k), t3);
    DeclsAdd(a.code, i.code);
    DerefDecls(code, addr, Some(elem), i.t, i.l);
    ArithmeticDecls(Star, Temp(k), i.op, Const(SizeOf(elem)), i.t + 1);
    ArithmeticDecls(Plus, Temp(i.t), addr, Temp(k), t3);
    DeclsAdd(code, code3);
    DeclsAdd(code + code3, code4);
  }

  lemma {:induction false} PairDecls(g: Gamma, e: Exp, e1: Exp, e2: Exp, t: nat, ta: nat, l: nat)
    requires e1 < e && e2 < e
    ensures var a := TransExp(g, e1, t, ta, l);
            Decls(a.code) == {} && Decls(TransExp(g, e2, t + 1, a.t, a.l).code) == {}
            && Decls(a.code + TransExp(g, e2, t + 1, a.t, a.l).code) == {}
    decreases e, 0, 0
  {
    hide TransExp;
    var a := TransExp(g, e1, t, ta, l);
    ExpDecls(g, e1, t, ta, l);
    ExpDecls(g, e2, t + 1, a.t, a.l);
    DeclsAdd(a.code, TransExp(g, e2, t + 1, a.t, a.l).code);
  }

  lemma {:induction false} ExpDecls(g: Gamma, e: Exp, place: nat, t: nat, l: nat)
    ensures Decls(TransExp(g, e, place, t, l).code) == {}
    decreases e, if IsLogical(e) then 3 else 1
  {
    if IsLogical(e) {
      ValueDecls(g, e, place, t, l);
    } else if e.Assign? || e.Arith? || e.Index? {
      BinaryDecls(g, e, place, t, l);
    } else if e.Call? {
      ArgsDecls(g, e.args, t, l);
      DeclsMore(TransArgs(g, e.args, t, l).code, CALL(Temp(place), e.func));
    } else {
      SingleDecls(g, e, place, t, l);
    }
  }

  lemma {:induction false} BinaryDecls(g: Gamma, e: Exp, place: nat, t: nat, l: nat)
    requires e.Assign? || e.Arith? || e.Index?
    ensures Decls(TransExp(g, e, place, t, l).code) == {}
    decreases e, 0, 1
  {
    match e
    case Assign(left, right) =>
      var a := TransExp(g, left, t, t + 2, l);
      var b := TransExp(g, right, t + 1, a.t, a.l);
      PairDecls(g, e, left, right, t, t + 2, l);
      NoDecls([ASSIGN(a.op, b.op), ASSIGN(Temp(place), a.op)]);
      DeclsAdd(a.code + b.code, [ASSIGN(a.op, b.op), ASSIGN(Temp(place), a.op)]);
    case Arith(op, left, right) =>
      var a := TransExp(g, left, t, t + 2, l);
      var b := TransExp(g, right, t + 1, a.t, a.l);
      PairDecls(g, e, left, right, t, t + 2, l);
      ArithmeticDecls(op, Temp(place), a.op, b.op, b.t);
      DeclsAdd(a.code + b.code, Arithmetic(op, Temp(place), a.op, b.op, b.t).0);
    case Index(base, index) =>
      var a := TransExp(g, base, t, t + 3, l);
      PairDecls(g, e, base, index, t, t + 3, l);
      ElementDecls(a, TransExp(g, index, t + 1, a.t, a.l), t + 2);
  }

  lemma {:induction false} SingleDecls(g: Gamma, e: Exp, place: nat, t: nat, l: nat)
    requires e.Paren? || e.Neg? || e.Read? || e.Write? || e.Dot? || e.Id? || e.Lit?
    ensures Decls(TransExp(g, e, place, t, l).code) == {}
    decreases e, 0
  {
    match e
    case Paren(arg) => ExpDecls(g, arg, place, t, l);
    case Neg(arg) =>
      var a := TransExp(g, arg, t, t + 1, l);
      ExpDecls(g, arg, t, t + 1, l);
      ArithmeticDecls(Minus, Temp(place), Const(0), a.op, a.t);
      DeclsAdd(a.code, Arithmetic(Minus, Temp(place), Const(0), a.op, a.t).0);
    case Read => DeclsOne(READ(Temp(place)));
    case Write(arg) =>
      var a := TransExp(g, arg, t, t + 1, l);
      ExpDecls(g, arg, t, t + 1, l);
      DeclsMore(a.code, WRITE(a.op));
    case Dot(base, member) =>
      ExpDecls(g, base, t, t + 1, l);
      MemberDecls(TransExp(g, base, t, t + 1, l), member);
    case _ => DeclsOne(NULL);
  }

  lemma {:induction false} ValueDecls(g: Gamma, e: Exp, place: nat, t: nat, l: nat)
    requires IsLogical(e)
    ensures Decls(TransExp(g, e, place, t, l).code) == {}
    decreases e, 2
  {
    var c := TransCondition(g, e, l, l + 1, t, l + 2).code;
    var first, last := [ASSIGN(Temp(place), Const(0))], [LABEL(l), ASSIGN(Temp(place), Const(1)), LABEL(l + 1)];
    CondDecls(g, e, l, l + 1, t, l + 2);
    NoDecls(first);
    NoDecls(last);
    DeclsAdd(first, c);
    DeclsAdd(first + c, last);
  }

  lemma {:induction false} CondDecls(g: Gamma, e: Exp, yes: nat, no: nat, t: nat, l: nat)
    ensures Decls(TransCondition(g, e, yes, no, t, l).code) == {}
    decreases e, if IsLogical(e) then 1 else 2
  {
    hide TransExp;
    match e
    case Not(arg) => CondDecls(g, arg, no, yes, t, l);
    case Rel(op, left, right) =>
      var a := TransExp(g, left, t, t + 2, l);
      var b := TransExp(g, right, t + 1, a.t, a.l);
      PairDecls(g, e, left, right, t, t + 2, l);
      NoDecls([IF_GOTO(op, a.op, b.op, yes), GOTO(no)]);
      DeclsAdd(a.code + b.code, [IF_GOTO(op, a.op, b.op, yes), GOTO(no)]);
    case And(_, _) => EitherDecls(g, e, yes, no, t, l);
    case Or(_, _) => EitherDecls(g, e, yes, no, t, l);
    case _ =>
      var a := TransExp(g, e, t, t + 1, l);
      ExpDecls(g, e, t, t + 1, l);
      NoDecls([IF_GOTO(Ne, a.op, Const(0), yes), GOTO(no)]);
      DeclsAdd(a.code, [IF_GOTO(Ne, a.op, Const(0), yes), GOTO(no)]);
  }

  lemma {:induction false} EitherDecls(g: Gamma, e: Exp, yes: nat, no: nat, t: nat, l: nat)
    requires e.And? || e.Or?
    ensures Decls(TransCondition(g, e, yes, no, t, l).code) == {}
    decreases e, 0
  {
    var yes1, no1 := if e.And? then l else yes, if e.And? then no else l;
    var a := TransCondition(g, e.left, yes1, no1, t, l + 1);
    CondDecls(g, e.left, yes1, no1, t, l + 1);
    CondDecls(g, e.right, yes, no, a.t, a.l);
    DeclsMiddle(a.code, LABEL(l), TransCondition(g, e.right, yes, no, a.t, a.l).code);
  }

  lemma {:induction false} ArgsDecls(g: Gamma, args: Args, t: nat, l: nat)
    ensures Decls(TransArgs(g, args, t, l).code) == {}
    decreases args
  {
    match args
    case NoArg =>
    case Arg(first, rest) =>
      var a := TransExp(g, first, t, t + 1, l);
      var b := TransArgs(g, rest, a.t, a.l);
      ExpDecls(g, first, t, t + 1, l);
      ArgsDecls(g, rest, a.t, a.l);
      DeclsAdd(a.code, b.code);
      DeclsMore(a.code + b.code, ARG(HandleAddress(a.op, a.ty)));
  }

  // ----- statements declare what they say -----

  lemma {:induction false} DecsDeclare(g: Gamma, decs: Decs, t: nat, l: nat)
    ensures Decls(TransDecs(g, decs, t, l).code) == AggregatesOf(decs)
    decreases decs
  {
    hide TransExp;
    match decs
    case NoDec => DeclsOne(NULL);
    case Dec(x, ty, init, rest) =>
      var head := if ty.Int? then NULL else DEC(x, SizeOf(ty));
      DeclsOne(head);
      if init.None? {
        DecsDeclare(g, rest, t, l);
        DeclsAdd([head], TransDecs(g, rest, t, l).code);
      } else {
        var a := TransExp(g, init.value, t, t + 1, l);
        ExpDecls(g, init.value, t, t + 1, l);
        DecsDeclare(g, rest, a.t, a.l);
        InitDecls(head, a.code, ASSIGN(Variable(x), a.op), TransDecs(g, rest, a.t, a.l).code);
      }
  }

  lemma InitDecls(head: Instr, a: Code, store: Instr, b: Code)
    requires Decls(a) == {} && DeclsOf(store) == {}
    ensures Decls([head] + a + [store] + b) == DeclsOf(head) + Decls(b)
  {
    DeclsOne(head);
    DeclsAdd([head], a);
    DeclsMiddle([head] + a, store, b);
  }

  lemma {:induction false} StmtsDeclare(g: Gamma, body: Stmts, t: nat, l: nat)
    ensures Decls(TransStmts(g, body, t, l).code) == AggregatesInAll(body)
    decreases body
  {
    match body
    case NoStmt => DeclsOne(NULL);
    case Seq(first, rest) =>
      var a := TransStmt(g, first, t, l);
      StmtDeclares(g, first, t, l);
      StmtsDeclare(g, rest, a.t, a.l);
      DeclsAdd(a.code, TransStmts(g, rest, a.t, a.l).code);
  }

  lemma {:induction false} StmtDeclares(g: Gamma, st: Stmt, t: nat, l: nat)
    ensures Decls(TransStmt(g, st, t, l).code) == AggregatesIn(st)
    decreases st
  {
    hide TransExp, TransCondition;
    match st
    case ExpStmt(e) => ExpDecls(g, e, t, t + 1, l);
    case Block(decs, body) =>
      var a := TransDecs(g, decs, t, l);
      DecsDeclare(g, decs, t, l);
      StmtsDeclare(g, body, a.t, a.l);
      DeclsAdd(a.code, TransStmts(g, body, a.t, a.l).code);
    case Return(e) =>
      var a := TransExp(g, e, t, t + 1, l);
      ExpDecls(g, e, t, t + 1, l);
      DeclsMore(a.code, RETURN(a.op));
    case While(cond, body) =>
      var c := TransCondition(g, cond, l + 1, l + 2, t, l + 3);
      CondDecls(g, cond, l + 1, l + 2, t, l + 3);
      StmtDeclares(g, body, c.t, c.l);
      WhileDecls(c.code, TransStmt(g, body, c.t, c.l).code, l);
    case If(cond, thn) =>
      var c := TransCondition(g, cond, l, l + 1, t, l + 2);
      var a := TransStmt(g, thn, c.t, c.l);
      CondDecls(g, cond, l, l + 1, t, l + 2);
      StmtDeclares(g, thn, c.t, c.l);
      DeclsMiddle(c.code, LABEL(l), a.code);
      DeclsMore(c.code + [LABEL(l)] + a.code, LABEL(l + 1));
    case IfElse(cond, thn, els) =>
      var c := TransCondition(g, cond, l, l + 1, t, l + 3);
      var a := TransStmt(g, thn, c.t, c.l);
      CondDecls(g, cond, l, l + 1, t, l + 3);
      StmtDeclares(g, thn, c.t, c.l);
      StmtDeclares(g, els, a.t, a.l);
      IfElseDecls(c.code, a.code, TransStmt(g, els, a.t, a.l).code, l);
  }

  lemma WhileDecls(c: Code, b: Code, l: nat)
    ensures Decls([LABEL(l)] + c + [LABEL(l + 1)] + b + [GOTO(l), LABEL(l + 2)]) == Decls(c) + Decls(b)
  {
    DeclsOne(LABEL(l));
    DeclsAdd([LABEL(l)], c);
    DeclsMiddle([LABEL(l)] + c, LABEL(l + 1), b);
    NoDecls([GOTO(l), LABEL(l + 2)]);
    DeclsAdd([LABEL(l)] + c + [LABEL(l + 1)] + b, [GOTO(l), LABEL(l + 2)]);
  }

  lemma IfElseDecls(c: Code, a: Code, b: Code, l: nat)
    ensures Decls(c + [LABEL(l)] + a + [GOTO(l + 2), LABEL(l + 1)] + b + [LABEL(l + 2)])
            == Decls(c) + Decls(a) + Decls(b)
  {
    var code, jump := c + [LABEL(l)] + a, [GOTO(l + 2), LABEL(l + 1)];
    DeclsMiddle(c, LABEL(l), a);
    NoDecls(jump);
    DeclsAdd(code, jump);
    DeclsAdd(code + jump, b);
    DeclsMore(code + jump + b, LABEL(l + 2));
  }

  lemma {:induction false} ParamsDeclare(ps: seq<string>)
    ensures Decls(TransParams(ps)) == set x | x in ps :: Variable(x)
  {
    if ps != [] {
      ParamsDeclare(ps[1..]);
      DeclsOne(PARAM(ps[0]));
      DeclsAdd([PARAM(ps[0])], TransParams(ps[1..]));
      assert ps == [ps[0]] + ps[1..];
    }
  }

  lemma FunctionDeclares(fn: Function, t: nat, l: nat)
    ensures Decls(TransFunction(fn, t, l).code) == Declares(fn)
  {
    var a := TransDecs(fn.vars, fn.decs, t, l);
    var b := TransStmts(fn.vars, fn.body, a.t, a.l);
    var head := [FUNC(fn.name)] + TransParams(fn.params);
    DecsDeclare(fn.vars, fn.decs, t, l);
    StmtsDeclare(fn.vars, fn.body, a.t, a.l);
    ParamsDeclare(fn.params);
    DeclsOne(FUNC(fn.name));
    DeclsAdd([FUNC(fn.name)], TransParams(fn.params));
    DeclsAdd(a.code, b.code);
    DeclsAdd(head, a.code + b.code);
  }

  // ----- function by function -----

  function DeclsIn(code: Code, n: nat, f: string): set<Operand>
    requires n <= |code|
  {
    if n == 0 then {} else DeclsIn(code, n - 1, f) + if FnAt(code, n - 1) == Some(f) then DeclsOf(code[n - 1]) else {}
  }

  lemma {:induction false} DeclsInLocal(a: Code, b: Code, n: nat, f: string)
    requires n <= |a|
    ensures DeclsIn(a + b, n, f) == DeclsIn(a, n, f)
    decreases n
  {
    if n > 0 {
      DeclsInLocal(a, b, n - 1, f);
      FnAtLocal(a, b, n - 1);
    }
  }

  lemma {:induction false} DeclsInAdd(a: Code, b: Code, n: nat, f: string)
    requires n <= |b| && QuietLead(b)
    ensures DeclsIn(a + b, |a| + n, f) == DeclsIn(a, |a|, f) + DeclsIn(b, n, f)
    decreases n
  {
    if n == 0 {
      DeclsInLocal(a, b, |a|, f);
    } else {
      DeclsInAdd(a, b, n - 1, f);
      FnAtAdd(a, b, n - 1);
      assert QuietAt(b, n - 1);
    }
  }

  lemma {:induction false} DeclsInFunction(code: Code, n: nat, f: string, g: string)
    requires 0 < n <= |code| && code[0] == FUNC(f) && forall j :: 0 < j < |code| ==> !code[j].FUNC?
    ensures DeclsIn(code, n, g) == if g == f then Decls(code[..n]) else {}
    decreases n
  {
    if n == 1 {
      assert code[..1] == [FUNC(f)];
      DeclsOne(FUNC(f));
      assert DeclsIn(code, 1, g) == DeclsIn(code, 0, g);
    } else {
      DeclsInFunction(code, n - 1, f, g);
      BelongsTo(code, 0, n - 1, f);
      assert code[..n][..n - 1] == code[..n - 1] && code[..n][n - 1] == code[n - 1];
    }
  }

  lemma DefinitionDeclares(fn: Function, t: nat, l: nat, f: string)
    ensures var code := TransFunction(fn, t, l).code;
            QuietLead(code) && DeclsIn(code, |code|, f) == if fn.name == f then Declares(fn) else {}
  {
    hide TransBody, TransParams, Declares, Decls;
    var code := TransFunction(fn, t, l).code;
    OnlyHead(fn, t, l);
    FunctionDeclares(fn, t, l);
    DeclsInFunction(code, |code|, fn.name, f);
    assert code[..|code|] == code;
    forall i | 0 <= i < |code| ensures QuietAt(code, i) {
      if i > 0 {
        BelongsTo(code, 0, i, fn.name);
      }
    }
  }

  /** The code of a program declares, function by function, what the program does. */
  lemma {:induction false} ProgramDeclares(p: Program, t: nat, l: nat, f: string)
    ensures var code := TransProgram(p, t, l).code;
            QuietLead(code) && DeclsIn(code, |code|, f) == DeclaresAll(p, f)
    decreases |p|
  {
    hide TransFunction, Declares, FnAt;
    QuietNull(f);
    assert DeclsIn([NULL], 1, f) == DeclsIn([NULL], 0, f);
    if p != [] {
      var a := if p[0].Declaration? then StmtCode([NULL], t, l) else TransFunction(p[0].fn, t, l);
      var b := TransProgram(p[1..], a.t, a.l);
      if p[0].Definition? {
        DefinitionDeclares(p[0].fn, t, l, f);
      }
      ProgramDeclares(p[1..], a.t, a.l, f);
      DeclsInAdd(a.code, b.code, |b.code|, f);
      QuietAdd(a.code, b.code);
    }
  }

  // ----- after the formatting pass -----

  lemma {:induction false} DeclaredIn(code: Code, n: nat, f: string, op: Operand) returns (i: nat)
    requires n <= |code| && op in DeclsIn(code, n, f)
    ensures i < n && FnAt(code, i) == Some(f) && op in DeclsOf(code[i])
    decreases n
  {
    if op in DeclsIn(code, n - 1, f) {
      i := DeclaredIn(code, n - 1, f, op);
    } else {
      i := n - 1;
    }
  }

  lemma {:induction false} InDecls(code: Code, n: nat, f: string, i: nat, op: Operand)
    requires i < n <= |code| && FnAt(code, i) == Some(f) && op in DeclsOf(code[i])
    ensures op in DeclsIn(code, n, f)
    decreases n
  {
    if i < n - 1 {
      InDecls(code, n - 1, f, i, op);
    }
  }

  /** Declarations pass through the formatting pass as they are. */
  lemma DeclaredStays(code: Code, t: nat, f: string, op: Operand)
    ensures op in DeclsIn(code, |code|, f) <==> op in DeclsIn(Whole(code, t), |Whole(code, t)|, f)
  {
    var whole := Whole(code, t);
    if op in DeclsIn(code, |code|, f) {
      var i := DeclaredIn(code, |code|, f, op);
      SingleThere(code, i, t);
      FnThere(code, i, t);
      InDecls(whole, |whole|, f, Pos(code, i, t), op);
    }
    if op in DeclsIn(whole, |whole|, f) {
      var j := DeclaredIn(whole, |whole|, f, op);
      var i := OwnerOf(code, t, j);
      FnThere(code, i, t);
      InDecls(code, |code|, f, i, op);
    }
  }

  // ----- frames -----

  /** The instructions of `f` name `op` only where they declare it; elsewhere they use its address. */
  ghost predicate OnlyDeclared(code: Code, f: string, op: Operand) {
    forall i {:trigger NamedAt(code, i, f, op)} :: 0 <= i < |code| && NamedAt(code, i, f, op) ==> op in DeclsOf(code[i])
  }

  /** What a function declares has a slot in its frame; and a structure or array that is used by address has
      one only if the function declares it. */
  lemma AddressedExactly(p: Program, sizes: Operand -> nat, f: string, op: Operand)
    ensures var source := TransProgram(p, 0, 0);
            var code := Whole(source.code, source.t);
            var slots := FrameOf(code, |code|, f, sizes).slots;
            && (op in DeclaresAll(p, f) ==> op in slots)
            && (HasSlot(op) && OnlyDeclared(code, f, op) ==> (op in slots <==> op in DeclaresAll(p, f)))
  {
    var source := TransProgram(p, 0, 0);
    var code := Whole(source.code, source.t);
    ProgramDeclares(p, 0, 0, f);
    DeclaredStays(source.code, source.t, f, op);
    if op in DeclsIn(code, |code|, f) {
      var i := DeclaredIn(code, |code|, f, op);
      FrameCovers(code, |code|, f, sizes, i, op);
    } else if HasSlot(op) && OnlyDeclared(code, f, op) {
      NotSlotted(code, f, sizes, op);
    }
  }

  lemma NotSlotted(code: Code, f: string, sizes: Operand -> nat, op: Operand)
    requires HasSlot(op) && OnlyDeclared(code, f, op) && op !in DeclsIn(code, |code|, f)
    ensures op !in FrameOf(code, |code|, f, sizes).slots
  {
    FrameExactly(code, |code|, f, sizes, op);
    if Named(code, |code|, f, op) {
      var i :| 0 <= i < |code| && NamedAt(code, i, f, op);
      InDecls(code, |code|, f, i, op);
    }
  }

  /** `s = s;` with a structure that is not declared: a name that stands for itself gets a slot. */
  function Undeclared(ty: Type): Program {
    var body := Seq(ExpStmt(Assign(Id("s"), Id("s"))), NoStmt);
    [Definition(Function("f", [], map["s" := ty], NoDec, body))]
  }

  lemma UndeclaredExp(g: Gamma)
    ensures TransExp(g, Assign(Id("s"), Id("s")), 0, 1, 0).code
         == [NULL, NULL, ASSIGN(Variable("s"), Variable("s")), ASSIGN(Temp(0), Variable("s"))]
  {
  }

  lemma UndeclaredFunction(ty: Type)
    ensures var code := TransFunction(Undeclared(ty)[0].fn, 0, 0).code;
            |code| > 4 && code[..5] == [FUNC("f"), NULL, NULL, NULL, ASSIGN(Variable("s"), Variable("s"))]
  {
    hide TransExp;
    UndeclaredExp(Undeclared(ty)[0].fn.vars);
    assert TransDecs(Undeclared(ty)[0].fn.vars, NoDec, 0, 0).code == [NULL];
  }

  lemma UndeclaredCode(ty: Type)
    ensures var code := TransProgram(Undeclared(ty), 0, 0).code;
            |code| > 4 && code[4] == ASSIGN(Variable("s"), Variable("s")) && FnAt(code, 4) == Some("f")
  {
    hide TransFunction;
    UndeclaredFunction(ty);
    var head := TransFunction(Undeclared(ty)[0].fn, 0, 0).code;
    var code := TransProgram(Undeclared(ty), 0, 0).code;
    assert code[..5] == head[..5];
    BelongsTo(code, 0, 4, "f");
  }

  lemma UndeclaredExample(ty: Type, sizes: Operand -> nat)
    ensures var source := TransProgram(Undeclared(ty), 0, 0);
            var code := Whole(source.code, source.t);
            Variable("s") in FrameOf(code, |code|, "f", sizes).slots
            && Variable("s") !in DeclaresAll(Undeclared(ty), "f")
  {
    hide TransProgram, FnAt;
    var source := TransProgram(Undeclared(ty), 0, 0);
    var code, t := source.code, source.t;
    UndeclaredCode(ty);
    PieceThere(code, 4, t);
    FnThere(code, 4, t);
    assert PieceAt(code, 4, t) == [code[4]];
    assert Whole(code, t)[Pos(code, 4, t)..Pos(code, 4, t) + 1][0] == code[4];
    FrameCovers(Whole(code, t), |Whole(code, t)|, "f", sizes, Pos(code, 4, t), Variable("s"));
  }
}
