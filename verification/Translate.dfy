/** The syntax-directed translation of C-- into three-address code. The counters of
    temporaries and labels are threaded through as `t` and `l`. */
module Translate {
  import opened Common
  import opened Syntax
  import opened Layout
  import opened Ir

  /** Code for an expression; `op` stands for its value and may name a variable
      (`Variable`) or a memory cell (`GetVal`) that is to be read later. */
  datatype ExpCode = ExpCode(code: Code, op: Operand, ty: Option<Type>, t: nat, l: nat)

  datatype StmtCode = StmtCode(code: Code, t: nat, l: nat)

  /** Brings an operand that touches memory into a fresh temporary first. */
  function Fetch(op: Operand, t: nat): (Code, Operand, nat) {
    if IsMemOp(op) then ([ASSIGN(Temp(t), op)], Temp(t), t + 1) else ([], op, t)
  }

  function Arithmetic(op: ArithOp, dst: Operand, src1: Operand, src2: Operand, t: nat): (o: (Code, nat))
    ensures t <= o.1
  {
    var (code1, actual1, t1) := Fetch(src1, t);
    var (code2, actual2, t2) := Fetch(src2, t1);
    (code1 + code2 + [ARITH(op, dst, actual1, actual2)], t2)
  }

  /** An operand of such a type holds an address already. */
  predicate IsRef(ty: Option<Type>) {
    ty.Some? && ty.value.Ref?
  }

  /** The type of what an operand stands for. */
  function Pointee(ty: Type): Type {
    if ty.Ref? then ty.target else ty
  }

  /** The address of a structure or array operand. */
  function AddressOf(op: Operand, ty: Option<Type>): Operand {
    if op.GetVal? then op.opr else if IsRef(ty) then op else GetAddr(op)
  }

  /** Structures and arrays are passed by address. */
  function HandleAddress(op: Operand, ty: Option<Type>): Operand {
    if ty.Some? && !ty.value.Int? then AddressOf(op, ty) else op
  }

  /** An index is taken for the constant 0 when the word that an operand shares between
      its number and its value is zero. */
  predicate IsZeroWord(op: Operand) {
    op == Const(0) || op == Temp(0)
  }

  function ElemType(ty: Option<Type>): Type {
    if ty.Some? && Pointee(ty.value).Array? then Pointee(ty.value).elem else Int
  }

  function MemberOf(ty: Option<Type>, name: string): (nat, Option<Type>) {
    if ty.None? || !Pointee(ty.value).Struct? then (0, None)
    else
      var members := Pointee(ty.value).members;
      match FindField(members, name)
      case Some((offset, part)) => (offset, Some(part))
      case None => (SizeOfFields(members), None)
  }

  /** The cell at `addr`; an address that is not yet in a temporary is put into one. */
  function Deref(code: Code, addr: Operand, ty: Option<Type>, t: nat, l: nat): ExpCode {
    if addr.GetAddr?
    then ExpCode(code + [ASSIGN(Temp(t), addr)], GetVal(Temp(t)), ty, t + 1, l)
    else ExpCode(code, GetVal(addr), ty, t, l)
  }

  /** The member `name` of the structure that `a` stands for. */
  function MemberCode(a: ExpCode, name: string): (o: ExpCode)
    ensures a.t <= o.t && o.l == a.l
  {
    var (offset, part) := MemberOf(a.ty, name);
    if offset == 0 then Deref(a.code, AddressOf(a.op, a.ty), part, a.t, a.l)
    else
      var (code, t') := Arithmetic(Plus, Temp(a.t), AddressOf(a.op, a.ty), Const(offset), a.t + 1);
      ExpCode(a.code + code, GetVal(Temp(a.t)), part, t', a.l)
  }

  /** Element `i` of the array that `a` stands for; temporary `scaled` receives the distance. */
  function ElementCode(a: ExpCode, i: ExpCode, scaled: nat): (o: ExpCode)
    ensures i.t <= o.t && o.l == i.l
  {
    var elem := ElemType(a.ty);
    if IsZeroWord(i.op) then Deref(a.code + i.code, AddressOf(a.op, a.ty), Some(elem), i.t, i.l)
    else
      var (code3, t3) := Arithmetic(Star, Temp(scaled), i.op, Const(SizeOf(elem)), i.t + 1);
      var (code4, t4) := Arithmetic(Plus, Temp(i.t), AddressOf(a.op, a.ty), Temp(scaled), t3);
      ExpCode(a.code + i.code + code3 + code4, GetVal(Temp(i.t)), Some(elem), t4, i.l)
  }

  function TransExp(g: Gamma, e: Exp, place: nat, t: nat, l: nat): (o: ExpCode)
    ensures t <= o.t && l <= o.l
    decreases e, if IsLogical(e) then 2 else 0
  {
    match e
    case Assign(left, right) =>
      var a := TransExp(g, left, t, t + 2, l);
      var b := TransExp(g, right, t + 1, a.t, a.l);
      ExpCode(a.code + b.code + [ASSIGN(a.op, b.op), ASSIGN(Temp(place), a.op)], Temp(place), None, b.t, b.l)
    case Arith(op, left, right) =>
      var a := TransExp(g, left, t, t + 2, l);
      var b := TransExp(g, right, t + 1, a.t, a.l);
      var (code, t') := Arithmetic(op, Temp(place), a.op, b.op, b.t);
      ExpCode(a.code + b.code + code, Temp(place), None, t', b.l)
    case Paren(arg) => TransExp(g, arg, place, t, l)
    case Neg(arg) =>
      var a := TransExp(g, arg, t, t + 1, l);
      var (code, t') := Arithmetic(Minus, Temp(place), Const(0), a.op, a.t);
      ExpCode(a.code + code, Temp(place), None, t', a.l)
    case Call(f, args) =>
      var a := TransArgs(g, args, t, l);
      ExpCode(a.code + [CALL(Temp(place), f)], Temp(place), None, a.t, a.l)
    case Read => ExpCode([READ(Temp(place))], Temp(place), None, t, l)
    case Write(arg) =>
      var a := TransExp(g, arg, t, t + 1, l);
      ExpCode(a.code + [WRITE(a.op)], Temp(place), None, a.t, a.l)
    case Index(base, index) =>
      var a := TransExp(g, base, t, t + 3, l);
      var i := TransExp(g, index, t + 1, a.t, a.l);
      ElementCode(a, i, t + 2)
    case Dot(base, member) =>
      MemberCode(TransExp(g, base, t, t + 1, l), member)
    case Id(x) => ExpCode([NULL], Variable(x), if x in g then Some(g[x]) else None, t, l)
    case Lit(n) => ExpCode([NULL], Const(n), None, t, l)
    case _ =>
      var c := TransCondition(g, e, l, l + 1, t, l + 2);
      ExpCode([ASSIGN(Temp(place), Const(0))] + c.code + [LABEL(l), ASSIGN(Temp(place), Const(1)), LABEL(l + 1)],
              Temp(place), None, c.t, c.l)
  }

  /** Code that jumps to `yes` when the condition holds and to `no` otherwise. */
  function TransCondition(g: Gamma, e: Exp, yes: nat, no: nat, t: nat, l: nat): (o: StmtCode)
    ensures t <= o.t && l <= o.l
    decreases e, 1
  {
    match e
    case Not(arg) => TransCondition(g, arg, no, yes, t, l)
    case Rel(op, left, right) =>
      var a := TransExp(g, left, t, t + 2, l);
      var b := TransExp(g, right, t + 1, a.t, a.l);
      StmtCode(a.code + b.code + [IF_GOTO(op, a.op, b.op, yes), GOTO(no)], b.t, b.l)
    case And(left, right) =>
      var a := TransCondition(g, left, l, no, t, l + 1);
      var b := TransCondition(g, right, yes, no, a.t, a.l);
      StmtCode(a.code + [LABEL(l)] + b.code, b.t, b.l)
    case Or(left, right) =>
      var a := TransCondition(g, left, yes, l, t, l + 1);
      var b := TransCondition(g, right, yes, no, a.t, a.l);
      StmtCode(a.code + [LABEL(l)] + b.code, b.t, b.l)
    case _ =>
      var a := TransExp(g, e, t, t + 1, l);
      StmtCode(a.code + [IF_GOTO(Ne, a.op, Const(0), yes), GOTO(no)], a.t, a.l)
  }

  /** Code that evaluates the arguments left to right and then queues them right to left. */
  function TransArgs(g: Gamma, args: Args, t: nat, l: nat): (o: StmtCode)
    ensures t <= o.t && l <= o.l
    decreases args
  {
    match args
    case NoArg => StmtCode([], t, l)
    case Arg(first, rest) =>
      var a := TransExp(g, first, t, t + 1, l);
      var b := TransArgs(g, rest, a.t, a.l);
      StmtCode(a.code + b.code + [ARG(HandleAddress(a.op, a.ty))], b.t, b.l)
  }

  function TransDecs(g: Gamma, decs: Decs, t: nat, l: nat): (o: StmtCode)
    ensures t <= o.t && l <= o.l
    decreases decs
  {
    match decs
    case NoDec => StmtCode([NULL], t, l)
    case Dec(x, ty, init, rest) =>
      var head := if ty.Int? then NULL else DEC(x, SizeOf(ty));
      if init.None? then
        var b := TransDecs(g, rest, t, l);
        StmtCode([head] + b.code, b.t, b.l)
      else
        var a := TransExp(g, init.value, t, t + 1, l);
        var b := TransDecs(g, rest, a.t, a.l);
        StmtCode([head] + a.code + [ASSIGN(Variable(x), a.op)] + b.code, b.t, b.l)
  }

  function TransStmts(g: Gamma, body: Stmts, t: nat, l: nat): (o: StmtCode)
    ensures t <= o.t && l <= o.l
    decreases body
  {
    match body
    case NoStmt => StmtCode([NULL], t, l)
    case Seq(first, rest) =>
      var a := TransStmt(g, first, t, l);
      var b := TransStmts(g, rest, a.t, a.l);
      StmtCode(a.code + b.code, b.t, b.l)
  }

  function TransStmt(g: Gamma, st: Stmt, t: nat, l: nat): (o: StmtCode)
    ensures t <= o.t && l <= o.l
    decreases st
  {
    match st
    case ExpStmt(e) =>
      var a := TransExp(g, e, t, t + 1, l);
      StmtCode(a.code, a.t, a.l)
    case Block(decs, body) =>
      var a := TransDecs(g, decs, t, l);
      var b := TransStmts(g, body, a.t, a.l);
      StmtCode(a.code + b.code, b.t, b.l)
    case Return(e) =>
      var a := TransExp(g, e, t, t + 1, l);
      StmtCode(a.code + [RETURN(a.op)], a.t, a.l)
    case While(cond, body) =>
      var c := TransCondition(g, cond, l + 1, l + 2, t, l + 3);
      var b := TransStmt(g, body, c.t, c.l);
      StmtCode([LABEL(l)] + c.code + [LABEL(l + 1)] + b.code + [GOTO(l), LABEL(l + 2)], b.t, b.l)
    case If(cond, thn) =>
      var c := TransCondition(g, cond, l, l + 1, t, l + 2);
      var a := TransStmt(g, thn, c.t, c.l);
      StmtCode(c.code + [LABEL(l)] + a.code + [LABEL(l + 1)], a.t, a.l)
    case IfElse(cond, thn, els) =>
      var c := TransCondition(g, cond, l, l + 1, t, l + 3);
      var a := TransStmt(g, thn, c.t, c.l);
      var b := TransStmt(g, els, a.t, a.l);
      StmtCode(c.code + [LABEL(l)] + a.code + [GOTO(l + 2), LABEL(l + 1)] + b.code + [LABEL(l + 2)], b.t, b.l)
  }

  function TransParams(params: seq<string>): Code {
    if params == [] then [] else [PARAM(params[0])] + TransParams(params[1..])
  }

  function TransBody(fn: Function, t: nat, l: nat): (o: StmtCode)
    ensures t <= o.t && l <= o.l
  {
    var a := TransDecs(fn.vars, fn.decs, t, l);
    var b := TransStmts(fn.vars, fn.body, a.t, a.l);
    StmtCode(a.code + b.code, b.t, b.l)
  }

  function TransFunction(fn: Function, t: nat, l: nat): (o: StmtCode)
    ensures t <= o.t && l <= o.l
  {
    var a := TransBody(fn, t, l);
    StmtCode([FUNC(fn.name)] + TransParams(fn.params) + a.code, a.t, a.l)
  }

  function TransProgram(p: Program, t: nat, l: nat): (o: StmtCode)
    ensures t <= o.t && l <= o.l
  {
    if p == [] then StmtCode([NULL], t, l)
    else
      var a := if p[0].Declaration? then StmtCode([NULL], t, l) else TransFunction(p[0].fn, t, l);
      var b := TransProgram(p[1..], a.t, a.l);
      StmtCode(a.code + b.code, b.t, b.l)
  }
}
