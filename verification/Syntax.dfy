/** The abstract syntax of C--: what the parser hands to the translator. */
module Syntax {
  import opened Common

  datatype Type =
    | Int
    | Array(elem: Type, length: nat)
    | Struct(name: string, members: Fields)
    // the type of a parameter that holds the address of a `target`
    | Ref(target: Type)

  /** A structure's members, in declaration order. */
  datatype Fields =
    | NoField
    | Field(name: string, ftype: Type, rest: Fields)

  /** No array of arrays: the compiler generates no code for those. */
  predicate OneDimensional(t: Type) {
    match t
    case Int => true
    case Array(elem, _) => !elem.Array? && OneDimensional(elem)
    case Struct(_, members) => OneDimensionalFields(members)
    case Ref(target) => OneDimensional(target)
  }

  predicate OneDimensionalFields(fs: Fields) {
    fs.Field? ==> OneDimensional(fs.ftype) && OneDimensionalFields(fs.rest)
  }

  datatype ArithOp = Plus | Minus | Star | Div

  datatype Relop = Eq | Ne | Gt | Lt | Ge | Le

  datatype Exp =
    | Assign(left: Exp, right: Exp)
    | And(left: Exp, right: Exp)
    | Or(left: Exp, right: Exp)
    | Rel(relop: Relop, left: Exp, right: Exp)
    | Not(arg: Exp)
    | Arith(op: ArithOp, left: Exp, right: Exp)
    | Paren(arg: Exp)
    | Neg(arg: Exp)
    | Call(func: string, args: Args)
    | Read
    | Write(arg: Exp)
    | Index(base: Exp, index: Exp)
    | Dot(base: Exp, member: string)
    | Id(name: string)
    | Lit(value: int)

  datatype Args =
    | NoArg
    | Arg(first: Exp, rest: Args)

  datatype Stmt =
    | ExpStmt(exp: Exp)
    | Block(decs: Decs, body: Stmts)
    | Return(exp: Exp)
    | While(cond: Exp, body1: Stmt)
    | If(cond: Exp, thn: Stmt)
    | IfElse(cond: Exp, thn: Stmt, els: Stmt)

  datatype Stmts =
    | NoStmt
    | Seq(first: Stmt, rest: Stmts)

  /** Local declarations, each with its optional initialiser. */
  datatype Decs =
    | NoDec
    | Dec(name: string, dtype: Type, init: Option<Exp>, rest: Decs)

  /** What the symbol table knows about the names visible in a function. */
  type Gamma = map<string, Type>

  datatype Function = Function(name: string, params: seq<string>, vars: Gamma, decs: Decs, body: Stmts)

  /** An external definition: a function, or a declaration that yields no code. */
  datatype ExtDef = Declaration | Definition(fn: Function)

  type Program = seq<ExtDef>

  /** The operators whose code is made of jumps. */
  predicate IsLogical(e: Exp) {
    e.And? || e.Or? || e.Rel? || e.Not?
  }

  /** The function a call of `f` reaches: the first of that name. */
  function FindFunction(p: Program, f: string): Option<Function> {
    if p == [] then None
    else if p[0].Definition? && p[0].fn.name == f then Some(p[0].fn)
    else FindFunction(p[1..], f)
  }

  /** Arithmetic that C defines: no overflow, no division by zero (section 6.5 of ISO/IEC 9899:1999). */
  function Compute(op: ArithOp, a: int, b: int): (r: Option<int>) {
    match op
    case Plus => Defined(a + b)
    case Minus => Defined(a - b)
    case Star => Defined(a * b)
    case Div => if b == 0 then None else Defined(TruncDiv(a, b))
  }

  function Defined(n: int): Option<int> {
    if IsInt32(n) then Some(n) else None
  }

  /** What a comparison says, by the sign of the difference. */
  lemma CompareSign(a: int, b: int)
    ensures Compare(Lt, a, b) <==> b - a > 0
    ensures Compare(Gt, a, b) <==> Compare(Lt, b, a)
    ensures Compare(Ge, a, b) <==> !Compare(Lt, a, b)
    ensures Compare(Le, a, b) <==> !Compare(Gt, a, b)
    ensures Compare(Eq, a, b) <==> !Compare(Lt, a, b) && !Compare(Gt, a, b)
    ensures Compare(Ne, a, b) <==> !Compare(Eq, a, b)
  {
  }

  predicate Compare(op: Relop, a: int, b: int) {
    match op
    case Eq => a == b
    case Ne => a != b
    case Gt => a > b
    case Lt => a < b
    case Ge => a >= b
    case Le => a <= b
  }
}
