/** What a C-- program means. Operands are read when their operator runs: an
    expression that names an object yields the object, not its value. */
module Source {
  import opened Common
  import opened Syntax
  import opened Layout

  /** A declared structure or array: a variable of one activation. */
  datatype Obj = Obj(home: Home, ty: Type)

  /** A part of a structure or array, or all of it. */
  datatype Loc = Loc(obj: Obj, path: Path)

  datatype Place =
    | Named(name: string)
    | At(loc: Loc)
    | Val(value: int)
    | NoValue

  /** The state of the running activation: its integer variables, the objects that its reference
      parameters stand for, and the number of activations that wait for it; shared by all activations,
      the objects declared so far that are still alive, their scalar parts that have a value, and the console. */
  datatype Store = Store(vars: map<string, int>, refs: map<string, Loc>, depth: nat,
                         declared: set<Obj>, parts: map<Loc, int>, io: Console)

  /** What a call passes: an integer, or a structure by reference. */
  datatype Argument = Number(value: int) | Object(loc: Loc)

  datatype Outcome =
    | Normal(store: Store)
    | Returned(value: int, store: Store)

  function PartAt(loc: Loc): Option<(nat, Type)> {
    Follow(loc.obj.ty, loc.path)
  }

  predicate IsScalar(loc: Loc) {
    PartAt(loc).Some? && PartAt(loc).value.1.Int?
  }

  /** The structure or array that a place stands for. */
  function Denoted(g: Gamma, s: Store, pl: Place): Option<Loc> {
    match pl
    case Named(x) =>
      if x !in g then None
      else if !g[x].Ref? then Some(Loc(Obj(Home(s.depth, x), g[x]), []))
      else if x in s.refs then Some(s.refs[x])
      else None
    case At(loc) => Some(loc)
    case _ => None
  }

  /** A structure or array can be taken apart once its declaration has run. */
  function Part(g: Gamma, s: Store, pl: Place, sel: Selector): Option<Loc> {
    var loc :- Denoted(g, s, pl);
    var deeper := Loc(loc.obj, loc.path + [sel]);
    if loc.obj in s.declared && PartAt(deeper).Some? then Some(deeper) else None
  }

  function ReadPlace(s: Store, pl: Place): Option<int> {
    match pl
    case Named(x) => if x in s.vars then Some(s.vars[x]) else None
    case At(loc) => if loc in s.parts then Some(s.parts[loc]) else None
    case Val(v) => Some(v)
    case NoValue => None
  }

  function WritePlace(g: Gamma, s: Store, pl: Place, v: int): Option<Store> {
    match pl
    case Named(x) => if x in g && g[x].Int? then Some(s.(vars := s.vars[x := v])) else None
    case At(loc) =>
      if IsScalar(loc) && loc.obj in s.declared then Some(s.(parts := s.parts[loc := v])) else None
    case _ => None
  }

  /** Integers are passed by value, structures by reference. */
  function Pass(g: Gamma, s: Store, pl: Place): Option<Argument> {
    match ReadPlace(s, pl)
    case Some(v) => Some(Number(v))
    case None =>
      var loc :- Denoted(g, s, pl);
      if loc.obj in s.declared && PartAt(loc).Some? && PartAt(loc).value.1.Struct? then Some(Object(loc)) else None
  }

  function PassAll(g: Gamma, s: Store, ps: seq<Place>): Option<seq<Argument>> {
    if ps == [] then Some([])
    else
      var first :- Pass(g, s, ps[0]);
      var rest :- PassAll(g, s, ps[1..]);
      Some([first] + rest)
  }

  /** A declared name starts without a value. */
  function Declare(g: Gamma, s: Store, x: string, t: Type): Option<Store> {
    if x !in g || g[x] != t || t.Ref? || !OneDimensional(t) then None
    else if t.Int? then Some(s.(vars := s.vars - {x}))
    else
      var obj := Obj(Home(s.depth, x), t);
      var parts := map loc | loc in s.parts && loc.obj != obj :: s.parts[loc];
      Some(s.(parts := parts, declared := s.declared + {obj}))
  }

  /** The store a program starts with. */
  function FirstStore(input: seq<int>): Store {
    Store(map[], map[], 0, {}, map[], Console(input, []))
  }

  /** The arguments suit the parameters. */
  predicate Accepts(g: Gamma, params: seq<string>, args: seq<Argument>) {
    |params| == |args| && forall i :: 0 <= i < |params| ==> params[i] in g && Suits(g[params[i]], args[i])
  }

  predicate Suits(t: Type, arg: Argument) {
    match arg
    case Number(_) => t.Int?
    case Object(loc) => PartAt(loc).Some? && t == Ref(PartAt(loc).value.1)
  }

  /** The store a callee starts with, when it is called in `s`. */
  function Entered(params: seq<string>, args: seq<Argument>, s: Store): Store
    requires |params| == |args|
  {
    s.(vars := BindVars(params, args), refs := BindRefs(params, args), depth := s.depth + 1)
  }

  /** A repeated name keeps the last value. */
  function BindVars(params: seq<string>, args: seq<Argument>): map<string, int>
    requires |params| == |args|
  {
    if params == [] then map[]
    else
      var n := |params| - 1;
      var vars := BindVars(params[..n], args[..n]);
      if args[n].Number? then vars[params[n] := args[n].value] else vars
  }

  function BindRefs(params: seq<string>, args: seq<Argument>): map<string, Loc>
    requires |params| == |args|
  {
    if params == [] then map[]
    else
      var n := |params| - 1;
      var refs := BindRefs(params[..n], args[..n]);
      if args[n].Object? then refs[params[n] := args[n].loc] else refs
  }

  /** The caller's store when its callee has come back with `s'`: what the callee did to the caller's
      objects stays, its own are gone. */
  function Back(s: Store, s': Store): Store {
    var parts := map loc | loc in s'.parts && IsScalar(loc) && loc.obj in s.declared :: s'.parts[loc];
    s.(parts := parts, io := s'.io)
  }

  /** `fuel` bounds the nesting of calls and the number of loop rounds; `None` means
      that it ran out or that C leaves the behaviour undefined. */
  function Eval(p: Program, g: Gamma, e: Exp, s: Store, fuel: nat): Option<(Place, Store)>
    decreases fuel, e, if IsLogical(e) then 2 else 0
  {
    match e
    case Assign(left, right) =>
      var (target, s1) :- Eval(p, g, left, s, fuel);
      var (source, s2) :- Eval(p, g, right, s1, fuel);
      var v :- ReadPlace(s2, source);
      var s3 :- WritePlace(g, s2, target, v);
      Some((Val(v), s3))
    case Arith(op, left, right) =>
      var (p1, s1) :- Eval(p, g, left, s, fuel);
      var (p2, s2) :- Eval(p, g, right, s1, fuel);
      var a :- ReadPlace(s2, p1);
      var b :- ReadPlace(s2, p2);
      var v :- Compute(op, a, b);
      Some((Val(v), s2))
    case Paren(arg) => Eval(p, g, arg, s, fuel)
    case Neg(arg) =>
      var (p1, s1) :- Eval(p, g, arg, s, fuel);
      var a :- ReadPlace(s1, p1);
      var v :- Compute(Minus, 0, a);
      Some((Val(v), s1))
    case Call(f, args) =>
      var (places, s1) :- EvalArgs(p, g, args, s, fuel);
      var vs :- PassAll(g, s1, places);
      var fn :- FindFunction(p, f);
      if fuel == 0 || !Accepts(fn.vars, fn.params, vs) then None
      else
        var out :- ExecBody(p, fn, Entered(fn.params, vs, s1), fuel - 1);
        if out.Returned? then Some((Val(out.value), Back(s1, out.store))) else None
    case Read =>
      if s.io.input == [] || !IsInt32(s.io.input[0]) then None else Some((Val(s.io.input[0]), s.(io := s.io.Read())))
    case Write(arg) =>
      var (p1, s1) :- Eval(p, g, arg, s, fuel);
      var v :- ReadPlace(s1, p1);
      Some((NoValue, s1.(io := s1.io.Write(v))))
    case Index(base, index) =>
      var (p1, s1) :- Eval(p, g, base, s, fuel);
      var (p2, s2) :- Eval(p, g, index, s1, fuel);
      var i :- ReadPlace(s2, p2);
      if i >= 0 then
        var loc :- Part(g, s2, p1, Element(i));
        Some((At(loc), s2))
      else None
    case Dot(base, member) =>
      var (p1, s1) :- Eval(p, g, base, s, fuel);
      var loc :- Part(g, s1, p1, Member(member));
      Some((At(loc), s1))
    case Id(x) => if x in g then Some((Named(x), s)) else None
    case Lit(n) => if IsInt32(n) then Some((Val(n), s)) else None
    case _ =>
      // a condition used as a value is 1 or 0
      var (holds, s1) :- Holds(p, g, e, s, fuel);
      Some((Val(if holds then 1 else 0), s1))
  }

  /** Whether a condition holds; the right side of `&&` and `||` runs only when the left leaves it open. */
  function Holds(p: Program, g: Gamma, e: Exp, s: Store, fuel: nat): Option<(bool, Store)>
    decreases fuel, e, 1
  {
    match e
    case Not(arg) =>
      var (holds, s1) :- Holds(p, g, arg, s, fuel);
      Some((!holds, s1))
    case Rel(op, left, right) =>
      var (p1, s1) :- Eval(p, g, left, s, fuel);
      var (p2, s2) :- Eval(p, g, right, s1, fuel);
      var a :- ReadPlace(s2, p1);
      var b :- ReadPlace(s2, p2);
      Some((Compare(op, a, b), s2))
    case And(left, right) =>
      var (holds, s1) :- Holds(p, g, left, s, fuel);
      if holds then Holds(p, g, right, s1, fuel) else Some((false, s1))
    case Or(left, right) =>
      var (holds, s1) :- Holds(p, g, left, s, fuel);
      if holds then Some((true, s1)) else Holds(p, g, right, s1, fuel)
    case _ =>
      var (p1, s1) :- Eval(p, g, e, s, fuel);
      var v :- ReadPlace(s1, p1);
      Some((v != 0, s1))
  }

  function EvalArgs(p: Program, g: Gamma, args: Args, s: Store, fuel: nat): Option<(seq<Place>, Store)>
    decreases fuel, args
  {
    match args
    case NoArg => Some(([], s))
    case Arg(first, rest) =>
      var (p1, s1) :- Eval(p, g, first, s, fuel);
      var (ps, s2) :- EvalArgs(p, g, rest, s1, fuel);
      Some(([p1] + ps, s2))
  }

  function ExecBody(p: Program, fn: Function, s: Store, fuel: nat): Option<Outcome>
    decreases fuel, fn
  {
    var s1 :- ExecDecs(p, fn.vars, fn.decs, s, fuel);
    ExecAll(p, fn.vars, fn.body, s1, fuel)
  }

  function ExecDecs(p: Program, g: Gamma, decs: Decs, s: Store, fuel: nat): Option<Store>
    decreases fuel, decs
  {
    match decs
    case NoDec => Some(s)
    case Dec(x, t, init, rest) =>
      var s1 :- Declare(g, s, x, t);
      if init.None? then ExecDecs(p, g, rest, s1, fuel)
      else
        var (source, s2) :- Eval(p, g, init.value, s1, fuel);
        var v :- ReadPlace(s2, source);
        var s3 :- WritePlace(g, s2, Named(x), v);
        ExecDecs(p, g, rest, s3, fuel)
  }

  function ExecAll(p: Program, g: Gamma, body: Stmts, s: Store, fuel: nat): Option<Outcome>
    decreases fuel, body
  {
    match body
    case NoStmt => Some(Normal(s))
    case Seq(first, rest) =>
      var out :- Exec(p, g, first, s, fuel);
      if out.Normal? then ExecAll(p, g, rest, out.store, fuel) else Some(out)
  }

  function Exec(p: Program, g: Gamma, st: Stmt, s: Store, fuel: nat): Option<Outcome>
    decreases fuel, st
  {
    match st
    case ExpStmt(e) =>
      var (_, s1) :- Eval(p, g, e, s, fuel);
      Some(Normal(s1))
    case Block(decs, body) =>
      var s1 :- ExecDecs(p, g, decs, s, fuel);
      ExecAll(p, g, body, s1, fuel)
    case Return(e) =>
      var (source, s1) :- Eval(p, g, e, s, fuel);
      var v :- ReadPlace(s1, source);
      Some(Returned(v, s1))
    case While(cond, body) =>
      var (holds, s1) :- Holds(p, g, cond, s, fuel);
      if !holds then Some(Normal(s1))
      else
        var out :- Exec(p, g, body, s1, fuel);
        if out.Returned? then Some(out)
        else if fuel == 0 then None
        else Exec(p, g, st, out.store, fuel - 1)
    case If(cond, thn) =>
      var (holds, s1) :- Holds(p, g, cond, s, fuel);
      if holds then Exec(p, g, thn, s1, fuel) else Some(Normal(s1))
    case IfElse(cond, thn, els) =>
      var (holds, s1) :- Holds(p, g, cond, s, fuel);
      Exec(p, g, if holds then thn else els, s1, fuel)
  }

  /** A whole program: `main` without arguments. */
  function Run(p: Program, input: seq<int>, fuel: nat): Option<(int, Console)> {
    var fn :- FindFunction(p, "main");
    if fn.params != [] then None
    else
      var out :- ExecBody(p, fn, FirstStore(input), fuel);
      if out.Returned? then Some((out.value, out.store.io)) else None
  }
}
