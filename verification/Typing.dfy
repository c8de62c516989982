/** What the type checker accepts, by a typing judgement, and which expressions its errors belong to. */
module Typing {
  import opened Common
  import opened Syntax
  import opened Layout
  import opened Translate
  import opened TypeCheck

  // ----- the judgement -----

  /** The first member called `name` of a structure is a `t`. */
  predicate MemberHas(s: Type, name: string, t: Type) {
    s.Struct? && FieldHas(s.members, name, t)
  }

  predicate FieldHas(fs: Fields, name: string, t: Type) {
    fs.Field? && if fs.name == name then fs.ftype == t else FieldHas(fs.rest, name, t)
  }

  /** `e` is an expression of type `t`. */
  ghost predicate HasType(rules: Rules, g: Gamma, e: Exp, t: Type)
    decreases e, 0
  {
    match e
    case Id(x) => x in g && t == Pointee(g[x])
    case Lit(_) => t == Int
    case Read => t == Int
    case Write(arg) => t == Int && HasType(rules, g, arg, Int)
    case Paren(arg) => HasType(rules, g, arg, t)
    case Neg(arg) => t == Int && HasType(rules, g, arg, Int)
    case Not(arg) => t == Int && HasType(rules, g, arg, Int)
    case And(left, right) => t == Int && HasType(rules, g, left, Int) && HasType(rules, g, right, Int)
    case Or(left, right) => t == Int && HasType(rules, g, left, Int) && HasType(rules, g, right, Int)
    case Rel(_, left, right) => t == Int && HasType(rules, g, left, Int) && HasType(rules, g, right, Int)
    case Arith(_, left, right) => t == Int && HasType(rules, g, left, Int) && HasType(rules, g, right, Int)
    case Assign(left, right) =>
      (left.Id? || left.Dot? || left.Index?) && HasType(rules, g, left, t) && Yields(rules, g, right, t)
    case Dot(base, name) => OwnsMember(rules, g, base, name, t)
    case Index(base, index) =>
      HasType(rules, g, index, Int) && exists s :: HasType(rules, g, base, s) && s.Array? && s.elem == t
    case Call(f, args) => t == Int && f !in g && f in rules.params && ArgsHave(rules, g, args, rules.params[f])
  }

  /** There is one argument for each parameter, of a type like the parameter's. */
  ghost predicate ArgsHave(rules: Rules, g: Gamma, args: Args, params: seq<Type>)
    decreases args
  {
    match args
    case NoArg => params == []
    case Arg(first, rest) =>
      && params != [] && Passes(rules, g, first, params[0]) && ArgsHave(rules, g, rest, params[1..])
  }

  ghost predicate Yields(rules: Rules, g: Gamma, right: Exp, t: Type)
    decreases right, 1
  {
    exists u :: HasType(rules, g, right, u) && Alike(t, u)
  }

  ghost predicate OwnsMember(rules: Rules, g: Gamma, base: Exp, name: string, t: Type)
    decreases base, 1
  {
    exists s :: HasType(rules, g, base, s) && MemberHas(s, name, t)
  }

  ghost predicate Passes(rules: Rules, g: Gamma, arg: Exp, param: Type)
    decreases arg, 1
  {
    exists u :: HasType(rules, g, arg, u) && Alike(u, param)
  }

  // ----- going on after errors -----

  /** The checker goes on as if `e` were a `t`; without a `t` it stops asking about what contains `e`. */
  ghost predicate TakenFor(rules: Rules, g: Gamma, e: Exp, t: Type)
    decreases e, 0
  {
    match e
    case Id(x) => x in g && t == Pointee(g[x])
    case Lit(_) => t == Int
    case Read => t == Int
    case Write(_) => t == Int
    case Paren(arg) => TakenFor(rules, g, arg, t)
    case Neg(arg) => t == Int && TakenFor(rules, g, arg, Int)
    case Not(arg) => t == Int && TakenFor(rules, g, arg, Int)
    case And(left, right) => t == Int && TakenFor(rules, g, left, Int) && TakenFor(rules, g, right, Int)
    case Or(left, right) => t == Int && TakenFor(rules, g, left, Int) && TakenFor(rules, g, right, Int)
    case Rel(_, left, right) => t == Int && TakenFor(rules, g, left, Int) && TakenFor(rules, g, right, Int)
    case Arith(_, left, right) => t == Int && TakenFor(rules, g, left, Int) && TakenFor(rules, g, right, Int)
    case Assign(left, right) =>
      IsLvalue(left) && TakenFor(rules, g, left, t) && forall u :: TakenFor(rules, g, right, u) ==> Alike(t, u)
    case Dot(base, name) => exists s :: TakenFor(rules, g, base, s) && MemberHas(s, name, t)
    case Index(base, index) =>
      HasSome(rules, g, index) && TakenAsArray(rules, g, base, t)
    case Call(f, _) => t == Int && Callable(rules, g, f)
  }

  ghost predicate HasSome(rules: Rules, g: Gamma, index: Exp)
    decreases index, 1
  {
    exists u :: TakenFor(rules, g, index, u)
  }

  ghost predicate TakenAsArray(rules: Rules, g: Gamma, base: Exp, t: Type)
    decreases base, 1
  {
    exists s :: TakenFor(rules, g, base, s) && s.Array? && s.elem == t
  }

  /** Something is wrong with `e` itself, not just with a part of it. */
  ghost predicate AtFault(rules: Rules, g: Gamma, e: Exp) {
    match e
    case Id(x) => x !in g
    case Lit(_) => false
    case Read => false
    case Paren(_) => false
    case Write(arg) => NoInt(rules, g, arg)
    case Neg(arg) => NoInt(rules, g, arg)
    case Not(arg) => NoInt(rules, g, arg)
    case And(left, right) => Unfit(rules, g, left, right)
    case Or(left, right) => Unfit(rules, g, left, right)
    case Rel(_, left, right) => Unfit(rules, g, left, right)
    case Arith(_, left, right) => Unfit(rules, g, left, right)
    case Assign(left, right) =>
      !IsLvalue(left) || exists t, u :: TakenFor(rules, g, left, t) && TakenFor(rules, g, right, u) && !Alike(t, u)
    case Dot(base, name) => exists s :: TakenFor(rules, g, base, s) && forall t :: !MemberHas(s, name, t)
    case Index(base, index) =>
      exists s, u :: TakenFor(rules, g, base, s) && TakenFor(rules, g, index, u) && !(s.Array? && u == Int)
    case Call(f, args) => !Callable(rules, g, f) || !MayFit(rules, g, args, rules.params[f])
  }

  ghost predicate NoInt(rules: Rules, g: Gamma, arg: Exp) {
    exists u :: TakenFor(rules, g, arg, u) && u != Int
  }

  ghost predicate Unfit(rules: Rules, g: Gamma, left: Exp, right: Exp) {
    exists t, u :: TakenFor(rules, g, left, t) && TakenFor(rules, g, right, u) && !(t == Int && u == Int)
  }

  /** There is one argument for each parameter, and none that is known to be of another type. */
  ghost predicate MayFit(rules: Rules, g: Gamma, args: Args, params: seq<Type>) {
    match args
    case NoArg => params == []
    case Arg(first, rest) =>
      && params != [] && MayPass(rules, g, first, params[0]) && MayFit(rules, g, rest, params[1..])
  }

  ghost predicate MayPass(rules: Rules, g: Gamma, arg: Exp, param: Type) {
    forall u :: TakenFor(rules, g, arg, u) ==> Alike(u, param)
  }

  /** The expressions that are looked at, in the order in which the checker is done with them; arguments of what is
      no function are not. */
  function Examined(rules: Rules, g: Gamma, e: Exp): seq<Exp>
    decreases e
  {
    match e
    case Paren(arg) => Examined(rules, g, arg) + [e]
    case Write(arg) => Examined(rules, g, arg) + [e]
    case Neg(arg) => Examined(rules, g, arg) + [e]
    case Not(arg) => Examined(rules, g, arg) + [e]
    case And(left, right) => Examined(rules, g, left) + Examined(rules, g, right) + [e]
    case Or(left, right) => Examined(rules, g, left) + Examined(rules, g, right) + [e]
    case Rel(_, left, right) => Examined(rules, g, left) + Examined(rules, g, right) + [e]
    case Arith(_, left, right) => Examined(rules, g, left) + Examined(rules, g, right) + [e]
    case Assign(left, right) => Examined(rules, g, right) + Examined(rules, g, left) + [e]
    case Dot(base, _) => Examined(rules, g, base) + [e]
    case Index(base, index) => Examined(rules, g, base) + Examined(rules, g, index) + [e]
    case Call(f, args) => (if Callable(rules, g, f) then ExaminedArgs(rules, g, args) else []) + [e]
    case _ => [e]
  }

  function ExaminedArgs(rules: Rules, g: Gamma, args: Args): seq<Exp>
    decreases args
  {
    match args
    case NoArg => []
    case Arg(first, rest) => Examined(rules, g, first) + ExaminedArgs(rules, g, rest)
  }

  /** Those of `es` that are at fault. */
  ghost function Faults(rules: Rules, g: Gamma, es: seq<Exp>): seq<Exp> {
    if es == [] then []
    else Faults(rules, g, es[..|es| - 1]) + if AtFault(rules, g, es[|es| - 1]) then [es[|es| - 1]] else []
  }

  // ----- the checker goes by the judgement -----

  /** Variables and parameters are of types that a program can write down. */
  ghost predicate WellScoped(rules: Rules, g: Gamma) {
    && (forall x :: x in g ==> Plain(Pointee(g[x])))
    && forall f, i :: f in rules.params && 0 <= i < |rules.params[f]| ==> Plain(rules.params[f][i])
  }

  lemma {:induction false} FieldIs(fs: Fields, name: string, t: Type)
    ensures FieldHas(fs, name, t) <==> FindField(fs, name).Some? && FindField(fs, name).value.1 == t
    ensures PlainFields(fs) && FieldHas(fs, name, t) ==> Plain(t)
  {
    if fs.Field? && fs.name != name {
      FieldIs(fs.rest, name, t);
    }
  }

  lemma {:induction false} PlainTypes(rules: Rules, g: Gamma, e: Exp)
    requires WellScoped(rules, g) && Check(rules, g, e).ty.Some?
    ensures Plain(Check(rules, g, e).ty.value)
    decreases e
  {
    match e
    case Paren(arg) => PlainTypes(rules, g, arg);
    case Assign(left, _) => PlainTypes(rules, g, left);
    case Dot(base, name) =>
      PlainTypes(rules, g, base);
      FieldIs(Check(rules, g, base).ty.value.members, name, Check(rules, g, e).ty.value);
    case Index(base, _) => PlainTypes(rules, g, base);
    case _ =>
  }

  ghost predicate TakenIs(rules: Rules, g: Gamma, e: Exp, t: Type) {
    TakenFor(rules, g, e, t) <==> Check(rules, g, e).ty == Some(t)
  }

  /** The checker goes on with exactly this type. */
  lemma {:induction false} TakenExactly(rules: Rules, g: Gamma, e: Exp, t: Type)
    requires WellScoped(rules, g)
    ensures TakenIs(rules, g, e, t)
    decreases e, 3
  {
    match e
    case Paren(arg) => TakenExactly(rules, g, arg, t);
    case Neg(_) => TakenUnary(rules, g, e, t);
    case Not(_) => TakenUnary(rules, g, e, t);
    case And(_, _) => TakenBinary(rules, g, e, t);
    case Or(_, _) => TakenBinary(rules, g, e, t);
    case Rel(_, _, _) => TakenBinary(rules, g, e, t);
    case Arith(_, _, _) => TakenBinary(rules, g, e, t);
    case Assign(_, _) => TakenAssign(rules, g, e, t);
    case Dot(_, _) => TakenDot(rules, g, e, t);
    case Index(_, _) => TakenIndex(rules, g, e, t);
    case _ =>
  }

  lemma {:induction false} TakenUnary(rules: Rules, g: Gamma, e: Exp, t: Type)
    requires WellScoped(rules, g) && (e.Neg? || e.Not?)
    ensures TakenIs(rules, g, e, t)
    decreases e, 2
  {
    TakenExactly(rules, g, e.arg, Int);
  }

  lemma {:induction false} TakenBinary(rules: Rules, g: Gamma, e: Exp, t: Type)
    requires WellScoped(rules, g) && (e.And? || e.Or? || e.Rel? || e.Arith?)
    ensures TakenIs(rules, g, e, t)
    decreases e, 2
  {
    TakenExactly(rules, g, e.left, Int);
    TakenExactly(rules, g, e.right, Int);
  }

  lemma {:induction false} TakenAssign(rules: Rules, g: Gamma, e: Exp, t: Type)
    requires WellScoped(rules, g) && e.Assign?
    ensures TakenIs(rules, g, e, t)
    decreases e, 2
  {
    TakenExactly(rules, g, e.left, t);
    var l, r := Check(rules, g, e.left).ty, Check(rules, g, e.right).ty;
    TakenAll(rules, g, e, e.right);
    SameTypes(rules, g, e.left, e.right);
    if r.Some? {
      assert TakenFor(rules, g, e.right, r.value);
    }
  }

  lemma {:induction false} TakenDot(rules: Rules, g: Gamma, e: Exp, t: Type)
    requires WellScoped(rules, g) && e.Dot?
    ensures TakenIs(rules, g, e, t)
    decreases e, 2
  {
    var b := Check(rules, g, e.base).ty;
    TakenAll(rules, g, e, e.base);
    if b.Some? {
      assert TakenFor(rules, g, e.base, b.value);
      if b.value.Struct? {
        FieldIs(b.value.members, e.member, t);
      }
    }
  }

  lemma {:induction false} TakenIndex(rules: Rules, g: Gamma, e: Exp, t: Type)
    requires WellScoped(rules, g) && e.Index?
    ensures TakenIs(rules, g, e, t)
    decreases e, 2
  {
    var b, i := Check(rules, g, e.base).ty, Check(rules, g, e.index).ty;
    hide TakenAsArray;
    ArrayTaken(rules, g, e, e.base, t);
    TakenAll(rules, g, e, e.index);
    if i.Some? {
      assert TakenFor(rules, g, e.index, i.value);
    }
    assert HasSome(rules, g, e.index) <==> i.Some?;
    assert TakenFor(rules, g, e, t) <==> HasSome(rules, g, e.index) && TakenAsArray(rules, g, e.base, t);
    assert Check(rules, g, e).ty == if b.None? || i.None? || !b.value.Array? then None else Some(b.value.elem);
  }

  lemma {:induction false} ArrayTaken(rules: Rules, g: Gamma, e: Exp, base: Exp, t: Type)
    requires WellScoped(rules, g) && base < e
    ensures var b := Check(rules, g, base).ty;
            TakenAsArray(rules, g, base, t) <==> b.Some? && b.value.Array? && b.value.elem == t
    decreases e, 1
  {
    hide Check, TakenFor;
    TakenAll(rules, g, e, base);
    var b := Check(rules, g, base).ty;
    if b.Some? {
      assert TakenFor(rules, g, base, b.value);
    }
  }

  lemma {:induction false} TakenAll(rules: Rules, g: Gamma, e: Exp, part: Exp)
    requires WellScoped(rules, g) && part < e
    ensures forall u :: TakenFor(rules, g, part, u) <==> Check(rules, g, part).ty == Some(u)
    decreases e, 0
  {
    forall u ensures TakenFor(rules, g, part, u) <==> Check(rules, g, part).ty == Some(u) {
      TakenExactly(rules, g, part, u);
    }
  }

  lemma SameTypes(rules: Rules, g: Gamma, left: Exp, right: Exp)
    requires WellScoped(rules, g)
    ensures var l, r := Check(rules, g, left).ty, Check(rules, g, right).ty;
            l.Some? && r.Some? ==> (Same(l.value, r.value) <==> Alike(l.value, r.value))
  {
    var l, r := Check(rules, g, left).ty, Check(rules, g, right).ty;
    if l.Some? && r.Some? {
      PlainTypes(rules, g, left);
      PlainTypes(rules, g, right);
      SameExactly(l.value, r.value);
    }
  }

  // ----- errors -----

  /** The errors in the parts of an expression. */
  function PartErrors(rules: Rules, g: Gamma, e: Exp): nat {
    match e
    case Paren(arg) => Check(rules, g, arg).errors
    case Write(arg) => Check(rules, g, arg).errors
    case Neg(arg) => Check(rules, g, arg).errors
    case Not(arg) => Check(rules, g, arg).errors
    case And(left, right) => Check(rules, g, left).errors + Check(rules, g, right).errors
    case Or(left, right) => Check(rules, g, left).errors + Check(rules, g, right).errors
    case Rel(_, left, right) => Check(rules, g, left).errors + Check(rules, g, right).errors
    case Arith(_, left, right) => Check(rules, g, left).errors + Check(rules, g, right).errors
    case Assign(left, right) => Check(rules, g, left).errors + Check(rules, g, right).errors
    case Dot(base, _) => Check(rules, g, base).errors
    case Index(base, index) => Check(rules, g, base).errors + Check(rules, g, index).errors
    case Call(f, args) => if Callable(rules, g, f) then CheckArgs(rules, g, args).1 else 0
    case _ => 0
  }

  ghost predicate AddsOwn(rules: Rules, g: Gamma, e: Exp) {
    Check(rules, g, e).errors == PartErrors(rules, g, e) + if AtFault(rules, g, e) then 1 else 0
  }

  /** An expression adds one error of its own if and only if it is at fault. */
  lemma OwnError(rules: Rules, g: Gamma, e: Exp)
    requires WellScoped(rules, g)
    ensures AddsOwn(rules, g, e)
  {
    hide AddsOwn;
    match e
    case Write(_) => OwnUnary(rules, g, e);
    case Neg(_) => OwnUnary(rules, g, e);
    case Not(_) => OwnUnary(rules, g, e);
    case And(_, _) => OwnBinary(rules, g, e);
    case Or(_, _) => OwnBinary(rules, g, e);
    case Rel(_, _, _) => OwnBinary(rules, g, e);
    case Arith(_, _, _) => OwnBinary(rules, g, e);
    case Assign(_, _) => OwnAssign(rules, g, e);
    case Dot(_, _) => OwnDot(rules, g, e);
    case Index(_, _) => OwnIndex(rules, g, e);
    case Call(_, _) => OwnCall(rules, g, e);
    case _ => OwnNone(rules, g, e);
  }

  lemma OwnNone(rules: Rules, g: Gamma, e: Exp)
    requires e.Id? || e.Lit? || e.Read? || e.Paren?
    ensures AddsOwn(rules, g, e)
  {
  }

  lemma OwnUnary(rules: Rules, g: Gamma, e: Exp)
    requires WellScoped(rules, g) && (e.Write? || e.Neg? || e.Not?)
    ensures AddsOwn(rules, g, e)
  {
    hide NoInt;
    UnaryFault(rules, g, e, e.arg);
    FitsInt(rules, g, e.arg);
  }

  lemma OwnBinary(rules: Rules, g: Gamma, e: Exp)
    requires WellScoped(rules, g) && (e.And? || e.Or? || e.Rel? || e.Arith?)
    ensures AddsOwn(rules, g, e)
  {
    hide Unfit;
    UnfitExactly(rules, g, e, e.left, e.right);
  }

  lemma OwnAssign(rules: Rules, g: Gamma, e: Exp)
    requires WellScoped(rules, g) && e.Assign?
    ensures AddsOwn(rules, g, e)
  {
    hide AtFault;
    AssignFault(rules, g, e.left, e.right);
  }

  lemma OwnDot(rules: Rules, g: Gamma, e: Exp)
    requires WellScoped(rules, g) && e.Dot?
    ensures AddsOwn(rules, g, e)
  {
    hide AtFault;
    DotFault(rules, g, e.base, e.member);
  }

  lemma OwnIndex(rules: Rules, g: Gamma, e: Exp)
    requires WellScoped(rules, g) && e.Index?
    ensures AddsOwn(rules, g, e)
  {
    hide AtFault;
    IndexFault(rules, g, e.base, e.index);
  }

  lemma OwnCall(rules: Rules, g: Gamma, e: Exp)
    requires WellScoped(rules, g) && e.Call?
    ensures AddsOwn(rules, g, e)
  {
    if Callable(rules, g, e.func) {
      FitExactly(rules, g, e.args, rules.params[e.func]);
    }
  }

  lemma UnfitExactly(rules: Rules, g: Gamma, e: Exp, left: Exp, right: Exp)
    requires WellScoped(rules, g) && left < e && right < e
    ensures var l, r := Check(rules, g, left).ty, Check(rules, g, right).ty;
            Unfit(rules, g, left, right) <==> l.Some? && r.Some? && !(l.value == Int && r.value == Int)
  {
    hide Check, TakenFor;
    TakenKnown(rules, g, e, left);
    TakenKnown(rules, g, e, right);
  }

  lemma TakenKnown(rules: Rules, g: Gamma, e: Exp, part: Exp)
    requires WellScoped(rules, g) && part < e
    ensures forall u :: TakenFor(rules, g, part, u) <==> Check(rules, g, part).ty == Some(u)
    ensures Check(rules, g, part).ty.Some? ==> TakenFor(rules, g, part, Check(rules, g, part).ty.value)
  {
    TakenAll(rules, g, e, part);
  }

  lemma UnaryFault(rules: Rules, g: Gamma, e: Exp, arg: Exp)
    requires WellScoped(rules, g) && arg < e
    ensures var a := Check(rules, g, arg).ty;
            NoInt(rules, g, arg) <==> a.Some? && a.value != Int
  {
    hide Check, TakenFor;
    TakenKnown(rules, g, e, arg);
    var a := Check(rules, g, arg).ty;
    if a.Some? && a.value != Int {
      assert TakenFor(rules, g, arg, a.value) && a.value != Int;
    }
  }

  lemma AssignFault(rules: Rules, g: Gamma, left: Exp, right: Exp)
    requires WellScoped(rules, g)
    ensures var l, r := Check(rules, g, left).ty, Check(rules, g, right).ty;
            AtFault(rules, g, Assign(left, right))
            <==> !IsLvalue(left) || (l.Some? && r.Some? && !Same(l.value, r.value))
  {
    hide Check, TakenFor;
    TakenKnown(rules, g, Assign(left, right), left);
    TakenKnown(rules, g, Assign(left, right), right);
    SameTypes(rules, g, left, right);
  }

  lemma IndexFault(rules: Rules, g: Gamma, base: Exp, index: Exp)
    requires WellScoped(rules, g)
    ensures var b, i := Check(rules, g, base).ty, Check(rules, g, index).ty;
            AtFault(rules, g, Index(base, index)) <==> b.Some? && i.Some? && !(b.value.Array? && i.value == Int)
  {
    hide Check, TakenFor;
    TakenKnown(rules, g, Index(base, index), base);
    TakenKnown(rules, g, Index(base, index), index);
  }

  lemma DotFault(rules: Rules, g: Gamma, base: Exp, name: string)
    requires WellScoped(rules, g)
    ensures var b := Check(rules, g, base).ty;
            AtFault(rules, g, Dot(base, name))
            <==> b.Some? && !(b.value.Struct? && FindField(b.value.members, name).Some?)
  {
    hide Check, TakenFor;
    TakenKnown(rules, g, Dot(base, name), base);
    var b := Check(rules, g, base).ty;
    if b.Some? {
      HasMember(b.value, name);
    }
  }

  lemma HasMember(s: Type, name: string)
    ensures (forall t :: !MemberHas(s, name, t)) <==> !(s.Struct? && FindField(s.members, name).Some?)
  {
    if s.Struct? {
      forall t ensures MemberHas(s, name, t) <==> FindField(s.members, name).Some?
                                                  && FindField(s.members, name).value.1 == t {
        FieldIs(s.members, name, t);
      }
      if FindField(s.members, name).Some? {
        assert MemberHas(s, name, FindField(s.members, name).value.1);
      }
    }
  }

  lemma FitsInt(rules: Rules, g: Gamma, arg: Exp)
    requires WellScoped(rules, g)
    ensures var a := Check(rules, g, arg).ty; Fit([a], [Int]) <==> a.None? || a.value == Int
  {
    var a := Check(rules, g, arg).ty;
    assert [a][0] == a && [Int][0] == Int;
    if a.Some? {
      PlainTypes(rules, g, arg);
      SameExactly(a.value, Int);
    }
  }

  lemma {:induction false} FitExactly(rules: Rules, g: Gamma, args: Args, params: seq<Type>)
    requires WellScoped(rules, g) && forall i :: 0 <= i < |params| ==> Plain(params[i])
    ensures Fit(CheckArgs(rules, g, args).0, params) <==> MayFit(rules, g, args, params)
    decreases args
  {
    hide Check, MayPass;
    match args
    case NoArg =>
    case Arg(first, rest) =>
      assert CheckArgs(rules, g, args).0 == [Check(rules, g, first).ty] + CheckArgs(rules, g, rest).0;
      if params != [] {
        FitExactly(rules, g, rest, params[1..]);
        FirstFits(rules, g, args, params[0]);
        FitParts(Check(rules, g, first).ty, CheckArgs(rules, g, rest).0, params);
      } else {
        assert |CheckArgs(rules, g, args).0| > 0;
      }
  }

  lemma FirstFits(rules: Rules, g: Gamma, args: Args, param: Type)
    requires WellScoped(rules, g) && args.Arg? && Plain(param)
    ensures var a := Check(rules, g, args.first).ty;
            MayPass(rules, g, args.first, param) <==> (a.Some? ==> Same(a.value, param))
  {
    var a := Check(rules, g, args.first).ty;
    TakenAll(rules, g, Paren(args.first), args.first);
    if a.Some? {
      PlainTypes(rules, g, args.first);
      SameExactly(a.value, param);
    }
  }

  lemma FitParts(a: Option<Type>, rest: seq<Option<Type>>, params: seq<Type>)
    requires params != []
    ensures Fit([a] + rest, params) <==> (a.Some? ==> Same(a.value, params[0])) && Fit(rest, params[1..])
  {
    var all := [a] + rest;
    if Fit(all, params) {
      assert all[0] == a;
      forall i | 0 <= i < |rest| && rest[i].Some? ensures Same(rest[i].value, params[1..][i]) {
        assert all[i + 1] == rest[i];
      }
    }
    if (a.Some? ==> Same(a.value, params[0])) && Fit(rest, params[1..]) {
      forall i | 0 <= i < |all| && all[i].Some? ensures Same(all[i].value, params[i]) {
        if i > 0 {
          assert all[i] == rest[i - 1] && params[i] == params[1..][i - 1];
        }
      }
    }
  }

  lemma {:induction false} FaultsAdd(rules: Rules, g: Gamma, a: seq<Exp>, b: seq<Exp>)
    ensures Faults(rules, g, a + b) == Faults(rules, g, a) + Faults(rules, g, b)
    decreases |b|
  {
    if b == [] {
      assert a + b == a;
    } else {
      assert (a + b)[..|a + b| - 1] == a + b[..|b| - 1];
      FaultsAdd(rules, g, a, b[..|b| - 1]);
    }
  }

  lemma FaultsEnd(rules: Rules, g: Gamma, a: seq<Exp>, e: Exp)
    ensures |Faults(rules, g, a + [e])| == |Faults(rules, g, a)| + if AtFault(rules, g, e) then 1 else 0
  {
    assert (a + [e])[..|a|] == a;
  }

  /** Every error belongs to one expression that is at fault, and every such expression that is looked at has one. */
  lemma {:induction false} ErrorsBelong(rules: Rules, g: Gamma, e: Exp)
    requires WellScoped(rules, g)
    ensures Check(rules, g, e).errors == |Faults(rules, g, Examined(rules, g, e))|
    decreases e, 2
  {
    hide AtFault, Check, Faults;
    var parts := PartsOf(rules, g, e);
    PartErrorsBelong(rules, g, e);
    OwnError(rules, g, e);
    FaultsEnd(rules, g, parts, e);
    assert Examined(rules, g, e) == parts + [e];
  }

  function PartsOf(rules: Rules, g: Gamma, e: Exp): seq<Exp> {
    var all := Examined(rules, g, e);
    assert all != [];
    all[..|all| - 1]
  }

  lemma {:induction false} PartErrorsBelong(rules: Rules, g: Gamma, e: Exp)
    requires WellScoped(rules, g)
    ensures PartErrors(rules, g, e) == |Faults(rules, g, PartsOf(rules, g, e))|
    decreases e, 1
  {
    hide AtFault, Check, Faults;
    match e
    case Paren(arg) => OnePart(rules, g, e, arg);
    case Write(arg) => OnePart(rules, g, e, arg);
    case Neg(arg) => OnePart(rules, g, e, arg);
    case Not(arg) => OnePart(rules, g, e, arg);
    case And(left, right) => TwoParts(rules, g, e, left, right);
    case Or(left, right) => TwoParts(rules, g, e, left, right);
    case Rel(_, left, right) => TwoParts(rules, g, e, left, right);
    case Arith(_, left, right) => TwoParts(rules, g, e, left, right);
    case Assign(left, right) => TwoParts(rules, g, e, right, left);
    case Dot(base, _) => OnePart(rules, g, e, base);
    case Index(base, index) => TwoParts(rules, g, e, base, index);
    case Call(f, args) =>
      NoFaults(rules, g);
      if Callable(rules, g, f) {
        ArgErrorsBelong(rules, g, args);
        assert PartsOf(rules, g, e) == ExaminedArgs(rules, g, args);
      }
    case _ => NoFaults(rules, g);
  }

  lemma NoFaults(rules: Rules, g: Gamma)
    ensures Faults(rules, g, []) == []
  {
  }

  lemma {:induction false} OnePart(rules: Rules, g: Gamma, e: Exp, arg: Exp)
    requires WellScoped(rules, g) && arg < e && Examined(rules, g, e) == Examined(rules, g, arg) + [e]
    ensures Check(rules, g, arg).errors == |Faults(rules, g, PartsOf(rules, g, e))|
    decreases arg, 3
  {
    hide AtFault, Check, Faults;
    ErrorsBelong(rules, g, arg);
    assert PartsOf(rules, g, e) == Examined(rules, g, arg);
  }

  lemma {:induction false} TwoParts(rules: Rules, g: Gamma, e: Exp, first: Exp, second: Exp)
    requires WellScoped(rules, g) && first < e && second < e
    requires Examined(rules, g, e) == Examined(rules, g, first) + Examined(rules, g, second) + [e]
    ensures Check(rules, g, first).errors + Check(rules, g, second).errors
            == |Faults(rules, g, PartsOf(rules, g, e))|
    decreases e, 0
  {
    hide AtFault, Check, Faults;
    ErrorsBelong(rules, g, first);
    ErrorsBelong(rules, g, second);
    FaultsAdd(rules, g, Examined(rules, g, first), Examined(rules, g, second));
    assert PartsOf(rules, g, e) == Examined(rules, g, first) + Examined(rules, g, second);
  }

  lemma {:induction false} ArgErrorsBelong(rules: Rules, g: Gamma, args: Args)
    requires WellScoped(rules, g)
    ensures CheckArgs(rules, g, args).1 == |Faults(rules, g, ExaminedArgs(rules, g, args))|
    decreases args, 2
  {
    hide AtFault, Check, Faults;
    match args
    case NoArg => NoFaults(rules, g);
    case Arg(first, rest) =>
      ErrorsBelong(rules, g, first);
      ArgErrorsBelong(rules, g, rest);
      FaultsAdd(rules, g, Examined(rules, g, first), ExaminedArgs(rules, g, rest));
  }

  // ----- soundness and completeness -----

  ghost predicate Agrees(rules: Rules, g: Gamma, e: Exp, t: Type) {
    HasType(rules, g, e, t) <==> Check(rules, g, e) == Checked(Some(t), 0)
  }

  /** The checker reports nothing and gives a type exactly when the expression has that type. */
  lemma {:induction false} CheckedExactly(rules: Rules, g: Gamma, e: Exp, t: Type)
    requires WellScoped(rules, g)
    ensures Agrees(rules, g, e, t)
    decreases e, 3
  {
    match e
    case Paren(arg) => CheckedExactly(rules, g, arg, t);
    case Write(_) => UnaryAgrees(rules, g, e, t);
    case Neg(_) => UnaryAgrees(rules, g, e, t);
    case Not(_) => UnaryAgrees(rules, g, e, t);
    case And(_, _) => BinaryAgrees(rules, g, e, t);
    case Or(_, _) => BinaryAgrees(rules, g, e, t);
    case Rel(_, _, _) => BinaryAgrees(rules, g, e, t);
    case Arith(_, _, _) => BinaryAgrees(rules, g, e, t);
    case Assign(_, _) => AssignAgrees(rules, g, e, t);
    case Dot(_, _) => DotAgrees(rules, g, e, t);
    case Index(_, _) => IndexAgrees(rules, g, e, t);
    case Call(_, _) => CallAgrees(rules, g, e, t);
    case _ =>
  }

  lemma {:induction false} UnaryAgrees(rules: Rules, g: Gamma, e: Exp, t: Type)
    requires WellScoped(rules, g) && (e.Write? || e.Neg? || e.Not?)
    ensures Agrees(rules, g, e, t)
    decreases e, 2
  {
    CheckedExactly(rules, g, e.arg, Int);
    NoTypeNoSilence(rules, g, e.arg);
    FitsInt(rules, g, e.arg);
  }

  lemma {:induction false} BinaryAgrees(rules: Rules, g: Gamma, e: Exp, t: Type)
    requires WellScoped(rules, g) && (e.And? || e.Or? || e.Rel? || e.Arith?)
    ensures Agrees(rules, g, e, t)
    decreases e, 2
  {
    CheckedExactly(rules, g, e.left, Int);
    CheckedExactly(rules, g, e.right, Int);
  }

  lemma {:induction false} AssignAgrees(rules: Rules, g: Gamma, e: Exp, t: Type)
    requires WellScoped(rules, g) && e.Assign?
    ensures Agrees(rules, g, e, t)
    decreases e, 2
  {
    hide Yields;
    CheckedExactly(rules, g, e.left, t);
    AssignExactly(rules, g, e, e.left, e.right, t);
  }

  lemma {:induction false} DotAgrees(rules: Rules, g: Gamma, e: Exp, t: Type)
    requires WellScoped(rules, g) && e.Dot?
    ensures Agrees(rules, g, e, t)
    decreases e, 2
  {
    hide OwnsMember;
    DotExactly(rules, g, e, e.base, e.member, t);
  }

  lemma {:induction false} IndexAgrees(rules: Rules, g: Gamma, e: Exp, t: Type)
    requires WellScoped(rules, g) && e.Index?
    ensures Agrees(rules, g, e, t)
    decreases e, 2
  {
    CheckedExactly(rules, g, e.index, Int);
    IndexExactly(rules, g, e, e.base, t);
  }

  lemma {:induction false} CallAgrees(rules: Rules, g: Gamma, e: Exp, t: Type)
    requires WellScoped(rules, g) && e.Call?
    ensures Agrees(rules, g, e, t)
    decreases e, 2
  {
    if Callable(rules, g, e.func) {
      ArgsExactly(rules, g, e.args, rules.params[e.func]);
      assert HasType(rules, g, e, t) <==> t == Int && ArgsHave(rules, g, e.args, rules.params[e.func]);
      var (tys, n) := CheckArgs(rules, g, e.args);
      assert Check(rules, g, e) == Checked(Some(Int), if Fit(tys, rules.params[e.func]) then n else n + 1);
    }
  }

  lemma {:induction false} AssignExactly(rules: Rules, g: Gamma, e: Exp, left: Exp, right: Exp, t: Type)
    requires WellScoped(rules, g) && right < e
    ensures var l, r := Check(rules, g, left), Check(rules, g, right);
            l.ty == Some(t) ==>
              (Yields(rules, g, right, t) <==> r.errors == 0 && (r.ty.Some? ==> Same(t, r.ty.value)))
    decreases e, 1
  {
    hide Check, HasType;
    CheckedAll(rules, g, e, right);
    NoTypeNoSilence(rules, g, right);
    SameTypes(rules, g, left, right);
  }

  lemma {:induction false} DotExactly(rules: Rules, g: Gamma, e: Exp, base: Exp, name: string, t: Type)
    requires WellScoped(rules, g) && base < e
    ensures var b := Check(rules, g, base);
            OwnsMember(rules, g, base, name, t)
            <==> b.errors == 0 && b.ty.Some? && b.ty.value.Struct?
                 && FindField(b.ty.value.members, name).Some? && FindField(b.ty.value.members, name).value.1 == t
    decreases e, 1
  {
    hide Check, HasType;
    CheckedAll(rules, g, e, base);
    var b := Check(rules, g, base);
    if b.ty.Some? && b.ty.value.Struct? {
      FieldIs(b.ty.value.members, name, t);
      assert MemberHas(b.ty.value, name, t) <==> FindField(b.ty.value.members, name).Some?
                                                 && FindField(b.ty.value.members, name).value.1 == t;
    }
    if b.errors == 0 && b.ty.Some? {
      assert b == Checked(Some(b.ty.value), 0) && HasType(rules, g, base, b.ty.value);
    }
  }

  lemma {:induction false} IndexExactly(rules: Rules, g: Gamma, e: Exp, base: Exp, t: Type)
    requires WellScoped(rules, g) && base < e
    ensures var b := Check(rules, g, base);
            (exists s :: HasType(rules, g, base, s) && s.Array? && s.elem == t)
            <==> b.errors == 0 && b.ty.Some? && b.ty.value.Array? && b.ty.value.elem == t
    decreases e, 1
  {
    hide Check, HasType;
    CheckedAll(rules, g, e, base);
  }

  lemma {:induction false} CheckedAll(rules: Rules, g: Gamma, e: Exp, part: Exp)
    requires WellScoped(rules, g) && part < e
    ensures forall u :: HasType(rules, g, part, u) <==> Check(rules, g, part) == Checked(Some(u), 0)
    ensures var a := Check(rules, g, part); a.errors == 0 && a.ty.Some? ==> HasType(rules, g, part, a.ty.value)
    decreases e, 0
  {
    hide Check, HasType;
    forall u ensures HasType(rules, g, part, u) <==> Check(rules, g, part) == Checked(Some(u), 0) {
      CheckedExactly(rules, g, part, u);
    }
  }

  /** An expression without a type has been reported. */
  lemma {:induction false} NoTypeNoSilence(rules: Rules, g: Gamma, e: Exp)
    ensures Check(rules, g, e).ty.None? ==> Check(rules, g, e).errors > 0
    decreases e, 2
  {
    hide Same, Fit, CheckArgs, FindField, BothBasic;
    match e
    case Paren(arg) => NoTypeNoSilence(rules, g, arg);
    case Neg(arg) => NoTypeNoSilence(rules, g, arg);
    case Not(arg) => NoTypeNoSilence(rules, g, arg);
    case And(_, _) => BothNotSilent(rules, g, e);
    case Or(_, _) => BothNotSilent(rules, g, e);
    case Rel(_, _, _) => BothNotSilent(rules, g, e);
    case Arith(_, _, _) => BothNotSilent(rules, g, e);
    case Assign(left, _) => NoTypeNoSilence(rules, g, left);
    case Dot(base, _) => NoTypeNoSilence(rules, g, base);
    case Index(base, index) => PartsNotSilent(rules, g, e, base, index);
    case _ =>
  }

  lemma {:induction false} BothNotSilent(rules: Rules, g: Gamma, e: Exp)
    requires e.And? || e.Or? || e.Rel? || e.Arith?
    ensures Check(rules, g, e).ty.None? ==> Check(rules, g, e).errors > 0
    decreases e, 1
  {
    PartsNotSilent(rules, g, e, e.left, e.right);
  }

  lemma {:induction false} PartsNotSilent(rules: Rules, g: Gamma, e: Exp, left: Exp, right: Exp)
    requires left < e && right < e
    ensures Check(rules, g, left).ty.None? ==> Check(rules, g, left).errors > 0
    ensures Check(rules, g, right).ty.None? ==> Check(rules, g, right).errors > 0
    decreases e, 0
  {
    hide Check;
    NoTypeNoSilence(rules, g, left);
    NoTypeNoSilence(rules, g, right);
  }

  lemma {:induction false} ArgsExactly(rules: Rules, g: Gamma, args: Args, params: seq<Type>)
    requires WellScoped(rules, g) && forall i :: 0 <= i < |params| ==> Plain(params[i])
    ensures var (tys, n) := CheckArgs(rules, g, args);
            ArgsHave(rules, g, args, params) <==> n == 0 && Fit(tys, params)
    decreases args, 3
  {
    hide Check, Passes, HasType;
    match args
    case NoArg =>
    case Arg(first, rest) =>
      assert CheckArgs(rules, g, args).0 == [Check(rules, g, first).ty] + CheckArgs(rules, g, rest).0;
      if params != [] {
        ArgsExactly(rules, g, rest, params[1..]);
        FirstHas(rules, g, args, params[0]);
        FitParts(Check(rules, g, first).ty, CheckArgs(rules, g, rest).0, params);
        assert CheckArgs(rules, g, args).1 == Check(rules, g, first).errors + CheckArgs(rules, g, rest).1;
      } else {
        assert |CheckArgs(rules, g, args).0| > 0;
      }
  }

  lemma {:induction false} FirstHas(rules: Rules, g: Gamma, args: Args, param: Type)
    requires WellScoped(rules, g) && args.Arg? && Plain(param)
    ensures var a := Check(rules, g, args.first);
            Passes(rules, g, args.first, param) <==> a.errors == 0 && (a.ty.Some? ==> Same(a.ty.value, param))
    decreases args, 2
  {
    hide Check, HasType;
    var a := Check(rules, g, args.first);
    forall u ensures HasType(rules, g, args.first, u) <==> a == Checked(Some(u), 0) {
      CheckedExactly(rules, g, args.first, u);
    }
    NoTypeNoSilence(rules, g, args.first);
    if a.ty.Some? {
      PlainTypes(rules, g, args.first);
      SameExactly(a.ty.value, param);
    }
  }
}
