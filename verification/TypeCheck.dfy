/** The type checker: when types are taken for equal, and why the translator can rely on what the
    checker has accepted. */
module TypeCheck {
  import opened Common
  import opened Syntax
  import opened Layout
  import opened Source
  import opened Translate

  // ----- equality of types -----

  /** The checker's types; `Null` stands for the type of an expression that was reported as wrong. */
  datatype Ty =
    | Null
    | Basic(code: int)
    | ArrayTy(elem: Ty, dimension: int)
    | FuncTy(name: string, ret: Ty, params: Tys)
    | StructTy(isDefinition: bool, name: string, members: Tys)

  datatype Tys = Nil | Cons(head: Ty, tail: Tys)

  predicate FieldEqual(list1: Tys, list2: Tys) {
    match (list1, list2)
    case (Nil, Nil) => true
    case (Cons(h1, t1), Cons(h2, t2)) => TypeEqual(h1, h2) && FieldEqual(t1, t2)
    case _ => false
  }

  predicate TypeEqual(type1: Ty, type2: Ty) {
    match (type1, type2)
    case (Null, _) => true
    case (_, Null) => true
    case (Basic(a), Basic(b)) => a == b
    case (ArrayTy(a, m), ArrayTy(b, n)) => TypeEqual(a, b) && m == n
    case (FuncTy(f, r, p), FuncTy(g, s, q)) => f == g && TypeEqual(r, s) && FieldEqual(p, q)
    case (StructTy(d, n, a), StructTy(e, k, b)) => d == e && n == k && FieldEqual(a, b)
    case _ => false
  }

  predicate NullFree(t: Ty) {
    match t
    case Null => false
    case Basic(_) => true
    case ArrayTy(elem, _) => NullFree(elem)
    case FuncTy(_, ret, params) => NullFree(ret) && NullFrees(params)
    case StructTy(_, _, members) => NullFrees(members)
  }

  predicate NullFrees(ts: Tys) {
    ts.Cons? ==> NullFree(ts.head) && NullFrees(ts.tail)
  }

  lemma {:induction false} TypeEqualReflexive(t: Ty)
    ensures TypeEqual(t, t)
    decreases t
  {
    match t
    case ArrayTy(elem, _) => TypeEqualReflexive(elem);
    case FuncTy(_, ret, params) => TypeEqualReflexive(ret); FieldEqualReflexive(params);
    case StructTy(_, _, members) => FieldEqualReflexive(members);
    case _ =>
  }

  lemma {:induction false} FieldEqualReflexive(ts: Tys)
    ensures FieldEqual(ts, ts)
    decreases ts
  {
    if ts.Cons? {
      TypeEqualReflexive(ts.head);
      FieldEqualReflexive(ts.tail);
    }
  }

  lemma {:induction false} TypeEqualSymmetric(a: Ty, b: Ty)
    ensures TypeEqual(a, b) == TypeEqual(b, a)
    decreases a
  {
    match (a, b)
    case (ArrayTy(x, _), ArrayTy(y, _)) => TypeEqualSymmetric(x, y);
    case (FuncTy(_, r, p), FuncTy(_, s, q)) => TypeEqualSymmetric(r, s); FieldEqualSymmetric(p, q);
    case (StructTy(_, _, p), StructTy(_, _, q)) => FieldEqualSymmetric(p, q);
    case _ =>
  }

  lemma {:induction false} FieldEqualSymmetric(a: Tys, b: Tys)
    ensures FieldEqual(a, b) == FieldEqual(b, a)
    decreases a
  {
    if a.Cons? && b.Cons? {
      TypeEqualSymmetric(a.head, b.head);
      FieldEqualSymmetric(a.tail, b.tail);
    }
  }

  lemma {:induction false} Compose(a: Ty, b: Ty, c: Ty)
    requires NullFree(b) && TypeEqual(a, b) && TypeEqual(b, c)
    ensures TypeEqual(a, c)
    decreases b
  {
    match (a, b, c)
    case (ArrayTy(x, _), ArrayTy(y, _), ArrayTy(z, _)) => Compose(x, y, z);
    case (FuncTy(_, r, p), FuncTy(_, s, q), FuncTy(_, t, o)) => Compose(r, s, t); ComposeFields(p, q, o);
    case (StructTy(_, _, p), StructTy(_, _, q), StructTy(_, _, o)) => ComposeFields(p, q, o);
    case _ =>
  }

  lemma {:induction false} ComposeFields(a: Tys, b: Tys, c: Tys)
    requires NullFrees(b) && FieldEqual(a, b) && FieldEqual(b, c)
    ensures FieldEqual(a, c)
    decreases b
  {
    if b.Cons? {
      Compose(a.head, b.head, c.head);
      ComposeFields(a.tail, b.tail, c.tail);
    }
  }

  /** `t` with the basic type `k` in place of every Null. */
  function Fill(t: Ty, k: int): Ty {
    match t
    case Null => Basic(k)
    case Basic(_) => t
    case ArrayTy(elem, n) => ArrayTy(Fill(elem, k), n)
    case FuncTy(f, ret, params) => FuncTy(f, Fill(ret, k), FillAll(params, k))
    case StructTy(d, n, members) => StructTy(d, n, FillAll(members, k))
  }

  function FillAll(ts: Tys, k: int): Tys {
    if ts.Nil? then Nil else Cons(Fill(ts.head, k), FillAll(ts.tail, k))
  }

  lemma {:induction false} Filled(t: Ty, j: int, k: int)
    requires j != k
    ensures TypeEqual(Fill(t, j), t) && TypeEqual(t, Fill(t, k))
    ensures TypeEqual(Fill(t, j), Fill(t, k)) ==> NullFree(t)
    decreases t
  {
    match t
    case ArrayTy(elem, _) => Filled(elem, j, k);
    case FuncTy(_, ret, params) => Filled(ret, j, k); FilledAll(params, j, k);
    case StructTy(_, _, members) => FilledAll(members, j, k);
    case _ =>
  }

  lemma {:induction false} FilledAll(ts: Tys, j: int, k: int)
    requires j != k
    ensures FieldEqual(FillAll(ts, j), ts) && FieldEqual(ts, FillAll(ts, k))
    ensures FieldEqual(FillAll(ts, j), FillAll(ts, k)) ==> NullFrees(ts)
    decreases ts
  {
    if ts.Cons? {
      Filled(ts.head, j, k);
      FilledAll(ts.tail, j, k);
    }
  }

  predicate PassesThrough(a: Ty, b: Ty, c: Ty) {
    TypeEqual(a, b) && TypeEqual(b, c) ==> TypeEqual(a, c)
  }

  /** Equality of types is not transitive: it passes through `b` exactly when no part of `b` is Null. */
  lemma TransitiveExactly(b: Ty)
    ensures NullFree(b) <==> forall a, c :: PassesThrough(a, b, c)
  {
    if NullFree(b) {
      forall a, c | TypeEqual(a, b) && TypeEqual(b, c) ensures TypeEqual(a, c) {
        Compose(a, b, c);
      }
    } else {
      Filled(b, 1, 2);
      assert !PassesThrough(Fill(b, 1), b, Fill(b, 2));
    }
  }

  // ----- the types of expressions -----

  /** What the checker finds for an expression: its type, if any, and how many errors it reports. */
  datatype Checked = Checked(ty: Option<Type>, errors: nat)

  const TYPE_INT: int := 0

  /** How the checker represents a type. Reference parameters are structures to it; an array type
      does not say how long the array is. */
  function Seen(t: Type): Ty {
    match t
    case Int => Basic(TYPE_INT)
    case Array(elem, _) => ArrayTy(Seen(elem), 1)
    case Struct(name, members) => StructTy(false, name, SeenFields(members))
    case Ref(target) => Seen(target)
  }

  function SeenFields(fs: Fields): Tys {
    if fs.NoField? then Nil else Cons(Seen(fs.ftype), SeenFields(fs.rest))
  }

  /** Types without missing parts are equal for the checker only if they are equal in every respect. */
  lemma {:induction false} TypeEqualExactly(a: Ty, b: Ty)
    requires NullFree(a) && NullFree(b)
    ensures TypeEqual(a, b) <==> a == b
    decreases a
  {
    match (a, b)
    case (ArrayTy(x, _), ArrayTy(y, _)) => TypeEqualExactly(x, y);
    case (FuncTy(_, r, p), FuncTy(_, s, q)) =>
      TypeEqualExactly(r, s);
      FieldEqualExactly(p, q);
    case (StructTy(_, _, p), StructTy(_, _, q)) => FieldEqualExactly(p, q);
    case _ =>
  }

  lemma {:induction false} FieldEqualExactly(a: Tys, b: Tys)
    requires NullFrees(a) && NullFrees(b)
    ensures FieldEqual(a, b) <==> a == b
    decreases a
  {
    if a.Cons? && b.Cons? {
      TypeEqualExactly(a.head, b.head);
      FieldEqualExactly(a.tail, b.tail);
    }
  }

  /** Whether the checker takes two types of the program for equal. */
  predicate Same(a: Type, b: Type) {
    TypeEqual(Seen(a), Seen(b))
  }

  lemma {:induction false} SeenIsNullFree(t: Type)
    ensures NullFree(Seen(t))
    decreases t
  {
    match t
    case Int =>
    case Array(elem, _) => SeenIsNullFree(elem);
    case Struct(_, members) => SeenFieldsNullFree(members);
    case Ref(target) => SeenIsNullFree(target);
  }

  lemma {:induction false} SeenFieldsNullFree(fs: Fields)
    ensures NullFrees(SeenFields(fs))
    decreases fs
  {
    if fs.Field? {
      SeenIsNullFree(fs.ftype);
      SeenFieldsNullFree(fs.rest);
    }
  }

  /** On the types of a program the checker's equality is an equivalence. */
  lemma SameIsEquivalence(a: Type, b: Type, c: Type)
    ensures Same(a, a) && (Same(a, b) ==> Same(b, a)) && (Same(a, b) && Same(b, c) ==> Same(a, c))
  {
    TypeEqualReflexive(Seen(a));
    TypeEqualSymmetric(Seen(a), Seen(b));
    SeenIsNullFree(b);
    if Same(a, b) && Same(b, c) {
      Compose(Seen(a), Seen(b), Seen(c));
    }
  }

  /** Nested structures of arrays of integers: a type without references. */
  predicate Plain(t: Type) {
    match t
    case Int => true
    case Array(elem, _) => Plain(elem)
    case Struct(_, members) => PlainFields(members)
    case Ref(_) => false
  }

  predicate PlainFields(fs: Fields) {
    fs.Field? ==> Plain(fs.ftype) && PlainFields(fs.rest)
  }

  /** The two types differ at most in the lengths of arrays and the names of members. */
  predicate Alike(a: Type, b: Type) {
    match (a, b)
    case (Int, Int) => true
    case (Array(x, _), Array(y, _)) => Alike(x, y)
    case (Struct(f, xs), Struct(g, ys)) => f == g && AlikeFields(xs, ys)
    case _ => false
  }

  predicate AlikeFields(xs: Fields, ys: Fields) {
    match (xs, ys)
    case (NoField, NoField) => true
    case (Field(_, t, more), Field(_, u, rest)) => Alike(t, u) && AlikeFields(more, rest)
    case _ => false
  }

  /** What the checker's equality means. */
  lemma {:induction false} SameExactly(a: Type, b: Type)
    requires Plain(a) && Plain(b)
    ensures Same(a, b) <==> Alike(a, b)
    decreases a
  {
    match (a, b)
    case (Array(x, _), Array(y, _)) => SameExactly(x, y);
    case (Struct(_, xs), Struct(_, ys)) => SameFieldsExactly(xs, ys);
    case _ =>
  }

  lemma {:induction false} SameFieldsExactly(xs: Fields, ys: Fields)
    requires PlainFields(xs) && PlainFields(ys)
    ensures FieldEqual(SeenFields(xs), SeenFields(ys)) <==> AlikeFields(xs, ys)
    decreases xs
  {
    if xs.Field? && ys.Field? {
      SameExactly(xs.ftype, ys.ftype);
      SameFieldsExactly(xs.rest, ys.rest);
    }
  }

  /** The parameters of the functions. */
  datatype Rules = Rules(params: map<string, seq<Type>>)

  predicate Fit(args: seq<Option<Type>>, params: seq<Type>) {
    |args| == |params| && forall i :: 0 <= i < |args| && args[i].Some? ==> Same(args[i].value, params[i])
  }

  /** The name is that of a function, which no variable hides. */
  predicate Callable(rules: Rules, g: Gamma, f: string) {
    f in rules.params && f !in g
  }

  predicate IsLvalue(e: Exp) {
    e.Id? || e.Dot? || e.Index?
  }

  function Check(rules: Rules, g: Gamma, e: Exp): Checked
    decreases e
  {
    match e
    case Id(x) => if x in g then Checked(Some(Pointee(g[x])), 0) else Checked(None, 1)
    case Lit(_) => Checked(Some(Int), 0)
    case Paren(arg) => Check(rules, g, arg)
    case Neg(arg) => BasicOnly(Check(rules, g, arg))
    case Not(arg) => BasicOnly(Check(rules, g, arg))
    case Assign(left, right) =>
      var r := Check(rules, g, right);
      var l := Check(rules, g, left);
      var n := r.errors + l.errors;
      if !IsLvalue(left) then Checked(None, n + 1)
      else if l.ty.Some? && r.ty.Some? && !Same(l.ty.value, r.ty.value) then Checked(None, n + 1)
      else Checked(l.ty, n)
    case And(left, right) => BothBasic(Check(rules, g, left), Check(rules, g, right))
    case Or(left, right) => BothBasic(Check(rules, g, left), Check(rules, g, right))
    case Rel(_, left, right) => BothBasic(Check(rules, g, left), Check(rules, g, right))
    case Arith(_, left, right) => BothBasic(Check(rules, g, left), Check(rules, g, right))
    case Dot(base, name) =>
      var b := Check(rules, g, base);
      if b.ty.None? then b
      else if !b.ty.value.Struct? then Checked(None, b.errors + 1)
      else
        var field := FindField(b.ty.value.members, name);
        if field.Some? then Checked(Some(field.value.1), b.errors) else Checked(None, b.errors + 1)
    case Index(base, index) =>
      var b := Check(rules, g, base);
      var i := Check(rules, g, index);
      var n := b.errors + i.errors;
      if b.ty.None? || i.ty.None? then Checked(None, n)
      else if !b.ty.value.Array? then Checked(None, n + 1)
      else Checked(Some(b.ty.value.elem), if i.ty.value.Int? then n else n + 1)
    case Call(f, args) =>
      var (tys, n) := CheckArgs(rules, g, args);
      if !Callable(rules, g, f) then Checked(None, 1)
      else Checked(Some(Int), if Fit(tys, rules.params[f]) then n else n + 1)
    case Read => Checked(Some(Int), 0)
    case Write(arg) =>
      var a := Check(rules, g, arg);
      Checked(Some(Int), if Fit([a.ty], [Int]) then a.errors else a.errors + 1)
  }

  function BasicOnly(a: Checked): Checked {
    if a.ty.Some? && !a.ty.value.Int? then Checked(None, a.errors + 1) else a
  }

  function BothBasic(a: Checked, b: Checked): Checked {
    var n := a.errors + b.errors;
    if a.ty.None? || b.ty.None? then Checked(None, n)
    else if a.ty.value.Int? && b.ty.value.Int? then Checked(Some(Int), n)
    else Checked(None, n + 1)
  }

  function CheckArgs(rules: Rules, g: Gamma, args: Args): (seq<Option<Type>>, nat)
    decreases args
  {
    match args
    case NoArg => ([], 0)
    case Arg(first, rest) =>
      var a := Check(rules, g, first);
      var (tys, n) := CheckArgs(rules, g, rest);
      ([a.ty] + tys, a.errors + n)
  }

  /** A name, a member, an element or a parenthesised one of these. */
  predicate IsPath(e: Exp) {
    match e
    case Id(_) => true
    case Dot(base, _) => IsPath(base)
    case Index(base, _) => IsPath(base)
    case Paren(arg) => IsPath(arg)
    case _ => false
  }

  /** A name, possibly in parentheses. */
  predicate IsName(e: Exp) {
    e.Id? || (e.Paren? && IsName(e.arg))
  }

  /** At every step of a path the translator finds what it needs: a structure with that member, an array. */
  ghost predicate Supported(g: Gamma, e: Exp, place: nat, t: nat, l: nat)
    decreases e
  {
    match e
    case Id(x) => x in g
    case Paren(arg) => Supported(g, arg, place, t, l)
    case Dot(base, name) =>
      var a := TransExp(g, base, t, t + 1, l);
      && Supported(g, base, t, t + 1, l)
      && a.ty.Some? && Pointee(a.ty.value).Struct? && FindField(Pointee(a.ty.value).members, name).Some?
    case Index(base, _) =>
      var a := TransExp(g, base, t, t + 3, l);
      Supported(g, base, t, t + 3, l) && a.ty.Some? && Pointee(a.ty.value).Array?
    case _ => false
  }

  /** The checker and the translator agree: a path that the checker gives a type has that very type in
      the translator (apart from the reference that a structure parameter is), which finds every member
      and every array on the way. */
  lemma {:induction false} CheckerAgrees(rules: Rules, g: Gamma, e: Exp, place: nat, t: nat, l: nat)
    requires IsPath(e) && Check(rules, g, e).ty.Some?
    ensures TransExp(g, e, place, t, l).ty.Some?
    ensures var ty := TransExp(g, e, place, t, l).ty.value;
            Check(rules, g, e).ty.value == if IsName(e) then Pointee(ty) else ty
    ensures Supported(g, e, place, t, l)
    decreases e
  {
    match e
    case Id(_) =>
    case Paren(arg) => CheckerAgrees(rules, g, arg, place, t, l);
    case Dot(base, _) => CheckerAgrees(rules, g, base, t, t + 1, l);
    case Index(base, _) => CheckerAgrees(rules, g, base, t, t + 3, l);
  }

  // ----- what the types say about runs -----

  /** Expressions change no declarations and no references. */
  lemma {:induction false} EvalKeeps(p: Program, g: Gamma, e: Exp, s: Store, fuel: nat)
    requires Eval(p, g, e, s, fuel).Some?
    ensures SameScope(s, Eval(p, g, e, s, fuel).value.1)
    decreases e, if IsLogical(e) then 2 else 0
  {
    hide Holds, EvalArgs, ExecBody, Part, ReadPlace;
    match e
    case Assign(left, right) =>
      EvalKeeps(p, g, left, s, fuel);
      EvalKeeps(p, g, right, Eval(p, g, left, s, fuel).value.1, fuel);
    case Arith(_, left, right) =>
      EvalKeeps(p, g, left, s, fuel);
      EvalKeeps(p, g, right, Eval(p, g, left, s, fuel).value.1, fuel);
    case Paren(arg) => EvalKeeps(p, g, arg, s, fuel);
    case Neg(arg) => EvalKeeps(p, g, arg, s, fuel);
    case Call(_, args) => EvalArgsKeeps(p, g, args, s, fuel);
    case Read =>
    case Write(arg) => EvalKeeps(p, g, arg, s, fuel);
    case Index(base, index) =>
      EvalKeeps(p, g, base, s, fuel);
      EvalKeeps(p, g, index, Eval(p, g, base, s, fuel).value.1, fuel);
    case Dot(base, _) => EvalKeeps(p, g, base, s, fuel);
    case Id(_) =>
    case Lit(_) =>
    case _ => HoldsKeeps(p, g, e, s, fuel);
  }

  lemma {:induction false} HoldsKeeps(p: Program, g: Gamma, e: Exp, s: Store, fuel: nat)
    requires Holds(p, g, e, s, fuel).Some?
    ensures SameScope(s, Holds(p, g, e, s, fuel).value.1)
    decreases e, 1
  {
    match e
    case Not(arg) => HoldsKeeps(p, g, arg, s, fuel);
    case Rel(_, left, right) =>
      EvalKeeps(p, g, left, s, fuel);
      EvalKeeps(p, g, right, Eval(p, g, left, s, fuel).value.1, fuel);
    case And(left, right) =>
      HoldsKeeps(p, g, left, s, fuel);
      var (holds, s1) := Holds(p, g, left, s, fuel).value;
      if holds {
        HoldsKeeps(p, g, right, s1, fuel);
      }
    case Or(left, right) =>
      HoldsKeeps(p, g, left, s, fuel);
      var (holds, s1) := Holds(p, g, left, s, fuel).value;
      if !holds {
        HoldsKeeps(p, g, right, s1, fuel);
      }
    case _ => EvalKeeps(p, g, e, s, fuel);
  }

  lemma {:induction false} EvalArgsKeeps(p: Program, g: Gamma, args: Args, s: Store, fuel: nat)
    requires EvalArgs(p, g, args, s, fuel).Some?
    ensures SameScope(s, EvalArgs(p, g, args, s, fuel).value.1)
    decreases args
  {
    match args
    case NoArg =>
    case Arg(first, rest) =>
      EvalKeeps(p, g, first, s, fuel);
      EvalArgsKeeps(p, g, rest, Eval(p, g, first, s, fuel).value.1, fuel);
  }

  predicate SameScope(s: Store, s': Store) {
    s'.refs == s.refs && s'.depth == s.depth && s'.declared == s.declared
  }

  /** Reference parameters stand for structures of the type they were declared with. */
  ghost predicate RefsTyped(g: Gamma, s: Store) {
    forall x :: x in s.refs && x in g && g[x].Ref? ==> PartAt(s.refs[x]).Some? && g[x] == Ref(PartAt(s.refs[x]).value.1)
  }

  /** The object that a path names has the type that the checker gives to the path. */
  lemma {:induction false} CheckedType(rules: Rules, p: Program, g: Gamma, e: Exp, s: Store, fuel: nat, pl: Place,
                                       s': Store, loc: Loc)
    requires IsPath(e) && Check(rules, g, e).ty.Some? && RefsTyped(g, s)
    requires Eval(p, g, e, s, fuel) == Some((pl, s')) && Denoted(g, s', pl) == Some(loc)
    ensures PartAt(loc).Some? && Check(rules, g, e).ty == Some(PartAt(loc).value.1)
    decreases e
  {
    match e
    case Id(x) =>
    case Paren(arg) => CheckedType(rules, p, g, arg, s, fuel, pl, s', loc);
    case Dot(base, name) =>
      var (p1, s1) := Eval(p, g, base, s, fuel).value;
      var whole := Denoted(g, s1, p1).value;
      CheckedType(rules, p, g, base, s, fuel, p1, s1, whole);
      assert loc.path[..|loc.path| - 1] == whole.path;
    case Index(base, index) =>
      var (p1, s1) := Eval(p, g, base, s, fuel).value;
      var (_, s2) := Eval(p, g, index, s1, fuel).value;
      EvalKeeps(p, g, index, s1, fuel);
      var whole := Denoted(g, s2, p1).value;
      CheckedType(rules, p, g, base, s, fuel, p1, s1, whole);
      assert loc.path[..|loc.path| - 1] == whole.path;
  }

  /** A path with an accepted type gets stuck only on an index: if its base is a declared object and
      the index is in range, it names a part of that object. */
  lemma CheckedElement(rules: Rules, p: Program, g: Gamma, e: Exp, s: Store, fuel: nat, p1: Place, s1: Store, p2: Place,
                       s2: Store, loc: Loc, i: int)
    requires e.Index? && IsPath(e) && Check(rules, g, e).ty.Some? && RefsTyped(g, s)
    requires Eval(p, g, e.base, s, fuel) == Some((p1, s1)) && Eval(p, g, e.index, s1, fuel) == Some((p2, s2))
    requires ReadPlace(s2, p2) == Some(i) && Denoted(g, s1, p1) == Some(loc) && loc.obj in s1.declared
    ensures PartAt(loc).Some? && PartAt(loc).value.1.Array?
    ensures Eval(p, g, e, s, fuel).Some? <==> 0 <= i < PartAt(loc).value.1.length
  {
    CheckedType(rules, p, g, e.base, s, fuel, p1, s1, loc);
    EvalKeeps(p, g, e.index, s1, fuel);
    if i >= 0 {
      ElementThere(loc, i);
    }
  }

  lemma ElementThere(loc: Loc, i: nat)
    requires PartAt(loc).Some? && PartAt(loc).value.1.Array?
    ensures PartAt(Loc(loc.obj, loc.path + [Element(i)])).Some? <==> i < PartAt(loc).value.1.length
  {
    var deeper := Loc(loc.obj, loc.path + [Element(i)]);
    assert deeper.path[..|deeper.path| - 1] == loc.path && deeper.path[|deeper.path| - 1] == Element(i);
  }

  /** A member of a declared object is always there. */
  lemma CheckedMember(rules: Rules, p: Program, g: Gamma, e: Exp, s: Store, fuel: nat, p1: Place, s1: Store, loc: Loc)
    requires e.Dot? && IsPath(e) && Check(rules, g, e).ty.Some? && RefsTyped(g, s)
    requires Eval(p, g, e.base, s, fuel) == Some((p1, s1)) && Denoted(g, s1, p1) == Some(loc) && loc.obj in s1.declared
    ensures Eval(p, g, e, s, fuel) == Some((At(Loc(loc.obj, loc.path + [Member(e.member)])), s1))
  {
    CheckedType(rules, p, g, e.base, s, fuel, p1, s1, loc);
    var deeper := Loc(loc.obj, loc.path + [Member(e.member)]);
    assert deeper.path[..|deeper.path| - 1] == loc.path;
  }
}
