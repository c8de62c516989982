/** When a state of the three-address machine stands for a state of the source program. */
module Represent {
  import opened Common
  import opened Syntax
  import opened Layout
  import opened Ir
  import opened Source
  import opened Translate

  // ----- what holds of a program that has been linked into one list of instructions -----

  /** `code` stands at position `pc`, inside the code of the function `fn`. */
  ghost predicate Placed(m: Machine, pc: nat, code: Code, fn: string) {
    && pc + |code| <= |m.code|
    && forall i {:trigger PlacedAt(m, pc, code, fn, i)} :: 0 <= i <= |code| ==> PlacedAt(m, pc, code, fn, i)
  }

  ghost predicate PlacedAt(m: Machine, pc: nat, code: Code, fn: string, i: nat)
    requires pc + |code| <= |m.code| && i <= |code|
  {
    FnAt(m.code, pc + i) == Some(fn) && (i < |code| ==> m.code[pc + i] == code[i])
  }

  ghost predicate LabelsOnce(code: Code) {
    forall i {:trigger OnlyHere(code, i)} :: 0 <= i < |code| ==> OnlyHere(code, i)
  }

  /** If instruction `i` is a label, no other instruction defines that label. */
  ghost predicate OnlyHere(code: Code, i: nat)
    requires i < |code|
  {
    code[i].LABEL? ==> forall j :: 0 <= j < |code| && code[j] == code[i] ==> j == i
  }

  /** Bytes `[-a.offset, -a.offset + a.size)` and those of `b` do not meet. */
  predicate SlotsApart(a: Slot, b: Slot) {
    a.size + b.offset <= a.offset || b.size + a.offset <= b.offset
  }

  ghost predicate GoodLayout(lay: FrameLayout) {
    && (forall x :: x in lay.slots ==> lay.slots[x].size <= lay.slots[x].offset <= lay.size)
    && (forall x, y :: x in lay.slots && y in lay.slots && x != y ==> SlotsApart(lay.slots[x], lay.slots[y]))
  }

  /** The declarations of a piece of code have slots. */
  ghost predicate Covered(slots: map<Operand, Slot>, code: Code) {
    forall i :: 0 <= i < |code| && code[i].DEC? ==> Variable(code[i].name) in slots
  }

  ghost predicate SizesMatch(slots: map<Operand, Slot>, g: Gamma) {
    forall x :: x in g && Variable(x) in slots ==> slots[Variable(x)].size == SizeOf(g[x])
  }

  ghost predicate GoodFunction(m: Machine, fn: Function) {
    && GoodLayout(m.layout(fn.name))
    && SizesMatch(m.layout(fn.name).slots, fn.vars)
  }

  ghost predicate Compiled(m: Machine, fn: Function, entry: nat, t: nat, l: nat) {
    && Find(m.code, 0, FUNC(fn.name)) == Some(entry)
    && Placed(m, entry + 1, TransParams(fn.params) + TransBody(fn, t, l).code, fn.name)
    && Covered(m.layout(fn.name).slots, TransBody(fn, t, l).code)
  }

  /** Every function of the program has code of its own (kept folded; see `LinkedTo`). */
  ghost predicate Linked(m: Machine, p: Program) {
    && LabelsOnce(m.code)
    && forall f {:trigger LinkedTo(m, p, f)} :: LinkedTo(m, p, f)
  }

  ghost predicate LinkedTo(m: Machine, p: Program, f: string) {
    FindFunction(p, f).Some? ==>
      var fn := FindFunction(p, f).value;
      fn.name == f && GoodFunction(m, fn) && exists entry: nat, t: nat, l: nat :: Compiled(m, fn, entry, t, l)
  }

  // ----- when a frame of the machine stands for an activation of the source -----

  function BaseOf(fr: Frame, home: Home): int {
    if home in fr.objects then fr.objects[home].base else 0
  }

  function CellAddr(fr: Frame, loc: Loc): int {
    BaseOf(fr, loc.obj.home) + (if PartAt(loc).Some? then PartAt(loc).value.0 else 0)
  }

  ghost predicate HoldsCell(s: Store, fr: Frame, loc: Loc)
    requires loc in s.parts
  {
    && IsScalar(loc) && loc.obj in s.declared
    && CellAddr(fr, loc) in fr.mem && fr.mem[CellAddr(fr, loc)] == s.parts[loc]
  }

  ghost predicate HoldsVar(g: Gamma, s: Store, fr: Frame, x: string)
    requires x in s.vars
  {
    && x in g && g[x].Int?
    && Variable(x) in fr.env && fr.env[Variable(x)] == s.vars[x]
  }

  /** A reference parameter holds the address of what it stands for. */
  ghost predicate HoldsRef(g: Gamma, s: Store, fr: Frame, x: string)
    requires x in s.refs
  {
    && x in g && s.refs[x].obj in s.declared && PartAt(s.refs[x]).Some? && g[x] == Ref(PartAt(s.refs[x]).value.1)
    && Variable(x) in fr.env && fr.env[Variable(x)] == CellAddr(fr, s.refs[x])
  }

  /** The frame knows a declared object. */
  ghost predicate Alive(g: Gamma, fr: Frame, o: Obj) {
    && o.home in fr.objects && fr.objects[o.home].size == SizeOf(o.ty)
    && (o.home.depth == fr.depth ==> o.home.name in g && g[o.home.name] == o.ty)
  }

  predicate RegionsApart(r: Region, q: Region) {
    r.base + r.size <= q.base || q.base + q.size <= r.base
  }

  /** An object of the running activation occupies its slot, one of a suspended activation bytes above
      the frame. */
  ghost predicate WellPlaced(m: Machine, g: Gamma, fr: Frame, h: Home)
    requires h in fr.objects
  {
    var r := fr.objects[h];
    && h.depth <= fr.depth
    && if h.depth == fr.depth then
         var slots := m.layout(fr.fn).slots;
         && h.name in g && !g[h.name].Int? && !g[h.name].Ref? && r.size == SizeOf(g[h.name])
         && Variable(h.name) in slots && r.base == fr.fp - slots[Variable(h.name)].offset
       else
         fr.fp <= r.base && r.base + r.size <= INT_MAX
  }

  /** The objects of suspended activations do not meet. */
  ghost predicate OuterApart(fr: Frame) {
    forall h, k :: h in fr.objects && k in fr.objects && h != k && h.depth < fr.depth && k.depth < fr.depth ==>
      RegionsApart(fr.objects[h], fr.objects[k])
  }

  /** `fr` stands for `s` (kept folded, like `Ir.Reaches`). */
  ghost predicate Represents(m: Machine, g: Gamma, s: Store, fr: Frame) {
    forall k {:trigger Inspect(k)} :: Inspect(k) ==> StandsFor(m, g, s, fr)
  }

  ghost predicate StandsFor(m: Machine, g: Gamma, s: Store, fr: Frame) {
    && s.depth == fr.depth
    && (forall x :: x in s.vars ==> HoldsVar(g, s, fr, x))
    && (forall x :: x in s.refs ==> HoldsRef(g, s, fr, x))
    && (forall loc :: loc in s.parts ==> HoldsCell(s, fr, loc))
    && (forall o :: o in s.declared ==> Alive(g, fr, o))
    && (forall o, q :: o in s.declared && q in s.declared && o.home == q.home ==> o == q)
    && (forall h :: h in fr.objects ==> WellPlaced(m, g, fr, h))
    && OuterApart(fr) && Fits(m, fr.fn, fr.fp)
  }

  /** What a part is reached through: a temporary drawn since, or a reference parameter. */
  predicate Leads(g: Gamma, op: Operand, t: nat, t': nat) {
    match op
    case Temp(no) => t <= no < t'
    case Variable(x) => x in g && g[x].Ref?
    case _ => false
  }

  /** The operand that the translator left stands for the place that evaluation yields. */
  ghost predicate Denotes(g: Gamma, fr: Frame, pl: Place, o: ExpCode, place: nat, t: nat) {
    match pl
    case Named(x) => x in g && o.ty == Some(g[x]) && o.op == Variable(x)
    case At(loc) =>
      && PartAt(loc).Some?
      && o.ty == Some(PartAt(loc).value.1)
      && o.op.GetVal? && Leads(g, o.op.opr, t, o.t)
      && o.op.opr in fr.env && fr.env[o.op.opr] == CellAddr(fr, loc)
    case Val(v) =>
      && o.ty == None
      && (o.op == Const(v) || (o.op == Temp(place) && o.op in fr.env && fr.env[o.op] == v))
    case NoValue => o.op == Temp(place) && o.ty == None
  }

  /** The same activation, with the same objects in the same places. */
  predicate SameShape(fr: Frame, fr': Frame) {
    && fr'.fn == fr.fn && fr'.fp == fr.fp && fr'.depth == fr.depth && fr'.objects == fr.objects
  }

  /** Temporaries below `t`, other than `place`, and reference parameters keep their values (kept
      folded, like `Ir.Reaches`). */
  ghost predicate Kept(g: Gamma, fr: Frame, fr': Frame, place: nat, t: nat) {
    && SameShape(fr, fr')
    && forall u {:trigger Inspect(u)} :: Inspect(u) ==> TempsKept(fr, fr', place, t) && RefsKept(g, fr, fr')
  }

  ghost predicate TempsKept(fr: Frame, fr': Frame, place: nat, t: nat) {
    forall k: nat :: k < t && k != place && Temp(k) in fr.env ==>
      Temp(k) in fr'.env && fr'.env[Temp(k)] == fr.env[Temp(k)]
  }

  ghost predicate RefsKept(g: Gamma, fr: Frame, fr': Frame) {
    forall x :: x in g && g[x].Ref? && Variable(x) in fr.env ==>
      Variable(x) in fr'.env && fr'.env[Variable(x)] == fr.env[Variable(x)]
  }

  lemma KeptLess(g: Gamma, fr: Frame, fr': Frame, p1: nat, t1: nat, place: nat, t: nat)
    requires Kept(g, fr, fr', p1, t1) && t <= t1 && (p1 == place || t <= p1)
    ensures Kept(g, fr, fr', place, t)
  {
    assert Inspect(0);
  }

  lemma TempStays(g: Gamma, fr: Frame, fr': Frame, k: nat, place: nat, t: nat)
    requires Kept(g, fr, fr', place, t) && k < t && k != place && Temp(k) in fr.env
    ensures Temp(k) in fr'.env && fr'.env[Temp(k)] == fr.env[Temp(k)]
  {
    assert Inspect(0);
  }

  /** Only temporaries differ. */
  ghost predicate SameVars(fr: Frame, fr': Frame) {
    && SameShape(fr, fr') && fr'.mem == fr.mem
    && forall x :: Variable(x) in fr.env ==> Variable(x) in fr'.env && fr'.env[Variable(x)] == fr.env[Variable(x)]
  }

  function SetTemp(fr: Frame, k: nat, v: int): Frame {
    fr.(env := fr.env[Temp(k) := v])
  }

  lemma SetTempKeeps(g: Gamma, fr: Frame, k: nat, v: int, t: nat)
    ensures SameVars(fr, SetTemp(fr, k, v)) && Kept(g, fr, SetTemp(fr, k, v), k, t)
  {
  }

  lemma KeptThen(g: Gamma, a: Frame, b: Frame, c: Frame, p1: nat, t1: nat, p2: nat, t2: nat, place: nat, t: nat)
    requires Kept(g, a, b, p1, t1) && Kept(g, b, c, p2, t2)
    requires t <= t1 && t <= t2 && (p1 == place || t <= p1) && (p2 == place || t <= p2)
    ensures Kept(g, a, c, place, t)
  {
    assert Inspect(0);
  }

  lemma SameVarsThen(a: Frame, b: Frame, c: Frame)
    requires SameVars(a, b) && SameVars(b, c)
    ensures SameVars(a, c)
  {
  }

  lemma TempsDoNotMatter(m: Machine, g: Gamma, s: Store, fr: Frame, fr': Frame)
    requires Represents(m, g, s, fr) && SameVars(fr, fr')
    ensures Represents(m, g, s, fr')
  {
    hide SizeOf, Follow, PartAt, IsScalar;
    assert Inspect(0);
    forall x | x in s.vars ensures HoldsVar(g, s, fr', x) {
      assert HoldsVar(g, s, fr, x);
    }
    forall x | x in s.refs ensures HoldsRef(g, s, fr', x) {
      assert HoldsRef(g, s, fr, x);
    }
    forall loc | loc in s.parts ensures HoldsCell(s, fr', loc) {
      assert HoldsCell(s, fr, loc);
      CellStays(s, fr, fr', loc);
    }
    forall o | o in s.declared ensures Alive(g, fr', o) {
      assert Alive(g, fr, o);
    }
  }

  lemma CellStays(s: Store, fr: Frame, fr': Frame, loc: Loc)
    requires loc in s.parts && HoldsCell(s, fr, loc) && SameShape(fr, fr') && fr'.mem == fr.mem
    ensures HoldsCell(s, fr', loc)
  {
  }

  lemma CellHeld(m: Machine, g: Gamma, s: Store, fr: Frame, loc: Loc)
    requires Represents(m, g, s, fr) && loc in s.parts
    ensures HoldsCell(s, fr, loc)
  {
    assert Inspect(0);
  }

  lemma VarHeld(m: Machine, g: Gamma, s: Store, fr: Frame, x: string)
    requires Represents(m, g, s, fr) && x in s.vars
    ensures HoldsVar(g, s, fr, x)
  {
    assert Inspect(0);
  }

  lemma RefHeld(m: Machine, g: Gamma, s: Store, fr: Frame, x: string)
    requires Represents(m, g, s, fr) && x in s.refs
    ensures HoldsRef(g, s, fr, x)
  {
    assert Inspect(0);
  }

  lemma StillDenotes(g: Gamma, fr: Frame, fr': Frame, pl: Place, o: ExpCode, place: nat, t: nat, other: nat)
    requires Denotes(g, fr, pl, o, place, t) && Kept(g, fr, fr', other, o.t)
    requires place < o.t && other != place && (other < t || o.t <= other)
    ensures Denotes(g, fr', pl, o, place, t)
  {
    assert Inspect(0);
  }

  // ----- reading and writing places -----

  lemma ReadOk(m: Machine, g: Gamma, s: Store, fr: Frame, pl: Place, o: ExpCode, place: nat, t: nat)
    requires Represents(m, g, s, fr) && Denotes(g, fr, pl, o, place, t)
    requires ReadPlace(s, pl).Some?
    ensures Get(fr, o.op) == ReadPlace(s, pl)
    ensures HandleAddress(o.op, o.ty) == o.op
  {
    assert Inspect(0);
    match pl
    case Named(x) => assert HoldsVar(g, s, fr, x);
    case At(loc) => assert HoldsCell(s, fr, loc);
    case _ =>
  }

  ghost predicate SoundLayout(m: Machine, g: Gamma, fn: string) {
    GoodLayout(m.layout(fn)) && SizesMatch(m.layout(fn).slots, g)
  }

  function RegionOf(fr: Frame, o: Obj): Region {
    Region(BaseOf(fr, o.home), SizeOf(o.ty))
  }

  /** Objects lie inside the address space. */
  lemma ObjectInside(m: Machine, g: Gamma, s: Store, fr: Frame, h: Home)
    requires SoundLayout(m, g, fr.fn) && Represents(m, g, s, fr) && h in fr.objects
    ensures var r := fr.objects[h];
            && h.depth <= fr.depth && fr.fp - m.layout(fr.fn).size <= r.base && 0 <= r.base
               && r.base + r.size <= INT_MAX
            && if h.depth == fr.depth then r.base + r.size <= fr.fp else fr.fp <= r.base
  {
    assert Inspect(0);
    assert WellPlaced(m, g, fr, h);
  }

  /** Different objects do not meet. */
  lemma ObjectsApart(m: Machine, g: Gamma, s: Store, fr: Frame, h: Home, k: Home)
    requires SoundLayout(m, g, fr.fn) && Represents(m, g, s, fr) && h in fr.objects && k in fr.objects && h != k
    ensures RegionsApart(fr.objects[h], fr.objects[k])
  {
    ObjectInside(m, g, s, fr, h);
    ObjectInside(m, g, s, fr, k);
    assert Inspect(0);
    if h.depth == fr.depth && k.depth == fr.depth {
      var slots := m.layout(fr.fn).slots;
      assert WellPlaced(m, g, fr, h) && WellPlaced(m, g, fr, k);
      assert SlotsApart(slots[Variable(h.name)], slots[Variable(k.name)]);
    }
  }

  lemma ObjectAlive(m: Machine, g: Gamma, s: Store, fr: Frame, o: Obj)
    requires Represents(m, g, s, fr) && o in s.declared
    ensures Alive(g, fr, o) && RegionOf(fr, o) == fr.objects[o.home]
    ensures forall q :: q in s.declared && q.home == o.home ==> q == o
  {
    assert Inspect(0);
  }

  /** The cells of different scalars inside structures and arrays do not meet. */
  lemma CellsApart(m: Machine, g: Gamma, s: Store, fr: Frame, a: Loc, b: Loc)
    requires SoundLayout(m, g, fr.fn) && Represents(m, g, s, fr)
    requires a.obj in s.declared && b.obj in s.declared && IsScalar(a) && IsScalar(b) && a != b
    ensures CellAddr(fr, a) + 4 <= CellAddr(fr, b) || CellAddr(fr, b) + 4 <= CellAddr(fr, a)
  {
    if a.obj == b.obj {
      ScalarsApart(a.obj.ty, a.path, b.path);
    } else {
      AccessInBounds(a.obj.ty, a.path);
      AccessInBounds(b.obj.ty, b.path);
      ObjectAlive(m, g, s, fr, a.obj);
      ObjectAlive(m, g, s, fr, b.obj);
      ObjectsApart(m, g, s, fr, a.obj.home, b.obj.home);
    }
  }

  lemma CellIsCell(m: Machine, g: Gamma, s: Store, fr: Frame, loc: Loc)
    requires Represents(m, g, s, fr) && loc.obj in s.declared && IsScalar(loc)
    ensures IsCell(fr, CellAddr(fr, loc))
  {
    ObjectAlive(m, g, s, fr, loc.obj);
    AccessInBounds(loc.obj.ty, loc.path);
    AccessIsAligned(loc.obj.ty, loc.path);
    assert InRegion(fr.objects[loc.obj.home], CellAddr(fr, loc));
  }

  lemma WriteOk(m: Machine, g: Gamma, s: Store, fr: Frame, pl: Place, o: ExpCode, place: nat, t: nat, v: int)
    returns (fr': Frame)
    requires SoundLayout(m, g, fr.fn)
    requires Represents(m, g, s, fr) && Denotes(g, fr, pl, o, place, t)
    requires WritePlace(g, s, pl, v).Some?
    ensures Put(fr, o.op, v) == Some(fr')
    ensures Represents(m, g, WritePlace(g, s, pl, v).value, fr')
    ensures Kept(g, fr, fr', place, o.t)
    ensures Denotes(g, fr', pl, o, place, t)
  {
    match pl
    case Named(x) => fr' := WriteVar(m, g, s, fr, x, v);
    case At(loc) => fr' := WritePart(m, g, s, fr, loc, v);
  }

  lemma WriteVar(m: Machine, g: Gamma, s: Store, fr: Frame, x: string, v: int) returns (fr': Frame)
    requires Represents(m, g, s, fr) && x in g && g[x].Int?
    ensures Put(fr, Variable(x), v) == Some(fr') && fr' == fr.(env := fr.env[Variable(x) := v])
    ensures Represents(m, g, s.(vars := s.vars[x := v]), fr')
  {
    assert Inspect(0);
    fr' := fr.(env := fr.env[Variable(x) := v]);
    var s' := s.(vars := s.vars[x := v]);
    forall y | y in s'.vars ensures HoldsVar(g, s', fr', y) {
      assert y != x ==> HoldsVar(g, s, fr, y);
    }
    forall y | y in s'.refs ensures HoldsRef(g, s', fr', y) {
      assert HoldsRef(g, s, fr, y);
    }
    forall loc | loc in s'.parts ensures HoldsCell(s', fr', loc) {
      assert HoldsCell(s, fr, loc);
    }
    forall o | o in s'.declared ensures Alive(g, fr', o) {
      assert Alive(g, fr, o);
    }
  }

  lemma WritePart(m: Machine, g: Gamma, s: Store, fr: Frame, loc: Loc, v: int) returns (fr': Frame)
    requires SoundLayout(m, g, fr.fn)
    requires Represents(m, g, s, fr)
    requires loc.obj in s.declared && IsScalar(loc)
    ensures IsCell(fr, CellAddr(fr, loc))
    ensures fr' == fr.(mem := fr.mem[CellAddr(fr, loc) := v])
    ensures Represents(m, g, s.(parts := s.parts[loc := v]), fr')
  {
    CellIsCell(m, g, s, fr, loc);
    fr' := fr.(mem := fr.mem[CellAddr(fr, loc) := v]);
    var parts := s.parts[loc := v];
    forall other | other in parts ensures HoldsCell(s.(parts := parts), fr', other) {
      if other != loc {
        CellSurvives(m, g, s, fr, loc, v, other);
      }
    }
    MemoryChanged(m, g, s, fr, parts, fr'.mem);
  }

  lemma CellSurvives(m: Machine, g: Gamma, s: Store, fr: Frame, loc: Loc, v: int, other: Loc)
    requires SoundLayout(m, g, fr.fn) && Represents(m, g, s, fr)
    requires loc.obj in s.declared && IsScalar(loc) && other in s.parts && other != loc
    ensures HoldsCell(s.(parts := s.parts[loc := v]), fr.(mem := fr.mem[CellAddr(fr, loc) := v]), other)
  {
    assert Inspect(0);
    assert HoldsCell(s, fr, other);
    CellsApart(m, g, s, fr, loc, other);
  }

  /** Only the contents of objects differ. */
  lemma MemoryChanged(m: Machine, g: Gamma, s: Store, fr: Frame, parts: map<Loc, int>, mem: map<int, int>)
    requires Represents(m, g, s, fr)
    ensures var s', fr' := s.(parts := parts), fr.(mem := mem);
            (forall loc :: loc in parts ==> HoldsCell(s', fr', loc)) ==> Represents(m, g, s', fr')
  {
    assert Inspect(0);
    var s', fr' := s.(parts := parts), fr.(mem := mem);
    forall x | x in s'.vars ensures HoldsVar(g, s', fr', x) {
      assert HoldsVar(g, s, fr, x);
    }
    forall x | x in s'.refs ensures HoldsRef(g, s', fr', x) {
      assert HoldsRef(g, s, fr, x);
    }
    forall o | o in s'.declared ensures Alive(g, fr', o) {
      assert Alive(g, fr, o);
    }
  }

  // ----- single steps -----

  function Ready(pc: nat, fr: Frame, ks: seq<Caller>, io: Console): State {
    Running(pc, fr, ks, [], io)
  }

  lemma StepAssign(m: Machine, pc: nat, fr: Frame, ks: seq<Caller>, io: Console, dst: Operand, src: Operand)
    requires pc < |m.code| && m.code[pc] == ASSIGN(dst, src)
    requires Get(fr, src).Some? && Put(fr, dst, Get(fr, src).value).Some?
    ensures Reaches(m, Ready(pc, fr, ks, io), Ready(pc + 1, Put(fr, dst, Get(fr, src).value).value, ks, io))
  {
    One(m, Ready(pc, fr, ks, io), Ready(pc + 1, Put(fr, dst, Get(fr, src).value).value, ks, io));
  }

  lemma StepArith(m: Machine, pc: nat, fr: Frame, ks: seq<Caller>, io: Console,
                  op: ArithOp, k: nat, src1: Operand, src2: Operand, a: int, b: int)
    requires pc < |m.code| && m.code[pc] == ARITH(op, Temp(k), src1, src2)
    requires Get(fr, src1) == Some(a) && Get(fr, src2) == Some(b) && Compute(op, a, b).Some?
    ensures Reaches(m, Ready(pc, fr, ks, io),
                    Ready(pc + 1, SetTemp(fr, k, Compute(op, a, b).value), ks, io))
  {
    One(m, Ready(pc, fr, ks, io), Ready(pc + 1, SetTemp(fr, k, Compute(op, a, b).value), ks, io));
  }

  lemma StepSkip(m: Machine, pc: nat, fr: Frame, ks: seq<Caller>, io: Console)
    requires pc < |m.code| && (m.code[pc].LABEL? || m.code[pc].NULL? || m.code[pc].PARAM?)
    ensures Reaches(m, Ready(pc, fr, ks, io), Ready(pc + 1, fr, ks, io))
  {
    One(m, Ready(pc, fr, ks, io), Ready(pc + 1, fr, ks, io));
  }

  lemma StepWrite(m: Machine, pc: nat, fr: Frame, ks: seq<Caller>, io: Console, src: Operand, v: int)
    requires pc < |m.code| && m.code[pc] == WRITE(src) && Get(fr, src) == Some(v)
    ensures Reaches(m, Ready(pc, fr, ks, io), Ready(pc + 1, fr, ks, io.Write(v)))
  {
    One(m, Ready(pc, fr, ks, io), Ready(pc + 1, fr, ks, io.Write(v)));
  }

  lemma StepRead(m: Machine, pc: nat, fr: Frame, ks: seq<Caller>, io: Console, k: nat)
    requires pc < |m.code| && m.code[pc] == READ(Temp(k)) && io.input != []
    ensures Reaches(m, Ready(pc, fr, ks, io), Ready(pc + 1, SetTemp(fr, k, io.input[0]), ks, io.Read()))
  {
    One(m, Ready(pc, fr, ks, io), Ready(pc + 1, SetTemp(fr, k, io.input[0]), ks, io.Read()));
  }

  lemma StepArg(m: Machine, pc: nat, fr: Frame, ks: seq<Caller>, vs: seq<int>, io: Console, src: Operand, v: int)
    requires pc < |m.code| && m.code[pc] == ARG(src) && Get(fr, src) == Some(v)
    ensures Reaches(m, Running(pc, fr, ks, vs, io), Running(pc + 1, fr, ks, [v] + vs, io))
  {
    One(m, Running(pc, fr, ks, vs, io), Running(pc + 1, fr, ks, [v] + vs, io));
  }

  lemma StepReturn(m: Machine, pc: nat, fr: Frame, ks: seq<Caller>, io: Console, src: Operand, v: int)
    requires pc < |m.code| && m.code[pc] == RETURN(src) && Get(fr, src) == Some(v) && Resume(v, fr, ks, io).Some?
    ensures Reaches(m, Ready(pc, fr, ks, io), Resume(v, fr, ks, io).value)
  {
    One(m, Ready(pc, fr, ks, io), Resume(v, fr, ks, io).value);
  }

  lemma StepGoto(m: Machine, pc: nat, fr: Frame, ks: seq<Caller>, io: Console, no: nat, target: nat)
    requires pc < |m.code| && m.code[pc] == GOTO(no) && Target(m, fr, no) == Some(target)
    ensures Reaches(m, Ready(pc, fr, ks, io), Ready(target, fr, ks, io))
  {
    One(m, Ready(pc, fr, ks, io), Ready(target, fr, ks, io));
  }

  /** A conditional jump followed by a jump leads to one of two labels. */
  lemma StepBranch(m: Machine, pc: nat, fr: Frame, ks: seq<Caller>, io: Console,
                   op: Relop, src1: Operand, src2: Operand, yes: nat, no: nat, ypos: nat, npos: nat)
    requires pc + 1 < |m.code| && m.code[pc] == IF_GOTO(op, src1, src2, yes) && m.code[pc + 1] == GOTO(no)
    requires Target(m, fr, yes) == Some(ypos) && Target(m, fr, no) == Some(npos)
    requires Get(fr, src1).Some? && Get(fr, src2).Some?
    ensures var holds := Compare(op, Get(fr, src1).value, Get(fr, src2).value);
            Reaches(m, Ready(pc, fr, ks, io), Ready(if holds then ypos else npos, fr, ks, io))
  {
    if Compare(op, Get(fr, src1).value, Get(fr, src2).value) {
      One(m, Ready(pc, fr, ks, io), Ready(ypos, fr, ks, io));
    } else {
      One(m, Ready(pc, fr, ks, io), Ready(pc + 1, fr, ks, io));
      StepGoto(m, pc + 1, fr, ks, io, no, npos);
      Then(m, Ready(pc, fr, ks, io), Ready(pc + 1, fr, ks, io), Ready(npos, fr, ks, io));
    }
  }

  // ----- placement -----

  lemma Split(m: Machine, pc: nat, a: Code, b: Code, fn: string)
    requires Placed(m, pc, a + b, fn)
    ensures Placed(m, pc, a, fn) && Placed(m, pc + |a|, b, fn)
  {
    forall i | 0 <= i <= |a| ensures PlacedAt(m, pc, a, fn, i) {
      assert PlacedAt(m, pc, a + b, fn, i);
    }
    var pc' := pc + |a|;
    forall i | 0 <= i <= |b| ensures PlacedAt(m, pc', b, fn, i) {
      assert PlacedAt(m, pc, a + b, fn, |a| + i);
    }
  }

  lemma InstrAt(m: Machine, pc: nat, code: Code, fn: string, i: nat)
    requires Placed(m, pc, code, fn) && i < |code|
    ensures m.code[pc + i] == code[i] && FnAt(m.code, pc + i) == Some(fn)
  {
    assert PlacedAt(m, pc, code, fn, i);
  }

  lemma LabelTarget(m: Machine, pc: nat, code: Code, fr: Frame, i: nat)
    requires LabelsOnce(m.code) && Placed(m, pc, code, fr.fn) && i < |code| && code[i].LABEL?
    ensures Target(m, fr, code[i].no) == Some(pc + i)
  {
    InstrAt(m, pc, code, fr.fn, i);
    assert OnlyHere(m.code, pc + i);
    FindSkips(m.code, 0, pc + i, code[i]);
  }

  // ----- arithmetic helper -----

  /** Neither operand mentions a temporary numbered `t` or above. */
  predicate Below(op: Operand, t: nat) {
    match op
    case Temp(no) => no < t
    case GetVal(o) => Below(o, t)
    case GetAddr(o) => Below(o, t)
    case _ => true
  }

  lemma FetchOk(m: Machine, g: Gamma, pc: nat, fr: Frame, ks: seq<Caller>, io: Console, src: Operand, t: nat,
                other: Operand)
    returns (fr': Frame)
    requires Placed(m, pc, Fetch(src, t).0, fr.fn) && Get(fr, src).Some? && Get(fr, other).Some?
    requires Below(src, t) && Below(other, t)
    ensures Reaches(m, Ready(pc, fr, ks, io), Ready(pc + |Fetch(src, t).0|, fr', ks, io))
    ensures Get(fr', Fetch(src, t).1) == Get(fr, src)
    ensures SameVars(fr, fr') && Kept(g, fr, fr', t, t)
    ensures Get(fr', other) == Get(fr, other)
    ensures t <= Fetch(src, t).2 && Below(Fetch(src, t).1, Fetch(src, t).2)
  {
    if IsMemOp(src) {
      InstrAt(m, pc, Fetch(src, t).0, fr.fn, 0);
      StepAssign(m, pc, fr, ks, io, Temp(t), src);
      fr' := fr.(env := fr.env[Temp(t) := Get(fr, src).value]);
    } else {
      Stay(m, Ready(pc, fr, ks, io));
      fr' := fr;
    }
  }

  lemma FetchBoth(m: Machine, g: Gamma, pc: nat, fr: Frame, ks: seq<Caller>, io: Console, src1: Operand, src2: Operand,
                  t: nat, code1: Code, actual1: Operand, t1: nat, code2: Code, actual2: Operand, t2: nat)
    returns (fr': Frame)
    requires Get(fr, src1).Some? && Get(fr, src2).Some?
    requires Below(src1, t) && Below(src2, t)
    requires Fetch(src1, t) == (code1, actual1, t1) && Fetch(src2, t1) == (code2, actual2, t2)
    requires Placed(m, pc, code1 + code2, fr.fn)
    ensures Reaches(m, Ready(pc, fr, ks, io), Ready(pc + |code1| + |code2|, fr', ks, io))
    ensures Get(fr', actual1) == Get(fr, src1) && Get(fr', actual2) == Get(fr, src2)
    ensures SameVars(fr, fr') && Kept(g, fr, fr', t, t) && t <= t2
  {
    Split(m, pc, code1, code2, fr.fn);
    var fr1 := FetchOk(m, g, pc, fr, ks, io, src1, t, src2);
    BelowMore(src2, t, t1);
    fr' := FetchOk(m, g, pc + |code1|, fr1, ks, io, src2, t1, actual1);
    Then(m, Ready(pc, fr, ks, io), Ready(pc + |code1|, fr1, ks, io), Ready(pc + |code1| + |code2|, fr', ks, io));
    KeptThen(g, fr, fr1, fr', t, t, t1, t1, t, t);
    SameVarsThen(fr, fr1, fr');
  }

  lemma ArithmeticOk(m: Machine, g: Gamma, pc: nat, fr: Frame, ks: seq<Caller>, io: Console,
                     op: ArithOp, place: nat, src1: Operand, src2: Operand, t: nat, a: int, b: int,
                     code: Code, t': nat)
    returns (fr': Frame)
    requires Arithmetic(op, Temp(place), src1, src2, t) == (code, t') && Placed(m, pc, code, fr.fn)
    requires Get(fr, src1) == Some(a) && Get(fr, src2) == Some(b) && Compute(op, a, b).Some?
    requires Below(src1, t) && Below(src2, t) && place < t
    ensures Reaches(m, Ready(pc, fr, ks, io), Ready(pc + |code|, fr', ks, io))
    ensures SameVars(fr, fr') && Kept(g, fr, fr', place, t) && t <= t'
    ensures Temp(place) in fr'.env && fr'.env[Temp(place)] == Compute(op, a, b).value
  {
    var (code1, actual1, t1) := Fetch(src1, t);
    var (code2, actual2, t2) := Fetch(src2, t1);
    var last := [ARITH(op, Temp(place), actual1, actual2)];
    Split(m, pc, code1 + code2, last, fr.fn);
    var fr2 := FetchBoth(m, g, pc, fr, ks, io, src1, src2, t, code1, actual1, t1, code2, actual2, t2);
    InstrAt(m, pc + |code1 + code2|, last, fr.fn, 0);
    fr' := SetTemp(fr2, place, Compute(op, a, b).value);
    StepArith(m, pc + |code1 + code2|, fr2, ks, io, op, place, actual1, actual2, a, b);
    Then(m, Ready(pc, fr, ks, io), Ready(pc + |code1 + code2|, fr2, ks, io), Ready(pc + |code|, fr', ks, io));
    SetTempKeeps(g, fr2, place, Compute(op, a, b).value, t);
    KeptThen(g, fr, fr2, fr', t, t, place, t, place, t);
    SameVarsThen(fr, fr2, fr');
  }

  lemma {:induction false} BelowMore(op: Operand, t: nat, t': nat)
    requires Below(op, t) && t <= t'
    ensures Below(op, t')
  {
    match op
    case GetVal(o) => BelowMore(o, t, t');
    case GetAddr(o) => BelowMore(o, t, t');
    case _ =>
  }
}
