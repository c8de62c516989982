/** What each kind of code fragment does, given what its parts do. */
module Fragments {
  import opened Common
  import opened Syntax
  import opened Layout
  import opened Ir
  import opened Source
  import opened Translate
  import opened Represent

  /** The code of an expression, started at `pc` in frame `fr`, has come to its end in `fr'`,
      which stands for the store `s'`; the operand it leaves denotes `pl`. */
  ghost predicate ExpEnd(m: Machine, g: Gamma, o: ExpCode, place: nat, t: nat, pc: nat, io: Console,
                         fr: Frame, ks: seq<Caller>, pl: Place, s': Store, fr': Frame) {
    && Gets(m, Ready(pc, fr, ks, io), Ready(pc + |o.code|, fr', ks, s'.io))
    && Represents(m, g, s', fr')
    && Denotes(g, fr', pl, o, place, t)
    && Kept(g, fr, fr', place, t)
  }

  /** Two expressions one after the other: the first operand still denotes its place. */
  lemma BothEnd(m: Machine, g: Gamma, a: ExpCode, ta: nat, b: ExpCode, t: nat, pc: nat, io: Console, fr: Frame,
                ks: seq<Caller>, p1: Place, s1: Store, fr1: Frame, p2: Place, s2: Store, fr2: Frame)
    requires ExpEnd(m, g, a, t, ta, pc, io, fr, ks, p1, s1, fr1)
    requires ExpEnd(m, g, b, t + 1, a.t, pc + |a.code|, s1.io, fr1, ks, p2, s2, fr2)
    requires t + 1 < ta <= a.t
    ensures Gets(m, Ready(pc, fr, ks, io), Ready(pc + |a.code| + |b.code|, fr2, ks, s2.io))
    ensures Denotes(g, fr2, p1, a, t, ta)
    ensures Kept(g, fr, fr2, t, t) && fr2.fn == fr.fn
  {
    Onward(m, Ready(pc, fr, ks, io), Ready(pc + |a.code|, fr1, ks, s1.io),
           Ready(pc + |a.code| + |b.code|, fr2, ks, s2.io));
    StillDenotes(g, fr1, fr2, p1, a, t, ta, t + 1);
    KeptThen(g, fr, fr1, fr2, t, ta, t + 1, a.t, t, t);
  }

  lemma DenotedBelow(m: Machine, g: Gamma, fr: Frame, pl: Place, o: ExpCode, place: nat, t: nat, t': nat)
    requires Denotes(g, fr, pl, o, place, t) && place < t && t <= o.t <= t'
    ensures Below(o.op, t')
  {
  }

  /** The last two instructions of an assignment: store, then read back as the value. */
  lemma StoreEnd(m: Machine, g: Gamma, a: ExpCode, src: Operand, place: nat, t: nat,
                 pc: nat, s: Store, fr: Frame, ks: seq<Caller>, target: Place, v: int, s': Store)
    returns (fr': Frame)
    requires Placed(m, pc, [ASSIGN(a.op, src), ASSIGN(Temp(place), a.op)], fr.fn)
    requires SoundLayout(m, g, fr.fn)
    requires Represents(m, g, s, fr) && Denotes(g, fr, target, a, t, t + 2) && place < t <= a.t
    requires Get(fr, src) == Some(v) && WritePlace(g, s, target, v) == Some(s')
    ensures Reaches(m, Ready(pc, fr, ks, s.io), Ready(pc + 2, fr', ks, s'.io))
    ensures Represents(m, g, s', fr') && Kept(g, fr, fr', place, t)
    ensures Temp(place) in fr'.env && fr'.env[Temp(place)] == v
  {
    var code := [ASSIGN(a.op, src), ASSIGN(Temp(place), a.op)];
    InstrAt(m, pc, code, fr.fn, 0);
    InstrAt(m, pc, code, fr.fn, 1);
    var fr1 := WriteOk(m, g, s, fr, target, a, t, t + 2, v);
    StepAssign(m, pc, fr, ks, s.io, a.op, src);
    ReadOk(m, g, s', fr1, target, a, t, t + 2);
    StepAssign(m, pc + 1, fr1, ks, s.io, Temp(place), a.op);
    fr' := SetTemp(fr1, place, v);
    Then(m, Ready(pc, fr, ks, s.io), Ready(pc + 1, fr1, ks, s.io), Ready(pc + 2, fr', ks, s.io));
    SetTempKeeps(g, fr1, place, v, t);
    TempsDoNotMatter(m, g, s', fr1, fr');
    KeptThen(g, fr, fr1, fr', t, a.t, place, t, place, t);
  }

  lemma AssignEnd(m: Machine, g: Gamma, a: ExpCode, b: ExpCode, place: nat, t: nat, o: ExpCode, pc: nat, io: Console,
                  fr: Frame, ks: seq<Caller>, target: Place, s1: Store, fr1: Frame, source: Place, s2: Store,
                  fr2: Frame, s': Store)
    returns (fr': Frame)
    requires ExpEnd(m, g, a, t, t + 2, pc, io, fr, ks, target, s1, fr1)
    requires ExpEnd(m, g, b, t + 1, a.t, pc + |a.code|, s1.io, fr1, ks, source, s2, fr2)
    requires SoundLayout(m, g, fr.fn) && place < t && t + 2 <= a.t
    requires Placed(m, pc + |a.code| + |b.code|, [ASSIGN(a.op, b.op), ASSIGN(Temp(place), a.op)], fr.fn)
    requires |o.code| == |a.code| + |b.code| + 2 && o.op == Temp(place) && o.ty == None
    requires ReadPlace(s2, source).Some? && WritePlace(g, s2, target, ReadPlace(s2, source).value) == Some(s')
    ensures ExpEnd(m, g, o, place, t, pc, io, fr, ks, Val(ReadPlace(s2, source).value), s', fr')
  {
    BothEnd(m, g, a, t + 2, b, t, pc, io, fr, ks, target, s1, fr1, source, s2, fr2);
    ReadOk(m, g, s2, fr2, source, b, t + 1, a.t);
    var pc2 := pc + |a.code| + |b.code|;
    fr' := StoreEnd(m, g, a, b.op, place, t, pc2, s2, fr2, ks, target, ReadPlace(s2, source).value, s');
    assert pc2 + 2 == pc + |o.code|;
    Arrive(m, Ready(pc, fr, ks, io), Ready(pc2, fr2, ks, s2.io), Ready(pc + |o.code|, fr', ks, s'.io));
    KeptThen(g, fr, fr2, fr', t, t, place, t, place, t);
  }

  lemma ArithEnd(m: Machine, g: Gamma, op: ArithOp, a: ExpCode, b: ExpCode, place: nat, t: nat, o: ExpCode, code: Code,
                 t': nat, pc: nat, io: Console, fr: Frame, ks: seq<Caller>, p1: Place, s1: Store, fr1: Frame,
                 p2: Place, s2: Store, fr2: Frame)
    returns (fr': Frame)
    requires ExpEnd(m, g, a, t, t + 2, pc, io, fr, ks, p1, s1, fr1)
    requires ExpEnd(m, g, b, t + 1, a.t, pc + |a.code|, s1.io, fr1, ks, p2, s2, fr2)
    requires place < t && t + 2 <= a.t <= b.t
    requires Arithmetic(op, Temp(place), a.op, b.op, b.t) == (code, t')
    requires Placed(m, pc + |a.code| + |b.code|, code, fr.fn)
    requires |o.code| == |a.code| + |b.code| + |code| && o.op == Temp(place) && o.ty == None
    requires ReadPlace(s2, p1).Some? && ReadPlace(s2, p2).Some?
    requires Compute(op, ReadPlace(s2, p1).value, ReadPlace(s2, p2).value).Some?
    ensures ExpEnd(m, g, o, place, t, pc, io, fr, ks,
                   Val(Compute(op, ReadPlace(s2, p1).value, ReadPlace(s2, p2).value).value), s2, fr')
  {
    BothEnd(m, g, a, t + 2, b, t, pc, io, fr, ks, p1, s1, fr1, p2, s2, fr2);
    ReadOk(m, g, s2, fr2, p1, a, t, t + 2);
    ReadOk(m, g, s2, fr2, p2, b, t + 1, a.t);
    DenotedBelow(m, g, fr2, p1, a, t, t + 2, b.t);
    DenotedBelow(m, g, fr2, p2, b, t + 1, a.t, b.t);
    var pc2 := pc + |a.code| + |b.code|;
    fr' := ArithmeticOk(m, g, pc2, fr2, ks, s2.io, op, place, a.op, b.op, b.t,
                        ReadPlace(s2, p1).value, ReadPlace(s2, p2).value, code, t');
    assert pc2 + |code| == pc + |o.code|;
    Arrive(m, Ready(pc, fr, ks, io), Ready(pc2, fr2, ks, s2.io), Ready(pc + |o.code|, fr', ks, s2.io));
    KeptThen(g, fr, fr2, fr', t, t, place, b.t, place, t);
    TempsDoNotMatter(m, g, s2, fr2, fr');
  }

  lemma NegEnd(m: Machine, g: Gamma, a: ExpCode, place: nat, t: nat, o: ExpCode, code: Code, t': nat,
               pc: nat, io: Console, fr: Frame, ks: seq<Caller>, p1: Place, s1: Store, fr1: Frame)
    returns (fr': Frame)
    requires ExpEnd(m, g, a, t, t + 1, pc, io, fr, ks, p1, s1, fr1)
    requires place < t && t + 1 <= a.t
    requires Arithmetic(Minus, Temp(place), Const(0), a.op, a.t) == (code, t')
    requires Placed(m, pc + |a.code|, code, fr.fn)
    requires |o.code| == |a.code| + |code| && o.op == Temp(place) && o.ty == None
    requires ReadPlace(s1, p1).Some? && Compute(Minus, 0, ReadPlace(s1, p1).value).Some?
    ensures ExpEnd(m, g, o, place, t, pc, io, fr, ks, Val(Compute(Minus, 0, ReadPlace(s1, p1).value).value), s1, fr')
  {
    hide Arithmetic, ReadPlace;
    ReadOk(m, g, s1, fr1, p1, a, t, t + 1);
    DenotedBelow(m, g, fr1, p1, a, t, t + 1, a.t);
    var pc1 := pc + |a.code|;
    fr' := ArithmeticOk(m, g, pc1, fr1, ks, s1.io, Minus, place, Const(0), a.op, a.t, 0, ReadPlace(s1, p1).value, code,
                        t');
    assert pc1 + |code| == pc + |o.code|;
    Arrive(m, Ready(pc, fr, ks, io), Ready(pc1, fr1, ks, s1.io), Ready(pc + |o.code|, fr', ks, s1.io));
    KeptThen(g, fr, fr1, fr', t, t + 1, place, a.t, place, t);
    TempsDoNotMatter(m, g, s1, fr1, fr');
  }

  lemma ReadEnd(m: Machine, g: Gamma, place: nat, t: nat, o: ExpCode, pc: nat, s: Store, fr: Frame, ks: seq<Caller>)
    returns (fr': Frame)
    requires Represents(m, g, s, fr)
    requires o.code == [READ(Temp(place))] && o.op == Temp(place) && o.ty == None
    requires Placed(m, pc, o.code, fr.fn) && s.io.input != []
    ensures ExpEnd(m, g, o, place, t, pc, s.io, fr, ks, Val(s.io.input[0]), s.(io := s.io.Read()), fr')
  {
    InstrAt(m, pc, o.code, fr.fn, 0);
    fr' := SetTemp(fr, place, s.io.input[0]);
    StepRead(m, pc, fr, ks, s.io, place);
    SetTempKeeps(g, fr, place, s.io.input[0], t);
    TempsDoNotMatter(m, g, s, fr, fr');
    ConsoleDoesNotMatter(m, g, s, s.io.Read(), fr');
  }

  lemma ConsoleDoesNotMatter(m: Machine, g: Gamma, s: Store, io: Console, fr: Frame)
    requires Represents(m, g, s, fr)
    ensures Represents(m, g, s.(io := io), fr)
  {
    assert Inspect(0);
    var s' := s.(io := io);
    forall x | x in s'.vars ensures HoldsVar(g, s', fr, x) {
      assert HoldsVar(g, s, fr, x);
    }
    forall x | x in s'.refs ensures HoldsRef(g, s', fr, x) {
      assert HoldsRef(g, s, fr, x);
    }
    forall loc | loc in s'.parts ensures HoldsCell(s', fr, loc) {
      assert HoldsCell(s, fr, loc);
    }
  }

  lemma WriteEnd(m: Machine, g: Gamma, a: ExpCode, place: nat, t: nat, o: ExpCode, pc: nat, io: Console,
                 fr: Frame, ks: seq<Caller>, p1: Place, s1: Store, fr1: Frame)
    requires ExpEnd(m, g, a, t, t + 1, pc, io, fr, ks, p1, s1, fr1)
    requires place < t && t + 1 <= a.t
    requires o.code == a.code + [WRITE(a.op)] && o.op == Temp(place) && o.ty == None
    requires Placed(m, pc, o.code, fr.fn) && ReadPlace(s1, p1).Some?
    ensures ExpEnd(m, g, o, place, t, pc, io, fr, ks, NoValue, s1.(io := s1.io.Write(ReadPlace(s1, p1).value)), fr1)
  {
    var v := ReadPlace(s1, p1).value;
    var pc1 := pc + |a.code|;
    ReadOk(m, g, s1, fr1, p1, a, t, t + 1);
    InstrAt(m, pc, o.code, fr.fn, |a.code|);
    StepWrite(m, pc1, fr1, ks, s1.io, a.op, v);
    assert pc1 + 1 == pc + |o.code|;
    Arrive(m, Ready(pc, fr, ks, io), Ready(pc1, fr1, ks, s1.io), Ready(pc + |o.code|, fr1, ks, s1.io.Write(v)));
    ConsoleDoesNotMatter(m, g, s1, s1.io.Write(v), fr1);
    KeptLess(g, fr, fr1, t, t + 1, place, t);
  }

  // ----- parts of structures and arrays -----

  lemma PartMore(loc: Loc, sel: Selector)
    ensures var deeper := PartAt(Loc(loc.obj, loc.path + [sel]));
            match PartAt(loc)
            case None => deeper == None
            case Some((offset, ty)) =>
              match Select(ty, sel)
              case None => deeper == None
              case Some((more, part)) => deeper == Some((offset + more, part))
  {
    assert (loc.path + [sel])[..|loc.path|] == loc.path;
  }

  /** The operand that `a` has left stands for the structure or array at `loc`: the parts of it are
      reached from its address. */
  ghost predicate Stem(g: Gamma, fr: Frame, a: ExpCode, loc: Loc, t: nat) {
    && a.ty.Some? && PartAt(loc).Some? && Pointee(a.ty.value) == PartAt(loc).value.1
    && Get(fr, AddressOf(a.op, a.ty)) == Some(CellAddr(fr, loc))
    && match AddressOf(a.op, a.ty)
       case GetAddr(o) => o.Variable?
       case op => Leads(g, op, t, a.t)
  }

  lemma StemOk(m: Machine, g: Gamma, s: Store, fr: Frame, pl: Place, loc: Loc, a: ExpCode, place: nat, t: nat,
               sel: Selector)
    requires Represents(m, g, s, fr) && Denotes(g, fr, pl, a, place, t)
    requires Denoted(g, s, pl) == Some(loc) && Part(g, s, pl, sel).Some?
    ensures Stem(g, fr, a, loc, t)
  {
    assert Inspect(0);
    PartMore(loc, sel);
    assert Alive(g, fr, loc.obj);
    if pl.Named? && g[pl.name].Ref? {
      assert HoldsRef(g, s, fr, pl.name);
    }
  }

  lemma StillStem(m: Machine, g: Gamma, fr: Frame, fr': Frame, a: ExpCode, loc: Loc, t: nat, other: nat)
    requires Stem(g, fr, a, loc, t) && Kept(g, fr, fr', other, a.t) && (other < t || a.t <= other)
    ensures Stem(g, fr', a, loc, t)
  {
    assert Inspect(0);
  }

  lemma StemBelow(m: Machine, g: Gamma, fr: Frame, a: ExpCode, loc: Loc, t: nat, t': nat)
    requires Stem(g, fr, a, loc, t) && a.t <= t'
    ensures Below(AddressOf(a.op, a.ty), t')
  {
  }

  /** The parts of a declared object lie inside the address space. */
  lemma CellInFrame(m: Machine, g: Gamma, s: Store, fr: Frame, loc: Loc)
    requires SoundLayout(m, g, fr.fn) && Represents(m, g, s, fr) && loc.obj in s.declared && PartAt(loc).Some?
    ensures 0 <= CellAddr(fr, loc)
    ensures CellAddr(fr, loc) + SizeOf(PartAt(loc).value.1) <= INT_MAX
  {
    AccessInBounds(loc.obj.ty, loc.path);
    ObjectAlive(m, g, s, fr, loc.obj);
    ObjectInside(m, g, s, fr, loc.obj.home);
  }

  /** A part that starts where the whole starts. */
  lemma SamePlaceEnd(m: Machine, g: Gamma, loc: Loc, deeper: Loc, a: ExpCode, code: Code, place: nat, ta: nat, t: nat,
                     t1: nat, o: ExpCode, pc: nat, io: Console, fr: Frame, ks: seq<Caller>, s: Store, fr1: Frame)
    returns (fr': Frame)
    requires Gets(m, Ready(pc, fr, ks, io), Ready(pc + |code|, fr1, ks, s.io))
    requires Represents(m, g, s, fr1) && Stem(g, fr1, a, loc, ta) && Kept(g, fr, fr1, place, t)
    requires o == Deref(code, AddressOf(a.op, a.ty), o.ty, t1, o.l) && t <= ta <= a.t <= t1
    requires Placed(m, pc, o.code, fr.fn) && loc.obj in s.declared
    requires PartAt(deeper).Some? && o.ty == Some(PartAt(deeper).value.1)
    requires CellAddr(fr1, deeper) == CellAddr(fr1, loc)
    ensures ExpEnd(m, g, o, place, t, pc, io, fr, ks, At(deeper), s, fr')
  {
    var addr := AddressOf(a.op, a.ty);
    if addr.GetAddr? {
      var pc1 := pc + |code|;
      InstrAt(m, pc, o.code, fr.fn, |code|);
      StepAssign(m, pc1, fr1, ks, s.io, Temp(t1), addr);
      fr' := SetTemp(fr1, t1, CellAddr(fr1, loc));
      assert pc1 + 1 == pc + |o.code|;
      Arrive(m, Ready(pc, fr, ks, io), Ready(pc1, fr1, ks, s.io), Ready(pc + |o.code|, fr', ks, s.io));
      SetTempKeeps(g, fr1, t1, CellAddr(fr1, loc), t);
      TempsDoNotMatter(m, g, s, fr1, fr');
      KeptThen(g, fr, fr1, fr', place, t, t1, t, place, t);
    } else {
      fr' := fr1;
    }
  }

  lemma DotEnd(m: Machine, g: Gamma, a: ExpCode, offset: nat, place: nat, t: nat, o: ExpCode, code: Code, t': nat,
               pc: nat, io: Console, fr: Frame, ks: seq<Caller>, pl: Place, loc: Loc, deeper: Loc, s: Store, fr1: Frame)
    returns (fr': Frame)
    requires ExpEnd(m, g, a, t, t + 1, pc, io, fr, ks, pl, s, fr1) && SoundLayout(m, g, fr.fn)
    requires Stem(g, fr1, a, loc, t + 1) && t + 1 <= a.t && deeper.obj == loc.obj && loc.obj in s.declared
    requires PartAt(loc).Some? && PartAt(deeper).Some?
    requires PartAt(deeper).value.0 == PartAt(loc).value.0 + offset
    requires Arithmetic(Plus, Temp(a.t), AddressOf(a.op, a.ty), Const(offset), a.t + 1) == (code, t')
    requires o == ExpCode(a.code + code, GetVal(Temp(a.t)), Some(PartAt(deeper).value.1), t', o.l)
    requires Placed(m, pc, o.code, fr.fn)
    ensures ExpEnd(m, g, o, place, t, pc, io, fr, ks, At(deeper), s, fr')
  {
    hide Arithmetic, AddressOf, PartAt, SizeOf, Stem;
    var pc1 := pc + |a.code|;
    Split(m, pc, a.code, code, fr.fn);
    fr' := AddEnd(m, g, a, t + 1, Const(offset), a.t, offset, code, a.t + 1, t', pc1, fr1, ks, loc, deeper, s);
    assert pc1 + |code| == pc + |o.code|;
    Arrive(m, Ready(pc, fr, ks, io), Ready(pc1, fr1, ks, s.io), Ready(pc + |o.code|, fr', ks, s.io));
    KeptThen(g, fr, fr1, fr', t, t + 1, a.t, a.t + 1, place, t);
  }

  lemma MemberPlaced(m: Machine, pc: nat, a: ExpCode, name: string, fn: string)
    requires Placed(m, pc, MemberCode(a, name).code, fn)
    ensures Placed(m, pc, a.code, fn)
  {
    var code := MemberCode(a, name).code;
    assert code == a.code + code[|a.code|..];
    Split(m, pc, a.code, code[|a.code|..], fn);
  }

  lemma ElementPlaced(m: Machine, pc: nat, a: ExpCode, i: ExpCode, scaled: nat, fn: string)
    requires Placed(m, pc, ElementCode(a, i, scaled).code, fn)
    ensures Placed(m, pc, a.code + i.code, fn)
  {
    var code := ElementCode(a, i, scaled).code;
    var n := |a.code + i.code|;
    assert code == a.code + i.code + code[n..];
    Split(m, pc, a.code + i.code, code[n..], fn);
  }

  /** A member access, whether the member is the first one or not. */
  lemma FieldEnd(m: Machine, g: Gamma, a: ExpCode, name: string, place: nat, t: nat, o: ExpCode,
                 pc: nat, io: Console, fr: Frame, ks: seq<Caller>, pl: Place, deeper: Loc, s: Store, fr1: Frame)
    returns (fr': Frame)
    requires ExpEnd(m, g, a, t, t + 1, pc, io, fr, ks, pl, s, fr1)
    requires SoundLayout(m, g, fr.fn) && place < t && t + 1 <= a.t
    requires Part(g, s, pl, Member(name)) == Some(deeper)
    requires o == MemberCode(a, name) && Placed(m, pc, o.code, fr.fn)
    ensures ExpEnd(m, g, o, place, t, pc, io, fr, ks, At(deeper), s, fr')
  {
    var loc := Denoted(g, s, pl).value;
    PartMore(loc, Member(name));
    StemOk(m, g, s, fr1, pl, loc, a, t, t + 1, Member(name));
    fr' := MemberEnds(m, g, a, name, MemberOf(a.ty, name).0, place, t, o, pc, io, fr, ks, pl, loc, deeper, s, fr1);
  }

  lemma MemberEnds(m: Machine, g: Gamma, a: ExpCode, name: string, offset: nat, place: nat, t: nat, o: ExpCode,
                   pc: nat, io: Console, fr: Frame, ks: seq<Caller>, pl: Place, loc: Loc, deeper: Loc, s: Store,
                   fr1: Frame)
    returns (fr': Frame)
    requires ExpEnd(m, g, a, t, t + 1, pc, io, fr, ks, pl, s, fr1)
    requires SoundLayout(m, g, fr.fn) && place < t && t + 1 <= a.t && Stem(g, fr1, a, loc, t + 1)
    requires deeper.obj == loc.obj && loc.obj in s.declared && PartAt(deeper).Some?
    requires MemberOf(a.ty, name) == (offset, Some(PartAt(deeper).value.1))
    requires PartAt(deeper).value.0 == PartAt(loc).value.0 + offset
    requires o == MemberCode(a, name) && Placed(m, pc, o.code, fr.fn)
    ensures ExpEnd(m, g, o, place, t, pc, io, fr, ks, At(deeper), s, fr')
  {
    if offset == 0 {
      KeptLess(g, fr, fr1, t, t + 1, place, t);
      fr' := SamePlaceEnd(m, g, loc, deeper, a, a.code, place, t + 1, t, a.t, o, pc, io, fr, ks, s, fr1);
    } else {
      var (code, t') := Arithmetic(Plus, Temp(a.t), AddressOf(a.op, a.ty), Const(offset), a.t + 1);
      fr' := DotEnd(m, g, a, offset, place, t, o, code, t', pc, io, fr, ks, pl, loc, deeper, s, fr1);
    }
  }

  /** An index operand that looks like the constant 0 has the value 0. */
  lemma ZeroIndex(m: Machine, g: Gamma, s: Store, fr: Frame, pl: Place, i: ExpCode, place: nat, t: nat)
    requires Represents(m, g, s, fr) && Denotes(g, fr, pl, i, place, t) && place > 0
    requires ReadPlace(s, pl).Some? && IsZeroWord(i.op)
    ensures ReadPlace(s, pl) == Some(0)
  {
  }

  lemma IndexPlaced(m: Machine, pc: nat, a: Code, i: Code, code3: Code, code4: Code, fn: string)
    requires Placed(m, pc, a + i + code3 + code4, fn)
    ensures Placed(m, pc + |a| + |i|, code3, fn) && Placed(m, pc + |a| + |i| + |code3|, code4, fn)
  {
    Split(m, pc, a + i + code3, code4, fn);
    Split(m, pc, a + i, code3, fn);
  }

  /** From the operands of an index expression to the element, `distance` bytes into the array. */
  lemma IndexEnd(m: Machine, g: Gamma, a: ExpCode, i: ExpCode, size: nat, distance: nat, place: nat, t: nat, o: ExpCode,
                 code3: Code, t3: nat, code4: Code, t4: nat, pc: nat, io: Console, fr: Frame, ks: seq<Caller>,
                 loc: Loc, deeper: Loc, p2: Place, s: Store, fr2: Frame)
    returns (fr': Frame)
    requires Gets(m, Ready(pc, fr, ks, io), Ready(pc + |a.code| + |i.code|, fr2, ks, s.io)) && Kept(g, fr, fr2, t, t)
    requires Represents(m, g, s, fr2) && Stem(g, fr2, a, loc, t + 3) && Denotes(g, fr2, p2, i, t + 1, a.t)
    requires SoundLayout(m, g, fr.fn) && place < t && t + 3 <= a.t <= i.t
    requires deeper.obj == loc.obj && loc.obj in s.declared
    requires ReadPlace(s, p2).Some? && ReadPlace(s, p2).value * size == distance
    requires PartAt(deeper).Some? && PartAt(deeper).value.0 == PartAt(loc).value.0 + distance
    requires distance + size <= SizeOf(PartAt(loc).value.1)
    requires Arithmetic(Star, Temp(t + 2), i.op, Const(size), i.t + 1) == (code3, t3)
    requires Arithmetic(Plus, Temp(i.t), AddressOf(a.op, a.ty), Temp(t + 2), t3) == (code4, t4)
    requires o == ExpCode(a.code + i.code + code3 + code4, GetVal(Temp(i.t)), Some(PartAt(deeper).value.1), t4, o.l)
    requires Placed(m, pc, o.code, fr.fn)
    ensures ExpEnd(m, g, o, place, t, pc, io, fr, ks, At(deeper), s, fr')
  {
    hide Arithmetic, AddressOf, PartAt, SizeOf, ReadPlace;
    var pc2, pc3, end := pc + |a.code| + |i.code|, pc + |a.code| + |i.code| + |code3|, pc + |o.code|;
    IndexPlaced(m, pc, a.code, i.code, code3, code4, fr.fn);
    assert end == pc3 + |code4|;
    fr' := ElementEnd(m, g, a, i, size, distance, t, code3, t3, code4, t4, pc2, pc3, end, fr2, ks, loc, deeper, p2, s);
    Arrive(m, Ready(pc, fr, ks, io), Ready(pc2, fr2, ks, s.io), Ready(end, fr', ks, s.io));
    KeptThen(g, fr, fr2, fr', t, t, t, t, place, t);
  }

  /** The two operations that compute the address of an element. */
  lemma ElementEnd(m: Machine, g: Gamma, a: ExpCode, i: ExpCode, size: nat, distance: nat, t: nat,
                   code3: Code, t3: nat, code4: Code, t4: nat, pc: nat, pc3: nat, end: nat, fr: Frame, ks: seq<Caller>,
                   loc: Loc, deeper: Loc, pl: Place, s: Store)
    returns (fr': Frame)
    requires Represents(m, g, s, fr) && SoundLayout(m, g, fr.fn) && t + 3 <= a.t <= i.t
    requires Stem(g, fr, a, loc, t + 3) && Denotes(g, fr, pl, i, t + 1, a.t)
    requires deeper.obj == loc.obj && loc.obj in s.declared
    requires ReadPlace(s, pl).Some? && ReadPlace(s, pl).value * size == distance
    requires PartAt(deeper).Some? && PartAt(deeper).value.0 == PartAt(loc).value.0 + distance
    requires distance + size <= SizeOf(PartAt(loc).value.1)
    requires Arithmetic(Star, Temp(t + 2), i.op, Const(size), i.t + 1) == (code3, t3)
    requires Arithmetic(Plus, Temp(i.t), AddressOf(a.op, a.ty), Temp(t + 2), t3) == (code4, t4)
    requires Placed(m, pc, code3, fr.fn) && Placed(m, pc3, code4, fr.fn) && pc3 == pc + |code3| && end == pc3 + |code4|
    ensures Reaches(m, Ready(pc, fr, ks, s.io), Ready(end, fr', ks, s.io))
    ensures Represents(m, g, s, fr') && Kept(g, fr, fr', t, t)
    ensures Temp(i.t) in fr'.env && fr'.env[Temp(i.t)] == CellAddr(fr', deeper) && i.t < t4
  {
    hide Arithmetic, AddressOf, PartAt, SizeOf, ReadPlace;
    var fr3 := ScaleEnd(m, g, i, size, t, a.t, code3, t3, pc, fr, ks, pl, s, loc, distance);
    TempsDoNotMatter(m, g, s, fr, fr3);
    StillStem(m, g, fr, fr3, a, loc, t + 3, t + 2);
    fr' := AddEnd(m, g, a, t + 3, Temp(t + 2), i.t, distance, code4, t3, t4, pc3, fr3, ks, loc, deeper, s);
    Then(m, Ready(pc, fr, ks, s.io), Ready(pc3, fr3, ks, s.io), Ready(end, fr', ks, s.io));
    KeptThen(g, fr, fr3, fr', t + 2, i.t + 1, i.t, t3, t, t);
  }

  /** The index times the element size, put into temporary `t + 2`. */
  lemma ScaleEnd(m: Machine, g: Gamma, i: ExpCode, size: nat, t: nat, ta: nat, code: Code, t': nat,
                 pc: nat, fr: Frame, ks: seq<Caller>, pl: Place, s: Store, loc: Loc, distance: nat)
    returns (fr': Frame)
    requires Represents(m, g, s, fr) && Denotes(g, fr, pl, i, t + 1, ta) && SoundLayout(m, g, fr.fn)
    requires t + 3 <= ta <= i.t && loc.obj in s.declared && PartAt(loc).Some?
    requires ReadPlace(s, pl).Some? && ReadPlace(s, pl).value * size == distance
    requires distance + size <= SizeOf(PartAt(loc).value.1)
    requires Arithmetic(Star, Temp(t + 2), i.op, Const(size), i.t + 1) == (code, t')
    requires Placed(m, pc, code, fr.fn)
    ensures Reaches(m, Ready(pc, fr, ks, s.io), Ready(pc + |code|, fr', ks, s.io))
    ensures SameVars(fr, fr') && Kept(g, fr, fr', t + 2, i.t + 1)
    ensures Temp(t + 2) in fr'.env && fr'.env[Temp(t + 2)] == distance
  {
    ReadOk(m, g, s, fr, pl, i, t + 1, ta);
    DenotedBelow(m, g, fr, pl, i, t + 1, ta, i.t + 1);
    CellInFrame(m, g, s, fr, loc);
    var v := ReadPlace(s, pl).value;
    assert Compute(Star, v, size) == Some(distance);
    fr' := ArithmeticOk(m, g, pc, fr, ks, s.io, Star, t + 2, i.op, Const(size), i.t + 1, v, size, code, t');
  }

  /** An address plus a distance, put into temporary `k`. */
  lemma AddEnd(m: Machine, g: Gamma, a: ExpCode, ta: nat, src: Operand, k: nat, distance: nat, code: Code, t3: nat,
               t4: nat, pc: nat, fr: Frame, ks: seq<Caller>, loc: Loc, deeper: Loc, s: Store)
    returns (fr': Frame)
    requires Represents(m, g, s, fr) && Stem(g, fr, a, loc, ta) && SoundLayout(m, g, fr.fn)
    requires Get(fr, src) == Some(distance) && Below(src, t3)
    requires a.t <= k < t3 && deeper.obj == loc.obj && loc.obj in s.declared
    requires PartAt(deeper).Some? && PartAt(deeper).value.0 == PartAt(loc).value.0 + distance
    requires Arithmetic(Plus, Temp(k), AddressOf(a.op, a.ty), src, t3) == (code, t4)
    requires Placed(m, pc, code, fr.fn)
    ensures Reaches(m, Ready(pc, fr, ks, s.io), Ready(pc + |code|, fr', ks, s.io))
    ensures Represents(m, g, s, fr') && Kept(g, fr, fr', k, t3) && t3 <= t4
    ensures Temp(k) in fr'.env && fr'.env[Temp(k)] == CellAddr(fr', deeper)
  {
    StemBelow(m, g, fr, a, loc, ta, t3);
    CellInFrame(m, g, s, fr, deeper);
    fr' := ArithmeticOk(m, g, pc, fr, ks, s.io, Plus, k, AddressOf(a.op, a.ty), src, t3, CellAddr(fr, loc), distance,
                        code, t4);
    TempsDoNotMatter(m, g, s, fr, fr');
  }

  /** An index expression, whichever way its index operand makes it go. */
  lemma SubscriptEnd(m: Machine, g: Gamma, a: ExpCode, i: ExpCode, place: nat, t: nat, o: ExpCode,
                     pc: nat, io: Console, fr: Frame, ks: seq<Caller>, p1: Place, deeper: Loc,
                     s1: Store, fr1: Frame, p2: Place, s: Store, fr2: Frame)
    returns (fr': Frame)
    requires ExpEnd(m, g, a, t, t + 3, pc, io, fr, ks, p1, s1, fr1)
    requires ExpEnd(m, g, i, t + 1, a.t, pc + |a.code|, s1.io, fr1, ks, p2, s, fr2)
    requires SoundLayout(m, g, fr.fn) && place < t && t + 3 <= a.t <= i.t
    requires ReadPlace(s, p2).Some? && ReadPlace(s, p2).value >= 0
    requires Part(g, s, p1, Element(ReadPlace(s, p2).value)) == Some(deeper)
    requires o == ElementCode(a, i, t + 2) && Placed(m, pc, o.code, fr.fn)
    ensures ExpEnd(m, g, o, place, t, pc, io, fr, ks, At(deeper), s, fr')
  {
    hide ElementCode, ReadPlace, Represents, Follow;
    BothEnd(m, g, a, t + 3, i, t, pc, io, fr, ks, p1, s1, fr1, p2, s, fr2);
    var loc, v, size := Denoted(g, s, p1).value, ReadPlace(s, p2).value, SizeOf(ElemType(a.ty));
    StemOk(m, g, s, fr2, p1, loc, a, t, t + 3, Element(v));
    ElementFacts(g, s, p1, loc, v, deeper, a.ty, size);
    fr' := ElementEnds(m, g, a, i, size, v * size, place, t, o, pc, io, fr, ks, loc, deeper, p2, s, fr2);
  }

  lemma ElementEnds(m: Machine, g: Gamma, a: ExpCode, i: ExpCode, size: nat, distance: nat, place: nat, t: nat,
                    o: ExpCode,
                    pc: nat, io: Console, fr: Frame, ks: seq<Caller>, loc: Loc, deeper: Loc, p2: Place, s: Store,
                    fr2: Frame)
    returns (fr': Frame)
    requires Gets(m, Ready(pc, fr, ks, io), Ready(pc + |a.code| + |i.code|, fr2, ks, s.io)) && Kept(g, fr, fr2, t, t)
    requires Represents(m, g, s, fr2) && Stem(g, fr2, a, loc, t + 3) && Denotes(g, fr2, p2, i, t + 1, a.t)
    requires SoundLayout(m, g, fr.fn) && place < t && t + 3 <= a.t <= i.t
    requires deeper.obj == loc.obj && loc.obj in s.declared
    requires ReadPlace(s, p2).Some? && ReadPlace(s, p2).value * size == distance && size == SizeOf(ElemType(a.ty))
    requires PartAt(loc).Some? && PartAt(deeper) == Some((PartAt(loc).value.0 + distance, ElemType(a.ty)))
    requires distance + size <= SizeOf(PartAt(loc).value.1)
    requires o == ElementCode(a, i, t + 2) && Placed(m, pc, o.code, fr.fn)
    ensures ExpEnd(m, g, o, place, t, pc, io, fr, ks, At(deeper), s, fr')
  {
    if IsZeroWord(i.op) {
      fr' := ZeroEnd(m, g, a, i, size, distance, place, t, o, pc, io, fr, ks, loc, deeper, p2, s, fr2);
    } else {
      fr' := ScaledEnd(m, g, a, i, size, distance, place, t, o, pc, io, fr, ks, loc, deeper, p2, s, fr2);
    }
  }

  lemma ZeroEnd(m: Machine, g: Gamma, a: ExpCode, i: ExpCode, size: nat, distance: nat, place: nat, t: nat, o: ExpCode,
                pc: nat, io: Console, fr: Frame, ks: seq<Caller>, loc: Loc, deeper: Loc, p2: Place, s: Store,
                fr2: Frame)
    returns (fr': Frame)
    requires Gets(m, Ready(pc, fr, ks, io), Ready(pc + |a.code| + |i.code|, fr2, ks, s.io)) && Kept(g, fr, fr2, t, t)
    requires Represents(m, g, s, fr2) && Stem(g, fr2, a, loc, t + 3) && Denotes(g, fr2, p2, i, t + 1, a.t)
    requires SoundLayout(m, g, fr.fn) && place < t && t + 3 <= a.t <= i.t
    requires deeper.obj == loc.obj && loc.obj in s.declared
    requires ReadPlace(s, p2).Some? && ReadPlace(s, p2).value * size == distance && size == SizeOf(ElemType(a.ty))
    requires PartAt(loc).Some? && PartAt(deeper) == Some((PartAt(loc).value.0 + distance, ElemType(a.ty)))
    requires distance + size <= SizeOf(PartAt(loc).value.1)
    requires o == ElementCode(a, i, t + 2) && IsZeroWord(i.op) && Placed(m, pc, o.code, fr.fn)
    ensures ExpEnd(m, g, o, place, t, pc, io, fr, ks, At(deeper), s, fr')
  {
    KeptLess(g, fr, fr2, t, t, place, t);
    ZeroIndex(m, g, s, fr2, p2, i, t + 1, a.t);
    fr' := SamePlaceEnd(m, g, loc, deeper, a, a.code + i.code, place, t + 3, t, i.t, o, pc, io, fr, ks, s, fr2);
  }

  lemma ScaledEnd(m: Machine, g: Gamma, a: ExpCode, i: ExpCode, size: nat, distance: nat, place: nat, t: nat,
                  o: ExpCode,
                  pc: nat, io: Console, fr: Frame, ks: seq<Caller>, loc: Loc, deeper: Loc, p2: Place, s: Store,
                  fr2: Frame)
    returns (fr': Frame)
    requires Gets(m, Ready(pc, fr, ks, io), Ready(pc + |a.code| + |i.code|, fr2, ks, s.io)) && Kept(g, fr, fr2, t, t)
    requires Represents(m, g, s, fr2) && Stem(g, fr2, a, loc, t + 3) && Denotes(g, fr2, p2, i, t + 1, a.t)
    requires SoundLayout(m, g, fr.fn) && place < t && t + 3 <= a.t <= i.t
    requires deeper.obj == loc.obj && loc.obj in s.declared
    requires ReadPlace(s, p2).Some? && ReadPlace(s, p2).value * size == distance && size == SizeOf(ElemType(a.ty))
    requires PartAt(loc).Some? && PartAt(deeper) == Some((PartAt(loc).value.0 + distance, ElemType(a.ty)))
    requires distance + size <= SizeOf(PartAt(loc).value.1)
    requires o == ElementCode(a, i, t + 2) && !IsZeroWord(i.op) && Placed(m, pc, o.code, fr.fn)
    ensures ExpEnd(m, g, o, place, t, pc, io, fr, ks, At(deeper), s, fr')
  {
    var (code3, t3) := Arithmetic(Star, Temp(t + 2), i.op, Const(size), i.t + 1);
    var (code4, t4) := Arithmetic(Plus, Temp(i.t), AddressOf(a.op, a.ty), Temp(t + 2), t3);
    fr' := IndexEnd(m, g, a, i, size, distance, place, t, o, code3, t3, code4, t4, pc, io, fr, ks, loc, deeper, p2, s,
                    fr2);
  }

  /** Where an element lies in its array. */
  lemma ElementFacts(g: Gamma, s: Store, pl: Place, loc: Loc, v: nat, deeper: Loc, ty: Option<Type>, size: nat)
    requires Denoted(g, s, pl) == Some(loc) && Part(g, s, pl, Element(v)) == Some(deeper)
    requires ty.Some? && PartAt(loc).Some? && Pointee(ty.value) == PartAt(loc).value.1 && size == SizeOf(ElemType(ty))
    ensures PartAt(deeper) == Some((PartAt(loc).value.0 + v * size, ElemType(ty)))
    ensures 0 <= v * size && v * size + size <= SizeOf(PartAt(loc).value.1)
    ensures deeper.obj == loc.obj && loc.obj in s.declared
  {
    PartMore(loc, Element(v));
    ElementInside(v, PartAt(loc).value.1.length, size);
  }

  // ----- conditions -----

  /** The code of a condition, started at `pc`, has jumped to `pos`. */
  ghost predicate CondEnd(m: Machine, g: Gamma, t: nat, pc: nat, io: Console, fr: Frame, ks: seq<Caller>,
                          pos: nat, s': Store, fr': Frame) {
    && Gets(m, Ready(pc, fr, ks, io), Ready(pos, fr', ks, s'.io))
    && Represents(m, g, s', fr')
    && Kept(g, fr, fr', t, t)
  }

  lemma BranchEnd(m: Machine, g: Gamma, op: Relop, a: ExpCode, b: ExpCode, t: nat, yes: nat, no: nat, ypos: nat,
                  npos: nat, pc: nat, io: Console, fr: Frame, ks: seq<Caller>, p1: Place, s1: Store, fr1: Frame,
                  p2: Place, s2: Store, fr2: Frame)
    requires ExpEnd(m, g, a, t, t + 2, pc, io, fr, ks, p1, s1, fr1)
    requires ExpEnd(m, g, b, t + 1, a.t, pc + |a.code|, s1.io, fr1, ks, p2, s2, fr2)
    requires t + 2 <= a.t
    requires Placed(m, pc + |a.code| + |b.code|, [IF_GOTO(op, a.op, b.op, yes), GOTO(no)], fr.fn)
    requires Target(m, fr, yes) == Some(ypos) && Target(m, fr, no) == Some(npos)
    requires ReadPlace(s2, p1).Some? && ReadPlace(s2, p2).Some?
    ensures var holds := Compare(op, ReadPlace(s2, p1).value, ReadPlace(s2, p2).value);
            CondEnd(m, g, t, pc, io, fr, ks, if holds then ypos else npos, s2, fr2)
  {
    BothEnd(m, g, a, t + 2, b, t, pc, io, fr, ks, p1, s1, fr1, p2, s2, fr2);
    ReadOk(m, g, s2, fr2, p1, a, t, t + 2);
    ReadOk(m, g, s2, fr2, p2, b, t + 1, a.t);
    var pc2 := pc + |a.code| + |b.code|;
    var code := [IF_GOTO(op, a.op, b.op, yes), GOTO(no)];
    InstrAt(m, pc2, code, fr.fn, 0);
    InstrAt(m, pc2, code, fr.fn, 1);
    StepBranch(m, pc2, fr2, ks, s2.io, op, a.op, b.op, yes, no, ypos, npos);
    var holds := Compare(op, ReadPlace(s2, p1).value, ReadPlace(s2, p2).value);
    Arrive(m, Ready(pc, fr, ks, io), Ready(pc2, fr2, ks, s2.io), Ready(if holds then ypos else npos, fr2, ks, s2.io));
  }

  lemma TestEnd(m: Machine, g: Gamma, a: ExpCode, t: nat, yes: nat, no: nat, ypos: nat, npos: nat,
                pc: nat, io: Console, fr: Frame, ks: seq<Caller>, p1: Place, s1: Store, fr1: Frame)
    requires ExpEnd(m, g, a, t, t + 1, pc, io, fr, ks, p1, s1, fr1)
    requires Placed(m, pc + |a.code|, [IF_GOTO(Ne, a.op, Const(0), yes), GOTO(no)], fr.fn)
    requires Target(m, fr, yes) == Some(ypos) && Target(m, fr, no) == Some(npos)
    requires ReadPlace(s1, p1).Some?
    ensures CondEnd(m, g, t, pc, io, fr, ks, if ReadPlace(s1, p1).value != 0 then ypos else npos, s1, fr1)
  {
    ReadOk(m, g, s1, fr1, p1, a, t, t + 1);
    var pc1 := pc + |a.code|;
    var code := [IF_GOTO(Ne, a.op, Const(0), yes), GOTO(no)];
    InstrAt(m, pc1, code, fr.fn, 0);
    InstrAt(m, pc1, code, fr.fn, 1);
    StepBranch(m, pc1, fr1, ks, s1.io, Ne, a.op, Const(0), yes, no, ypos, npos);
    var holds := ReadPlace(s1, p1).value != 0;
    Arrive(m, Ready(pc, fr, ks, io), Ready(pc1, fr1, ks, s1.io), Ready(if holds then ypos else npos, fr1, ks, s1.io));
    KeptLess(g, fr, fr1, t, t + 1, t, t);
  }

  /** A condition that has jumped to a label goes on behind it. */
  lemma PastLabel(m: Machine, g: Gamma, t: nat, pc: nat, io: Console, fr: Frame, ks: seq<Caller>,
                  pos: nat, s: Store, fr1: Frame)
    requires CondEnd(m, g, t, pc, io, fr, ks, pos, s, fr1) && pos < |m.code| && m.code[pos].LABEL?
    ensures CondEnd(m, g, t, pc, io, fr, ks, pos + 1, s, fr1)
  {
    StepSkip(m, pos, fr1, ks, s.io);
    Arrive(m, Ready(pc, fr, ks, io), Ready(pos, fr1, ks, s.io), Ready(pos + 1, fr1, ks, s.io));
  }

  lemma CondThen(m: Machine, g: Gamma, t: nat, pc: nat, io: Console, fr: Frame, ks: seq<Caller>,
                 mid: nat, s1: Store, fr1: Frame, t': nat, pos: nat, s2: Store, fr2: Frame)
    requires CondEnd(m, g, t, pc, io, fr, ks, mid, s1, fr1)
    requires CondEnd(m, g, t', mid, s1.io, fr1, ks, pos, s2, fr2) && t <= t'
    ensures CondEnd(m, g, t, pc, io, fr, ks, pos, s2, fr2)
  {
    Onward(m, Ready(pc, fr, ks, io), Ready(mid, fr1, ks, s1.io), Ready(pos, fr2, ks, s2.io));
    KeptThen(g, fr, fr1, fr2, t, t, t', t', t, t);
  }

  /** The code around a condition that is used as a value. */
  lemma ValueEnd(m: Machine, g: Gamma, place: nat, t: nat, l: nat, o: ExpCode, code: Code, pc: nat, s: Store, fr: Frame,
                 ks: seq<Caller>, holds: bool, s': Store, fr1: Frame)
    returns (fr': Frame)
    requires place < t && o.op == Temp(place) && o.ty == None && Placed(m, pc, o.code, fr.fn)
    requires o.code == [ASSIGN(Temp(place), Const(0))] + code + [LABEL(l), ASSIGN(Temp(place), Const(1)), LABEL(l + 1)]
    requires CondEnd(m, g, t, pc + 1, s.io, SetTemp(fr, place, 0), ks,
                     if holds then pc + 1 + |code| else pc + 3 + |code|, s', fr1)
    ensures ExpEnd(m, g, o, place, t, pc, s.io, fr, ks, Val(if holds then 1 else 0), s', fr')
  {
    hide Represents, SameVars;
    var fr0 := SetTemp(fr, place, 0);
    InstrAt(m, pc, o.code, fr.fn, 0);
    StepAssign(m, pc, fr, ks, s.io, Temp(place), Const(0));
    SetTempKeeps(g, fr, place, 0, t);
    var at, end := pc + 1 + |code|, pc + |o.code|;
    assert end == at + 3;
    InstrAt(m, pc, o.code, fr.fn, 1 + |code|);
    InstrAt(m, pc, o.code, fr.fn, 2 + |code|);
    InstrAt(m, pc, o.code, fr.fn, 3 + |code|);
    if holds {
      fr' := TrueEnd(m, g, place, t, at, pc + 1, s.io, fr0, ks, s', fr1);
    } else {
      fr' := fr1;
      PastLabel(m, g, t, pc + 1, s.io, fr0, ks, at + 2, s', fr1);
      KeptLess(g, fr0, fr1, t, t, place, t);
      TempStays(g, fr0, fr1, place, t, t);
    }
    Depart(m, Ready(pc, fr, ks, s.io), Ready(pc + 1, fr0, ks, s.io), Ready(end, fr', ks, s'.io));
    KeptThen(g, fr, fr0, fr', place, t, place, t, place, t);
  }

  /** The condition holds: the value becomes 1. */
  lemma TrueEnd(m: Machine, g: Gamma, place: nat, t: nat, at: nat, pc: nat, io: Console, fr: Frame, ks: seq<Caller>,
                s: Store, fr1: Frame)
    returns (fr': Frame)
    requires CondEnd(m, g, t, pc, io, fr, ks, at, s, fr1) && at + 2 < |m.code|
    requires m.code[at].LABEL? && m.code[at + 1] == ASSIGN(Temp(place), Const(1)) && m.code[at + 2].LABEL?
    ensures Gets(m, Ready(pc, fr, ks, io), Ready(at + 3, fr', ks, s.io)) && Represents(m, g, s, fr')
    ensures Kept(g, fr, fr', place, t)
    ensures Temp(place) in fr'.env && fr'.env[Temp(place)] == 1
  {
    fr' := SetTemp(fr1, place, 1);
    PastLabel(m, g, t, pc, io, fr, ks, at, s, fr1);
    StepAssign(m, at + 1, fr1, ks, s.io, Temp(place), Const(1));
    StepSkip(m, at + 2, fr', ks, s.io);
    Then(m, Ready(at + 1, fr1, ks, s.io), Ready(at + 2, fr', ks, s.io), Ready(at + 3, fr', ks, s.io));
    Arrive(m, Ready(pc, fr, ks, io), Ready(at + 1, fr1, ks, s.io), Ready(at + 3, fr', ks, s.io));
    SetTempKeeps(g, fr1, place, 1, t);
    TempsDoNotMatter(m, g, s, fr1, fr');
    KeptThen(g, fr, fr1, fr', t, t, place, t, place, t);
  }

  // ----- calls -----

  /** What is passed for an argument: its value, or the address of the structure. */
  function WordOf(fr: Frame, arg: Argument): int {
    match arg
    case Number(v) => v
    case Object(loc) => CellAddr(fr, loc)
  }

  function WordsOf(fr: Frame, args: seq<Argument>): (vs: seq<int>)
    ensures |vs| == |args|
  {
    if args == [] then [] else [WordOf(fr, args[0])] + WordsOf(fr, args[1..])
  }

  /** The arguments have been evaluated and queued. */
  ghost predicate ArgsEnd(m: Machine, g: Gamma, o: StmtCode, t: nat, pc: nat, io: Console, fr: Frame, ks: seq<Caller>,
                          args: seq<Argument>, s': Store, fr': Frame) {
    && Gets(m, Ready(pc, fr, ks, io), Running(pc + |o.code|, fr', ks, WordsOf(fr', args), s'.io))
    && Represents(m, g, s', fr')
    && Kept(g, fr, fr', t, t)
  }

  /** A structure is passed as its address, everything else as its value. */
  lemma PassOk(m: Machine, g: Gamma, s: Store, fr: Frame, pl: Place, o: ExpCode, place: nat, t: nat, arg: Argument)
    requires Represents(m, g, s, fr) && Denotes(g, fr, pl, o, place, t) && Pass(g, s, pl) == Some(arg)
    ensures Get(fr, HandleAddress(o.op, o.ty)) == Some(WordOf(fr, arg))
  {
    assert Inspect(0);
    if arg.Number? {
      ReadOk(m, g, s, fr, pl, o, place, t);
    } else {
      assert Alive(g, fr, arg.loc.obj);
      if pl.Named? && g[pl.name].Ref? {
        assert HoldsRef(g, s, fr, pl.name);
      }
    }
  }

  lemma ArgEnd(m: Machine, g: Gamma, a: ExpCode, b: StmtCode, t: nat, o: StmtCode, pc: nat, io: Console, fr: Frame,
               ks: seq<Caller>, p1: Place, s1: Store, fr1: Frame, arg: Argument, args: seq<Argument>, s': Store,
               fr': Frame)
    requires ExpEnd(m, g, a, t, t + 1, pc, io, fr, ks, p1, s1, fr1)
    requires ArgsEnd(m, g, b, a.t, pc + |a.code|, s1.io, fr1, ks, args, s', fr')
    requires t + 1 <= a.t && Pass(g, s', p1) == Some(arg)
    requires o.code == a.code + b.code + [ARG(HandleAddress(a.op, a.ty))] && Placed(m, pc, o.code, fr.fn)
    ensures ArgsEnd(m, g, o, t, pc, io, fr, ks, [arg] + args, s', fr')
  {
    StillDenotes(g, fr1, fr', p1, a, t, t + 1, a.t);
    PassOk(m, g, s', fr', p1, a, t, t + 1, arg);
    var pc1, pc2 := pc + |a.code|, pc + |a.code| + |b.code|;
    InstrAt(m, pc, o.code, fr.fn, |a.code + b.code|);
    var waiting := Running(pc2, fr', ks, WordsOf(fr', args), s'.io);
    var queued := Running(pc + |o.code|, fr', ks, WordsOf(fr', [arg] + args), s'.io);
    assert ([arg] + args)[1..] == args && queued.args == [WordOf(fr', arg)] + WordsOf(fr', args);
    Onward(m, Ready(pc, fr, ks, io), Ready(pc1, fr1, ks, s1.io), waiting);
    StepArg(m, pc2, fr', ks, WordsOf(fr', args), s'.io, HandleAddress(a.op, a.ty), WordOf(fr', arg));
    Arrive(m, Ready(pc, fr, ks, io), waiting, queued);
    KeptThen(g, fr, fr1, fr', t, t + 1, a.t, a.t, t, t);
  }

  lemma {:induction false} ParamsAt(m: Machine, pc: nat, ps: seq<string>, rest: Code, fr: Frame, ks: seq<Caller>,
                                    io: Console)
    requires Placed(m, pc, TransParams(ps) + rest, fr.fn) && rest != [] && !rest[0].PARAM?
    ensures Params(m.code, pc) == ps && |TransParams(ps)| == |ps|
    ensures Reaches(m, Ready(pc, fr, ks, io), Ready(pc + |ps|, fr, ks, io))
    decreases |ps|
  {
    InstrAt(m, pc, TransParams(ps) + rest, fr.fn, 0);
    if ps == [] {
      Stay(m, Ready(pc, fr, ks, io));
    } else {
      assert TransParams(ps) + rest == [PARAM(ps[0])] + (TransParams(ps[1..]) + rest);
      Split(m, pc, [PARAM(ps[0])], TransParams(ps[1..]) + rest, fr.fn);
      ParamsAt(m, pc + 1, ps[1..], rest, fr, ks, io);
      StepSkip(m, pc, fr, ks, io);
      Then(m, Ready(pc, fr, ks, io), Ready(pc + 1, fr, ks, io), Ready(pc + |ps|, fr, ks, io));
    }
  }

  lemma BodyStart(fn: Function, t: nat, l: nat)
    ensures TransBody(fn, t, l).code != [] && !TransBody(fn, t, l).code[0].PARAM?
  {
  }

  function CalleeFrame(m: Machine, fr: Frame, fn: Function, args: seq<Argument>): Frame
    requires |fn.params| == |args|
  {
    Callee(m, fr, fn.name, fn.params, WordsOf(fr, args))
  }

  /** The structures that are passed exist. */
  ghost predicate PassedAlive(s: Store, args: seq<Argument>) {
    forall i :: 0 <= i < |args| && args[i].Object? ==> args[i].loc.obj in s.declared
  }

  /** `args` can be passed to `fn` (kept folded, like `Ir.Reaches`). */
  ghost predicate Admitted(fn: Function, s: Store, args: seq<Argument>) {
    |fn.params| == |args| && forall k {:trigger Recall(k)} :: Recall(k) ==>
      Accepts(fn.vars, fn.params, args) && PassedAlive(s, args)
  }

  lemma IsAdmitted(fn: Function, s: Store, args: seq<Argument>)
    requires Admitted(fn, s, args)
    ensures Accepts(fn.vars, fn.params, args) && PassedAlive(s, args)
  {
    assert Recall(0);
  }

  lemma {:induction false} PassedExist(g: Gamma, s: Store, ps: seq<Place>, args: seq<Argument>)
    requires PassAll(g, s, ps) == Some(args)
    ensures PassedAlive(s, args)
  {
    if ps != [] {
      PassedExist(g, s, ps[1..], args[1..]);
    }
  }

  lemma {:induction false} WordsAt(m: Machine, fr: Frame, args: seq<Argument>, i: nat)
    requires i < |args|
    ensures WordsOf(fr, args)[i] == WordOf(fr, args[i])
  {
    if i > 0 {
      WordsAt(m, fr, args[1..], i - 1);
    }
  }

  /** The frame that a call makes stands for the store that the callee starts with. */
  lemma CalleeStands(m: Machine, g: Gamma, s: Store, fr: Frame, fn: Function, args: seq<Argument>)
    requires SoundLayout(m, g, fr.fn) && Represents(m, g, s, fr)
    requires Admitted(fn, s, args) && Fits(m, fn.name, CalleeFp(m, fr, |args|))
    ensures Represents(m, fn.vars, Entered(fn.params, args, s), CalleeFrame(m, fr, fn, args))
  {
    var s', callee := Entered(fn.params, args, s), CalleeFrame(m, fr, fn, args);
    var vs := WordsOf(fr, args);
    forall i | 0 <= i < |args| ensures vs[i] == WordOf(fr, args[i]) {
      WordsAt(m, fr, args, i);
    }
    IsAdmitted(fn, s, args);
    BoundInFrame(m, g, s, fr, fn, args, vs, s', callee);
    CellsHandedOver(m, g, s, fr, s', callee);
    ObjectsHandedOver(m, g, s, fr, fn.vars, callee);
    assert s'.depth == callee.depth by { assert Inspect(0); }
  }

  lemma BoundInFrame(m: Machine, g: Gamma, s: Store, fr: Frame, fn: Function, args: seq<Argument>, vs: seq<int>,
                     s': Store, callee: Frame)
    requires Represents(m, g, s, fr) && AreWords(fr, args, vs)
    requires Accepts(fn.vars, fn.params, args) && PassedAlive(s, args) && s' == Entered(fn.params, args, s)
    requires callee == Callee(m, fr, fn.name, fn.params, vs)
    ensures forall x :: x in s'.vars ==> HoldsVar(fn.vars, s', callee, x)
    ensures forall x :: x in s'.refs ==> HoldsRef(fn.vars, s', callee, x)
  {
    forall x | x in s'.vars ensures HoldsVar(fn.vars, s', callee, x) {
      VarBound(m, fr, fn.vars, fn.params, args, vs, x);
    }
    forall x | x in s'.refs ensures HoldsRef(fn.vars, s', callee, x) {
      RefBound(m, fr, fn.vars, fn.params, args, vs, x);
    }
  }

  lemma CellsHandedOver(m: Machine, g: Gamma, s: Store, fr: Frame, s': Store, callee: Frame)
    requires Represents(m, g, s, fr) && s'.parts == s.parts && s'.declared == s.declared
    requires callee.mem == fr.mem && callee.objects == fr.objects
    ensures forall loc :: loc in s'.parts ==> HoldsCell(s', callee, loc)
  {
    forall loc | loc in s'.parts ensures HoldsCell(s', callee, loc) {
      CellHeld(m, g, s, fr, loc);
    }
  }

  /** A callee sees the caller's objects where the caller sees them. */
  lemma ObjectsHandedOver(m: Machine, g: Gamma, s: Store, fr: Frame, g': Gamma, callee: Frame)
    requires SoundLayout(m, g, fr.fn) && Represents(m, g, s, fr)
    requires callee.objects == fr.objects && callee.depth == fr.depth + 1 && callee.fp <= fr.fp - m.layout(fr.fn).size
    ensures forall o :: o in s.declared ==> Alive(g', callee, o)
    ensures forall o, q :: o in s.declared && q in s.declared && o.home == q.home ==> o == q
    ensures forall h :: h in callee.objects ==> WellPlaced(m, g', callee, h)
    ensures OuterApart(callee)
  {
    forall h | h in callee.objects ensures WellPlaced(m, g', callee, h) {
      ObjectInside(m, g, s, fr, h);
    }
    forall o | o in s.declared
      ensures Alive(g', callee, o) && forall q :: q in s.declared && q.home == o.home ==> q == o {
      ObjectAlive(m, g, s, fr, o);
      ObjectInside(m, g, s, fr, o.home);
    }
    forall h, k | h in callee.objects && k in callee.objects && h != k
      ensures RegionsApart(callee.objects[h], callee.objects[k]) {
      ObjectsApart(m, g, s, fr, h, k);
    }
  }

  ghost predicate AreWords(fr: Frame, args: seq<Argument>, vs: seq<int>) {
    |vs| == |args| && forall i :: 0 <= i < |args| ==> vs[i] == WordOf(fr, args[i])
  }

  lemma {:induction false} VarBound(m: Machine, fr: Frame, g: Gamma, ps: seq<string>, args: seq<Argument>, vs: seq<int>,
                                    x: string)
    requires Accepts(g, ps, args) && AreWords(fr, args, vs) && x in BindVars(ps, args)
    ensures x in ps && g[x].Int? && Variable(x) in Bind(ps, vs) && Bind(ps, vs)[Variable(x)] == BindVars(ps, args)[x]
    decreases |ps|
  {
    var n := |ps| - 1;
    if x != ps[n] {
      VarBound(m, fr, g, ps[..n], args[..n], vs[..n], x);
    } else if args[n].Object? {
      VarBound(m, fr, g, ps[..n], args[..n], vs[..n], x);
      assert false;
    }
  }

  lemma {:induction false} RefBound(m: Machine, fr: Frame, g: Gamma, ps: seq<string>, args: seq<Argument>, vs: seq<int>,
                                    x: string)
    requires Accepts(g, ps, args) && AreWords(fr, args, vs) && x in BindRefs(ps, args)
    ensures x in ps && Object(BindRefs(ps, args)[x]) in args
    ensures PartAt(BindRefs(ps, args)[x]).Some? && g[x] == Ref(PartAt(BindRefs(ps, args)[x]).value.1)
    ensures Variable(x) in Bind(ps, vs) && Bind(ps, vs)[Variable(x)] == CellAddr(fr, BindRefs(ps, args)[x])
    decreases |ps|
  {
    var n := |ps| - 1;
    if x != ps[n] {
      RefBound(m, fr, g, ps[..n], args[..n], vs[..n], x);
    } else if args[n].Number? {
      RefBound(m, fr, g, ps[..n], args[..n], vs[..n], x);
      assert false;
    }
  }

  /** What the callee has left in the caller's objects. */
  lemma BackStands(m: Machine, g: Gamma, s: Store, fr: Frame, g': Gamma, s': Store, fr': Frame)
    requires Represents(m, g, s, fr) && Represents(m, g', s', fr')
    requires fr'.depth == fr.depth + 1 && OuterSame(fr, fr')
    ensures Represents(m, g, s.(parts := Back(s, s').parts), fr.(mem := Remains(fr')))
  {
    var parts, mem := Back(s, s').parts, Remains(fr');
    forall loc | loc in parts ensures HoldsCell(s.(parts := parts), fr.(mem := mem), loc) {
      CellHeld(m, g', s', fr', loc);
      CellRemains(m, g, s, fr, fr', loc);
    }
    MemoryChanged(m, g, s, fr, parts, mem);
  }

  /** `fr'`, which `fr` waits for, leaves the objects of `fr` where they are. */
  ghost predicate OuterSame(fr: Frame, fr': Frame) {
    forall h :: h in fr.objects && h.depth <= fr.depth ==> h in fr'.objects && fr'.objects[h] == fr.objects[h]
  }

  lemma CellRemains(m: Machine, g: Gamma, s: Store, fr: Frame, fr': Frame, loc: Loc)
    requires Represents(m, g, s, fr) && loc.obj in s.declared && IsScalar(loc) && fr'.depth == fr.depth + 1
    requires OuterSame(fr, fr')
    ensures CellAddr(fr', loc) == CellAddr(fr, loc) && OuterCell(fr', CellAddr(fr, loc))
  {
    var home := loc.obj.home;
    ObjectAlive(m, g, s, fr, loc.obj);
    assert home.depth <= fr.depth by {
      assert Inspect(0);
      assert WellPlaced(m, g, fr, home);
    }
    AccessInBounds(loc.obj.ty, loc.path);
    AccessIsAligned(loc.obj.ty, loc.path);
    assert InRegion(fr'.objects[home], CellAddr(fr', loc));
  }

  /** A memory with given contents. */
  lemma MemoryFor(m: Machine, g: Gamma, s: Store, fr: Frame, parts: map<Loc, int>) returns (mem: map<int, int>)
    requires SoundLayout(m, g, fr.fn) && Represents(m, g, s, fr)
    requires forall loc :: loc in parts ==> IsScalar(loc) && loc.obj in s.declared
    ensures Represents(m, g, s.(parts := parts), fr.(mem := mem))
  {
    forall a, b | a in parts && b in parts && a != b ensures CellAddr(fr, a) != CellAddr(fr, b) {
      CellsApart(m, g, s, fr, a, b);
    }
    mem := map loc | loc in parts :: CellAddr(fr, loc) := parts[loc];
    forall loc | loc in parts ensures HoldsCell(s.(parts := parts), fr.(mem := mem), loc) {
    }
    MemoryChanged(m, g, s, fr, parts, mem);
  }

  /** A call, from the queued arguments to the first instruction of the callee's body. */
  lemma EnterEnd(m: Machine, fn: Function, entry: nat, t: nat, l: nat, dst: Operand, pc: nat, fr: Frame,
                 ks: seq<Caller>, args: seq<Argument>, io: Console)
    requires Compiled(m, fn, entry, t, l) && |fn.params| == |args|
    requires pc < |m.code| && m.code[pc] == CALL(dst, fn.name)
    requires Fits(m, fn.name, CalleeFp(m, fr, |args|))
    ensures Reaches(m, Running(pc, fr, ks, WordsOf(fr, args), io),
                    Ready(entry + 1 + |args|, CalleeFrame(m, fr, fn, args),
                          [Caller(Suspended(fr), dst, pc + 1)] + ks, io))
  {
    var callee, ks' := CalleeFrame(m, fr, fn, args), [Caller(Suspended(fr), dst, pc + 1)] + ks;
    var calling := Running(pc, fr, ks, WordsOf(fr, args), io);
    BodyStart(fn, t, l);
    ParamsAt(m, entry + 1, fn.params, TransBody(fn, t, l).code, callee, ks', io);
    StepCall(m, fn, entry, dst, pc, fr, ks, WordsOf(fr, args), io);
    Then(m, calling, Ready(entry + 1, callee, ks', io), Ready(entry + 1 + |args|, callee, ks', io));
  }

  lemma StepCall(m: Machine, fn: Function, entry: nat, dst: Operand, pc: nat, fr: Frame, ks: seq<Caller>, vs: seq<int>,
                 io: Console)
    requires Find(m.code, 0, FUNC(fn.name)) == Some(entry) && Params(m.code, entry + 1) == fn.params
    requires |fn.params| == |vs|
    requires pc < |m.code| && m.code[pc] == CALL(dst, fn.name) && Fits(m, fn.name, CalleeFp(m, fr, |vs|))
    ensures Reaches(m, Running(pc, fr, ks, vs, io),
                    Ready(entry + 1, Callee(m, fr, fn.name, fn.params, vs),
                          [Caller(Suspended(fr), dst, pc + 1)] + ks, io))
  {
    One(m, Running(pc, fr, ks, vs, io),
        Ready(entry + 1, Callee(m, fr, fn.name, fn.params, vs), [Caller(Suspended(fr), dst, pc + 1)] + ks, io));
  }

  /** A call whose callee returns `v`, leaving `mem`. */
  lemma CallEnd(m: Machine, g: Gamma, f: string, a: StmtCode, place: nat, t: nat, o: ExpCode,
                pc: nat, io: Console, fr: Frame, ks: seq<Caller>, args: seq<Argument>, s1: Store, fr1: Frame,
                v: int, mem: map<int, int>, s': Store)
    returns (fr': Frame)
    requires ArgsEnd(m, g, a, t, pc, io, fr, ks, args, s1, fr1) && place < t
    requires o.code == a.code + [CALL(Temp(place), f)] && o.op == Temp(place) && o.ty == None
    requires Gets(m, Running(pc + |a.code|, fr1, ks, WordsOf(fr1, args), s1.io),
                  Ready(pc + |a.code| + 1, SetTemp(fr1.(mem := mem), place, v), ks, s'.io))
    requires Represents(m, g, s', fr1.(mem := mem))
    ensures ExpEnd(m, g, o, place, t, pc, io, fr, ks, Val(v), s', fr')
  {
    var fr2 := fr1.(mem := mem);
    fr' := SetTemp(fr2, place, v);
    var pc1, end := pc + |a.code|, pc + |o.code|;
    assert end == pc1 + 1;
    Onward(m, Ready(pc, fr, ks, io), Running(pc1, fr1, ks, WordsOf(fr1, args), s1.io), Ready(end, fr', ks, s'.io));
    SetTempKeeps(g, fr2, place, v, t);
    TempsDoNotMatter(m, g, s', fr2, fr');
    MemoryKeeps(g, fr, fr1, mem, t, place);
    KeptThen(g, fr, fr2, fr', place, t, place, t, place, t);
  }

  lemma MemoryKeeps(g: Gamma, fr: Frame, fr1: Frame, mem: map<int, int>, t: nat, place: nat)
    requires Kept(g, fr, fr1, t, t)
    ensures Kept(g, fr, fr1.(mem := mem), place, t)
  {
    assert Inspect(0);
  }

  // ----- statements -----

  /** A statement either runs to the end of its code or returns to the caller. */
  ghost predicate StmtEnd(m: Machine, g: Gamma, pc: nat, len: nat, io: Console, fr: Frame, ks: seq<Caller>,
                          out: Outcome, fr': Frame) {
    match out
    case Normal(s') =>
      && Gets(m, Ready(pc, fr, ks, io), Ready(pc + len, fr', ks, s'.io))
      && Represents(m, g, s', fr')
      && SameActivation(fr, fr')
    case Returned(v, s') =>
      && Represents(m, g, s', fr')
      && SameActivation(fr, fr')
      && (Resume(v, fr', ks, s'.io).Some? ==> Gets(m, Ready(pc, fr, ks, io), Resume(v, fr', ks, s'.io).value))
  }

  /** Objects of suspended activations stay. */
  ghost predicate OuterKept(fr: Frame, fr': Frame) {
    forall h :: h in fr.objects && h.depth < fr.depth ==> h in fr'.objects && fr'.objects[h] == fr.objects[h]
  }

  ghost predicate SameActivation(fr: Frame, fr': Frame) {
    fr'.fn == fr.fn && fr'.fp == fr.fp && fr'.depth == fr.depth && OuterKept(fr, fr')
  }

  /** Something first, then a statement. */
  lemma Before(m: Machine, g: Gamma, pc: nat, len: nat, io: Console, fr: Frame, ks: seq<Caller>,
               mid: nat, len1: nat, io1: Console, fr1: Frame, out: Outcome, fr': Frame)
    requires Gets(m, Ready(pc, fr, ks, io), Ready(mid, fr1, ks, io1)) && SameActivation(fr, fr1)
    requires StmtEnd(m, g, mid, len1, io1, fr1, ks, out, fr') && (out.Normal? ==> mid + len1 == pc + len)
    ensures StmtEnd(m, g, pc, len, io, fr, ks, out, fr')
  {
    match out
    case Normal(s') =>
      Onward(m, Ready(pc, fr, ks, io), Ready(mid, fr1, ks, io1), Ready(pc + len, fr', ks, s'.io));
    case Returned(v, s') =>
      if Resume(v, fr', ks, s'.io).Some? {
        Onward(m, Ready(pc, fr, ks, io), Ready(mid, fr1, ks, io1), Resume(v, fr', ks, s'.io).value);
      }
  }

  /** A statement first, then a step to `end`. */
  lemma After(m: Machine, g: Gamma, pc: nat, len: nat, io: Console, fr: Frame, ks: seq<Caller>,
              out: Outcome, fr': Frame, len': nat)
    requires StmtEnd(m, g, pc, len, io, fr, ks, out, fr')
    requires out.Normal? ==>
               Reaches(m, Ready(pc + len, fr', ks, out.store.io), Ready(pc + len', fr', ks, out.store.io))
    ensures StmtEnd(m, g, pc, len', io, fr, ks, out, fr')
  {
    if out.Normal? {
      Arrive(m, Ready(pc, fr, ks, io), Ready(pc + len, fr', ks, out.store.io), Ready(pc + len', fr', ks, out.store.io));
    }
  }

  lemma ReturnEnd(m: Machine, g: Gamma, a: ExpCode, t: nat, o: StmtCode, pc: nat, io: Console,
                  fr: Frame, ks: seq<Caller>, p1: Place, s1: Store, fr1: Frame)
    requires ExpEnd(m, g, a, t, t + 1, pc, io, fr, ks, p1, s1, fr1)
    requires o.code == a.code + [RETURN(a.op)] && Placed(m, pc, o.code, fr.fn) && ReadPlace(s1, p1).Some?
    ensures StmtEnd(m, g, pc, |o.code|, io, fr, ks, Returned(ReadPlace(s1, p1).value, s1), fr1)
  {
    ReadOk(m, g, s1, fr1, p1, a, t, t + 1);
    InstrAt(m, pc, o.code, fr.fn, |a.code|);
    var v := ReadPlace(s1, p1).value;
    if Resume(v, fr1, ks, s1.io).Some? {
      var next := Resume(v, fr1, ks, s1.io).value;
      StepReturn(m, pc + |a.code|, fr1, ks, s1.io, a.op, v);
      Arrive(m, Ready(pc, fr, ks, io), Ready(pc + |a.code|, fr1, ks, s1.io), next);
    }
  }

  // ----- declarations -----

  lemma DeclareEnd(m: Machine, g: Gamma, x: string, ty: Type, pc: nat, s: Store, fr: Frame, ks: seq<Caller>, s': Store)
    returns (fr': Frame)
    requires SoundLayout(m, g, fr.fn) && Represents(m, g, s, fr)
    requires Declare(g, s, x, ty) == Some(s')
    requires pc < |m.code| && m.code[pc] == (if ty.Int? then NULL else DEC(x, SizeOf(ty)))
    requires ty.Int? || Variable(x) in m.layout(fr.fn).slots
    ensures Reaches(m, Ready(pc, fr, ks, s.io), Ready(pc + 1, fr', ks, s'.io))
    ensures Represents(m, g, s', fr') && SameActivation(fr, fr')
  {
    fr' := if ty.Int? then fr else Aggregate(fr, x, m.layout(fr.fn).slots[Variable(x)]);
    One(m, Ready(pc, fr, ks, s.io), Ready(pc + 1, fr', ks, s'.io));
    Redeclared(m, g, s, fr, x, ty);
  }

  lemma Redeclared(m: Machine, g: Gamma, s: Store, fr: Frame, x: string, ty: Type)
    requires SoundLayout(m, g, fr.fn) && Represents(m, g, s, fr) && Declare(g, s, x, ty).Some?
    requires ty.Int? || Variable(x) in m.layout(fr.fn).slots
    ensures Represents(m, g, Declare(g, s, x, ty).value,
                       if ty.Int? then fr else Aggregate(fr, x, m.layout(fr.fn).slots[Variable(x)]))
    ensures !ty.Int? ==> SameActivation(fr, Aggregate(fr, x, m.layout(fr.fn).slots[Variable(x)]))
  {
    var s' := Declare(g, s, x, ty).value;
    if ty.Int? {
      Forgotten(m, g, s, fr, x);
    } else {
      var fr' := Aggregate(fr, x, m.layout(fr.fn).slots[Variable(x)]);
      StillHeld(m, g, s, fr, x, ty, s', fr');
      StillAlive(m, g, s, fr, x, ty, s', fr');
      StillPlaced(m, g, s, fr, x, ty, fr');
      assert Fits(m, fr'.fn, fr'.fp) && s'.depth == fr'.depth by { assert Inspect(0); }
    }
  }

  /** An integer variable loses its value. */
  lemma Forgotten(m: Machine, g: Gamma, s: Store, fr: Frame, x: string)
    requires Represents(m, g, s, fr)
    ensures Represents(m, g, s.(vars := s.vars - {x}), fr)
  {
    assert Inspect(0);
    var s' := s.(vars := s.vars - {x});
    forall y | y in s'.vars ensures HoldsVar(g, s', fr, y) {
      assert HoldsVar(g, s, fr, y);
    }
    forall y | y in s'.refs ensures HoldsRef(g, s', fr, y) {
      assert HoldsRef(g, s, fr, y);
    }
    forall loc | loc in s'.parts ensures HoldsCell(s', fr, loc) {
      assert HoldsCell(s, fr, loc);
    }
  }

  /** `fr'` is `fr` once `x` has been declared. */
  ghost predicate Declared(m: Machine, g: Gamma, fr: Frame, x: string, ty: Type, fr': Frame) {
    && x in g && g[x] == ty && !ty.Int? && !ty.Ref?
    && Variable(x) in m.layout(fr.fn).slots && fr' == Aggregate(fr, x, m.layout(fr.fn).slots[Variable(x)])
  }

  lemma StillHeld(m: Machine, g: Gamma, s: Store, fr: Frame, x: string, ty: Type, s': Store, fr': Frame)
    requires Represents(m, g, s, fr) && Declare(g, s, x, ty) == Some(s') && Declared(m, g, fr, x, ty, fr')
    ensures forall y :: y in s'.vars ==> HoldsVar(g, s', fr', y)
    ensures forall y :: y in s'.refs ==> HoldsRef(g, s', fr', y)
    ensures forall loc :: loc in s'.parts ==> HoldsCell(s', fr', loc)
  {
    forall y | y in s'.vars ensures HoldsVar(g, s', fr', y) {
      VarHeld(m, g, s, fr, y);
    }
    forall y | y in s'.refs ensures HoldsRef(g, s', fr', y) {
      RefHeld(m, g, s, fr, y);
      AddressStays(m, g, s, fr, x, ty, fr', s.refs[y]);
    }
    forall loc | loc in s'.parts ensures HoldsCell(s', fr', loc) {
      CellHeld(m, g, s, fr, loc);
      AddressStays(m, g, s, fr, x, ty, fr', loc);
    }
  }

  lemma AddressStays(m: Machine, g: Gamma, s: Store, fr: Frame, x: string, ty: Type, fr': Frame, loc: Loc)
    requires Represents(m, g, s, fr) && loc.obj in s.declared && Declared(m, g, fr, x, ty, fr')
    ensures CellAddr(fr', loc) == CellAddr(fr, loc)
  {
    ObjectAlive(m, g, s, fr, loc.obj);
    assert WellPlaced(m, g, fr, loc.obj.home) by { assert Inspect(0); }
  }

  lemma StillAlive(m: Machine, g: Gamma, s: Store, fr: Frame, x: string, ty: Type, s': Store, fr': Frame)
    requires SoundLayout(m, g, fr.fn) && Represents(m, g, s, fr)
    requires Declare(g, s, x, ty) == Some(s') && Declared(m, g, fr, x, ty, fr')
    ensures forall o :: o in s'.declared ==> Alive(g, fr', o)
    ensures forall o, q :: o in s'.declared && q in s'.declared && o.home == q.home ==> o == q
  {
    assert s.depth == fr.depth by { assert Inspect(0); }
    forall o | o in s'.declared
      ensures Alive(g, fr', o) && forall q :: q in s'.declared && q.home == o.home ==> q == o {
      if o in s.declared {
        ObjectAlive(m, g, s, fr, o);
      }
      forall q | q in s'.declared && q.home == o.home ensures q == o {
        if q in s.declared {
          ObjectAlive(m, g, s, fr, q);
        }
      }
    }
  }

  lemma StillPlaced(m: Machine, g: Gamma, s: Store, fr: Frame, x: string, ty: Type, fr': Frame)
    requires SoundLayout(m, g, fr.fn) && Represents(m, g, s, fr) && Declared(m, g, fr, x, ty, fr')
    ensures forall h :: h in fr'.objects ==> WellPlaced(m, g, fr', h)
    ensures OuterApart(fr')
  {
    assert Inspect(0);
    forall h | h in fr'.objects ensures WellPlaced(m, g, fr', h) {
      assert h in fr.objects ==> WellPlaced(m, g, fr, h);
    }
  }

  lemma InitEnd(m: Machine, g: Gamma, x: string, a: ExpCode, t: nat, pc: nat, io: Console,
                fr: Frame, ks: seq<Caller>, p1: Place, s1: Store, fr1: Frame, s': Store)
    returns (fr': Frame)
    requires ExpEnd(m, g, a, t, t + 1, pc, io, fr, ks, p1, s1, fr1) && SoundLayout(m, g, fr.fn)
    requires Placed(m, pc + |a.code|, [ASSIGN(Variable(x), a.op)], fr.fn)
    requires ReadPlace(s1, p1).Some? && WritePlace(g, s1, Named(x), ReadPlace(s1, p1).value) == Some(s')
    ensures StmtEnd(m, g, pc, |a.code| + 1, io, fr, ks, Normal(s'), fr')
  {
    var v := ReadPlace(s1, p1).value;
    var target := ExpCode([], Variable(x), Some(Int), 1, 0);
    ReadOk(m, g, s1, fr1, p1, a, t, t + 1);
    fr' := WriteOk(m, g, s1, fr1, Named(x), target, 0, 0, v);
    InstrAt(m, pc + |a.code|, [ASSIGN(Variable(x), a.op)], fr.fn, 0);
    StepAssign(m, pc + |a.code|, fr1, ks, s1.io, Variable(x), a.op);
    Arrive(m, Ready(pc, fr, ks, io), Ready(pc + |a.code|, fr1, ks, s1.io), Ready(pc + (|a.code| + 1), fr', ks, s'.io));
  }
}
