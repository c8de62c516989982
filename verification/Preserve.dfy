/** The three-address code of a program does what the program means. */
module Preserve {
  import opened Common
  import opened Syntax
  import opened Layout
  import opened Ir
  import opened Source
  import opened Translate
  import opened Represent
  import opened Fragments

  /** A frame of `fn` that stands for the store `s`. */
  ghost predicate Stands(m: Machine, p: Program, fn: Function, s: Store, fr: Frame) {
    && Linked(m, p)
    && GoodFunction(m, fn)
    && fr.fn == fn.name
    && Represents(m, fn.vars, s, fr)
  }

  /** Expressions: the code reaches its end in a frame that stands for the new store,
      and the operand it leaves denotes the place that evaluation yields. */
  lemma {:induction false} ExpOk(m: Machine, p: Program, fn: Function, e: Exp, place: nat, t: nat, l: nat, o: ExpCode,
                                 pc: nat, s: Store, fr: Frame, ks: seq<Caller>, fuel: nat, pl: Place, s': Store)
    returns (fr': Frame)
    requires Stands(m, p, fn, s, fr)
    requires o == TransExp(fn.vars, e, place, t, l) && Placed(m, pc, o.code, fn.name) && place < t
    requires Eval(p, fn.vars, e, s, fuel) == Some((pl, s'))
    ensures ExpEnd(m, fn.vars, o, place, t, pc, s.io, fr, ks, pl, s', fr')
    decreases fuel, e, if IsLogical(e) then 8 else 3
  {
    hide Holds, TransCondition, ReadPlace;
    match e
    case Assign(_, _) => fr' := AssignOk(m, p, fn, e, place, t, l, o, pc, s, fr, ks, fuel, pl, s');
    case Arith(_, _, _) => fr' := ArithOk(m, p, fn, e, place, t, l, o, pc, s, fr, ks, fuel, pl, s');
    case Paren(arg) => fr' := ExpOk(m, p, fn, arg, place, t, l, o, pc, s, fr, ks, fuel, pl, s');
    case Neg(_) => fr' := NegOk(m, p, fn, e, place, t, l, o, pc, s, fr, ks, fuel, pl, s');
    case Call(_, _) => fr' := CallOk(m, p, fn, e, place, t, l, o, pc, s, fr, ks, fuel, pl, s');
    case Read => fr' := ReadEnd(m, fn.vars, place, t, o, pc, s, fr, ks);
    case Write(_) => fr' := WriteOutputOk(m, p, fn, e, place, t, l, o, pc, s, fr, ks, fuel, pl, s');
    case Index(_, _) => fr' := IndexOk(m, p, fn, e, place, t, l, o, pc, s, fr, ks, fuel, pl, s');
    case Dot(_, _) => fr' := DotOk(m, p, fn, e, place, t, l, o, pc, s, fr, ks, fuel, pl, s');
    case Id(_) => fr' := LeafOk(m, p, fn, e, place, t, l, o, pc, s, fr, ks, fuel, pl, s');
    case Lit(_) => fr' := LeafOk(m, p, fn, e, place, t, l, o, pc, s, fr, ks, fuel, pl, s');
    case _ => fr' := LogicalOk(m, p, fn, e, place, t, l, o, pc, s, fr, ks, fuel, pl, s');
  }

  /** Two operands, evaluated one after the other. */
  lemma {:induction false} PairOk(m: Machine, p: Program, fn: Function, e: Exp, e1: Exp, e2: Exp, t: nat, ta: nat,
                                  l: nat,
                                  a: ExpCode, b: ExpCode, pc: nat, s: Store, fr: Frame, ks: seq<Caller>, fuel: nat,
                                  p1: Place, s1: Store, p2: Place, s2: Store)
    returns (fr1: Frame, fr2: Frame)
    requires Stands(m, p, fn, s, fr) && e1 < e && e2 < e && t + 1 < ta
    requires a == TransExp(fn.vars, e1, t, ta, l) && b == TransExp(fn.vars, e2, t + 1, a.t, a.l)
    requires Placed(m, pc, a.code + b.code, fn.name)
    requires Eval(p, fn.vars, e1, s, fuel) == Some((p1, s1)) && Eval(p, fn.vars, e2, s1, fuel) == Some((p2, s2))
    ensures ExpEnd(m, fn.vars, a, t, ta, pc, s.io, fr, ks, p1, s1, fr1)
    ensures ExpEnd(m, fn.vars, b, t + 1, a.t, pc + |a.code|, s1.io, fr1, ks, p2, s2, fr2)
    decreases fuel, e, 1
  {
    hide Eval, TransExp;
    Split(m, pc, a.code, b.code, fn.name);
    fr1 := ExpOk(m, p, fn, e1, t, ta, l, a, pc, s, fr, ks, fuel, p1, s1);
    fr2 := ExpOk(m, p, fn, e2, t + 1, a.t, a.l, b, pc + |a.code|, s1, fr1, ks, fuel, p2, s2);
  }

  lemma {:induction false} LeafOk(m: Machine, p: Program, fn: Function, e: Exp, place: nat, t: nat, l: nat, o: ExpCode,
                                  pc: nat, s: Store, fr: Frame, ks: seq<Caller>, fuel: nat, pl: Place, s': Store)
    returns (fr': Frame)
    requires Stands(m, p, fn, s, fr) && (e.Id? || e.Lit?)
    requires o == TransExp(fn.vars, e, place, t, l) && Placed(m, pc, o.code, fn.name) && place < t
    requires Eval(p, fn.vars, e, s, fuel) == Some((pl, s'))
    ensures ExpEnd(m, fn.vars, o, place, t, pc, s.io, fr, ks, pl, s', fr')
    decreases fuel, e, 2
  {
    InstrAt(m, pc, o.code, fn.name, 0);
    StepSkip(m, pc, fr, ks, s.io);
    fr' := fr;
    assert Unfold(0);
  }

  lemma {:induction false} AssignOk(m: Machine, p: Program, fn: Function, e: Exp, place: nat, t: nat, l: nat,
                                    o: ExpCode,
                                    pc: nat, s: Store, fr: Frame, ks: seq<Caller>, fuel: nat, pl: Place, s': Store)
    returns (fr': Frame)
    requires Stands(m, p, fn, s, fr) && e.Assign?
    requires o == TransExp(fn.vars, e, place, t, l) && Placed(m, pc, o.code, fn.name) && place < t
    requires Eval(p, fn.vars, e, s, fuel) == Some((pl, s'))
    ensures ExpEnd(m, fn.vars, o, place, t, pc, s.io, fr, ks, pl, s', fr')
    decreases fuel, e, 2
  {
    hide ReadPlace, WritePlace, Represents;
    var a := TransExp(fn.vars, e.left, t, t + 2, l);
    var b := TransExp(fn.vars, e.right, t + 1, a.t, a.l);
    var last := [ASSIGN(a.op, b.op), ASSIGN(Temp(place), a.op)];
    var (target, s1) := Eval(p, fn.vars, e.left, s, fuel).value;
    var (source, s2) := Eval(p, fn.vars, e.right, s1, fuel).value;
    Split(m, pc, a.code + b.code, last, fn.name);
    var fr1, fr2 := PairOk(m, p, fn, e, e.left, e.right, t, t + 2, l, a, b, pc, s, fr, ks, fuel, target, s1, source,
                           s2);
    fr' := AssignEnd(m, fn.vars, a, b, place, t, o, pc, s.io, fr, ks, target, s1, fr1, source, s2, fr2, s');
  }

  lemma {:induction false} ArithOk(m: Machine, p: Program, fn: Function, e: Exp, place: nat, t: nat, l: nat, o: ExpCode,
                                   pc: nat, s: Store, fr: Frame, ks: seq<Caller>, fuel: nat, pl: Place, s': Store)
    returns (fr': Frame)
    requires Stands(m, p, fn, s, fr) && e.Arith?
    requires o == TransExp(fn.vars, e, place, t, l) && Placed(m, pc, o.code, fn.name) && place < t
    requires Eval(p, fn.vars, e, s, fuel) == Some((pl, s'))
    ensures ExpEnd(m, fn.vars, o, place, t, pc, s.io, fr, ks, pl, s', fr')
    decreases fuel, e, 2
  {
    hide Arithmetic, HandleAddress, ReadPlace;
    var a := TransExp(fn.vars, e.left, t, t + 2, l);
    var b := TransExp(fn.vars, e.right, t + 1, a.t, a.l);
    var (code, t') := Arithmetic(e.op, Temp(place), a.op, b.op, b.t);
    var (p1, s1) := Eval(p, fn.vars, e.left, s, fuel).value;
    var (p2, s2) := Eval(p, fn.vars, e.right, s1, fuel).value;
    fr' := ComputeOk(m, p, fn, e, place, t, l, a, b, o, code, t', pc, s, fr, ks, fuel, p1, s1, p2, s2);
  }

  /** The operands of an operator, then the operation itself. */
  lemma {:induction false} ComputeOk(m: Machine, p: Program, fn: Function, e: Exp, place: nat, t: nat, l: nat,
                                     a: ExpCode, b: ExpCode, o: ExpCode, code: Code, t': nat, pc: nat, s: Store,
                                     fr: Frame, ks: seq<Caller>, fuel: nat, p1: Place, s1: Store, p2: Place, s2: Store)
    returns (fr': Frame)
    requires Stands(m, p, fn, s, fr) && e.Arith? && place < t
    requires a == TransExp(fn.vars, e.left, t, t + 2, l) && b == TransExp(fn.vars, e.right, t + 1, a.t, a.l)
    requires Arithmetic(e.op, Temp(place), a.op, b.op, b.t) == (code, t')
    requires o.code == a.code + b.code + code && o.op == Temp(place) && o.ty == None && Placed(m, pc, o.code, fn.name)
    requires Eval(p, fn.vars, e.left, s, fuel) == Some((p1, s1))
    requires Eval(p, fn.vars, e.right, s1, fuel) == Some((p2, s2))
    requires ReadPlace(s2, p1).Some? && ReadPlace(s2, p2).Some?
    requires Compute(e.op, ReadPlace(s2, p1).value, ReadPlace(s2, p2).value).Some?
    ensures ExpEnd(m, fn.vars, o, place, t, pc, s.io, fr, ks,
                   Val(Compute(e.op, ReadPlace(s2, p1).value, ReadPlace(s2, p2).value).value), s2, fr')
    decreases fuel, e, 2, 0
  {
    hide Eval, TransExp, Arithmetic, ReadPlace;
    Split(m, pc, a.code + b.code, code, fn.name);
    var fr1, fr2 := PairOk(m, p, fn, e, e.left, e.right, t, t + 2, l, a, b, pc, s, fr, ks, fuel, p1, s1, p2, s2);
    fr' := ArithEnd(m, fn.vars, e.op, a, b, place, t, o, code, t', pc, s.io, fr, ks, p1, s1, fr1, p2, s2, fr2);
  }

  lemma {:induction false} NegOk(m: Machine, p: Program, fn: Function, e: Exp, place: nat, t: nat, l: nat, o: ExpCode,
                                 pc: nat, s: Store, fr: Frame, ks: seq<Caller>, fuel: nat, pl: Place, s': Store)
    returns (fr': Frame)
    requires Stands(m, p, fn, s, fr) && e.Neg?
    requires o == TransExp(fn.vars, e, place, t, l) && Placed(m, pc, o.code, fn.name) && place < t
    requires Eval(p, fn.vars, e, s, fuel) == Some((pl, s'))
    ensures ExpEnd(m, fn.vars, o, place, t, pc, s.io, fr, ks, pl, s', fr')
    decreases fuel, e, 2
  {
    var a := TransExp(fn.vars, e.arg, t, t + 1, l);
    var (code, t') := Arithmetic(Minus, Temp(place), Const(0), a.op, a.t);
    var (p1, s1) := Eval(p, fn.vars, e.arg, s, fuel).value;
    Split(m, pc, a.code, code, fn.name);
    var fr1 := ExpOk(m, p, fn, e.arg, t, t + 1, l, a, pc, s, fr, ks, fuel, p1, s1);
    fr' := NegEnd(m, fn.vars, a, place, t, o, code, t', pc, s.io, fr, ks, p1, s1, fr1);
  }

  lemma {:induction false} WriteOutputOk(m: Machine, p: Program, fn: Function, e: Exp, place: nat, t: nat, l: nat,
                                         o: ExpCode,
                                         pc: nat, s: Store, fr: Frame, ks: seq<Caller>, fuel: nat, pl: Place, s': Store)
    returns (fr': Frame)
    requires Stands(m, p, fn, s, fr) && e.Write?
    requires o == TransExp(fn.vars, e, place, t, l) && Placed(m, pc, o.code, fn.name) && place < t
    requires Eval(p, fn.vars, e, s, fuel) == Some((pl, s'))
    ensures ExpEnd(m, fn.vars, o, place, t, pc, s.io, fr, ks, pl, s', fr')
    decreases fuel, e, 2
  {
    var a := TransExp(fn.vars, e.arg, t, t + 1, l);
    var (p1, s1) := Eval(p, fn.vars, e.arg, s, fuel).value;
    Split(m, pc, a.code, [WRITE(a.op)], fn.name);
    fr' := ExpOk(m, p, fn, e.arg, t, t + 1, l, a, pc, s, fr, ks, fuel, p1, s1);
    WriteEnd(m, fn.vars, a, place, t, o, pc, s.io, fr, ks, p1, s1, fr');
  }

  lemma {:induction false} DotOk(m: Machine, p: Program, fn: Function, e: Exp, place: nat, t: nat, l: nat, o: ExpCode,
                                 pc: nat, s: Store, fr: Frame, ks: seq<Caller>, fuel: nat, pl: Place, s': Store)
    returns (fr': Frame)
    requires Stands(m, p, fn, s, fr) && e.Dot?
    requires o == TransExp(fn.vars, e, place, t, l) && Placed(m, pc, o.code, fn.name) && place < t
    requires Eval(p, fn.vars, e, s, fuel) == Some((pl, s'))
    ensures ExpEnd(m, fn.vars, o, place, t, pc, s.io, fr, ks, pl, s', fr')
    decreases fuel, e, 2
  {
    var a := TransExp(fn.vars, e.base, t, t + 1, l);
    var (p1, s1) := Eval(p, fn.vars, e.base, s, fuel).value;
    MemberPlaced(m, pc, a, e.member, fn.name);
    var fr1 := ExpOk(m, p, fn, e.base, t, t + 1, l, a, pc, s, fr, ks, fuel, p1, s1);
    fr' := FieldEnd(m, fn.vars, a, e.member, place, t, o, pc, s.io, fr, ks, p1, pl.loc, s', fr1);
  }

  lemma {:induction false} IndexOk(m: Machine, p: Program, fn: Function, e: Exp, place: nat, t: nat, l: nat, o: ExpCode,
                                   pc: nat, s: Store, fr: Frame, ks: seq<Caller>, fuel: nat, pl: Place, s': Store)
    returns (fr': Frame)
    requires Stands(m, p, fn, s, fr) && e.Index?
    requires o == TransExp(fn.vars, e, place, t, l) && Placed(m, pc, o.code, fn.name) && place < t
    requires Eval(p, fn.vars, e, s, fuel) == Some((pl, s'))
    ensures ExpEnd(m, fn.vars, o, place, t, pc, s.io, fr, ks, pl, s', fr')
    decreases fuel, e, 2
  {
    hide ReadPlace, Represents, ElementCode;
    var a := TransExp(fn.vars, e.base, t, t + 3, l);
    var i := TransExp(fn.vars, e.index, t + 1, a.t, a.l);
    var (p1, s1) := Eval(p, fn.vars, e.base, s, fuel).value;
    var (p2, s2) := Eval(p, fn.vars, e.index, s1, fuel).value;
    fr' := PartOk(m, p, fn, e, place, t, l, a, i, o, pc, s, fr, ks, fuel, p1, s1, p2, s2, pl.loc);
  }

  /** The array and the index, then the element. */
  lemma {:induction false} PartOk(m: Machine, p: Program, fn: Function, e: Exp, place: nat, t: nat, l: nat,
                                  a: ExpCode, i: ExpCode, o: ExpCode, pc: nat, s: Store, fr: Frame, ks: seq<Caller>,
                                  fuel: nat, p1: Place, s1: Store, p2: Place, s2: Store, deeper: Loc)
    returns (fr': Frame)
    requires Stands(m, p, fn, s, fr) && e.Index? && place < t
    requires a == TransExp(fn.vars, e.base, t, t + 3, l) && i == TransExp(fn.vars, e.index, t + 1, a.t, a.l)
    requires o == ElementCode(a, i, t + 2) && Placed(m, pc, o.code, fn.name)
    requires Eval(p, fn.vars, e.base, s, fuel) == Some((p1, s1))
    requires Eval(p, fn.vars, e.index, s1, fuel) == Some((p2, s2))
    requires ReadPlace(s2, p2).Some? && ReadPlace(s2, p2).value >= 0
    requires Part(fn.vars, s2, p1, Element(ReadPlace(s2, p2).value)) == Some(deeper)
    ensures ExpEnd(m, fn.vars, o, place, t, pc, s.io, fr, ks, At(deeper), s2, fr')
    decreases fuel, e, 2, 0
  {
    hide Eval, TransExp, ElementCode, ReadPlace, Part, Represents;
    ElementPlaced(m, pc, a, i, t + 2, fn.name);
    var fr1, fr2 := PairOk(m, p, fn, e, e.base, e.index, t, t + 3, l, a, i, pc, s, fr, ks, fuel, p1, s1, p2, s2);
    fr' := SubscriptEnd(m, fn.vars, a, i, place, t, o, pc, s.io, fr, ks, p1, deeper, s1, fr1, p2, s2, fr2);
  }

  lemma {:induction false} LogicalOk(m: Machine, p: Program, fn: Function, e: Exp, place: nat, t: nat, l: nat,
                                     o: ExpCode,
                                     pc: nat, s: Store, fr: Frame, ks: seq<Caller>, fuel: nat, pl: Place, s': Store)
    returns (fr': Frame)
    requires Stands(m, p, fn, s, fr) && IsLogical(e)
    requires o == TransExp(fn.vars, e, place, t, l) && Placed(m, pc, o.code, fn.name) && place < t
    requires Eval(p, fn.vars, e, s, fuel) == Some((pl, s'))
    ensures ExpEnd(m, fn.vars, o, place, t, pc, s.io, fr, ks, pl, s', fr')
    decreases fuel, e, 7
  {
    var c := TransCondition(fn.vars, e, l, l + 1, t, l + 2);
    var (holds, s1) := Holds(p, fn.vars, e, s, fuel).value;
    fr' := UsedAsValue(m, p, fn, e, place, t, l, c, o, pc, s, fr, ks, fuel, holds, s1);
  }

  /** A condition used as a value. */
  lemma {:induction false} UsedAsValue(m: Machine, p: Program, fn: Function, e: Exp, place: nat, t: nat, l: nat,
                                       c: StmtCode, o: ExpCode,
                                       pc: nat, s: Store, fr: Frame, ks: seq<Caller>, fuel: nat, holds: bool, s': Store)
    returns (fr': Frame)
    requires Stands(m, p, fn, s, fr) && place < t && o.op == Temp(place) && o.ty == None
    requires c == TransCondition(fn.vars, e, l, l + 1, t, l + 2)
    requires o.code == [ASSIGN(Temp(place), Const(0))] + c.code +
             [LABEL(l), ASSIGN(Temp(place), Const(1)), LABEL(l + 1)]
    requires Placed(m, pc, o.code, fn.name)
    requires Holds(p, fn.vars, e, s, fuel) == Some((holds, s'))
    ensures ExpEnd(m, fn.vars, o, place, t, pc, s.io, fr, ks, Val(if holds then 1 else 0), s', fr')
    decreases fuel, e, 6
  {
    hide TransCondition, Holds;
    var first, last := [ASSIGN(Temp(place), Const(0))], [LABEL(l), ASSIGN(Temp(place), Const(1)), LABEL(l + 1)];
    Split(m, pc, first + c.code, last, fn.name);
    Split(m, pc, first, c.code, fn.name);
    var fr0 := SetTemp(fr, place, 0);
    SetTempKeeps(fn.vars, fr, place, 0, t);
    TempsDoNotMatter(m, fn.vars, s, fr, fr0);
    var at := pc + 1 + |c.code|;
    LabelTarget(m, at, last, fr0, 0);
    LabelTarget(m, at, last, fr0, 2);
    var fr1 := CondOk(m, p, fn, e, l, l + 1, at, at + 2, t, l + 2, c, pc + 1, s, fr0, ks, fuel, holds, s');
    fr' := ValueEnd(m, fn.vars, place, t, l, o, c.code, pc, s, fr, ks, holds, s', fr1);
  }

  /** Conditions: control leaves the code at the label for true exactly when the condition holds,
      and at the label for false otherwise. */
  lemma {:induction false} CondOk(m: Machine, p: Program, fn: Function, e: Exp, yes: nat, no: nat, ypos: nat, npos: nat,
                                  t: nat, l: nat, o: StmtCode, pc: nat, s: Store, fr: Frame, ks: seq<Caller>, fuel: nat,
                                  holds: bool, s': Store)
    returns (fr': Frame)
    requires Stands(m, p, fn, s, fr)
    requires o == TransCondition(fn.vars, e, yes, no, t, l) && Placed(m, pc, o.code, fn.name)
    requires Target(m, fr, yes) == Some(ypos) && Target(m, fr, no) == Some(npos)
    requires Holds(p, fn.vars, e, s, fuel) == Some((holds, s'))
    ensures CondEnd(m, fn.vars, t, pc, s.io, fr, ks, if holds then ypos else npos, s', fr')
    decreases fuel, e, 5
  {
    hide Eval, TransExp;
    match e
    case Not(arg) =>
      var (opposite, s1) := Holds(p, fn.vars, arg, s, fuel).value;
      fr' := CondOk(m, p, fn, arg, no, yes, npos, ypos, t, l, o, pc, s, fr, ks, fuel, opposite, s1);
    case Rel(_, _, _) => fr' := RelOk(m, p, fn, e, yes, no, ypos, npos, t, l, o, pc, s, fr, ks, fuel, holds, s');
    case And(_, _) => fr' := AndOrOk(m, p, fn, e, yes, no, ypos, npos, t, l, o, pc, s, fr, ks, fuel, holds, s');
    case Or(_, _) => fr' := AndOrOk(m, p, fn, e, yes, no, ypos, npos, t, l, o, pc, s, fr, ks, fuel, holds, s');
    case _ =>
      var a := TransExp(fn.vars, e, t, t + 1, l);
      var (p1, s1) := Eval(p, fn.vars, e, s, fuel).value;
      fr' := TestOk(m, p, fn, e, yes, no, ypos, npos, t, l, a, pc, s, fr, ks, fuel, p1, s1);
  }

  lemma {:induction false} RelOk(m: Machine, p: Program, fn: Function, e: Exp, yes: nat, no: nat, ypos: nat, npos: nat,
                                 t: nat, l: nat, o: StmtCode, pc: nat, s: Store, fr: Frame, ks: seq<Caller>, fuel: nat,
                                 holds: bool, s': Store)
    returns (fr': Frame)
    requires Stands(m, p, fn, s, fr) && e.Rel?
    requires o == TransCondition(fn.vars, e, yes, no, t, l) && Placed(m, pc, o.code, fn.name)
    requires Target(m, fr, yes) == Some(ypos) && Target(m, fr, no) == Some(npos)
    requires Holds(p, fn.vars, e, s, fuel) == Some((holds, s'))
    ensures CondEnd(m, fn.vars, t, pc, s.io, fr, ks, if holds then ypos else npos, s', fr')
    decreases fuel, e, 4
  {
    hide Eval, TransExp;
    var a := TransExp(fn.vars, e.left, t, t + 2, l);
    var b := TransExp(fn.vars, e.right, t + 1, a.t, a.l);
    var (p1, s1) := Eval(p, fn.vars, e.left, s, fuel).value;
    var (p2, s2) := Eval(p, fn.vars, e.right, s1, fuel).value;
    Split(m, pc, a.code + b.code, [IF_GOTO(e.relop, a.op, b.op, yes), GOTO(no)], fn.name);
    var fr1, fr2 := PairOk(m, p, fn, e, e.left, e.right, t, t + 2, l, a, b, pc, s, fr, ks, fuel, p1, s1, p2, s2);
    fr' := fr2;
    BranchEnd(m, fn.vars, e.relop, a, b, t, yes, no, ypos, npos, pc, s.io, fr, ks, p1, s1, fr1, p2, s2, fr2);
  }

  /** A condition that is a plain value is compared with 0. */
  lemma {:induction false} TestOk(m: Machine, p: Program, fn: Function, e: Exp, yes: nat, no: nat, ypos: nat, npos: nat,
                                  t: nat, l: nat, a: ExpCode, pc: nat, s: Store, fr: Frame, ks: seq<Caller>, fuel: nat,
                                  p1: Place, s1: Store)
    returns (fr': Frame)
    requires Stands(m, p, fn, s, fr) && !IsLogical(e)
    requires a == TransExp(fn.vars, e, t, t + 1, l)
    requires Placed(m, pc, a.code + [IF_GOTO(Ne, a.op, Const(0), yes), GOTO(no)], fn.name)
    requires Target(m, fr, yes) == Some(ypos) && Target(m, fr, no) == Some(npos)
    requires Eval(p, fn.vars, e, s, fuel) == Some((p1, s1)) && ReadPlace(s1, p1).Some?
    ensures CondEnd(m, fn.vars, t, pc, s.io, fr, ks, if ReadPlace(s1, p1).value != 0 then ypos else npos, s1, fr')
    decreases fuel, e, 4
  {
    Split(m, pc, a.code, [IF_GOTO(Ne, a.op, Const(0), yes), GOTO(no)], fn.name);
    fr' := ExpOk(m, p, fn, e, t, t + 1, l, a, pc, s, fr, ks, fuel, p1, s1);
    TestEnd(m, fn.vars, a, t, yes, no, ypos, npos, pc, s.io, fr, ks, p1, s1, fr');
  }

  /** `&&` and `||`: the left side either settles the matter or falls into the right side. */
  lemma {:induction false} AndOrOk(m: Machine, p: Program, fn: Function, e: Exp, yes: nat, no: nat, ypos: nat,
                                   npos: nat,
                                   t: nat, l: nat, o: StmtCode, pc: nat, s: Store, fr: Frame, ks: seq<Caller>,
                                   fuel: nat, holds: bool, s': Store)
    returns (fr': Frame)
    requires Stands(m, p, fn, s, fr) && (e.And? || e.Or?)
    requires o == TransCondition(fn.vars, e, yes, no, t, l) && Placed(m, pc, o.code, fn.name)
    requires Target(m, fr, yes) == Some(ypos) && Target(m, fr, no) == Some(npos)
    requires Holds(p, fn.vars, e, s, fuel) == Some((holds, s'))
    ensures CondEnd(m, fn.vars, t, pc, s.io, fr, ks, if holds then ypos else npos, s', fr')
    decreases fuel, e, 4
  {
    hide Eval, TransExp, Represents;
    var yes1, no1 := if e.And? then l else yes, if e.And? then no else l;
    var a := TransCondition(fn.vars, e.left, yes1, no1, t, l + 1);
    var b := TransCondition(fn.vars, e.right, yes, no, a.t, a.l);
    var (holds1, s1) := Holds(p, fn.vars, e.left, s, fuel).value;
    Split(m, pc, a.code + [LABEL(l)], b.code, fn.name);
    Split(m, pc, a.code, [LABEL(l)], fn.name);
    var mid := pc + |a.code|;
    LabelTarget(m, mid, [LABEL(l)], fr, 0);
    var ypos1, npos1 := if e.And? then mid else ypos, if e.And? then npos else mid;
    var fr1 := CondOk(m, p, fn, e.left, yes1, no1, ypos1, npos1, t, l + 1, a, pc, s, fr, ks, fuel, holds1, s1);
    if holds1 == e.And? {
      InstrAt(m, mid, [LABEL(l)], fn.name, 0);
      PastLabel(m, fn.vars, t, pc, s.io, fr, ks, mid, s1, fr1);
      fr' := CondOk(m, p, fn, e.right, yes, no, ypos, npos, a.t, a.l, b, mid + 1, s1, fr1, ks, fuel, holds, s');
      CondThen(m, fn.vars, t, pc, s.io, fr, ks, mid + 1, s1, fr1, a.t, if holds then ypos else npos, s', fr');
    } else {
      fr' := fr1;
    }
  }

  lemma {:induction false} CallOk(m: Machine, p: Program, fn: Function, e: Exp, place: nat, t: nat, l: nat, o: ExpCode,
                                  pc: nat, s: Store, fr: Frame, ks: seq<Caller>, fuel: nat, pl: Place, s': Store)
    returns (fr': Frame)
    requires Stands(m, p, fn, s, fr) && e.Call?
    requires o == TransExp(fn.vars, e, place, t, l) && Placed(m, pc, o.code, fn.name) && place < t
    requires Eval(p, fn.vars, e, s, fuel) == Some((pl, s'))
    ensures ExpEnd(m, fn.vars, o, place, t, pc, s.io, fr, ks, pl, s', fr')
    decreases fuel, e, 2
  {
    var a := TransArgs(fn.vars, e.args, t, l);
    var (places, s1) := EvalArgs(p, fn.vars, e.args, s, fuel).value;
    var args := PassAll(fn.vars, s1, places).value;
    var callee := FindFunction(p, e.func).value;
    var out := ExecBody(p, callee, Entered(callee.params, args, s1), fuel - 1).value;
    Split(m, pc, a.code, [CALL(Temp(place), e.func)], fn.name);
    PassedExist(fn.vars, s1, places, args);
    var fr1 := ArgsOk(m, p, fn, e.args, t, l, a, pc, s, fr, ks, fuel, places, s1, args);
    fr' := CallBodyOk(m, p, fn, e.func, callee, a, place, t, o, pc, s.io, fr, ks, fuel - 1, args, s1, fr1, out, s');
  }

  /** The body of the function that is called, in a frame of its own. */
  lemma {:induction false} CallBodyOk(m: Machine, p: Program, fn: Function, f: string, callee: Function, a: StmtCode,
                                      place: nat, t: nat, o: ExpCode, pc: nat, io: Console, fr: Frame, ks: seq<Caller>,
                                      fuel: nat, args: seq<Argument>, s1: Store, fr1: Frame, out: Outcome, s': Store)
    returns (fr': Frame)
    requires Linked(m, p) && GoodFunction(m, fn) && fr.fn == fn.name
    requires ArgsEnd(m, fn.vars, a, t, pc, io, fr, ks, args, s1, fr1) && place < t
    requires FindFunction(p, f) == Some(callee) && Admitted(callee, s1, args)
    requires o.code == a.code + [CALL(Temp(place), f)] && o.op == Temp(place) && o.ty == None
    requires Placed(m, pc, o.code, fn.name)
    requires BodyYields(p, callee, Entered(callee.params, args, s1), fuel, out) && out.Returned?
    requires IsBack(s1, out.store, s')
    ensures ExpEnd(m, fn.vars, o, place, t, pc, io, fr, ks, Val(out.value), s', fr')
    decreases fuel, callee, 12
  {
    var entry, t', l' := FunctionOf(m, p, f, callee);
    InstrAt(m, pc, o.code, fn.name, |a.code|);
    var mem := CalleeRun(m, p, fn.vars, callee, entry, t', l', pc + |a.code|, fr1, ks, place, fuel, args, s1, out, s');
    fr' := CallEnd(m, fn.vars, f, a, place, t, o, pc, io, fr, ks, args, s1, fr1, out.value, mem, s');
  }

  /** The body of `fn`, run in `s`, ends with `out` (kept folded, like `Ir.Reaches`). */
  ghost predicate BodyYields(p: Program, fn: Function, s: Store, fuel: nat, out: Outcome) {
    forall k {:trigger Recall(k)} :: Recall(k) ==> ExecBody(p, fn, s, fuel) == Some(out)
  }

  lemma BodyRuns(p: Program, fn: Function, s: Store, fuel: nat, out: Outcome)
    requires BodyYields(p, fn, s, fuel, out)
    ensures ExecBody(p, fn, s, fuel) == Some(out)
  {
    assert Recall(0);
  }

  lemma FunctionOf(m: Machine, p: Program, f: string, fn: Function) returns (entry: nat, t: nat, l: nat)
    requires Linked(m, p) && FindFunction(p, f) == Some(fn)
    ensures fn.name == f && GoodFunction(m, fn) && Compiled(m, fn, entry, t, l)
  {
    assert LinkedTo(m, p, f);
    entry, t, l :| Compiled(m, fn, entry, t, l);
  }

  /** From the call through the body of the callee and back; `mem` is what it leaves in memory. */
  lemma {:induction false} CalleeRun(m: Machine, p: Program, g: Gamma, callee: Function, entry: nat, t: nat, l: nat,
                                     pc: nat, fr: Frame, ks: seq<Caller>, place: nat, fuel: nat, args: seq<Argument>,
                                     s1: Store, out: Outcome, s': Store)
    returns (mem: map<int, int>)
    requires Linked(m, p) && GoodFunction(m, callee) && SoundLayout(m, g, fr.fn) && Represents(m, g, s1, fr)
    requires pc < |m.code| && m.code[pc] == CALL(Temp(place), callee.name)
    requires Admitted(callee, s1, args) && Compiled(m, callee, entry, t, l)
    requires BodyYields(p, callee, Entered(callee.params, args, s1), fuel, out) && out.Returned?
    requires IsBack(s1, out.store, s')
    ensures Gets(m, Running(pc, fr, ks, WordsOf(fr, args), s1.io),
                 Ready(pc + 1, SetTemp(fr.(mem := mem), place, out.value), ks, s'.io))
    ensures Represents(m, g, s', fr.(mem := mem))
    decreases fuel, callee, 11
  {
    if Fits(m, callee.name, CalleeFp(m, fr, |args|)) {
      var inner, ks' := CalleeFrame(m, fr, callee, args), [Caller(Suspended(fr), Temp(place), pc + 1)] + ks;
      CalleeStands(m, g, s1, fr, callee, args);
      var last := CalleeBody(m, p, callee, entry, t, l, Entered(callee.params, args, s1), inner, ks', fuel, out);
      mem := Remains(last);
      LeftBehind(m, g, s1, fr, callee.vars, out.store, last, s');
      ReturnsSo(m, fr, callee, entry, t, l, ks, place, pc, args, s1, out, last);
    } else {
      mem := MemoryLike(m, g, s1, fr, out.store, s');
      RunsOut(m, Running(pc, fr, ks, WordsOf(fr, args), s1.io),
              Ready(pc + 1, SetTemp(fr.(mem := mem), place, out.value), ks, s'.io));
    }
  }

  /** `s'` is the caller's store `s` after a callee that ended with `last` (kept folded). */
  ghost predicate IsBack(s: Store, last: Store, s': Store) {
    s'.io == last.io && forall k {:trigger Recall(k)} :: Recall(k) ==> s' == Back(s, last)
  }

  lemma LeftBehind(m: Machine, g: Gamma, s: Store, fr: Frame, g': Gamma, last: Store, fr': Frame, s': Store)
    requires Represents(m, g, s, fr) && Represents(m, g', last, fr') && IsBack(s, last, s')
    requires fr'.depth == fr.depth + 1 && OuterSame(fr, fr')
    ensures Represents(m, g, s', fr.(mem := Remains(fr')))
  {
    BackStands(m, g, s, fr, g', last, fr');
    ConsoleDoesNotMatter(m, g, s.(parts := Back(s, last).parts), last.io, fr.(mem := Remains(fr')));
    BackIs(s, last, s');
  }

  lemma BackIs(s: Store, last: Store, s': Store)
    requires IsBack(s, last, s')
    ensures s' == s.(parts := Back(s, last).parts).(io := last.io)
  {
    assert Recall(0);
  }

  lemma MemoryLike(m: Machine, g: Gamma, s: Store, fr: Frame, last: Store, s': Store) returns (mem: map<int, int>)
    requires SoundLayout(m, g, fr.fn) && Represents(m, g, s, fr) && IsBack(s, last, s')
    ensures Represents(m, g, s', fr.(mem := mem))
  {
    mem := MemoryFor(m, g, s, fr, Back(s, last).parts);
    ConsoleDoesNotMatter(m, g, s.(parts := Back(s, last).parts), last.io, fr.(mem := mem));
    BackIs(s, last, s');
  }

  /** The suspended caller goes on with the memory that its callee leaves. */
  lemma ReturnsSo(m: Machine, fr: Frame, callee: Function, entry: nat, t: nat, l: nat, ks: seq<Caller>, place: nat,
                  pc: nat, args: seq<Argument>, s: Store, out: Outcome, last: Frame)
    requires Compiled(m, callee, entry, t, l) && |callee.params| == |args| && out.Returned?
    requires pc < |m.code| && m.code[pc] == CALL(Temp(place), callee.name)
    requires Fits(m, callee.name, CalleeFp(m, fr, |args|))
    requires StmtEnd(m, callee.vars, entry + 1 + |callee.params|, |TransBody(callee, t, l).code|, s.io,
                     CalleeFrame(m, fr, callee, args), [Caller(Suspended(fr), Temp(place), pc + 1)] + ks, out, last)
    ensures Gets(m, Running(pc, fr, ks, WordsOf(fr, args), s.io),
                 Ready(pc + 1, SetTemp(fr.(mem := Remains(last)), place, out.value), ks, out.store.io))
  {
    var ks' := [Caller(Suspended(fr), Temp(place), pc + 1)] + ks;
    assert ks'[1..] == ks;
    var done := Ready(pc + 1, SetTemp(fr.(mem := Remains(last)), place, out.value), ks, out.store.io);
    assert Resume(out.value, last, ks', out.store.io) == Some(done);
    EnterEnd(m, callee, entry, t, l, Temp(place), pc, fr, ks, args, s.io);
    Depart(m, Running(pc, fr, ks, WordsOf(fr, args), s.io),
           Ready(entry + 1 + |args|, CalleeFrame(m, fr, callee, args), ks', s.io), done);
  }

  lemma {:induction false} CalleeBody(m: Machine, p: Program, callee: Function, entry: nat, t: nat, l: nat, s: Store,
                                      fr: Frame, ks: seq<Caller>, fuel: nat, out: Outcome)
    returns (last: Frame)
    requires Stands(m, p, callee, s, fr) && Compiled(m, callee, entry, t, l) && BodyYields(p, callee, s, fuel, out)
    ensures StmtEnd(m, callee.vars, entry + 1 + |callee.params|, |TransBody(callee, t, l).code|, s.io, fr, ks, out,
                    last)
    decreases fuel, callee, 9
  {
    hide TransBody, ExecBody, Represents;
    var body := TransBody(callee, t, l);
    BodyStart(callee, t, l);
    ParamsAt(m, entry + 1, callee.params, body.code, fr, ks, s.io);
    Split(m, entry + 1, TransParams(callee.params), body.code, callee.name);
    BodyRuns(p, callee, s, fuel, out);
    last := BodyOk(m, p, callee, body, t, l, entry + 1 + |callee.params|, s, fr, ks, fuel, out);
  }

  /** Arguments: evaluated left to right, queued so that the first one is in front. */
  lemma {:induction false} ArgsOk(m: Machine, p: Program, fn: Function, args: Args, t: nat, l: nat, o: StmtCode,
                                  pc: nat, s: Store, fr: Frame, ks: seq<Caller>, fuel: nat,
                                  ps: seq<Place>, s': Store, args': seq<Argument>)
    returns (fr': Frame)
    requires Stands(m, p, fn, s, fr)
    requires o == TransArgs(fn.vars, args, t, l) && Placed(m, pc, o.code, fn.name)
    requires EvalArgs(p, fn.vars, args, s, fuel) == Some((ps, s')) && PassAll(fn.vars, s', ps) == Some(args')
    ensures ArgsEnd(m, fn.vars, o, t, pc, s.io, fr, ks, args', s', fr')
    decreases fuel, args, 1
  {
    hide Eval, TransExp;
    match args
    case NoArg =>
      Stay(m, Ready(pc, fr, ks, s.io));
      Arrived(m, Ready(pc, fr, ks, s.io), Ready(pc, fr, ks, s.io));
      fr' := fr;
    case Arg(first, rest) =>
      var a := TransExp(fn.vars, first, t, t + 1, l);
      var b := TransArgs(fn.vars, rest, a.t, a.l);
      var (p1, s1) := Eval(p, fn.vars, first, s, fuel).value;
      var (more, _) := EvalArgs(p, fn.vars, rest, s1, fuel).value;
      assert ps[1..] == more;
      Split(m, pc, a.code + b.code, [ARG(HandleAddress(a.op, a.ty))], fn.name);
      Split(m, pc, a.code, b.code, fn.name);
      var fr1 := ExpOk(m, p, fn, first, t, t + 1, l, a, pc, s, fr, ks, fuel, p1, s1);
      fr' := ArgsOk(m, p, fn, rest, a.t, a.l, b, pc + |a.code|, s1, fr1, ks, fuel, more, s', args'[1..]);
      ArgEnd(m, fn.vars, a, b, t, o, pc, s.io, fr, ks, p1, s1, fr1, args'[0], args'[1..], s', fr');
  }

  lemma CoveredParts(slots: map<Operand, Slot>, a: Code, b: Code)
    requires Covered(slots, a + b)
    ensures Covered(slots, a) && Covered(slots, b)
  {
    assert forall i :: 0 <= i < |a| ==> (a + b)[i] == a[i];
    assert forall i :: 0 <= i < |b| ==> (a + b)[|a| + i] == b[i];
  }

  /** A function body. */
  lemma {:induction false} BodyOk(m: Machine, p: Program, fn: Function, o: StmtCode, t: nat, l: nat,
                                  pc: nat, s: Store, fr: Frame, ks: seq<Caller>, fuel: nat, out: Outcome)
    returns (fr': Frame)
    requires Stands(m, p, fn, s, fr)
    requires o == TransBody(fn, t, l) && Placed(m, pc, o.code, fn.name) && Covered(m.layout(fn.name).slots, o.code)
    requires ExecBody(p, fn, s, fuel) == Some(out)
    ensures StmtEnd(m, fn.vars, pc, |o.code|, s.io, fr, ks, out, fr')
    decreases fuel, fn, 8
  {
    hide Represents, TransDecs, TransStmts, ExecDecs, ExecAll;
    var a := TransDecs(fn.vars, fn.decs, t, l);
    var b := TransStmts(fn.vars, fn.body, a.t, a.l);
    var s1 := ExecDecs(p, fn.vars, fn.decs, s, fuel).value;
    Split(m, pc, a.code, b.code, fn.name);
    CoveredParts(m.layout(fn.name).slots, a.code, b.code);
    var fr1 := DecsOk(m, p, fn, fn.decs, t, l, a, pc, s, fr, ks, fuel, s1);
    fr' := StmtsOk(m, p, fn, fn.body, a.t, a.l, b, pc + |a.code|, s1, fr1, ks, fuel, out);
    Before(m, fn.vars, pc, |o.code|, s.io, fr, ks, pc + |a.code|, |b.code|, s1.io, fr1, out, fr');
  }

  /** Declarations. */
  lemma {:induction false} DecsOk(m: Machine, p: Program, fn: Function, decs: Decs, t: nat, l: nat, o: StmtCode,
                                  pc: nat, s: Store, fr: Frame, ks: seq<Caller>, fuel: nat, s': Store)
    returns (fr': Frame)
    requires Stands(m, p, fn, s, fr)
    requires o == TransDecs(fn.vars, decs, t, l)
    requires Placed(m, pc, o.code, fn.name) && Covered(m.layout(fn.name).slots, o.code)
    requires ExecDecs(p, fn.vars, decs, s, fuel) == Some(s')
    ensures StmtEnd(m, fn.vars, pc, |o.code|, s.io, fr, ks, Normal(s'), fr')
    decreases fuel, decs, 1
  {
    hide Eval, TransExp, Represents, LabelsOnce;
    match decs
    case NoDec =>
      InstrAt(m, pc, o.code, fn.name, 0);
      StepSkip(m, pc, fr, ks, s.io);
      Arrived(m, Ready(pc, fr, ks, s.io), Ready(pc + 1, fr, ks, s.io));
      fr' := fr;
    case Dec(x, ty, init, rest) =>
      var tail := if init.None? then TransDecs(fn.vars, rest, t, l) else InitCode(fn.vars, x, init.value, rest, t, l);
      var s1 := Declare(fn.vars, s, x, ty).value;
      fr' := DecOk(m, p, fn, decs, t, l, o, tail, pc, s, fr, ks, fuel, s1, s');
  }

  /** What one declaration leaves to its initialiser and the declarations after it. */
  ghost predicate Continues(p: Program, g: Gamma, decs: Decs, s: Store, fuel: nat, s': Store)
    requires decs.Dec?
  {
    if decs.init.None? then ExecDecs(p, g, decs.rest, s, fuel) == Some(s')
    else
      && Eval(p, g, decs.init.value, s, fuel).Some?
      && var (p2, s2) := Eval(p, g, decs.init.value, s, fuel).value;
         && ReadPlace(s2, p2).Some?
         && WritePlace(g, s2, Named(decs.name), ReadPlace(s2, p2).value).Some?
         && ExecDecs(p, g, decs.rest, WritePlace(g, s2, Named(decs.name), ReadPlace(s2, p2).value).value, fuel) ==
           Some(s')
  }

  /** One declaration and those after it. */
  lemma {:induction false} DecOk(m: Machine, p: Program, fn: Function, decs: Decs, t: nat, l: nat, o: StmtCode,
                                 tail: StmtCode, pc: nat, s: Store, fr: Frame, ks: seq<Caller>, fuel: nat,
                                 s1: Store, s': Store)
    returns (fr': Frame)
    requires Stands(m, p, fn, s, fr) && decs.Dec?
    requires tail == if decs.init.None? then TransDecs(fn.vars, decs.rest, t, l)
                     else InitCode(fn.vars, decs.name, decs.init.value, decs.rest, t, l)
    requires o.code == [if decs.dtype.Int? then NULL else DEC(decs.name, SizeOf(decs.dtype))] + tail.code
    requires Placed(m, pc, o.code, fn.name) && Covered(m.layout(fn.name).slots, o.code)
    requires Declare(fn.vars, s, decs.name, decs.dtype) == Some(s1) && Continues(p, fn.vars, decs, s1, fuel, s')
    ensures StmtEnd(m, fn.vars, pc, |o.code|, s.io, fr, ks, Normal(s'), fr')
    decreases fuel, decs, 0, 2
  {
    hide Eval, TransExp, TransDecs, ExecDecs, Represents, InitCode, Declare, WritePlace, ReadPlace;
    var x, init := decs.name, decs.init;
    var head := [if decs.dtype.Int? then NULL else DEC(x, SizeOf(decs.dtype))];
    Split(m, pc, head, tail.code, fn.name);
    CoveredParts(m.layout(fn.name).slots, head, tail.code);
    var fr1 := DeclareHead(m, fn.vars, x, decs.dtype, head, pc, s, fr, ks, s1);
    if init.None? {
      fr' := DecsOk(m, p, fn, decs.rest, t, l, tail, pc + 1, s1, fr1, ks, fuel, s');
    } else {
      var (p2, s2) := Eval(p, fn.vars, init.value, s1, fuel).value;
      var s3 := WritePlace(fn.vars, s2, Named(x), ReadPlace(s2, p2).value).value;
      fr' := InitOk(m, p, fn, x, init.value, decs, decs.rest, t, l, tail, pc + 1, s1, fr1, ks, fuel, p2, s2, s3, s');
    }
    Before(m, fn.vars, pc, |o.code|, s.io, fr, ks, pc + 1, |tail.code|, s1.io, fr1, Normal(s'), fr');
  }

  lemma DeclareHead(m: Machine, g: Gamma, x: string, ty: Type, head: Code, pc: nat, s: Store, fr: Frame,
                    ks: seq<Caller>, s': Store)
    returns (fr': Frame)
    requires SoundLayout(m, g, fr.fn) && Represents(m, g, s, fr)
    requires Declare(g, s, x, ty) == Some(s') && head == [if ty.Int? then NULL else DEC(x, SizeOf(ty))]
    requires Placed(m, pc, head, fr.fn) && Covered(m.layout(fr.fn).slots, head)
    ensures Gets(m, Ready(pc, fr, ks, s.io), Ready(pc + 1, fr', ks, s'.io))
    ensures Represents(m, g, s', fr') && SameActivation(fr, fr')
  {
    InstrAt(m, pc, head, fr.fn, 0);
    assert head[0].DEC? ==> Variable(head[0].name) in m.layout(fr.fn).slots;
    fr' := DeclareEnd(m, g, x, ty, pc, s, fr, ks, s');
    Arrived(m, Ready(pc, fr, ks, s.io), Ready(pc + 1, fr', ks, s'.io));
  }

  /** The code of an initialiser and of the declarations after it. */
  function InitCode(g: Gamma, x: string, init: Exp, rest: Decs, t: nat, l: nat): StmtCode {
    var a := TransExp(g, init, t, t + 1, l);
    var b := TransDecs(g, rest, a.t, a.l);
    StmtCode(a.code + [ASSIGN(Variable(x), a.op)] + b.code, b.t, b.l)
  }

  lemma InitPlaced(m: Machine, pc: nat, a: Code, store: Code, b: Code, fn: string, at: nat, mid: nat)
    requires Placed(m, pc, a + store + b, fn) && Covered(m.layout(fn).slots, a + store + b) && |store| == 1
    requires at == pc + |a| && mid == at + 1
    ensures Placed(m, pc, a, fn) && Placed(m, at, store, fn) && Placed(m, mid, b, fn)
    ensures Covered(m.layout(fn).slots, b)
  {
    Split(m, pc, a + store, b, fn);
    Split(m, pc, a, store, fn);
    CoveredParts(m.layout(fn).slots, a + store, b);
  }

  /** An initialiser. */
  lemma {:induction false} StoreOk(m: Machine, p: Program, fn: Function, x: string, init: Exp, decs: Decs, t: nat,
                                   l: nat,
                                   a: ExpCode, pc: nat, at: nat, s: Store, fr: Frame, ks: seq<Caller>, fuel: nat,
                                   p1: Place, s1: Store, s2: Store)
    returns (fr': Frame)
    requires Stands(m, p, fn, s, fr) && init < decs && at == pc + |a.code|
    requires a == TransExp(fn.vars, init, t, t + 1, l)
    requires Placed(m, pc, a.code, fn.name) && Placed(m, at, [ASSIGN(Variable(x), a.op)], fn.name)
    requires Eval(p, fn.vars, init, s, fuel) == Some((p1, s1)) && ReadPlace(s1, p1).Some?
    requires WritePlace(fn.vars, s1, Named(x), ReadPlace(s1, p1).value) == Some(s2)
    ensures StmtEnd(m, fn.vars, pc, |a.code| + 1, s.io, fr, ks, Normal(s2), fr')
    decreases fuel, decs, 0, 0
  {
    hide Represents, Eval, TransExp;
    var fr1 := ExpOk(m, p, fn, init, t, t + 1, l, a, pc, s, fr, ks, fuel, p1, s1);
    fr' := InitEnd(m, fn.vars, x, a, t, pc, s.io, fr, ks, p1, s1, fr1, s2);
  }

  lemma {:induction false} InitOk(m: Machine, p: Program, fn: Function, x: string, init: Exp, decs: Decs, rest: Decs,
                                  t: nat, l: nat, o: StmtCode, pc: nat, s: Store, fr: Frame, ks: seq<Caller>, fuel: nat,
                                  p1: Place, s1: Store, s2: Store, s': Store)
    returns (fr': Frame)
    requires Stands(m, p, fn, s, fr) && init < decs && rest < decs
    requires o == InitCode(fn.vars, x, init, rest, t, l)
    requires Placed(m, pc, o.code, fn.name) && Covered(m.layout(fn.name).slots, o.code)
    requires Eval(p, fn.vars, init, s, fuel) == Some((p1, s1)) && ReadPlace(s1, p1).Some?
    requires WritePlace(fn.vars, s1, Named(x), ReadPlace(s1, p1).value) == Some(s2)
    requires ExecDecs(p, fn.vars, rest, s2, fuel) == Some(s')
    ensures StmtEnd(m, fn.vars, pc, |o.code|, s.io, fr, ks, Normal(s'), fr')
    decreases fuel, decs, 0, 1
  {
    hide Eval, TransExp, Represents, ExecDecs, TransDecs, WritePlace, ReadPlace;
    var a := TransExp(fn.vars, init, t, t + 1, l);
    var b := TransDecs(fn.vars, rest, a.t, a.l);
    var at := pc + |a.code|;
    var mid := at + 1;
    InitPlaced(m, pc, a.code, [ASSIGN(Variable(x), a.op)], b.code, fn.name, at, mid);
    var fr1 := StoreOk(m, p, fn, x, init, decs, t, l, a, pc, at, s, fr, ks, fuel, p1, s1, s2);
    assert Stands(m, p, fn, s2, fr1);
    assert mid == pc + (|a.code| + 1);
    fr' := DecsOk(m, p, fn, rest, a.t, a.l, b, mid, s2, fr1, ks, fuel, s');
    Before(m, fn.vars, pc, |o.code|, s.io, fr, ks, mid, |b.code|, s2.io, fr1, Normal(s'), fr');
  }

  /** A list of statements. */
  lemma {:induction false} StmtsOk(m: Machine, p: Program, fn: Function, body: Stmts, t: nat, l: nat, o: StmtCode,
                                   pc: nat, s: Store, fr: Frame, ks: seq<Caller>, fuel: nat, out: Outcome)
    returns (fr': Frame)
    requires Stands(m, p, fn, s, fr)
    requires o == TransStmts(fn.vars, body, t, l)
    requires Placed(m, pc, o.code, fn.name) && Covered(m.layout(fn.name).slots, o.code)
    requires ExecAll(p, fn.vars, body, s, fuel) == Some(out)
    ensures StmtEnd(m, fn.vars, pc, |o.code|, s.io, fr, ks, out, fr')
    decreases fuel, body, 1
  {
    hide Represents, Exec, TransStmt;
    match body
    case NoStmt =>
      InstrAt(m, pc, o.code, fn.name, 0);
      StepSkip(m, pc, fr, ks, s.io);
      Arrived(m, Ready(pc, fr, ks, s.io), Ready(pc + 1, fr, ks, s.io));
      fr' := fr;
    case Seq(first, rest) =>
      var a := TransStmt(fn.vars, first, t, l);
      var b := TransStmts(fn.vars, rest, a.t, a.l);
      var out1 := Exec(p, fn.vars, first, s, fuel).value;
      Split(m, pc, a.code, b.code, fn.name);
      CoveredParts(m.layout(fn.name).slots, a.code, b.code);
      var fr1 := StmtOk(m, p, fn, first, t, l, a, pc, s, fr, ks, fuel, out1);
      if out1.Normal? {
        fr' := StmtsOk(m, p, fn, rest, a.t, a.l, b, pc + |a.code|, out1.store, fr1, ks, fuel, out);
        Before(m, fn.vars, pc, |o.code|, s.io, fr, ks, pc + |a.code|, |b.code|, out1.store.io, fr1, out, fr');
      } else {
        fr' := fr1;
      }
  }

  /** Statements: the code runs to its end, or returns, exactly as the statement does. */
  lemma {:induction false} StmtOk(m: Machine, p: Program, fn: Function, st: Stmt, t: nat, l: nat, o: StmtCode,
                                  pc: nat, s: Store, fr: Frame, ks: seq<Caller>, fuel: nat, out: Outcome)
    returns (fr': Frame)
    requires Stands(m, p, fn, s, fr)
    requires o == TransStmt(fn.vars, st, t, l)
    requires Placed(m, pc, o.code, fn.name) && Covered(m.layout(fn.name).slots, o.code)
    requires Exec(p, fn.vars, st, s, fuel) == Some(out)
    ensures StmtEnd(m, fn.vars, pc, |o.code|, s.io, fr, ks, out, fr')
    decreases fuel, st, 3
  {
    hide Holds, TransCondition;
    match st
    case ExpStmt(e) =>
      var a := TransExp(fn.vars, e, t, t + 1, l);
      var (p1, s1) := Eval(p, fn.vars, e, s, fuel).value;
      fr' := ExpOk(m, p, fn, e, t, t + 1, l, a, pc, s, fr, ks, fuel, p1, s1);
    case Block(_, _) => fr' := BlockOk(m, p, fn, st, t, l, o, pc, s, fr, ks, fuel, out);
    case Return(e) =>
      var a := TransExp(fn.vars, e, t, t + 1, l);
      var (p1, s1) := Eval(p, fn.vars, e, s, fuel).value;
      Split(m, pc, a.code, [RETURN(a.op)], fn.name);
      fr' := ExpOk(m, p, fn, e, t, t + 1, l, a, pc, s, fr, ks, fuel, p1, s1);
      ReturnEnd(m, fn.vars, a, t, o, pc, s.io, fr, ks, p1, s1, fr');
    case While(_, _) => fr' := WhileOk(m, p, fn, st, t, l, o, pc, s, fr, ks, fuel, out);
    case If(_, _) => fr' := IfOk(m, p, fn, st, t, l, o, pc, s, fr, ks, fuel, out);
    case IfElse(_, _, _) => fr' := IfElseOk(m, p, fn, st, t, l, o, pc, s, fr, ks, fuel, out);
  }

  /** Declarations, then statements. */
  lemma {:induction false} BlockOk(m: Machine, p: Program, fn: Function, st: Stmt, t: nat, l: nat, o: StmtCode,
                                   pc: nat, s: Store, fr: Frame, ks: seq<Caller>, fuel: nat, out: Outcome)
    returns (fr': Frame)
    requires Stands(m, p, fn, s, fr) && st.Block?
    requires o == TransStmt(fn.vars, st, t, l)
    requires Placed(m, pc, o.code, fn.name) && Covered(m.layout(fn.name).slots, o.code)
    requires Exec(p, fn.vars, st, s, fuel) == Some(out)
    ensures StmtEnd(m, fn.vars, pc, |o.code|, s.io, fr, ks, out, fr')
    decreases fuel, st, 2
  {
    var a := TransDecs(fn.vars, st.decs, t, l);
    var b := TransStmts(fn.vars, st.body, a.t, a.l);
    var s1 := ExecDecs(p, fn.vars, st.decs, s, fuel).value;
    Split(m, pc, a.code, b.code, fn.name);
    CoveredParts(m.layout(fn.name).slots, a.code, b.code);
    var fr1 := DecsOk(m, p, fn, st.decs, t, l, a, pc, s, fr, ks, fuel, s1);
    fr' := StmtsOk(m, p, fn, st.body, a.t, a.l, b, pc + |a.code|, s1, fr1, ks, fuel, out);
    Before(m, fn.vars, pc, |o.code|, s.io, fr, ks, pc + |a.code|, |b.code|, s1.io, fr1, out, fr');
  }

  /** A conditional without an else branch. */
  lemma {:induction false} IfOk(m: Machine, p: Program, fn: Function, st: Stmt, t: nat, l: nat, o: StmtCode,
                                pc: nat, s: Store, fr: Frame, ks: seq<Caller>, fuel: nat, out: Outcome)
    returns (fr': Frame)
    requires Stands(m, p, fn, s, fr) && st.If?
    requires o == TransStmt(fn.vars, st, t, l)
    requires Placed(m, pc, o.code, fn.name) && Covered(m.layout(fn.name).slots, o.code)
    requires Exec(p, fn.vars, st, s, fuel) == Some(out)
    ensures StmtEnd(m, fn.vars, pc, |o.code|, s.io, fr, ks, out, fr')
    decreases fuel, st, 2
  {
    hide Holds, TransCondition, Eval, TransExp, Represents;
    var c := TransCondition(fn.vars, st.cond, l, l + 1, t, l + 2);
    var a := TransStmt(fn.vars, st.thn, c.t, c.l);
    var (holds, s1) := Holds(p, fn.vars, st.cond, s, fuel).value;
    IfPlaced(m, pc, c.code, l, a.code, fr);
    var yes := pc + |c.code|;
    var no := yes + 1 + |a.code|;
    assert no + 1 == pc + |o.code|;
    var fr1 := CondOk(m, p, fn, st.cond, l, l + 1, yes, no, t, l + 2, c, pc, s, fr, ks, fuel, holds, s1);
    if holds {
      fr' := BranchOk(m, p, fn, st, st.thn, l, c.t, c.l, a, pc, s.io, fr, ks, t, fuel, yes, s1, fr1, out);
      IfLeave(m, fn.vars, pc, |o.code| - 1, s.io, fr, ks, out, fr', l + 1);
    } else {
      assert out == Normal(s1);
      fr' := fr1;
      NoBranch(m, fn.vars, t, pc, |o.code|, s.io, fr, ks, no, s1, fr1, l + 1);
    }
  }

  lemma IfPlaced(m: Machine, pc: nat, c: Code, l: nat, a: Code, fr: Frame)
    requires LabelsOnce(m.code)
    requires Placed(m, pc, c + [LABEL(l)] + a + [LABEL(l + 1)], fr.fn)
    requires Covered(m.layout(fr.fn).slots, c + [LABEL(l)] + a + [LABEL(l + 1)])
    ensures Placed(m, pc, c, fr.fn) && Placed(m, pc + |c|, [LABEL(l)], fr.fn)
    ensures Placed(m, pc + |c| + 1, a, fr.fn) && Placed(m, pc + |c| + 1 + |a|, [LABEL(l + 1)], fr.fn)
    ensures Covered(m.layout(fr.fn).slots, a)
    ensures Target(m, fr, l) == Some(pc + |c|) && Target(m, fr, l + 1) == Some(pc + |c| + 1 + |a|)
  {
    Split(m, pc, c + [LABEL(l)] + a, [LABEL(l + 1)], fr.fn);
    Split(m, pc, c + [LABEL(l)], a, fr.fn);
    Split(m, pc, c, [LABEL(l)], fr.fn);
    CoveredParts(m.layout(fr.fn).slots, c + [LABEL(l)] + a, [LABEL(l + 1)]);
    CoveredParts(m.layout(fr.fn).slots, c + [LABEL(l)], a);
    LabelTarget(m, pc + |c|, [LABEL(l)], fr, 0);
    LabelTarget(m, pc + |c| + 1 + |a|, [LABEL(l + 1)], fr, 0);
  }

  /** A branch ends at the label that closes the conditional. */
  lemma IfLeave(m: Machine, g: Gamma, pc: nat, len: nat, io: Console, fr: Frame, ks: seq<Caller>, out: Outcome,
                fr': Frame, l: nat)
    requires StmtEnd(m, g, pc, len, io, fr, ks, out, fr') && Placed(m, pc + len, [LABEL(l)], fr.fn)
    ensures StmtEnd(m, g, pc, len + 1, io, fr, ks, out, fr')
  {
    InstrAt(m, pc + len, [LABEL(l)], fr.fn, 0);
    if out.Normal? {
      StepSkip(m, pc + len, fr', ks, out.store.io);
    }
    After(m, g, pc, len, io, fr, ks, out, fr', len + 1);
  }

  /** A condition that does not hold jumps straight to the end. */
  lemma NoBranch(m: Machine, g: Gamma, t: nat, pc: nat, len: nat, io: Console, fr: Frame, ks: seq<Caller>,
                 no: nat, s1: Store, fr1: Frame, l: nat)
    requires CondEnd(m, g, t, pc, io, fr, ks, no, s1, fr1) && Placed(m, no, [LABEL(l)], fr.fn) && no + 1 == pc + len
    ensures StmtEnd(m, g, pc, len, io, fr, ks, Normal(s1), fr1)
  {
    InstrAt(m, no, [LABEL(l)], fr.fn, 0);
    PastLabel(m, g, t, pc, io, fr, ks, no, s1, fr1);
  }

  /** The branch that a condition has chosen by jumping to the label in front of it. */
  lemma {:induction false} BranchOk(m: Machine, p: Program, fn: Function, whole: Stmt, st: Stmt, mark: nat, t: nat,
                                    l: nat, a: StmtCode, pc: nat, io: Console, fr: Frame, ks: seq<Caller>, t': nat,
                                    fuel: nat, at: nat, s1: Store, fr1: Frame, out: Outcome)
    returns (fr': Frame)
    requires Linked(m, p) && GoodFunction(m, fn) && fr.fn == fn.name && st < whole && pc <= at
    requires a == TransStmt(fn.vars, st, t, l) && Covered(m.layout(fn.name).slots, a.code)
    requires Placed(m, at, [LABEL(mark)], fn.name) && Placed(m, at + 1, a.code, fn.name)
    requires CondEnd(m, fn.vars, t', pc, io, fr, ks, at, s1, fr1)
    requires Exec(p, fn.vars, st, s1, fuel) == Some(out)
    ensures StmtEnd(m, fn.vars, pc, at + 1 + |a.code| - pc, io, fr, ks, out, fr')
    decreases fuel, whole, 0
  {
    hide Exec, TransStmt, GoodFunction, LinkedTo, Represents;
    InstrAt(m, at, [LABEL(mark)], fn.name, 0);
    PastLabel(m, fn.vars, t', pc, io, fr, ks, at, s1, fr1);
    fr' := StmtOk(m, p, fn, st, t, l, a, at + 1, s1, fr1, ks, fuel, out);
    Before(m, fn.vars, pc, at + 1 + |a.code| - pc, io, fr, ks, at + 1, |a.code|, s1.io, fr1, out, fr');
  }

  /** A conditional with an else branch. */
  lemma {:induction false} IfElseOk(m: Machine, p: Program, fn: Function, st: Stmt, t: nat, l: nat, o: StmtCode,
                                    pc: nat, s: Store, fr: Frame, ks: seq<Caller>, fuel: nat, out: Outcome)
    returns (fr': Frame)
    requires Stands(m, p, fn, s, fr) && st.IfElse?
    requires o == TransStmt(fn.vars, st, t, l)
    requires Placed(m, pc, o.code, fn.name) && Covered(m.layout(fn.name).slots, o.code)
    requires Exec(p, fn.vars, st, s, fuel) == Some(out)
    ensures StmtEnd(m, fn.vars, pc, |o.code|, s.io, fr, ks, out, fr')
    decreases fuel, st, 2
  {
    hide Holds, TransCondition, Eval, TransExp, Represents;
    var c := TransCondition(fn.vars, st.cond, l, l + 1, t, l + 3);
    var a := TransStmt(fn.vars, st.thn, c.t, c.l);
    var b := TransStmt(fn.vars, st.els, a.t, a.l);
    var (holds, s1) := Holds(p, fn.vars, st.cond, s, fuel).value;
    IfElsePlaced(m, pc, c.code, l, a.code, b.code, fn.name);
    var yes := pc + |c.code|;
    var no := yes + 1 + |a.code| + 1;
    LabelTarget(m, yes, [LABEL(l)], fr, 0);
    LabelTarget(m, no, [LABEL(l + 1)], fr, 0);
    var fr1 := CondOk(m, p, fn, st.cond, l, l + 1, yes, no, t, l + 3, c, pc, s, fr, ks, fuel, holds, s1);
    if holds {
      fr' := FirstOk(m, p, fn, st, t, l, c, a, b, |o.code|, pc, s.io, fr, ks, fuel, s1, fr1, out);
    } else {
      fr' := SecondOk(m, p, fn, st, t, l, c, a, b, |o.code|, pc, s.io, fr, ks, fuel, s1, fr1, out);
    }
  }

  lemma IfElsePlaced(m: Machine, pc: nat, c: Code, l: nat, a: Code, b: Code, fn: string)
    requires Placed(m, pc, c + [LABEL(l)] + a + [GOTO(l + 2), LABEL(l + 1)] + b + [LABEL(l + 2)], fn)
    ensures Placed(m, pc, c, fn) && Placed(m, pc + |c|, [LABEL(l)], fn) && Placed(m, pc + |c| + 1, a, fn)
    ensures Placed(m, pc + |c| + 1 + |a|, [GOTO(l + 2)], fn) && Placed(m, pc + |c| + 1 + |a| + 1, [LABEL(l + 1)], fn)
    ensures Placed(m, pc + |c| + 1 + |a| + 2, b, fn) && Placed(m, pc + |c| + 1 + |a| + 2 + |b|, [LABEL(l + 2)], fn)
  {
    var middle := [GOTO(l + 2)] + [LABEL(l + 1)];
    assert middle == [GOTO(l + 2), LABEL(l + 1)];
    Split(m, pc, c + [LABEL(l)] + a + middle + b, [LABEL(l + 2)], fn);
    Split(m, pc, c + [LABEL(l)] + a + middle, b, fn);
    Split(m, pc, c + [LABEL(l)] + a, middle, fn);
    Split(m, pc + |c + [LABEL(l)] + a|, [GOTO(l + 2)], [LABEL(l + 1)], fn);
    Split(m, pc, c + [LABEL(l)], a, fn);
    Split(m, pc, c, [LABEL(l)], fn);
  }

  lemma IfElseCovered(slots: map<Operand, Slot>, c: Code, l: nat, a: Code, b: Code)
    requires Covered(slots, c + [LABEL(l)] + a + [GOTO(l + 2), LABEL(l + 1)] + b + [LABEL(l + 2)])
    ensures Covered(slots, a) && Covered(slots, b)
  {
    var middle := [GOTO(l + 2), LABEL(l + 1)];
    CoveredParts(slots, c + [LABEL(l)] + a + middle + b, [LABEL(l + 2)]);
    CoveredParts(slots, c + [LABEL(l)] + a + middle, b);
    CoveredParts(slots, c + [LABEL(l)] + a, middle);
    CoveredParts(slots, c + [LABEL(l)], a);
  }

  /** The first branch, and the way from its end to the end of the statement. */
  lemma {:induction false} FirstOk(m: Machine, p: Program, fn: Function, st: Stmt, t: nat, l: nat,
                                   c: StmtCode, a: StmtCode, b: StmtCode, len: nat, pc: nat, io: Console, fr: Frame,
                                   ks: seq<Caller>, fuel: nat, s1: Store, fr1: Frame, out: Outcome)
    returns (fr': Frame)
    requires Linked(m, p) && GoodFunction(m, fn) && fr.fn == fn.name && st.IfElse?
    requires a == TransStmt(fn.vars, st.thn, c.t, c.l) && len == |c.code| + 1 + |a.code| + 2 + |b.code| + 1
    requires var code := c.code + [LABEL(l)] + a.code + [GOTO(l + 2), LABEL(l + 1)] + b.code + [LABEL(l + 2)];
             Placed(m, pc, code, fn.name) && Covered(m.layout(fn.name).slots, code)
    requires CondEnd(m, fn.vars, t, pc, io, fr, ks, pc + |c.code|, s1, fr1)
    requires Exec(p, fn.vars, st.thn, s1, fuel) == Some(out)
    ensures StmtEnd(m, fn.vars, pc, len, io, fr, ks, out, fr')
    decreases fuel, st, 1
  {
    hide Exec, TransStmt;
    IfElsePlaced(m, pc, c.code, l, a.code, b.code, fn.name);
    IfElseCovered(m.layout(fn.name).slots, c.code, l, a.code, b.code);
    fr' := BranchOk(m, p, fn, st, st.thn, l, c.t, c.l, a, pc, io, fr, ks, t, fuel, pc + |c.code|, s1, fr1, out);
    ElseSkip(m, fn.vars, pc, |c.code| + 1 + |a.code|, io, fr, ks, out, fr', l, b.code);
    IfLeave(m, fn.vars, pc, len - 1, io, fr, ks, out, fr', l + 2);
  }

  /** The second branch. */
  lemma {:induction false} SecondOk(m: Machine, p: Program, fn: Function, st: Stmt, t: nat, l: nat,
                                    c: StmtCode, a: StmtCode, b: StmtCode, len: nat, pc: nat, io: Console, fr: Frame,
                                    ks: seq<Caller>, fuel: nat, s1: Store, fr1: Frame, out: Outcome)
    returns (fr': Frame)
    requires Linked(m, p) && GoodFunction(m, fn) && fr.fn == fn.name && st.IfElse?
    requires b == TransStmt(fn.vars, st.els, a.t, a.l) && len == |c.code| + 1 + |a.code| + 2 + |b.code| + 1
    requires var code := c.code + [LABEL(l)] + a.code + [GOTO(l + 2), LABEL(l + 1)] + b.code + [LABEL(l + 2)];
             Placed(m, pc, code, fn.name) && Covered(m.layout(fn.name).slots, code)
    requires CondEnd(m, fn.vars, t, pc, io, fr, ks, pc + |c.code| + 1 + |a.code| + 1, s1, fr1)
    requires Exec(p, fn.vars, st.els, s1, fuel) == Some(out)
    ensures StmtEnd(m, fn.vars, pc, len, io, fr, ks, out, fr')
    decreases fuel, st, 1
  {
    hide Exec, TransStmt;
    IfElsePlaced(m, pc, c.code, l, a.code, b.code, fn.name);
    IfElseCovered(m.layout(fn.name).slots, c.code, l, a.code, b.code);
    var no := pc + |c.code| + 1 + |a.code| + 1;
    fr' := BranchOk(m, p, fn, st, st.els, l + 1, a.t, a.l, b, pc, io, fr, ks, t, fuel, no, s1, fr1, out);
    IfLeave(m, fn.vars, pc, len - 1, io, fr, ks, out, fr', l + 2);
  }

  /** The end of the first branch jumps over the second. */
  lemma ElseSkip(m: Machine, g: Gamma, pc: nat, len: nat, io: Console, fr: Frame, ks: seq<Caller>, out: Outcome,
                 fr': Frame, l: nat, b: Code)
    requires StmtEnd(m, g, pc, len, io, fr, ks, out, fr') && LabelsOnce(m.code)
    requires Placed(m, pc + len, [GOTO(l + 2)], fr.fn) && Placed(m, pc + len + 2 + |b|, [LABEL(l + 2)], fr.fn)
    ensures StmtEnd(m, g, pc, len + 2 + |b|, io, fr, ks, out, fr')
  {
    var end := pc + len + 2 + |b|;
    InstrAt(m, pc + len, [GOTO(l + 2)], fr.fn, 0);
    if out.Normal? {
      LabelTarget(m, end, [LABEL(l + 2)], fr', 0);
      StepGoto(m, pc + len, fr', ks, out.store.io, l + 2, end);
    }
    After(m, g, pc, len, io, fr, ks, out, fr', len + 2 + |b|);
  }

  /** A loop. */
  lemma {:induction false} WhileOk(m: Machine, p: Program, fn: Function, st: Stmt, t: nat, l: nat, o: StmtCode,
                                   pc: nat, s: Store, fr: Frame, ks: seq<Caller>, fuel: nat, out: Outcome)
    returns (fr': Frame)
    requires Stands(m, p, fn, s, fr) && st.While?
    requires o == TransStmt(fn.vars, st, t, l)
    requires Placed(m, pc, o.code, fn.name) && Covered(m.layout(fn.name).slots, o.code)
    requires Exec(p, fn.vars, st, s, fuel) == Some(out)
    ensures StmtEnd(m, fn.vars, pc, |o.code|, s.io, fr, ks, out, fr')
    decreases fuel, st, 2
  {
    hide Holds, TransCondition, Eval, TransExp, Represents;
    var c := TransCondition(fn.vars, st.cond, l + 1, l + 2, t, l + 3);
    var b := TransStmt(fn.vars, st.body1, c.t, c.l);
    var (holds, s1) := Holds(p, fn.vars, st.cond, s, fuel).value;
    WhilePlaced(m, pc, l, c.code, b.code, fn.name);
    var yes := pc + 1 + |c.code|;
    var no := yes + 1 + |b.code| + 1;
    LabelTarget(m, yes, [LABEL(l + 1)], fr, 0);
    LabelTarget(m, no - 1, [GOTO(l), LABEL(l + 2)], fr, 1);
    InstrAt(m, pc, [LABEL(l)], fn.name, 0);
    StepSkip(m, pc, fr, ks, s.io);
    var fr1 := CondOk(m, p, fn, st.cond, l + 1, l + 2, yes, no, t, l + 3, c, pc + 1, s, fr, ks, fuel, holds, s1);
    Depart(m, Ready(pc, fr, ks, s.io), Ready(pc + 1, fr, ks, s.io), Ready(if holds then yes else no, fr1, ks, s1.io));
    fr' := LoopOk(m, p, fn, st, holds, t, l, c, b, o, pc, s, fr, ks, fuel, s1, fr1, out);
  }

  lemma WhilePlaced(m: Machine, pc: nat, l: nat, c: Code, b: Code, fn: string)
    requires Placed(m, pc, [LABEL(l)] + c + [LABEL(l + 1)] + b + [GOTO(l), LABEL(l + 2)], fn)
    ensures Placed(m, pc, [LABEL(l)], fn) && Placed(m, pc + 1, c, fn)
    ensures Placed(m, pc + 1 + |c|, [LABEL(l + 1)], fn) && Placed(m, pc + 1 + |c| + 1, b, fn)
    ensures Placed(m, pc + 1 + |c| + 1 + |b|, [GOTO(l), LABEL(l + 2)], fn)
  {
    Split(m, pc, [LABEL(l)] + c + [LABEL(l + 1)] + b, [GOTO(l), LABEL(l + 2)], fn);
    Split(m, pc, [LABEL(l)] + c + [LABEL(l + 1)], b, fn);
    Split(m, pc, [LABEL(l)] + c, [LABEL(l + 1)], fn);
    Split(m, pc, [LABEL(l)], c, fn);
  }

  lemma WhileCovered(slots: map<Operand, Slot>, l: nat, c: Code, b: Code)
    requires Covered(slots, [LABEL(l)] + c + [LABEL(l + 1)] + b + [GOTO(l), LABEL(l + 2)])
    ensures Covered(slots, b)
  {
    CoveredParts(slots, [LABEL(l)] + c + [LABEL(l + 1)] + b, [GOTO(l), LABEL(l + 2)]);
    CoveredParts(slots, [LABEL(l)] + c + [LABEL(l + 1)], b);
  }

  /** A loop after its condition: leave it, or run the body and start over. */
  lemma {:induction false} LoopOk(m: Machine, p: Program, fn: Function, st: Stmt, holds: bool, t: nat, l: nat,
                                  c: StmtCode, b: StmtCode, o: StmtCode, pc: nat, s: Store, fr: Frame, ks: seq<Caller>,
                                  fuel: nat, s1: Store, fr1: Frame, out: Outcome)
    returns (fr': Frame)
    requires Linked(m, p) && GoodFunction(m, fn) && fr.fn == fn.name && st.While? && o == TransStmt(fn.vars, st, t, l)
    requires b == TransStmt(fn.vars, st.body1, c.t, c.l)
    requires o.code == [LABEL(l)] + c.code + [LABEL(l + 1)] + b.code + [GOTO(l), LABEL(l + 2)]
    requires Placed(m, pc, o.code, fn.name) && Covered(m.layout(fn.name).slots, o.code)
    requires Gets(m, Ready(pc, fr, ks, s.io),
                  Ready(pc + 1 + |c.code| + (if holds then 0 else 2 + |b.code|), fr1, ks, s1.io))
    requires Represents(m, fn.vars, s1, fr1) && SameActivation(fr, fr1)
    requires if holds then
               && Exec(p, fn.vars, st.body1, s1, fuel).Some?
               && var out1 := Exec(p, fn.vars, st.body1, s1, fuel).value;
                  if out1.Returned? then out == out1
                  else fuel > 0 && Exec(p, fn.vars, st, out1.store, fuel - 1) == Some(out)
             else out == Normal(s1)
    ensures StmtEnd(m, fn.vars, pc, |o.code|, s.io, fr, ks, out, fr')
    decreases fuel, st, 1
  {
    hide Holds, TransCondition, TransStmt;
    WhilePlaced(m, pc, l, c.code, b.code, fn.name);
    var yes := pc + 1 + |c.code|;
    var back := yes + 1 + |b.code|;
    InstrAt(m, yes, [LABEL(l + 1)], fn.name, 0);
    InstrAt(m, back, [GOTO(l), LABEL(l + 2)], fn.name, 1);
    var to := if holds then yes else back + 1;
    StepSkip(m, to, fr1, ks, s1.io);
    Arrive(m, Ready(pc, fr, ks, s.io), Ready(to, fr1, ks, s1.io), Ready(to + 1, fr1, ks, s1.io));
    if holds {
      var out1 := Exec(p, fn.vars, st.body1, s1, fuel).value;
      fr' := AgainOk(m, p, fn, st, t, l, c, b, o, pc, s, fr, ks, fuel, s1, fr1, out1, out);
    } else {
      fr' := fr1;
    }
  }

  /** The body of a loop, and what comes after it. */
  lemma {:induction false} AgainOk(m: Machine, p: Program, fn: Function, st: Stmt, t: nat, l: nat,
                                   c: StmtCode, b: StmtCode, o: StmtCode, pc: nat, s: Store, fr: Frame, ks: seq<Caller>,
                                   fuel: nat, s1: Store, fr1: Frame, out1: Outcome, out: Outcome)
    returns (fr': Frame)
    requires Linked(m, p) && GoodFunction(m, fn) && fr.fn == fn.name && st.While? && o == TransStmt(fn.vars, st, t, l)
    requires b == TransStmt(fn.vars, st.body1, c.t, c.l)
    requires o.code == [LABEL(l)] + c.code + [LABEL(l + 1)] + b.code + [GOTO(l), LABEL(l + 2)]
    requires Placed(m, pc, o.code, fn.name) && Covered(m.layout(fn.name).slots, o.code)
    requires Gets(m, Ready(pc, fr, ks, s.io), Ready(pc + 1 + |c.code| + 1, fr1, ks, s1.io))
    requires Represents(m, fn.vars, s1, fr1) && SameActivation(fr, fr1)
    requires Exec(p, fn.vars, st.body1, s1, fuel) == Some(out1)
    requires if out1.Returned? then out == out1 else fuel > 0 && Exec(p, fn.vars, st, out1.store, fuel - 1) == Some(out)
    ensures StmtEnd(m, fn.vars, pc, |o.code|, s.io, fr, ks, out, fr')
    decreases fuel, st, 0
  {
    hide Exec, TransStmt;
    WhilePlaced(m, pc, l, c.code, b.code, fn.name);
    WhileCovered(m.layout(fn.name).slots, l, c.code, b.code);
    var start := pc + 1 + |c.code| + 1;
    var back := start + |b.code|;
    var fr2 := StmtOk(m, p, fn, st.body1, c.t, c.l, b, start, s1, fr1, ks, fuel, out1);
    Before(m, fn.vars, pc, back - pc, s.io, fr, ks, start, |b.code|, s1.io, fr1, out1, fr2);
    if out1.Normal? {
      var s2 := out1.store;
      JumpBack(m, fn.vars, pc, back, l, s.io, fr, ks, s2, fr2);
      fr' := StmtOk(m, p, fn, st, t, l, o, pc, s2, fr2, ks, fuel - 1, out);
      Before(m, fn.vars, pc, |o.code|, s.io, fr, ks, pc, |o.code|, s2.io, fr2, out, fr');
    } else {
      fr' := fr2;
    }
  }

  /** From the end of the body back to the condition. */
  lemma JumpBack(m: Machine, g: Gamma, pc: nat, back: nat, l: nat, io: Console, fr: Frame, ks: seq<Caller>, s2: Store,
                 fr2: Frame)
    requires LabelsOnce(m.code) && Placed(m, pc, [LABEL(l)], fr.fn) && Placed(m, back, [GOTO(l), LABEL(l + 2)], fr.fn)
    requires Gets(m, Ready(pc, fr, ks, io), Ready(back, fr2, ks, s2.io)) && fr2.fn == fr.fn
    ensures Gets(m, Ready(pc, fr, ks, io), Ready(pc, fr2, ks, s2.io))
  {
    InstrAt(m, back, [GOTO(l), LABEL(l + 2)], fr.fn, 0);
    LabelTarget(m, pc, [LABEL(l)], fr2, 0);
    StepGoto(m, back, fr2, ks, s2.io, l, pc);
    Arrive(m, Ready(pc, fr, ks, io), Ready(back, fr2, ks, s2.io), Ready(pc, fr2, ks, s2.io));
  }
}
