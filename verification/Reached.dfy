/** Every operand that code reaches memory through has a slot in its function's frame, although the
    layout pass looks only at operands that instructions name directly. */
module Reached {
  import opened Common
  import opened Syntax
  import opened Layout
  import opened Ir
  import opened Translate
  import opened Static
  import opened Link
  import opened Format
  import opened Frames

  // ----- what code dereferences and what it assigns -----

  function NeedsOp(op: Operand): set<Operand> {
    if op.GetVal? then {op.opr} else {}
  }

  function NeedsOf(ins: Instr): set<Operand> {
    match ins
    case RETURN(src) => NeedsOp(src)
    case ARG(src) => NeedsOp(src)
    case WRITE(src) => NeedsOp(src)
    case CALL(dst, _) => NeedsOp(dst)
    case READ(dst) => NeedsOp(dst)
    case ASSIGN(dst, src) => NeedsOp(dst) + NeedsOp(src)
    case IF_GOTO(_, src1, src2, _) => NeedsOp(src1) + NeedsOp(src2)
    case ARITH(_, dst, src1, src2) => NeedsOp(dst) + NeedsOp(src1) + NeedsOp(src2)
    case _ => {}
  }

  /** What an instruction reaches memory through, it needs. */
  lemma NeedsAreTracked(ins: Instr)
    ensures forall op :: op in Tracked(ins) && op.GetVal? ==> op.opr in NeedsOf(ins)
  {
  }

  function Needs(code: Code): set<Operand> {
    if code == [] then {} else Needs(code[..|code| - 1]) + NeedsOf(code[|code| - 1])
  }

  function Gives(code: Code): set<Operand> {
    if code == [] then {} else Gives(code[..|code| - 1]) + GivesOf(code[|code| - 1])
  }

  lemma {:induction false} NeedsAdd(a: Code, b: Code)
    ensures Needs(a + b) == Needs(a) + Needs(b) && Gives(a + b) == Gives(a) + Gives(b)
    decreases |b|
  {
    if b == [] {
      assert a + b == a;
    } else {
      assert (a + b)[..|a + b| - 1] == a + b[..|b| - 1];
      NeedsAdd(a, b[..|b| - 1]);
    }
  }

  lemma NeedsOne(ins: Instr)
    ensures Needs([ins]) == NeedsOf(ins) && Gives([ins]) == GivesOf(ins)
  {
    assert [ins][..0] == [];
  }

  /** What `code` dereferences it assigns, apart from what is `given` (kept folded, like `Ir.Reaches`). */
  ghost predicate Grounded(code: Code, given: set<Operand>) {
    forall k {:trigger Recall(k)} :: Recall(k) ==> Needs(code) <= Gives(code) + given
  }

  /** `code` assigns `ops`, apart from what is `given` (kept folded). */
  ghost predicate Avail(code: Code, given: set<Operand>, ops: set<Operand>) {
    forall k {:trigger Recall(k)} :: Recall(k) ==> ops <= Gives(code) + given
  }

  lemma GroundedNil(given: set<Operand>)
    ensures Grounded([], given)
  {
  }

  /** A first instruction that dereferences nothing. */
  lemma GroundedFirst(ins: Instr, given: set<Operand>)
    requires NeedsOf(ins) == {}
    ensures Grounded([ins], given)
  {
    NeedsOne(ins);
  }

  lemma GroundedAdd(a: Code, b: Code, given: set<Operand>)
    requires Grounded(a, given) && Grounded(b, given)
    ensures Grounded(a + b, given)
  {
    assert Recall(0);
    NeedsAdd(a, b);
  }

  lemma AvailAdd(a: Code, b: Code, given: set<Operand>, ops: set<Operand>, more: set<Operand>)
    requires Avail(a, given, ops) && Avail(b, given, more)
    ensures Avail(a + b, given, ops + more)
  {
    assert Recall(0);
    NeedsAdd(a, b);
  }

  lemma AvailNothing(code: Code, given: set<Operand>)
    ensures Avail(code, given, {})
  {
  }

  lemma AvailLess(code: Code, given: set<Operand>, ops: set<Operand>, less: set<Operand>)
    requires Avail(code, given, ops) && less <= ops
    ensures Avail(code, given, less)
  {
    assert Recall(0);
  }

  /** One instruction behind code that assigns what it dereferences. */
  lemma GroundedOne(a: Code, ins: Instr, given: set<Operand>, ops: set<Operand>)
    requires Grounded(a, given) && Avail(a, given, ops) && NeedsOf(ins) <= ops
    ensures Grounded(a + [ins], given) && Avail(a + [ins], given, ops + GivesOf(ins))
  {
    assert Recall(0);
    NeedsOne(ins);
    NeedsAdd(a, [ins]);
  }

  // ----- expressions -----

  function RefsOf(g: Gamma): set<Operand> {
    set x | x in g && g[x].Ref? :: Variable(x)
  }

  /** The code of an expression grounds itself and the operand that it leaves. */
  ghost predicate GroundedExp(g: Gamma, o: ExpCode) {
    Grounded(o.code, RefsOf(g)) && Avail(o.code, RefsOf(g), NeedsOp(o.op))
  }

  /** Arithmetic behind code that assigns what its operands are reached through. */
  lemma ArithmeticGrounded(a: Code, op: ArithOp, k: nat, src1: Operand, src2: Operand, t: nat, given: set<Operand>,
                           ops: set<Operand>)
    requires Grounded(a, given) && Avail(a, given, ops) && NeedsOp(src1) + NeedsOp(src2) <= ops
    ensures var (code, _) := Arithmetic(op, Temp(k), src1, src2, t);
            Grounded(a + code, given) && Avail(a + code, given, ops + {Temp(k)})
  {
    var (code1, actual1, t1) := Fetch(src1, t);
    var (code2, actual2, t2) := Fetch(src2, t1);
    var last := ARITH(op, Temp(k), actual1, actual2);
    FetchGrounded(a, src1, t, given, ops);
    FetchGrounded(a + code1, src2, t1, given, ops);
    GroundedOne(a + code1 + code2, last, given, ops);
    assert a + code1 + code2 + [last] == a + (code1 + code2 + [last]);
  }

  lemma FetchGrounded(a: Code, src: Operand, t: nat, given: set<Operand>, ops: set<Operand>)
    requires Grounded(a, given) && Avail(a, given, ops) && NeedsOp(src) <= ops
    ensures Grounded(a + Fetch(src, t).0, given) && Avail(a + Fetch(src, t).0, given, ops)
    ensures NeedsOp(Fetch(src, t).1) == {}
  {
    if IsMemOp(src) {
      GroundedOne(a, ASSIGN(Temp(t), src), given, ops);
      AvailLess(a + [ASSIGN(Temp(t), src)], given, ops + {Temp(t)}, ops);
    } else {
      assert a + [] == a;
    }
  }

  /** What an address is reached through. */
  function AddrOps(addr: Operand): set<Operand> {
    if HasSlot(addr) then {addr} else {}
  }

  lemma DerefGrounded(code: Code, addr: Operand, ty: Option<Type>, t: nat, l: nat, given: set<Operand>)
    requires Grounded(code, given) && Avail(code, given, AddrOps(addr)) && (HasSlot(addr) || addr.GetAddr?)
    ensures var o := Deref(code, addr, ty, t, l); Grounded(o.code, given) && Avail(o.code, given, NeedsOp(o.op))
  {
    if addr.GetAddr? {
      GroundedOne(code, ASSIGN(Temp(t), addr), given, {});
      AvailLess(code + [ASSIGN(Temp(t), addr)], given, {} + {Temp(t)}, {Temp(t)});
    }
  }

  /** What the address of an operand is reached through has been assigned. */
  lemma AddressGrounded(g: Gamma, a: ExpCode, place: nat, t: nat)
    requires GroundedExp(g, a) && OperandForm(g, a, place, t)
    ensures var addr := AddressOf(a.op, a.ty);
            (HasSlot(addr) || addr.GetAddr?) && Avail(a.code, RefsOf(g), AddrOps(addr))
  {
  }

  /** Two expressions one after the other. */
  lemma {:induction false} PairGrounded(g: Gamma, e: Exp, e1: Exp, e2: Exp, t: nat, ta: nat, l: nat)
    returns (a: ExpCode, b: ExpCode)
    requires e1 < e && e2 < e && t + 1 < ta
    ensures a == TransExp(g, e1, t, ta, l) && b == TransExp(g, e2, t + 1, a.t, a.l)
    ensures GroundedExp(g, a) && GroundedExp(g, b) && OperandForm(g, a, t, ta)
    ensures Grounded(a.code + b.code, RefsOf(g)) && Avail(a.code + b.code, RefsOf(g), NeedsOp(a.op) + NeedsOp(b.op))
    decreases e, 0
  {
    a := TransExp(g, e1, t, ta, l);
    b := TransExp(g, e2, t + 1, a.t, a.l);
    ExpGrounded(g, e1, t, ta, l);
    ExpGrounded(g, e2, t + 1, a.t, a.l);
    ExpTidy(g, e1, t, ta, l);
    GroundedAdd(a.code, b.code, RefsOf(g));
    AvailAdd(a.code, b.code, RefsOf(g), NeedsOp(a.op), NeedsOp(b.op));
  }

  lemma {:induction false} ExpGrounded(g: Gamma, e: Exp, place: nat, t: nat, l: nat)
    requires place < t
    ensures GroundedExp(g, TransExp(g, e, place, t, l))
    decreases e, if IsLogical(e) then 5 else 2
  {
    match e
    case Assign(_, _) => AssignGrounded(g, e, place, t, l);
    case Arith(_, _, _) => ArithGrounded(g, e, place, t, l);
    case Paren(arg) => ExpGrounded(g, arg, place, t, l);
    case Neg(_) => UnaryGrounded(g, e, place, t, l);
    case Call(_, _) => CallGrounded(g, e, place, t, l);
    case Read => GroundedFirst(READ(Temp(place)), RefsOf(g));
    case Write(_) => UnaryGrounded(g, e, place, t, l);
    case Index(_, _) => PathGrounded(g, e, place, t, l);
    case Dot(_, _) => PathGrounded(g, e, place, t, l);
    case Id(_) => GroundedFirst(NULL, RefsOf(g));
    case Lit(_) => GroundedFirst(NULL, RefsOf(g));
    case _ => LogicalGrounded(g, e, place, t, l);
  }

  lemma {:induction false} AssignGrounded(g: Gamma, e: Exp, place: nat, t: nat, l: nat)
    requires e.Assign? && place < t
    ensures GroundedExp(g, TransExp(g, e, place, t, l))
    decreases e, 1
  {
    hide Grounded;
    var a, b := PairGrounded(g, e, e.left, e.right, t, t + 2, l);
    StoreGrounded(a.code + b.code, a.op, b.op, place, RefsOf(g));
  }

  lemma {:induction false} ArithGrounded(g: Gamma, e: Exp, place: nat, t: nat, l: nat)
    requires e.Arith? && place < t
    ensures GroundedExp(g, TransExp(g, e, place, t, l))
    decreases e, 1
  {
    hide Arithmetic, Grounded;
    var a, b := PairGrounded(g, e, e.left, e.right, t, t + 2, l);
    ArithmeticGrounded(a.code + b.code, e.op, place, a.op, b.op, b.t, RefsOf(g), NeedsOp(a.op) + NeedsOp(b.op));
  }

  lemma {:induction false} UnaryGrounded(g: Gamma, e: Exp, place: nat, t: nat, l: nat)
    requires (e.Neg? || e.Write?) && place < t
    ensures GroundedExp(g, TransExp(g, e, place, t, l))
    decreases e, 1
  {
    var a := TransExp(g, e.arg, t, t + 1, l);
    ExpGrounded(g, e.arg, t, t + 1, l);
    if e.Neg? {
      ArithmeticGrounded(a.code, Minus, place, Const(0), a.op, a.t, RefsOf(g), NeedsOp(a.op));
    } else {
      GroundedOne(a.code, WRITE(a.op), RefsOf(g), NeedsOp(a.op));
    }
  }

  lemma {:induction false} CallGrounded(g: Gamma, e: Exp, place: nat, t: nat, l: nat)
    requires e.Call?
    ensures GroundedExp(g, TransExp(g, e, place, t, l))
    decreases e, 1
  {
    ArgsGrounded(g, e.args, t, l);
    GroundedOne(TransArgs(g, e.args, t, l).code, CALL(Temp(place), e.func), RefsOf(g), {});
  }

  lemma {:induction false} PathGrounded(g: Gamma, e: Exp, place: nat, t: nat, l: nat)
    requires e.Index? || e.Dot?
    ensures GroundedExp(g, TransExp(g, e, place, t, l))
    decreases e, 1
  {
    if e.Index? {
      var a, i := PairGrounded(g, e, e.base, e.index, t, t + 3, l);
      ElementGrounded(g, a, i, t);
    } else {
      var a := TransExp(g, e.base, t, t + 1, l);
      ExpGrounded(g, e.base, t, t + 1, l);
      ExpTidy(g, e.base, t, t + 1, l);
      MemberGrounded(g, a, e.member, t);
    }
  }

  lemma {:induction false} LogicalGrounded(g: Gamma, e: Exp, place: nat, t: nat, l: nat)
    requires IsLogical(e)
    ensures GroundedExp(g, TransExp(g, e, place, t, l))
    decreases e, 4
  {
    CondGrounded(g, e, l, l + 1, t, l + 2);
    TruthGrounded(TransCondition(g, e, l, l + 1, t, l + 2).code, place, l, RefsOf(g));
  }

  /** An assignment, and reading back what was assigned. */
  lemma StoreGrounded(code: Code, dst: Operand, src: Operand, place: nat, given: set<Operand>)
    requires Grounded(code, given) && Avail(code, given, NeedsOp(dst) + NeedsOp(src))
    ensures Grounded(code + [ASSIGN(dst, src), ASSIGN(Temp(place), dst)], given)
  {
    var ops, first, second := NeedsOp(dst) + NeedsOp(src), ASSIGN(dst, src), ASSIGN(Temp(place), dst);
    GroundedOne(code, first, given, ops);
    GroundedOne(code + [first], second, given, ops + GivesOf(first));
    assert code + [first] + [second] == code + [first, second];
  }

  lemma ElementGrounded(g: Gamma, a: ExpCode, i: ExpCode, t: nat)
    requires Grounded(a.code + i.code, RefsOf(g)) && GroundedExp(g, a) && GroundedExp(g, i)
    requires OperandForm(g, a, t, t + 3)
    ensures GroundedExp(g, ElementCode(a, i, t + 2))
  {
    hide Arithmetic, Grounded, Avail;
    var code, addr, refs := a.code + i.code, AddressOf(a.op, a.ty), RefsOf(g);
    AddressGrounded(g, a, t, t + 3);
    AvailAdd(a.code, i.code, refs, AddrOps(addr), NeedsOp(i.op));
    if IsZeroWord(i.op) {
      AvailLess(code, refs, AddrOps(addr) + NeedsOp(i.op), AddrOps(addr));
      DerefGrounded(code, addr, Some(ElemType(a.ty)), i.t, i.l, refs);
    } else {
      ScaledGrounded(code, i.op, Const(SizeOf(ElemType(a.ty))), addr, t + 2, i.t, refs, AddrOps(addr) + NeedsOp(i.op));
    }
  }

  /** An index scaled and added to an address. */
  lemma ScaledGrounded(code: Code, index: Operand, size: Operand, addr: Operand, k: nat, t: nat, given: set<Operand>,
                       ops: set<Operand>)
    requires Grounded(code, given) && Avail(code, given, ops) && NeedsOp(index) <= ops && size.Const? && !addr.GetVal?
    ensures var (code3, t3) := Arithmetic(Star, Temp(k), index, size, t + 1);
            var (code4, t4) := Arithmetic(Plus, Temp(t), addr, Temp(k), t3);
            Grounded(code + code3 + code4, given) && Avail(code + code3 + code4, given, {Temp(t)})
  {
    var (code3, t3) := Arithmetic(Star, Temp(k), index, size, t + 1);
    var (code4, t4) := Arithmetic(Plus, Temp(t), addr, Temp(k), t3);
    ArithmeticGrounded(code, Star, k, index, size, t + 1, given, ops);
    ArithmeticGrounded(code + code3, Plus, t, addr, Temp(k), t3, given, ops + {Temp(k)});
    AvailLess(code + code3 + code4, given, ops + {Temp(k)} + {Temp(t)}, {Temp(t)});
  }

  lemma MemberGrounded(g: Gamma, a: ExpCode, name: string, t: nat)
    requires GroundedExp(g, a) && OperandForm(g, a, t, t + 1)
    ensures GroundedExp(g, MemberCode(a, name))
  {
    var (offset, part) := MemberOf(a.ty, name);
    var addr, refs := AddressOf(a.op, a.ty), RefsOf(g);
    AddressGrounded(g, a, t, t + 1);
    if offset == 0 {
      DerefGrounded(a.code, addr, part, a.t, a.l, refs);
    } else {
      var (code, t') := Arithmetic(Plus, Temp(a.t), addr, Const(offset), a.t + 1);
      AvailNothing(a.code, refs);
      ArithmeticGrounded(a.code, Plus, a.t, addr, Const(offset), a.t + 1, refs, {});
      AvailLess(a.code + code, refs, {} + {Temp(a.t)}, {Temp(a.t)});
    }
  }

  lemma TruthGrounded(c: Code, place: nat, l: nat, given: set<Operand>)
    requires Grounded(c, given)
    ensures Grounded([ASSIGN(Temp(place), Const(0))] + c + [LABEL(l), ASSIGN(Temp(place), Const(1)), LABEL(l + 1)],
                     given)
  {
    var first, second := ASSIGN(Temp(place), Const(0)), ASSIGN(Temp(place), Const(1));
    var code := [first] + c;
    GroundedFirst(first, given);
    GroundedAdd([first], c, given);
    QuietOne(code, LABEL(l), given);
    QuietOne(code + [LABEL(l)], second, given);
    QuietOne(code + [LABEL(l)] + [second], LABEL(l + 1), given);
    assert code + [LABEL(l)] + [second] + [LABEL(l + 1)] == code + [LABEL(l), second, LABEL(l + 1)];
  }

  /** An instruction that dereferences nothing. */
  lemma QuietOne(a: Code, ins: Instr, given: set<Operand>)
    requires Grounded(a, given) && NeedsOf(ins) == {}
    ensures Grounded(a + [ins], given)
  {
    AvailNothing(a, given);
    GroundedOne(a, ins, given, {});
  }

  lemma JumpGrounded(a: Code, op: Relop, src1: Operand, src2: Operand, yes: nat, no: nat, given: set<Operand>,
                     ops: set<Operand>)
    requires Grounded(a, given) && Avail(a, given, ops) && NeedsOp(src1) + NeedsOp(src2) <= ops
    ensures Grounded(a + [IF_GOTO(op, src1, src2, yes), GOTO(no)], given)
  {
    GroundedOne(a, IF_GOTO(op, src1, src2, yes), given, ops);
    QuietOne(a + [IF_GOTO(op, src1, src2, yes)], GOTO(no), given);
    assert a + [IF_GOTO(op, src1, src2, yes)] + [GOTO(no)] == a + [IF_GOTO(op, src1, src2, yes), GOTO(no)];
  }

  lemma {:induction false} CondGrounded(g: Gamma, e: Exp, yes: nat, no: nat, t: nat, l: nat)
    ensures Grounded(TransCondition(g, e, yes, no, t, l).code, RefsOf(g))
    decreases e, 3
  {
    match e
    case Not(arg) => CondGrounded(g, arg, no, yes, t, l);
    case Rel(_, _, _) => RelGrounded(g, e, yes, no, t, l);
    case And(_, _) => EitherGrounded(g, e, yes, no, t, l);
    case Or(_, _) => EitherGrounded(g, e, yes, no, t, l);
    case _ =>
      var a := TransExp(g, e, t, t + 1, l);
      ExpGrounded(g, e, t, t + 1, l);
      JumpGrounded(a.code, Ne, a.op, Const(0), yes, no, RefsOf(g), NeedsOp(a.op));
  }

  lemma {:induction false} EitherGrounded(g: Gamma, e: Exp, yes: nat, no: nat, t: nat, l: nat)
    requires e.And? || e.Or?
    ensures Grounded(TransCondition(g, e, yes, no, t, l).code, RefsOf(g))
    decreases e, 1
  {
    var yes1, no1 := if e.And? then l else yes, if e.And? then no else l;
    var a := TransCondition(g, e.left, yes1, no1, t, l + 1);
    CondGrounded(g, e.left, yes1, no1, t, l + 1);
    CondGrounded(g, e.right, yes, no, a.t, a.l);
    JoinGrounded(a.code, LABEL(l), TransCondition(g, e.right, yes, no, a.t, a.l).code, RefsOf(g));
  }

  lemma {:induction false} RelGrounded(g: Gamma, e: Exp, yes: nat, no: nat, t: nat, l: nat)
    requires e.Rel?
    ensures Grounded(TransCondition(g, e, yes, no, t, l).code, RefsOf(g))
    decreases e, 1
  {
    var a, b := PairGrounded(g, e, e.left, e.right, t, t + 2, l);
    JumpGrounded(a.code + b.code, e.relop, a.op, b.op, yes, no, RefsOf(g), NeedsOp(a.op) + NeedsOp(b.op));
  }

  /** Two pieces of code with an instruction in between that dereferences nothing. */
  lemma JoinGrounded(a: Code, ins: Instr, b: Code, given: set<Operand>)
    requires Grounded(a, given) && Grounded(b, given) && NeedsOf(ins) == {}
    ensures Grounded(a + [ins] + b, given)
  {
    QuietOne(a, ins, given);
    GroundedAdd(a + [ins], b, given);
  }

  lemma {:induction false} ArgsGrounded(g: Gamma, args: Args, t: nat, l: nat)
    ensures Grounded(TransArgs(g, args, t, l).code, RefsOf(g))
    decreases args
  {
    match args
    case NoArg => GroundedNil(RefsOf(g));
    case Arg(first, rest) =>
      var a := TransExp(g, first, t, t + 1, l);
      var b := TransArgs(g, rest, a.t, a.l);
      ExpGrounded(g, first, t, t + 1, l);
      ExpTidy(g, first, t, t + 1, l);
      ArgsGrounded(g, rest, a.t, a.l);
      ArgGrounded(g, a, t, b.code);
  }

  lemma ArgGrounded(g: Gamma, a: ExpCode, t: nat, more: Code)
    requires GroundedExp(g, a) && OperandForm(g, a, t, t + 1) && Grounded(more, RefsOf(g))
    ensures Grounded(a.code + more + [ARG(HandleAddress(a.op, a.ty))], RefsOf(g))
  {
    GroundedAdd(a.code, more, RefsOf(g));
    AvailNothing(more, RefsOf(g));
    AvailAdd(a.code, more, RefsOf(g), NeedsOp(a.op), {});
    GroundedOne(a.code + more, ARG(HandleAddress(a.op, a.ty)), RefsOf(g), NeedsOp(a.op) + {});
  }

  // ----- statements -----

  lemma {:induction false} DecsGrounded(g: Gamma, decs: Decs, t: nat, l: nat)
    ensures Grounded(TransDecs(g, decs, t, l).code, RefsOf(g))
    decreases decs
  {
    match decs
    case NoDec => GroundedFirst(NULL, RefsOf(g));
    case Dec(x, ty, init, rest) =>
      var head := if ty.Int? then NULL else DEC(x, SizeOf(ty));
      GroundedFirst(head, RefsOf(g));
      if init.None? {
        DecsGrounded(g, rest, t, l);
        GroundedAdd([head], TransDecs(g, rest, t, l).code, RefsOf(g));
      } else {
        var a := TransExp(g, init.value, t, t + 1, l);
        ExpGrounded(g, init.value, t, t + 1, l);
        DecsGrounded(g, rest, a.t, a.l);
        InitGrounded(g, head, a, x, TransDecs(g, rest, a.t, a.l).code);
      }
  }

  lemma InitGrounded(g: Gamma, head: Instr, a: ExpCode, x: string, more: Code)
    requires Grounded([head], RefsOf(g)) && GroundedExp(g, a) && Grounded(more, RefsOf(g))
    ensures Grounded([head] + a.code + [ASSIGN(Variable(x), a.op)] + more, RefsOf(g))
  {
    GroundedAdd([head], a.code, RefsOf(g));
    AvailNothing([head], RefsOf(g));
    AvailAdd([head], a.code, RefsOf(g), {}, NeedsOp(a.op));
    GroundedOne([head] + a.code, ASSIGN(Variable(x), a.op), RefsOf(g), {} + NeedsOp(a.op));
    GroundedAdd([head] + a.code + [ASSIGN(Variable(x), a.op)], more, RefsOf(g));
  }

  lemma {:induction false} StmtsGrounded(g: Gamma, body: Stmts, t: nat, l: nat)
    ensures Grounded(TransStmts(g, body, t, l).code, RefsOf(g))
    decreases body
  {
    match body
    case NoStmt => GroundedFirst(NULL, RefsOf(g));
    case Seq(first, rest) =>
      var a := TransStmt(g, first, t, l);
      StmtGrounded(g, first, t, l);
      StmtsGrounded(g, rest, a.t, a.l);
      GroundedAdd(a.code, TransStmts(g, rest, a.t, a.l).code, RefsOf(g));
  }

  lemma {:induction false} StmtGrounded(g: Gamma, st: Stmt, t: nat, l: nat)
    ensures Grounded(TransStmt(g, st, t, l).code, RefsOf(g))
    decreases st
  {
    var refs := RefsOf(g);
    match st
    case ExpStmt(e) => ExpGrounded(g, e, t, t + 1, l);
    case Block(decs, body) =>
      var a := TransDecs(g, decs, t, l);
      DecsGrounded(g, decs, t, l);
      StmtsGrounded(g, body, a.t, a.l);
      GroundedAdd(a.code, TransStmts(g, body, a.t, a.l).code, refs);
    case Return(e) =>
      var a := TransExp(g, e, t, t + 1, l);
      ExpGrounded(g, e, t, t + 1, l);
      GroundedOne(a.code, RETURN(a.op), refs, NeedsOp(a.op));
    case While(cond, body) =>
      var c := TransCondition(g, cond, l + 1, l + 2, t, l + 3);
      CondGrounded(g, cond, l + 1, l + 2, t, l + 3);
      StmtGrounded(g, body, c.t, c.l);
      WhileGrounded(c.code, TransStmt(g, body, c.t, c.l).code, l, refs);
    case If(cond, thn) =>
      var c := TransCondition(g, cond, l, l + 1, t, l + 2);
      CondGrounded(g, cond, l, l + 1, t, l + 2);
      StmtGrounded(g, thn, c.t, c.l);
      var a := TransStmt(g, thn, c.t, c.l);
      JoinGrounded(c.code, LABEL(l), a.code, refs);
      QuietOne(c.code + [LABEL(l)] + a.code, LABEL(l + 1), refs);
    case IfElse(cond, thn, els) =>
      var c := TransCondition(g, cond, l, l + 1, t, l + 3);
      var a := TransStmt(g, thn, c.t, c.l);
      CondGrounded(g, cond, l, l + 1, t, l + 3);
      StmtGrounded(g, thn, c.t, c.l);
      StmtGrounded(g, els, a.t, a.l);
      IfElseGrounded(c.code, a.code, TransStmt(g, els, a.t, a.l).code, l, refs);
  }

  lemma WhileGrounded(c: Code, b: Code, l: nat, given: set<Operand>)
    requires Grounded(c, given) && Grounded(b, given)
    ensures Grounded([LABEL(l)] + c + [LABEL(l + 1)] + b + [GOTO(l), LABEL(l + 2)], given)
  {
    var code := [LABEL(l)] + c + [LABEL(l + 1)] + b;
    GroundedFirst(LABEL(l), given);
    GroundedAdd([LABEL(l)], c, given);
    JoinGrounded([LABEL(l)] + c, LABEL(l + 1), b, given);
    QuietOne(code, GOTO(l), given);
    QuietOne(code + [GOTO(l)], LABEL(l + 2), given);
    assert code + [GOTO(l)] + [LABEL(l + 2)] == code + [GOTO(l), LABEL(l + 2)];
  }

  lemma IfElseGrounded(c: Code, a: Code, b: Code, l: nat, given: set<Operand>)
    requires Grounded(c, given) && Grounded(a, given) && Grounded(b, given)
    ensures Grounded(c + [LABEL(l)] + a + [GOTO(l + 2), LABEL(l + 1)] + b + [LABEL(l + 2)], given)
  {
    var code := c + [LABEL(l)] + a;
    JoinGrounded(c, LABEL(l), a, given);
    QuietOne(code, GOTO(l + 2), given);
    JoinGrounded(code + [GOTO(l + 2)], LABEL(l + 1), b, given);
    assert code + [GOTO(l + 2)] + [LABEL(l + 1)] + b == code + [GOTO(l + 2), LABEL(l + 1)] + b;
    QuietOne(code + [GOTO(l + 2), LABEL(l + 1)] + b, LABEL(l + 2), given);
  }

  // ----- functions -----

  /** Reference types are those of parameters. */
  predicate RefsAreParams(fn: Function) {
    forall x :: x in fn.vars && fn.vars[x].Ref? ==> x in fn.params
  }

  lemma {:induction false} ParamsGive(ps: seq<string>)
    ensures Needs(TransParams(ps)) == {} && forall p :: p in ps ==> Variable(p) in Gives(TransParams(ps))
  {
    if ps != [] {
      ParamsGive(ps[1..]);
      NeedsOne(PARAM(ps[0]));
      NeedsAdd([PARAM(ps[0])], TransParams(ps[1..]));
    }
  }

  /** The code of a function assigns whatever it dereferences. */
  lemma FunctionGrounded(fn: Function, t: nat, l: nat)
    requires RefsAreParams(fn)
    ensures Grounded(TransFunction(fn, t, l).code, {})
  {
    var a := TransDecs(fn.vars, fn.decs, t, l);
    var b := TransStmts(fn.vars, fn.body, a.t, a.l);
    DecsGrounded(fn.vars, fn.decs, t, l);
    StmtsGrounded(fn.vars, fn.body, a.t, a.l);
    GroundedAdd(a.code, b.code, RefsOf(fn.vars));
    HeadGrounds(fn, a.code + b.code);
  }

  lemma HeadGrounds(fn: Function, body: Code)
    requires RefsAreParams(fn) && Grounded(body, RefsOf(fn.vars))
    ensures Grounded([FUNC(fn.name)] + TransParams(fn.params) + body, {})
  {
    var head := [FUNC(fn.name)] + TransParams(fn.params);
    assert Recall(0);
    NeedsOne(FUNC(fn.name));
    ParamsGive(fn.params);
    NeedsAdd([FUNC(fn.name)], TransParams(fn.params));
    NeedsAdd(head, body);
  }

  // ----- programs -----

  /** What the instructions of function `f` among the first `n` dereference and assign. */
  function NeedsIn(code: Code, n: nat, f: string): set<Operand>
    requires n <= |code|
  {
    if n == 0 then {} else NeedsIn(code, n - 1, f) + if FnAt(code, n - 1) == Some(f) then NeedsOf(code[n - 1]) else {}
  }

  function GivesIn(code: Code, n: nat, f: string): set<Operand>
    requires n <= |code|
  {
    if n == 0 then {} else GivesIn(code, n - 1, f) + if FnAt(code, n - 1) == Some(f) then GivesOf(code[n - 1]) else {}
  }

  /** In front of the first function there is nothing to do. */
  ghost predicate QuietLead(code: Code) {
    forall i {:trigger QuietAt(code, i)} :: 0 <= i < |code| ==> QuietAt(code, i)
  }

  predicate QuietAt(code: Code, i: nat)
    requires i < |code|
  {
    FnAt(code, i) == None ==> code[i].NULL? || code[i].FUNC?
  }

  lemma {:induction false} FnAtAdd(a: Code, b: Code, i: nat)
    requires i <= |b|
    ensures FnAt(a + b, |a| + i) == if FnAt(b, i).Some? then FnAt(b, i) else FnAt(a, |a|)
    decreases i
  {
    if i == 0 {
      FnAtLocal(a, b, |a|);
    } else {
      assert (a + b)[|a| + i - 1] == b[i - 1];
      FnAtAdd(a, b, i - 1);
    }
  }

  lemma {:induction false} FnAtLocal(a: Code, b: Code, i: nat)
    requires i <= |a|
    ensures FnAt(a + b, i) == FnAt(a, i)
    decreases i
  {
    if i > 0 {
      FnAtLocal(a, b, i - 1);
    }
  }

  lemma {:induction false} InLocal(a: Code, b: Code, n: nat, f: string)
    requires n <= |a|
    ensures NeedsIn(a + b, n, f) == NeedsIn(a, n, f) && GivesIn(a + b, n, f) == GivesIn(a, n, f)
    decreases n
  {
    if n > 0 {
      InLocal(a, b, n - 1, f);
      FnAtLocal(a, b, n - 1);
    }
  }

  lemma {:induction false} InAdd(a: Code, b: Code, n: nat, f: string)
    requires n <= |b| && QuietLead(b)
    ensures NeedsIn(a + b, |a| + n, f) == NeedsIn(a, |a|, f) + NeedsIn(b, n, f)
    ensures GivesIn(a + b, |a| + n, f) == GivesIn(a, |a|, f) + GivesIn(b, n, f)
    decreases n
  {
    if n == 0 {
      InLocal(a, b, |a|, f);
    } else {
      InAdd(a, b, n - 1, f);
      FnAtAdd(a, b, n - 1);
      assert QuietAt(b, n - 1);
    }
  }

  lemma QuietAdd(a: Code, b: Code)
    requires QuietLead(a) && QuietLead(b)
    ensures QuietLead(a + b)
  {
    forall i | 0 <= i < |a + b| ensures QuietAt(a + b, i) {
      if i < |a| {
        FnAtLocal(a, b, i);
        assert QuietAt(a, i);
      } else {
        FnAtAdd(a, b, i - |a|);
        assert QuietAt(b, i - |a|);
      }
    }
  }

  /** Function `f` assigns whatever it dereferences. */
  ghost predicate GroundedIn(code: Code, f: string) {
    NeedsIn(code, |code|, f) <= GivesIn(code, |code|, f)
  }

  lemma {:induction false} InFunction(code: Code, n: nat, f: string, g: string)
    requires 0 < n <= |code| && code[0] == FUNC(f) && forall j :: 0 < j < |code| ==> !code[j].FUNC?
    ensures NeedsIn(code, n, g) == if g == f then Needs(code[..n]) else {}
    ensures GivesIn(code, n, g) == if g == f then Gives(code[..n]) else {}
    decreases n
  {
    if n == 1 {
      assert code[..1] == [FUNC(f)];
      NeedsOne(FUNC(f));
      assert NeedsIn(code, 1, g) == NeedsIn(code, 0, g) && GivesIn(code, 1, g) == GivesIn(code, 0, g);
    } else {
      InFunction(code, n - 1, f, g);
      BelongsTo(code, 0, n - 1, f);
      assert code[..n][..n - 1] == code[..n - 1] && code[..n][n - 1] == code[n - 1];
    }
  }

  lemma FunctionGroundedIn(fn: Function, t: nat, l: nat, f: string)
    requires RefsAreParams(fn)
    ensures GroundedIn(TransFunction(fn, t, l).code, f) && QuietLead(TransFunction(fn, t, l).code)
  {
    var code := TransFunction(fn, t, l).code;
    OnlyHead(fn, t, l);
    FunctionGrounded(fn, t, l);
    InFunction(code, |code|, fn.name, f);
    assert code[..|code|] == code && Recall(0);
    forall i | 0 <= i < |code| ensures QuietAt(code, i) {
      if i > 0 {
        BelongsTo(code, 0, i, fn.name);
      }
    }
  }

  lemma {:induction false} ProgramGrounded(p: Program, t: nat, l: nat, f: string)
    requires forall i :: 0 <= i < |p| && p[i].Definition? ==> RefsAreParams(p[i].fn)
    ensures GroundedIn(TransProgram(p, t, l).code, f) && QuietLead(TransProgram(p, t, l).code)
    decreases |p|
  {
    QuietNull(f);
    if p != [] {
      var a := if p[0].Declaration? then StmtCode([NULL], t, l) else TransFunction(p[0].fn, t, l);
      var b := TransProgram(p[1..], a.t, a.l);
      if p[0].Definition? {
        FunctionGroundedIn(p[0].fn, t, l, f);
      }
      ProgramGrounded(p[1..], a.t, a.l, f);
      GroundedInAdd(a.code, b.code, f);
    }
  }

  lemma GroundedInAdd(a: Code, b: Code, f: string)
    requires GroundedIn(a, f) && QuietLead(a) && GroundedIn(b, f) && QuietLead(b)
    ensures GroundedIn(a + b, f) && QuietLead(a + b)
  {
    InAdd(a, b, |b|, f);
    QuietAdd(a, b);
  }

  lemma QuietNull(f: string)
    ensures GroundedIn([NULL], f) && QuietLead([NULL])
  {
    assert NeedsIn([NULL], 1, f) == NeedsIn([NULL], 0, f);
  }

  // ----- after the formatting pass -----

  lemma PieceGrounds(code: Code, i: nat, t: nat)
    requires i < |code|
    ensures Needs(PieceAt(code, i, t)) <= NeedsOf(code[i]) && GivesOf(code[i]) <= Gives(PieceAt(code, i, t))
  {
    var ins, k := code[i], Formatted(code, i, t).1;
    var piece := PieceAt(code, i, t);
    match ins
    case ASSIGN(dst, src) =>
      if IsMemOp(dst) && IsMemOp(src) {
        NeedsTwo(ASSIGN(Temp(k), src), ASSIGN(dst, Temp(k)));
      } else {
        NeedsOne(ins);
      }
    case IF_GOTO(op, src1, src2, no) => JumpPieceGrounds(op, src1, src2, no, k);
    case RETURN(src) =>
      var (pre, actual, _) := Fetch(src, k);
      FetchedGrounds(pre, RETURN(actual));
    case WRITE(src) =>
      var (pre, actual, _) := Spill(src, k);
      FetchedGrounds(pre, WRITE(actual));
    case READ(dst) =>
      var (pre, actual, _) := Spill(dst, k);
      FetchedGrounds(pre, READ(actual));
    case NULL => NeedsOne(NULL);
    case _ => NeedsOne(ins);
  }

  lemma NeedsTwo(a: Instr, b: Instr)
    ensures Needs([a, b]) == NeedsOf(a) + NeedsOf(b) && Gives([a, b]) == GivesOf(a) + GivesOf(b)
  {
    NeedsOne(a);
    NeedsOne(b);
    NeedsAdd([a], [b]);
    assert [a] + [b] == [a, b];
  }

  lemma FetchedGrounds(pre: Code, last: Instr)
    requires |pre| <= 1
    ensures Needs(pre + [last]) == (if pre == [] then {} else NeedsOf(pre[0])) + NeedsOf(last)
    ensures GivesOf(last) <= Gives(pre + [last])
  {
    NeedsOne(last);
    NeedsAdd(pre, [last]);
    if pre != [] {
      NeedsOne(pre[0]);
      assert pre == [pre[0]];
    }
  }

  lemma JumpPieceGrounds(op: Relop, src1: Operand, src2: Operand, no: nat, k: nat)
    ensures Needs(Expand(IF_GOTO(op, src1, src2, no), k).0) <= NeedsOf(IF_GOTO(op, src1, src2, no))
  {
    var (code1, actual1, k1) := Fetch(src1, k);
    var (code2, actual2, k2) := Fetch(src2, k1);
    var last := IF_GOTO(op, actual1, actual2, no);
    NeedsOne(last);
    NeedsAdd(code1 + code2, [last]);
    NeedsAdd(code1, code2);
    NeedsOne(ASSIGN(Temp(k), src1));
    NeedsOne(ASSIGN(Temp(k1), src2));
  }

  /** The instructions that replace one instruction belong to its function. */
  lemma {:induction false} PieceIn(code: Code, i: nat, t: nat, k: nat, f: string)
    requires i < |code| && k <= |PieceAt(code, i, t)| && Pos(code, i, t) + |PieceAt(code, i, t)| <= |Whole(code, t)|
    ensures var whole, at, piece := Whole(code, t), Pos(code, i, t), PieceAt(code, i, t)[..k];
            NeedsIn(whole, at + k, f) == NeedsIn(whole, at, f) + (if FnAt(code, i) == Some(f) then Needs(piece) else {})
            && GivesIn(whole, at + k, f)
               == GivesIn(whole, at, f) + if FnAt(code, i) == Some(f) then Gives(piece) else {}
    decreases k
  {
    hide Whole, Pos, FnAt;
    var whole, at, piece := Whole(code, t), Pos(code, i, t), PieceAt(code, i, t);
    if k == 0 {
      assert piece[..0] == [];
    } else {
      PieceIn(code, i, t, k - 1, f);
      FnThere(code, i, t);
      FnInside(code, i, k - 1, t);
      PieceKind(code, i, t);
      PieceThere(code, i, t);
      assert whole[at + k - 1] == whole[at..at + |piece|][k - 1];
      assert piece[..k][..k - 1] == piece[..k - 1] && piece[..k][k - 1] == piece[k - 1];
    }
  }

  lemma {:induction false} WholeGrounded(code: Code, n: nat, t: nat, f: string)
    requires n <= |code|
    ensures Pos(code, n, t) <= |Whole(code, t)|
    ensures NeedsIn(Whole(code, t), Pos(code, n, t), f) <= NeedsIn(code, n, f)
    ensures GivesIn(code, n, f) <= GivesIn(Whole(code, t), Pos(code, n, t), f)
    decreases n
  {
    hide FnAt, Needs, Gives;
    Grows(code, n, |code|, t);
    if n > 0 {
      WholeGrounded(code, n - 1, t, f);
      PieceThere(code, n - 1, t);
      var piece := PieceAt(code, n - 1, t);
      PieceIn(code, n - 1, t, |piece|, f);
      assert piece[..|piece|] == piece;
      PieceGrounds(code, n - 1, t);
    }
  }

  // ----- frames -----

  lemma {:induction false} NeededIn(code: Code, n: nat, f: string, i: nat, op: Operand)
    requires i < n <= |code| && FnAt(code, i) == Some(f) && op in NeedsOf(code[i])
    ensures op in NeedsIn(code, n, f)
    decreases n
  {
    if i < n - 1 {
      NeededIn(code, n - 1, f, i, op);
    }
  }

  lemma {:induction false} GivenIn(code: Code, n: nat, f: string, op: Operand) returns (i: nat)
    requires n <= |code| && op in GivesIn(code, n, f)
    ensures i < n && FnAt(code, i) == Some(f) && op in GivesOf(code[i])
    decreases n
  {
    if op in GivesIn(code, n - 1, f) {
      i := GivenIn(code, n - 1, f, op);
    } else {
      i := n - 1;
    }
  }

  /** Whatever an instruction reaches memory through has a slot in the frame of its function, although
      the layout pass looks only at operands that stand by themselves. */
  lemma DereferencedHasSlot(p: Program, sizes: Operand -> nat, f: string, i: nat, o: Operand)
    requires forall i :: 0 <= i < |p| && p[i].Definition? ==> RefsAreParams(p[i].fn)
    requires var code := TransProgram(p, 0, 0); i < |Whole(code.code, code.t)|
    requires var code := TransProgram(p, 0, 0);
             FnAt(Whole(code.code, code.t), i) == Some(f) && GetVal(o) in Tracked(Whole(code.code, code.t)[i])
    ensures var code := TransProgram(p, 0, 0);
            o in FrameOf(Whole(code.code, code.t), |Whole(code.code, code.t)|, f, sizes).slots
  {
    var source := TransProgram(p, 0, 0);
    var code := Whole(source.code, source.t);
    ProgramGrounded(p, 0, 0, f);
    WholeGrounded(source.code, |source.code|, source.t, f);
    NeedsAreTracked(code[i]);
    NeededIn(code, |code|, f, i, o);
    var j := GivenIn(code, |code|, f, o);
    GivenIsTracked(code[j]);
    FrameCovers(code, |code|, f, sizes, j, o);
  }

  predicate NamedAt(code: Code, i: nat, f: string, op: Operand)
    requires i < |code|
  {
    FnAt(code, i) == Some(f) && op in Tracked(code[i])
  }

  /** An instruction of `f` among the first `n` names `op` by itself. */
  ghost predicate Named(code: Code, n: nat, f: string, op: Operand)
    requires n <= |code|
  {
    exists i {:trigger NamedAt(code, i, f, op)} :: 0 <= i < n && NamedAt(code, i, f, op)
  }

  /** A slot exists exactly for the variables and temporaries that instructions of the function name
      by themselves. */
  lemma {:induction false} FrameExactly(code: Code, n: nat, f: string, sizes: Operand -> nat, op: Operand)
    requires n <= |code| && HasSlot(op)
    ensures op in FrameOf(code, n, f, sizes).slots <==> Named(code, n, f, op)
    decreases n
  {
    if n > 0 {
      FrameExactly(code, n - 1, f, sizes, op);
      HandleAllExactly(FrameOf(code, n - 1, f, sizes), Tracked(code[n - 1]), sizes, op);
      NamedNext(code, n, f, op);
    }
  }

  lemma NamedNext(code: Code, n: nat, f: string, op: Operand)
    requires 0 < n <= |code|
    ensures Named(code, n, f, op) <==> Named(code, n - 1, f, op) || NamedAt(code, n - 1, f, op)
  {
    if Named(code, n, f, op) {
      var i :| 0 <= i < n && NamedAt(code, i, f, op);
      assert i < n - 1 ==> Named(code, n - 1, f, op);
    }
  }

  lemma {:induction false} HandleAllExactly(lay: FrameLayout, ops: seq<Operand>, sizes: Operand -> nat, op: Operand)
    requires HasSlot(op)
    ensures op in HandleAll(lay, ops, sizes).slots <==> op in lay.slots || op in ops
    decreases |ops|
  {
    if ops != [] {
      var first := if HasSlot(ops[0]) then Handle(lay, ops[0], sizes(ops[0])) else lay;
      HandleAllExactly(first, ops[1..], sizes, op);
      assert ops == [ops[0]] + ops[1..];
    }
  }
}
