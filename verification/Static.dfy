/** What holds of the translator's code whatever program it comes from: every label is defined
    exactly once, every jump leads to a defined label, temporaries are numbered below the
    counter, and the arguments of a call stand directly in front of it. */
module Static {
  import opened Common
  import opened Syntax
  import opened Layout
  import opened Ir
  import opened Translate
  import opened Represent

  function LabelsOf(code: Code): multiset<int> {
    if code == [] then multiset{}
    else LabelsOf(code[..|code| - 1]) + (if code[|code| - 1].LABEL? then multiset{code[|code| - 1].no} else multiset{})
  }

  /** The numbers that a counter hands out while it goes from `lo` to `hi`. */
  function Drawn(lo: nat, hi: nat): set<int> {
    set n: int {:trigger Unfold(n)} | lo <= n < hi
  }

  predicate InstrBelow(ins: Instr, t: nat) {
    match ins
    case ASSIGN(dst, src) => Below(dst, t) && Below(src, t)
    case ARITH(_, dst, src1, src2) => Below(dst, t) && Below(src1, t) && Below(src2, t)
    case IF_GOTO(_, src1, src2, _) => Below(src1, t) && Below(src2, t)
    case RETURN(src) => Below(src, t)
    case ARG(src) => Below(src, t)
    case CALL(dst, _) => Below(dst, t)
    case READ(dst) => Below(dst, t)
    case WRITE(src) => Below(src, t)
    case _ => true
  }

  /** Arithmetic works on operands that need no memory access and never has a memory cell for
      destination; neither has READ or CALL. */
  predicate WellShaped(ins: Instr) {
    match ins
    case ARITH(_, dst, src1, src2) => HasSlot(dst) && !IsMemOp(src1) && !IsMemOp(src2)
    case READ(dst) => HasSlot(dst)
    case CALL(dst, _) => HasSlot(dst)
    case _ => true
  }

  predicate JumpsInto(ins: Instr, targets: set<int>) {
    (ins.GOTO? || ins.IF_GOTO?) ==> ins.no in targets
  }

  /** The slot that an operand is reached through. */
  function Root(op: Operand): Operand {
    if IsMemOp(op) then op.opr else op
  }

  /** Among the arguments that are passed on the stack, operands that are reached through the same
      slot are the same. */
  ghost predicate NoClash(ops: seq<Operand>) {
    forall i, j :: 4 <= i < j < |ops| && Root(ops[i]) == Root(ops[j]) ==> ops[i] == ops[j]
  }

  /** One is a variable and the other the word whose address it holds. */
  predicate FirstWord(a: Operand, b: Operand) {
    (a.Variable? && b == GetVal(a)) || (b.Variable? && a == GetVal(b))
  }

  /** Arguments that are reached through the same slot are the same, except that one may be a
      reference parameter and the other the first word of the structure it refers to. */
  ghost predicate NearlyClear(ops: seq<Operand>) {
    forall i, j :: 0 <= i < j < |ops| && Root(ops[i]) == Root(ops[j]) ==> ops[i] == ops[j] || FirstWord(ops[i], ops[j])
  }

  /** When stack arguments do not clash: a condition on the argument list of a call. */
  lemma ClearExactly(ops: seq<Operand>)
    requires NearlyClear(ops)
    ensures NoClash(ops) <==>
            !exists i, j :: 4 <= i < |ops| && 4 <= j < |ops| && ops[i].Variable? && ops[j] == GetVal(ops[i])
  {
    if NoClash(ops) {
      forall i, j | 4 <= i < |ops| && 4 <= j < |ops| && ops[i].Variable? ensures ops[j] != GetVal(ops[i]) {
        assert ops[j] == GetVal(ops[i]) ==> i != j && Root(ops[i]) == Root(ops[j]);
      }
    }
  }

  /** ARG instructions stand only in front of ARG and CALL instructions, PARAM instructions only
      behind PARAM and FUNC instructions. */
  ghost predicate Bracketed(code: Code) {
    && (code == [] || !code[|code| - 1].ARG?)
    && forall i {:trigger BracketAt(code, i)} :: 0 <= i < |code| ==> BracketAt(code, i)
  }

  ghost predicate BracketAt(code: Code, i: nat)
    requires i < |code|
  {
    && (code[i].CALL? ==> NearlyClear(ArgRun(code, i)))
    && (code[i].ARG? ==> i + 1 < |code| && (code[i + 1].ARG? || code[i + 1].CALL?))
    && (code[i].PARAM? ==> i > 0 && (code[i - 1].PARAM? || code[i - 1].FUNC?))
  }

  ghost predicate InstrsOk(code: Code, t: nat, targets: set<int>) {
    forall i {:trigger InstrOk(code, i, t, targets)} :: 0 <= i < |code| ==> InstrOk(code, i, t, targets)
  }

  predicate InstrOk(code: Code, i: nat, t: nat, targets: set<int>)
    requires i < |code|
  {
    InstrBelow(code[i], t) && WellShaped(code[i]) && JumpsInto(code[i], targets)
  }

  ghost predicate NoHeads(code: Code) {
    forall i {:trigger NotHead(code, i)} :: 0 <= i < |code| ==> NotHead(code, i)
  }

  predicate NotHead(code: Code, i: nat)
    requires i < |code|
  {
    !code[i].FUNC? && !code[i].PARAM?
  }

  /** The labels that `code` defines, each as often as it is defined (kept folded). */
  ghost predicate Labelled(code: Code, labels: multiset<int>) {
    forall k {:trigger Unfold(k)} :: Unfold(k) ==> LabelsOf(code) == labels
  }

  /** Temporaries below `t`, exactly the labels `labels`, jumps only into `targets`. */
  ghost predicate Orderly(code: Code, t: nat, labels: multiset<int>, targets: set<int>) {
    && Labelled(code, labels)
    && InstrsOk(code, t, targets)
    && Bracketed(code)
  }

  /** Orderly code of a statement or expression. */
  ghost predicate Tidy(code: Code, t: nat, labels: multiset<int>, targets: set<int>) {
    Orderly(code, t, labels, targets) && NoHeads(code)
  }

  lemma {:induction false} LabelsAdd(a: Code, b: Code)
    ensures LabelsOf(a + b) == LabelsOf(a) + LabelsOf(b)
    decreases |b|
  {
    if b == [] {
      assert a + b == a;
    } else {
      var n := |b| - 1;
      assert (a + b)[..|a + b| - 1] == a + b[..n];
      LabelsAdd(a, b[..n]);
    }
  }

  lemma LabelledAdd(a: Code, la: multiset<int>, b: Code, lb: multiset<int>)
    requires Labelled(a, la) && Labelled(b, lb)
    ensures Labelled(a + b, la + lb)
  {
    assert Unfold(0);
    LabelsAdd(a, b);
  }

  lemma NoHeadsAdd(a: Code, b: Code)
    requires NoHeads(a) && NoHeads(b)
    ensures NoHeads(a + b)
  {
    forall i | 0 <= i < |a + b| ensures NotHead(a + b, i) {
      assert if i < |a| then NotHead(a, i) else NotHead(b, i - |a|);
    }
  }

  lemma {:induction false} ArgRunAdd(a: Code, b: Code, i: nat)
    requires i <= |b| && (a == [] || !a[|a| - 1].ARG?)
    ensures ArgRun(a + b, |a| + i) == ArgRun(b, i)
    decreases i
  {
    if i > 0 {
      assert (a + b)[|a| + i - 1] == b[i - 1];
      ArgRunAdd(a, b, i - 1);
    } else if a != [] {
      assert (a + b)[|a| - 1] == a[|a| - 1];
    }
  }

  lemma {:induction false} ArgRunLocal(a: Code, b: Code, i: nat)
    requires i <= |a|
    ensures ArgRun(a + b, i) == ArgRun(a, i)
    decreases i
  {
    if i > 0 {
      ArgRunLocal(a, b, i - 1);
    }
  }

  lemma BracketedAdd(a: Code, b: Code)
    requires Bracketed(a) && Bracketed(b)
    ensures Bracketed(a + b)
  {
    forall i | 0 <= i < |a + b| ensures BracketAt(a + b, i) {
      if i < |a| {
        assert BracketAt(a, i);
        ArgRunLocal(a, b, i);
      } else {
        assert BracketAt(b, i - |a|);
        ArgRunAdd(a, b, i - |a|);
      }
    }
  }

  lemma InstrsAdd(a: Code, b: Code, t: nat, targets: set<int>)
    requires InstrsOk(a, t, targets) && InstrsOk(b, t, targets)
    ensures InstrsOk(a + b, t, targets)
  {
    forall i | 0 <= i < |a + b| ensures InstrOk(a + b, i, t, targets) {
      if i < |a| {
        assert InstrOk(a, i, t, targets);
      } else {
        assert InstrOk(b, i - |a|, t, targets);
      }
    }
  }

  lemma InstrsMore(a: Code, t: nat, targets: set<int>, t': nat, targets': set<int>)
    requires InstrsOk(a, t, targets) && t <= t' && targets <= targets'
    ensures InstrsOk(a, t', targets')
  {
    forall i | 0 <= i < |a| ensures InstrOk(a, i, t', targets') {
      assert InstrOk(a, i, t, targets);
      InstrBelowMore(a[i], t, t');
    }
  }

  lemma InstrBelowMore(ins: Instr, t: nat, t': nat)
    requires InstrBelow(ins, t) && t <= t'
    ensures InstrBelow(ins, t')
  {
    match ins
    case ASSIGN(dst, src) => BelowMore(dst, t, t'); BelowMore(src, t, t');
    case ARITH(_, dst, src1, src2) => BelowMore(dst, t, t'); BelowMore(src1, t, t'); BelowMore(src2, t, t');
    case IF_GOTO(_, src1, src2, _) => BelowMore(src1, t, t'); BelowMore(src2, t, t');
    case RETURN(src) => BelowMore(src, t, t');
    case ARG(src) => BelowMore(src, t, t');
    case CALL(dst, _) => BelowMore(dst, t, t');
    case READ(dst) => BelowMore(dst, t, t');
    case WRITE(src) => BelowMore(src, t, t');
    case _ =>
  }

  lemma OrderlyAdd(a: Code, ta: nat, la: multiset<int>, ja: set<int>, b: Code, tb: nat, lb: multiset<int>, jb: set<int>)
    requires Orderly(a, ta, la, ja) && Orderly(b, tb, lb, jb) && ta <= tb
    ensures Orderly(a + b, tb, la + lb, ja + jb)
  {
    LabelledAdd(a, la, b, lb);
    InstrsMore(a, ta, ja, tb, ja + jb);
    InstrsMore(b, tb, jb, tb, ja + jb);
    InstrsAdd(a, b, tb, ja + jb);
    BracketedAdd(a, b);
  }

  /** Two pieces of code one after the other. */
  lemma TidyAdd(a: Code, ta: nat, la: multiset<int>, ja: set<int>, b: Code, tb: nat, lb: multiset<int>, jb: set<int>)
    requires Tidy(a, ta, la, ja) && Tidy(b, tb, lb, jb) && ta <= tb
    ensures Tidy(a + b, tb, la + lb, ja + jb)
  {
    OrderlyAdd(a, ta, la, ja, b, tb, lb, jb);
    NoHeadsAdd(a, b);
  }

  lemma TidyMore(a: Code, t: nat, labels: multiset<int>, jumps: set<int>, t': nat, jumps': set<int>)
    requires Tidy(a, t, labels, jumps) && t <= t' && jumps <= jumps'
    ensures Tidy(a, t', labels, jumps')
  {
    InstrsMore(a, t, jumps, t', jumps');
  }

  /** A single instruction that takes no part in a call. */
  lemma TidyOne(ins: Instr, t: nat, jumps: set<int>)
    requires !ins.ARG? && !ins.CALL? && !ins.FUNC? && !ins.PARAM?
    requires InstrBelow(ins, t) && WellShaped(ins) && JumpsInto(ins, jumps)
    ensures Tidy([ins], t, if ins.LABEL? then multiset{ins.no} else multiset{}, jumps)
  {
    var code := [ins];
    assert code[..0] == [];
    assert LabelsOf(code) == LabelsOf(code[..0]) + (if ins.LABEL? then multiset{ins.no} else multiset{});
    assert forall i :: 0 <= i < |code| ==> code[i] == ins;
  }

  lemma TidyNil(t: nat)
    ensures Tidy([], t, multiset{}, {})
  {
  }

  /** A few instructions that take no part in a call. */
  lemma {:induction false} TidyFlat(code: Code, t: nat, jumps: set<int>)
    requires forall i :: 0 <= i < |code| ==>
               && !code[i].ARG? && !code[i].CALL? && !code[i].FUNC? && !code[i].PARAM?
               && InstrBelow(code[i], t) && WellShaped(code[i]) && JumpsInto(code[i], jumps)
    ensures Tidy(code, t, LabelsOf(code), jumps)
  {
  }

  lemma {:induction false} NoLabels(code: Code)
    requires forall i :: 0 <= i < |code| ==> !code[i].LABEL?
    ensures LabelsOf(code) == multiset{}
    decreases |code|
  {
    if code != [] {
      NoLabels(code[..|code| - 1]);
    }
  }

  /** Instructions without labels, jumps and calls. */
  lemma TidyPlain(code: Code, t: nat)
    requires forall i :: 0 <= i < |code| ==>
               && (code[i].ASSIGN? || code[i].ARITH? || code[i].READ? || code[i].WRITE? || code[i].RETURN?
                   || code[i].DEC? || code[i].NULL?)
               && InstrBelow(code[i], t) && WellShaped(code[i])
    ensures Tidy(code, t, multiset{}, {})
  {
    TidyFlat(code, t, {});
    NoLabels(code);
  }

  lemma DrawnJoin(lo: nat, mid: nat, hi: nat)
    requires lo <= mid <= hi
    ensures Drawn(lo, mid) + Drawn(mid, hi) == Drawn(lo, hi)
    ensures multiset(Drawn(lo, mid)) + multiset(Drawn(mid, hi)) == multiset(Drawn(lo, hi))
  {
    assert Drawn(lo, mid) !! Drawn(mid, hi);
  }

  // ----- expressions -----

  /** What kind of operand an expression leaves, and which temporary it can mention. */
  predicate OperandForm(g: Gamma, o: ExpCode, place: nat, t: nat) {
    match o.op
    case Variable(x) => o.ty == (if x in g then Some(g[x]) else None)
    case Const(_) => o.ty == None
    case Temp(k) => k == place && o.ty == None
    case GetVal(r) => Leads(g, r, t, o.t)
    case _ => false
  }

  /** Code of an expression, from counters `t` and `l` on. */
  ghost predicate TidyExp(g: Gamma, o: ExpCode, place: nat, t: nat, l: nat) {
    && Tidy(o.code, o.t, multiset(Drawn(l, o.l)), Drawn(l, o.l))
    && OperandForm(g, o, place, t)
  }

  lemma FormBelow(g: Gamma, o: ExpCode, place: nat, t: nat, t': nat)
    requires OperandForm(g, o, place, t) && place < t' && o.t <= t'
    ensures Below(o.op, t')
  {
  }

  /** Two pieces of code that draw their labels one after the other. */
  lemma TidyJoin(a: Code, ta: nat, b: Code, tb: nat, lo: nat, mid: nat, hi: nat)
    requires Tidy(a, ta, multiset(Drawn(lo, mid)), Drawn(lo, mid))
    requires Tidy(b, tb, multiset(Drawn(mid, hi)), Drawn(mid, hi))
    requires ta <= tb && lo <= mid <= hi
    ensures Tidy(a + b, tb, multiset(Drawn(lo, hi)), Drawn(lo, hi))
  {
    TidyAdd(a, ta, multiset(Drawn(lo, mid)), Drawn(lo, mid), b, tb, multiset(Drawn(mid, hi)), Drawn(mid, hi));
    DrawnJoin(lo, mid, hi);
  }

  /** Plain instructions behind other code. */
  lemma TidyThen(a: Code, ta: nat, labels: multiset<int>, jumps: set<int>, b: Code, tb: nat)
    requires Tidy(a, ta, labels, jumps) && ta <= tb && Tidy(b, tb, multiset{}, {})
    ensures Tidy(a + b, tb, labels, jumps)
  {
    TidyAdd(a, ta, labels, jumps, b, tb, multiset{}, {});
    assert labels + multiset{} == labels && jumps + {} == jumps;
  }

  lemma TidyArithmetic(op: ArithOp, k: nat, src1: Operand, src2: Operand, t: nat)
    requires Below(src1, t) && Below(src2, t) && k < t
    ensures var (code, t') := Arithmetic(op, Temp(k), src1, src2, t); Tidy(code, t', multiset{}, {}) && t <= t'
  {
    var (code1, actual1, t1) := Fetch(src1, t);
    var (code2, actual2, t2) := Fetch(src2, t1);
    BelowMore(src1, t, t2);
    BelowMore(src2, t, t2);
    BelowMore(actual1, t1, t2);
    TidyPlain(code1 + code2 + [ARITH(op, Temp(k), actual1, actual2)], t2);
  }

  lemma TidyDeref(code: Code, addr: Operand, ty: Option<Type>, tc: nat, t: nat, l0: nat, l: nat)
    requires Tidy(code, tc, multiset(Drawn(l0, l)), Drawn(l0, l)) && tc <= t && Below(addr, t)
    ensures var o := Deref(code, addr, ty, t, l); Tidy(o.code, o.t, multiset(Drawn(l0, l)), Drawn(l0, l))
  {
    if addr.GetAddr? {
      BelowMore(addr, t, t + 1);
      TidyPlain([ASSIGN(Temp(t), addr)], t + 1);
      TidyThen(code, tc, multiset(Drawn(l0, l)), Drawn(l0, l), [ASSIGN(Temp(t), addr)], t + 1);
    } else {
      TidyMore(code, tc, multiset(Drawn(l0, l)), Drawn(l0, l), t, Drawn(l0, l));
    }
  }

  /** Arithmetic on operands that are already there. */
  lemma TidyCompute(code: Code, tc: nat, labels: multiset<int>, jumps: set<int>,
                    op: ArithOp, k: nat, src1: Operand, src2: Operand, t: nat, more: Code, t': nat)
    requires Tidy(code, tc, labels, jumps) && tc <= t && k < t && Below(src1, t) && Below(src2, t)
    requires Arithmetic(op, Temp(k), src1, src2, t) == (more, t')
    ensures Tidy(code + more, t', labels, jumps) && t <= t'
  {
    TidyArithmetic(op, k, src1, src2, t);
    TidyThen(code, tc, labels, jumps, more, t');
  }

  lemma TidyMember(g: Gamma, a: ExpCode, name: string, place: nat, t: nat, l: nat)
    requires TidyExp(g, a, t, t + 1, l) && t + 1 <= a.t && l <= a.l
    ensures TidyExp(g, MemberCode(a, name), place, t, l)
  {
    FormBelow(g, a, t, t + 1, a.t);
    var (offset, part) := MemberOf(a.ty, name);
    var addr := AddressOf(a.op, a.ty);
    assert Below(addr, a.t);
    if offset == 0 {
      TidyDeref(a.code, addr, part, a.t, a.t, l, a.l);
    } else {
      BelowMore(addr, a.t, a.t + 1);
      var (code, t') := Arithmetic(Plus, Temp(a.t), addr, Const(offset), a.t + 1);
      TidyCompute(a.code, a.t, multiset(Drawn(l, a.l)), Drawn(l, a.l), Plus, a.t, addr, Const(offset), a.t + 1, code,
                  t');
    }
  }

  lemma TidyElement(g: Gamma, a: ExpCode, i: ExpCode, place: nat, t: nat, l: nat)
    requires TidyExp(g, a, t, t + 3, l) && TidyExp(g, i, t + 1, a.t, a.l)
    requires t + 3 <= a.t <= i.t && l <= a.l <= i.l
    ensures TidyExp(g, ElementCode(a, i, t + 2), place, t, l)
  {
    TidyJoin(a.code, a.t, i.code, i.t, l, a.l, i.l);
    FormBelow(g, a, t, t + 3, i.t);
    FormBelow(g, i, t + 1, a.t, i.t);
    if IsZeroWord(i.op) {
      TidyDeref(a.code + i.code, AddressOf(a.op, a.ty), Some(ElemType(a.ty)), i.t, i.t, l, i.l);
    } else {
      TidyScaled(a, i, t, multiset(Drawn(l, i.l)), Drawn(l, i.l));
    }
  }

  lemma TidyScaled(a: ExpCode, i: ExpCode, t: nat, labels: multiset<int>, jumps: set<int>)
    requires Tidy(a.code + i.code, i.t, labels, jumps) && t + 3 <= i.t
    requires Below(a.op, i.t) && Below(i.op, i.t) && !IsZeroWord(i.op)
    ensures var o := ElementCode(a, i, t + 2); Tidy(o.code, o.t, labels, jumps) && o.l == i.l
    ensures ElementCode(a, i, t + 2).op == GetVal(Temp(i.t)) && i.t < ElementCode(a, i, t + 2).t
  {
    hide Tidy, Arithmetic;
    var size, addr := Const(SizeOf(ElemType(a.ty))), AddressOf(a.op, a.ty);
    var (code3, t3) := Arithmetic(Star, Temp(t + 2), i.op, size, i.t + 1);
    var (code4, t4) := Arithmetic(Plus, Temp(i.t), addr, Temp(t + 2), t3);
    TidyAddress(a.code + i.code, labels, jumps, i.op, size, addr, t + 2, i.t, code3, t3, code4, t4);
  }

  /** An index scaled and added to an address. */
  lemma TidyAddress(code: Code, labels: multiset<int>, jumps: set<int>, index: Operand, size: Operand, addr: Operand,
                    k: nat, t: nat, code3: Code, t3: nat, code4: Code, t4: nat)
    requires Tidy(code, t, labels, jumps) && k < t && Below(index, t) && size.Const? && Below(addr, t)
    requires Arithmetic(Star, Temp(k), index, size, t + 1) == (code3, t3)
    requires Arithmetic(Plus, Temp(t), addr, Temp(k), t3) == (code4, t4)
    ensures Tidy(code + code3 + code4, t4, labels, jumps) && t < t4
  {
    BelowMore(index, t, t + 1);
    TidyCompute(code, t, labels, jumps, Star, k, index, size, t + 1, code3, t3);
    BelowMore(addr, t, t3);
    TidyCompute(code + code3, t3, labels, jumps, Plus, t, addr, Temp(k), t3, code4, t4);
  }

  /** The label `l` and those drawn after it. */
  lemma DrawnFirst(l: nat, hi: nat)
    requires l < hi
    ensures multiset{l} + multiset(Drawn(l + 1, hi)) == multiset(Drawn(l, hi))
    ensures {l} + Drawn(l + 1, hi) == Drawn(l, hi)
  {
    assert Drawn(l, l + 1) == {l};
    DrawnJoin(l, l + 1, hi);
  }

  /** The label `l`, others drawn from `l + 1` on, and whatever order they come in. */
  lemma DrawnTwo(l: nat, hi: nat)
    requires l + 2 <= hi
    ensures multiset{l} + multiset{l + 1} + multiset(Drawn(l + 2, hi)) == multiset(Drawn(l, hi))
    ensures {l, l + 1} + Drawn(l + 2, hi) == Drawn(l, hi)
  {
    DrawnFirst(l + 1, hi);
    DrawnFirst(l, hi);
  }

  /** A jump with a label behind it. */
  lemma TidyGotoLabel(target: nat, no: nat, t: nat)
    ensures Tidy([GOTO(target), LABEL(no)], t, multiset{no}, {target})
  {
    TidyOne(GOTO(target), t, {target});
    TidyOne(LABEL(no), t, {});
    TidyAdd([GOTO(target)], t, multiset{}, {target}, [LABEL(no)], t, multiset{no}, {});
    assert [GOTO(target)] + [LABEL(no)] == [GOTO(target), LABEL(no)];
    assert multiset{} + multiset{no} == multiset{no} && {target} + {} == {target};
  }

  lemma DrawnThree(l: nat, hi: nat)
    requires l + 3 <= hi
    ensures multiset{l} + multiset{l + 1} + multiset{l + 2} + multiset(Drawn(l + 3, hi)) == multiset(Drawn(l, hi))
    ensures {l, l + 1, l + 2} + Drawn(l + 3, hi) == Drawn(l, hi)
  {
    DrawnFirst(l + 2, hi);
    DrawnTwo(l, hi);
  }

  /** Code whose labels and jumps are described in another way. */
  lemma TidyAs(code: Code, t: nat, labels: multiset<int>, jumps: set<int>, labels': multiset<int>, jumps': set<int>)
    requires Tidy(code, t, labels, jumps) && labels == labels' && jumps <= jumps'
    ensures Tidy(code, t, labels', jumps')
  {
    TidyMore(code, t, labels, jumps, t, jumps');
  }

  lemma {:induction false} ExpTidy(g: Gamma, e: Exp, place: nat, t: nat, l: nat)
    requires place < t
    ensures TidyExp(g, TransExp(g, e, place, t, l), place, t, l)
    decreases e, if IsLogical(e) then 2 else 0
  {
    match e
    case Assign(left, right) => AssignTidy(g, e, place, t, l);
    case Arith(op, left, right) => ArithTidy(g, e, place, t, l);
    case Paren(arg) => ExpTidy(g, arg, place, t, l);
    case Neg(_) => NegTidy(g, e, place, t, l);
    case Call(_, _) => CallTidy(g, e, place, t, l);
    case Read => TidyPlain([READ(Temp(place))], t);
    case Write(_) => WriteTidy(g, e, place, t, l);
    case Index(_, _) => IndexTidy(g, e, place, t, l);
    case Dot(_, _) => DotTidy(g, e, place, t, l);
    case Id(_) => TidyPlain([NULL], t);
    case Lit(_) => TidyPlain([NULL], t);
    case _ => LogicalTidy(g, e, place, t, l);
  }

  lemma {:induction false} LogicalTidy(g: Gamma, e: Exp, place: nat, t: nat, l: nat)
    requires place < t && IsLogical(e)
    ensures TidyExp(g, TransExp(g, e, place, t, l), place, t, l)
    decreases e, 2, 0
  {
    CondTidy(g, e, l, l + 1, t, l + 2);
    ValueTidy(TransCondition(g, e, l, l + 1, t, l + 2), place, t, l);
  }

  lemma {:induction false} NegTidy(g: Gamma, e: Exp, place: nat, t: nat, l: nat)
    requires place < t && e.Neg?
    ensures TidyExp(g, TransExp(g, e, place, t, l), place, t, l)
    decreases e, 0, 0
  {
    var a := TransExp(g, e.arg, t, t + 1, l);
    ExpTidy(g, e.arg, t, t + 1, l);
    FormBelow(g, a, t, t + 1, a.t);
    var (code, t') := Arithmetic(Minus, Temp(place), Const(0), a.op, a.t);
    TidyCompute(a.code, a.t, multiset(Drawn(l, a.l)), Drawn(l, a.l), Minus, place, Const(0), a.op, a.t, code, t');
  }

  lemma {:induction false} WriteTidy(g: Gamma, e: Exp, place: nat, t: nat, l: nat)
    requires place < t && e.Write?
    ensures TidyExp(g, TransExp(g, e, place, t, l), place, t, l)
    decreases e, 0, 0
  {
    var a := TransExp(g, e.arg, t, t + 1, l);
    ExpTidy(g, e.arg, t, t + 1, l);
    FormBelow(g, a, t, t + 1, a.t);
    TidyPlain([WRITE(a.op)], a.t);
    TidyThen(a.code, a.t, multiset(Drawn(l, a.l)), Drawn(l, a.l), [WRITE(a.op)], a.t);
  }

  lemma {:induction false} IndexTidy(g: Gamma, e: Exp, place: nat, t: nat, l: nat)
    requires place < t && e.Index?
    ensures TidyExp(g, TransExp(g, e, place, t, l), place, t, l)
    decreases e, 0, 0
  {
    hide Tidy, Drawn;
    var a := TransExp(g, e.base, t, t + 3, l);
    ExpTidy(g, e.base, t, t + 3, l);
    ExpTidy(g, e.index, t + 1, a.t, a.l);
    TidyElement(g, a, TransExp(g, e.index, t + 1, a.t, a.l), place, t, l);
  }

  lemma {:induction false} DotTidy(g: Gamma, e: Exp, place: nat, t: nat, l: nat)
    requires place < t && e.Dot?
    ensures TidyExp(g, TransExp(g, e, place, t, l), place, t, l)
    decreases e, 0, 0
  {
    ExpTidy(g, e.base, t, t + 1, l);
    TidyMember(g, TransExp(g, e.base, t, t + 1, l), e.member, place, t, l);
  }

  lemma {:induction false} AssignTidy(g: Gamma, e: Exp, place: nat, t: nat, l: nat)
    requires place < t && e.Assign?
    ensures TidyExp(g, TransExp(g, e, place, t, l), place, t, l)
    decreases e, 0, 0
  {
    hide Drawn;
    var a := TransExp(g, e.left, t, t + 2, l);
    var b := TransExp(g, e.right, t + 1, a.t, a.l);
    ExpTidy(g, e.left, t, t + 2, l);
    ExpTidy(g, e.right, t + 1, a.t, a.l);
    TidyJoin(a.code, a.t, b.code, b.t, l, a.l, b.l);
    FormBelow(g, a, t, t + 2, b.t);
    FormBelow(g, b, t + 1, a.t, b.t);
    var last := [ASSIGN(a.op, b.op), ASSIGN(Temp(place), a.op)];
    TidyPlain(last, b.t);
    TidyThen(a.code + b.code, b.t, multiset(Drawn(l, b.l)), Drawn(l, b.l), last, b.t);
  }

  lemma {:induction false} ArithTidy(g: Gamma, e: Exp, place: nat, t: nat, l: nat)
    requires place < t && e.Arith?
    ensures TidyExp(g, TransExp(g, e, place, t, l), place, t, l)
    decreases e, 0, 0
  {
    hide Tidy, Arithmetic, Drawn;
    var a := TransExp(g, e.left, t, t + 2, l);
    var b := TransExp(g, e.right, t + 1, a.t, a.l);
    ExpTidy(g, e.left, t, t + 2, l);
    ExpTidy(g, e.right, t + 1, a.t, a.l);
    TidyJoin(a.code, a.t, b.code, b.t, l, a.l, b.l);
    FormBelow(g, a, t, t + 2, b.t);
    FormBelow(g, b, t + 1, a.t, b.t);
    var (code, t') := Arithmetic(e.op, Temp(place), a.op, b.op, b.t);
    TidyCompute(a.code + b.code, b.t, multiset(Drawn(l, b.l)), Drawn(l, b.l), e.op, place, a.op, b.op, b.t, code, t');
  }

  lemma ValueTidy(c: StmtCode, place: nat, t: nat, l: nat)
    requires Tidy(c.code, c.t, multiset(Drawn(l + 2, c.l)), Drawn(l + 2, c.l) + {l, l + 1})
    requires place < t <= c.t && l + 2 <= c.l
    ensures Tidy([ASSIGN(Temp(place), Const(0))] + c.code + [LABEL(l), ASSIGN(Temp(place), Const(1)), LABEL(l + 1)],
                 c.t, multiset(Drawn(l, c.l)), Drawn(l, c.l))
  {
    var first, second := [ASSIGN(Temp(place), Const(0))], [ASSIGN(Temp(place), Const(1))];
    TidyPlain(first, t);
    TidyPlain(second, c.t);
    TidyOne(LABEL(l), c.t, {});
    TidyOne(LABEL(l + 1), c.t, {});
    var labels, jumps := multiset(Drawn(l + 2, c.l)), Drawn(l + 2, c.l) + {l, l + 1};
    TidyAdd(first, t, multiset{}, {}, c.code, c.t, labels, jumps);
    TidyAdd(first + c.code, c.t, multiset{} + labels, {} + jumps, [LABEL(l)], c.t, multiset{l}, {});
    var code := first + c.code + [LABEL(l)];
    TidyThen(code, c.t, multiset{} + labels + multiset{l}, {} + jumps + {}, second, c.t);
    TidyAdd(code + second, c.t, multiset{} + labels + multiset{l}, {} + jumps + {}, [LABEL(l + 1)], c.t,
            multiset{l + 1}, {});
    ValueDrawn(l, c.l);
    TidyAs(code + second + [LABEL(l + 1)], c.t, multiset{} + labels + multiset{l} + multiset{l + 1},
           {} + jumps + {} + {},
           multiset(Drawn(l, c.l)), Drawn(l, c.l));
    assert code + second + [LABEL(l + 1)] == first + c.code + ([LABEL(l)] + second + [LABEL(l + 1)]);
    assert [LABEL(l)] + second + [LABEL(l + 1)] == [LABEL(l), ASSIGN(Temp(place), Const(1)), LABEL(l + 1)];
  }

  lemma ValueDrawn(l: nat, hi: nat)
    requires l + 2 <= hi
    ensures multiset{} + multiset(Drawn(l + 2, hi)) + multiset{l} + multiset{l + 1} == multiset(Drawn(l, hi))
    ensures {} + (Drawn(l + 2, hi) + {l, l + 1}) + {} + {} <= Drawn(l, hi)
  {
    DrawnTwo(l, hi);
  }

  // ----- conditions -----

  lemma {:induction false} CondTidy(g: Gamma, e: Exp, yes: nat, no: nat, t: nat, l: nat)
    ensures var o := TransCondition(g, e, yes, no, t, l);
            Tidy(o.code, o.t, multiset(Drawn(l, o.l)), Drawn(l, o.l) + {yes, no})
    decreases e, 1
  {
    var o := TransCondition(g, e, yes, no, t, l);
    match e
    case Not(arg) =>
      CondTidy(g, arg, no, yes, t, l);
      assert {yes, no} == {no, yes};
    case Rel(_, _, _) => RelTidy(g, e, yes, no, t, l);
    case And(left, right) => AndTidy(g, e, yes, no, t, l);
    case Or(left, right) => OrTidy(g, e, yes, no, t, l);
    case _ =>
      var a := TransExp(g, e, t, t + 1, l);
      TestTidy(g, e, a, yes, no, t, l);
  }

  lemma {:induction false} RelTidy(g: Gamma, e: Exp, yes: nat, no: nat, t: nat, l: nat)
    requires e.Rel?
    ensures var o := TransCondition(g, e, yes, no, t, l);
            Tidy(o.code, o.t, multiset(Drawn(l, o.l)), Drawn(l, o.l) + {yes, no})
    decreases e, 0, 0
  {
    var a := TransExp(g, e.left, t, t + 2, l);
    var b := TransExp(g, e.right, t + 1, a.t, a.l);
    ExpTidy(g, e.left, t, t + 2, l);
    ExpTidy(g, e.right, t + 1, a.t, a.l);
    TidyJoin(a.code, a.t, b.code, b.t, l, a.l, b.l);
    FormBelow(g, a, t, t + 2, b.t);
    FormBelow(g, b, t + 1, a.t, b.t);
    JumpTidy(a.code + b.code, b.t, e.relop, a.op, b.op, yes, no, l, b.l);
  }

  lemma {:induction false} AndTidy(g: Gamma, e: Exp, yes: nat, no: nat, t: nat, l: nat)
    requires e.And?
    ensures var o := TransCondition(g, e, yes, no, t, l);
            Tidy(o.code, o.t, multiset(Drawn(l, o.l)), Drawn(l, o.l) + {yes, no})
    decreases e, 0, 0
  {
    var a := TransCondition(g, e.left, l, no, t, l + 1);
    var b := TransCondition(g, e.right, yes, no, a.t, a.l);
    CondTidy(g, e.left, l, no, t, l + 1);
    CondTidy(g, e.right, yes, no, a.t, a.l);
    EitherTidy(a, b, yes, no, l, no);
  }

  lemma {:induction false} OrTidy(g: Gamma, e: Exp, yes: nat, no: nat, t: nat, l: nat)
    requires e.Or?
    ensures var o := TransCondition(g, e, yes, no, t, l);
            Tidy(o.code, o.t, multiset(Drawn(l, o.l)), Drawn(l, o.l) + {yes, no})
    decreases e, 0, 0
  {
    var a := TransCondition(g, e.left, yes, l, t, l + 1);
    var b := TransCondition(g, e.right, yes, no, a.t, a.l);
    CondTidy(g, e.left, yes, l, t, l + 1);
    CondTidy(g, e.right, yes, no, a.t, a.l);
    assert {yes, l} == {l, yes};
    EitherTidy(a, b, yes, no, l, yes);
  }

  lemma {:induction false} TestTidy(g: Gamma, e: Exp, a: ExpCode, yes: nat, no: nat, t: nat, l: nat)
    requires !IsLogical(e) && a == TransExp(g, e, t, t + 1, l)
    ensures Tidy(a.code + [IF_GOTO(Ne, a.op, Const(0), yes), GOTO(no)], a.t, multiset(Drawn(l, a.l)),
                 Drawn(l, a.l) + {yes, no})
    decreases e, 1, 0
  {
    ExpTidy(g, e, t, t + 1, l);
    FormBelow(g, a, t, t + 1, a.t);
    JumpTidy(a.code, a.t, Ne, a.op, Const(0), yes, no, l, a.l);
  }

  lemma JumpTidy(code: Code, t: nat, op: Relop, src1: Operand, src2: Operand, yes: nat, no: nat, l: nat, l': nat)
    requires Tidy(code, t, multiset(Drawn(l, l')), Drawn(l, l')) && Below(src1, t) && Below(src2, t)
    ensures Tidy(code + [IF_GOTO(op, src1, src2, yes), GOTO(no)], t, multiset(Drawn(l, l')), Drawn(l, l') + {yes, no})
  {
    var last := [IF_GOTO(op, src1, src2, yes), GOTO(no)];
    TidyFlat(last, t, {yes, no});
    NoLabels(last);
    TidyAdd(code, t, multiset(Drawn(l, l')), Drawn(l, l'), last, t, multiset{}, {yes, no});
    assert multiset(Drawn(l, l')) + multiset{} == multiset(Drawn(l, l'));
  }

  /** `&&` and `||`; `out` is where the left side goes if it settles the matter. */
  lemma EitherTidy(a: StmtCode, b: StmtCode, yes: nat, no: nat, l: nat, out: nat)
    requires Tidy(a.code, a.t, multiset(Drawn(l + 1, a.l)), Drawn(l + 1, a.l) + {l, out})
    requires Tidy(b.code, b.t, multiset(Drawn(a.l, b.l)), Drawn(a.l, b.l) + {yes, no})
    requires l + 1 <= a.l <= b.l && a.t <= b.t && out in {yes, no}
    ensures Tidy(a.code + [LABEL(l)] + b.code, b.t, multiset(Drawn(l, b.l)), Drawn(l, b.l) + {yes, no})
  {
    var la, ja := multiset(Drawn(l + 1, a.l)), Drawn(l + 1, a.l) + {l, out};
    var lb, jb := multiset(Drawn(a.l, b.l)), Drawn(a.l, b.l) + {yes, no};
    TidyOne(LABEL(l), a.t, {});
    TidyAdd(a.code, a.t, la, ja, [LABEL(l)], a.t, multiset{l}, {});
    TidyAdd(a.code + [LABEL(l)], a.t, la + multiset{l}, ja + {}, b.code, b.t, lb, jb);
    EitherDrawn(l, a.l, b.l, yes, no, out);
    TidyAs(a.code + [LABEL(l)] + b.code, b.t, la + multiset{l} + lb, ja + {} + jb,
           multiset(Drawn(l, b.l)), Drawn(l, b.l) + {yes, no});
  }

  lemma EitherDrawn(l: nat, mid: nat, hi: nat, yes: nat, no: nat, out: nat)
    requires l + 1 <= mid <= hi && out in {yes, no}
    ensures multiset(Drawn(l + 1, mid)) + multiset{l} + multiset(Drawn(mid, hi)) == multiset(Drawn(l, hi))
    ensures Drawn(l + 1, mid) + {l, out} + {} + (Drawn(mid, hi) + {yes, no}) <= Drawn(l, hi) + {yes, no}
  {
    DrawnJoin(l + 1, mid, hi);
    DrawnFirst(l, hi);
  }

  // ----- calls -----

  /** The code that evaluates the arguments, without the queueing. */
  function EvalCode(g: Gamma, args: Args, t: nat, l: nat): StmtCode {
    match args
    case NoArg => StmtCode([], t, l)
    case Arg(first, rest) =>
      var a := TransExp(g, first, t, t + 1, l);
      var b := EvalCode(g, rest, a.t, a.l);
      StmtCode(a.code + b.code, b.t, b.l)
  }

  /** The operands that are queued, first argument first. */
  function ArgOps(g: Gamma, args: Args, t: nat, l: nat): seq<Operand> {
    match args
    case NoArg => []
    case Arg(first, rest) =>
      var a := TransExp(g, first, t, t + 1, l);
      [HandleAddress(a.op, a.ty)] + ArgOps(g, rest, a.t, a.l)
  }

  /** ARG instructions, last argument first. */
  function Queue(ops: seq<Operand>): Code {
    if ops == [] then [] else Queue(ops[1..]) + [ARG(ops[0])]
  }

  lemma {:induction false} ArgsShape(g: Gamma, args: Args, t: nat, l: nat)
    ensures var o, e := TransArgs(g, args, t, l), EvalCode(g, args, t, l);
            o.code == e.code + Queue(ArgOps(g, args, t, l)) && o.t == e.t && o.l == e.l
    decreases args
  {
    hide TransExp;
    match args
    case NoArg =>
    case Arg(first, rest) =>
      var a := TransExp(g, first, t, t + 1, l);
      var ops := ArgOps(g, rest, a.t, a.l);
      ArgsShape(g, rest, a.t, a.l);
      assert ArgOps(g, args, t, l)[1..] == ops;
  }

  lemma {:induction false} EvalTidy(g: Gamma, args: Args, t: nat, l: nat)
    ensures var e := EvalCode(g, args, t, l);
            Tidy(e.code, e.t, multiset(Drawn(l, e.l)), Drawn(l, e.l)) && t <= e.t && l <= e.l
    decreases args
  {
    match args
    case NoArg => TidyNil(t);
    case Arg(first, rest) =>
      var a := TransExp(g, first, t, t + 1, l);
      var b := EvalCode(g, rest, a.t, a.l);
      ExpTidy(g, first, t, t + 1, l);
      EvalTidy(g, rest, a.t, a.l);
      TidyJoin(a.code, a.t, b.code, b.t, l, a.l, b.l);
  }

  /** An argument operand, evaluated while the counter went from `lo` to `hi`. */
  predicate ArgumentForm(g: Gamma, op: Operand, lo: nat, hi: nat) {
    match Root(op)
    case Variable(x) =>
      op == HandleAddress(Variable(x), if x in g then Some(g[x]) else None)
        || (x in g && g[x].Ref? && op == GetVal(Variable(x)))
    case Const(_) => op.Const?
    case Temp(k) => lo <= k < hi
    case _ => false
  }

  lemma FormOfArgument(g: Gamma, a: ExpCode, t: nat)
    requires OperandForm(g, a, t, t + 1) && t + 1 <= a.t
    ensures ArgumentForm(g, HandleAddress(a.op, a.ty), t, a.t)
    ensures Below(HandleAddress(a.op, a.ty), a.t)
  {
  }

  /** Operands of arguments that were evaluated while the counter went from `lo` to `hi`. */
  ghost predicate ArgumentForms(g: Gamma, ops: seq<Operand>, lo: nat, hi: nat) {
    && (forall i :: 0 <= i < |ops| ==> ArgumentForm(g, ops[i], lo, hi) && Below(ops[i], hi))
    && NearlyClear(ops)
  }

  lemma OneMoreArgument(g: Gamma, op: Operand, more: seq<Operand>, lo: nat, mid: nat, hi: nat)
    requires ArgumentForm(g, op, lo, mid) && Below(op, mid) && ArgumentForms(g, more, mid, hi) && lo <= mid <= hi
    ensures ArgumentForms(g, [op] + more, lo, hi)
  {
    var ops := [op] + more;
    BelowMore(op, mid, hi);
    assert forall i :: 0 < i < |ops| ==> ops[i] == more[i - 1];
  }

  lemma {:induction false} ArgOpsForm(g: Gamma, args: Args, t: nat, l: nat)
    ensures t <= EvalCode(g, args, t, l).t
    ensures ArgumentForms(g, ArgOps(g, args, t, l), t, EvalCode(g, args, t, l).t)
    decreases args
  {
    match args
    case NoArg =>
    case Arg(first, rest) =>
      var a := TransExp(g, first, t, t + 1, l);
      ExpTidy(g, first, t, t + 1, l);
      FormOfArgument(g, a, t);
      ArgOpsForm(g, rest, a.t, a.l);
      OneMoreArgument(g, HandleAddress(a.op, a.ty), ArgOps(g, rest, a.t, a.l), t, a.t, EvalCode(g, args, t, l).t);
  }

  lemma {:induction false} QueueIsArgs(ops: seq<Operand>)
    ensures |Queue(ops)| == |ops|
    ensures forall i :: 0 <= i < |ops| ==> Queue(ops)[i] == ARG(ops[|ops| - 1 - i])
  {
    if ops != [] {
      QueueIsArgs(ops[1..]);
    }
  }

  /** The backward walk from a call finds exactly its arguments, left to right. */
  lemma {:induction false} QueueRun(code: Code, ops: seq<Operand>)
    requires code == [] || !code[|code| - 1].ARG?
    ensures ArgRun(code + Queue(ops), |code + Queue(ops)|) == ops
    decreases |ops|
  {
    var all := code + Queue(ops);
    if ops == [] {
      assert all == code;
    } else {
      var shorter := code + Queue(ops[1..]);
      assert all == shorter + [ARG(ops[0])];
      QueueRun(code, ops[1..]);
      ArgRunLocal(shorter, [ARG(ops[0])], |shorter|);
    }
  }

  lemma QueueInstrs(ops: seq<Operand>, dst: Operand, f: string, t: nat)
    requires forall i :: 0 <= i < |ops| ==> Below(ops[i], t)
    requires Below(dst, t) && HasSlot(dst)
    ensures var code := Queue(ops) + [CALL(dst, f)];
            InstrsOk(code, t, {}) && NoHeads(code) && LabelsOf(code) == multiset{}
  {
    var code, n := Queue(ops) + [CALL(dst, f)], |ops|;
    QueueIsArgs(ops);
    forall i | 0 <= i < |code| ensures code[i] == if i < n then ARG(ops[n - 1 - i]) else CALL(dst, f) {
    }
    NoLabels(code);
  }

  lemma QueueAt(ops: seq<Operand>, dst: Operand, f: string, i: nat)
    requires i <= |ops|
    ensures var code := Queue(ops) + [CALL(dst, f)];
            |code| == |ops| + 1 && code[i] == if i < |ops| then ARG(ops[|ops| - 1 - i]) else CALL(dst, f)
  {
    QueueIsArgs(ops);
  }

  lemma QueueBracketAt(code: Code, ops: seq<Operand>, dst: Operand, f: string, i: nat)
    requires NearlyClear(ops) && code == Queue(ops) + [CALL(dst, f)] && i < |code|
    ensures BracketAt(code, i)
  {
    QueueIsArgs(ops);
    QueueAt(ops, dst, f, i);
    if i < |ops| {
      QueueAt(ops, dst, f, i + 1);
    } else {
      QueueRun([], ops);
      assert [] + Queue(ops) == Queue(ops);
      ArgRunLocal(Queue(ops), [CALL(dst, f)], |ops|);
    }
  }

  lemma QueueBracketed(ops: seq<Operand>, dst: Operand, f: string)
    requires NearlyClear(ops)
    ensures Bracketed(Queue(ops) + [CALL(dst, f)])
  {
    var code := Queue(ops) + [CALL(dst, f)];
    forall i | 0 <= i < |code| ensures BracketAt(code, i) {
      QueueBracketAt(code, ops, dst, f, i);
    }
  }

  lemma QueueTidy(ops: seq<Operand>, dst: Operand, f: string, t: nat)
    requires forall i :: 0 <= i < |ops| ==> Below(ops[i], t)
    requires NearlyClear(ops) && Below(dst, t) && HasSlot(dst)
    ensures Tidy(Queue(ops) + [CALL(dst, f)], t, multiset{}, {})
  {
    QueueInstrs(ops, dst, f, t);
    QueueBracketed(ops, dst, f);
  }

  lemma {:induction false} CallTidy(g: Gamma, e: Exp, place: nat, t: nat, l: nat)
    requires place < t && e.Call?
    ensures TidyExp(g, TransExp(g, e, place, t, l), place, t, l)
    decreases e, 0, 0
  {
    var ev := EvalCode(g, e.args, t, l);
    var ops := ArgOps(g, e.args, t, l);
    ArgsShape(g, e.args, t, l);
    EvalTidy(g, e.args, t, l);
    ArgOpsForm(g, e.args, t, l);
    QueueTidy(ops, Temp(place), e.func, ev.t);
    TidyThen(ev.code, ev.t, multiset(Drawn(l, ev.l)), Drawn(l, ev.l), Queue(ops) + [CALL(Temp(place), e.func)], ev.t);
    assert ev.code + Queue(ops) + [CALL(Temp(place), e.func)] == ev.code + (Queue(ops) + [CALL(Temp(place), e.func)]);
  }

  /** In front of the call that an expression ends with stand exactly the operands of its
      arguments, first argument nearest to the call. */
  lemma ArgumentsInFront(g: Gamma, f: string, args: Args, place: nat, t: nat, l: nat)
    ensures var code := TransExp(g, Call(f, args), place, t, l).code;
            && code != [] && code[|code| - 1] == CALL(Temp(place), f)
            && ArgRun(code, |code| - 1) == ArgOps(g, args, t, l)
  {
    var code := TransExp(g, Call(f, args), place, t, l).code;
    var ev := EvalCode(g, args, t, l);
    ArgsShape(g, args, t, l);
    EvalTidy(g, args, t, l);
    QueueRun(ev.code, ArgOps(g, args, t, l));
    ArgRunLocal(TransArgs(g, args, t, l).code, [CALL(Temp(place), f)], |code| - 1);
  }

  // ----- statements -----

  lemma {:induction false} DecsTidy(g: Gamma, decs: Decs, t: nat, l: nat)
    ensures var o := TransDecs(g, decs, t, l); Tidy(o.code, o.t, multiset(Drawn(l, o.l)), Drawn(l, o.l))
    decreases decs
  {
    match decs
    case NoDec => TidyPlain([NULL], t);
    case Dec(x, ty, init, rest) =>
      var head := [if ty.Int? then NULL else DEC(x, SizeOf(ty))];
      TidyPlain(head, t);
      if init.None? {
        var b := TransDecs(g, rest, t, l);
        DecsTidy(g, rest, t, l);
        TidyJoin(head, t, b.code, b.t, l, l, b.l);
      } else {
        var a := TransExp(g, init.value, t, t + 1, l);
        var b := TransDecs(g, rest, a.t, a.l);
        var store := [ASSIGN(Variable(x), a.op)];
        ExpTidy(g, init.value, t, t + 1, l);
        DecsTidy(g, rest, a.t, a.l);
        FormBelow(g, a, t, t + 1, a.t);
        TidyPlain(store, a.t);
        TidyJoin(head, t, a.code, a.t, l, l, a.l);
        TidyThen(head + a.code, a.t, multiset(Drawn(l, a.l)), Drawn(l, a.l), store, a.t);
        TidyJoin(head + a.code + store, a.t, b.code, b.t, l, a.l, b.l);
      }
  }

  lemma {:induction false} StmtsTidy(g: Gamma, body: Stmts, t: nat, l: nat)
    ensures var o := TransStmts(g, body, t, l); Tidy(o.code, o.t, multiset(Drawn(l, o.l)), Drawn(l, o.l))
    decreases body
  {
    match body
    case NoStmt => TidyPlain([NULL], t);
    case Seq(first, rest) =>
      var a := TransStmt(g, first, t, l);
      var b := TransStmts(g, rest, a.t, a.l);
      StmtTidy(g, first, t, l);
      StmtsTidy(g, rest, a.t, a.l);
      TidyJoin(a.code, a.t, b.code, b.t, l, a.l, b.l);
  }

  lemma {:induction false} StmtTidy(g: Gamma, st: Stmt, t: nat, l: nat)
    ensures var o := TransStmt(g, st, t, l); Tidy(o.code, o.t, multiset(Drawn(l, o.l)), Drawn(l, o.l))
    decreases st
  {
    match st
    case ExpStmt(e) => ExpTidy(g, e, t, t + 1, l);
    case Block(decs, body) =>
      var a := TransDecs(g, decs, t, l);
      var b := TransStmts(g, body, a.t, a.l);
      DecsTidy(g, decs, t, l);
      StmtsTidy(g, body, a.t, a.l);
      TidyJoin(a.code, a.t, b.code, b.t, l, a.l, b.l);
    case Return(e) =>
      var a := TransExp(g, e, t, t + 1, l);
      ExpTidy(g, e, t, t + 1, l);
      FormBelow(g, a, t, t + 1, a.t);
      TidyPlain([RETURN(a.op)], a.t);
      TidyThen(a.code, a.t, multiset(Drawn(l, a.l)), Drawn(l, a.l), [RETURN(a.op)], a.t);
    case While(_, _) => LoopTidy(g, st, t, l);
    case If(_, _) => BranchTidy(g, st, t, l);
    case IfElse(_, _, _) => BranchesTidy(g, st, t, l);
  }

  lemma {:induction false} LoopTidy(g: Gamma, st: Stmt, t: nat, l: nat)
    requires st.While?
    ensures var o := TransStmt(g, st, t, l); Tidy(o.code, o.t, multiset(Drawn(l, o.l)), Drawn(l, o.l))
    decreases st, 0
  {
    var c := TransCondition(g, st.cond, l + 1, l + 2, t, l + 3);
    CondTidy(g, st.cond, l + 1, l + 2, t, l + 3);
    StmtTidy(g, st.body1, c.t, c.l);
    WhileTidy(c, TransStmt(g, st.body1, c.t, c.l), l);
  }

  lemma {:induction false} BranchTidy(g: Gamma, st: Stmt, t: nat, l: nat)
    requires st.If?
    ensures var o := TransStmt(g, st, t, l); Tidy(o.code, o.t, multiset(Drawn(l, o.l)), Drawn(l, o.l))
    decreases st, 0
  {
    var c := TransCondition(g, st.cond, l, l + 1, t, l + 2);
    CondTidy(g, st.cond, l, l + 1, t, l + 2);
    StmtTidy(g, st.thn, c.t, c.l);
    IfTidy(c, TransStmt(g, st.thn, c.t, c.l), l);
  }

  lemma {:induction false} BranchesTidy(g: Gamma, st: Stmt, t: nat, l: nat)
    requires st.IfElse?
    ensures var o := TransStmt(g, st, t, l); Tidy(o.code, o.t, multiset(Drawn(l, o.l)), Drawn(l, o.l))
    decreases st, 0
  {
    var c := TransCondition(g, st.cond, l, l + 1, t, l + 3);
    var a := TransStmt(g, st.thn, c.t, c.l);
    CondTidy(g, st.cond, l, l + 1, t, l + 3);
    StmtTidy(g, st.thn, c.t, c.l);
    StmtTidy(g, st.els, a.t, a.l);
    IfElseTidy(c, a, TransStmt(g, st.els, a.t, a.l), l);
  }

  lemma WhileTidy(c: StmtCode, b: StmtCode, l: nat)
    requires Tidy(c.code, c.t, multiset(Drawn(l + 3, c.l)), Drawn(l + 3, c.l) + {l + 1, l + 2})
    requires Tidy(b.code, b.t, multiset(Drawn(c.l, b.l)), Drawn(c.l, b.l))
    requires l + 3 <= c.l <= b.l && c.t <= b.t
    ensures Tidy([LABEL(l)] + c.code + [LABEL(l + 1)] + b.code + [GOTO(l), LABEL(l + 2)], b.t,
                 multiset(Drawn(l, b.l)), Drawn(l, b.l))
  {
    var lc, jc := multiset(Drawn(l + 3, c.l)), Drawn(l + 3, c.l) + {l + 1, l + 2};
    var lb, jb := multiset(Drawn(c.l, b.l)), Drawn(c.l, b.l);
    TidyOne(LABEL(l), c.t, {});
    TidyOne(LABEL(l + 1), c.t, {});
    TidyGotoLabel(l, l + 2, b.t);
    TidyAdd([LABEL(l)], c.t, multiset{l}, {}, c.code, c.t, lc, jc);
    var code2 := [LABEL(l)] + c.code;
    TidyAdd(code2, c.t, multiset{l} + lc, {} + jc, [LABEL(l + 1)], c.t, multiset{l + 1}, {});
    var code3 := code2 + [LABEL(l + 1)];
    TidyAdd(code3, c.t, multiset{l} + lc + multiset{l + 1}, {} + jc + {}, b.code, b.t, lb, jb);
    var labels, jumps := multiset{l} + lc + multiset{l + 1} + lb, {} + jc + {} + jb;
    TidyAdd(code3 + b.code, b.t, labels, jumps, [GOTO(l), LABEL(l + 2)], b.t, multiset{l + 2}, {l});
    WhileDrawn(l, c.l, b.l);
    TidyAs(code3 + b.code + [GOTO(l), LABEL(l + 2)], b.t, labels + multiset{l + 2}, jumps + {l},
           multiset(Drawn(l, b.l)), Drawn(l, b.l));
  }

  lemma WhileDrawn(l: nat, mid: nat, hi: nat)
    requires l + 3 <= mid <= hi
    ensures multiset{l} + multiset(Drawn(l + 3, mid)) + multiset{l + 1} + multiset(Drawn(mid, hi)) + multiset{l + 2}
            == multiset(Drawn(l, hi))
    ensures {} + (Drawn(l + 3, mid) + {l + 1, l + 2}) + {} + Drawn(mid, hi) + {l} <= Drawn(l, hi)
  {
    DrawnJoin(l + 3, mid, hi);
    DrawnThree(l, hi);
  }

  lemma IfTidy(c: StmtCode, a: StmtCode, l: nat)
    requires Tidy(c.code, c.t, multiset(Drawn(l + 2, c.l)), Drawn(l + 2, c.l) + {l, l + 1})
    requires Tidy(a.code, a.t, multiset(Drawn(c.l, a.l)), Drawn(c.l, a.l))
    requires l + 2 <= c.l <= a.l && c.t <= a.t
    ensures Tidy(c.code + [LABEL(l)] + a.code + [LABEL(l + 1)], a.t, multiset(Drawn(l, a.l)), Drawn(l, a.l))
  {
    var lc, jc := multiset(Drawn(l + 2, c.l)), Drawn(l + 2, c.l) + {l, l + 1};
    var la, ja := multiset(Drawn(c.l, a.l)), Drawn(c.l, a.l);
    TidyOne(LABEL(l), c.t, {});
    TidyOne(LABEL(l + 1), a.t, {});
    TidyAdd(c.code, c.t, lc, jc, [LABEL(l)], c.t, multiset{l}, {});
    TidyAdd(c.code + [LABEL(l)], c.t, lc + multiset{l}, jc + {}, a.code, a.t, la, ja);
    var labels, jumps := lc + multiset{l} + la, jc + {} + ja;
    TidyAdd(c.code + [LABEL(l)] + a.code, a.t, labels, jumps, [LABEL(l + 1)], a.t, multiset{l + 1}, {});
    IfDrawn(l, c.l, a.l);
    TidyAs(c.code + [LABEL(l)] + a.code + [LABEL(l + 1)], a.t, labels + multiset{l + 1}, jumps + {},
           multiset(Drawn(l, a.l)), Drawn(l, a.l));
  }

  lemma IfDrawn(l: nat, mid: nat, hi: nat)
    requires l + 2 <= mid <= hi
    ensures multiset(Drawn(l + 2, mid)) + multiset{l} + multiset(Drawn(mid, hi)) + multiset{l + 1} ==
            multiset(Drawn(l, hi))
    ensures Drawn(l + 2, mid) + {l, l + 1} + {} + Drawn(mid, hi) + {} <= Drawn(l, hi)
  {
    DrawnJoin(l + 2, mid, hi);
    DrawnTwo(l, hi);
  }

  lemma IfElseTidy(c: StmtCode, a: StmtCode, b: StmtCode, l: nat)
    requires Tidy(c.code, c.t, multiset(Drawn(l + 3, c.l)), Drawn(l + 3, c.l) + {l, l + 1})
    requires Tidy(a.code, a.t, multiset(Drawn(c.l, a.l)), Drawn(c.l, a.l))
    requires Tidy(b.code, b.t, multiset(Drawn(a.l, b.l)), Drawn(a.l, b.l))
    requires l + 3 <= c.l <= a.l <= b.l && c.t <= a.t <= b.t
    ensures Tidy(c.code + [LABEL(l)] + a.code + [GOTO(l + 2), LABEL(l + 1)] + b.code + [LABEL(l + 2)], b.t,
                 multiset(Drawn(l, b.l)), Drawn(l, b.l))
  {
    var lc, jc := multiset(Drawn(l + 3, c.l)), Drawn(l + 3, c.l) + {l, l + 1};
    var la, ja := multiset(Drawn(c.l, a.l)), Drawn(c.l, a.l);
    var lb, jb := multiset(Drawn(a.l, b.l)), Drawn(a.l, b.l);
    FirstBranchTidy(c.code, c.t, lc, jc, a.code, a.t, la, ja, l);
    var code2 := c.code + [LABEL(l)] + a.code + [GOTO(l + 2), LABEL(l + 1)];
    var l2, j2 := lc + multiset{l} + la + multiset{l + 1}, jc + {} + ja + {l + 2};
    TidyOne(LABEL(l + 2), b.t, {});
    TidyAdd(code2, a.t, l2, j2, b.code, b.t, lb, jb);
    TidyAdd(code2 + b.code, b.t, l2 + lb, j2 + jb, [LABEL(l + 2)], b.t, multiset{l + 2}, {});
    IfElseDrawn(l, c.l, a.l, b.l);
    TidyAs(code2 + b.code + [LABEL(l + 2)], b.t, l2 + lb + multiset{l + 2}, j2 + jb + {}, multiset(Drawn(l, b.l)),
           Drawn(l, b.l));
  }

  lemma FirstBranchTidy(c: Code, tc: nat, lc: multiset<int>, jc: set<int>, a: Code, ta: nat, la: multiset<int>,
                        ja: set<int>, l: nat)
    requires Tidy(c, tc, lc, jc) && Tidy(a, ta, la, ja) && tc <= ta
    ensures Tidy(c + [LABEL(l)] + a + [GOTO(l + 2), LABEL(l + 1)], ta, lc + multiset{l} + la + multiset{l + 1},
                 jc + {} + ja + {l + 2})
  {
    TidyOne(LABEL(l), tc, {});
    TidyGotoLabel(l + 2, l + 1, ta);
    TidyAdd(c, tc, lc, jc, [LABEL(l)], tc, multiset{l}, {});
    TidyAdd(c + [LABEL(l)], tc, lc + multiset{l}, jc + {}, a, ta, la, ja);
    TidyAdd(c + [LABEL(l)] + a, ta, lc + multiset{l} + la, jc + {} + ja, [GOTO(l + 2), LABEL(l + 1)], ta,
            multiset{l + 1}, {l + 2});
  }

  lemma IfElseDrawn(l: nat, mid1: nat, mid2: nat, hi: nat)
    requires l + 3 <= mid1 <= mid2 <= hi
    ensures multiset(Drawn(l + 3, mid1)) + multiset{l} + multiset(Drawn(mid1, mid2)) + multiset{l + 1}
            + multiset(Drawn(mid2, hi)) + multiset{l + 2} == multiset(Drawn(l, hi))
    ensures Drawn(l + 3, mid1) + {l, l + 1} + {} + Drawn(mid1, mid2) + {l + 2} + Drawn(mid2, hi) + {} <= Drawn(l, hi)
  {
    DrawnJoin(mid1, mid2, hi);
    DrawnJoin(l + 3, mid1, hi);
    DrawnThree(l, hi);
  }

  // ----- functions and programs -----

  lemma BodyTidy(fn: Function, t: nat, l: nat)
    ensures var o := TransBody(fn, t, l); Tidy(o.code, o.t, multiset(Drawn(l, o.l)), Drawn(l, o.l))
  {
    var a := TransDecs(fn.vars, fn.decs, t, l);
    var b := TransStmts(fn.vars, fn.body, a.t, a.l);
    DecsTidy(fn.vars, fn.decs, t, l);
    StmtsTidy(fn.vars, fn.body, a.t, a.l);
    TidyJoin(a.code, a.t, b.code, b.t, l, a.l, b.l);
  }

  lemma {:induction false} ParamsAreParams(ps: seq<string>)
    ensures |TransParams(ps)| == |ps| && forall i :: 0 <= i < |ps| ==> TransParams(ps)[i] == PARAM(ps[i])
  {
    if ps != [] {
      ParamsAreParams(ps[1..]);
    }
  }

  lemma HeadOrderly(fn: Function, t: nat)
    ensures Orderly([FUNC(fn.name)] + TransParams(fn.params), t, multiset{}, {})
  {
    var code := [FUNC(fn.name)] + TransParams(fn.params);
    ParamsAreParams(fn.params);
    assert forall i :: 0 <= i < |code| ==> code[i].FUNC? || code[i].PARAM?;
    NoLabels(code);
  }

  lemma FunctionOrderly(fn: Function, t: nat, l: nat)
    ensures var o := TransFunction(fn, t, l); Orderly(o.code, o.t, multiset(Drawn(l, o.l)), Drawn(l, o.l))
  {
    var o := TransBody(fn, t, l);
    HeadOrderly(fn, t);
    BodyTidy(fn, t, l);
    var head := [FUNC(fn.name)] + TransParams(fn.params);
    OrderlyAdd(head, t, multiset{}, {}, o.code, o.t, multiset(Drawn(l, o.l)), Drawn(l, o.l));
    assert multiset{} + multiset(Drawn(l, o.l)) == multiset(Drawn(l, o.l)) && {} + Drawn(l, o.l) == Drawn(l, o.l);
  }

  /** Label closure: in the code of a program every label that was drawn is defined exactly once,
      and every jump leads to one of them. */
  lemma {:induction false} ProgramOrderly(p: Program, t: nat, l: nat)
    ensures var o := TransProgram(p, t, l); Orderly(o.code, o.t, multiset(Drawn(l, o.l)), Drawn(l, o.l))
    decreases |p|
  {
    if p == [] {
      TidyPlain([NULL], t);
    } else {
      var a := if p[0].Declaration? then StmtCode([NULL], t, l) else TransFunction(p[0].fn, t, l);
      if p[0].Declaration? {
        TidyPlain([NULL], t);
      } else {
        FunctionOrderly(p[0].fn, t, l);
      }
      ProgramOrderly(p[1..], a.t, a.l);
      var b := TransProgram(p[1..], a.t, a.l);
      OrderlyAdd(a.code, a.t, multiset(Drawn(l, a.l)), Drawn(l, a.l), b.code, b.t, multiset(Drawn(a.l, b.l)),
                 Drawn(a.l, b.l));
      DrawnJoin(l, a.l, b.l);
    }
  }

  lemma {:induction false} LabelCounts(code: Code, i: nat, n: nat)
    requires i < |code| && code[i] == LABEL(n)
    ensures LabelsOf(code)[n] >= 1
    decreases |code|
  {
    if i < |code| - 1 {
      LabelCounts(code[..|code| - 1], i, n);
    }
  }

  lemma {:induction false} LabelCountsTwice(code: Code, i: nat, j: nat, n: nat)
    requires i < j < |code| && code[i] == LABEL(n) && code[j] == LABEL(n)
    ensures LabelsOf(code)[n] >= 2
    decreases |code|
  {
    if j < |code| - 1 {
      LabelCountsTwice(code[..|code| - 1], i, j, n);
    } else {
      LabelCounts(code[..|code| - 1], i, n);
    }
  }

  lemma {:induction false} LabelDefined(code: Code, n: nat)
    requires LabelsOf(code)[n] >= 1
    ensures exists i :: 0 <= i < |code| && code[i] == LABEL(n)
    decreases |code|
  {
    var m := |code| - 1;
    if code[m] != LABEL(n) {
      LabelDefined(code[..m], n);
      var i :| 0 <= i < |code[..m]| && code[..m][i] == LABEL(n);
      assert code[i] == LABEL(n);
    }
  }

  /** No label is defined twice, and every jump has a target. */
  lemma LabelClosure(p: Program, t: nat, l: nat)
    ensures LabelsOnce(TransProgram(p, t, l).code)
    ensures var code := TransProgram(p, t, l).code;
            forall i :: 0 <= i < |code| && (code[i].GOTO? || code[i].IF_GOTO?) ==>
              exists j :: 0 <= j < |code| && code[j] == LABEL(code[i].no)
  {
    var o := TransProgram(p, t, l);
    var code := o.code;
    ProgramOrderly(p, t, l);
    assert Unfold(0);
    forall i | 0 <= i < |code| ensures OnlyHere(code, i) {
      forall j | code[i].LABEL? && 0 <= j < |code| && code[j] == code[i] ensures j == i {
        if j < i {
          LabelCountsTwice(code, j, i, code[i].no);
        } else if i < j {
          LabelCountsTwice(code, i, j, code[i].no);
        }
      }
    }
    forall i | 0 <= i < |code| && (code[i].GOTO? || code[i].IF_GOTO?)
      ensures exists j :: 0 <= j < |code| && code[j] == LABEL(code[i].no)
    {
      assert InstrOk(code, i, o.t, Drawn(l, o.l));
      LabelDefined(code, code[i].no);
    }
  }
}
