/** Running a list of instructions before and after the formatting pass gives the same
    variables, the same calls and the same exchange with the console. */
module FormatOk {
  import opened Common
  import opened Syntax
  import opened Ir
  import opened Translate
  import opened Represent
  import opened Static
  import opened Format

  /** `m2` is `m1` after the pass, whose temporaries are numbered from `t` on. */
  ghost predicate Formats(m1: Machine, m2: Machine, t: nat, targets: set<int>) {
    && m2.layout == m1.layout
    && m2.code == Whole(m1.code, t)
    && InstrsOk(m1.code, t, targets)
    && Bracketed(m1.code)
  }

  /** Frame `b` agrees with `a` and may have further temporaries. */
  ghost predicate FrameLike(a: Frame, b: Frame, t: nat) {
    && SameShape(a, b) && b.mem == a.mem
    && forall op :: op in a.env ==> Below(op, t) && op in b.env && b.env[op] == a.env[op]
  }

  ghost predicate CallerLike(code: Code, a: Caller, b: Caller, t: nat) {
    && FrameLike(a.frame, b.frame, t)
    && b.dst == a.dst && Below(a.dst, t)
    && a.ret <= |code| && b.ret == Pos(code, a.ret, t)
  }

  ghost predicate CallersLike(code: Code, ks: seq<Caller>, ks': seq<Caller>, t: nat) {
    |ks'| == |ks| && forall i :: 0 <= i < |ks| ==> CallerLike(code, ks[i], ks'[i], t)
  }

  /** The states agree except for the program counter. */
  ghost predicate DataLike(code: Code, a: State, b: State, t: nat) {
    && a.Running? && b.Running?
    && FrameLike(a.frame, b.frame, t)
    && CallersLike(code, a.callers, b.callers, t)
    && b.args == a.args && b.io == a.io
  }

  ghost predicate StateLike(code: Code, a: State, b: State, t: nat) {
    match a
    case Halted(_, _) => b == a
    case Running(pc, _, _, _, _) => DataLike(code, a, b, t) && pc <= |code| && b.pc == Pos(code, pc, t)
  }

  lemma GetLike(m1: Machine, m2: Machine, a: Frame, b: Frame, t: nat, op: Operand)
    requires m2.layout == m1.layout && FrameLike(a, b, t) && Get(a, op).Some?
    ensures Get(b, op) == Get(a, op)
  {
  }

  lemma PutLike(m1: Machine, m2: Machine, a: Frame, b: Frame, t: nat, op: Operand, v: int)
    requires m2.layout == m1.layout && FrameLike(a, b, t) && Put(a, op, v).Some? && Below(op, t)
    ensures Put(b, op, v).Some? && FrameLike(Put(a, op, v).value, Put(b, op, v).value, t)
  {
  }

  lemma TargetLike(m1: Machine, m2: Machine, t: nat, targets: set<int>, a: Frame, b: Frame, no: nat)
    requires Formats(m1, m2, t, targets) && b.fn == a.fn && Target(m1, a, no).Some?
    ensures Target(m1, a, no).value <= |m1.code|
    ensures Target(m2, b, no) == Some(Pos(m1.code, Target(m1, a, no).value, t))
  {
    FindThere(m1.code, t, LABEL(no));
    FnThere(m1.code, Target(m1, a, no).value, t);
  }

  // ----- one instruction -----

  ghost predicate SameValue(m1: Machine, a: Frame, m2: Machine, b: Frame, x: Operand, y: Operand) {
    Get(a, x).Some? ==> Get(b, y) == Get(a, x)
  }

  /** `ins'` does with `b` what `ins` does with `a`. */
  ghost predicate Version(m1: Machine, a: Frame, m2: Machine, b: Frame, ins: Instr, ins': Instr) {
    match ins
    case ASSIGN(dst, src) => ins'.ASSIGN? && ins'.dst == dst && SameValue(m1, a, m2, b, src, ins'.src)
    case IF_GOTO(op, src1, src2, no) =>
      && ins'.IF_GOTO? && ins'.relop == op && ins'.no == no
      && SameValue(m1, a, m2, b, src1, ins'.src1) && SameValue(m1, a, m2, b, src2, ins'.src2)
    case RETURN(src) => ins'.RETURN? && SameValue(m1, a, m2, b, src, ins'.src)
    case WRITE(src) => ins'.WRITE? && SameValue(m1, a, m2, b, src, ins'.src)
    case _ => ins' == ins
  }

  lemma PlainLike(m1: Machine, m2: Machine, t: nat, targets: set<int>, a: State, b: State, ins: Instr, ins': Instr)
    requires Formats(m1, m2, t, targets) && DataLike(m1.code, a, b, t) && a.args == []
    requires InstrBelow(ins, t) && Version(m1, a.frame, m2, b.frame, ins, ins')
    requires a.pc < |m1.code| && b.pc + 1 == Pos(m1.code, a.pc + 1, t)
    requires Plain(m1, ins, a).Some?
    ensures Plain(m2, ins', b).Some? && StateLike(m1.code, Plain(m1, ins, a).value, Plain(m2, ins', b).value, t)
  {
    match ins
    case ASSIGN(dst, src) =>
      PutLike(m1, m2, a.frame, b.frame, t, dst, Get(a.frame, src).value);
    case ARITH(op, dst, src1, src2) =>
      GetLike(m1, m2, a.frame, b.frame, t, src1);
      GetLike(m1, m2, a.frame, b.frame, t, src2);
      PutLike(m1, m2, a.frame, b.frame, t, dst, Compute(op, Get(a.frame, src1).value, Get(a.frame, src2).value).value);
    case GOTO(no) => TargetLike(m1, m2, t, targets, a.frame, b.frame, no);
    case IF_GOTO(_, _, _, no) => TargetLike(m1, m2, t, targets, a.frame, b.frame, no);
    case RETURN(src) => ResumeLike(m1, m2, t, targets, a, b, Get(a.frame, src).value);
    case READ(dst) => PutLike(m1, m2, a.frame, b.frame, t, dst, a.io.input[0]);
    case _ =>
  }

  lemma ResumeLike(m1: Machine, m2: Machine, t: nat, targets: set<int>, a: State, b: State, v: int)
    requires Formats(m1, m2, t, targets) && DataLike(m1.code, a, b, t)
    requires Resume(v, a.frame, a.callers, a.io).Some?
    ensures Resume(v, b.frame, b.callers, b.io).Some?
    ensures StateLike(m1.code, Resume(v, a.frame, a.callers, a.io).value, Resume(v, b.frame, b.callers, b.io).value, t)
  {
    if a.callers != [] {
      var k, k' := a.callers[0], b.callers[0];
      assert CallerLike(m1.code, k, k', t);
      PutLike(m1, m2, k.frame.(mem := Remains(a.frame)), k'.frame.(mem := Remains(b.frame)), t, k.dst, v);
      assert forall i :: 0 <= i < |a.callers[1..]| ==> CallerLike(m1.code, a.callers[1..][i], b.callers[1..][i], t);
    }
  }

  lemma {:induction false} BoundBelow(ps: seq<string>, vs: seq<int>, t: nat)
    requires |ps| == |vs|
    ensures forall op :: op in Bind(ps, vs) ==> Below(op, t)
    decreases |ps|
  {
    if ps != [] {
      BoundBelow(ps[..|ps| - 1], vs[..|ps| - 1], t);
    }
  }

  lemma CalleeLike(m1: Machine, m2: Machine, a: Frame, b: Frame, t: nat, f: string, ps: seq<string>, vs: seq<int>)
    requires m2.layout == m1.layout && FrameLike(a, b, t) && |ps| == |vs|
    ensures FrameLike(Callee(m1, a, f, ps, vs), Callee(m2, b, f, ps, vs), t)
  {
    BoundBelow(ps, vs, t);
  }

  lemma InvokeLike(m1: Machine, m2: Machine, t: nat, targets: set<int>, a: State, b: State, dst: Operand, f: string)
    requires Formats(m1, m2, t, targets) && DataLike(m1.code, a, b, t) && Below(dst, t)
    requires a.pc < |m1.code| && b.pc + 1 == Pos(m1.code, a.pc + 1, t)
    requires Invoke(m1, f, a, dst).Some?
    ensures Invoke(m2, f, b, dst).Some?
    ensures StateLike(m1.code, Invoke(m1, f, a, dst).value, Invoke(m2, f, b, dst).value, t)
  {
    hide Find, FnAt, Whole, Pos;
    FindThere(m1.code, t, FUNC(f));
    FindFinds(m1.code, 0, FUNC(f));
    var entry := Find(m1.code, 0, FUNC(f)).value;
    SingleThere(m1.code, entry, t);
    ParamsThere(m1.code, entry + 1, t);
    CalleeLike(m1, m2, a.frame, b.frame, t, f, Params(m1.code, entry + 1), a.args);
    assert CallerLike(m1.code, Caller(Suspended(a.frame), dst, a.pc + 1), Caller(Suspended(b.frame), dst, b.pc + 1), t);
  }

  /** Loading a memory operand into a fresh temporary. */
  lemma LoadLike(m1: Machine, m2: Machine, t: nat, a: State, b: State, op: Operand, k: nat) returns (b': State)
    requires m2.layout == m1.layout && DataLike(m1.code, a, b, t) && a.args == [] && t <= k
    requires b.pc < |m2.code| && m2.code[b.pc] == ASSIGN(Temp(k), op)
    requires Get(a.frame, op).Some?
    ensures Reaches(m2, b, b') && DataLike(m1.code, a, b', t) && b'.pc == b.pc + 1
    ensures b'.frame == SetTemp(b.frame, k, Get(a.frame, op).value)
  {
    GetLike(m1, m2, a.frame, b.frame, t, op);
    b' := b.(pc := b.pc + 1, frame := SetTemp(b.frame, k, Get(a.frame, op).value));
    One(m2, b, b');
  }

  /** The last instruction of those that replace `ins`. */
  lemma Finish(m1: Machine, m2: Machine, t: nat, targets: set<int>, a: State, b0: State, b: State, a': State)
    returns (b': State)
    requires Formats(m1, m2, t, targets) && DataLike(m1.code, a, b, t) && Reaches(m2, b0, b)
    requires a.pc < |m1.code| && b.pc < |m2.code| && b.pc + 1 == Pos(m1.code, a.pc + 1, t)
    requires Version(m1, a.frame, m2, b.frame, m1.code[a.pc], m2.code[b.pc])
    requires Step(m1, a) == Some(a') && !m1.code[a.pc].ARG? && !m1.code[a.pc].CALL?
    ensures Reaches(m2, b0, b') && StateLike(m1.code, a', b', t)
  {
    assert InstrOk(m1.code, a.pc, t, targets);
    PlainLike(m1, m2, t, targets, a, b, m1.code[a.pc], m2.code[b.pc]);
    b' := Plain(m2, m2.code[b.pc], b).value;
    One(m2, b, b');
    Then(m2, b0, b, b');
  }

  /** An operand is loaded first if need be. */
  lemma FetchLike(m1: Machine, m2: Machine, t: nat, a: State, b: State, op: Operand, k: nat, all: bool)
    returns (b': State)
    requires m2.layout == m1.layout && DataLike(m1.code, a, b, t) && a.args == [] && t <= k
    requires Get(a.frame, op).Some? && Below(op, t)
    requires var (code, _, _) := if all then Spill(op, k) else Fetch(op, k); Inside(m2.code, b.pc, code)
    ensures var (code, actual, k') := if all then Spill(op, k) else Fetch(op, k);
            && Reaches(m2, b, b') && DataLike(m1.code, a, b', t) && b'.pc == b.pc + |code|
            && Get(b'.frame, actual) == Get(a.frame, op) && Below(actual, k')
            && forall x :: Below(x, k) ==> Get(b'.frame, x) == Get(b.frame, x)
  {
    var (code, actual, k') := if all then Spill(op, k) else Fetch(op, k);
    BelowMore(op, t, k');
    if code == [] {
      b' := b;
      Stay(m2, b);
      GetLike(m1, m2, a.frame, b.frame, t, op);
    } else {
      assert m2.code[b.pc] == m2.code[b.pc..b.pc + |code|][0];
      b' := LoadLike(m1, m2, t, a, b, op, k);
      forall x | Below(x, k) ensures Get(b'.frame, x) == Get(b.frame, x) {
        GetIgnoresTemp(m2, b.frame, k, b'.frame.env[Temp(k)], x);
      }
    }
  }

  lemma GetIgnoresTemp(m: Machine, fr: Frame, k: nat, v: int, x: Operand)
    requires Below(x, k)
    ensures Get(SetTemp(fr, k, v), x) == Get(fr, x)
  {
  }

  lemma Parts(code: Code, at: nat, a: Code, b: Code)
    requires Inside(code, at, a + b)
    ensures Inside(code, at, a) && Inside(code, at + |a|, b)
  {
    var whole := code[at..at + |a + b|];
    assert whole[..|a|] == a && whole[|a|..] == b;
    assert code[at..at + |a|] == whole[..|a|] && code[at + |a|..at + |a| + |b|] == whole[|a|..];
  }

  lemma OneInside(code: Code, at: nat, ins: Instr)
    requires Inside(code, at, [ins])
    ensures code[at] == ins
  {
    assert code[at] == code[at..at + 1][0];
  }

  lemma JumpLike(m1: Machine, m2: Machine, t: nat, targets: set<int>, a: State, b: State, k: nat, a': State)
    returns (b': State)
    requires Formats(m1, m2, t, targets) && DataLike(m1.code, a, b, t) && t <= k
    requires a.pc < |m1.code| && m1.code[a.pc].IF_GOTO? && Step(m1, a) == Some(a')
    requires Inside(m2.code, b.pc, Expand(m1.code[a.pc], k).0)
    requires b.pc + |Expand(m1.code[a.pc], k).0| == Pos(m1.code, a.pc + 1, t)
    ensures Reaches(m2, b, b') && StateLike(m1.code, a', b', t)
  {
    var ins := m1.code[a.pc];
    assert InstrOk(m1.code, a.pc, t, targets);
    var (code1, actual1, k1) := Fetch(ins.src1, k);
    var (code2, actual2, k2) := Fetch(ins.src2, k1);
    var last := IF_GOTO(ins.relop, actual1, actual2, ins.no);
    Parts(m2.code, b.pc, code1 + code2, [last]);
    Parts(m2.code, b.pc, code1, code2);
    var b1 := FetchLike(m1, m2, t, a, b, ins.src1, k, false);
    var b2 := FetchLike(m1, m2, t, a, b1, ins.src2, k1, false);
    Then(m2, b, b1, b2);
    OneInside(m2.code, b2.pc, last);
    b' := Finish(m1, m2, t, targets, a, b, b2, a');
  }

  lemma AssignLike(m1: Machine, m2: Machine, t: nat, targets: set<int>, a: State, b: State, k: nat, a': State)
    returns (b': State)
    requires Formats(m1, m2, t, targets) && DataLike(m1.code, a, b, t) && t <= k
    requires a.pc < |m1.code| && m1.code[a.pc].ASSIGN? && Step(m1, a) == Some(a')
    requires Inside(m2.code, b.pc, Expand(m1.code[a.pc], k).0)
    requires b.pc + |Expand(m1.code[a.pc], k).0| == Pos(m1.code, a.pc + 1, t)
    ensures Reaches(m2, b, b') && StateLike(m1.code, a', b', t)
  {
    var ins := m1.code[a.pc];
    if IsMemOp(ins.dst) && IsMemOp(ins.src) {
      Parts(m2.code, b.pc, [ASSIGN(Temp(k), ins.src)], [ASSIGN(ins.dst, Temp(k))]);
      OneInside(m2.code, b.pc, ASSIGN(Temp(k), ins.src));
      var b1 := LoadLike(m1, m2, t, a, b, ins.src, k);
      OneInside(m2.code, b1.pc, ASSIGN(ins.dst, Temp(k)));
      b' := Finish(m1, m2, t, targets, a, b, b1, a');
    } else {
      OneInside(m2.code, b.pc, ins);
      GetLike(m1, m2, a.frame, b.frame, t, ins.src);
      Stay(m2, b);
      b' := Finish(m1, m2, t, targets, a, b, b, a');
    }
  }

  lemma OutputLike(m1: Machine, m2: Machine, t: nat, targets: set<int>, a: State, b: State, k: nat, a': State)
    returns (b': State)
    requires Formats(m1, m2, t, targets) && DataLike(m1.code, a, b, t) && t <= k
    requires a.pc < |m1.code| && (m1.code[a.pc].RETURN? || m1.code[a.pc].WRITE?) && Step(m1, a) == Some(a')
    requires Inside(m2.code, b.pc, Expand(m1.code[a.pc], k).0)
    requires b.pc + |Expand(m1.code[a.pc], k).0| == Pos(m1.code, a.pc + 1, t)
    ensures Reaches(m2, b, b') && StateLike(m1.code, a', b', t)
  {
    var ins := m1.code[a.pc];
    assert InstrOk(m1.code, a.pc, t, targets);
    var (code, actual, k') := if ins.WRITE? then Spill(ins.src, k) else Fetch(ins.src, k);
    var last := if ins.WRITE? then WRITE(actual) else RETURN(actual);
    Parts(m2.code, b.pc, code, [last]);
    var b1 := FetchLike(m1, m2, t, a, b, ins.src, k, ins.WRITE?);
    OneInside(m2.code, b1.pc, last);
    b' := Finish(m1, m2, t, targets, a, b, b1, a');
  }

  /** Instructions that are not changed. */
  lemma SameLike(m1: Machine, m2: Machine, t: nat, targets: set<int>, a: State, b: State, a': State)
    returns (b': State)
    requires Formats(m1, m2, t, targets) && DataLike(m1.code, a, b, t)
    requires a.pc < |m1.code| && Step(m1, a) == Some(a')
    requires var ins := m1.code[a.pc]; Untouched(ins) || ins.NULL? || (ins.READ? && HasSlot(ins.dst))
    requires Inside(m2.code, b.pc, [m1.code[a.pc]]) && b.pc + 1 == Pos(m1.code, a.pc + 1, t)
    ensures Reaches(m2, b, b') && StateLike(m1.code, a', b', t)
  {
    var ins := m1.code[a.pc];
    OneInside(m2.code, b.pc, ins);
    if ins.ARG? {
      GetLike(m1, m2, a.frame, b.frame, t, ins.src);
      b' := Step(m2, b).value;
      One(m2, b, b');
    } else if ins.CALL? {
      assert InstrOk(m1.code, a.pc, t, targets);
      InvokeLike(m1, m2, t, targets, a, b, ins.dst, ins.name);
      b' := Step(m2, b).value;
      One(m2, b, b');
    } else {
      Stay(m2, b);
      b' := Finish(m1, m2, t, targets, a, b, b, a');
    }
  }

  /** What one step does before the pass, no, one or several steps do after it. */
  lemma StepLike(m1: Machine, m2: Machine, t: nat, targets: set<int>, a: State, b: State, a': State)
    returns (b': State)
    requires Formats(m1, m2, t, targets) && StateLike(m1.code, a, b, t) && Step(m1, a) == Some(a')
    ensures Reaches(m2, b, b') && StateLike(m1.code, a', b', t)
  {
    var i := a.pc;
    var ins, k := m1.code[i], Formatted(m1.code, i, t).1;
    PieceThere(m1.code, i, t);
    assert InstrOk(m1.code, i, t, targets);
    match ins
    case ASSIGN(_, _) => b' := AssignLike(m1, m2, t, targets, a, b, k, a');
    case IF_GOTO(_, _, _, _) => b' := JumpLike(m1, m2, t, targets, a, b, k, a');
    case RETURN(_) => b' := OutputLike(m1, m2, t, targets, a, b, k, a');
    case WRITE(_) => b' := OutputLike(m1, m2, t, targets, a, b, k, a');
    case _ =>
      if ins.NULL? && i > 0 {
        b' := b;
        Stay(m2, b);
      } else {
        b' := SameLike(m1, m2, t, targets, a, b, a');
      }
  }

  /** The pass neither adds nor hides calls for which the stack has no room (a NULL shares its place
      with what follows it). */
  lemma ExhaustedLike(m1: Machine, m2: Machine, t: nat, targets: set<int>, a: State, b: State)
    requires Formats(m1, m2, t, targets) && StateLike(m1.code, a, b, t)
    requires a.Running? ==> a.pc < |m1.code| && m1.code[a.pc] != NULL
    ensures Exhausted(m1, a) <==> Exhausted(m2, b)
  {
    if a.Running? {
      var ins := m1.code[a.pc];
      if ins.CALL? {
        SingleThere(m1.code, a.pc, t);
        if Find(m1.code, 0, FUNC(ins.name)).Some? {
          FindThere(m1.code, t, FUNC(ins.name));
        } else {
          NotFoundThere(m1.code, t, FUNC(ins.name));
        }
      } else {
        PieceThere(m1.code, a.pc, t);
        PieceKind(m1.code, a.pc, t);
        assert m2.code[b.pc] == PieceAt(m1.code, a.pc, t)[0];
      }
    }
  }

  lemma {:induction false} RunLike(m1: Machine, m2: Machine, t: nat, targets: set<int>, run: seq<State>, b: State)
    returns (b': State)
    requires Formats(m1, m2, t, targets) && IsRun(m1, run) && StateLike(m1.code, run[0], b, t)
    ensures Reaches(m2, b, b') && StateLike(m1.code, run[|run| - 1], b', t)
    decreases |run|
  {
    if |run| == 1 {
      b' := b;
      Stay(m2, b);
    } else {
      assert Follows(m1, run, 0);
      var b1 := StepLike(m1, m2, t, targets, run[0], b, run[1]);
      forall i | 0 <= i < |run[1..]| - 1 ensures Follows(m1, run[1..], i) {
        assert Follows(m1, run, i + 1);
      }
      b' := RunLike(m1, m2, t, targets, run[1..], b1);
      Then(m2, b, b1, b');
    }
  }

  /** Formatting preserves meaning: what the program reaches before the pass it reaches after it. */
  lemma FormatPreserves(m1: Machine, m2: Machine, t: nat, targets: set<int>, a: State, b: State, v: int, io: Console)
    requires Formats(m1, m2, t, targets) && StateLike(m1.code, a, b, t) && Gets(m1, a, Halted(v, io))
    ensures Gets(m2, b, Halted(v, io))
  {
    assert Unfold(0);
    var run :| IsRun(m1, run) && run[0] == a && (run[|run| - 1] == Halted(v, io) || Exhausted(m1, run[|run| - 1]));
    var b' := RunLike(m1, m2, t, targets, run, b);
    if Exhausted(m1, run[|run| - 1]) {
      ExhaustedLike(m1, m2, t, targets, run[|run| - 1], b');
      RunsOut(m2, b', Halted(v, io));
    } else {
      Stay(m2, b');
      Arrived(m2, b', Halted(v, io));
    }
    Depart(m2, b, b', Halted(v, io));
  }
}
