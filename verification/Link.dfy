/** Every function of a translated program is found where calls look for it, so the
    meaning of the source program is kept by the code of the whole program. */
module Link {
  import opened Common
  import opened Syntax
  import opened Ir
  import opened Source
  import opened Translate
  import opened Represent
  import opened Static
  import opened Preserve

  /** From `entry` on stands the code of `fn`, and there is no function of that name before. */
  ghost predicate FirstAt(code: Code, fn: Function, entry: nat, t: nat, l: nat) {
    && Inside(code, entry, TransFunction(fn, t, l).code)
    && forall j :: 0 <= j < entry ==> code[j] != FUNC(fn.name)
  }

  /** From `from` on there is nothing but NULL up to `to`, where a function begins or the code ends. */
  ghost predicate QuietBetween(code: Code, from: nat, to: nat) {
    && from <= to <= |code| && (forall j :: from <= j < to ==> code[j] == NULL)
    && (to == |code| || code[to].FUNC?)
  }

  lemma QuietDeeper(a: Code, b: Code, from: nat, to: nat)
    requires QuietBetween(b, from, to)
    ensures QuietBetween(a + b, |a| + from, |a| + to)
  {
    forall j | |a| + from <= j < |a| + to ensures (a + b)[j] == NULL {
      assert (a + b)[j] == b[j - |a|];
    }
  }

  /** Where the first function of a program begins. */
  lemma {:induction false} FirstFunction(p: Program, t: nat, l: nat) returns (to: nat)
    ensures QuietBetween(TransProgram(p, t, l).code, 0, to)
    decreases |p|
  {
    to := 0;
    if p == [] {
      to := 1;
    } else if p[0].Declaration? {
      var b := TransProgram(p[1..], t, l);
      to := FirstFunction(p[1..], t, l);
      QuietDeeper([NULL], b.code, 0, to);
      to := 1 + to;
    }
  }

  lemma {:induction false} Locate(p: Program, f: string, t: nat, l: nat)
    returns (entry: nat, t': nat, l': nat, next: nat)
    requires FindFunction(p, f).Some?
    ensures FindFunction(p, f).value.name == f
    ensures FirstAt(TransProgram(p, t, l).code, FindFunction(p, f).value, entry, t', l')
    ensures QuietBetween(TransProgram(p, t, l).code, entry + |TransFunction(FindFunction(p, f).value, t', l').code|,
                         next)
    decreases |p|
  {
    hide TransFunction, FirstAt, QuietBetween;
    var a := if p[0].Declaration? then StmtCode([NULL], t, l) else TransFunction(p[0].fn, t, l);
    var b := TransProgram(p[1..], a.t, a.l);
    if p[0].Definition? && p[0].fn.name == f {
      entry, t', l' := 0, t, l;
      next := FoundFirst(p, t, l);
    } else {
      var inner;
      inner, t', l', next := Locate(p[1..], f, a.t, a.l);
      entry := |a.code| + inner;
      QuietDeeper(a.code, b.code, inner + |TransFunction(FindFunction(p, f).value, t', l').code|, next);
      next := |a.code| + next;
      if p[0].Definition? {
        OnlyHead(p[0].fn, t, l);
      }
      Deeper(a.code, b.code, FindFunction(p, f).value, inner, t', l');
    }
  }

  lemma FoundFirst(p: Program, t: nat, l: nat) returns (next: nat)
    requires p != [] && p[0].Definition?
    ensures FirstAt(TransProgram(p, t, l).code, p[0].fn, 0, t, l)
    ensures QuietBetween(TransProgram(p, t, l).code, |TransFunction(p[0].fn, t, l).code|, next)
  {
    hide TransFunction;
    var a := TransFunction(p[0].fn, t, l);
    next := FirstFunction(p[1..], a.t, a.l);
    QuietDeeper(a.code, TransProgram(p[1..], a.t, a.l).code, 0, next);
    next := |a.code| + next;
  }

  lemma Deeper(a: Code, b: Code, fn: Function, inner: nat, t: nat, l: nat)
    requires FirstAt(b, fn, inner, t, l) && forall j :: 0 <= j < |a| ==> a[j] != FUNC(fn.name)
    ensures FirstAt(a + b, fn, |a| + inner, t, l)
  {
    var part := TransFunction(fn, t, l).code;
    assert (a + b)[|a| + inner..|a| + inner + |part|] == b[inner..inner + |part|];
  }

  /** The code of a function has its FUNC instruction in front and no other. */
  lemma OnlyHead(fn: Function, t: nat, l: nat)
    ensures var code := TransFunction(fn, t, l).code;
            code[0] == FUNC(fn.name) && forall j :: 0 < j < |code| ==> !code[j].FUNC?
  {
    var code, body := TransFunction(fn, t, l).code, TransBody(fn, t, l).code;
    BodyTidy(fn, t, l);
    ParamsAreParams(fn.params);
    forall j | 0 < j < |code| ensures !code[j].FUNC? {
      if j > |fn.params| {
        assert NotHead(body, j - 1 - |fn.params|);
      }
    }
  }

  /** Code after a FUNC instruction belongs to that function up to the next one. */
  lemma {:induction false} BelongsTo(code: Code, entry: nat, pc: nat, f: string)
    requires entry < pc <= |code| && code[entry] == FUNC(f)
    requires forall j :: entry < j < pc ==> !code[j].FUNC?
    ensures FnAt(code, pc) == Some(f)
    decreases pc
  {
    if pc > entry + 1 {
      BelongsTo(code, entry, pc - 1, f);
    }
  }

  lemma PlacedThere(m: Machine, fn: Function, entry: nat, t: nat, l: nat)
    requires FirstAt(m.code, fn, entry, t, l)
    ensures Find(m.code, 0, FUNC(fn.name)) == Some(entry)
    ensures Placed(m, entry + 1, TransParams(fn.params) + TransBody(fn, t, l).code, fn.name)
  {
    var whole, code := TransFunction(fn, t, l).code, TransParams(fn.params) + TransBody(fn, t, l).code;
    assert whole == [FUNC(fn.name)] + code;
    OnlyHead(fn, t, l);
    FindSkips(m.code, 0, entry, FUNC(fn.name));
    forall j | 0 <= j < |whole| ensures m.code[entry + j] == whole[j] {
      assert m.code[entry + j] == m.code[entry..entry + |whole|][j];
    }
    forall j | entry < j < entry + |whole| ensures !m.code[j].FUNC? {
      assert m.code[entry + (j - entry)] == whole[j - entry];
    }
    forall i {:trigger PlacedAt(m, entry + 1, code, fn.name, i)} | 0 <= i <= |code|
      ensures PlacedAt(m, entry + 1, code, fn.name, i)
    {
      BelongsTo(m.code, entry, entry + 1 + i, fn.name);
      assert i < |code| ==> m.code[entry + (1 + i)] == whole[1 + i];
    }
  }

  /** Each function's frame has room for its variables. */
  ghost predicate Settled(m: Machine, p: Program) {
    && (forall i :: 0 <= i < |p| && p[i].Definition? ==> GoodFunction(m, p[i].fn))
    && forall i, f :: 0 <= i < |m.code| && m.code[i].DEC? && FnAt(m.code, i) == Some(f) ==>
         Variable(m.code[i].name) in m.layout(f).slots
  }

  lemma {:induction false} FoundDefined(p: Program, f: string)
    requires FindFunction(p, f).Some?
    ensures exists i :: 0 <= i < |p| && p[i].Definition? && p[i].fn == FindFunction(p, f).value
    decreases |p|
  {
    if !(p[0].Definition? && p[0].fn.name == f) {
      FoundDefined(p[1..], f);
      var i :| 0 <= i < |p[1..]| && p[1..][i].Definition? && p[1..][i].fn == FindFunction(p[1..], f).value;
      assert p[i + 1] == p[1..][i];
    }
  }

  /** Every function that can be called has been compiled. */
  lemma FunctionCompiled(m: Machine, p: Program, t: nat, l: nat, f: string)
    returns (entry: nat, t': nat, l': nat, next: nat)
    requires m.code == TransProgram(p, t, l).code && Settled(m, p) && FindFunction(p, f).Some?
    ensures var fn := FindFunction(p, f).value;
            && fn.name == f && GoodFunction(m, fn) && Compiled(m, fn, entry, t', l')
            && QuietBetween(m.code, entry + |TransFunction(fn, t', l').code|, next)
  {
    hide TransProgram, TransBody, TransParams, FindFunction;
    var fn := FindFunction(p, f).value;
    entry, t', l', next := Locate(p, f, t, l);
    FoundDefined(p, f);
    PlacedThere(m, fn, entry, t', l');
    Split(m, entry + 1, TransParams(fn.params), TransBody(fn, t', l').code, f);
    BodyCovered(m, p, entry + 1 + |TransParams(fn.params)|, TransBody(fn, t', l').code, f);
  }

  lemma BodyCovered(m: Machine, p: Program, pc: nat, body: Code, f: string)
    requires Settled(m, p) && Placed(m, pc, body, f)
    ensures Covered(m.layout(f).slots, body)
  {
    forall i | 0 <= i < |body| && body[i].DEC? ensures Variable(body[i].name) in m.layout(f).slots {
      InstrAt(m, pc, body, f, i);
    }
  }

  lemma ProgramLinked(m: Machine, p: Program, t: nat, l: nat)
    requires m.code == TransProgram(p, t, l).code && Settled(m, p)
    ensures Linked(m, p)
  {
    LabelClosure(p, t, l);
    forall f ensures LinkedTo(m, p, f) {
      if FindFunction(p, f).Some? {
        var entry, t', l', _ := FunctionCompiled(m, p, t, l, f);
      }
    }
  }

  /** The machine about to run `main`, whose parameters are bound already. */
  function Launch(entry: nat, fp: int, input: seq<int>): State {
    Ready(entry + 1, FirstFrame("main", fp), [], Console(input, []))
  }

  /** A terminating run of the source program is matched by its three-address code: the same
      result and the same exchange with the console, unless the stack is too small for a call. */
  lemma ProgramOk(m: Machine, p: Program, t: nat, l: nat, fp: int, input: seq<int>, fuel: nat, v: int, io: Console)
    returns (entry: nat)
    requires m.code == TransProgram(p, t, l).code && Settled(m, p) && Fits(m, "main", fp)
    requires Run(p, input, fuel) == Some((v, io))
    ensures Find(m.code, 0, FUNC("main")) == Some(entry)
    ensures Gets(m, Launch(entry, fp, input), Halted(v, io))
  {
    hide TransProgram;
    var fn := FindFunction(p, "main").value;
    var t', l';
    ProgramLinked(m, p, t, l);
    entry, t', l' := FunctionOf(m, p, "main", fn);
    var s, fr := FirstStore(input), FirstFrame("main", fp);
    assert Represents(m, fn.vars, s, fr);
    var body := TransBody(fn, t', l');
    assert TransParams(fn.params) + body.code == body.code;
    var out := ExecBody(p, fn, s, fuel).value;
    var _ := BodyOk(m, p, fn, body, t', l', entry + 1, s, fr, [], fuel, out);
  }

  /** No other result is possible: where the three-address code halts, it does so with this one. */
  lemma ProgramExactly(m: Machine, p: Program, t: nat, l: nat, fp: int, input: seq<int>, fuel: nat, v: int, io: Console,
                       entry: nat, w: int, io': Console)
    requires m.code == TransProgram(p, t, l).code && Settled(m, p) && Fits(m, "main", fp)
    requires Run(p, input, fuel) == Some((v, io)) && Find(m.code, 0, FUNC("main")) == Some(entry)
    requires Reaches(m, Launch(entry, fp, input), Halted(w, io'))
    ensures w == v && io' == io
  {
    var _ := ProgramOk(m, p, t, l, fp, input, fuel, v, io);
    HaltsOnce(m, Launch(entry, fp, input), Halted(v, io), Halted(w, io'));
  }

  /** A function that falls off its end without returning: control arrives behind its last instruction and
      goes on over NULL to where the next function begins, or the code ends. The three-address machine is
      stuck there; the source program has no meaning. */
  lemma FallsOff(m: Machine, p: Program, t: nat, l: nat, fn: Function, s: Store, fr: Frame, ks: seq<Caller>,
                 fuel: nat, s': Store)
    returns (entry: nat, t': nat, l': nat, next: nat, fr': Frame)
    requires m.code == TransProgram(p, t, l).code && Settled(m, p) && FindFunction(p, fn.name) == Some(fn)
    requires fr.fn == fn.name && Represents(m, fn.vars, s, fr)
    requires ExecBody(p, fn, s, fuel) == Some(Normal(s'))
    ensures Compiled(m, fn, entry, t', l') && QuietBetween(m.code, entry + |TransFunction(fn, t', l').code|, next)
    ensures Gets(m, Ready(entry + 1 + |fn.params|, fr, ks, s.io), Ready(next, fr', ks, s'.io))
    ensures Represents(m, fn.vars, s', fr') && Step(m, Ready(next, fr', ks, s'.io)) == None
  {
    hide TransProgram, TransBody, ExecBody;
    ProgramLinked(m, p, t, l);
    entry, t', l', next := FunctionCompiled(m, p, t, l, fn.name);
    assert BodyYields(p, fn, s, fuel, Normal(s'));
    fr' := CalleeBody(m, p, fn, entry, t', l', s, fr, ks, fuel, Normal(s'));
    ParamsAreParams(fn.params);
    var end := entry + |TransFunction(fn, t', l').code|;
    PastNulls(m, end, next, fr', ks, s'.io);
    Arrive(m, Ready(entry + 1 + |fn.params|, fr, ks, s.io), Ready(end, fr', ks, s'.io), Ready(next, fr', ks, s'.io));
  }

  lemma {:induction false} PastNulls(m: Machine, from: nat, to: nat, fr: Frame, ks: seq<Caller>, io: Console)
    requires QuietBetween(m.code, from, to)
    ensures Reaches(m, Ready(from, fr, ks, io), Ready(to, fr, ks, io))
    decreases |m.code| - from
  {
    if from == to {
      Stay(m, Ready(from, fr, ks, io));
    } else {
      StepSkip(m, from, fr, ks, io);
      PastNulls(m, from + 1, to, fr, ks, io);
      Then(m, Ready(from, fr, ks, io), Ready(from + 1, fr, ks, io), Ready(to, fr, ks, io));
    }
  }
}
