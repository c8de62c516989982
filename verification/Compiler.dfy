/** The compiler as a whole: source text in, MIPS text out. */
module Compiler {
  import opened Common
  import opened Syntax
  import opened Layout
  import opened Ir
  import opened Source
  import opened Translate
  import opened Represent
  import opened Fragments
  import opened Static
  import opened Link
  import opened Format
  import opened FormatOk
  import opened Frames
  import opened Mips
  import opened CodeGen
  import opened Slots
  import opened Calls
  import opened Emitted
  import opened Simulate
  import opened Execution

  /** The three-address code of a program after formatting. */
  function FormattedCode(p: Program): Code {
    var o := TransProgram(p, 0, 0);
    Whole(o.code, o.t)
  }

  function LayoutOf(code: Code, sizes: Sizes): string -> FrameLayout {
    f => FrameOf(code, |code|, f, sizes(f))
  }

  function MachineOf(p: Program, sizes: Sizes): Machine {
    Machine(FormattedCode(p), LayoutOf(FormattedCode(p), sizes))
  }

  // ----- what is asked of a program -----

  /** `sizes` gives every variable the size of its type, in whole words, and whatever an instruction assigns
      is a word at least. */
  ghost predicate Measured(p: Program, sizes: Sizes) {
    && (forall i, x :: 0 <= i < |p| && p[i].Definition? && x in p[i].fn.vars ==>
          sizes(p[i].fn.name)(Variable(x)) == SizeOf(p[i].fn.vars[x]))
    && (forall f, op :: sizes(f)(op) % 4 == 0)
    && forall i {:trigger RoomFor(FormattedCode(p), sizes, i)} :: 0 <= i < |FormattedCode(p)| ==>
         RoomFor(FormattedCode(p), sizes, i)
  }

  ghost predicate RoomFor(code: Code, sizes: Sizes, i: nat)
    requires i < |code|
  {
    forall f, op :: FnAt(code, i) == Some(f) && op in GivesOf(code[i]) ==> sizes(f)(op) >= 4
  }

  // ----- the frames -----

  ghost predicate InWords(lay: FrameLayout) {
    && lay.size % 4 == 0 && (lay.slots == map[] ==> lay.size == 0)
    && forall op :: op in lay.slots ==> lay.slots[op].offset % 4 == 0
  }

  lemma {:induction false} HandleInWords(lay: FrameLayout, ops: seq<Operand>, sizes: Operand -> nat)
    requires InWords(lay) && forall op :: sizes(op) % 4 == 0
    ensures InWords(HandleAll(lay, ops, sizes))
    decreases |ops|
  {
    if ops != [] {
      var first := if HasSlot(ops[0]) then Handle(lay, ops[0], sizes(ops[0])) else lay;
      assert ops[0] in AddSlot(lay, ops[0], sizes(ops[0])).slots;
      HandleInWords(first, ops[1..], sizes);
    }
  }

  lemma {:induction false} FrameInWords(code: Code, n: nat, f: string, sizes: Operand -> nat)
    requires n <= |code| && forall op :: sizes(op) % 4 == 0
    ensures InWords(FrameOf(code, n, f, sizes))
    decreases n
  {
    if n > 0 {
      FrameInWords(code, n - 1, f, sizes);
      HandleInWords(FrameOf(code, n - 1, f, sizes), Tracked(code[n - 1]), sizes);
    }
  }

  lemma FramesAreWords(m: Machine, p: Program, sizes: Sizes)
    requires m == MachineOf(p, sizes) && Measured(p, sizes)
    ensures forall f :: WordLayout(m.layout(f))
  {
    forall f ensures WordLayout(m.layout(f)) {
      FrameIsSound(m.code, |m.code|, f, sizes(f));
      FrameInWords(m.code, |m.code|, f, sizes(f));
    }
  }

  /** The frames have a slot for whatever the code of their function names. */
  lemma FramesCover(m: Machine, p: Program, sizes: Sizes, i: nat)
    requires m == MachineOf(p, sizes) && Measured(p, sizes) && i < |m.code|
    ensures CoveredAt(m, i)
  {
    assert RoomFor(m.code, sizes, i);
    forall f, op | FnAt(m.code, i) == Some(f) && op in Tracked(m.code[i]) && HasSlot(op)
      ensures op in m.layout(f).slots && (op in GivesOf(m.code[i]) ==> HasWord(m.layout(f), op)) {
      FrameCovers(m.code, |m.code|, f, sizes(f), i, op);
      FrameIsSound(m.code, |m.code|, f, sizes(f));
    }
  }

  /** The frames made for the formatted code suit the code before formatting. */
  lemma FramesSettled(m1: Machine, m2: Machine, p: Program, sizes: Sizes)
    requires m2 == MachineOf(p, sizes) && Measured(p, sizes)
    requires m1 == Machine(TransProgram(p, 0, 0).code, m2.layout)
    ensures Settled(m1, p)
  {
    hide TransProgram, FnAt;
    var t := TransProgram(p, 0, 0).t;
    forall i | 0 <= i < |p| && p[i].Definition? ensures GoodFunction(m1, p[i].fn) {
      FrameIsSound(m2.code, |m2.code|, p[i].fn.name, sizes(p[i].fn.name));
    }
    forall i, f | 0 <= i < |m1.code| && m1.code[i].DEC? && FnAt(m1.code, i) == Some(f)
      ensures Variable(m1.code[i].name) in m1.layout(f).slots
    {
      SingleThere(m1.code, i, t);
      FnThere(m1.code, i, t);
      FramesCover(m2, p, sizes, Pos(m1.code, i, t));
      assert Variable(m1.code[i].name) in Tracked(m1.code[i]);
    }
  }

  // ----- the formatted code -----

  /** The formatted code of a program can be translated to MIPS. */
  lemma ProgramCodable(m: Machine, p: Program, sizes: Sizes) returns (im: Image)
    requires m == MachineOf(p, sizes) && Measured(p, sizes) && FewArguments(m.code) && ArgsClear(m.code)
    ensures Codable(m, im) && im.text == TextOf(m, sizes) && im.sizes == sizes
  {
    var o := TransProgram(p, 0, 0);
    ProgramOrderly(p, 0, 0);
    BracketsKept(o.code, o.t);
    FramesAreWords(m, p, sizes);
    forall i ensures 0 <= i < |o.code| ==> WellShaped(o.code[i]) {
      assert 0 <= i < |o.code| ==> InstrOk(o.code, i, o.t, Drawn(0, o.l));
    }
    forall i {:trigger ShapeAt(m.code, i)} | 0 <= i < |m.code| ensures ShapeAt(m.code, i) {
      ResultIsFlat(o.code, o.t, i);
      ResultIsWellShaped(o.code, o.t, i);
    }
    forall i {:trigger CoveredAt(m, i)} | 0 <= i < |m.code| ensures CoveredAt(m, i) {
      FramesCover(m, p, sizes, i);
    }
    im := Build(m, sizes);
    assert im.text == TextOf(m, sizes) by { assert Unfold(0); }
  }

  // ----- from source to MIPS -----

  /** The processor as the simulator starts a program: control at `main`, the stack pointer above the
      place for the first frame. */
  ghost predicate Booted(m: Machine, text: Text32, s: Cpu, input: seq<int>) {
    && Lookup(text, 0, Fn("main")) == Some(s.pc) && s.input == input && s.out == []
    && |s.core.regs| == 32 && Reg(s.core, ZERO) == 0 && Reg(s.core, RA) == EXIT
    && Reg(s.core, SP) % 4 == 0 && 8 + m.layout("main").size <= Reg(s.core, SP) <= INT_MAX
  }

  /** `main` has returned `v`; the console has been used as `io` says. */
  predicate Finished(s: Cpu, v: int, io: Console) {
    s.pc == EXIT && Reg(s.core, V0) == v && SameConsole(io, s)
  }

  /** The processor is in front of a call for whose frame there is no room below $sp. */
  ghost predicate OutOfStack(m: Machine, im: Image, s: Cpu) {
    exists i: nat :: i < |m.code| && NoRoomFor(m, im, s, i)
  }

  /** The call takes the arguments from the fifth on, two saved registers and the slots of its function; one word
      more is kept for the return address while an integer is read or written. */
  ghost predicate NoRoomFor(m: Machine, im: Image, s: Cpu, i: nat)
    requires i < |m.code|
  {
    && m.code[i].CALL? && s.pc == im.start(i)
    && Reg(s.core, SP) < 4 * StackArgs(|ArgRun(m.code, i)|) + 8 + m.layout(m.code[i].name).size + 4
  }

  lemma Launched(m: Machine, im: Image, s: Cpu, entry: nat, input: seq<int>) returns (s': Cpu)
    requires Codable(m, im) && Booted(m, im.text, s, input)
    requires entry < |m.code| && Find(m.code, 0, FUNC("main")) == Some(entry) && Params(m.code, entry + 1) == []
    ensures Runs(im.text, s, s') && Matches(m, im, Launch(entry, Reg(s.core, SP) - 4, input), s')
  {
    var fp := Reg(s.core, SP) - 4;
    LookupIn(m, im, FUNC("main"));
    FindFinds(m.code, 0, FUNC("main"));
    var fr := FirstFrame("main", fp);
    assert Delivered(s.core, [], fp, Reg(s.core, FP), Load(s.core.mem, fp + 4));
    s' := EnterFunction(m, im, fr, entry, s, [], Reg(s.core, FP), Load(s.core.mem, fp + 4));
    Arrives(m, im, entry + 1, fr, [], Console(input, []), s');
  }

  lemma ExhaustedIsOutOfStack(m: Machine, im: Image, st: State, s: Cpu)
    requires Codable(m, im) && Matches(m, im, st, s) && Exhausted(m, st)
    ensures OutOfStack(m, im, s)
  {
    assert Unfold(0);
    assert NoRoomFor(m, im, s, st.pc);
  }

  /** The formatted code does what the source program means. */
  lemma FormattedOk(p: Program, sizes: Sizes, fp: int, input: seq<int>, fuel: nat, v: int, io: Console)
    returns (entry: nat)
    requires Measured(p, sizes) && Fits(MachineOf(p, sizes), "main", fp)
    requires Run(p, input, fuel) == Some((v, io))
    ensures var m := MachineOf(p, sizes);
            && entry < |m.code| && Find(m.code, 0, FUNC("main")) == Some(entry) && Params(m.code, entry + 1) == []
            && Gets(m, Launch(entry, fp, input), Halted(v, io))
  {
    var o, m2 := TransProgram(p, 0, 0), MachineOf(p, sizes);
    var m1 := Machine(o.code, m2.layout);
    FramesSettled(m1, m2, p, sizes);
    ProgramOrderly(p, 0, 0);
    var entry1 := ProgramOk(m1, p, 0, 0, fp, input, fuel, v, io);
    NoParamsOfMain(m1, p, entry1, input, fuel);
    assert Formats(m1, m2, o.t, Drawn(0, o.l));
    entry := LaunchLike(m1, m2, o.t, Drawn(0, o.l), entry1, fp, input);
    FormatPreserves(m1, m2, o.t, Drawn(0, o.l), Launch(entry1, fp, input), Launch(entry, fp, input), v, io);
  }

  /** No other result is possible: where the formatted code halts, it does so with this one. */
  lemma FormattedExactly(p: Program, sizes: Sizes, fp: int, input: seq<int>, fuel: nat, v: int, io: Console,
                         entry: nat, w: int, io': Console)
    requires Measured(p, sizes) && Fits(MachineOf(p, sizes), "main", fp)
    requires Run(p, input, fuel) == Some((v, io)) && Find(FormattedCode(p), 0, FUNC("main")) == Some(entry)
    requires Reaches(MachineOf(p, sizes), Launch(entry, fp, input), Halted(w, io'))
    ensures w == v && io' == io
  {
    var _ := FormattedOk(p, sizes, fp, input, fuel, v, io);
    HaltsOnce(MachineOf(p, sizes), Launch(entry, fp, input), Halted(v, io), Halted(w, io'));
  }

  lemma LaunchLike(m1: Machine, m2: Machine, t: nat, targets: set<int>, entry1: nat, fp: int, input: seq<int>)
    returns (entry: nat)
    requires Formats(m1, m2, t, targets) && Find(m1.code, 0, FUNC("main")) == Some(entry1)
    requires entry1 < |m1.code| && Params(m1.code, entry1 + 1) == []
    ensures entry < |m2.code| && Find(m2.code, 0, FUNC("main")) == Some(entry) && Params(m2.code, entry + 1) == []
    ensures StateLike(m1.code, Launch(entry1, fp, input), Launch(entry, fp, input), t)
  {
    FindThere(m1.code, t, FUNC("main"));
    FindFinds(m1.code, 0, FUNC("main"));
    SingleThere(m1.code, entry1, t);
    ParamsThere(m1.code, entry1 + 1, t);
    entry := Pos(m1.code, entry1, t);
  }

  lemma MainTakesNothing(p: Program, input: seq<int>, fuel: nat)
    requires Run(p, input, fuel).Some?
    ensures FindFunction(p, "main").Some? && FindFunction(p, "main").value.params == []
  {
  }

  lemma NoParamsOfMain(m: Machine, p: Program, entry: nat, input: seq<int>, fuel: nat)
    requires m.code == TransProgram(p, 0, 0).code && Settled(m, p) && Run(p, input, fuel).Some?
    requires Find(m.code, 0, FUNC("main")) == Some(entry)
    ensures entry < |m.code| && Params(m.code, entry + 1) == []
  {
    hide TransProgram, TransBody, Run, FindFunction;
    MainTakesNothing(p, input, fuel);
    var fn := FindFunction(p, "main").value;
    var entry', t, l, _ := FunctionCompiled(m, p, 0, 0, "main");
    var body := TransBody(fn, t, l).code;
    assert TransParams(fn.params) + body == body;
    BodyStart(fn, t, l);
    InstrAt(m, entry + 1, body, "main", 0);
  }

  /** The compiler is correct: if the source program runs to its end with result `v` and exchange `io`,
      the emitted text, run on the processor, ends with `v` in $v0 after exactly that exchange, unless
      it comes to a call for which the stack is too small. */
  lemma CompilerCorrect(p: Program, sizes: Sizes, s: Cpu, input: seq<int>, fuel: nat, v: int, io: Console)
    returns (im: Image, s': Cpu)
    requires Measured(p, sizes) && FewArguments(FormattedCode(p)) && ArgsClear(FormattedCode(p))
    requires Booted(MachineOf(p, sizes), TextOf(MachineOf(p, sizes), sizes), s, input)
    requires Run(p, input, fuel) == Some((v, io))
    ensures Built(MachineOf(p, sizes), im) && im.sizes == sizes
    ensures im.text == TextOf(MachineOf(p, sizes), sizes) && Runs(im.text, s, s')
    ensures Finished(s', v, io) || OutOfStack(MachineOf(p, sizes), im, s')
  {
    var m := MachineOf(p, sizes);
    im := ProgramCodable(m, p, sizes);
    var fp := Reg(s.core, SP) - 4;
    var entry := FormattedOk(p, sizes, fp, input, fuel, v, io);
    var s1 := Launched(m, im, s, entry, input);
    s' := RunsToEnd(m, im, Launch(entry, fp, input), s1, v, io);
    RunsThen(im.text, s, s1, s');
  }

  lemma RunsToEnd(m: Machine, im: Image, st: State, s: Cpu, v: int, io: Console) returns (s': Cpu)
    requires Codable(m, im) && Matches(m, im, st, s) && Gets(m, st, Halted(v, io))
    ensures Runs(im.text, s, s') && (Finished(s', v, io) || OutOfStack(m, im, s'))
  {
    assert Unfold(0);
    var run :| IsRun(m, run) && run[0] == st && (run[|run| - 1] == Halted(v, io) || Exhausted(m, run[|run| - 1]));
    s' := RunMatches(m, im, run, s);
    if run[|run| - 1] != Halted(v, io) {
      ExhaustedIsOutOfStack(m, im, run[|run| - 1], s');
    }
  }
}
