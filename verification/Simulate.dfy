/** The emitted text does what the three-address code does. After every instruction each variable's
    value is in its frame slot; only $sp, $fp and $ra carry anything from one to the next. */
module Simulate {
  import opened Common
  import opened Syntax
  import opened Ir
  import opened Static
  import opened Format
  import opened Frames
  import opened Mips
  import opened CodeGen
  import opened Slots
  import opened Blocks
  import opened Calls
  import opened Emitted

  // ----- what is asked of the three-address code -----

  predicate ShapeAt(code: Code, i: nat)
    requires i < |code|
  {
    WellShaped(code[i]) && Flat(code[i])
  }

  ghost predicate CoveredAt(m: Machine, i: nat)
    requires i < |m.code|
  {
    forall f, op :: FnAt(m.code, i) == Some(f) && op in Tracked(m.code[i]) && HasSlot(op) ==>
      op in m.layout(f).slots && (op in GivesOf(m.code[i]) ==> HasWord(m.layout(f), op))
  }

  /** No call passes on the stack both a reference parameter and the first word of what it refers to. */
  ghost predicate ArgsClear(code: Code) {
    forall i {:trigger ClearAt(code, i)} :: 0 <= i < |code| ==> ClearAt(code, i)
  }

  ghost predicate ClearAt(code: Code, i: nat)
    requires i < |code|
  {
    code[i].CALL? ==> NoClash(ArgRun(code, i))
  }

  /** Formatted code whose frames have been laid out. */
  ghost predicate Codable(m: Machine, im: Image) {
    && Built(m, im) && Bracketed(m.code) && ArgsClear(m.code)
    && (forall f :: WordLayout(m.layout(f)))
    && (forall i {:trigger ShapeAt(m.code, i)} :: 0 <= i < |m.code| ==> ShapeAt(m.code, i))
    && (forall i {:trigger CoveredAt(m, i)} :: 0 <= i < |m.code| ==> CoveredAt(m, i))
  }

  // ----- the stack of suspended activations -----

  /** The activations that wait for `fr` have the objects that `k` knows. */
  ghost predicate Inherits(fr: Frame, k: Frame) {
    && fr.depth == k.depth + 1
    && (forall h :: h in k.objects ==> h.depth <= k.depth && h in fr.objects)
    && (forall h :: h in fr.objects && h.depth < fr.depth ==> h in k.objects && fr.objects[h] == k.objects[h])
  }

  /** The activation `k` waits for `fr`. */
  ghost predicate Waiting(m: Machine, im: Image, mem: map<int, int>, fr: Frame, k: Caller, ra: int)
  {
    && 0 < k.ret <= |m.code| && m.code[k.ret - 1].CALL? && m.code[k.ret - 1].dst == k.dst
    && FnAt(m.code, k.ret) == Some(k.frame.fn)
    && ra == im.back(k.ret - 1)
    && fr.fp == CalleeFp(m, k.frame, |ArgRun(m.code, k.ret - 1)|) && 0 <= fr.fp
    && Load(mem, fr.fp) == k.frame.fp
    && InMemory(m, k.frame, mem) && k.frame.mem == map[] && Inherits(fr, k.frame)
  }

  /** Memory from `fr` on: each saved frame pointer and return address leads to the next activation. */
  ghost predicate Chain(m: Machine, im: Image, mem: map<int, int>, fr: Frame, ks: seq<Caller>, ra: int)
    decreases |ks|
  {
    if ks == [] then ra == EXIT && fr.depth == 0
    else
      && Waiting(m, im, mem, fr, ks[0], ra)
      && Chain(m, im, mem, ks[0].frame, ks[1..], Load(mem, fr.fp + 4))
  }

  ghost predicate SameFrom(mem: map<int, int>, mem': map<int, int>, fp: int) {
    forall a {:trigger Load(mem', a)} :: fp <= a ==> Load(mem', a) == Load(mem, a)
  }

  lemma InMemoryKept(m: Machine, fr: Frame, mem: map<int, int>, mem': map<int, int>, fp: int)
    requires InMemory(m, fr, mem) && SameFrom(mem, mem', fp) && fp <= fr.fp - m.layout(fr.fn).size
    ensures InMemory(m, fr, mem')
  {
    forall op | op in fr.env ensures SlotHolds(m, fr, mem', op) {
      assert SlotHolds(m, fr, mem, op);
      SlotInFrame(m, fr, op);
    }
    forall a | a in fr.mem ensures CellHolds(fr, mem', a) {
      assert CellHolds(fr, mem, a);
      var _ := CellInStack(m, fr, mem, a);
    }
  }

  /** A waiting frame does not notice what its callee `fr` does to the objects of waiting activations. */
  lemma WaitingKept(m: Machine, k: Frame, mem: map<int, int>, mem': map<int, int>, fr: Frame)
    requires InMemory(m, k, mem) && k.mem == map[] && Inherits(fr, k) && SameAbove(fr, mem, mem')
    requires fr.fp <= k.fp - m.layout(k.fn).size
    ensures InMemory(m, k, mem')
  {
    forall op | op in k.env ensures SlotHolds(m, k, mem', op) {
      assert SlotHolds(m, k, mem, op);
      SlotInFrame(m, k, op);
      if OuterCell(fr, SlotAddr(m, k, op)) {
        OuterIsCell(fr, k, SlotAddr(m, k, op));
        SlotIsNoCell(m, k, mem, op, SlotAddr(m, k, op));
      }
    }
  }

  lemma OuterIsCell(fr: Frame, k: Frame, a: int)
    requires Inherits(fr, k) && OuterCell(fr, a)
    ensures IsCell(k, a)
  {
    var h :| h in fr.objects && h.depth < fr.depth && InRegion(fr.objects[h], a);
    assert h in k.objects && InRegion(k.objects[h], a);
  }

  /** Above the waiting frame `k` only cells of activations that wait for it can have changed. */
  lemma AboveToo(m: Machine, k: Frame, mem: map<int, int>, mem': map<int, int>, fr: Frame)
    requires InMemory(m, k, mem) && Inherits(fr, k) && SameAbove(fr, mem, mem') && fr.fp <= k.fp
    ensures SameAbove(k, mem, mem')
  {
    forall a {:trigger Load(mem', a)} | k.fp <= a && !OuterCell(k, a) ensures Load(mem', a) == Load(mem, a) {
      if OuterCell(fr, a) {
        OuterIsCell(fr, k, a);
        IsOuter(m, k, mem, a);
      }
    }
  }

  lemma IsOuter(m: Machine, fr: Frame, mem: map<int, int>, a: int)
    requires InMemory(m, fr, mem) && IsCell(fr, a) && fr.fp <= a
    ensures OuterCell(fr, a)
  {
    var h := CellInStack(m, fr, mem, a);
    assert h.depth < fr.depth;
  }

  /** What happens below a frame, and to the objects it can reach, does not concern the activations
      that wait for it. */
  lemma {:induction false} ChainKept(m: Machine, im: Image, mem: map<int, int>, mem': map<int, int>, fr: Frame,
                                     ks: seq<Caller>, ra: int)
    requires Chain(m, im, mem, fr, ks, ra) && SameAbove(fr, mem, mem') && ObjectsPlaced(m, fr)
    requires forall f :: WordLayout(m.layout(f))
    ensures Chain(m, im, mem', fr, ks, ra)
    decreases |ks|
  {
    if ks != [] {
      var k := ks[0].frame;
      SavedWordsKept(m, mem, mem', fr);
      WaitingKept(m, k, mem, mem', fr);
      AboveToo(m, k, mem, mem', fr);
      ChainKept(m, im, mem, mem', k, ks[1..], Load(mem, fr.fp + 4));
    }
  }

  lemma SavedWordsKept(m: Machine, mem: map<int, int>, mem': map<int, int>, fr: Frame)
    requires SameAbove(fr, mem, mem') && ObjectsPlaced(m, fr)
    ensures Load(mem', fr.fp) == Load(mem, fr.fp) && Load(mem', fr.fp + 4) == Load(mem, fr.fp + 4)
  {
    if OuterCell(fr, fr.fp) {
      OuterIsAbove(m, fr, fr.fp);
    }
    if OuterCell(fr, fr.fp + 4) {
      OuterIsAbove(m, fr, fr.fp + 4);
    }
  }

  /** The chain depends on a frame's place and objects only. */
  lemma ChainLike(m: Machine, im: Image, mem: map<int, int>, fr: Frame, fr': Frame, ks: seq<Caller>, ra: int)
    requires Chain(m, im, mem, fr, ks, ra) && fr'.fp == fr.fp && fr'.depth == fr.depth && SameOuter(fr, fr')
    ensures Chain(m, im, mem, fr', ks, ra)
  {
  }

  /** The two frames know the same objects of activations that wait. */
  ghost predicate SameOuter(fr: Frame, fr': Frame) {
    && (forall h :: h in fr.objects && h.depth < fr.depth ==> h in fr'.objects && fr'.objects[h] == fr.objects[h])
    && (forall h :: h in fr'.objects && h.depth < fr.depth ==> h in fr.objects)
  }

  // ----- the relation -----

  /** What the console shows. */
  function Shows(trace: seq<Event>): seq<Output> {
    if trace == [] then []
    else
      Shows(trace[..|trace| - 1]) +
      match trace[|trace| - 1]
      case ReadInt(v) => [Shown(Prompt), Took(v)]
      case WriteInt(v) => [Gave(v), Shown(NewLine)]
  }

  predicate SameConsole(io: Console, s: Cpu) {
    s.input == io.input && s.out == Shows(io.trace)
  }

  /** The processor is at work in `fr`, and `ks` wait for it (kept folded, like `Ir.Reaches`). */
  ghost predicate Busy(m: Machine, im: Image, fr: Frame, ks: seq<Caller>, c: Core)
  {
    forall k {:trigger Unfold(k)} :: Unfold(k) ==> AtWork(m, fr, c) && Chain(m, im, c.mem, fr, ks, Reg(c, RA))
  }

  ghost predicate Matches(m: Machine, im: Image, st: State, s: Cpu)
  {
    match st
    case Halted(v, io) => s.pc == EXIT && Reg(s.core, V0) == v && SameConsole(io, s)
    case Running(pc, fr, ks, args, io) =>
      && pc <= |m.code| && FnAt(m.code, pc) == Some(fr.fn)
      && s.pc == im.start(pc)
      && Busy(m, im, fr, ks, s.core)
      && Values(fr, ArgRun(m.code, pc), args)
      && SameConsole(io, s)
  }

  lemma BusyAfter(m: Machine, im: Image, fr: Frame, ks: seq<Caller>, c: Core, fr': Frame, c': Core)
    requires Codable(m, im) && Busy(m, im, fr, ks, c) && AtWork(m, fr', c')
    requires fr'.fp == fr.fp && fr'.depth == fr.depth && SameOuter(fr, fr')
    requires Reg(c', RA) == Reg(c, RA) && SameAbove(fr, c.mem, c'.mem)
    ensures Busy(m, im, fr', ks, c')
  {
    assert Unfold(0);
    ChainKept(m, im, c.mem, c'.mem, fr, ks, Reg(c, RA));
    ChainLike(m, im, c'.mem, fr, fr', ks, Reg(c', RA));
  }

  /** `code` is the text of the next instruction. */
  ghost predicate Next(m: Machine, im: Image, st: State, s: Cpu, code: Text32)
  {
    && st.Running? && st.pc < |m.code| && FnAt(m.code, st.pc + 1) == Some(st.frame.fn)
    && There(im.text, s.pc, code)
    && im.start(st.pc + 1) == s.pc + |code|
  }

  /** The block of the instruction that comes next. */
  lemma NextBlock(m: Machine, im: Image, st: State, s: Cpu) returns (lay: FrameLayout, h: seq<nat>)
    requires Codable(m, im) && st.Running? && Matches(m, im, st, s) && st.pc < |m.code| && !m.code[st.pc].FUNC?
    ensures Encodable(m.code, st.pc)
    ensures Extends(m.layout(st.frame.fn), lay)
    ensures Next(m, im, st, s, BlockFor(m.code, st.pc, lay, h, im.sizes(st.frame.fn)).code)
    ensures ShapeAt(m.code, st.pc)
    ensures forall op :: op in Tracked(m.code[st.pc]) && HasSlot(op) ==> op in m.layout(st.frame.fn).slots
    ensures forall op :: op in GivesOf(m.code[st.pc]) ==> HasWord(m.layout(st.frame.fn), op)
    ensures AtWork(m, st.frame, s.core)
  {
    hide GivesOf, Tracked, BlockFor;
    assert Unfold(0);
    lay, h := BlockIn(m, im, st.frame.fn, st.pc);
    assert CoveredAt(m, st.pc);
    GivenIsTracked(m.code[st.pc]);
  }

  // ----- instructions without jumps -----

  /** On to the next instruction. */
  lemma NextMatches(m: Machine, im: Image, st: State, s: Cpu, c: Core, st': State, s': Cpu)
    requires st.Running? && Matches(m, im, st, s) && st.pc < |m.code| && !m.code[st.pc].ARG?
    requires FnAt(m.code, st.pc + 1) == Some(st.frame.fn)
    requires st'.Running? && st' == st.(pc := st.pc + 1, frame := st'.frame) && st.args == []
    requires st'.frame.fn == st.frame.fn && Busy(m, im, st'.frame, st.callers, c)
    requires s' == s.(pc := im.start(st.pc + 1), core := c)
    ensures Matches(m, im, st', s')
  {
  }

  lemma StraightStep(m: Machine, im: Image, st: State, s: Cpu, code: Text32, st': State, c': Core) returns (s': Cpu)
    requires Codable(m, im) && st.Running? && Matches(m, im, st, s) && st.pc < |m.code| && !m.code[st.pc].ARG?
    requires Next(m, im, st, s, code)
    requires st'.Running? && st' == st.(pc := st.pc + 1, frame := st'.frame) && st.args == []
    requires st'.frame.fp == st.frame.fp && st'.frame.fn == st.frame.fn && st'.frame.depth == st.frame.depth
    requires SameOuter(st.frame, st'.frame)
    requires RunCore(code, s.core) == Some(c') && AtWork(m, st'.frame, c') && Mild(st.frame, s.core, c')
    ensures Runs(im.text, s, s') && Matches(m, im, st', s')
  {
    s' := s.(pc := s.pc + |code|, core := c');
    RunsCore(im.text, s, code, c');
    BusyAfter(m, im, st.frame, st.callers, s.core, st'.frame, c');
    NextMatches(m, im, st, s, c', st', s');
  }

  lemma AssignStep(m: Machine, im: Image, st: State, s: Cpu, st': State) returns (s': Cpu)
    requires Codable(m, im) && st.Running? && Matches(m, im, st, s) && st.pc < |m.code| && m.code[st.pc].ASSIGN?
    requires Step(m, st) == Some(st')
    ensures Runs(im.text, s, s') && Matches(m, im, st', s')
  {
    var ins, fr := m.code[st.pc], st.frame;
    var lay, h := NextBlock(m, im, st, s);
    var c' := AssignOk(m, fr, im.sizes(fr.fn), lay, h, ins.dst, ins.src, s.core, Get(fr, ins.src).value, st'.frame);
    s' := StraightStep(m, im, st, s, BlockFor(m.code, st.pc, lay, h, im.sizes(fr.fn)).code, st', c');
  }

  lemma ArithStep(m: Machine, im: Image, st: State, s: Cpu, st': State) returns (s': Cpu)
    requires Codable(m, im) && st.Running? && Matches(m, im, st, s) && st.pc < |m.code| && m.code[st.pc].ARITH?
    requires Step(m, st) == Some(st')
    ensures Runs(im.text, s, s') && Matches(m, im, st', s')
  {
    var ins, fr := m.code[st.pc], st.frame;
    var lay, h := NextBlock(m, im, st, s);
    var a, b := Get(fr, ins.src1).value, Get(fr, ins.src2).value;
    var c' := ArithOk(m, fr, im.sizes(fr.fn), lay, h, ins.op, ins.dst, ins.src1, ins.src2, s.core, a, b,
                      Compute(ins.op, a, b).value, st'.frame);
    s' := StraightStep(m, im, st, s, BlockFor(m.code, st.pc, lay, h, im.sizes(fr.fn)).code, st', c');
  }

  /** A declaration changes no memory. */
  lemma DeclareOk(m: Machine, fr: Frame, mem: map<int, int>, x: string)
    requires InMemory(m, fr, mem) && Variable(x) in m.layout(fr.fn).slots
    ensures InMemory(m, Aggregate(fr, x, m.layout(fr.fn).slots[Variable(x)]), mem)
    ensures SameOuter(fr, Aggregate(fr, x, m.layout(fr.fn).slots[Variable(x)]))
  {
    var fr' := Aggregate(fr, x, m.layout(fr.fn).slots[Variable(x)]);
    forall op | op in fr'.env ensures SlotHolds(m, fr', mem, op) {
      assert SlotHolds(m, fr, mem, op);
    }
    forall h | h in fr'.objects ensures InStack(m, fr', h) {
      assert h in fr.objects ==> InStack(m, fr, h);
    }
    forall a | a in fr'.mem ensures CellHolds(fr', mem, a) {
      assert CellHolds(fr, mem, a);
      CellSurvives(m, fr, x, a);
    }
  }

  lemma CellSurvives(m: Machine, fr: Frame, x: string, a: int)
    requires ObjectsPlaced(m, fr) && IsCell(fr, a) && Variable(x) in m.layout(fr.fn).slots
    ensures IsCell(Aggregate(fr, x, m.layout(fr.fn).slots[Variable(x)]), a)
  {
    var fr' := Aggregate(fr, x, m.layout(fr.fn).slots[Variable(x)]);
    var h :| h in fr.objects && InRegion(fr.objects[h], a);
    assert InStack(m, fr, h);
    assert h in fr'.objects && InRegion(fr'.objects[h], a);
  }

  /** Instructions that no code, or only a label line, is emitted for. */
  lemma SilentStep(m: Machine, im: Image, st: State, s: Cpu, st': State) returns (s': Cpu)
    requires Codable(m, im) && st.Running? && Matches(m, im, st, s) && st.pc < |m.code|
    requires var ins := m.code[st.pc]; ins.LABEL? || ins.PARAM? || ins.NULL?
    requires Step(m, st) == Some(st')
    ensures Runs(im.text, s, s') && Matches(m, im, st', s')
  {
    var ins := m.code[st.pc];
    var lay, h := NextBlock(m, im, st, s);
    var code := BlockFor(m.code, st.pc, lay, h, im.sizes(st.frame.fn)).code;
    assert code == if ins.LABEL? then [Mark(Lab(ins.no))] else [];
    RunCoreOne(if ins.LABEL? then Mark(Lab(ins.no)) else Mark(Lab(0)), s.core);
    assert st'.frame == st.frame;
    s' := StraightStep(m, im, st, s, code, st', s.core);
  }

  lemma DecStep(m: Machine, im: Image, st: State, s: Cpu, st': State) returns (s': Cpu)
    requires Codable(m, im) && st.Running? && Matches(m, im, st, s) && st.pc < |m.code| && m.code[st.pc].DEC?
    requires Step(m, st) == Some(st')
    ensures Runs(im.text, s, s') && Matches(m, im, st', s')
  {
    var lay, h := NextBlock(m, im, st, s);
    DeclareOk(m, st.frame, s.core.mem, m.code[st.pc].name);
    s' := StraightStep(m, im, st, s, [], st', s.core);
  }

  /** A queued argument; the text stays in front of the call. */
  lemma ArgStep(m: Machine, im: Image, st: State, s: Cpu, st': State)
    requires Codable(m, im) && st.Running? && Matches(m, im, st, s) && st.pc < |m.code| && m.code[st.pc].ARG?
    requires Step(m, st) == Some(st')
    ensures Matches(m, im, st', s)
  {
    var lay, h := NextBlock(m, im, st, s);
    ArgQueued(m, im, st, s, st');
  }

  lemma ArgQueued(m: Machine, im: Image, st: State, s: Cpu, st': State)
    requires st.Running? && Matches(m, im, st, s) && st.pc < |m.code| && m.code[st.pc].ARG?
    requires Step(m, st) == Some(st')
    requires FnAt(m.code, st.pc + 1) == Some(st.frame.fn) && im.start(st.pc + 1) == s.pc
    ensures Matches(m, im, st', s)
  {
    assert ArgRun(m.code, st.pc + 1) == [m.code[st.pc].src] + ArgRun(m.code, st.pc);
  }

  // ----- jumps -----

  /** No arguments are queued where a label stands. */
  lemma NoArgsAtLabel(code: Code, pc: nat)
    requires Bracketed(code) && pc < |code| && code[pc].LABEL?
    ensures ArgRun(code, pc) == []
  {
    if pc > 0 {
      assert BracketAt(code, pc - 1);
    }
  }

  lemma TargetMatches(m: Machine, im: Image, st: State, s: Cpu, no: nat, c': Core) returns (pc: nat)
    requires Codable(m, im) && st.Running? && Matches(m, im, st, s) && st.args == []
    requires Target(m, st.frame, no).Some?
    requires Busy(m, im, st.frame, st.callers, c')
    ensures pc == Target(m, st.frame, no).value <= |m.code|
    ensures Lookup(im.text, 0, Lab(no)) == Some(im.start(pc))
    ensures Matches(m, im, st.(pc := pc), s.(pc := im.start(pc), core := c'))
  {
    pc := Target(m, st.frame, no).value;
    LookupIn(m, im, LABEL(no));
    NoArgsAtLabel(m.code, pc);
  }

  lemma GotoStep(m: Machine, im: Image, st: State, s: Cpu, st': State) returns (s': Cpu)
    requires Codable(m, im) && st.Running? && Matches(m, im, st, s) && st.pc < |m.code| && m.code[st.pc].GOTO?
    requires Step(m, st) == Some(st')
    ensures Runs(im.text, s, s') && Matches(m, im, st', s')
  {
    var no := m.code[st.pc].no;
    var lay, h := NextBlock(m, im, st, s);
    var pc := TargetMatches(m, im, st, s, no, s.core);
    ThereOne(im.text, s.pc, J(Lab(no)));
    s' := s.(pc := im.start(pc));
    RunsOne(im.text, s, s');
  }

  lemma JumpFacts(m: Machine, st: State, st': State) returns (holds: bool, target: nat)
    requires st.Running? && st.pc < |m.code| && m.code[st.pc].IF_GOTO? && Step(m, st) == Some(st')
    ensures var ins := m.code[st.pc];
            && Get(st.frame, ins.src1).Some? && Get(st.frame, ins.src2).Some?
            && holds == Compare(ins.relop, Get(st.frame, ins.src1).value, Get(st.frame, ins.src2).value)
            && Target(m, st.frame, ins.no) == Some(target)
    ensures st.args == [] && st' == st.(pc := if holds then target else st.pc + 1)
  {
    var ins := m.code[st.pc];
    holds := Compare(ins.relop, Get(st.frame, ins.src1).value, Get(st.frame, ins.src2).value);
    target := Target(m, st.frame, ins.no).value;
  }

  lemma JumpStep(m: Machine, im: Image, st: State, s: Cpu, st': State) returns (s': Cpu)
    requires Codable(m, im) && st.Running? && Matches(m, im, st, s) && st.pc < |m.code| && m.code[st.pc].IF_GOTO?
    requires Step(m, st) == Some(st')
    ensures Runs(im.text, s, s') && Matches(m, im, st', s')
  {
    var ins, fr := m.code[st.pc], st.frame;
    var holds, target := JumpFacts(m, st, st');
    var lay, h := NextBlock(m, im, st, s);
    var x := LoadOp(im.sizes(fr.fn), Alloc(lay, [], h), ins.src1, true);
    var y := LoadOp(im.sizes(fr.fn), x.a, ins.src2, true);
    var c1 := LoadTwo(m, fr, im.sizes(fr.fn), lay, h, ins.src1, ins.src2, s.core,
                      Get(fr, ins.src1).value, Get(fr, ins.src2).value);
    BusyAfter(m, im, fr, st.callers, s.core, fr, c1);
    s' := BranchStep(m, im, st, s, x.code + y.code, Branch(ins.relop, x.reg, y.reg, Lab(ins.no)), c1, holds, target,
                     st');
  }

  /** The operands are loaded, then the branch is taken or not. */
  lemma BranchStep(m: Machine, im: Image, st: State, s: Cpu, load: Text32, branch: Ins, c: Core,
                   holds: bool, target: nat, st': State)
    returns (s': Cpu)
    requires Codable(m, im) && st.Running? && Matches(m, im, st, s) && st.pc < |m.code| && !m.code[st.pc].ARG?
    requires Next(m, im, st, s, load + [branch]) && st.args == []
    requires Busy(m, im, st.frame, st.callers, c) && RunCore(load, s.core) == Some(c)
    requires branch.Branch? && branch.sym.Lab? && Target(m, st.frame, branch.sym.no) == Some(target)
    requires holds == Compare(branch.rel, Reg(c, branch.a), Reg(c, branch.b))
    requires st' == st.(pc := if holds then target else st.pc + 1)
    ensures Runs(im.text, s, s') && Matches(m, im, st', s')
  {
    var pc := TargetMatches(m, im, st, s, branch.sym.no, c);
    s' := BranchRuns(im.text, s, load, branch, c, im.start(pc));
    if !holds {
      NextMatches(m, im, st, s, c, st', s');
    }
  }

  lemma BranchRuns(text: Text32, s: Cpu, load: Text32, branch: Ins, c: Core, target: nat) returns (s': Cpu)
    requires There(text, s.pc, load + [branch]) && RunCore(load, s.core) == Some(c)
    requires branch.Branch? && Lookup(text, 0, branch.sym) == Some(target)
    ensures Runs(text, s, s')
    ensures s' == s.(pc := if Compare(branch.rel, Reg(c, branch.a), Reg(c, branch.b)) then target
                           else s.pc + |load| + 1, core := c)
  {
    JumpsCompare(branch.rel, Reg(c, branch.a), Reg(c, branch.b));
    s' := s.(pc := if Compare(branch.rel, Reg(c, branch.a), Reg(c, branch.b)) then target else s.pc + |load| + 1,
             core := c);
    RunsUpTo(text, s, load, branch, c, s');
  }
}
