/** Every step of the three-address machine is matched by the processor, and so is every run. */
module Execution {
  import opened Common
  import opened Ir
  import opened Represent
  import opened Frames
  import opened Mips
  import opened CodeGen
  import opened Slots
  import opened Blocks
  import opened Calls
  import opened Emitted
  import opened Simulate
  import opened Traffic

  // ----- reading and writing -----

  lemma ShowsMore(trace: seq<Event>, e: Event)
    ensures Shows(trace + [e]) == Shows(trace) + match e
                                                 case ReadInt(v) => [Shown(Prompt), Took(v)]
                                                 case WriteInt(v) => [Gave(v), Shown(NewLine)]
  {
    assert (trace + [e])[..|trace|] == trace;
  }

  /** The console and the frame change, and control goes on. */
  lemma ConsoleStep(m: Machine, im: Image, st: State, s: Cpu, st': State, s': Cpu)
    requires Codable(m, im) && st.Running? && Matches(m, im, st, s) && st.pc < |m.code| && !m.code[st.pc].ARG?
    requires FnAt(m.code, st.pc + 1) == Some(st.frame.fn) && s'.pc == im.start(st.pc + 1)
    requires st'.Running? && st' == st.(pc := st.pc + 1, frame := st'.frame, io := st'.io) && st.args == []
    requires st'.frame.fp == st.frame.fp && st'.frame.fn == st.frame.fn && st'.frame.depth == st.frame.depth
    requires SameOuter(st.frame, st'.frame)
    requires AtWork(m, st'.frame, s'.core) && Reg(s'.core, RA) == Reg(s.core, RA)
    requires SameFrom(s.core.mem, s'.core.mem, st.frame.fp) && SameConsole(st'.io, s')
    ensures Matches(m, im, st', s')
  {
    BusyAfter(m, im, st.frame, st.callers, s.core, st'.frame, s'.core);
  }

  lemma ReadBlockIs(m: Machine, f: string, sizes: Operand -> nat, lay: FrameLayout, h: seq<nat>, dst: Operand)
    returns (r: nat)
    requires HasSlot(dst) && HasWord(m.layout(f), dst) && Extends(m.layout(f), lay)
    ensures FIRST <= r < FIRST + REGISTERS
    ensures ReadBlock(sizes, Alloc(lay, [], h), dst).code
         == PUSH_RA + [Jal(ReadRoutine)] + POP_RA + [Move(r, V0), Sw(r, Offset(m.layout(f), dst), FP)]
  {
    var x := LoadOp(sizes, Alloc(lay, [], h), dst, false);
    LoadRegister(sizes, Alloc(lay, [], h), dst, false);
    LoadExtends(sizes, Alloc(lay, [], h), dst, false);
    r := x.reg;
    assert x.code == [];
    assert PUSH_RA + [Jal(ReadRoutine)] + POP_RA + [] == PUSH_RA + [Jal(ReadRoutine)] + POP_RA;
  }

  /** The integer that was read is stored. */
  lemma KeepOk(m: Machine, fr: Frame, dst: Operand, r: nat, c: Core, v: int, fr': Frame) returns (c': Core)
    requires AtWork(m, fr, c) && Reg(c, V0) == v && FIRST <= r < FIRST + REGISTERS
    requires Put(fr, dst, v) == Some(fr') && HasSlot(dst) && HasWord(m.layout(fr.fn), dst)
    ensures RunCore([Move(r, V0), Sw(r, Offset(m.layout(fr.fn), dst), FP)], c) == Some(c')
    ensures AtWork(m, fr', c') && Calm(c, c', fr.fp)
  {
    var c1, store := SetReg(c, r, v), Sw(r, Offset(m.layout(fr.fn), dst), FP);
    SetRegCalm(m, fr, c, r, v);
    c' := StoreWord(m, fr, dst, r, Offset(m.layout(fr.fn), dst), FP, c1, v, fr');
    RunCoreOne(Move(r, V0), c);
    RunCoreAdd([Move(r, V0)], [store], c, c1);
    assert [Move(r, V0)] + [store] == [Move(r, V0), store];
    CalmThen(c, c1, c', fr.fp);
  }

  lemma ReadStep(m: Machine, im: Image, st: State, s: Cpu, st': State) returns (s': Cpu)
    requires Codable(m, im) && st.Running? && Matches(m, im, st, s) && st.pc < |m.code| && m.code[st.pc].READ?
    requires Step(m, st) == Some(st')
    ensures Runs(im.text, s, s') && Matches(m, im, st', s')
  {
    var dst, fr := m.code[st.pc].dst, st.frame;
    var lay, h := NextBlock(m, im, st, s);
    var r := ReadBlockIs(m, fr.fn, im.sizes(fr.fn), lay, h, dst);
    s' := ReadRest(m, im, st, s, dst, r, [Move(r, V0), Sw(r, Offset(m.layout(fr.fn), dst), FP)], st');
  }

  lemma ReadRest(m: Machine, im: Image, st: State, s: Cpu, dst: Operand, r: nat, keep: Text32, st': State)
    returns (s': Cpu)
    requires Codable(m, im) && st.Running? && Matches(m, im, st, s) && st.pc < |m.code| && m.code[st.pc] == READ(dst)
    requires AtWork(m, st.frame, s.core) && Step(m, st) == Some(st') && HasSlot(dst)
    requires HasWord(m.layout(st.frame.fn), dst)
    requires FIRST <= r < FIRST + REGISTERS && keep == [Move(r, V0), Sw(r, Offset(m.layout(st.frame.fn), dst), FP)]
    requires Next(m, im, st, s, PUSH_RA + [Jal(ReadRoutine)] + POP_RA + keep)
    ensures Runs(im.text, s, s') && Matches(m, im, st', s')
  {
    hide AtWork, Busy, CoveredAt, ShapeAt, ArgsClear, WordLayout, Values;
    var v, text := st.io.input[0], im.text;
    ThereParts(text, s.pc, PUSH_RA + [Jal(ReadRoutine)] + POP_RA, keep);
    var s1 := ReadCall(m, im, st.frame, s);
    var c' := KeepOk(m, st.frame, dst, r, s1.core, v, st'.frame);
    RunsCore(text, s1, keep, c');
    s' := s1.(pc := s1.pc + |keep|, core := c');
    RunsThen(text, s, s1, s');
    ReadMatches(m, im, st, s, s1, st', s');
  }

  lemma ReadMatches(m: Machine, im: Image, st: State, s: Cpu, s1: Cpu, st': State, s': Cpu)
    requires Codable(m, im) && st.Running? && Matches(m, im, st, s) && st.pc < |m.code| && m.code[st.pc].READ?
    requires FnAt(m.code, st.pc + 1) == Some(st.frame.fn) && s'.pc == im.start(st.pc + 1)
    requires Step(m, st) == Some(st') && AtWork(m, st'.frame, s'.core)
    requires Reg(s1.core, RA) == Reg(s.core, RA) && SameFrom(s.core.mem, s1.core.mem, st.frame.fp)
    requires Calm(s1.core, s'.core, st.frame.fp)
    requires s'.input == s.input[1..] && s'.out == s.out + [Shown(Prompt), Took(st.io.input[0])]
    ensures Matches(m, im, st', s')
  {
    ShowsMore(st.io.trace, ReadInt(st.io.input[0]));
    forall a {:trigger Load(s'.core.mem, a)} | st.frame.fp <= a ensures Load(s'.core.mem, a) == Load(s.core.mem, a) {
      assert Load(s1.core.mem, a) == Load(s.core.mem, a);
    }
    ConsoleStep(m, im, st, s, st', s');
  }

  /** The integer to be written goes to $a0. */
  lemma OutputOk(m: Machine, fr: Frame, sizes: Operand -> nat, lay: FrameLayout, h: seq<nat>, src: Operand, c: Core,
                 v: int)
    returns (c': Core)
    requires AtWork(m, fr, c) && Extends(m.layout(fr.fn), lay) && Get(fr, src) == Some(v)
    ensures var x := LoadOp(sizes, Alloc(lay, [], h), src, true); RunCore(x.code + [Move(A0, x.reg)], c) == Some(c')
    ensures AtWork(m, fr, c') && Reg(c', A0) == v && Reg(c', RA) == Reg(c, RA) && c'.mem == c.mem
  {
    var x := LoadOp(sizes, Alloc(lay, [], h), src, true);
    LoadOk(m, fr, sizes, Alloc(lay, [], h), src, c, v);
    var c1 := SetReg(c, x.reg, v);
    SetRegCalm(m, fr, c, x.reg, v);
    RunCoreOne(Move(A0, x.reg), c1);
    RunCoreAdd(x.code, [Move(A0, x.reg)], c, c1);
    c' := SetReg(c1, A0, v);
  }

  lemma WriteBlockIs(sizes: Operand -> nat, lay: FrameLayout, h: seq<nat>, src: Operand)
    ensures var x := LoadOp(sizes, Alloc(lay, [], h), src, true);
            (WriteBlock(sizes, Alloc(lay, [], h), src).code
             == x.code + [Move(A0, x.reg)] + (PUSH_RA + [Jal(WriteRoutine)] + POP_RA))
  {
  }

  lemma WriteStep(m: Machine, im: Image, st: State, s: Cpu, st': State) returns (s': Cpu)
    requires Codable(m, im) && st.Running? && Matches(m, im, st, s) && st.pc < |m.code| && m.code[st.pc].WRITE?
    requires Step(m, st) == Some(st')
    ensures Runs(im.text, s, s') && Matches(m, im, st', s')
  {
    var src, fr := m.code[st.pc].src, st.frame;
    var lay, h := NextBlock(m, im, st, s);
    var x := LoadOp(im.sizes(fr.fn), Alloc(lay, [], h), src, true);
    var v := Get(fr, src).value;
    var c := OutputOk(m, fr, im.sizes(fr.fn), lay, h, src, s.core, v);
    WriteBlockIs(im.sizes(fr.fn), lay, h, src);
    s' := WriteRest(m, im, st, s, x.code + [Move(A0, x.reg)], c, v, st');
  }

  lemma WriteRest(m: Machine, im: Image, st: State, s: Cpu, load: Text32, c: Core, v: int, st': State) returns (s': Cpu)
    requires Codable(m, im) && st.Running? && Matches(m, im, st, s) && st.pc < |m.code| && m.code[st.pc].WRITE?
    requires Get(st.frame, m.code[st.pc].src) == Some(v) && Step(m, st) == Some(st')
    requires RunCore(load, s.core) == Some(c) && AtWork(m, st.frame, c) && Reg(c, A0) == v
    requires Reg(c, RA) == Reg(s.core, RA) && c.mem == s.core.mem
    requires Next(m, im, st, s, load + (PUSH_RA + [Jal(WriteRoutine)] + POP_RA))
    ensures Runs(im.text, s, s') && Matches(m, im, st', s')
  {
    hide RunCore, AtWork;
    var text := im.text;
    ThereParts(text, s.pc, load, PUSH_RA + [Jal(WriteRoutine)] + POP_RA);
    RunsCore(text, s, load, c);
    var s1 := s.(pc := s.pc + |load|, core := c);
    s' := WriteCall(m, im, st.frame, s1);
    RunsThen(text, s, s1, s');
    ShowsMore(st.io.trace, WriteInt(v));
    ConsoleStep(m, im, st, s, st', s');
  }

  // ----- returning -----

  lemma ReturnStep(m: Machine, im: Image, st: State, s: Cpu, st': State) returns (s': Cpu)
    requires Codable(m, im) && st.Running? && Matches(m, im, st, s) && st.pc < |m.code| && m.code[st.pc].RETURN?
    requires Step(m, st) == Some(st')
    ensures Runs(im.text, s, s') && Matches(m, im, st', s')
  {
    var src, fr, text := m.code[st.pc].src, st.frame, im.text;
    var lay, h := NextBlock(m, im, st, s);
    var x := LoadOp(im.sizes(fr.fn), Alloc(lay, [], h), src, true);
    var v := Get(fr, src).value;
    LoadOk(m, fr, im.sizes(fr.fn), Alloc(lay, [], h), src, s.core, v);
    var c1 := SetReg(s.core, x.reg, v);
    SetRegCalm(m, fr, s.core, x.reg, v);
    BusyAfter(m, im, fr, st.callers, s.core, fr, c1);
    assert BlockFor(m.code, st.pc, lay, h, im.sizes(fr.fn)).code == x.code + [Move(V0, x.reg)] + LEAVE;
    var s1 := LeaveStep(m, im, fr, st.callers, s, x.code, c1, x.reg, v);
    if st.callers == [] {
      LastReturn(m, im, fr, c1);
      s' := s1;
    } else {
      s' := BackStep(m, im, fr, st.callers, s1, c1, v, st.io, st');
      RunsThen(text, s, s1, s');
    }
  }

  /** `main` returns to where the program was started from. */
  lemma LastReturn(m: Machine, im: Image, fr: Frame, c: Core)
    requires Busy(m, im, fr, [], c)
    ensures Reg(c, RA) == EXIT
  {
    assert Unfold(0);
  }

  /** What the registers are when a function has been left. */
  ghost predicate Left(fr: Frame, c: Core, c': Core, v: int) {
    && |c'.regs| == 32 && Reg(c', ZERO) == 0 && Reg(c', V0) == v
    && Reg(c', SP) == fr.fp + 4 && Reg(c', FP) == Load(c.mem, fr.fp) && c'.mem == c.mem
  }

  lemma LeaveStep(m: Machine, im: Image, fr: Frame, ks: seq<Caller>, s: Cpu, load: Text32, c: Core, r: nat, v: int)
    returns (s': Cpu)
    requires Busy(m, im, fr, ks, c) && RunCore(load, s.core) == Some(c) && Reg(c, r) == v
    requires There(im.text, s.pc, load + [Move(V0, r)] + LEAVE)
    ensures Runs(im.text, s, s') && s'.pc == Reg(c, RA) && Left(fr, c, s'.core, v)
    ensures s'.input == s.input && s'.out == s.out
  {
    var four := [Move(V0, r), Move(SP, FP), Lw(FP, 0, FP), Addi(SP, SP, 4)];
    assert Unfold(0);
    var c' := LeaveOk(m, fr, c, v, r);
    RunCoreAdd(load, four, s.core, c);
    assert load + [Move(V0, r)] + LEAVE == load + four + [Jr(RA)];
    s' := s.(pc := Reg(c, RA), core := c');
    RunsUpTo(im.text, s, load + four, Jr(RA), c', s');
  }

  /** The destination of a call has a slot. */
  lemma CallDest(m: Machine, im: Image, f: string, i: nat)
    requires Codable(m, im) && i < |m.code| && m.code[i].CALL? && FnAt(m.code, i + 1) == Some(f)
    ensures HasSlot(m.code[i].dst) && HasWord(m.layout(f), m.code[i].dst)
  {
    assert ShapeAt(m.code, i) && CoveredAt(m, i);
    assert m.code[i].dst in Tracked(m.code[i]);
  }

  /** The caller goes on. */
  lemma BackStep(m: Machine, im: Image, fr: Frame, ks: seq<Caller>, s: Cpu, c: Core, v: int, io: Console, st': State)
    returns (s': Cpu)
    requires Codable(m, im) && Busy(m, im, fr, ks, c) && ks != [] && s.pc == Reg(c, RA) && Left(fr, c, s.core, v)
    requires SameConsole(io, s) && Resume(v, fr, ks, io) == Some(st')
    ensures Runs(im.text, s, s') && Matches(m, im, st', s')
  {
    var k, back := ks[0], ks[0].frame.(mem := Remains(fr));
    var i, f := k.ret - 1, k.frame.fn;
    assert Unfold(0);
    var lay, h := CallIn(m, im, f, i);
    CallDest(m, im, f, i);
    var ops := ArgRun(m.code, i);
    var a := CallFront(im.sizes(f), Alloc(lay, [], h), ops).1;
    FrontExtends(m, im.sizes(f), f, lay, h, ops);
    CameBackOk(m, im, fr, k, s.core, c, v);
    var c' := CallBackOk(m, back, im.sizes(f), a, k.dst, |ops|, s.core, v, st'.frame);
    var block := CallBack(im.sizes(f), a, k.dst, |ops|).code;
    RunsCore(im.text, s, block, c');
    s' := s.(pc := s.pc + |block|, core := c');
    BackMatches(m, im, fr, ks, s.core, c, v, io, st', s');
  }

  lemma CameBackOk(m: Machine, im: Image, fr: Frame, k: Caller, c': Core, c: Core, v: int)
    requires Waiting(m, im, c.mem, fr, k, Reg(c, RA)) && Left(fr, c, c', v) && InMemory(m, fr, c.mem)
    ensures CameBack(m, k.frame.(mem := Remains(fr)), |ArgRun(m.code, k.ret - 1)|, c', v)
  {
    var back := k.frame.(mem := Remains(fr));
    forall op | op in back.env ensures SlotHolds(m, back, c.mem, op) {
      assert SlotHolds(m, k.frame, c.mem, op);
    }
    SamePlaces(m, k.frame, back);
    forall a | a in back.mem ensures CellHolds(back, c.mem, a) {
      assert CellHolds(fr, c.mem, a);
      OuterIsCell(fr, k.frame, a);
      SameCell(k.frame, back, a);
    }
  }

  lemma ResumeFacts(m: Machine, v: int, fr: Frame, ks: seq<Caller>, io: Console, st': State)
    requires ks != [] && Resume(v, fr, ks, io) == Some(st')
    ensures st'.Running? && st' == Running(ks[0].ret, st'.frame, ks[1..], [], io)
    ensures Put(ks[0].frame.(mem := Remains(fr)), ks[0].dst, v) == Some(st'.frame) && SameShape(ks[0].frame, st'.frame)
  {
  }

  /** At an instruction boundary where no arguments are queued. */
  lemma Arrives(m: Machine, im: Image, pc: nat, fr: Frame, ks: seq<Caller>, io: Console, s: Cpu)
    requires pc <= |m.code| && FnAt(m.code, pc) == Some(fr.fn) && s.pc == im.start(pc)
    requires Busy(m, im, fr, ks, s.core) && ArgRun(m.code, pc) == [] && SameConsole(io, s)
    ensures Matches(m, im, Running(pc, fr, ks, [], io), s)
  {
  }

  /** The activations that wait for the caller keep waiting. */
  lemma TailKept(m: Machine, im: Image, fr: Frame, ks: seq<Caller>, c: Core, mem': map<int, int>)
    requires Codable(m, im) && Busy(m, im, fr, ks, c) && ks != [] && SameFrom(c.mem, mem', ks[0].frame.fp)
    ensures Chain(m, im, mem', ks[0].frame, ks[1..], Load(c.mem, fr.fp + 4))
    ensures 0 < ks[0].ret <= |m.code| && FnAt(m.code, ks[0].ret) == Some(ks[0].frame.fn)
    ensures ArgRun(m.code, ks[0].ret) == []
  {
    assert Unfold(0);
    ChainKept(m, im, c.mem, mem', ks[0].frame, ks[1..], Load(c.mem, fr.fp + 4));
  }

  lemma BackMatches(m: Machine, im: Image, fr: Frame, ks: seq<Caller>, c1: Core, c: Core, v: int, io: Console,
                    st': State, s': Cpu)
    requires Codable(m, im) && Busy(m, im, fr, ks, c) && ks != [] && Left(fr, c, c1, v)
    requires SameConsole(io, s') && Resume(v, fr, ks, io) == Some(st')
    requires s'.pc == im.start(ks[0].ret) && AtWork(m, st'.frame, s'.core)
    requires Reg(s'.core, RA) == Load(c1.mem, Reg(c1, SP)) && SameFrom(c1.mem, s'.core.mem, ks[0].frame.fp)
    ensures Matches(m, im, st', s')
  {
    TailKept(m, im, fr, ks, c, s'.core.mem);
    ResumeFacts(m, v, fr, ks, io, st');
    ChainLike(m, im, s'.core.mem, ks[0].frame, st'.frame, ks[1..], Reg(s'.core, RA));
    assert Busy(m, im, st'.frame, ks[1..], s'.core);
    Arrives(m, im, ks[0].ret, st'.frame, ks[1..], io, s');
  }

  lemma FrontExtends(m: Machine, sizes: Operand -> nat, f: string, lay: FrameLayout, h: seq<nat>, ops: seq<Operand>)
    requires Extends(m.layout(f), lay) && |ops| <= REGISTERS
    ensures Extends(m.layout(f), CallFront(sizes, Alloc(lay, [], h), ops).1.lay)
  {
    ArgsExtend(sizes, Alloc(lay, [], h), ops, |ops|);
    ExtendsThen(m.layout(f), lay, CallFront(sizes, Alloc(lay, [], h), ops).1.lay);
  }

  // ----- calling -----

  lemma {:induction false} ParamIsThere(code: Code, pc: nat, f: string, k: nat)
    requires pc <= |code| && FnAt(code, pc) == Some(f) && k < |Params(code, pc)|
    ensures PlacedParam(code, pc + k, f, Params(code, pc)[k])
    decreases k
  {
    if k > 0 {
      ParamIsThere(code, pc + 1, f, k - 1);
    }
  }

  predicate PlacedParam(code: Code, pc: nat, f: string, p: string) {
    pc < |code| && code[pc] == PARAM(p) && FnAt(code, pc) == Some(f)
  }

  lemma ParamsCovered(m: Machine, im: Image, f: string, pc: nat)
    requires Codable(m, im) && pc <= |m.code| && FnAt(m.code, pc) == Some(f)
    ensures forall p :: p in Params(m.code, pc) ==> HasWord(m.layout(f), Variable(p))
  {
    var ps := Params(m.code, pc);
    forall p | p in ps ensures HasWord(m.layout(f), Variable(p)) {
      var k :| 0 <= k < |ps| && ps[k] == p;
      ParamIsThere(m.code, pc, f, k);
      assert CoveredAt(m, pc + k);
      assert Variable(p) in Tracked(m.code[pc + k]);
    }
  }

  /** From the entry of a function to the first instruction after its FUNC. */
  lemma EnterFunction(m: Machine, im: Image, fr: Frame, entry: nat, s: Cpu, vs: seq<int>, callerFp: int, callerRa: int)
    returns (s': Cpu)
    requires Codable(m, im) && entry < |m.code| && Find(m.code, 0, FUNC(fr.fn)) == Some(entry)
    requires s.pc == im.start(entry)
    requires Delivered(s.core, vs, fr.fp, callerFp, callerRa) && |Params(m.code, entry + 1)| == |vs|
    requires Fits(m, fr.fn, fr.fp) && fr.fp % 4 == 0 && fr.env == Bind(Params(m.code, entry + 1), vs)
    requires ObjectsPlaced(m, fr) && CellsHeld(fr, s.core.mem) && AllOuter(fr)
    ensures Runs(im.text, s, s') && s'.pc == im.start(entry + 1)
    ensures s'.input == s.input && s'.out == s.out
    ensures AtWork(m, fr, s'.core) && Reg(s'.core, RA) == Reg(s.core, RA)
    ensures Load(s'.core.mem, fr.fp) == callerFp && Load(s'.core.mem, fr.fp + 4) == callerRa
    ensures forall a {:trigger Load(s'.core.mem, a)} :: fr.fp < a ==> Load(s'.core.mem, a) == Load(s.core.mem, a)
  {
    var ps, f := Params(m.code, entry + 1), fr.fn;
    FuncIn(m, im, f, entry);
    ParamsCovered(m, im, f, entry + 1);
    var c' := FuncOk(m, fr, im.sizes(f), ps, vs, s.core, callerFp, callerRa);
    var block := FuncBlock(im.sizes(f), m.layout(f), f, ps).code;
    RunsCore(im.text, s, block, c');
    s' := s.(pc := s.pc + |block|, core := c');
  }

  lemma CallFacts(m: Machine, st: State, st': State) returns (entry: nat)
    requires st.Running? && st.pc < |m.code| && m.code[st.pc].CALL? && Step(m, st) == Some(st')
    ensures var f := m.code[st.pc].name;
            && entry < |m.code| && Find(m.code, 0, FUNC(f)) == Some(entry)
            && |Params(m.code, entry + 1)| == |st.args| && Fits(m, f, CalleeFp(m, st.frame, |st.args|))
            && st' == Running(entry + 1, Callee(m, st.frame, f, Params(m.code, entry + 1), st.args),
                              [Caller(Suspended(st.frame), m.code[st.pc].dst, st.pc + 1)] + st.callers, [], st.io)
  {
    entry := Find(m.code, 0, FUNC(m.code[st.pc].name)).value;
    FindFinds(m.code, 0, FUNC(m.code[st.pc].name));
  }

  lemma CalleeAligned(m: Machine, im: Image, fr: Frame, ks: seq<Caller>, c: Core, n: nat)
    requires Busy(m, im, fr, ks, c)
    ensures CalleeFp(m, fr, n) % 4 == 0
  {
    assert Unfold(0);
  }

  /** The callee finds the objects of its callers above its frame. */
  lemma HandedOver(m: Machine, im: Image, fr: Frame, ks: seq<Caller>, c: Core, c1: Core, callee: Frame, n: nat)
    requires Busy(m, im, fr, ks, c) && SameFrom(c.mem, c1.mem, fr.fp - m.layout(fr.fn).size)
    requires callee.objects == fr.objects && callee.mem == fr.mem && callee.depth == fr.depth + 1
    requires callee.fp == CalleeFp(m, fr, n)
    ensures ObjectsPlaced(m, callee) && CellsHeld(callee, c1.mem) && AllOuter(callee) && Inherits(callee, Suspended(fr))
  {
    assert Unfold(0);
    forall h | h in callee.objects ensures InStack(m, callee, h) && h.depth <= fr.depth {
      assert InStack(m, fr, h);
      if h.depth == fr.depth {
        SlotInFrame(m, fr, Variable(h.name));
      }
    }
    forall a | a in callee.mem ensures CellHolds(callee, c1.mem, a) {
      assert CellHolds(fr, c.mem, a);
      var _ := CellInStack(m, fr, c.mem, a);
      SameCell(fr, callee, a);
    }
  }

  lemma CallStep(m: Machine, im: Image, st: State, s: Cpu, st': State) returns (s': Cpu)
    requires Codable(m, im) && st.Running? && Matches(m, im, st, s) && st.pc < |m.code| && m.code[st.pc].CALL?
    requires Step(m, st) == Some(st')
    ensures Runs(im.text, s, s') && Matches(m, im, st', s')
  {
    hide Step, Handed, Find, Delivered, AtWork;
    var entry := CallFacts(m, st, st');
    CalleeAligned(m, im, st.frame, st.callers, s.core, |st.args|);
    var s1 := JumpIn(m, im, st, s, entry);
    ArgumentsArrive(m, st.frame, st.pc, st.args);
    HandedOver(m, im, st.frame, st.callers, s.core, s1.core, st'.frame, |st.args|);
    s' := EnterFunction(m, im, st'.frame, entry, s1, st.args, st.frame.fp, Reg(s.core, RA));
    RunsThen(im.text, s, s1, s');
    var k := Caller(Suspended(st.frame), m.code[st.pc].dst, st.pc + 1);
    assert Calling(m, im, st.frame, k, st'.frame.fp, Reg(s1.core, RA));
    assert SameConsole(st.io, s');
    CalledMatches(m, im, st.frame, st.callers, st.io, s.core, s1.core, k, entry, st'.frame, s');
  }

  /** Every parameter receives its argument. */
  lemma ArgumentsArrive(m: Machine, fr: Frame, i: nat, vs: seq<int>)
    requires ArgsClear(m.code) && i < |m.code| && m.code[i].CALL? && Values(fr, ArgRun(m.code, i), vs)
    ensures Handed(ArgRun(m.code, i), vs, |vs|) == vs
  {
    assert ClearAt(m.code, i);
    HandedClear(fr, ArgRun(m.code, i), vs);
  }

  /** The arguments are passed and control is at the callee. */
  lemma JumpIn(m: Machine, im: Image, st: State, s: Cpu, entry: nat) returns (s': Cpu)
    requires Codable(m, im) && st.Running? && Matches(m, im, st, s) && st.pc < |m.code| && m.code[st.pc].CALL?
    requires entry < |m.code| && Find(m.code, 0, FUNC(m.code[st.pc].name)) == Some(entry)
    requires 0 <= CalleeFp(m, st.frame, |st.args|)
    ensures Runs(im.text, s, s') && s'.pc == im.start(entry)
    ensures s'.input == s.input && s'.out == s.out
    ensures Reg(s'.core, RA) == im.back(st.pc)
    ensures |ArgRun(m.code, st.pc)| == |st.args|
    ensures Delivered(s'.core, Handed(ArgRun(m.code, st.pc), st.args, |st.args|), CalleeFp(m, st.frame, |st.args|),
                      st.frame.fp, Reg(s.core, RA))
    ensures SameFrom(s.core.mem, s'.core.mem, st.frame.fp - m.layout(st.frame.fn).size)
  {
    hide Handed, ArgRun, Find, RunCore, CallFront, Lookup, Delivered;
    var f, fr, ops := m.code[st.pc].name, st.frame, ArgRun(m.code, st.pc);
    assert Unfold(0);
    LookupIn(m, im, FUNC(f));
    var lay, h := CallIn(m, im, fr.fn, st.pc);
    var front := CallFront(im.sizes(fr.fn), Alloc(lay, [], h), ops).0;
    var c1 := CallFrontOk(m, fr, im.sizes(fr.fn), lay, h, ops, s.core, st.args);
    s' := JalRuns(im.text, s, front, Fn(f), c1, im.start(entry));
    DeliveredStays(c1, s'.core, Reg(s'.core, RA), Handed(ops, st.args, |ops|), CalleeFp(m, fr, |ops|), fr.fp,
                   Reg(s.core, RA));
  }

  lemma JalRuns(text: Text32, s: Cpu, front: Text32, sym: Symbol, c: Core, target: nat) returns (s': Cpu)
    requires There(text, s.pc, front + [Jal(sym)]) && RunCore(front, s.core) == Some(c)
    requires Lookup(text, 0, sym) == Some(target) && |c.regs| == 32
    ensures Runs(text, s, s') && s' == s.(pc := target, core := SetReg(c, RA, s.pc + |front| + 1))
  {
    s' := s.(pc := target, core := SetReg(c, RA, s.pc + |front| + 1));
    RunsUpTo(text, s, front, Jal(sym), c, s');
  }

  /** `k` waits in the text and the stack for the function that it has called. */
  ghost predicate Calling(m: Machine, im: Image, fr: Frame, k: Caller, fp: int, ra: int)
  {
    && k.frame == Suspended(fr) && 0 < k.ret <= |m.code| && m.code[k.ret - 1].CALL? && m.code[k.ret - 1].dst == k.dst
    && FnAt(m.code, k.ret) == Some(fr.fn) && ra == im.back(k.ret - 1)
    && fp == CalleeFp(m, fr, |ArgRun(m.code, k.ret - 1)|) && 0 <= fp
  }

  lemma CalledMatches(m: Machine, im: Image, fr: Frame, ks: seq<Caller>, io: Console, c: Core, c1: Core, k: Caller,
                      entry: nat, fr': Frame, s': Cpu)
    requires Codable(m, im) && Busy(m, im, fr, ks, c) && Calling(m, im, fr, k, fr'.fp, Reg(c1, RA))
    requires Inherits(fr', Suspended(fr))
    requires entry < |m.code| && Find(m.code, 0, FUNC(fr'.fn)) == Some(entry) && s'.pc == im.start(entry + 1)
    requires SameFrom(c.mem, c1.mem, fr.fp - m.layout(fr.fn).size) && SameConsole(io, s')
    requires Load(s'.core.mem, fr'.fp) == fr.fp && Load(s'.core.mem, fr'.fp + 4) == Reg(c, RA)
    requires forall a {:trigger Load(s'.core.mem, a)} :: fr'.fp < a ==> Load(s'.core.mem, a) == Load(c1.mem, a)
    requires AtWork(m, fr', s'.core) && Reg(s'.core, RA) == Reg(c1, RA)
    ensures Matches(m, im, Running(entry + 1, fr', [k] + ks, [], io), s')
  {
    MemoryAbove(c.mem, c1.mem, s'.core.mem, fr'.fp, fr.fp - m.layout(fr.fn).size);
    WaitsBelow(m, im, fr, ks, c, s'.core.mem, k, fr', Reg(c1, RA));
    EntryArrives(m, im, entry, fr', k, ks, io, s');
  }

  lemma MemoryAbove(mem: map<int, int>, mem1: map<int, int>, mem2: map<int, int>, fp: int, lo: int)
    requires SameFrom(mem, mem1, lo) && fp < lo
    requires forall a {:trigger Load(mem2, a)} :: fp < a ==> Load(mem2, a) == Load(mem1, a)
    ensures SameFrom(mem, mem2, lo)
  {
    forall a {:trigger Load(mem2, a)} | lo <= a ensures Load(mem2, a) == Load(mem, a) {
      assert Load(mem1, a) == Load(mem, a);
    }
  }

  lemma EntryArrives(m: Machine, im: Image, entry: nat, fr: Frame, k: Caller, ks: seq<Caller>, io: Console, s: Cpu)
    requires entry < |m.code| && Find(m.code, 0, FUNC(fr.fn)) == Some(entry)
    requires s.pc == im.start(entry + 1) && AtWork(m, fr, s.core) && SameConsole(io, s)
    requires Waiting(m, im, s.core.mem, fr, k, Reg(s.core, RA))
    requires Chain(m, im, s.core.mem, k.frame, ks, Load(s.core.mem, fr.fp + 4))
    ensures Matches(m, im, Running(entry + 1, fr, [k] + ks, [], io), s)
  {
    FindFinds(m.code, 0, FUNC(fr.fn));
    ChainPush(m, im, s.core.mem, fr, k, ks, Reg(s.core, RA));
    assert Busy(m, im, fr, [k] + ks, s.core);
    assert FnAt(m.code, entry + 1) == Some(fr.fn) && ArgRun(m.code, entry + 1) == [];
    Arrives(m, im, entry + 1, fr, [k] + ks, io, s);
  }

  lemma ChainPush(m: Machine, im: Image, mem: map<int, int>, fr: Frame, k: Caller, ks: seq<Caller>, ra: int)
    requires Waiting(m, im, mem, fr, k, ra)
    requires Chain(m, im, mem, k.frame, ks, Load(mem, fr.fp + 4))
    ensures Chain(m, im, mem, fr, [k] + ks, ra)
  {
    assert ([k] + ks)[1..] == ks;
  }

  /** The caller's memory is untouched while its callee is entered. */
  lemma WaitsBelow(m: Machine, im: Image, fr: Frame, ks: seq<Caller>, c: Core, mem': map<int, int>, k: Caller,
                   fr': Frame, ra: int)
    requires Codable(m, im) && Busy(m, im, fr, ks, c) && SameFrom(c.mem, mem', fr.fp - m.layout(fr.fn).size)
    requires Calling(m, im, fr, k, fr'.fp, ra) && Inherits(fr', Suspended(fr))
    requires Load(mem', fr'.fp) == fr.fp && Load(mem', fr'.fp + 4) == Reg(c, RA)
    ensures Waiting(m, im, mem', fr', k, ra) && Chain(m, im, mem', k.frame, ks, Load(mem', fr'.fp + 4))
  {
    assert Unfold(0);
    InMemoryKept(m, fr, c.mem, mem', fr.fp - m.layout(fr.fn).size);
    SuspendedInMemory(m, fr, mem');
    ChainKept(m, im, c.mem, mem', fr, ks, Reg(c, RA));
    ChainLike(m, im, mem', fr, k.frame, ks, Reg(c, RA));
  }

  lemma SuspendedInMemory(m: Machine, fr: Frame, mem: map<int, int>)
    requires InMemory(m, fr, mem)
    ensures InMemory(m, Suspended(fr), mem)
  {
    forall op | op in fr.env ensures SlotHolds(m, Suspended(fr), mem, op) {
      assert SlotHolds(m, fr, mem, op);
    }
    SamePlaces(m, fr, Suspended(fr));
  }

  // ----- every step, every run -----

  /** The simulation: at every instruction boundary the processor's memory represents the state of the
      three-address machine, and stays so. */
  lemma StepMatches(m: Machine, im: Image, st: State, s: Cpu, st': State) returns (s': Cpu)
    requires Codable(m, im) && Matches(m, im, st, s) && Step(m, st) == Some(st')
    ensures Runs(im.text, s, s') && Matches(m, im, st', s')
  {
    match m.code[st.pc]
    case ASSIGN(_, _) => s' := AssignStep(m, im, st, s, st');
    case ARITH(_, _, _, _) => s' := ArithStep(m, im, st, s, st');
    case GOTO(_) => s' := GotoStep(m, im, st, s, st');
    case IF_GOTO(_, _, _, _) => s' := JumpStep(m, im, st, s, st');
    case RETURN(_) => s' := ReturnStep(m, im, st, s, st');
    case CALL(_, _) => s' := CallStep(m, im, st, s, st');
    case READ(_) => s' := ReadStep(m, im, st, s, st');
    case WRITE(_) => s' := WriteStep(m, im, st, s, st');
    case DEC(_, _) => s' := DecStep(m, im, st, s, st');
    case ARG(_) =>
      ArgStep(m, im, st, s, st');
      RunsStay(im.text, s);
      s' := s;
    case _ => s' := SilentStep(m, im, st, s, st');
  }

  lemma {:induction false} RunMatches(m: Machine, im: Image, run: seq<State>, s: Cpu) returns (s': Cpu)
    requires Codable(m, im) && IsRun(m, run) && Matches(m, im, run[0], s)
    ensures Runs(im.text, s, s') && Matches(m, im, run[|run| - 1], s')
    decreases |run|
  {
    if |run| == 1 {
      RunsStay(im.text, s);
      s' := s;
    } else {
      assert Follows(m, run, 0);
      var s1 := StepMatches(m, im, run[0], s, run[1]);
      forall i | 0 <= i < |run[1..]| - 1 ensures Follows(m, run[1..], i) {
        assert Follows(m, run, i + 1);
      }
      s' := RunMatches(m, im, run[1..], s1);
      RunsThen(im.text, s, s1, s');
    }
  }

  // ----- the stack -----

  /** At instruction boundaries of one activation $sp, $fp and $ra are always the same. */
  lemma SameStack(m: Machine, im: Image, st: State, s: Cpu, st': State, s': Cpu)
    requires st.Running? && st'.Running? && Matches(m, im, st, s) && Matches(m, im, st', s')
    requires st'.frame.fn == st.frame.fn && st'.frame.fp == st.frame.fp && st'.callers == st.callers
    ensures Reg(s'.core, SP) == Reg(s.core, SP) && Reg(s'.core, FP) == Reg(s.core, FP)
    ensures Reg(s'.core, RA) == Reg(s.core, RA)
  {
    assert Unfold(0);
  }

  /** Stack discipline: a call leaves the callee with a frame wholly below the caller's, and when the
      run comes back behind the call, with the same activations waiting, $sp, $fp and $ra are what they
      were in front of it. */
  lemma CallKeepsStack(m: Machine, im: Image, run: seq<State>, s: Cpu) returns (s1: Cpu, s2: Cpu)
    requires Codable(m, im) && IsRun(m, run) && |run| >= 2 && run[0].Running? && Matches(m, im, run[0], s)
    requires run[0].pc < |m.code| && m.code[run[0].pc].CALL?
    requires var last := run[|run| - 1];
             last.Running? && last.pc == run[0].pc + 1 && last.callers == run[0].callers
    ensures Runs(im.text, s, s1) && Matches(m, im, run[1], s1) && run[1].Running?
    ensures Reg(s1.core, FP) + 8 + 4 * StackArgs(|run[0].args|) == Reg(s.core, SP) <= Reg(s.core, FP)
    ensures Runs(im.text, s1, s2) && Matches(m, im, run[|run| - 1], s2)
    ensures Reg(s2.core, SP) == Reg(s.core, SP) && Reg(s2.core, FP) == Reg(s.core, FP)
    ensures Reg(s2.core, RA) == Reg(s.core, RA)
  {
    assert Follows(m, run, 0);
    s1 := StepMatches(m, im, run[0], s, run[1]);
    var _ := CallFacts(m, run[0], run[1]);
    forall i | 0 <= i < |run[1..]| - 1 ensures Follows(m, run[1..], i) {
      assert Follows(m, run, i + 1);
    }
    s2 := RunMatches(m, im, run[1..], s1);
    SameFrame(m, im, run, s, s2);
    SameStack(m, im, run[0], s, run[|run| - 1], s2);
    assert Unfold(0);
  }

  /** The frame pointer of the activation that was started first. */
  function BaseFp(fr: Frame, ks: seq<Caller>): int {
    if ks == [] then fr.fp else ks[|ks| - 1].frame.fp
  }

  lemma BaseStays(m: Machine, st: State, st': State)
    requires st.Running? && st'.Running? && Step(m, st) == Some(st')
    ensures BaseFp(st'.frame, st'.callers) == BaseFp(st.frame, st.callers)
  {
  }

  lemma {:induction false} BaseKept(m: Machine, run: seq<State>, i: nat)
    requires IsRun(m, run) && run[0].Running? && i < |run| && run[i].Running?
    ensures BaseFp(run[i].frame, run[i].callers) == BaseFp(run[0].frame, run[0].callers)
  {
    if i > 0 {
      assert Follows(m, run, i - 1);
      BaseKept(m, run, i - 1);
      BaseStays(m, run[i - 1], run[i]);
    }
  }

  /** The stack of waiting activations determines the place of the running one. */
  lemma SameFrame(m: Machine, im: Image, run: seq<State>, s: Cpu, s': Cpu)
    requires IsRun(m, run) && run[0].Running? && Matches(m, im, run[0], s)
    requires run[0].pc < |m.code| && m.code[run[0].pc].CALL?
    requires var last := run[|run| - 1];
             && last.Running? && last.pc == run[0].pc + 1 && last.callers == run[0].callers
             && Matches(m, im, last, s')
    ensures run[|run| - 1].frame.fn == run[0].frame.fn && run[|run| - 1].frame.fp == run[0].frame.fp
  {
    assert Unfold(0);
    BaseKept(m, run, |run| - 1);
  }
}
