/** Calls, returns and the exchange with the console. */
module Traffic {
  import opened Common
  import opened Ir
  import opened Mips
  import opened CodeGen
  import opened Slots
  import opened Calls
  import opened Emitted
  import opened Simulate

  // ----- the two routines -----

  /** Registers other than $v0 and $a0, and memory, are the same. */
  ghost predicate Spared(c: Core, c': Core) {
    && |c.regs| == 32 && |c'.regs| == 32 && c'.mem == c.mem
    && forall r: nat :: r != V0 && r != A0 ==> Reg(c', r) == Reg(c, r)
  }

  /** The routine `read`. */
  lemma ReadRuns(text: Text32, s: Cpu) returns (s': Cpu)
    requires There(text, 0, READ_ROUTINE) && s.pc == 0 && |s.core.regs| == 32 && s.input != []
    ensures Runs(text, s, s') && s'.pc == Reg(s.core, RA) && Spared(s.core, s'.core) && Reg(s'.core, V0) == s.input[0]
    ensures s'.input == s.input[1..] && s'.out == s.out + [Shown(Prompt), Took(s.input[0])]
  {
    var first, second := [Mark(ReadRoutine), Li(V0, 4), La(A0, Prompt)], [Li(V0, 5)];
    assert READ_ROUTINE == (first + [Syscall]) + ((second + [Syscall]) + ([] + [Jr(RA)]));
    ThereParts(text, 0, first + [Syscall], (second + [Syscall]) + ([] + [Jr(RA)]));
    ThereParts(text, 4, second + [Syscall], [] + [Jr(RA)]);
    var c1 := SetReg(SetReg(s.core, V0, 4), A0, Address(Prompt));
    ThreeSteps(first, s.core, s.core, SetReg(s.core, V0, 4), c1);
    var s1 := s.(pc := 4, core := c1, out := s.out + [Shown(Prompt)]);
    RunsUpTo(text, s, first, Syscall, c1, s1);
    var c2 := SetReg(c1, V0, 5);
    RunCoreOne(Li(V0, 5), c1);
    var s2 := Cpu(6, SetReg(c2, V0, s.input[0]), s.input[1..], s1.out + [Took(s.input[0])]);
    RunsUpTo(text, s1, second, Syscall, c2, s2);
    s' := s2.(pc := Reg(s2.core, RA));
    RunsUpTo(text, s2, [], Jr(RA), s2.core, s');
    RunsThen(text, s, s1, s2);
    RunsThen(text, s, s2, s');
  }

  lemma ThreeSteps(code: Text32, c: Core, c1: Core, c2: Core, c3: Core)
    requires |code| == 3 && Straight(code[0], c) == Some(c1) && Straight(code[1], c1) == Some(c2)
    requires Straight(code[2], c2) == Some(c3)
    ensures RunCore(code, c) == Some(c3)
  {
    RunCoreOne(code[0], c);
    RunCoreOne(code[1], c1);
    RunCoreOne(code[2], c2);
    RunCoreAdd([code[0]], [code[1]], c, c1);
    RunCoreAdd([code[0]] + [code[1]], [code[2]], c, c2);
    assert code == [code[0]] + [code[1]] + [code[2]];
  }

  /** The routine `write`. */
  lemma WriteRuns(text: Text32, s: Cpu) returns (s': Cpu)
    requires There(text, 7, WRITE_ROUTINE) && s.pc == 7 && |s.core.regs| == 32 && Reg(s.core, ZERO) == 0
    ensures Runs(text, s, s') && s'.pc == Reg(s.core, RA) && Spared(s.core, s'.core)
    ensures s'.input == s.input && s'.out == s.out + [Gave(Reg(s.core, A0)), Shown(NewLine)]
  {
    var first, second, third := [Mark(WriteRoutine), Li(V0, 1)], [Li(V0, 4), La(A0, NewLine)], [Move(V0, ZERO)];
    assert WRITE_ROUTINE == (first + [Syscall]) + ((second + [Syscall]) + (third + [Jr(RA)]));
    ThereParts(text, 7, first + [Syscall], (second + [Syscall]) + (third + [Jr(RA)]));
    ThereParts(text, 10, second + [Syscall], third + [Jr(RA)]);
    var c1 := SetReg(s.core, V0, 1);
    TwoSteps(first, s.core, s.core, c1);
    var s1 := s.(pc := 10, core := c1, out := s.out + [Gave(Reg(s.core, A0))]);
    RunsUpTo(text, s, first, Syscall, c1, s1);
    var c2 := SetReg(SetReg(c1, V0, 4), A0, Address(NewLine));
    TwoSteps(second, c1, SetReg(c1, V0, 4), c2);
    var s2 := s1.(pc := 13, core := c2, out := s1.out + [Shown(NewLine)]);
    RunsUpTo(text, s1, second, Syscall, c2, s2);
    var c3 := SetReg(c2, V0, 0);
    RunCoreOne(Move(V0, ZERO), c2);
    s' := s2.(pc := Reg(c3, RA), core := c3);
    RunsUpTo(text, s2, third, Jr(RA), c3, s');
    RunsThen(text, s, s1, s2);
    RunsThen(text, s, s2, s');
  }

  lemma TwoSteps(code: Text32, c: Core, c1: Core, c2: Core)
    requires |code| == 2 && Straight(code[0], c) == Some(c1) && Straight(code[1], c1) == Some(c2)
    ensures RunCore(code, c) == Some(c2)
  {
    RunCoreOne(code[0], c);
    RunCoreOne(code[1], c1);
    RunCoreAdd([code[0]], [code[1]], c, c1);
    assert code == [code[0]] + [code[1]];
  }

  /** Before a routine: the return address is saved. */
  lemma EnterRoutine(text: Text32, s: Cpu, sym: Symbol, entry: nat) returns (s': Cpu)
    requires There(text, s.pc, PUSH_RA + [Jal(sym)]) && Lookup(text, 0, sym) == Some(entry)
    requires |s.core.regs| == 32 && Aligned(Reg(s.core, SP) - 4) && IsInt32(Reg(s.core, SP))
    ensures Runs(text, s, s') && s'.pc == entry && s'.input == s.input && s'.out == s.out
    ensures |s'.core.regs| == 32 && Reg(s'.core, SP) == Reg(s.core, SP) - 4 && Reg(s'.core, RA) == s.pc + 3
    ensures s'.core.mem == s.core.mem[Reg(s.core, SP) - 4 := Reg(s.core, RA)]
    ensures forall r: nat :: r != SP && r != RA ==> Reg(s'.core, r) == Reg(s.core, r)
  {
    var c1 := SetReg(s.core, SP, Reg(s.core, SP) - 4);
    var c2 := c1.(mem := c1.mem[Reg(s.core, SP) - 4 := Reg(s.core, RA)]);
    PushRaOk(s.core);
    s' := s.(pc := entry, core := SetReg(c2, RA, s.pc + 3));
    RunsUpTo(text, s, PUSH_RA, Jal(sym), c2, s');
  }

  /** After a routine: everything but $v0 and $a0 is as it was before the return address was saved. */
  lemma LeaveRoutine(text: Text32, s: Cpu, s1: Cpu, s2: Cpu) returns (s': Cpu)
    requires |s.core.regs| == 32 && Aligned(Reg(s.core, SP) - 4) && IsInt32(Reg(s.core, SP))
    requires s1.core.mem == s.core.mem[Reg(s.core, SP) - 4 := Reg(s.core, RA)]
    requires Reg(s1.core, SP) == Reg(s.core, SP) - 4
    requires forall r: nat :: r != SP && r != RA ==> Reg(s1.core, r) == Reg(s.core, r)
    requires Spared(s1.core, s2.core) && There(text, s2.pc, POP_RA)
    ensures Runs(text, s2, s') && s'.pc == s2.pc + 2 && s'.input == s2.input && s'.out == s2.out
    ensures Reg(s'.core, V0) == Reg(s2.core, V0) && s'.core.mem == s1.core.mem
    ensures |s'.core.regs| == 32 && forall r: nat :: r != V0 && r != A0 ==> Reg(s'.core, r) == Reg(s.core, r)
  {
    PopRaOk(s2.core);
    var c := SetReg(SetReg(s2.core, RA, Load(s2.core.mem, Reg(s2.core, SP))), SP, Reg(s2.core, SP) + 4);
    s' := s2.(pc := s2.pc + 2, core := c);
    RunsCore(text, s2, POP_RA, c);
  }

  /** Saving the return address below the frame disturbs nothing. */
  lemma StillAtWork(m: Machine, fr: Frame, c: Core, c': Core)
    requires AtWork(m, fr, c) && |c'.regs| == 32 && forall r: nat :: r != V0 && r != A0 ==> Reg(c', r) == Reg(c, r)
    requires c'.mem == c.mem[Reg(c, SP) - 4 := Reg(c, RA)]
    ensures AtWork(m, fr, c') && Reg(c', RA) == Reg(c, RA) && SameFrom(c.mem, c'.mem, Reg(c, SP))
  {
    InMemoryKept(m, fr, c.mem, c'.mem, Reg(c, SP));
  }

  lemma StackWord(m: Machine, fr: Frame, c: Core)
    requires AtWork(m, fr, c)
    ensures Aligned(Reg(c, SP) - 4) && IsInt32(Reg(c, SP)) && Reg(c, SP) <= fr.fp
  {
  }

  /** Reading an integer. */
  lemma ReadCall(m: Machine, im: Image, fr: Frame, s: Cpu) returns (s': Cpu)
    requires Built(m, im) && AtWork(m, fr, s.core) && s.input != []
    requires There(im.text, s.pc, PUSH_RA + [Jal(ReadRoutine)] + POP_RA)
    ensures Runs(im.text, s, s') && s'.pc == s.pc + 5
    ensures AtWork(m, fr, s'.core) && Reg(s'.core, RA) == Reg(s.core, RA) && SameFrom(s.core.mem, s'.core.mem, fr.fp)
    ensures Reg(s'.core, V0) == s.input[0]
    ensures s'.input == s.input[1..] && s'.out == s.out + [Shown(Prompt), Took(s.input[0])]
  {
    var text := im.text;
    RoutinesIn(m, im);
    StackWord(m, fr, s.core);
    ThereParts(text, s.pc, PUSH_RA + [Jal(ReadRoutine)], POP_RA);
    var s1 := EnterRoutine(text, s, ReadRoutine, 0);
    var s2 := ReadRuns(text, s1);
    s' := LeaveRoutine(text, s, s1, s2);
    StillAtWork(m, fr, s.core, s'.core);
    RunsThen(text, s, s1, s2);
    RunsThen(text, s, s2, s');
  }

  /** Writing the integer in $a0. */
  lemma WriteCall(m: Machine, im: Image, fr: Frame, s: Cpu) returns (s': Cpu)
    requires Built(m, im) && AtWork(m, fr, s.core)
    requires There(im.text, s.pc, PUSH_RA + [Jal(WriteRoutine)] + POP_RA)
    ensures Runs(im.text, s, s') && s'.pc == s.pc + 5
    ensures AtWork(m, fr, s'.core) && Reg(s'.core, RA) == Reg(s.core, RA) && SameFrom(s.core.mem, s'.core.mem, fr.fp)
    ensures s'.input == s.input && s'.out == s.out + [Gave(Reg(s.core, A0)), Shown(NewLine)]
  {
    var text := im.text;
    RoutinesIn(m, im);
    StackWord(m, fr, s.core);
    ThereParts(text, s.pc, PUSH_RA + [Jal(WriteRoutine)], POP_RA);
    var s1 := EnterRoutine(text, s, WriteRoutine, 7);
    var s2 := WriteRuns(text, s1);
    s' := LeaveRoutine(text, s, s1, s2);
    StillAtWork(m, fr, s.core, s'.core);
    RunsThen(text, s, s1, s2);
    RunsThen(text, s, s2, s');
  }
}
