/** The pass that takes memory operands apart before code generation. */
module Format {
  import opened Common
  import opened Syntax
  import opened Ir
  import opened Translate
  import opened Represent
  import opened Static

  /** Like `Fetch`, but constants are fetched as well. */
  function Spill(op: Operand, t: nat): (Code, Operand, nat) {
    if IsMemOp(op) || op.Const? then ([ASSIGN(Temp(t), op)], Temp(t), t + 1) else ([], op, t)
  }

  /** What the pass makes of one instruction; `t` is the next fresh temporary. */
  function Expand(ins: Instr, t: nat): (o: (Code, nat))
    ensures t <= o.1
  {
    match ins
    case NULL => ([], t)
    case ASSIGN(dst, src) =>
      if IsMemOp(dst) && IsMemOp(src) then ([ASSIGN(Temp(t), src), ASSIGN(dst, Temp(t))], t + 1) else ([ins], t)
    case IF_GOTO(op, src1, src2, no) =>
      var (code1, actual1, t1) := Fetch(src1, t);
      var (code2, actual2, t2) := Fetch(src2, t1);
      (code1 + code2 + [IF_GOTO(op, actual1, actual2, no)], t2)
    case RETURN(src) =>
      var (code, actual, t') := Fetch(src, t);
      (code + [RETURN(actual)], t')
    case WRITE(src) =>
      var (code, actual, t') := Spill(src, t);
      (code + [WRITE(actual)], t')
    case READ(dst) =>
      var (code, actual, t') := Spill(dst, t);
      (code + [READ(actual)], t')
    case _ => ([ins], t)
  }

  /** The first instruction stays even if it is NULL. */
  function Piece(code: Code, i: nat, t: nat): (o: (Code, nat))
    requires i < |code|
    ensures t <= o.1
  {
    if i == 0 && code[0] == NULL then ([NULL], t) else Expand(code[i], t)
  }

  /** What the pass makes of the first `n` instructions. */
  function Formatted(code: Code, n: nat, t: nat): (o: (Code, nat))
    requires n <= |code|
    ensures t <= o.1
  {
    if n == 0 then ([], t)
    else
      var (before, t1) := Formatted(code, n - 1, t);
      var (piece, t2) := Piece(code, n - 1, t1);
      (before + piece, t2)
  }

  function Whole(code: Code, t: nat): Code {
    Formatted(code, |code|, t).0
  }

  /** Where the code of instruction `i` starts after the pass. */
  function Pos(code: Code, i: nat, t: nat): nat
    requires i <= |code|
  {
    |Formatted(code, i, t).0|
  }

  function PieceAt(code: Code, i: nat, t: nat): Code
    requires i < |code|
  {
    Piece(code, i, Formatted(code, i, t).1).0
  }

  lemma {:induction false} Grows(code: Code, i: nat, n: nat, t: nat)
    requires i <= n <= |code|
    ensures Pos(code, i, t) <= Pos(code, n, t)
    ensures Formatted(code, n, t).0[..Pos(code, i, t)] == Formatted(code, i, t).0
    decreases n
  {
    if i < n {
      Grows(code, i, n - 1, t);
    }
  }

  lemma PieceThere(code: Code, i: nat, t: nat)
    requires i < |code|
    ensures Inside(Whole(code, t), Pos(code, i, t), PieceAt(code, i, t))
    ensures Pos(code, i + 1, t) == Pos(code, i, t) + |PieceAt(code, i, t)|
  {
    Grows(code, i + 1, |code|, t);
    var upto := Formatted(code, i + 1, t).0;
    assert upto == Formatted(code, i, t).0 + PieceAt(code, i, t);
    assert upto[Pos(code, i, t)..] == PieceAt(code, i, t);
  }

  /** An instruction that the pass leaves alone. */
  predicate Untouched(ins: Instr) {
    ins.LABEL? || ins.FUNC? || ins.ARITH? || ins.GOTO? || ins.DEC? || ins.ARG? || ins.CALL? || ins.PARAM?
  }

  lemma SingleThere(code: Code, i: nat, t: nat)
    requires i < |code| && Untouched(code[i])
    ensures Pos(code, i + 1, t) == Pos(code, i, t) + 1 <= |Whole(code, t)|
    ensures Whole(code, t)[Pos(code, i, t)] == code[i]
  {
    PieceThere(code, i, t);
    assert PieceAt(code, i, t) == [code[i]];
    assert Whole(code, t)[Pos(code, i, t)..Pos(code, i, t) + 1][0] == code[i];
  }

  /** No instruction of another kind comes out of the pass than the one that went in, apart from
      loads into fresh temporaries. */
  lemma PieceKind(code: Code, i: nat, t: nat)
    requires i < |code|
    ensures var piece := PieceAt(code, i, t);
            && (forall k :: 0 <= k < |piece| ==> !Untouched(piece[k]) || (|piece| == 1 && piece[k] == code[i]))
            && (Untouched(code[i]) ==> piece == [code[i]])
            && (piece == [] ==> code[i] == NULL)
  {
  }

  /** The instruction that the one at position `j` of the result comes from. */
  lemma {:induction false} Owner(code: Code, n: nat, t: nat, j: nat) returns (i: nat)
    requires n <= |code| && j < Pos(code, n, t)
    ensures i < n && Pos(code, i, t) <= j < Pos(code, i + 1, t)
    decreases n
  {
    if j < Pos(code, n - 1, t) {
      i := Owner(code, n - 1, t, j);
    } else {
      i := n - 1;
    }
  }

  /** An instruction that the pass leaves alone comes from itself. */
  lemma OwnerOf(code: Code, t: nat, j: nat) returns (i: nat)
    requires j < |Whole(code, t)|
    ensures i < |code| && Pos(code, i, t) <= j < Pos(code, i, t) + |PieceAt(code, i, t)|
    ensures Whole(code, t)[j] == PieceAt(code, i, t)[j - Pos(code, i, t)]
    ensures Untouched(Whole(code, t)[j]) ==> j == Pos(code, i, t) && code[i] == Whole(code, t)[j]
  {
    i := Owner(code, |code|, t, j);
    PieceThere(code, i, t);
    PieceKind(code, i, t);
    var at, piece := Pos(code, i, t), PieceAt(code, i, t);
    assert Whole(code, t)[j] == Whole(code, t)[at..at + |piece|][j - at];
  }

  // ----- functions, labels and parameters are found where they were -----

  lemma {:induction false} SameFn(code: Code, from: nat, end: nat)
    requires from <= end <= |code| && forall j :: from <= j < end ==> !code[j].FUNC?
    ensures FnAt(code, end) == FnAt(code, from)
    decreases end
  {
    if from < end {
      SameFn(code, from, end - 1);
    }
  }

  lemma {:induction false} FnThere(code: Code, i: nat, t: nat)
    requires i <= |code|
    ensures Pos(code, i, t) <= |Whole(code, t)| && FnAt(Whole(code, t), Pos(code, i, t)) == FnAt(code, i)
    decreases i
  {
    if i > 0 {
      FnThere(code, i - 1, t);
      FnInside(code, i - 1, |PieceAt(code, i - 1, t)|, t);
      PieceThere(code, i - 1, t);
    }
  }

  /** All instructions that one instruction is replaced by belong to its function. */
  lemma FnInside(code: Code, i: nat, k: nat, t: nat)
    requires i < |code| && k <= |PieceAt(code, i, t)|
    requires FnAt(Whole(code, t), Pos(code, i, t)) == FnAt(code, i)
    ensures Pos(code, i, t) + k <= |Whole(code, t)|
    ensures code[i].FUNC? && k > 0 ==> FnAt(Whole(code, t), Pos(code, i, t) + k) == Some(code[i].name)
    ensures !(code[i].FUNC? && k > 0) ==> FnAt(Whole(code, t), Pos(code, i, t) + k) == FnAt(code, i)
  {
    hide Whole, Pos;
    var at, piece, whole := Pos(code, i, t), PieceAt(code, i, t), Whole(code, t);
    PieceThere(code, i, t);
    PieceKind(code, i, t);
    assert forall j :: at <= j < at + |piece| ==> whole[j] == whole[at..at + |piece|][j - at];
    if !code[i].FUNC? {
      SameFn(whole, at, at + k);
    }
  }

  lemma {:induction false} NotEarlier(code: Code, n: nat, t: nat, ins: Instr)
    requires n <= |code| && (ins.LABEL? || ins.FUNC?) && forall j :: 0 <= j < n ==> code[j] != ins
    ensures forall j :: 0 <= j < Pos(code, n, t) ==> Formatted(code, n, t).0[j] != ins
    decreases n
  {
    if n > 0 {
      NotEarlier(code, n - 1, t, ins);
      PieceKind(code, n - 1, t);
    }
  }

  /** The pass adds no label and no function. */
  lemma NotFoundThere(code: Code, t: nat, ins: Instr)
    requires (ins.LABEL? || ins.FUNC?) && Find(code, 0, ins) == None
    ensures Find(Whole(code, t), 0, ins) == None
  {
    FindFinds(code, 0, ins);
    FindFinds(Whole(code, t), 0, ins);
    if Find(Whole(code, t), 0, ins).Some? {
      var i := OwnerOf(code, t, Find(Whole(code, t), 0, ins).value);
    }
  }

  lemma FindThere(code: Code, t: nat, ins: Instr)
    requires (ins.LABEL? || ins.FUNC?) && Find(code, 0, ins).Some?
    ensures Find(code, 0, ins).value < |code|
    ensures Find(Whole(code, t), 0, ins) == Some(Pos(code, Find(code, 0, ins).value, t))
  {
    FindFinds(code, 0, ins);
    var k := Find(code, 0, ins).value;
    SingleThere(code, k, t);
    NotEarlier(code, k, t, ins);
    Grows(code, k, |code|, t);
    var before := Formatted(code, k, t).0;
    assert forall j :: 0 <= j < |before| ==> Whole(code, t)[j] == before[j];
    FindSkips(Whole(code, t), 0, Pos(code, k, t), ins);
  }

  /** Behind the parameters comes something else, even when NULL instructions are gone. */
  lemma {:induction false} NoParamAt(code: Code, i: nat, t: nat)
    requires Bracketed(code) && i <= |code| && (i == |code| || !code[i].PARAM?)
    ensures Pos(code, i, t) <= |Whole(code, t)|
    ensures Pos(code, i, t) < |Whole(code, t)| ==> !Whole(code, t)[Pos(code, i, t)].PARAM?
    decreases |code| - i
  {
    if i < |code| {
      var at, piece, whole := Pos(code, i, t), PieceAt(code, i, t), Whole(code, t);
      PieceThere(code, i, t);
      PieceKind(code, i, t);
      if piece == [] {
        assert i + 1 < |code| ==> BracketAt(code, i + 1);
        NoParamAt(code, i + 1, t);
      } else {
        assert whole[at] == whole[at..at + |piece|][0];
      }
    }
  }

  lemma {:induction false} ParamsThere(code: Code, i: nat, t: nat)
    requires Bracketed(code) && i <= |code|
    ensures Params(Whole(code, t), Pos(code, i, t)) == Params(code, i)
    decreases |code| - i
  {
    if i < |code| && code[i].PARAM? {
      SingleThere(code, i, t);
      ParamsThere(code, i + 1, t);
    } else {
      NoParamAt(code, i, t);
    }
  }

  // ----- arguments stay in front of their call -----

  lemma {:induction false} NoArgBefore(code: Code, i: nat, t: nat)
    requires Bracketed(code) && i <= |code| && (i == 0 || !code[i - 1].ARG?)
    ensures var c := Formatted(code, i, t).0; c == [] || !c[|c| - 1].ARG?
    decreases i
  {
    if i > 0 {
      PieceKind(code, i - 1, t);
      if PieceAt(code, i - 1, t) == [] {
        assert i > 1 ==> BracketAt(code, i - 2);
        NoArgBefore(code, i - 1, t);
      }
    }
  }

  lemma {:induction false} ArgRunThere(code: Code, i: nat, t: nat)
    requires Bracketed(code) && i <= |code|
    ensures ArgRun(Formatted(code, i, t).0, Pos(code, i, t)) == ArgRun(code, i)
    decreases i
  {
    if i > 0 && code[i - 1].ARG? {
      var before := Formatted(code, i - 1, t).0;
      ArgRunThere(code, i - 1, t);
      ArgRunLocal(before, [code[i - 1]], |before|);
    } else {
      NoArgBefore(code, i, t);
    }
  }

  lemma ArgRunWhole(code: Code, i: nat, t: nat)
    requires Bracketed(code) && i <= |code|
    ensures Pos(code, i, t) <= |Whole(code, t)| && ArgRun(Whole(code, t), Pos(code, i, t)) == ArgRun(code, i)
  {
    var before, whole := Formatted(code, i, t).0, Whole(code, t);
    Grows(code, i, |code|, t);
    ArgRunThere(code, i, t);
    assert whole == before + whole[|before|..];
    ArgRunLocal(before, whole[|before|..], |before|);
  }

  /** Calls keep exactly their arguments. */
  lemma BracketsKept(code: Code, t: nat)
    requires Bracketed(code)
    ensures Bracketed(Whole(code, t))
  {
    var whole := Whole(code, t);
    forall j | 0 <= j < |whole| ensures BracketAt(whole, j) {
      BracketKept(code, t, j);
    }
    NoArgBefore(code, |code|, t);
  }

  lemma BracketKept(code: Code, t: nat, j: nat)
    requires Bracketed(code) && j < |Whole(code, t)|
    ensures BracketAt(Whole(code, t), j)
  {
    var i := OwnerOf(code, t, j);
    assert BracketAt(code, i);
    if Untouched(code[i]) {
      SingleThere(code, i, t);
    }
    match Whole(code, t)[j]
    case CALL(_, _) => ArgRunWhole(code, i, t);
    case ARG(_) => SingleThere(code, i + 1, t);
    case PARAM(_) => SingleThere(code, i - 1, t);
    case _ =>
  }

  // ----- labels and jumps -----

  lemma PieceJumps(code: Code, i: nat, t: nat, k: nat)
    requires i < |code| && k < |PieceAt(code, i, t)|
    requires var ins := PieceAt(code, i, t)[k]; ins.GOTO? || ins.IF_GOTO?
    ensures (code[i].GOTO? || code[i].IF_GOTO?) && code[i].no == PieceAt(code, i, t)[k].no
  {
  }

  lemma JumpTarget(p: Program, t: nat, l: nat, i: nat) returns (j: nat)
    requires var code := TransProgram(p, t, l).code; i < |code| && (code[i].GOTO? || code[i].IF_GOTO?)
    ensures var code := TransProgram(p, t, l).code; j < |code| && code[j] == LABEL(code[i].no)
  {
    hide TransProgram;
    LabelClosure(p, t, l);
    var code := TransProgram(p, t, l).code;
    assert exists j :: 0 <= j < |code| && code[j] == LABEL(code[i].no);
    j :| 0 <= j < |code| && code[j] == LABEL(code[i].no);
  }

  /** The pass keeps labels and jumps: afterwards, too, no label is defined twice and every jump of a
      program has a target. */
  lemma LabelsKept(p: Program, t: nat, l: nat)
    ensures var o := TransProgram(p, t, l);
            var code := Whole(o.code, o.t);
            && LabelsOnce(code)
            && forall i :: 0 <= i < |code| && (code[i].GOTO? || code[i].IF_GOTO?) ==>
                 exists j :: 0 <= j < |code| && code[j] == LABEL(code[i].no)
  {
    hide TransProgram;
    var o := TransProgram(p, t, l);
    var code := Whole(o.code, o.t);
    LabelClosure(p, t, l);
    forall i | 0 <= i < |code| ensures OnlyHere(code, i) {
      forall j | code[i].LABEL? && 0 <= j < |code| && code[j] == code[i] ensures j == i {
        var i' := OwnerOf(o.code, o.t, i);
        var j' := OwnerOf(o.code, o.t, j);
        assert OnlyHere(o.code, i');
      }
    }
    forall i | 0 <= i < |code| && (code[i].GOTO? || code[i].IF_GOTO?)
      ensures exists j :: 0 <= j < |code| && code[j] == LABEL(code[i].no)
    {
      var i' := OwnerOf(o.code, o.t, i);
      PieceJumps(o.code, i', o.t, i - Pos(o.code, i', o.t));
      var j := JumpTarget(p, t, l, i');
      SingleThere(o.code, j, o.t);
      assert code[Pos(o.code, j, o.t)] == LABEL(code[i].no);
    }
  }

  // ----- the shape of the result -----

  /** No assignment has two memory operands; conditional jumps, RETURN and WRITE have none. */
  predicate Flat(ins: Instr) {
    match ins
    case ASSIGN(dst, src) => !(IsMemOp(dst) && IsMemOp(src))
    case IF_GOTO(_, src1, src2, _) => !IsMemOp(src1) && !IsMemOp(src2)
    case RETURN(src) => !IsMemOp(src)
    case WRITE(src) => HasSlot(src)
    case _ => true
  }

  /** After the pass every instruction is flat and NULL survives at most at the head. */
  lemma ResultIsFlat(code: Code, t: nat, j: nat)
    requires j < |Whole(code, t)|
    ensures Flat(Whole(code, t)[j]) && (Whole(code, t)[j] == NULL ==> j == 0)
  {
    var i := OwnerOf(code, t, j);
  }

  /** Well-shaped instructions stay well-shaped. */
  lemma ResultIsWellShaped(code: Code, t: nat, j: nat)
    requires j < |Whole(code, t)| && forall i :: 0 <= i < |code| ==> WellShaped(code[i])
    ensures WellShaped(Whole(code, t)[j])
  {
    var i := OwnerOf(code, t, j);
    assert WellShaped(code[i]);
  }
}
