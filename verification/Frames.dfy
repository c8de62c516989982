/** Frame layout: every variable and temporary of a function gets a slot below the frame pointer. */
module Frames {
  import opened Common
  import opened Ir
  import opened Represent

  /** The operands that the layout pass looks at, in order. */
  function Tracked(ins: Instr): seq<Operand> {
    match ins
    case RETURN(src) => [src]
    case DEC(x, _) => [Variable(x)]
    case ARG(src) => [src]
    case CALL(dst, _) => [dst]
    case PARAM(x) => [Variable(x)]
    case READ(dst) => [dst]
    case WRITE(src) => [src]
    case ASSIGN(dst, src) => [dst, src]
    case IF_GOTO(_, src1, src2, _) => [src1, src2]
    case ARITH(_, dst, src1, src2) => [dst, src1, src2]
    case _ => []
  }

  /** The variables and temporaries that an instruction gives a value to. */
  function GivesOf(ins: Instr): set<Operand> {
    match ins
    case ASSIGN(dst, _) => if HasSlot(dst) then {dst} else {}
    case ARITH(_, dst, _, _) => if HasSlot(dst) then {dst} else {}
    case CALL(dst, _) => if HasSlot(dst) then {dst} else {}
    case READ(dst) => if HasSlot(dst) then {dst} else {}
    case PARAM(x) => {Variable(x)}
    case _ => {}
  }

  lemma GivenIsTracked(ins: Instr)
    ensures forall op :: op in GivesOf(ins) ==> op in Tracked(ins) && HasSlot(op)
  {
  }

  const EMPTY: FrameLayout := FrameLayout(map[], 0)

  /** A new slot goes below all others. */
  function AddSlot(lay: FrameLayout, op: Operand, size: nat): FrameLayout {
    FrameLayout(lay.slots[op := Slot(lay.size + size, size)], lay.size + size)
  }

  function Handle(lay: FrameLayout, op: Operand, size: nat): FrameLayout {
    if op in lay.slots then lay else AddSlot(lay, op, size)
  }

  function HandleAll(lay: FrameLayout, ops: seq<Operand>, sizes: Operand -> nat): FrameLayout
    decreases |ops|
  {
    if ops == [] then lay
    else
      var first := if HasSlot(ops[0]) then Handle(lay, ops[0], sizes(ops[0])) else lay;
      HandleAll(first, ops[1..], sizes)
  }

  /** The frame of `f` after the first `n` instructions. */
  function FrameOf(code: Code, n: nat, f: string, sizes: Operand -> nat): FrameLayout
    requires n <= |code|
  {
    if n == 0 then EMPTY
    else
      var before := FrameOf(code, n - 1, f, sizes);
      if FnAt(code, n - 1) == Some(f) then HandleAll(before, Tracked(code[n - 1]), sizes) else before
  }

  /** What the layout pass keeps: slots do not overlap and lie inside the frame, and each has the size of
      its operand. */
  ghost predicate Sound(lay: FrameLayout, sizes: Operand -> nat) {
    && GoodLayout(lay)
    && forall x :: x in lay.slots ==> HasSlot(x) && lay.slots[x].size == sizes(x)
  }

  ghost predicate Extends(lay: FrameLayout, lay': FrameLayout) {
    forall x :: x in lay.slots ==> x in lay'.slots && lay'.slots[x] == lay.slots[x]
  }

  lemma {:induction false} HandleAllSound(lay: FrameLayout, ops: seq<Operand>, sizes: Operand -> nat)
    requires Sound(lay, sizes)
    ensures var lay' := HandleAll(lay, ops, sizes);
            && Sound(lay', sizes) && Extends(lay, lay')
            && forall i :: 0 <= i < |ops| && HasSlot(ops[i]) ==> ops[i] in lay'.slots
    decreases |ops|
  {
    if ops != [] {
      var first := if HasSlot(ops[0]) then Handle(lay, ops[0], sizes(ops[0])) else lay;
      HandleAllSound(first, ops[1..], sizes);
      assert forall i :: 0 < i < |ops| ==> ops[i] == ops[1..][i - 1];
    }
  }

  /** Distinct operands of a function never share a byte, and every slot lies inside the frame. */
  lemma {:induction false} FrameIsSound(code: Code, n: nat, f: string, sizes: Operand -> nat)
    requires n <= |code|
    ensures Sound(FrameOf(code, n, f, sizes), sizes)
    decreases n
  {
    if n > 0 {
      FrameIsSound(code, n - 1, f, sizes);
      HandleAllSound(FrameOf(code, n - 1, f, sizes), Tracked(code[n - 1]), sizes);
    }
  }

  predicate Covers(lay: FrameLayout, op: Operand, b: int) {
    op in lay.slots && lay.slots[op].offset - lay.slots[op].size < b <= lay.slots[op].offset
  }

  /** Every byte of the frame belongs to a slot (bytes are counted from the frame pointer down). */
  ghost predicate Full(lay: FrameLayout) {
    forall b: int {:trigger CoveredByte(lay, b)} :: 0 < b <= lay.size ==> CoveredByte(lay, b)
  }

  ghost predicate CoveredByte(lay: FrameLayout, b: int) {
    exists op :: Covers(lay, op, b)
  }

  lemma AddSlotFills(lay: FrameLayout, op: Operand, size: nat)
    requires Full(lay) && op !in lay.slots
    ensures Full(AddSlot(lay, op, size))
  {
    var lay' := AddSlot(lay, op, size);
    forall b: int {:trigger CoveredByte(lay', b)} | 0 < b <= lay'.size ensures CoveredByte(lay', b) {
      if b <= lay.size {
        assert CoveredByte(lay, b);
        var other :| Covers(lay, other, b);
        assert Covers(lay', other, b);
      } else {
        assert Covers(lay', op, b);
      }
    }
  }

  lemma {:induction false} HandleAllFills(lay: FrameLayout, ops: seq<Operand>, sizes: Operand -> nat)
    requires Full(lay)
    ensures Full(HandleAll(lay, ops, sizes))
    decreases |ops|
  {
    if ops != [] {
      var first := if HasSlot(ops[0]) then Handle(lay, ops[0], sizes(ops[0])) else lay;
      if first != lay {
        AddSlotFills(lay, ops[0], sizes(ops[0]));
      }
      HandleAllFills(first, ops[1..], sizes);
    }
  }

  /** No byte of a frame is wasted. */
  lemma {:induction false} FrameIsFull(code: Code, n: nat, f: string, sizes: Operand -> nat)
    requires n <= |code|
    ensures Full(FrameOf(code, n, f, sizes))
    decreases n
  {
    if n > 0 {
      FrameIsFull(code, n - 1, f, sizes);
      HandleAllFills(FrameOf(code, n - 1, f, sizes), Tracked(code[n - 1]), sizes);
    }
  }

  /** The frame of a function has a slot for every operand that its instructions name directly. */
  lemma {:induction false} FrameCovers(code: Code, n: nat, f: string, sizes: Operand -> nat, i: nat, op: Operand)
    requires i < n <= |code| && FnAt(code, i) == Some(f)
    requires op in Tracked(code[i]) && HasSlot(op)
    ensures op in FrameOf(code, n, f, sizes).slots
    decreases n
  {
    FrameIsSound(code, n - 1, f, sizes);
    HandleAllSound(FrameOf(code, n - 1, f, sizes), Tracked(code[n - 1]), sizes);
    if i < n - 1 {
      FrameCovers(code, n - 1, f, sizes, i, op);
    }
  }

  /** An operand of size 0 would share its first byte with the operand laid out before it. */
  lemma EmptySlotOverlaps(lay: FrameLayout, x: Operand, y: Operand)
    requires HasSlot(x) && HasSlot(y) && x != y && x !in lay.slots && y !in lay.slots
    ensures var lay' := Handle(Handle(lay, x, 4), y, 0); lay'.slots[y].offset == lay'.slots[x].offset
  {
  }
}
