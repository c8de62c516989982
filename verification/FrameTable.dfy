/** The frames of the code generator: for every function the list of its operands with their offsets,
    the operand that was added last in front. */
module FrameTable {
  import opened Common
  import opened Ir
  import opened Frames

  /** Operands are the same if kind and contents are. */
  predicate OpEqual(op1: Operand, op2: Operand) {
    match (op1, op2)
    case (Variable(x), Variable(y)) => x == y
    case (Temp(i), Temp(j)) => i == j
    case (Const(m), Const(n)) => m == n
    case (GetAddr(a), GetAddr(b)) => OpEqual(a, b)
    case (GetVal(a), GetVal(b)) => OpEqual(a, b)
    case _ => false
  }

  lemma {:induction false} OpEqualIsEqual(op1: Operand, op2: Operand)
    ensures OpEqual(op1, op2) <==> op1 == op2
    decreases op1
  {
    match (op1, op2)
    case (GetAddr(a), GetAddr(b)) => OpEqualIsEqual(a, b);
    case (GetVal(a), GetVal(b)) => OpEqualIsEqual(a, b);
    case _ =>
  }

  class Entry {
    const op: Operand
    const offset: nat
    const next: Entry?
    /** The layout that the entries from this one on amount to, and their number. */
    ghost const lay: FrameLayout
    ghost const count: nat

    constructor (op: Operand, size: nat, next: Entry?)
      requires EntriesOk(next) && op !in Lay(next).slots
      ensures this.op == op && this.next == next && EntriesOk(this) && Lay(this) == AddSlot(Lay(next), op, size)
    {
      this.op, this.next := op, next;
      this.offset := if next == null then size else size + next.offset;
      this.lay := AddSlot(Lay(next), op, size);
      this.count := if next == null then 1 else next.count + 1;
    }
  }

  ghost function Lay(e: Entry?): FrameLayout {
    if e == null then EMPTY else e.lay
  }

  /** Every entry lies below those behind it in the list. */
  ghost predicate EntriesOk(e: Entry?)
    decreases if e == null then 0 else e.count
  {
    e != null ==>
      && e.offset == e.lay.size && e.op !in Lay(e.next).slots
      && (exists size :: e.lay == AddSlot(Lay(e.next), e.op, size))
      && e.count == (if e.next == null then 1 else e.next.count + 1)
      && EntriesOk(e.next)
  }

  class FrameNode {
    const name: string
    const next: FrameNode?
    var varlist: Entry?

    ghost predicate Valid()
      reads this
    {
      EntriesOk(varlist)
    }

    ghost function Layout(): FrameLayout
      reads this
    {
      Lay(varlist)
    }

    constructor (name: string, next: FrameNode?)
      ensures this.name == name && this.next == next && Valid() && Layout() == EMPTY
    {
      this.name, this.next, varlist := name, next, null;
    }

    method Lookup(op: Operand) returns (v: Entry?)
      requires Valid()
      ensures v == null <==> op !in Layout().slots
      ensures v != null ==> v.op == op && v.offset == Layout().slots[op].offset
    {
      v := varlist;
      while v != null
        invariant EntriesOk(v) && (op in Layout().slots <==> op in Lay(v).slots)
        invariant op in Layout().slots ==> Layout().slots[op] == Lay(v).slots[op]
        decreases if v == null then 0 else v.count
      {
        OpEqualIsEqual(v.op, op);
        if OpEqual(v.op, op) {
          return;
        }
        v := v.next;
      }
    }

    method Insert(op: Operand, size: nat) returns (v: Entry)
      requires Valid() && op !in Layout().slots
      modifies this
      ensures Valid() && Layout() == AddSlot(old(Layout()), op, size)
      ensures v.op == op && v.offset == Layout().slots[op].offset
    {
      v := new Entry(op, size, varlist);
      varlist := v;
    }

    /** The entry of an operand, which is added if it is not there yet. */
    method HandleVariable(op: Operand, size: nat) returns (v: Entry)
      requires Valid()
      modifies this
      ensures Valid() && Layout() == Handle(old(Layout()), op, size)
      ensures v.op == op && v.offset == Layout().slots[op].offset
    {
      var found := Lookup(op);
      if found != null {
        v := found;
      } else {
        v := Insert(op, size);
      }
    }

    method TryHandleAll(ops: seq<Operand>, sizes: Operand -> nat)
      requires Valid()
      modifies this
      ensures Valid() && Layout() == HandleAll(old(Layout()), ops, sizes)
    {
      var i := 0;
      while i < |ops|
        invariant i <= |ops| && Valid()
        invariant HandleAll(old(Layout()), ops, sizes) == HandleAll(Layout(), ops[i..], sizes)
      {
        assert ops[i..][0] == ops[i] && ops[i..][1..] == ops[i + 1..];
        if HasSlot(ops[i]) {
          var _ := HandleVariable(ops[i], sizes(ops[i]));
        }
        i := i + 1;
      }
    }
  }

  /** Every function is defined once. */
  predicate FunctionsOnce(code: Code) {
    forall i, j :: 0 <= i < j < |code| && code[i].FUNC? && code[j].FUNC? ==> code[i].name != code[j].name
  }

  lemma {:induction false} NoFrameYet(code: Code, n: nat, f: string, sizes: Operand -> nat)
    requires n <= |code| && forall j :: 0 <= j < n ==> code[j] != FUNC(f)
    ensures FrameOf(code, n, f, sizes) == EMPTY && FnAt(code, n) != Some(f)
    decreases n
  {
    if n > 0 {
      NoFrameYet(code, n - 1, f, sizes);
    }
  }

  /** The functions defined so far, the last one first. */
  function FunctionsSoFar(code: Code, n: nat): seq<string>
    requires n <= |code|
  {
    if n == 0 then []
    else (if code[n - 1].FUNC? then [code[n - 1].name] else []) + FunctionsSoFar(code, n - 1)
  }

  lemma {:induction false} DefinedIs(code: Code, n: nat)
    requires n <= |code|
    ensures forall f :: f in FunctionsSoFar(code, n) ==> exists j :: 0 <= j < n && code[j] == FUNC(f)
    ensures FnAt(code, n) == if FunctionsSoFar(code, n) == [] then None else Some(FunctionsSoFar(code, n)[0])
    decreases n
  {
    if n > 0 {
      DefinedIs(code, n - 1);
    }
  }

  lemma {:induction false} DefinedOnce(code: Code, n: nat)
    requires n <= |code| && FunctionsOnce(code)
    ensures forall i, j :: 0 <= i < j < |FunctionsSoFar(code, n)| ==>
            FunctionsSoFar(code, n)[i] != FunctionsSoFar(code, n)[j]
    decreases n
  {
    if n > 0 {
      DefinedOnce(code, n - 1);
      DefinedIs(code, n - 1);
    }
  }

  /** `frames` are linked through `next`, starting at `head`. */
  predicate Stacked(head: FrameNode?, frames: seq<FrameNode>)
    decreases |frames|
  {
    if frames == [] then head == null else head == frames[0] && Stacked(head.next, frames[1..])
  }

  /** Instructions of other functions leave a frame alone. */
  lemma Unaffected(code: Code, n: nat, f: string, sizes: Operand -> nat)
    requires n < |code| && FnAt(code, n) != Some(f)
    ensures FrameOf(code, n + 1, f, sizes) == FrameOf(code, n, f, sizes)
  {
  }

  class Table {
    var frameStack: FrameNode?
    var currentFrame: FrameNode?
    ghost var frames: seq<FrameNode>

    ghost predicate Valid()
      reads this, frames
    {
      && Stacked(frameStack, frames)
      && forall frame :: frame in frames ==> frame.Valid()
    }

    constructor ()
      ensures Valid() && frames == [] && currentFrame == null
    {
      frameStack, currentFrame := null, null;
      frames := [];
    }

    /** The frames are those of the functions `names`, laid out by the first `n` instructions. */
    ghost predicate LaidOut(names: seq<string>, code: Code, n: nat, sizes: string -> Operand -> nat)
      requires n <= |code|
      reads this, frames
    {
      && |frames| == |names|
      && forall i {:trigger FrameIs(i, names, code, n, sizes)} :: 0 <= i < |frames| ==>
        FrameIs(i, names, code, n, sizes)
    }

    ghost predicate FrameIs(i: nat, names: seq<string>, code: Code, n: nat, sizes: string -> Operand -> nat)
      requires i < |frames| == |names| && n <= |code|
      reads this, frames
    {
      frames[i].name == names[i] && frames[i].Layout() == FrameOf(code, n, names[i], sizes(names[i]))
    }

    /** One pass over the code gives every operand of every function its offset. */
    method InitFrames(code: Code, sizes: string -> Operand -> nat)
      requires Valid() && frames == [] && FunctionsOnce(code)
      modifies this
      ensures Valid() && fresh(frames) && LaidOut(FunctionsSoFar(code, |code|), code, |code|, sizes)
      ensures currentFrame == old(currentFrame)
    {
      var n := 0;
      while n < |code|
        invariant n <= |code| && Valid() && fresh(frames) && LaidOut(FunctionsSoFar(code, n), code, n, sizes)
        invariant currentFrame == old(currentFrame)
      {
        DefinedIs(code, n);
        DefinedOnce(code, n);
        if code[n].FUNC? {
          Push(FunctionsSoFar(code, n), code, n, sizes);
        } else {
          assert [] + FunctionsSoFar(code, n) == FunctionsSoFar(code, n);
          TopHandles(FunctionsSoFar(code, n), code, n, sizes);
        }
        n := n + 1;
      }
    }

    method Push(ghost names: seq<string>, code: Code, n: nat, sizes: string -> Operand -> nat)
      requires Valid() && FunctionsOnce(code) && n < |code| && code[n].FUNC? && LaidOut(names, code, n, sizes)
      requires FnAt(code, n) == (if names == [] then None else Some(names[0]))
      requires forall f :: f in names ==> exists j :: 0 <= j < n && code[j] == FUNC(f)
      modifies `frameStack, `frames
      ensures Valid() && LaidOut([code[n].name] + names, code, n + 1, sizes)
      ensures |frames| == |old(frames)| + 1 && fresh(frames[0]) && frames[1..] == old(frames)
    {
      var frame := new FrameNode(code[n].name, frameStack);
      frameStack := frame;
      ghost var before, all := frames, [code[n].name] + names;
      frames := [frame] + frames;
      assert frames[1..] == before;
      NoFrameYet(code, n, code[n].name, sizes(code[n].name));
      forall i {:trigger FrameIs(i, all, code, n + 1, sizes)} | 0 <= i < |frames|
        ensures FrameIs(i, all, code, n + 1, sizes) {
        if i > 0 {
          assert old(FrameIs(i - 1, names, code, n, sizes));
          assert frames[i] == before[i - 1] && all[i] == names[i - 1];
        }
      }
    }

    /** Operands of an instruction belong to the function that was defined last. */
    method TopHandles(ghost names: seq<string>, code: Code, n: nat, sizes: string -> Operand -> nat)
      requires Valid() && n < |code| && !code[n].FUNC? && LaidOut(names, code, n, sizes)
      requires FnAt(code, n) == (if names == [] then None else Some(names[0]))
      requires forall i, j :: 0 <= i < j < |names| ==> names[i] != names[j]
      modifies frames
      ensures Valid() && LaidOut(names, code, n + 1, sizes)
    {
      if frameStack != null {
        assert FrameIs(0, names, code, n, sizes);
        frameStack.TryHandleAll(Tracked(code[n]), sizes(frameStack.name));
        forall i {:trigger FrameIs(i, names, code, n + 1, sizes)} | 0 <= i < |frames|
          ensures FrameIs(i, names, code, n + 1, sizes) {
          assert old(FrameIs(i, names, code, n, sizes));
          if i > 0 {
            assert frames[i] != frames[0];
            Unaffected(code, n, names[i], sizes(names[i]));
          }
        }
      }
    }

    /** The frame of a function becomes the current one. */
    method UpdateFramePointer(name: string)
      requires Valid()
      modifies `currentFrame
      ensures currentFrame == null ==> forall frame :: frame in frames ==> frame.name != name
      ensures currentFrame != null ==> currentFrame in frames && currentFrame.name == name
    {
      var ptr := frameStack;
      ghost var left := frames;
      while ptr != null
        invariant Stacked(ptr, left) && (forall frame :: frame in left ==> frame in frames)
        invariant forall frame :: frame in frames && frame.name == name ==> frame in left
        invariant currentFrame == old(currentFrame)
        decreases |left|
      {
        if ptr.name == name {
          currentFrame := ptr;
          return;
        }
        ptr := ptr.next;
        left := left[1..];
      }
      currentFrame := null;
    }
  }
}
