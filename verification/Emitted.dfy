/** Where the code of each instruction stands in the emitted text, and in which frame it was made. */
module Emitted {
  import opened Common
  import opened Syntax
  import opened Ir
  import opened Frames
  import opened Mips
  import opened CodeGen
  import opened Slots

  function StartOf(m: Machine, sizes: Sizes, i: nat): nat
    requires i <= |m.code|
  {
    |Emit(m, sizes, i).text|
  }

  /** The frame of `f` when instruction `i` is translated. */
  function LayAt(m: Machine, sizes: Sizes, f: string, i: nat): FrameLayout
    requires i <= |m.code|
  {
    LayoutIn(m, Emit(m, sizes, i).lays, f)
  }

  /** The requests for registers by then. */
  function HistAt(m: Machine, sizes: Sizes, i: nat): seq<nat>
    requires i <= |m.code|
  {
    Emit(m, sizes, i).history
  }

  lemma {:induction false} EmitGrows(m: Machine, sizes: Sizes, i: nat, n: nat)
    requires i <= n <= |m.code|
    ensures StartOf(m, sizes, i) <= StartOf(m, sizes, n)
    ensures Emit(m, sizes, n).text[..StartOf(m, sizes, i)] == Emit(m, sizes, i).text
    decreases n
  {
    if i < n {
      EmitGrows(m, sizes, i, n - 1);
    }
  }

  lemma ChunkThere(m: Machine, sizes: Sizes, i: nat)
    requires i < |m.code|
    ensures var chunk := ChunkAt(m, sizes, Emit(m, sizes, i).lays, HistAt(m, sizes, i), i);
            && There(TextOf(m, sizes), StartOf(m, sizes, i), chunk.code)
            && StartOf(m, sizes, i + 1) == StartOf(m, sizes, i) + |chunk.code|
  {
    var chunk := ChunkAt(m, sizes, Emit(m, sizes, i).lays, HistAt(m, sizes, i), i);
    EmitGrows(m, sizes, i + 1, |m.code|);
    var upto := Emit(m, sizes, i + 1).text;
    assert upto == Emit(m, sizes, i).text + chunk.code;
    assert upto[StartOf(m, sizes, i)..] == chunk.code;
  }

  /** The code of an instruction of function `f`. */
  lemma BlockThere(m: Machine, sizes: Sizes, f: string, i: nat)
    requires i < |m.code| && FnAt(m.code, i + 1) == Some(f)
    ensures var block := BlockFor(m.code, i, LayAt(m, sizes, f, i), HistAt(m, sizes, i), sizes(f)).code;
            && There(TextOf(m, sizes), StartOf(m, sizes, i), block)
            && StartOf(m, sizes, i + 1) == StartOf(m, sizes, i) + |block|
  {
    ChunkThere(m, sizes, i);
  }

  // ----- frames only grow -----

  lemma ExtendsThen(a: FrameLayout, b: FrameLayout, c: FrameLayout)
    requires Extends(a, b) && Extends(b, c)
    ensures Extends(a, c)
  {
  }

  lemma {:induction false} ArgsExtend(sizes: Operand -> nat, a: Alloc, ops: seq<Operand>, n: nat)
    requires n <= |ops|
    ensures Extends(a.lay, LoadArgs(sizes, a, ops, n).a.lay)
    decreases n
  {
    if n > 0 {
      var before := LoadArgs(sizes, a, ops, n - 1);
      ArgsExtend(sizes, a, ops, n - 1);
      LoadExtends(sizes, before.a, ops[n - 1], true);
      ExtendsThen(a.lay, before.a.lay, LoadArgs(sizes, a, ops, n).a.lay);
    }
  }

  lemma {:induction false} ParamsExtend(sizes: Operand -> nat, lay: FrameLayout, ps: seq<string>, n: nat)
    requires n <= |ps|
    ensures Extends(lay, TakeParams(sizes, lay, ps, n).lay)
    decreases n
  {
    if n > 0 {
      ParamsExtend(sizes, lay, ps, n - 1);
    }
  }

  lemma StoreExtends(sizes: Operand -> nat, a: Alloc, dst: Operand, reg: nat)
    ensures Extends(a.lay, StoreInto(sizes, a, dst, reg).lay)
  {
    if !HasSlot(dst) && dst.GetVal? {
      LoadExtends(sizes, a, dst.opr, true);
    }
  }

  lemma ArithExtends(sizes: Operand -> nat, a: Alloc, op: ArithOp, dst: Operand, src1: Operand, src2: Operand)
    ensures Extends(a.lay, ArithBlock(sizes, a, op, dst, src1, src2).lay)
  {
    var x := LoadOp(sizes, a, src1, true);
    var y := LoadOp(sizes, x.a, src2, true);
    LoadExtends(sizes, a, src1, true);
    LoadExtends(sizes, x.a, src2, true);
    ExtendsThen(a.lay, x.a.lay, y.a.lay);
    if HasSlot(dst) {
      LoadExtends(sizes, y.a, dst, false);
    } else if dst.GetVal? {
      var d := LoadOp(sizes, y.a, dst.opr, true);
      LoadExtends(sizes, y.a, dst.opr, true);
      LoadExtends(sizes, d.a, dst.opr, false);
      ExtendsThen(a.lay, y.a.lay, d.a.lay);
      ExtendsThen(a.lay, d.a.lay, LoadOp(sizes, d.a, dst.opr, false).a.lay);
    }
  }

  lemma BlockExtends(code: Code, i: nat, lay: FrameLayout, h: seq<nat>, sizes: Operand -> nat)
    requires i < |code|
    ensures Extends(lay, BlockFor(code, i, lay, h, sizes).lay)
  {
    hide LoadOp, StoreInto, LoadArgs, TakeParams;
    var a := Alloc(lay, [], h);
    match code[i]
    case FUNC(f) => ParamsExtend(sizes, lay, Params(code, i + 1), |Params(code, i + 1)|);
    case ASSIGN(dst, src) =>
      var x := LoadOp(sizes, a, src, true);
      LoadExtends(sizes, a, src, true);
      StoreExtends(sizes, x.a, dst, x.reg);
    case ARITH(op, dst, src1, src2) => ArithExtends(sizes, a, op, dst, src1, src2);
    case IF_GOTO(_, src1, src2, _) =>
      LoadExtends(sizes, a, src1, true);
      LoadExtends(sizes, LoadOp(sizes, a, src1, true).a, src2, true);
    case RETURN(src) => LoadExtends(sizes, a, if src.GetVal? then src.opr else src, true);
    case CALL(dst, f) =>
      var ops := ArgRun(code, i);
      ArgsExtend(sizes, a, ops, |ops|);
      StoreExtends(sizes, CallFront(sizes, a, ops).1, dst, V0);
    case READ(dst) =>
      if HasSlot(dst) {
        LoadExtends(sizes, a, dst, false);
      } else {
        StoreExtends(sizes, a, dst, V0);
      }
    case WRITE(src) => LoadExtends(sizes, a, src, true);
    case _ =>
  }

  lemma {:induction false} LayExtends(m: Machine, sizes: Sizes, f: string, n: nat)
    requires n <= |m.code|
    ensures Extends(m.layout(f), LayAt(m, sizes, f, n))
    decreases n
  {
    hide BlockFor;
    if n > 0 {
      LayExtends(m, sizes, f, n - 1);
      if FnAt(m.code, n) == Some(f) {
        BlockExtends(m.code, n - 1, LayAt(m, sizes, f, n - 1), HistAt(m, sizes, n - 1), sizes(f));
      }
    }
  }

  /** A function is entered with the frame that was laid out for it. */
  lemma {:induction false} EntryLay(m: Machine, sizes: Sizes, f: string, n: nat)
    requires n <= |m.code| && forall j :: 0 <= j < n ==> m.code[j] != FUNC(f)
    ensures f !in Emit(m, sizes, n).lays
    decreases n
  {
    if n > 0 {
      EntryLay(m, sizes, f, n - 1);
      NoSuchFn(m.code, f, n);
    }
  }

  lemma {:induction false} NoSuchFn(code: Code, f: string, n: nat)
    requires n <= |code| && forall j :: 0 <= j < n ==> code[j] != FUNC(f)
    ensures FnAt(code, n) != Some(f)
    decreases n
  {
    if n > 0 {
      NoSuchFn(code, f, n - 1);
    }
  }

  // ----- label lines -----

  /** Only the first line of a block can be a label line, namely that of a label or function. */
  predicate Heads(ins: Instr, text: Text32) {
    forall k :: 0 <= k < |text| && text[k].Mark? ==>
      k == 0 && ((ins.LABEL? && text[0] == Mark(Lab(ins.no))) || (ins.FUNC? && text[0] == Mark(Fn(ins.name))))
  }

  predicate NoMark(text: Text32) {
    forall k :: 0 <= k < |text| ==> !text[k].Mark?
  }

  lemma {:induction false} LoadNoMark(sizes: Operand -> nat, a: Alloc, op: Operand, load: bool)
    ensures NoMark(LoadOp(sizes, a, op, load).code)
    decreases op
  {
    match op
    case GetVal(o) => LoadNoMark(sizes, a, o, load);
    case GetAddr(o) => LoadNoMark(sizes, a, o, load);
    case _ =>
  }

  lemma {:induction false} ArgsNoMark(sizes: Operand -> nat, a: Alloc, ops: seq<Operand>, n: nat)
    requires n <= |ops|
    ensures NoMark(LoadArgs(sizes, a, ops, n).code)
    decreases n
  {
    if n > 0 {
      ArgsNoMark(sizes, a, ops, n - 1);
      LoadNoMark(sizes, LoadArgs(sizes, a, ops, n - 1).a, ops[n - 1], true);
    }
  }

  lemma {:induction false} SpreadNoMark(regs: seq<nat>, n: nat)
    requires n <= |regs|
    ensures NoMark(Spread(regs, n))
    decreases n
  {
    if n > 0 {
      SpreadNoMark(regs, n - 1);
    }
  }

  lemma {:induction false} ParamsNoMark(sizes: Operand -> nat, lay: FrameLayout, ps: seq<string>, n: nat)
    requires n <= |ps|
    ensures NoMark(TakeParams(sizes, lay, ps, n).code)
    decreases n
  {
    if n > 0 {
      ParamsNoMark(sizes, lay, ps, n - 1);
    }
  }

  lemma StoreNoMark(sizes: Operand -> nat, a: Alloc, dst: Operand, reg: nat)
    ensures NoMark(StoreInto(sizes, a, dst, reg).code)
  {
    if !HasSlot(dst) && dst.GetVal? {
      LoadNoMark(sizes, a, dst.opr, true);
    }
  }

  lemma ArithNoMark(sizes: Operand -> nat, a: Alloc, op: ArithOp, dst: Operand, src1: Operand, src2: Operand)
    ensures NoMark(ArithBlock(sizes, a, op, dst, src1, src2).code)
  {
    hide LoadOp;
    var x := LoadOp(sizes, a, src1, true);
    var y := LoadOp(sizes, x.a, src2, true);
    LoadNoMark(sizes, a, src1, true);
    LoadNoMark(sizes, x.a, src2, true);
    if HasSlot(dst) {
      LoadNoMark(sizes, y.a, dst, false);
    } else if dst.GetVal? {
      LoadNoMark(sizes, y.a, dst.opr, true);
      LoadNoMark(sizes, LoadOp(sizes, y.a, dst.opr, true).a, dst.opr, false);
    }
  }

  lemma BlockHeads(code: Code, i: nat, lay: FrameLayout, h: seq<nat>, sizes: Operand -> nat)
    requires i < |code|
    ensures Heads(code[i], BlockFor(code, i, lay, h, sizes).code)
  {
    if code[i].FUNC? {
      ParamsNoMark(sizes, lay, Params(code, i + 1), |Params(code, i + 1)|);
    } else if code[i].CALL? {
      CallNoMark(sizes, Alloc(lay, [], h), code[i].dst, code[i].name, ArgRun(code, i));
    } else if !code[i].LABEL? {
      BlockNoMark(code, i, lay, h, sizes);
    }
  }

  lemma BlockNoMark(code: Code, i: nat, lay: FrameLayout, h: seq<nat>, sizes: Operand -> nat)
    requires i < |code| && !code[i].FUNC? && !code[i].LABEL? && !code[i].CALL?
    ensures NoMark(BlockFor(code, i, lay, h, sizes).code)
  {
    var a := Alloc(lay, [], h);
    match code[i]
    case ASSIGN(dst, src) =>
      var x := LoadOp(sizes, a, src, true);
      LoadNoMark(sizes, a, src, true);
      StoreNoMark(sizes, x.a, dst, x.reg);
    case ARITH(op, dst, src1, src2) => ArithNoMark(sizes, a, op, dst, src1, src2);
    case IF_GOTO(_, src1, src2, _) =>
      LoadNoMark(sizes, a, src1, true);
      LoadNoMark(sizes, LoadOp(sizes, a, src1, true).a, src2, true);
    case RETURN(src) => LoadNoMark(sizes, a, if src.GetVal? then src.opr else src, true);
    case READ(dst) => ReadNoMark(sizes, a, dst);
    case WRITE(src) => LoadNoMark(sizes, a, src, true);
    case _ =>
  }

  lemma ReadNoMark(sizes: Operand -> nat, a: Alloc, dst: Operand)
    ensures NoMark(ReadBlock(sizes, a, dst).code)
  {
    if HasSlot(dst) {
      LoadNoMark(sizes, a, dst, false);
    } else if dst.GetVal? {
      LoadNoMark(sizes, a, dst.opr, true);
    }
  }

  lemma CallNoMark(sizes: Operand -> nat, a: Alloc, dst: Operand, f: string, ops: seq<Operand>)
    ensures NoMark(CallBlock(sizes, a, dst, f, ops).code)
  {
    hide LoadArgs, StoreInto, LoadOp, Spread;
    var args := LoadArgs(sizes, a, ops, |ops|);
    ArgsNoMark(sizes, a, ops, |ops|);
    SpreadNoMark(args.regs, |args.regs|);
    StoreNoMark(sizes, args.a, dst, V0);
  }

  lemma ChunkHeads(m: Machine, sizes: Sizes, lays: map<string, FrameLayout>, h: seq<nat>, i: nat)
    requires i < |m.code|
    ensures Heads(m.code[i], ChunkAt(m, sizes, lays, h, i).code)
  {
    match FnAt(m.code, i + 1)
    case None => BlockHeads(m.code, i, EMPTY, h, _ => 4);
    case Some(f) => BlockHeads(m.code, i, LayoutIn(m, lays, f), h, sizes(f));
  }

  function SymbolOf(ins: Instr): Symbol
    requires ins.LABEL? || ins.FUNC?
  {
    if ins.LABEL? then Lab(ins.no) else Fn(ins.name)
  }

  lemma {:induction false} NoEarlierMark(m: Machine, sizes: Sizes, n: nat, ins: Instr)
    requires n <= |m.code|
    requires (ins.LABEL? || ins.FUNC?) && forall j :: 0 <= j < n ==> m.code[j] != ins
    ensures forall j :: 0 <= j < StartOf(m, sizes, n) ==> Emit(m, sizes, n).text[j] != Mark(SymbolOf(ins))
    decreases n
  {
    if n > 0 {
      NoEarlierMark(m, sizes, n - 1, ins);
      ChunkHeads(m, sizes, Emit(m, sizes, n - 1).lays, HistAt(m, sizes, n - 1), n - 1);
    }
  }

  /** Jumps of the text find the block of the label or function that they name. */
  lemma LookupThere(m: Machine, sizes: Sizes, ins: Instr)
    requires (ins.LABEL? || ins.FUNC?) && Find(m.code, 0, ins).Some?
    ensures Find(m.code, 0, ins).value < |m.code| && m.code[Find(m.code, 0, ins).value] == ins
    ensures Lookup(TextOf(m, sizes), 0, SymbolOf(ins)) == Some(StartOf(m, sizes, Find(m.code, 0, ins).value))
  {
    FindFinds(m.code, 0, ins);
    var i := Find(m.code, 0, ins).value;
    assert Unfold(0);
    var text, at := TextOf(m, sizes), StartOf(m, sizes, i);
    ChunkThere(m, sizes, i);
    NoEarlierMark(m, sizes, i, ins);
    EmitGrows(m, sizes, i, |m.code|);
    var chunk := ChunkAt(m, sizes, Emit(m, sizes, i).lays, HistAt(m, sizes, i), i).code;
    assert chunk != [] && chunk[0] == Mark(SymbolOf(ins));
    assert text[at] == text[at..at + |chunk|][0];
    assert forall j :: 0 <= j < at ==> text[j] == text[..at][j];
    LookupSkips(text, 0, at, SymbolOf(ins));
  }

  // ----- the text as a whole -----

  /** Where the text goes on after the call at `i`. */
  function RetPos(m: Machine, sizes: Sizes, i: nat): nat
    requires i < |m.code| && m.code[i].CALL?
  {
    match FnAt(m.code, i + 1)
    case None => 0
    case Some(f) =>
      var a := Alloc(LayAt(m, sizes, f, i), [], HistAt(m, sizes, i));
      StartOf(m, sizes, i) + |CallFront(sizes(f), a, ArgRun(m.code, i)).0| + 1
  }

  /** The emitted text, where the code of each instruction starts and where calls come back to. */
  datatype Image = Image(sizes: Sizes, text: Text32, start: nat -> nat, back: nat -> nat)

  /** `im` describes the text that is emitted for `m` (kept folded, like `Ir.Reaches`). */
  ghost predicate Built(m: Machine, im: Image) {
    && FewArguments(m.code)
    && forall k {:trigger Unfold(k)} :: Unfold(k) ==>
         && im.text == TextOf(m, im.sizes)
         && (forall i: nat {:trigger im.start(i)} :: i <= |m.code| ==> im.start(i) == StartOf(m, im.sizes, i))
         && (forall i: nat {:trigger im.back(i)} :: i < |m.code| && m.code[i].CALL? ==>
             im.back(i) == RetPos(m, im.sizes, i))
  }

  lemma Build(m: Machine, sizes: Sizes) returns (im: Image)
    requires FewArguments(m.code)
    ensures Built(m, im) && im.sizes == sizes
  {
    im := Image(sizes, TextOf(m, sizes),
                (i: nat) => if i <= |m.code| then StartOf(m, sizes, i) else 0,
                (i: nat) => if i < |m.code| && m.code[i].CALL? then RetPos(m, sizes, i) else 0);
  }

  lemma BlockIn(m: Machine, im: Image, f: string, i: nat) returns (lay: FrameLayout, h: seq<nat>)
    requires Built(m, im) && i < |m.code| && FnAt(m.code, i + 1) == Some(f)
    ensures Extends(m.layout(f), lay) && Encodable(m.code, i)
    ensures var block := BlockFor(m.code, i, lay, h, im.sizes(f)).code;
            There(im.text, im.start(i), block) && im.start(i + 1) == im.start(i) + |block|
  {
    assert Unfold(0);
    lay, h := LayAt(m, im.sizes, f, i), HistAt(m, im.sizes, i);
    assert Encodable(m.code, i);
    BlockThere(m, im.sizes, f, i);
    LayExtends(m, im.sizes, f, i);
  }

  lemma LookupIn(m: Machine, im: Image, ins: Instr)
    requires Built(m, im) && (ins.LABEL? || ins.FUNC?) && Find(m.code, 0, ins).Some?
    ensures Find(m.code, 0, ins).value < |m.code| && m.code[Find(m.code, 0, ins).value] == ins
    ensures Lookup(im.text, 0, SymbolOf(ins)) == Some(im.start(Find(m.code, 0, ins).value))
  {
    assert Unfold(0);
    LookupThere(m, im.sizes, ins);
  }

  lemma CallIn(m: Machine, im: Image, f: string, i: nat) returns (lay: FrameLayout, h: seq<nat>)
    requires Built(m, im) && i < |m.code| && m.code[i].CALL? && FnAt(m.code, i + 1) == Some(f)
    ensures Extends(m.layout(f), lay) && Encodable(m.code, i)
    ensures var (front, a) := CallFront(im.sizes(f), Alloc(lay, [], h), ArgRun(m.code, i));
            var back := CallBack(im.sizes(f), a, m.code[i].dst, |ArgRun(m.code, i)|).code;
            && im.back(i) == im.start(i) + |front| + 1
            && There(im.text, im.start(i), front + [Jal(Fn(m.code[i].name))])
            && There(im.text, im.back(i), back)
            && im.start(i + 1) == im.back(i) + |back|
  {
    hide CallFront, CallBack, ArgRun, FnAt, Emit;
    assert Unfold(0);
    lay, h := LayAt(m, im.sizes, f, i), HistAt(m, im.sizes, i);
    assert Encodable(m.code, i);
    BlockThere(m, im.sizes, f, i);
    LayExtends(m, im.sizes, f, i);
    var (front, a) := CallFront(im.sizes(f), Alloc(lay, [], h), ArgRun(m.code, i));
    var back := CallBack(im.sizes(f), a, m.code[i].dst, |ArgRun(m.code, i)|).code;
    ThereParts(im.text, im.start(i), front + [Jal(Fn(m.code[i].name))], back);
  }

  lemma FuncIn(m: Machine, im: Image, f: string, entry: nat)
    requires Built(m, im) && Find(m.code, 0, FUNC(f)) == Some(entry)
    ensures entry < |m.code| && m.code[entry] == FUNC(f)
    ensures var block := FuncBlock(im.sizes(f), m.layout(f), f, Params(m.code, entry + 1)).code;
            There(im.text, im.start(entry), block) && im.start(entry + 1) == im.start(entry) + |block|
  {
    assert Unfold(0);
    FindFinds(m.code, 0, FUNC(f));
    BlockThere(m, im.sizes, f, entry);
    EntryLay(m, im.sizes, f, entry);
  }

  lemma RoutinesIn(m: Machine, im: Image)
    requires Built(m, im)
    ensures There(im.text, 0, READ_ROUTINE) && There(im.text, 7, WRITE_ROUTINE)
    ensures Lookup(im.text, 0, ReadRoutine) == Some(0) && Lookup(im.text, 0, WriteRoutine) == Some(7)
  {
    assert Unfold(0);
    var text := im.text;
    EmitGrows(m, im.sizes, 0, |m.code|);
    assert text[0..0 + |READ_ROUTINE + WRITE_ROUTINE|] == READ_ROUTINE + WRITE_ROUTINE;
    assert There(text, 0, READ_ROUTINE + WRITE_ROUTINE);
    ThereParts(text, 0, READ_ROUTINE, WRITE_ROUTINE);
    assert forall k :: 0 <= k < 15 ==> text[k] == (READ_ROUTINE + WRITE_ROUTINE)[k];
    LookupSkips(text, 0, 0, ReadRoutine);
    LookupSkips(text, 0, 7, WriteRoutine);
  }
}
