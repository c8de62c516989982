/** The whole compiler as it runs: the passes one after the other, on instructions kept in a list. */
module Driver {
  import opened Common
  import opened Syntax
  import opened Ir
  import opened Translate
  import opened Link
  import opened Format
  import opened CodeGen
  import opened Compiler
  import opened Reached
  import CodeList
  import FrameTable
  import Generator
  import Mips
  import Translator

  // ----- what the passes ask of each other -----

  /** The names of the functions that begin in `code`, in order. */
  function Heads(code: Code): seq<string> {
    if code == [] then []
    else Heads(code[..|code| - 1]) + if code[|code| - 1].FUNC? then [code[|code| - 1].name] else []
  }

  function Defined(p: Program): seq<string> {
    if p == [] then [] else (if p[0].Definition? then [p[0].fn.name] else []) + Defined(p[1..])
  }

  predicate AllDistinct(names: seq<string>) {
    forall i, j :: 0 <= i < j < |names| ==> names[i] != names[j]
  }

  lemma {:induction false} HeadsAdd(a: Code, b: Code)
    ensures Heads(a + b) == Heads(a) + Heads(b)
    decreases |b|
  {
    if b == [] {
      assert a + b == a;
    } else {
      assert (a + b)[..|a + b| - 1] == a + b[..|b| - 1];
      HeadsAdd(a, b[..|b| - 1]);
    }
  }

  lemma {:induction false} NoHeadsIn(code: Code)
    requires forall i :: 0 <= i < |code| ==> !code[i].FUNC?
    ensures Heads(code) == []
    decreases |code|
  {
    if code != [] {
      NoHeadsIn(code[..|code| - 1]);
    }
  }

  lemma HeadOne(ins: Instr)
    ensures Heads([ins]) == if ins.FUNC? then [ins.name] else []
  {
    assert [ins][..0] == [];
  }

  lemma FunctionHead(fn: Function, t: nat, l: nat)
    ensures Heads(TransFunction(fn, t, l).code) == [fn.name]
  {
    var code := TransFunction(fn, t, l).code;
    OnlyHead(fn, t, l);
    HeadOne(FUNC(fn.name));
    NoHeadsIn(code[1..]);
    HeadsAdd([FUNC(fn.name)], code[1..]);
    assert code == [FUNC(fn.name)] + code[1..];
  }

  lemma {:induction false} ProgramHeads(p: Program, t: nat, l: nat)
    ensures Heads(TransProgram(p, t, l).code) == Defined(p)
    decreases |p|
  {
    HeadOne(NULL);
    if p != [] {
      var a := if p[0].Declaration? then StmtCode([NULL], t, l) else TransFunction(p[0].fn, t, l);
      var b := TransProgram(p[1..], a.t, a.l);
      if p[0].Definition? {
        FunctionHead(p[0].fn, t, l);
      }
      ProgramHeads(p[1..], a.t, a.l);
      HeadsAdd(a.code, b.code);
    }
  }

  /** The formatting pass adds and drops no function. */
  lemma {:induction false} FormattedHeads(code: Code, n: nat, t: nat)
    requires n <= |code|
    ensures Heads(Formatted(code, n, t).0) == Heads(code[..n])
    decreases n
  {
    if n > 0 {
      var piece := PieceAt(code, n - 1, t);
      FormattedHeads(code, n - 1, t);
      PieceHeads(code, n - 1, t);
      HeadsAdd(Formatted(code, n - 1, t).0, piece);
      HeadsAdd(code[..n - 1], [code[n - 1]]);
      assert code[..n] == code[..n - 1] + [code[n - 1]];
    }
  }

  lemma PieceHeads(code: Code, i: nat, t: nat)
    requires i < |code|
    ensures Heads(PieceAt(code, i, t)) == Heads([code[i]])
  {
    PieceKind(code, i, t);
    HeadOne(code[i]);
    if !code[i].FUNC? {
      NoHeadsIn(PieceAt(code, i, t));
    }
  }

  lemma {:induction false} HeadPosition(code: Code, n: nat, i: nat) returns (k: nat)
    requires i < n <= |code| && code[i].FUNC?
    ensures k < |Heads(code[..n])| && Heads(code[..n])[k] == code[i].name && |Heads(code[..i])| == k
    decreases n
  {
    assert code[..n][..n - 1] == code[..n - 1];
    if i < n - 1 {
      k := HeadPosition(code, n - 1, i);
    } else {
      k := |Heads(code[..i])|;
    }
  }

  lemma {:induction false} HeadsGrow(code: Code, i: nat, j: nat)
    requires i < j <= |code| && code[i].FUNC?
    ensures |Heads(code[..i])| < |Heads(code[..j])|
    decreases j
  {
    assert code[..j][..j - 1] == code[..j - 1];
    if i < j - 1 {
      HeadsGrow(code, i, j - 1);
    }
  }

  /** Functions of different names begin once each. */
  lemma OnceEach(code: Code)
    requires AllDistinct(Heads(code))
    ensures FrameTable.FunctionsOnce(code)
  {
    assert code[..|code|] == code;
    forall i, j | 0 <= i < j < |code| && code[i].FUNC? && code[j].FUNC? ensures code[i].name != code[j].name {
      var k := HeadPosition(code, |code|, i);
      var n := HeadPosition(code, |code|, j);
      HeadsGrow(code, i, j);
    }
  }

  /** In front of the first function the formatted code has nothing but NULL. */
  lemma QuietAfter(code: Code, t: nat, j: nat)
    requires QuietLead(code) && j < |Whole(code, t)| && FnAt(Whole(code, t), j + 1) == None
    ensures Whole(code, t)[j] == NULL
  {
    var whole := Whole(code, t);
    var i := OwnerOf(code, t, j);
    var at, piece := Pos(code, i, t), PieceAt(code, i, t);
    FnThere(code, i, t);
    FnInside(code, i, j - at, t);
    assert FnAt(whole, at + (j - at)) == FnAt(whole, j);
    assert FnAt(whole, j) == None && !whole[j].FUNC?;
    assert QuietAt(code, i);
    PieceKind(code, i, t);
  }

  lemma Passes(p: Program)
    requires AllDistinct(Defined(p)) && forall i :: 0 <= i < |p| && p[i].Definition? ==> RefsAreParams(p[i].fn)
    ensures var code := TransProgram(p, 0, 0).code; code != [] && (code[0].FUNC? || code[0].NULL?)
    ensures FrameTable.FunctionsOnce(FormattedCode(p))
    ensures forall j :: 0 <= j < |FormattedCode(p)| && FnAt(FormattedCode(p), j + 1) == None ==>
            FormattedCode(p)[j] == NULL
  {
    var o := TransProgram(p, 0, 0);
    ProgramGrounded(p, 0, 0, "");
    ProgramHeads(p, 0, 0);
    FormattedHeads(o.code, |o.code|, o.t);
    assert o.code[..|o.code|] == o.code;
    OnceEach(FormattedCode(p));
    NotEmpty(p, 0, 0);
    assert QuietAt(o.code, 0);
    forall j | 0 <= j < |FormattedCode(p)| && FnAt(FormattedCode(p), j + 1) == None
      ensures FormattedCode(p)[j] == NULL {
      QuietAfter(o.code, o.t, j);
    }
  }

  lemma NotEmpty(p: Program, t: nat, l: nat)
    ensures TransProgram(p, t, l).code != []
  {
  }

  // ----- the list -----

  /** Links instructions into a list. */
  method MakeList(code: Code) returns (head: CodeList.InterCode, ghost nodes: seq<CodeList.InterCode>)
    requires code != []
    ensures CodeList.IsList(nodes) && nodes != [] && nodes[0] == head && CodeList.CodeOf(nodes) == code
    ensures forall k :: 0 <= k < |nodes| ==> fresh(nodes[k])
  {
    head, nodes := Single(code[0]);
    var i := 1;
    assert code[..1] == [code[0]];
    while i < |code|
      invariant 0 < i <= |code| && CodeList.IsList(nodes) && nodes != [] && nodes[0] == head
      invariant CodeList.CodeOf(nodes) == code[..i]
      invariant forall k :: 0 <= k < |nodes| ==> fresh(nodes[k])
    {
      nodes := Append(head, nodes, code[i]);
      assert code[..i + 1] == code[..i] + [code[i]];
      i := i + 1;
    }
    assert code[..i] == code;
  }

  /** A list of one instruction. */
  method Single(ins: Instr) returns (node: CodeList.InterCode, ghost nodes: seq<CodeList.InterCode>)
    ensures CodeList.IsList(nodes) && nodes == [node] && CodeList.CodeOf(nodes) == [ins] && fresh(node)
  {
    node := new CodeList.InterCode(ins);
    nodes := [node];
    CodeList.CodeOne(node);
    assert CodeList.NodeOk(nodes, 0);
  }

  /** Hangs one more instruction at the end of a list. */
  method Append(head: CodeList.InterCode, ghost nodes: seq<CodeList.InterCode>, ins: Instr)
    returns (ghost longer: seq<CodeList.InterCode>)
    requires CodeList.IsList(nodes) && nodes != [] && nodes[0] == head
    modifies nodes`next
    ensures CodeList.IsList(longer) && longer != [] && longer[0] == head && |longer| == |nodes| + 1
    ensures forall k :: 0 <= k < |longer| ==> longer[k] in nodes || fresh(longer[k])
    ensures CodeList.CodeOf(longer) == old(CodeList.CodeOf(nodes)) + [ins]
  {
    var node, single := Single(ins);
    CodeList.InsertCode(head, node, nodes, 0, single);
    longer := nodes + single;
  }

  /** Reads a list off. */
  method Listing(head: CodeList.InterCode, ghost nodes: seq<CodeList.InterCode>) returns (code: Code)
    requires CodeList.IsList(nodes) && nodes != [] && nodes[0] == head
    ensures code == CodeList.CodeOf(nodes)
  {
    code := [];
    var ptr: CodeList.InterCode? := head;
    ghost var i := 0;
    CodeList.CodeLength(nodes);
    while ptr != null
      invariant i <= |nodes| && ptr == CodeList.At(nodes, i) && code == CodeList.CodeOf(nodes)[..i]
      decreases |nodes| - i
    {
      assert CodeList.NodeOk(nodes, i);
      code := code + [ptr.ins];
      ptr := ptr.next;
      i := i + 1;
    }
  }

  /** Translates, formats and generates: the result is the text that the correctness theorem is about. */
  method Compile(p: Program, sizes: Sizes) returns (text: Mips.Text32)
    requires AllDistinct(Defined(p)) && Generator.ArgumentsFit(FormattedCode(p))
    requires forall i :: 0 <= i < |p| && p[i].Definition? ==> RefsAreParams(p[i].fn)
    ensures text == TextOf(MachineOf(p, sizes), sizes)
  {
    Passes(p);
    var translator := new Translator.Translator();
    var code := translator.TranslateProgram(p);
    var head, nodes := MakeList(code);
    var formatter := new CodeList.Formatter(translator.tempNum, nodes);
    CodeList.CodeLength(nodes);
    formatter.FormatCode(head, code);
    formatter.ValidIsList();
    var formatted := Listing(head, formatter.nodes);
    assert formatted == FormattedCode(p);
    var generator := new Generator.Generator();
    generator.PrintObjectCode(MachineOf(p, sizes), sizes);
    text := generator.out;
  }
}
