/** Instructions as the compiler keeps them: nodes of a doubly linked list that is spliced and
    formatted in place. */
module CodeList {
  import opened Ir
  import opened Translate
  import opened Format

  class InterCode {
    var ins: Instr
    var prev: InterCode?
    var next: InterCode?

    constructor (ins: Instr)
      ensures this.ins == ins && prev == null && next == null
    {
      this.ins, prev, next := ins, null, null;
    }
  }

  type Links = map<InterCode, InterCode?>

  function At(nodes: seq<InterCode>, i: int): InterCode? {
    if 0 <= i < |nodes| then nodes[i] else null
  }

  predicate Distinct(nodes: seq<InterCode>) {
    forall i, j :: 0 <= i < j < |nodes| ==> nodes[i] != nodes[j]
  }

  /** `nx` leads from each node to the next one and `pv` back; at the ends they lead nowhere. */
  ghost predicate DoublyLinked(nx: Links, pv: Links, nodes: seq<InterCode>) {
    && Distinct(nodes)
    && forall i {:trigger LinkedAt(nx, pv, nodes, i)} :: 0 <= i < |nodes| ==> LinkedAt(nx, pv, nodes, i)
  }

  ghost predicate LinkedAt(nx: Links, pv: Links, nodes: seq<InterCode>, i: nat)
    requires i < |nodes|
  {
    && nodes[i] in nx && nodes[i] in pv
    && nx[nodes[i]] == At(nodes, i + 1) && pv[nodes[i]] == At(nodes, i - 1)
  }

  function Set(links: Links, node: InterCode?, target: InterCode?): Links {
    if node == null then links else links[node := target]
  }

  /** A node spliced in at position `k`. */
  lemma Spliced(nx: Links, pv: Links, nodes: seq<InterCode>, k: nat, mid: InterCode)
    requires DoublyLinked(nx, pv, nodes) && k <= |nodes| && mid !in nodes
    ensures DoublyLinked(Set(nx, At(nodes, k - 1), mid)[mid := At(nodes, k)],
                         Set(pv, At(nodes, k), mid)[mid := At(nodes, k - 1)],
                         nodes[..k] + [mid] + nodes[k..])
  {
    var nx' := Set(nx, At(nodes, k - 1), mid)[mid := At(nodes, k)];
    var pv' := Set(pv, At(nodes, k), mid)[mid := At(nodes, k - 1)];
    var nodes' := nodes[..k] + [mid] + nodes[k..];
    DistinctWith(nodes, k, mid);
    forall i | 0 <= i < |nodes'| ensures LinkedAt(nx', pv', nodes', i) {
      if i != k {
        var was := if i < k then i else i - 1;
        assert LinkedAt(nx, pv, nodes, was) && nodes'[i] == nodes[was] && nodes[was] in nodes;
        assert At(nodes', i + 1) == if i + 1 == k then mid else At(nodes, was + 1);
        assert At(nodes', i - 1) == if i - 1 == k then mid else At(nodes, was - 1);
        assert i + 1 != k ==> nodes[was] != At(nodes, k - 1);
        assert i - 1 != k ==> nodes[was] != At(nodes, k);
      }
    }
  }

  lemma DistinctWith(nodes: seq<InterCode>, k: nat, mid: InterCode)
    requires Distinct(nodes) && k <= |nodes| && mid !in nodes
    ensures Distinct(nodes[..k] + [mid] + nodes[k..])
  {
    var nodes' := nodes[..k] + [mid] + nodes[k..];
    assert forall i :: 0 <= i < |nodes'| && i != k ==>
      nodes'[i] == nodes[if i < k then i else i - 1] && nodes'[i] in nodes;
  }

  lemma DistinctWithout(nodes: seq<InterCode>, k: nat)
    requires Distinct(nodes) && k < |nodes|
    ensures Distinct(nodes[..k] + nodes[k + 1..])
  {
    var nodes' := nodes[..k] + nodes[k + 1..];
    assert forall i :: 0 <= i < |nodes'| ==> nodes'[i] == nodes[if i < k then i else i + 1];
  }

  /** A node other than the first taken out. */
  lemma TakenOut(nx: Links, pv: Links, nodes: seq<InterCode>, k: nat)
    requires DoublyLinked(nx, pv, nodes) && 0 < k < |nodes|
    ensures DoublyLinked(nx[nodes[k - 1] := At(nodes, k + 1)], Set(pv, At(nodes, k + 1), nodes[k - 1]),
                         nodes[..k] + nodes[k + 1..])
  {
    var nx', pv' := nx[nodes[k - 1] := At(nodes, k + 1)], Set(pv, At(nodes, k + 1), nodes[k - 1]);
    var nodes' := nodes[..k] + nodes[k + 1..];
    DistinctWithout(nodes, k);
    forall i | 0 <= i < |nodes'| ensures LinkedAt(nx', pv', nodes', i) {
      var was := if i < k then i else i + 1;
      assert LinkedAt(nx, pv, nodes, was) && nodes'[i] == nodes[was];
      assert At(nodes', i + 1) == At(nodes, if i + 1 < k then i + 1 else i + 2);
      assert At(nodes', i - 1) == At(nodes, if i - 1 < k then i - 1 else i);
      assert was != k - 1 ==> nodes[was] != nodes[k - 1];
      assert was != k + 1 ==> nodes[was] != At(nodes, k + 1);
    }
  }

  /** Two lists joined. */
  lemma Joined(nx: Links, pv: Links, a: seq<InterCode>, b: seq<InterCode>)
    requires a != [] && b != [] && DoublyLinked(nx, pv, a) && DoublyLinked(nx, pv, b)
    requires Apart(a, b)
    ensures DoublyLinked(nx[a[|a| - 1] := b[0]], pv[b[0] := a[|a| - 1]], a + b)
  {
    var nx', pv', nodes := nx[a[|a| - 1] := b[0]], pv[b[0] := a[|a| - 1]], a + b;
    forall i, j | 0 <= i < |a| && 0 <= j < |b| ensures a[i] != b[j] {
      assert a[i] in a && b[j] in b;
    }
    assert forall i :: 0 <= i < |nodes| ==> nodes[i] == if i < |a| then a[i] else b[i - |a|];
    forall i | 0 <= i < |nodes| ensures LinkedAt(nx', pv', nodes, i) {
      if i < |a| {
        assert LinkedAt(nx, pv, a, i) && a[i] != b[0];
      } else {
        assert LinkedAt(nx, pv, b, i - |a|) && b[i - |a|] != a[|a| - 1];
      }
    }
  }

  /** The links that the nodes themselves hold. */
  ghost predicate Mirrored(nx: Links, pv: Links, nodes: seq<InterCode>)
    reads nodes`next, nodes`prev
  {
    forall node :: node in nodes ==> node in nx && node in pv && node.next == nx[node] && node.prev == pv[node]
  }

  /** `nodes` is a list: along it `next` and `prev` are inverse to each other. */
  ghost predicate IsList(nodes: seq<InterCode>)
    reads nodes`next, nodes`prev
  {
    && Distinct(nodes)
    && forall i {:trigger NodeOk(nodes, i)} :: 0 <= i < |nodes| ==> NodeOk(nodes, i)
  }

  ghost predicate NodeOk(nodes: seq<InterCode>, i: nat)
    requires i < |nodes|
    reads nodes`next, nodes`prev
  {
    nodes[i].next == At(nodes, i + 1) && nodes[i].prev == At(nodes, i - 1)
  }

  lemma ListLinks(nodes: seq<InterCode>) returns (nx: Links, pv: Links)
    requires IsList(nodes)
    ensures DoublyLinked(nx, pv, nodes) && Mirrored(nx, pv, nodes)
    ensures forall node :: node in nx || node in pv ==> node in nodes
  {
    nx, pv := map node | node in nodes :: node.next, map node | node in nodes :: node.prev;
    forall i | 0 <= i < |nodes| ensures LinkedAt(nx, pv, nodes, i) {
      assert NodeOk(nodes, i);
    }
  }

  lemma MirrorIsList(nx: Links, pv: Links, nodes: seq<InterCode>)
    requires DoublyLinked(nx, pv, nodes) && Mirrored(nx, pv, nodes)
    ensures IsList(nodes)
  {
    forall i | 0 <= i < |nodes| ensures NodeOk(nodes, i) {
      assert LinkedAt(nx, pv, nodes, i) && nodes[i] in nodes;
    }
  }

  function CodeOf(nodes: seq<InterCode>): Code
    reads nodes`ins
  {
    if nodes == [] then [] else CodeOf(nodes[..|nodes| - 1]) + [nodes[|nodes| - 1].ins]
  }

  lemma {:induction false} CodeAdd(a: seq<InterCode>, b: seq<InterCode>)
    ensures CodeOf(a + b) == CodeOf(a) + CodeOf(b)
    decreases |b|
  {
    if b == [] {
      assert a + b == a;
    } else {
      assert (a + b)[..|a + b| - 1] == a + b[..|b| - 1];
      CodeAdd(a, b[..|b| - 1]);
    }
  }

  lemma CodeOne(node: InterCode)
    ensures CodeOf([node]) == [node.ins]
  {
    assert [node][..0] == [];
  }

  lemma CodeAppend(nodes: seq<InterCode>, node: InterCode)
    ensures CodeOf(nodes + [node]) == CodeOf(nodes) + [node.ins]
  {
    assert (nodes + [node])[..|nodes|] == nodes;
  }

  lemma {:induction false} CodeLength(nodes: seq<InterCode>)
    ensures |CodeOf(nodes)| == |nodes| && forall i :: 0 <= i < |nodes| ==> CodeOf(nodes)[i] == nodes[i].ins
    decreases |nodes|
  {
    if nodes != [] {
      CodeLength(nodes[..|nodes| - 1]);
    }
  }

  predicate Apart(a: seq<InterCode>, b: seq<InterCode>) {
    forall node :: node in a ==> node !in b
  }

  /** The last node of the list that `dst` is a node of. */
  method Last(dst: InterCode, ghost a: seq<InterCode>, ghost k: nat) returns (ptr: InterCode)
    requires IsList(a) && k < |a| && a[k] == dst
    ensures ptr == a[|a| - 1]
  {
    ptr := dst;
    ghost var i := k;
    assert NodeOk(a, i);
    while ptr.next != null
      invariant i < |a| && ptr == a[i] && NodeOk(a, i)
      decreases |a| - i
    {
      ptr := ptr.next;
      i := i + 1;
      assert NodeOk(a, i);
    }
  }

  /** Appends the list that starts at `src` to the one that `dst` is a node of. */
  method InsertCode(dst: InterCode, src: InterCode, ghost a: seq<InterCode>, ghost k: nat, ghost b: seq<InterCode>)
    requires IsList(a) && IsList(b) && k < |a| && a[k] == dst && b != [] && b[0] == src && Apart(a, b)
    modifies a`next, src`prev
    ensures IsList(a + b) && CodeOf(a + b) == old(CodeOf(a) + CodeOf(b))
  {
    var ptr := Last(dst, a, k);
    ghost var nx, pv := BothLinked(a, b);
    Joined(nx, pv, a, b);
    CodeAdd(a, b);
    Hook(ptr, src, nx, pv, a + b);
  }

  /** Makes `src` follow `ptr`. */
  method Hook(ptr: InterCode, src: InterCode, ghost nx: Links, ghost pv: Links, ghost nodes: seq<InterCode>)
    requires Mirrored(nx, pv, nodes) && DoublyLinked(nx[ptr := src], pv[src := ptr], nodes)
    modifies ptr`next, src`prev
    ensures IsList(nodes)
  {
    ptr.next := src;
    src.prev := ptr;
    MirrorIsList(nx[ptr := src], pv[src := ptr], nodes);
  }

  lemma BothLinked(a: seq<InterCode>, b: seq<InterCode>) returns (nx: Links, pv: Links)
    requires IsList(a) && IsList(b) && Apart(a, b)
    ensures DoublyLinked(nx, pv, a) && DoublyLinked(nx, pv, b) && Mirrored(nx, pv, a + b)
  {
    var nx1, pv1 := ListLinks(a);
    var nx2, pv2 := ListLinks(b);
    nx, pv := nx1 + nx2, pv1 + pv2;
    forall i | 0 <= i < |a| ensures LinkedAt(nx, pv, a, i) {
      assert LinkedAt(nx1, pv1, a, i) && a[i] in a;
    }
    forall i | 0 <= i < |b| ensures LinkedAt(nx, pv, b, i) {
      assert LinkedAt(nx2, pv2, b, i) && b[i] in b;
    }
  }

  // ----- formatting in place -----

  /** The list being formatted: `nodes`, with control at node `k`. */
  class Formatter {
    var tempNum: nat
    ghost var nodes: seq<InterCode>
    ghost var nx: Links
    ghost var pv: Links
    /** All nodes that have ever been in the list. */
    ghost var region: set<InterCode>

    ghost predicate Valid()
      reads this, region`next, region`prev
    {
      && DoublyLinked(nx, pv, nodes)
      && forall node :: node in nodes ==>
           node in region && node in nx && node in pv && node.next == nx[node] && node.prev == pv[node]
    }

    constructor (tempNum: nat, ghost nodes: seq<InterCode>)
      requires IsList(nodes)
      ensures this.tempNum == tempNum && this.nodes == nodes && region == (set node | node in nodes) && Valid()
    {
      this.tempNum := tempNum;
      ghost var nx, pv := ListLinks(nodes);
      this.nodes, this.nx, this.pv, region := nodes, nx, pv, set node | node in nodes;
    }

    lemma ValidIsList()
      requires Valid()
      ensures IsList(nodes)
    {
      MirrorIsList(nx, pv, nodes);
    }

    /** A fresh temporary. */
    method NewTemp() returns (op: Operand)
      modifies `tempNum
      ensures op == Temp(old(tempNum)) && tempNum == old(tempNum) + 1
    {
      op := Temp(tempNum);
      tempNum := tempNum + 1;
    }

    /** Puts a new node between `prev` and `curr`. */
    method Splice(prev: InterCode?, curr: InterCode, mid: InterCode, ghost k: nat, ghost longer: seq<InterCode>)
      requires Valid() && k < |nodes| && curr == nodes[k] && prev == At(nodes, k - 1) && mid !in nodes
      requires longer == nodes[..k] + [mid] + nodes[k..]
      modifies `nodes, `nx, `pv, `region, region`next, region`prev, mid`next, mid`prev
      ensures Valid() && nodes == longer && region == old(region) + {mid}
    {
      Spliced(nx, pv, nodes, k, mid);
      nodes, region := longer, region + {mid};
      Weave(prev, curr, mid);
    }

    method Weave(prev: InterCode?, curr: InterCode, mid: InterCode)
      requires forall node :: node in nodes && node != mid ==>
               node in nx && node in pv && node.next == nx[node] && node.prev == pv[node]
      requires forall node :: node in nodes ==> node in region
      requires curr in nodes && mid in nodes && curr != mid && prev != mid
      requires (prev != null ==> prev in nodes && prev != curr)
      modifies `nx, `pv, region`next, region`prev
      ensures nx == Set(old(nx), prev, mid)[mid := curr] && pv == Set(old(pv), curr, mid)[mid := prev]
      ensures forall node :: node in nodes ==>
              node in nx && node in pv && node.next == nx[node] && node.prev == pv[node]
    {
      mid.next := curr;
      mid.prev := prev;
      if prev != null {
        prev.next := mid;
      }
      curr.prev := mid;
      nx, pv := Set(nx, prev, mid)[mid := curr], Set(pv, curr, mid)[mid := prev];
    }

    /** Takes a node other than the first out of the list. */
    method TakeOut(prev: InterCode, curr: InterCode, ghost k: nat, ghost left: seq<InterCode>)
      requires Valid() && 0 < k < |nodes| && curr == nodes[k] && prev == nodes[k - 1]
      requires left == nodes[..k] + nodes[k + 1..]
      modifies `nodes, `nx, `pv, region`next, region`prev
      ensures Valid() && nodes == left
    {
      assert LinkedAt(nx, pv, nodes, k);
      TakenOut(nx, pv, nodes, k);
      var ptr := curr.next;
      prev.next := ptr;
      if ptr != null {
        ptr.prev := prev;
      }
      nx, pv := nx[prev := ptr], Set(pv, ptr, prev);
      nodes := left;
    }

    /** Loads `op` into a fresh temporary right before `curr`. */
    method LoadFirst(prev: InterCode?, curr: InterCode, op: Operand, ghost done: seq<InterCode>,
                     ghost rest: seq<InterCode>)
      returns (tmp: Operand, mid: InterCode)
      requires Valid() && nodes == done + rest && rest != [] && rest[0] == curr && prev == At(done, |done| - 1)
      modifies `tempNum, `nodes, `nx, `pv, `region, region`next, region`prev
      ensures Valid() && fresh(mid) && nodes == done + [mid] + rest && region == old(region) + {mid}
      ensures tmp == Temp(old(tempNum)) && tempNum == old(tempNum) + 1
      ensures CodeOf(done + [mid]) == old(CodeOf(done)) + [ASSIGN(tmp, op)]
    {
      tmp := NewTemp();
      mid := new InterCode(ASSIGN(tmp, op));
      Between(nodes, done, rest, mid);
      Splice(prev, curr, mid, |done|, done + [mid] + rest);
      CodeAppend(done, mid);
    }

    lemma Between(nodes: seq<InterCode>, done: seq<InterCode>, rest: seq<InterCode>, mid: InterCode)
      requires nodes == done + rest && rest != []
      ensures nodes[..|done|] + [mid] + nodes[|done|..] == done + [mid] + rest && nodes[|done|] == rest[0]
      ensures At(nodes, |done| - 1) == At(done, |done| - 1)
    {
    }

    /** Loads `op` first if it touches memory (or, if `all`, is a constant). */
    method FetchFirst(prev: InterCode?, curr: InterCode, op: Operand, all: bool, ghost done: seq<InterCode>,
                      ghost rest: seq<InterCode>)
      returns (actual: Operand, prev': InterCode?, ghost done': seq<InterCode>)
      requires Valid() && nodes == done + rest && rest != [] && rest[0] == curr && prev == At(done, |done| - 1)
      requires curr !in done
      modifies `tempNum, `nodes, `nx, `pv, `region, region`next, region`prev
      ensures Valid() && Moved(done, rest, curr, prev', done')
      ensures forall node <- region :: node in old(region) || fresh(node)
      ensures var (code, op', t) := if all then Spill(op, old(tempNum)) else Fetch(op, old(tempNum));
              CodeOf(done') == old(CodeOf(done)) + code && actual == op' && tempNum == t
    {
      actual, prev', done' := op, prev, done;
      if IsMemOp(op) || (all && op.Const?) {
        var mid;
        actual, mid := LoadFirst(prev, curr, op, done, rest);
        prev', done' := mid, done + [mid];
      }
    }

    /** The list is now `done'` and `rest`; `prev'` is the last node in front of `curr`. */
    ghost predicate Moved(done: seq<InterCode>, rest: seq<InterCode>, curr: InterCode, prev': InterCode?,
                          done': seq<InterCode>)
      reads `nodes
    {
      nodes == done' + rest && prev' == At(done', |done'| - 1) && done <= done' && curr !in done'
    }

    /** Takes the memory operands of `curr` apart. */
    method ExpandNode(prev: InterCode?, curr: InterCode, ghost done: seq<InterCode>, ghost rest: seq<InterCode>)
      returns (prev': InterCode?, ghost done': seq<InterCode>)
      requires Valid() && nodes == done + rest && rest != [] && rest[0] == curr && prev == At(done, |done| - 1)
      requires curr !in done && curr.ins != NULL
      modifies `tempNum, `nodes, `nx, `pv, `region, region`next, region`prev, curr`ins
      ensures Valid() && Moved(done, rest, curr, prev', done')
      ensures forall node <- region :: node in old(region) || fresh(node)
      ensures var piece := Expand(old(curr.ins), old(tempNum));
              tempNum == piece.1 && CodeOf(done') + [curr.ins] == old(CodeOf(done)) + piece.0
    {
      prev', done' := prev, done;
      match curr.ins {
        case ASSIGN(dst, src) =>
          if IsMemOp(dst) && IsMemOp(src) {
            var tmp;
            tmp, prev', done' := FetchFirst(prev, curr, src, false, done, rest);
            curr.ins := ASSIGN(dst, tmp);
          }
        case IF_GOTO(_, _, _, _) => prev', done' := ExpandJump(prev, curr, done, rest);
        case RETURN(_) => prev', done' := ExpandOne(prev, curr, done, rest);
        case READ(_) => prev', done' := ExpandOne(prev, curr, done, rest);
        case WRITE(_) => prev', done' := ExpandOne(prev, curr, done, rest);
        case _ =>
      }
    }

    /** RETURN, READ and WRITE have one operand. */
    method ExpandOne(prev: InterCode?, curr: InterCode, ghost done: seq<InterCode>, ghost rest: seq<InterCode>)
      returns (prev': InterCode?, ghost done': seq<InterCode>)
      requires Valid() && nodes == done + rest && rest != [] && rest[0] == curr && prev == At(done, |done| - 1)
      requires curr !in done && (curr.ins.RETURN? || curr.ins.READ? || curr.ins.WRITE?)
      modifies `tempNum, `nodes, `nx, `pv, `region, region`next, region`prev, curr`ins
      ensures Valid() && Moved(done, rest, curr, prev', done')
      ensures forall node <- region :: node in old(region) || fresh(node)
      ensures var piece := Expand(old(curr.ins), old(tempNum));
              tempNum == piece.1 && CodeOf(done') + [curr.ins] == old(CodeOf(done)) + piece.0
    {
      var op := if curr.ins.READ? then curr.ins.dst else curr.ins.src;
      var tmp;
      tmp, prev', done' := FetchFirst(prev, curr, op, !curr.ins.RETURN?, done, rest);
      curr.ins := if curr.ins.RETURN? then RETURN(tmp) else if curr.ins.READ? then READ(tmp) else WRITE(tmp);
    }

    method ExpandJump(prev: InterCode?, curr: InterCode, ghost done: seq<InterCode>, ghost rest: seq<InterCode>)
      returns (prev': InterCode?, ghost done': seq<InterCode>)
      requires Valid() && nodes == done + rest && rest != [] && rest[0] == curr && prev == At(done, |done| - 1)
      requires curr !in done && curr.ins.IF_GOTO?
      modifies `tempNum, `nodes, `nx, `pv, `region, region`next, region`prev, curr`ins
      ensures Valid() && Moved(done, rest, curr, prev', done')
      ensures forall node <- region :: node in old(region) || fresh(node)
      ensures var piece := Expand(old(curr.ins), old(tempNum));
              tempNum == piece.1 && CodeOf(done') + [curr.ins] == old(CodeOf(done)) + piece.0
    {
      hide CodeOf;
      var rel, no := curr.ins.relop, curr.ins.no;
      var src1, src2 := curr.ins.src1, curr.ins.src2;
      ghost var (code1, actual1, t1) := Fetch(src1, tempNum);
      ghost var (code2, actual2, t2) := Fetch(src2, t1);
      ghost var before, mid := CodeOf(done), done;
      src1, prev', mid := FetchFirst(prev, curr, src1, false, done, rest);
      src2, prev', done' := FetchFirst(prev', curr, src2, false, mid, rest);
      curr.ins := IF_GOTO(rel, src1, src2, no);
      Regroup(before, code1, code2, [curr.ins]);
    }

    lemma Regroup(a: Code, b: Code, c: Code, d: Code)
      ensures a + b + c + d == a + (b + c + d)
    {
    }

    /** The node behind the ones done is in the list once. */
    lemma Leading(done: seq<InterCode>, rest: seq<InterCode>)
      requires Valid() && nodes == done + rest && rest != []
      ensures rest[0] !in done && rest[0] !in rest[1..] && nodes[|done|] == rest[0]
      ensures At(nodes, |done| - 1) == At(done, |done| - 1) && rest[0].next == At(rest, 1)
    {
      assert LinkedAt(nx, pv, nodes, |done|) && nodes[|done|] == rest[0] && nodes[|done|] in nodes;
      assert At(nodes, |done| + 1) == At(rest, 1);
      assert forall j :: 0 <= j < |done| ==> nodes[j] == done[j] && nodes[j] != nodes[|done|];
      assert forall j :: 1 <= j < |rest| ==> nodes[|done| + j] == rest[j] && nodes[|done| + j] != nodes[|done|];
    }

    lemma FormattedNext(orig: Code, i: nat, t: nat)
      requires i < |orig|
      ensures Formatted(orig, i + 1, t)
           == (Formatted(orig, i, t).0 + Piece(orig, i, Formatted(orig, i, t).1).0,
               Piece(orig, i, Formatted(orig, i, t).1).1)
    {
    }

    lemma {:induction false} RestCode(rest: seq<InterCode>, orig: Code, i: nat)
      requires rest != [] && i <= |orig| && CodeOf(rest) == orig[i..]
      ensures i < |orig| && rest[0].ins == orig[i] && CodeOf(rest[1..]) == orig[i + 1..]
    {
      CodeLength(rest);
      CodeAdd(rest[..1], rest[1..]);
      CodeOne(rest[0]);
      assert rest[..1] == [rest[0]] && rest == rest[..1] + rest[1..];
      assert orig[i + 1..] == orig[i..][1..];
    }

    /** One round of the pass at `curr`, the first node of `rest`. */
    method Advance(prev: InterCode?, curr: InterCode, ghost done: seq<InterCode>, ghost rest: seq<InterCode>)
      returns (prev': InterCode?, curr': InterCode?, ghost done': seq<InterCode>)
      requires Valid() && nodes == done + rest && rest != [] && rest[0] == curr && prev == At(done, |done| - 1)
      modifies `tempNum, `nodes, `nx, `pv, `region, region`next, region`prev, curr`ins
      ensures Valid() && nodes == done' + rest[1..] && done' != [] && (done != [] ==> done'[0] == done[0])
      ensures prev' == At(done', |done'| - 1) && curr' == At(rest, 1)
      ensures forall node <- region :: node in old(region) || fresh(node)
      ensures CodeOf(rest[1..]) == old(CodeOf(rest[1..]))
      ensures done == [] && (old(curr.ins).FUNC? || old(curr.ins).NULL?) ==> done' == [curr]
      ensures var (piece, t) := if done == [] && old(curr.ins) == NULL then ([NULL], old(tempNum))
                                else Expand(old(curr.ins), old(tempNum));
              CodeOf(done') == old(CodeOf(done)) + piece && tempNum == t
    {
      Leading(done, rest);
      if curr.ins != NULL {
        prev', curr', done' := Keep(prev, curr, done, rest);
      } else if prev == null {
        prev', curr', done' := Pass(curr, done, rest);
      } else {
        prev', curr', done' := prev, curr.next, done;
        Drop(prev, curr, done, rest);
      }
    }

    method Keep(prev: InterCode?, curr: InterCode, ghost done: seq<InterCode>, ghost rest: seq<InterCode>)
      returns (prev': InterCode?, curr': InterCode?, ghost done': seq<InterCode>)
      requires Valid() && nodes == done + rest && rest != [] && rest[0] == curr && prev == At(done, |done| - 1)
      requires curr !in done && curr.ins != NULL
      modifies `tempNum, `nodes, `nx, `pv, `region, region`next, region`prev, curr`ins
      ensures Valid() && nodes == done' + rest[1..] && done' != [] && (done != [] ==> done'[0] == done[0])
      ensures prev' == At(done', |done'| - 1) && curr' == At(rest, 1)
      ensures forall node <- region :: node in old(region) || fresh(node)
      ensures done == [] && old(curr.ins).FUNC? ==> done' == [curr]
      ensures var (piece, t) := Expand(old(curr.ins), old(tempNum));
              CodeOf(done') == old(CodeOf(done)) + piece && tempNum == t
    {
      prev', done' := ExpandNode(prev, curr, done, rest);
      NoCode(done');
      prev', curr', done' := Pass(curr, done', rest);
    }

    method Drop(prev: InterCode, curr: InterCode, ghost done: seq<InterCode>, ghost rest: seq<InterCode>)
      requires Valid() && nodes == done + rest && rest != [] && rest[0] == curr && done != []
      requires prev == done[|done| - 1]
      modifies `nodes, `nx, `pv, region`next, region`prev
      ensures Valid() && nodes == done + rest[1..]
    {
      Without(nodes, done, rest);
      TakeOut(prev, curr, |done|, done + rest[1..]);
    }

    lemma NoCode(nodes: seq<InterCode>)
      ensures |CodeOf(nodes)| == |nodes|
    {
      CodeLength(nodes);
    }

    lemma Without(nodes: seq<InterCode>, done: seq<InterCode>, rest: seq<InterCode>)
      requires nodes == done + rest && done != [] && rest != []
      ensures nodes[..|done|] + nodes[|done| + 1..] == done + rest[1..]
      ensures nodes[|done|] == rest[0] && nodes[|done| - 1] == done[|done| - 1]
    {
    }

    lemma Shift(done: seq<InterCode>, rest: seq<InterCode>)
      requires rest != []
      ensures done + rest == done + [rest[0]] + rest[1..]
    {
    }

    /** Moves on behind `curr`. */
    method Pass(curr: InterCode, ghost done: seq<InterCode>, ghost rest: seq<InterCode>)
      returns (prev': InterCode?, curr': InterCode?, ghost done': seq<InterCode>)
      requires Valid() && nodes == done + rest && rest != [] && rest[0] == curr
      ensures done' == done + [curr] && nodes == done' + rest[1..] && prev' == curr && curr' == At(rest, 1)
      ensures CodeOf(done') == CodeOf(done) + [curr.ins]
    {
      prev', curr', done' := curr, curr.next, done + [curr];
      Leading(done, rest);
      Shift(done, rest);
      CodeAppend(done, curr);
    }

    /** The pass has dealt with the first `i` instructions: `done` is what they became. */
    ghost predicate Reached(code: InterCode, orig: Code, t: nat, i: nat, done: seq<InterCode>, rest: seq<InterCode>)
      reads `nodes, `tempNum, done`ins, rest`ins
    {
      && nodes == done + rest && nodes != [] && nodes[0] == code
      && i <= |orig| && CodeOf(rest) == orig[i..] && (i == 0 <==> done == [])
      && (CodeOf(done), tempNum) == Formatted(orig, i, t)
    }

    method Round(prev: InterCode?, curr: InterCode, code: InterCode, ghost orig: Code, ghost t: nat, ghost i: nat,
                 ghost done: seq<InterCode>, ghost rest: seq<InterCode>)
      returns (prev': InterCode?, curr': InterCode?, ghost done': seq<InterCode>)
      requires Valid() && Reached(code, orig, t, i, done, rest) && rest != [] && rest[0] == curr
      requires prev == At(done, |done| - 1)
      requires orig != [] && (orig[0].FUNC? || orig[0].NULL?)
      modifies `tempNum, `nodes, `nx, `pv, `region, region`next, region`prev, curr`ins
      ensures Valid() && Reached(code, orig, t, i + 1, done', rest[1..])
      ensures prev' == At(done', |done'| - 1) && curr' == At(rest, 1)
      ensures forall node <- region :: node in old(region) || fresh(node)
    {
      RestCode(rest, orig, i);
      FormattedNext(orig, i, t);
      prev', curr', done' := Advance(prev, curr, done, rest);
      FirstOf(done', rest[1..]);
      FirstOf(done, rest);
    }

    lemma FirstOf(done: seq<InterCode>, rest: seq<InterCode>)
      ensures done != [] ==> (done + rest)[0] == done[0]
      ensures done == [] && rest != [] ==> (done + rest)[0] == rest[0]
    {
    }

    /** Formats the list that starts at `code`, in place. */
    method FormatCode(code: InterCode, ghost orig: Code)
      requires Valid() && nodes != [] && nodes[0] == code && orig == CodeOf(nodes)
      requires code.ins.FUNC? || code.ins.NULL?
      modifies this, region
      ensures Valid() && nodes != [] && nodes[0] == code
      ensures CodeOf(nodes) == Whole(orig, old(tempNum)) && tempNum == Formatted(orig, |orig|, old(tempNum)).1
    {
      var curr: InterCode?, prev: InterCode? := code, null;
      ghost var done: seq<InterCode>, rest, i := [], nodes, 0;
      Ready(code, orig);
      while curr != null
        invariant Valid() && Reached(code, orig, old(tempNum), i, done, rest)
        invariant curr == At(rest, 0) && prev == At(done, |done| - 1)
        invariant forall node <- region :: node in old(region) || fresh(node)
        decreases |rest|
      {
        InRegion(done, rest);
        prev, curr, done := Round(prev, curr, code, orig, old(tempNum), i, done, rest);
        rest, i := rest[1..], i + 1;
      }
      Over(code, orig, old(tempNum), i, done);
    }

    lemma Ready(code: InterCode, orig: Code)
      requires nodes != [] && nodes[0] == code && orig == CodeOf(nodes)
      ensures Reached(code, orig, tempNum, 0, [], nodes) && orig != [] && orig[0] == code.ins
    {
      CodeLength(nodes);
      assert [] + nodes == nodes;
    }

    lemma InRegion(done: seq<InterCode>, rest: seq<InterCode>)
      requires Valid() && nodes == done + rest && rest != []
      ensures rest[0] in region
    {
      assert nodes[|done|] == rest[0];
    }

    lemma Over(code: InterCode, orig: Code, t: nat, i: nat, done: seq<InterCode>)
      requires Reached(code, orig, t, i, done, [])
      ensures nodes == done && i == |orig| && nodes != [] && nodes[0] == code
      ensures (CodeOf(nodes), tempNum) == Formatted(orig, |orig|, t)
    {
      assert done + [] == done;
    }
  }
}
