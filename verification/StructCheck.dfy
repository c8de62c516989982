/** The check that a structure names no member twice; members named again are taken off the list. */
module StructCheck {
  import opened Syntax

  class FieldNode {
    const name: string
    const ftype: Type
    const lineno: nat
    var next: FieldNode?

    constructor (name: string, ftype: Type, lineno: nat, next: FieldNode?)
      ensures this.name == name && this.ftype == ftype && this.lineno == lineno && this.next == next
    {
      this.name, this.ftype, this.lineno, this.next := name, ftype, lineno, next;
    }
  }

  function NodeAt(nodes: seq<FieldNode>, i: int): FieldNode? {
    if 0 <= i < |nodes| then nodes[i] else null
  }

  ghost predicate NextOk(nodes: seq<FieldNode>, i: nat)
    requires i < |nodes|
    reads nodes`next
  {
    nodes[i].next == NodeAt(nodes, i + 1)
  }

  ghost predicate Chained(nodes: seq<FieldNode>)
    reads nodes`next
  {
    && (forall i, j :: 0 <= i < j < |nodes| ==> nodes[i] != nodes[j])
    && forall i {:trigger NextOk(nodes, i)} :: 0 <= i < |nodes| ==> NextOk(nodes, i)
  }

  // ----- what is left -----

  /** The nodes whose name is not `name`. */
  function Others(nodes: seq<FieldNode>, name: string): (r: seq<FieldNode>)
    ensures |r| <= |nodes|
  {
    if nodes == [] then []
    else (if nodes[0].name == name then [] else [nodes[0]]) + Others(nodes[1..], name)
  }

  /** Of every name the first node that bears it. */
  function Firsts(nodes: seq<FieldNode>): seq<FieldNode>
    decreases |nodes|
  {
    if nodes == [] then [] else [nodes[0]] + Firsts(Others(nodes[1..], nodes[0].name))
  }

  /** The lines of the nodes called `name`. */
  function LinesOf(nodes: seq<FieldNode>, name: string): seq<nat> {
    if nodes == [] then []
    else (if nodes[0].name == name then [nodes[0].lineno] else []) + LinesOf(nodes[1..], name)
  }

  /** The lines of all nodes that repeat a name, those of the first name first. */
  function Repeated(nodes: seq<FieldNode>): seq<nat>
    decreases |nodes|
  {
    if nodes == [] then []
    else LinesOf(nodes[1..], nodes[0].name) + Repeated(Others(nodes[1..], nodes[0].name))
  }

  lemma {:induction false} LinesCount(nodes: seq<FieldNode>, name: string)
    ensures |LinesOf(nodes, name)| + |Others(nodes, name)| == |nodes|
  {
    if nodes != [] {
      LinesCount(nodes[1..], name);
    }
  }

  /** One report for each member that is taken off. */
  lemma {:induction false} RepeatedCount(nodes: seq<FieldNode>)
    ensures |Repeated(nodes)| + |Firsts(nodes)| == |nodes|
    decreases |nodes|
  {
    if nodes != [] {
      LinesCount(nodes[1..], nodes[0].name);
      RepeatedCount(Others(nodes[1..], nodes[0].name));
    }
  }

  predicate AllDifferent(nodes: seq<FieldNode>) {
    forall i, j :: 0 <= i < j < |nodes| ==> nodes[i].name != nodes[j].name
  }

  lemma {:induction false} OthersExactly(nodes: seq<FieldNode>, name: string, node: FieldNode)
    ensures node in Others(nodes, name) <==> node in nodes && node.name != name
  {
    if nodes != [] {
      OthersExactly(nodes[1..], name, node);
      assert nodes == [nodes[0]] + nodes[1..];
    }
  }

  lemma {:induction false} FirstsFrom(nodes: seq<FieldNode>, node: FieldNode)
    requires node in Firsts(nodes)
    ensures node in nodes
    decreases |nodes|
  {
    if node != nodes[0] {
      FirstsFrom(Others(nodes[1..], nodes[0].name), node);
      OthersExactly(nodes[1..], nodes[0].name, node);
    }
  }

  /** No name is left twice. */
  lemma {:induction false} FirstsDiffer(nodes: seq<FieldNode>)
    ensures AllDifferent(Firsts(nodes))
    decreases |nodes|
  {
    if nodes != [] {
      var rest := Others(nodes[1..], nodes[0].name);
      FirstsDiffer(rest);
      forall j | 0 <= j < |Firsts(rest)| ensures Firsts(rest)[j].name != nodes[0].name {
        FirstsFrom(rest, Firsts(rest)[j]);
        OthersExactly(nodes[1..], nodes[0].name, Firsts(rest)[j]);
      }
    }
  }

  /** No name is lost, and the first node of each name stays. */
  lemma {:induction false} FirstsKept(nodes: seq<FieldNode>, i: nat)
    requires i < |nodes| && forall k :: 0 <= k < i ==> nodes[k].name != nodes[i].name
    ensures nodes[i] in Firsts(nodes)
    decreases |nodes|
  {
    if i > 0 {
      var j := StillFirst(nodes[1..], nodes[0].name, i - 1);
      FirstsKept(Others(nodes[1..], nodes[0].name), j);
    }
  }

  lemma {:induction false} StillFirst(nodes: seq<FieldNode>, name: string, i: nat) returns (j: nat)
    requires i < |nodes| && nodes[i].name != name && forall k :: 0 <= k < i ==> nodes[k].name != nodes[i].name
    ensures j < |Others(nodes, name)| && Others(nodes, name)[j] == nodes[i]
    ensures forall k :: 0 <= k < j ==> Others(nodes, name)[k].name != nodes[i].name
    decreases nodes
  {
    if i == 0 {
      j := 0;
    } else {
      j := StillFirst(nodes[1..], name, i - 1);
      if nodes[0].name != name {
        j := j + 1;
      }
    }
  }

  lemma {:induction false} OthersAll(nodes: seq<FieldNode>, name: string)
    ensures |Others(nodes, name)| == |nodes| <==> forall i :: 0 <= i < |nodes| ==> nodes[i].name != name
    ensures |Others(nodes, name)| == |nodes| ==> Others(nodes, name) == nodes
  {
    if nodes != [] {
      OthersAll(nodes[1..], name);
      assert forall i :: 1 <= i < |nodes| ==> nodes[i] == nodes[1..][i - 1];
    }
  }

  lemma {:induction false} FirstsShort(nodes: seq<FieldNode>)
    ensures |Firsts(nodes)| <= |nodes|
    decreases |nodes|
  {
    if nodes != [] {
      FirstsShort(Others(nodes[1..], nodes[0].name));
    }
  }

  /** Nothing is taken off exactly when all names differ. */
  lemma {:induction false} NoErrorExactly(nodes: seq<FieldNode>)
    ensures |Firsts(nodes)| == |nodes| <==> AllDifferent(nodes)
    ensures AllDifferent(nodes) ==> Firsts(nodes) == nodes
    decreases |nodes|
  {
    if nodes != [] {
      var tail, name := nodes[1..], nodes[0].name;
      var rest := Others(tail, name);
      OthersAll(tail, name);
      FirstsShort(rest);
      NoErrorExactly(rest);
      assert forall i :: 1 <= i < |nodes| ==> nodes[i] == tail[i - 1];
    }
  }

  // ----- the check -----

  /** Takes node `k` off the list. */
  method Unlink(before: FieldNode, node: FieldNode, ghost nodes: seq<FieldNode>, ghost k: nat)
    requires Chained(nodes) && 0 < k < |nodes| && nodes[k - 1] == before && nodes[k] == node
    modifies before`next
    ensures Chained(nodes[..k] + nodes[k + 1..])
  {
    ghost var left := nodes[..k] + nodes[k + 1..];
    assert NextOk(nodes, k);
    forall i | 0 <= i < |left| ensures left[i] == nodes[if i < k then i else i + 1]
    {
    }
    forall i | 0 <= i < |nodes| ensures nodes[i].next == NodeAt(nodes, i + 1) {
      assert NextOk(nodes, i);
    }
    before.next := node.next;
    forall i | 0 <= i < |left| ensures NextOk(left, i) {
      var was := if i < k then i else i + 1;
      assert left[i] == nodes[was] && (was != k - 1 ==> nodes[was] != before);
      assert NodeAt(left, i + 1) == NodeAt(nodes, if i + 1 < k then i + 1 else i + 2);
    }
  }

  /** A list cut at its node `k`. */
  lemma Cut(front: seq<FieldNode>, todo: seq<FieldNode>)
    requires todo != [] && Chained(front + todo)
    ensures var nodes, k := front + todo, |front|;
            && nodes[k] == todo[0] && (k > 0 ==> nodes[k - 1] == front[k - 1]) && todo[0].next == NodeAt(todo, 1)
            && nodes[..k] + nodes[k + 1..] == front + todo[1..] && nodes == front + [todo[0]] + todo[1..]
  {
    assert NextOk(front + todo, |front|);
  }

  /** Where the last node of the front leads to. */
  lemma Border(front: seq<FieldNode>, todo: seq<FieldNode>)
    requires front != [] && Chained(front + todo)
    ensures front[|front| - 1].next == NodeAt(todo, 0)
  {
    assert NextOk(front + todo, |front| - 1);
  }

  /** Takes off all nodes behind `outer` that have its name. */
  method DropOthers(outer: FieldNode, ghost done: seq<FieldNode>, ghost rest: seq<FieldNode>,
                    ghost region: set<FieldNode>)
    returns (errors: seq<nat>)
    requires Chained(done + [outer] + rest) && outer in region && forall node :: node in rest ==> node in region
    modifies region`next
    ensures Chained(done + [outer] + Others(rest, outer.name))
    ensures errors == LinesOf(rest, outer.name)
  {
    hide Chained;
    errors := [];
    ghost var front, todo, left := done + [outer], rest, done + [outer] + Others(rest, outer.name);
    Border(front, todo);
    var inner, before := outer.next, outer;
    while inner != null
      invariant Chained(front + todo) && inner == NodeAt(todo, 0) && front != [] && before == front[|front| - 1]
      invariant before in region && forall node :: node in todo ==> node in region
      invariant front + Others(todo, outer.name) == left
      invariant errors + LinesOf(todo, outer.name) == LinesOf(rest, outer.name)
      decreases |todo|
    {
      Cut(front, todo);
      if outer.name == inner.name {
        errors := errors + [inner.lineno];
        Unlink(before, inner, front + todo, |front|);
        Border(front, todo[1..]);
        inner := before.next;
      } else {
        before := inner;
        inner := inner.next;
        front := front + [todo[0]];
      }
      todo := todo[1..];
    }
    assert front + [] == front;
  }

  /** Leaves the first member of every name and reports the line of each other one. */
  method CheckDupInStruct(head: FieldNode?, ghost nodes: seq<FieldNode>) returns (errors: seq<nat>)
    requires Chained(nodes) && head == NodeAt(nodes, 0)
    modifies nodes`next
    ensures Chained(Firsts(nodes)) && errors == Repeated(nodes)
    ensures errors == [] <==> AllDifferent(nodes)
  {
    errors := [];
    ghost var done: seq<FieldNode>, rest: seq<FieldNode>, region := [], nodes, set node | node in nodes;
    var outer := head;
    assert [] + nodes == nodes && [] + Firsts(nodes) == Firsts(nodes);
    while outer != null
      invariant Chained(done + rest) && outer == NodeAt(rest, 0)
      invariant Firsts(nodes) == done + Firsts(rest)
      invariant forall node :: node in rest ==> node in region
      invariant errors + Repeated(rest) == Repeated(nodes)
      decreases |rest|
    {
      Cut(done, rest);
      var more := DropOthers(outer, done, rest[1..], region);
      NextFirsts(done, rest, errors, more);
      errors := errors + more;
      ghost var left := Others(rest[1..], outer.name);
      OthersWithin(rest[1..], outer.name);
      Border(done + [outer], left);
      outer := outer.next;
      done, rest := done + [rest[0]], left;
    }
    assert done + [] == done;
    NoErrors(nodes);
  }

  lemma NoErrors(nodes: seq<FieldNode>)
    ensures Repeated(nodes) == [] <==> AllDifferent(nodes)
    ensures Firsts([]) == [] && Repeated([]) == []
  {
    NoErrorExactly(nodes);
    RepeatedCount(nodes);
  }

  lemma NextFirsts(done: seq<FieldNode>, rest: seq<FieldNode>, errors: seq<nat>, more: seq<nat>)
    requires rest != [] && more == LinesOf(rest[1..], rest[0].name)
    ensures errors + Repeated(rest) == errors + more + Repeated(Others(rest[1..], rest[0].name))
    ensures done + Firsts(rest) == done + [rest[0]] + Firsts(Others(rest[1..], rest[0].name))
  {
  }

  lemma OthersWithin(nodes: seq<FieldNode>, name: string)
    ensures forall node :: node in Others(nodes, name) ==> node in nodes
  {
    forall node | node in Others(nodes, name) ensures node in nodes {
      OthersExactly(nodes, name, node);
    }
  }
}
