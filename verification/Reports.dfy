/** Which lines the check of a structure reports, and in which order. */
module Reports {
  import opened StructCheck

  /** A node before `j` bears the name of node `j`. */
  predicate Repeats(nodes: seq<FieldNode>, j: nat)
    requires j < |nodes|
  {
    exists i :: 0 <= i < j && nodes[i].name == nodes[j].name
  }

  /** The place of the first node called `name`. */
  function FirstOf(nodes: seq<FieldNode>, name: string): (i: nat)
    ensures i <= |nodes| && (i < |nodes| ==> nodes[i].name == name)
    ensures forall k :: 0 <= k < i ==> nodes[k].name != name
  {
    if nodes == [] || nodes[0].name == name then 0 else 1 + FirstOf(nodes[1..], name)
  }

  /** Node `i` is reported before node `j`: its name comes first in the list, or it is the same name, and then
      the nodes keep their order. */
  predicate Earlier(nodes: seq<FieldNode>, i: nat, j: nat)
    requires i < |nodes| && j < |nodes|
  {
    || FirstOf(nodes, nodes[i].name) < FirstOf(nodes, nodes[j].name)
    || (nodes[i].name == nodes[j].name && i < j)
  }

  // ----- places -----

  /** The places from `from` on of the nodes that are called `name`, or of those that are not. */
  function Where(nodes: seq<FieldNode>, name: string, yes: bool, from: nat): seq<nat>
    requires from <= |nodes|
    decreases |nodes| - from
  {
    if from == |nodes| then []
    else (if (nodes[from].name == name) == yes then [from] else []) + Where(nodes, name, yes, from + 1)
  }

  ghost predicate Increasing(ks: seq<nat>, from: nat, end: nat) {
    (forall i :: 0 <= i < |ks| ==> from <= ks[i] < end) && forall i, j :: 0 <= i < j < |ks| ==> ks[i] < ks[j]
  }

  lemma {:induction false} WhereIncreases(nodes: seq<FieldNode>, name: string, yes: bool, from: nat)
    requires from <= |nodes|
    ensures Increasing(Where(nodes, name, yes, from), from, |nodes|)
    decreases |nodes| - from
  {
    if from < |nodes| {
      WhereIncreases(nodes, name, yes, from + 1);
    }
  }

  lemma {:induction false} WhereExactly(nodes: seq<FieldNode>, name: string, yes: bool, from: nat, j: nat)
    requires from <= |nodes|
    ensures j in Where(nodes, name, yes, from) <==> from <= j < |nodes| && (nodes[j].name == name) == yes
    decreases |nodes| - from
  {
    if from < |nodes| {
      WhereExactly(nodes, name, yes, from + 1, j);
    }
  }

  lemma {:induction false} WhereOthers(nodes: seq<FieldNode>, name: string, from: nat)
    requires from <= |nodes|
    ensures var others, ks := Others(nodes[from..], name), Where(nodes, name, false, from);
            |others| == |ks| && forall i :: 0 <= i < |ks| ==> ks[i] < |nodes| && others[i] == nodes[ks[i]]
    decreases |nodes| - from
  {
    if from < |nodes| {
      WhereOthers(nodes, name, from + 1);
      assert nodes[from..][1..] == nodes[from + 1..];
    }
  }

  lemma {:induction false} WhereLines(nodes: seq<FieldNode>, name: string, from: nat)
    requires from <= |nodes|
    ensures var lines, js := LinesOf(nodes[from..], name), Where(nodes, name, true, from);
            |lines| == |js| && forall i :: 0 <= i < |js| ==> js[i] < |nodes| && lines[i] == nodes[js[i]].lineno
    decreases |nodes| - from
  {
    if from < |nodes| {
      WhereLines(nodes, name, from + 1);
      assert nodes[from..][1..] == nodes[from + 1..];
    }
  }

  // ----- the nodes of all names but the first -----

  /** `rest` are the nodes at the places `ks`: all that bear names other than the first one. */
  ghost predicate Selects(nodes: seq<FieldNode>, rest: seq<FieldNode>, ks: seq<nat>) {
    && nodes != [] && |ks| == |rest| && Increasing(ks, 1, |nodes|)
    && (forall i :: 0 <= i < |ks| ==> nodes[ks[i]] == rest[i] && rest[i].name != nodes[0].name)
    && forall j :: 0 <= j < |nodes| && nodes[j].name != nodes[0].name ==> j in ks
  }

  lemma OthersSelected(nodes: seq<FieldNode>)
    requires nodes != []
    ensures Selects(nodes, Others(nodes[1..], nodes[0].name), Where(nodes, nodes[0].name, false, 1))
  {
    var name, ks := nodes[0].name, Where(nodes, nodes[0].name, false, 1);
    WhereIncreases(nodes, name, false, 1);
    WhereOthers(nodes, name, 1);
    forall j ensures j in ks <==> 1 <= j < |nodes| && nodes[j].name != name {
      if j >= 0 {
        WhereExactly(nodes, name, false, 1, j);
      }
    }
    forall i | 0 <= i < |ks| ensures nodes[ks[i]].name != name {
      assert ks[i] in ks;
    }
  }

  lemma SelectedFirst(nodes: seq<FieldNode>, rest: seq<FieldNode>, ks: seq<nat>, i: nat)
    requires Selects(nodes, rest, ks) && i < |rest|
    ensures FirstOf(rest, rest[i].name) < |rest|
    ensures FirstOf(nodes, rest[i].name) == ks[FirstOf(rest, rest[i].name)]
  {
    var name := rest[i].name;
    var a, b := FirstOf(rest, name), FirstOf(nodes, name);
    assert nodes[ks[i]].name == name;
    var k :| 0 <= k < |ks| && ks[k] == b;
    assert rest[k].name == name && nodes[ks[a]].name == name;
  }

  lemma SelectedEarlier(nodes: seq<FieldNode>, rest: seq<FieldNode>, ks: seq<nat>, i: nat, j: nat)
    requires Selects(nodes, rest, ks) && i < |rest| && j < |rest| && Earlier(rest, i, j)
    ensures Earlier(nodes, ks[i], ks[j])
  {
    SelectedFirst(nodes, rest, ks, i);
    SelectedFirst(nodes, rest, ks, j);
  }

  lemma SelectedRepeats(nodes: seq<FieldNode>, rest: seq<FieldNode>, ks: seq<nat>, j: nat)
    requires Selects(nodes, rest, ks) && j < |rest|
    ensures Repeats(rest, j) <==> Repeats(nodes, ks[j])
  {
    if Repeats(rest, j) {
      var i :| 0 <= i < j && rest[i].name == rest[j].name;
      assert nodes[ks[i]].name == nodes[ks[j]].name && ks[i] < ks[j];
    }
    if Repeats(nodes, ks[j]) {
      var i :| 0 <= i < ks[j] && nodes[i].name == nodes[ks[j]].name;
      var k :| 0 <= k < |ks| && ks[k] == i;
      assert k < j && rest[k].name == rest[j].name;
    }
  }

  // ----- the reports -----

  /** `lines` are the lines of the nodes at the places `js`, which are exactly those that repeat a name. */
  ghost predicate Reported(nodes: seq<FieldNode>, js: seq<nat>, lines: seq<nat>) {
    && |js| == |lines|
    && (forall k :: 0 <= k < |js| ==> ReportAt(nodes, js[k], lines[k]))
    && (forall j :: 0 <= j < |nodes| && Repeats(nodes, j) ==> j in js)
    && forall k, l :: 0 <= k < l < |js| ==> Earlier(nodes, js[k], js[l])
  }

  predicate ReportAt(nodes: seq<FieldNode>, j: nat, line: nat) {
    j < |nodes| && Repeats(nodes, j) && line == nodes[j].lineno
  }

  /** Exactly the nodes that repeat a name are reported, each once and with its own line: names in the order
      in which they first occur, and the nodes of one name in the order of the list. */
  lemma {:induction false} ReportedExactly(nodes: seq<FieldNode>) returns (js: seq<nat>)
    ensures Reported(nodes, js, Repeated(nodes))
    decreases |nodes|
  {
    js := [];
    if nodes != [] {
      hide Reported, Where;
      var name := nodes[0].name;
      var rest := Others(nodes[1..], name);
      var inner := ReportedExactly(rest);
      js := Joined(nodes, rest, inner);
    }
  }

  function Moved(ks: seq<nat>, inner: seq<nat>): (s: seq<nat>)
    requires forall k :: 0 <= k < |inner| ==> inner[k] < |ks|
    ensures |s| == |inner| && forall k :: 0 <= k < |s| ==> s[k] == ks[inner[k]]
  {
    seq(|inner|, k requires 0 <= k < |inner| => ks[inner[k]])
  }

  lemma Joined(nodes: seq<FieldNode>, rest: seq<FieldNode>, inner: seq<nat>) returns (js: seq<nat>)
    requires nodes != [] && rest == Others(nodes[1..], nodes[0].name) && Reported(rest, inner, Repeated(rest))
    ensures Reported(nodes, js, Repeated(nodes))
  {
    hide Repeats, Earlier, Where, Selects, Increasing, Others, LinesOf, FirstOf, ReportAt;
    var name := nodes[0].name;
    var here, ks := Where(nodes, name, true, 1), Where(nodes, name, false, 1);
    OthersSelected(nodes);
    SameLength(nodes, rest, ks);
    forall k | 0 <= k < |inner| ensures inner[k] < |ks| {
      assert ReportAt(rest, inner[k], Repeated(rest)[k]);
      ReportInside(rest, inner[k], Repeated(rest)[k]);
    }
    js := here + Moved(ks, inner);
    BothReported(nodes, rest, ks, inner);
    AllFound(nodes, rest, ks, inner, Repeated(rest));
    forall k, l | 0 <= k < l < |js| ensures js[k] < |nodes| && js[l] < |nodes| && Earlier(nodes, js[k], js[l]) {
      InOrder(nodes, rest, ks, inner, Repeated(rest), k, l);
    }
  }

  lemma ReportInside(nodes: seq<FieldNode>, j: nat, line: nat)
    requires ReportAt(nodes, j, line)
    ensures j < |nodes|
  {
  }

  lemma BothReported(nodes: seq<FieldNode>, rest: seq<FieldNode>, ks: seq<nat>, inner: seq<nat>)
    requires nodes != [] && rest == Others(nodes[1..], nodes[0].name) && Reported(rest, inner, Repeated(rest))
    requires Selects(nodes, rest, ks) && forall k :: 0 <= k < |inner| ==> inner[k] < |ks|
    ensures var js, lines := Where(nodes, nodes[0].name, true, 1) + Moved(ks, inner), Repeated(nodes);
            |js| == |lines| && forall k :: 0 <= k < |js| ==> ReportAt(nodes, js[k], lines[k])
  {
    hide ReportAt, Selects, Where, Others, LinesOf;
    HereReported(nodes);
    ThereReported(nodes, rest, ks, inner, Repeated(rest));
    assert Repeated(nodes) == LinesOf(nodes[1..], nodes[0].name) + Repeated(rest);
  }

  lemma SameLength(nodes: seq<FieldNode>, rest: seq<FieldNode>, ks: seq<nat>)
    requires Selects(nodes, rest, ks)
    ensures |ks| == |rest|
  {
  }

  /** The nodes that bear the first name again. */
  lemma HereReported(nodes: seq<FieldNode>)
    requires nodes != []
    ensures var lines, here := LinesOf(nodes[1..], nodes[0].name), Where(nodes, nodes[0].name, true, 1);
            |lines| == |here| && forall k :: 0 <= k < |here| ==> ReportAt(nodes, here[k], lines[k])
  {
    var name := nodes[0].name;
    var lines, here := LinesOf(nodes[1..], name), Where(nodes, name, true, 1);
    WhereLines(nodes, name, 1);
    forall k | 0 <= k < |here| ensures ReportAt(nodes, here[k], lines[k]) {
      WhereExactly(nodes, name, true, 1, here[k]);
      assert here[k] in here && nodes[0].name == nodes[here[k]].name;
    }
  }

  /** The others keep their reports. */
  lemma ThereReported(nodes: seq<FieldNode>, rest: seq<FieldNode>, ks: seq<nat>, inner: seq<nat>, lines: seq<nat>)
    requires Selects(nodes, rest, ks) && Reported(rest, inner, lines)
    requires forall k :: 0 <= k < |inner| ==> inner[k] < |ks|
    ensures forall k :: 0 <= k < |inner| ==> ReportAt(nodes, Moved(ks, inner)[k], lines[k])
  {
    hide Repeats;
    forall k | 0 <= k < |inner| ensures ReportAt(nodes, Moved(ks, inner)[k], lines[k]) {
      assert ReportAt(rest, inner[k], lines[k]);
      SelectedRepeats(nodes, rest, ks, inner[k]);
    }
  }

  lemma AllFound(nodes: seq<FieldNode>, rest: seq<FieldNode>, ks: seq<nat>, inner: seq<nat>, lines: seq<nat>)
    requires Selects(nodes, rest, ks) && Reported(rest, inner, lines)
    requires forall k :: 0 <= k < |inner| ==> inner[k] < |ks|
    ensures forall j :: 0 <= j < |nodes| && Repeats(nodes, j) ==>
              j in Where(nodes, nodes[0].name, true, 1) + Moved(ks, inner)
  {
    forall j | 0 <= j < |nodes| && Repeats(nodes, j)
      ensures j in Where(nodes, nodes[0].name, true, 1) + Moved(ks, inner)
    {
      hide Repeats;
      if nodes[j].name == nodes[0].name {
        NotFirst(nodes, j);
        WhereExactly(nodes, nodes[0].name, true, 1, j);
      } else {
        var i :| 0 <= i < |ks| && ks[i] == j;
        SelectedRepeats(nodes, rest, ks, i);
        var k :| 0 <= k < |inner| && inner[k] == i;
        assert Moved(ks, inner)[k] == j;
      }
    }
  }

  lemma NotFirst(nodes: seq<FieldNode>, j: nat)
    requires j < |nodes| && Repeats(nodes, j)
    ensures j > 0
  {
  }

  lemma InOrder(nodes: seq<FieldNode>, rest: seq<FieldNode>, ks: seq<nat>, inner: seq<nat>, lines: seq<nat>,
                k: nat, l: nat)
    requires Selects(nodes, rest, ks) && Reported(rest, inner, lines)
    requires forall k :: 0 <= k < |inner| ==> inner[k] < |ks|
    requires k < l < |Where(nodes, nodes[0].name, true, 1)| + |inner|
    ensures var js := Where(nodes, nodes[0].name, true, 1) + Moved(ks, inner);
            js[k] < |nodes| && js[l] < |nodes| && Earlier(nodes, js[k], js[l])
  {
    hide Where, Repeats;
    var here := Where(nodes, nodes[0].name, true, 1);
    var n := |here|;
    WhereIncreases(nodes, nodes[0].name, true, 1);
    if k < n {
      WhereExactly(nodes, nodes[0].name, true, 1, here[k]);
    }
    if l < n {
      WhereExactly(nodes, nodes[0].name, true, 1, here[l]);
    } else if k < n {
      assert rest[inner[l - n]].name != nodes[0].name;
      assert FirstOf(nodes, nodes[0].name) == 0;
    } else {
      hide FirstOf, Earlier;
      SelectedEarlier(nodes, rest, ks, inner[k - n], inner[l - n]);
    }
  }
}
