/** Query plans run by executors that hand out one record at a time. */
module Executors {
  import opened Common

  datatype Value = Number(number: int) | Text(text: string) | Null

  type Record = seq<Value>

  datatype Plan =
    | Scan(rows: seq<Record>)
    | Filter(pred: Record -> bool, child: Plan)
    | Project(image: Record -> Record, child: Plan)
    | Limit(limit: int, child: Plan)

  function Kept(pred: Record -> bool, rows: seq<Record>): seq<Record> {
    if rows == [] then []
    else if pred(rows[0]) then [rows[0]] + Kept(pred, rows[1..])
    else Kept(pred, rows[1..])
  }

  function Images(image: Record -> Record, rows: seq<Record>): (s: seq<Record>)
    ensures |s| == |rows| && forall i :: 0 <= i < |s| ==> s[i] == image(rows[i])
  {
    seq(|rows|, i requires 0 <= i < |rows| => image(rows[i]))
  }

  /** At most `n` rows; none if `n` is negative. */
  function First(n: int, rows: seq<Record>): seq<Record> {
    if n <= 0 then [] else if n < |rows| then rows[..n] else rows
  }

  /** The records a plan stands for. */
  function Records(plan: Plan): seq<Record> {
    match plan
    case Scan(rows) => rows
    case Filter(pred, child) => Kept(pred, Records(child))
    case Project(image, child) => Images(image, Records(child))
    case Limit(limit, child) => First(limit, Records(child))
  }

  function Min(a: int, b: int): int {
    if a <= b then a else b
  }

  /** A limit sends the first rows of its child, `n` of them if there are so many, and none if `n` is
      negative. */
  lemma LimitExactly(n: int, child: Plan)
    ensures var rows, sent := Records(child), Records(Limit(n, child));
            && sent <= rows
            && |sent| == (if n < 0 then 0 else Min(n, |rows|))
            && forall i :: 0 <= i < |sent| ==> sent[i] == rows[i]
  {
  }

  /** Of two limits the smaller one counts, in whichever order they stand. */
  lemma LimitOfLimit(m: int, n: int, child: Plan)
    ensures Records(Limit(m, Limit(n, child))) == Records(Limit(Min(m, n), child))
    ensures Records(Limit(m, Limit(n, child))) == Records(Limit(n, Limit(m, child)))
  {
  }

  /** A scan sends its rows, and a projection one image for each row of its child, in their order. */
  lemma ScanAndProject(rows: seq<Record>, image: Record -> Record, child: Plan)
    ensures Records(Scan(rows)) == rows
    ensures |Records(Project(image, child))| == |Records(child)|
    ensures forall i :: 0 <= i < |Records(child)| ==> Records(Project(image, child))[i] == image(Records(child)[i])
  {
  }

  /** A limit may be taken before or after a projection. */
  lemma LimitBelowProject(n: int, image: Record -> Record, child: Plan)
    ensures Records(Limit(n, Project(image, child))) == Records(Project(image, Limit(n, child)))
  {
  }

  /** A filter keeps exactly the rows that satisfy it, as often as they occur. */
  lemma {:induction false} KeptExactly(pred: Record -> bool, rows: seq<Record>, r: Record)
    ensures multiset(Kept(pred, rows))[r] == if pred(r) then multiset(rows)[r] else 0
  {
    if rows != [] {
      KeptExactly(pred, rows[1..], r);
      assert rows == [rows[0]] + rows[1..];
    }
  }

  /** A filter may be run before or after the rows are split in two, and keeps their order. */
  lemma {:induction false} KeptInOrder(pred: Record -> bool, a: seq<Record>, b: seq<Record>)
    ensures Kept(pred, a + b) == Kept(pred, a) + Kept(pred, b)
  {
    if a == [] {
      assert a + b == b;
    } else {
      assert (a + b)[1..] == a[1..] + b;
      KeptInOrder(pred, a[1..], b);
    }
  }

  /** A filter that looks only at what a projection keeps may be run below it. */
  lemma {:induction false} FilterBelowProject(pred: Record -> bool, below: Record -> bool, image: Record -> Record,
                                              plan: Plan)
    requires forall r :: below(r) == pred(image(r))
    ensures Records(Filter(pred, Project(image, plan))) == Records(Project(image, Filter(below, plan)))
  {
    KeptImages(pred, below, image, Records(plan));
  }

  lemma {:induction false} KeptImages(pred: Record -> bool, below: Record -> bool, image: Record -> Record,
                                      rows: seq<Record>)
    requires forall r :: below(r) == pred(image(r))
    ensures Kept(pred, Images(image, rows)) == Images(image, Kept(below, rows))
  {
    if rows != [] {
      KeptImages(pred, below, image, rows[1..]);
      assert Images(image, rows)[1..] == Images(image, rows[1..]);
    }
  }

  /** What a client is sent. */
  datatype Message = Header | Rec(rec: Record) | Finish

  function Sent(rows: seq<Record>): (s: seq<Message>)
    ensures |s| == |rows| && forall i :: 0 <= i < |s| ==> s[i] == Rec(rows[i])
  {
    seq(|rows|, i requires 0 <= i < |rows| => Rec(rows[i]))
  }

  class Executor {
    const plan: Plan
    const child: Executor?
    ghost const repr: set<Executor>
    var record: Option<Record>
    /** How many records a scan has passed, or how many a limit has fetched. */
    var count: nat

    /** Translates a plan into a tree of executors. */
    constructor (plan: Plan)
      ensures this.plan == plan && Shape() && fresh(repr)
      decreases plan
    {
      this.plan := plan;
      record, count := None, 0;
      if plan.Scan? {
        child := null;
        repr := {this};
      } else {
        var below := new Executor(plan.child);
        child := below;
        repr := {this} + below.repr;
      }
    }

    /** The tree follows the plan and no executor occurs in it twice. */
    ghost predicate Shape()
      decreases plan
    {
      && this in repr
      && (plan.Scan? || (child != null && child.plan == plan.child && child.repr <= repr && this !in child.repr
                         && child.Shape()))
    }

    /** Between calls: the record at hand is the first of those still to come. */
    ghost predicate Valid()
      requires Shape()
      reads repr
      decreases plan, 1
    {
      && (plan.Scan? ==> count <= |plan.rows|)
      && (!plan.Scan? ==> child.Valid())
      && (plan.Filter? && Ahead() != [] ==> plan.pred(Ahead()[0]))
      && (plan.Filter? ==> (record.None? <==> Ahead() == []))
      && (plan.Limit? ==> count <= Most(plan.limit) + 1)
      && (plan.Limit? && plan.limit >= 0 && Ahead() != [] ==> count > 0)
      && (Rest() != [] ==> record == Some(Rest()[0]))
    }

    /** What the executor below, or the scanned table, still has to offer. */
    ghost function Ahead(): seq<Record>
      requires Shape()
      reads repr
      decreases plan, 0
    {
      if plan.Scan? then (if count <= |plan.rows| then plan.rows[count..] else []) else child.Rest()
    }

    /** The records still to be handed out, the current one first. */
    ghost function Rest(): seq<Record>
      requires Shape()
      reads repr
      decreases plan, 1
    {
      match plan
      case Scan(_) => Ahead()
      case Filter(pred, _) => Kept(pred, Ahead())
      case Project(image, _) => Images(image, Ahead())
      case Limit(limit, _) => First(limit + 1 - count, Ahead())
    }

    /** Between calls, with `rest` still to be handed out; a proof that looks inside says
        `assert Unfold(0)`. */
    ghost predicate Running(rest: seq<Record>)
      reads repr
    {
      forall k {:trigger Unfold(k)} :: Unfold(k) ==> Shape() && Valid() && Rest() == rest
    }

    method IsEnd(ghost rest: seq<Record>) returns (end: bool)
      requires Running(rest)
      ensures end == (rest == [])
      decreases plan
    {
      assert Unfold(0);
      match plan
      case Scan(rows) => end := count >= |rows|;
      case Filter(_, _) => end := record.None?;
      case Project(_, _) => end := child.IsEnd(child.Rest());
      case Limit(limit, _) =>
        end := count > limit;
        if !end {
          end := child.IsEnd(child.Rest());
        }
    }

    method GetRecord(ghost rest: seq<Record>) returns (rec: Option<Record>)
      requires Running(rest)
      ensures rest != [] ==> rec == Some(rest[0])
    {
      assert Unfold(0);
      rec := record;
    }

    /** Starts from the first record, also after an earlier run. */
    method Init()
      requires Shape()
      modifies repr
      ensures Running(Records(plan))
      decreases plan, 1
    {
      match plan
      case Scan(rows) =>
        count := 0;
        record := if rows == [] then None else Some(rows[0]);
        assert rows[0..] == rows && Ahead() == rows && Valid();
      case Filter(_, _) =>
        child.Init();
        Seek(Records(plan.child));
      case Project(_, _) =>
        child.Init();
        Fetch(Records(plan.child));
      case Limit(_, _) =>
        child.Init();
        count := 0;
        Count(Records(plan.child));
    }

    /** Moves on to the next record. */
    method Next(ghost rest: seq<Record>)
      requires Running(rest) && rest != []
      modifies repr
      ensures Running(rest[1..])
      decreases plan, 1
    {
      assert Unfold(0);
      ghost var ahead := Ahead();
      match plan
      case Scan(rows) =>
        count := count + 1;
        record := if count < |rows| then Some(rows[count]) else None;
        assert rows[count..] == ahead[1..] && Ahead() == ahead[1..] && Valid();
      case Filter(_, _) =>
        child.Next(ahead);
        Seek(ahead[1..]);
      case Project(image, _) =>
        assert Images(image, ahead)[1..] == Images(image, ahead[1..]);
        child.Next(ahead);
        Fetch(ahead[1..]);
      case Limit(limit, _) =>
        FirstTail(limit + 1 - count, ahead);
        child.Next(ahead);
        Count(ahead[1..]);
    }

    /** Looks for the next record that the filter keeps. */
    method Seek(ghost rows: seq<Record>)
      requires Shape() && plan.Filter? && child.Running(rows)
      modifies repr
      ensures Running(Kept(plan.pred, rows))
      decreases plan, 0
    {
      record := None;
      ghost var rest := rows;
      var end := child.IsEnd(rest);
      while !end
        invariant child.Running(rest) && record == None && end == (rest == [])
        invariant Kept(plan.pred, rest) == Kept(plan.pred, rows)
        decreases |rest|
      {
        var rec := child.GetRecord(rest);
        if rec.Some? && plan.pred(rec.value) {
          record := rec;
          assert Unfold(0);
          return;
        }
        child.Next(rest);
        rest := rest[1..];
        end := child.IsEnd(rest);
      }
      assert Unfold(0);
    }

    /** Projects the record at hand. */
    method Fetch(ghost rows: seq<Record>)
      requires Shape() && plan.Project? && child.Running(rows)
      modifies repr
      ensures Running(Images(plan.image, rows))
      decreases plan, 0
    {
      record := None;
      var end := child.IsEnd(rows);
      if !end {
        var rec := child.GetRecord(rows);
        if rec.Some? {
          record := Some(plan.image(rec.value));
        }
      }
      assert Unfold(0);
      assert Ahead() == rows && Valid();
    }

    /** Takes another record over, unless the limit is reached. */
    method Count(ghost rows: seq<Record>)
      requires Shape() && plan.Limit? && child.Running(rows) && count <= Most(plan.limit)
      modifies repr
      ensures Running(First(plan.limit - old(count), rows))
      decreases plan, 0
    {
      var end := count > plan.limit;
      if !end {
        end := child.IsEnd(rows);
      }
      if !end {
        record := child.GetRecord(rows);
        count := count + 1;
      }
      assert Unfold(0);
      assert Ahead() == rows && Valid();
    }

    /** Sends everything the plan stands for. */
    method Execute() returns (messages: seq<Message>)
      requires Shape()
      modifies repr
      ensures messages == [Header] + Sent(Records(plan)) + [Finish]
    {
      messages := [Header];
      ghost var done: seq<Record>, rest := [], Records(plan);
      Init();
      var end := IsEnd(rest);
      while !end
        invariant Running(rest) && end == (rest == []) && done + rest == Records(plan)
        invariant messages == Opened(done)
        decreases |rest|
      {
        SentMore(done, rest);
        var rec := GetRecord(rest);
        assert rec.Some?;
        messages := messages + [Rec(rec.value)];
        Next(rest);
        done, rest := done + [rec.value], rest[1..];
        end := IsEnd(rest);
      }
      assert done + [] == done;
      messages := messages + [Finish];
    }
  }

  lemma FirstTail(n: int, rows: seq<Record>)
    requires rows != [] && n > 0
    ensures First(n, rows)[1..] == First(n - 1, rows[1..])
  {
  }

  function Opened(rows: seq<Record>): seq<Message> {
    [Header] + Sent(rows)
  }

  lemma SentMore(done: seq<Record>, rest: seq<Record>)
    requires rest != []
    ensures Opened(done + [rest[0]]) == Opened(done) + [Rec(rest[0])]
    ensures done + [rest[0]] + rest[1..] == done + rest
  {
    assert Sent(done + [rest[0]]) == Sent(done) + [Rec(rest[0])];
  }

  function Most(limit: int): nat {
    if limit < 0 then 0 else limit
  }
}
