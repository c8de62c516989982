/** Quicksort with a hole that moves between the two ends of the range. */
module QuickSort {

  predicate SortedBetween(s: seq<int>, p: int, q: int) {
    forall i, j :: 0 <= i < |s| && 0 <= j < |s| && p <= i <= j <= q ==> s[i] <= s[j]
  }

  /** `t` holds what `s` holds, and the same cells outside `p..q`. */
  ghost predicate Rearranged(s: seq<int>, t: seq<int>, p: int, q: int) {
    && |s| == |t| && multiset(s) == multiset(t)
    && forall k :: 0 <= k < |s| && (k < p || q < k) ==> t[k] == s[k]
  }

  lemma Untouched(s: seq<int>, p: int, q: int)
    ensures Rearranged(s, s, p, q)
  {
  }

  /** Moving the hole from `i` to `j` loses nothing: `v` is what the hole stands for. */
  lemma MoveHole(s: seq<int>, i: nat, j: nat, v: int)
    requires i < |s| && j < |s|
    ensures multiset(s[i := s[j]][j := v]) == multiset(s[i := v])
  {
    if i == j {
      assert s[i := s[j]][j := v] == s[i := v];
    }
  }

  lemma HoleMoved(was: seq<int>, s: seq<int>, t: seq<int>, i: nat, j: nat, v: int, p: int, q: int)
    requires i < |s| && j < |s| && p <= i <= q && p <= j <= q
    requires Rearranged(was, s[i := v], p, q) && t == s[i := s[j]]
    ensures Rearranged(was, t[j := v], p, q)
  {
    MoveHole(s, i, j, v);
  }

  /** A rearrangement of a range has the same elements in that range. */
  lemma SameRange(s: seq<int>, t: seq<int>, p: nat, q: int)
    requires Rearranged(s, t, p, q) && p <= q + 1 <= |s|
    ensures multiset(s[p..q + 1]) == multiset(t[p..q + 1])
  {
    var a, b, c := s[..p], s[p..q + 1], s[q + 1..];
    assert s == a + b + c;
    assert t[..p] == a && t[q + 1..] == c;
    assert t == a + t[p..q + 1] + c;
    Cancel(a, b, t[p..q + 1], c);
  }

  lemma Cancel(a: seq<int>, b: seq<int>, b': seq<int>, c: seq<int>)
    requires multiset(a + b + c) == multiset(a + b' + c)
    ensures multiset(b) == multiset(b')
  {
    assert multiset(a + b + c) == multiset(a) + multiset(b) + multiset(c);
    assert multiset(a + b' + c) == multiset(a) + multiset(b') + multiset(c);
    assert multiset(b) == multiset(a) + multiset(b) + multiset(c) - multiset(a) - multiset(c);
    assert multiset(b') == multiset(a) + multiset(b') + multiset(c) - multiset(a) - multiset(c);
  }

  predicate AllAtMost(s: seq<int>, p: int, q: int, v: int) {
    forall k :: 0 <= k < |s| && p <= k <= q ==> s[k] <= v
  }

  predicate AllAtLeast(s: seq<int>, p: int, q: int, v: int) {
    forall k :: 0 <= k < |s| && p <= k <= q ==> v <= s[k]
  }

  lemma BoundsKept(s: seq<int>, t: seq<int>, p: nat, q: int, v: int)
    requires Rearranged(s, t, p, q) && p <= q + 1 <= |s|
    ensures AllAtMost(s, p, q, v) ==> AllAtMost(t, p, q, v)
    ensures AllAtLeast(s, p, q, v) ==> AllAtLeast(t, p, q, v)
  {
    SameRange(s, t, p, q);
    forall k | p <= k <= q ensures exists l :: p <= l <= q && s[l] == t[k] {
      assert t[p..q + 1][k - p] in multiset(s[p..q + 1]);
      var x := t[k];
      assert x in s[p..q + 1];
      var l :| 0 <= l < |s[p..q + 1]| && s[p..q + 1][l] == x;
      assert s[p + l] == x;
    }
  }

  lemma RearrangedTwice(s: seq<int>, t: seq<int>, u: seq<int>, p: int, q: int, p': int, q': int)
    requires Rearranged(s, t, p, q) && Rearranged(t, u, p', q') && p <= p' && q' <= q
    ensures Rearranged(s, u, p, q)
  {
  }

  predicate Sorted(s: seq<int>) {
    forall i, j :: 0 <= i <= j < |s| ==> s[i] <= s[j]
  }

  lemma HeadLeast(s: seq<int>, t: seq<int>)
    requires s != [] && Sorted(s) && multiset(s) == multiset(t)
    ensures t != [] && s[0] <= t[0]
  {
    assert |multiset(t)| == |t| && |multiset(s)| == |s|;
    assert t[0] in multiset(s);
  }

  lemma TailElements(s: seq<int>)
    requires s != []
    ensures multiset(s[1..]) == multiset(s) - multiset{s[0]}
  {
    assert s == [s[0]] + s[1..];
  }

  /** Only one sorted sequence has given elements. */
  lemma {:induction false} SortedUnique(s: seq<int>, t: seq<int>)
    requires multiset(s) == multiset(t) && Sorted(s) && Sorted(t)
    ensures s == t
  {
    if s == [] {
      assert |multiset(t)| == |t|;
    } else {
      HeadLeast(s, t);
      HeadLeast(t, s);
      TailElements(s);
      TailElements(t);
      SortedUnique(s[1..], t[1..]);
      assert s == [s[0]] + s[1..] && t == [t[0]] + t[1..];
    }
  }

  /** Splits the range around its first element. */
  method Partition(a: array<int>, p: nat, q: int) returns (m: nat)
    requires p <= q < a.Length
    modifies a
    ensures p <= m <= q && a[m] == old(a[p])
    ensures Rearranged(old(a[..]), a[..], p, q)
    ensures AllAtMost(a[..], p, m - 1, a[m])
    ensures forall k :: m < k <= q ==> a[m] < a[k]
  {
    hide Rearranged;
    var pivot := a[p];
    var i, j := p, q;
    ghost var start := a[..];
    assert start[i := pivot] == start;
    Untouched(start, p, q);
    while i < j
      invariant p <= i <= j <= q
      invariant Rearranged(start, a[..][i := pivot], p, q)
      invariant forall k :: p <= k < i ==> a[k] <= pivot
      invariant forall k :: j < k <= q ==> pivot < a[k]
      decreases j - i
    {
      ghost var gap := j - i;
      while i < j && a[j] > pivot
        invariant i <= j <= q && j - i <= gap
        invariant forall k :: j < k <= q ==> pivot < a[k]
      {
        j := j - 1;
      }
      ghost var before := a[..];
      a[i] := a[j];
      HoleMoved(start, before, a[..], i, j, pivot, p, q);
      while i < j && a[i] <= pivot
        invariant p <= i <= j && j - i <= gap && (j - i == gap ==> i < j && a[i] <= pivot)
        invariant forall k :: p <= k < i ==> a[k] <= pivot
      {
        i := i + 1;
      }
      before := a[..];
      a[j] := a[i];
      HoleMoved(start, before, a[..], j, i, pivot, p, q);
    }
    ghost var filled := a[..][i := pivot];
    a[i] := pivot;
    assert a[..] == filled;
    m := i;
  }

  /** Sorts `a[p..q]` in place. */
  method QuickSort(a: array<int>, p: int, q: int)
    requires p < q ==> 0 <= p && q < a.Length
    modifies a
    ensures Rearranged(old(a[..]), a[..], p, q) && SortedBetween(a[..], p, q)
    decreases q - p
  {
    if p >= q {
      return;
    }
    ghost var s0 := a[..];
    var m: int := Partition(a, p, q);
    ghost var s1, v := a[..], a[m];
    assert AllAtLeast(s1, m + 1, q, v);
    QuickSort(a, p, m - 1);
    ghost var s2 := a[..];
    BoundsKept(s1, s2, p, m - 1, v);
    QuickSort(a, m + 1, q);
    ghost var s3 := a[..];
    BoundsKept(s2, s3, m + 1, q, v);
    RearrangedTwice(s0, s1, s2, p, q, p, m - 1);
    RearrangedTwice(s0, s2, s3, p, q, m + 1, q);
    Assembled(s2, s3, p, m, q);
  }

  /** The sort is a function of the range's contents: any two runs of it on arrays that hold the
      same elements there, in whatever order, leave the same contents. */
  lemma SortDetermined(s: seq<int>, t: seq<int>, u: seq<int>, v: seq<int>, p: nat, q: int)
    requires p <= q + 1 <= |s| && |s| == |u| && multiset(s[p..q + 1]) == multiset(u[p..q + 1])
    requires Rearranged(s, t, p, q) && SortedBetween(t, p, q)
    requires Rearranged(u, v, p, q) && SortedBetween(v, p, q)
    ensures t[p..q + 1] == v[p..q + 1]
  {
    SameRange(s, t, p, q);
    SameRange(u, v, p, q);
    SortedUnique(t[p..q + 1], v[p..q + 1]);
  }

  lemma Assembled(s: seq<int>, t: seq<int>, p: nat, m: nat, q: int)
    requires p <= m <= q < |s| && Rearranged(s, t, m + 1, q)
    requires SortedBetween(s, p, m - 1) && AllAtMost(s, p, m - 1, s[m])
    requires SortedBetween(t, m + 1, q) && AllAtLeast(t, m + 1, q, s[m])
    ensures SortedBetween(t, p, q)
  {
    forall i, j | p <= i <= j <= q ensures t[i] <= t[j] {
      assert i <= m ==> t[i] == s[i] && t[i] <= s[m];
      assert j >= m ==> s[m] <= t[j];
    }
  }
}
