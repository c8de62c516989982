/** The register file of the code generator: which operand each register holds and how long ago it
    was last asked for. */
module Registers {
  import opened Common
  import opened Ir
  import opened CodeGen

  lemma {:induction false} AgeBound(history: seq<nat>, r: nat)
    ensures Age(history, r) <= |history|
    ensures r in history ==> Age(history, r) < |history| && history[|history| - 1 - Age(history, r)] == r
    ensures r !in history ==> Age(history, r) == |history|
    decreases |history|
  {
    if history != [] && history[|history| - 1] != r {
      AgeBound(history[..|history| - 1], r);
    }
  }

  /** Ages tell apart the registers that have been asked for. */
  lemma AgesDiffer(history: seq<nat>, r: nat, s: nat)
    requires r in history && s in history && r != s
    ensures Age(history, r) != Age(history, s)
  {
    AgeBound(history, r);
    AgeBound(history, s);
  }

  predicate AskedSince(history: seq<nat>, k: nat, s: nat) {
    k < |history| && s in history[k + 1..]
  }

  /** The last request for `r` is number `k`; all other registers have been asked for since. */
  ghost predicate LastAt(history: seq<nat>, r: nat, k: nat) {
    && k < |history| && history[k] == r && !AskedSince(history, k, r)
    && forall s :: FIRST <= s < FIRST + REGISTERS && s != r ==> AskedSince(history, k, s)
  }

  /** `r` was last asked for before every other register. */
  ghost predicate LeastRecent(history: seq<nat>, r: nat) {
    exists k :: LastAt(history, r, k)
  }

  /** Among registers that all have been asked for, one is older than all others: the least recent one. */
  lemma OldestIsLeastRecent(history: seq<nat>, r: nat)
    requires forall s :: FIRST <= s < FIRST + REGISTERS ==> s in history
    requires FIRST <= r < FIRST + REGISTERS
    requires forall s :: FIRST <= s < FIRST + REGISTERS ==> Age(history, s) <= Age(history, r)
    ensures LeastRecent(history, r)
    ensures forall s :: FIRST <= s < FIRST + REGISTERS && s != r ==> Age(history, s) < Age(history, r)
  {
    AgeBound(history, r);
    var k := |history| - 1 - Age(history, r);
    NotSince(history, r, k);
    forall s | FIRST <= s < FIRST + REGISTERS && s != r
      ensures Age(history, s) < Age(history, r) && AskedSince(history, k, s)
    {
      AgesDiffer(history, r, s);
      AgeBound(history, s);
      var i := |history| - 1 - Age(history, s);
      assert history[k + 1..][i - (k + 1)] == s;
    }
    assert LastAt(history, r, k);
  }

  lemma {:induction false} NotSince(history: seq<nat>, r: nat, k: int)
    requires k == |history| - 1 - Age(history, r)
    ensures forall j :: k < j < |history| && 0 <= j ==> history[j] != r
    decreases |history|
  {
    if history != [] && history[|history| - 1] != r {
      NotSince(history[..|history| - 1], r, k);
    }
  }

  /** `Oldest` is where a search for the greatest age ends. */
  lemma {:induction false} OldestFound(history: seq<nat>, n: nat, r: nat)
    requires 0 < n && FIRST <= r < FIRST + n
    requires forall s :: FIRST <= s < FIRST + n ==> Age(history, s) <= Age(history, r)
    requires forall s :: FIRST <= s < r ==> Age(history, s) < Age(history, r)
    ensures Oldest(history, n) == r
    decreases n
  {
    if n > 1 {
      if r < FIRST + n - 1 {
        OldestFound(history, n - 1, r);
      }
    }
  }

  class RegisterFile {
    const inUse: array<bool>
    const held: array<Option<Operand>>
    const lastUse: array<int>
    /** The operands in registers 8, 9, … */
    ghost var used: seq<Operand>
    /** The registers that have been asked for since the last `Clear`, oldest request first. */
    ghost var history: seq<nat>

    ghost predicate Valid()
      reads this, inUse, held, lastUse
    {
      && inUse.Length == 32 && held.Length == 32 && lastUse.Length == 32
      && |used| <= REGISTERS
      && (forall i, j :: 0 <= i < j < |used| ==> used[i] != used[j])
      && (forall r :: FIRST <= r < FIRST + |used| ==>
            inUse[r] && held[r] == Some(used[r - FIRST]) && r in history)
      && (forall r :: FIRST + |used| <= r < FIRST + REGISTERS ==> !inUse[r])
      && AgesOk()
    }

    ghost predicate AgesOk()
      requires lastUse.Length == 32
      reads `history, lastUse
    {
      forall r :: FIRST <= r < FIRST + REGISTERS ==> lastUse[r] == Age(history, r)
    }

    constructor ()
      ensures Valid() && used == [] && history == [] && fresh(inUse) && fresh(held) && fresh(lastUse)
    {
      inUse := new bool[32](i => false);
      held := new Option<Operand>[32](i => None);
      lastUse := new int[32](i => 0);
      used, history := [], [];
    }

    /** All registers are free again; their ages are kept. */
    method Free()
      requires Valid()
      modifies `used, inUse
      ensures Valid() && used == [] && history == old(history)
    {
      var i := 8;
      while i <= 25
        invariant 8 <= i <= 26
        invariant forall k :: FIRST <= k < i ==> !inUse[k]
        invariant unchanged(held, lastUse)
      {
        inUse[i] := false;
        i := i + 1;
      }
      used := [];
    }

    /** All registers are free and as good as never used. */
    method Clear()
      requires Valid()
      modifies `used, `history, inUse, held, lastUse
      ensures Valid() && used == [] && history == []
    {
      var i := 8;
      while i <= 25
        invariant 8 <= i <= 26
        invariant forall k :: FIRST <= k < i ==> !inUse[k] && lastUse[k] == 0
      {
        inUse[i] := false;
        held[i] := None;
        lastUse[i] := 0;
        i := i + 1;
      }
      used, history := [], [];
    }

    /** Register `no` has just been asked for. */
    method UpdateRound(no: nat)
      requires lastUse.Length == 32 && FIRST <= no < FIRST + REGISTERS && AgesOk()
      modifies `history, lastUse
      ensures history == old(history) + [no] && AgesOk()
    {
      var i := 8;
      while i < 26
        invariant 8 <= i <= 26 && history == old(history)
        invariant forall k :: FIRST <= k < i ==> lastUse[k] == old(lastUse[k]) + 1
        invariant forall k :: i <= k < 26 ==> lastUse[k] == old(lastUse[k])
      {
        lastUse[i] := lastUse[i] + 1;
        i := i + 1;
      }
      lastUse[no] := 0;
      history := history + [no];
      assert history[..|history| - 1] == old(history);
    }

    /** The register for an operand: the one that holds it, else the first free one, else that of the
        operand that has not been asked for longest, which is handed out as `evicted`. */
    method GetRegForVar(op: Operand) returns (reg: nat, evicted: Option<Operand>)
      requires Valid()
      modifies `used, `history, inUse, held, lastUse
      ensures Valid() && history == old(history) + [reg]
      ensures op in old(used) || |old(used)| < REGISTERS ==>
                && evicted == None && reg == FIRST + IndexOf(old(used), op)
                && used == (if op in old(used) then old(used) else old(used) + [op])
      ensures op !in old(used) && |old(used)| == REGISTERS ==>
                && reg == Oldest(old(history), REGISTERS) < FIRST + REGISTERS && LeastRecent(old(history), reg)
                && evicted == Some(old(used)[reg - FIRST]) && used == old(used)[reg - FIRST := op]
    {
      hide Oldest, Age, LeastRecent;
      evicted := None;
      var i := 8;
      while i < 26
        invariant 8 <= i <= 26 && i - 8 <= |used|
        invariant forall k :: 0 <= k < i - 8 ==> used[k] != op
        invariant Valid() && used == old(used) && history == old(history)
        invariant unchanged(inUse, held, lastUse)
      {
        if !inUse[i] {
          assert i - 8 == |used|;
          NotThere(used, op);
          Take(i, op);
          reg := i;
          return;
        }
        if held[i] == Some(op) {
          UpdateRound(i);
          Found(used, op, i - 8);
          reg := i;
          return;
        }
        i := i + 1;
      }
      reg := FindOldest();
      NotThere(used, op);
      OldestIsLeastRecent(history, reg);
      evicted := held[reg];
      held[reg] := Some(op);
      used := used[reg - FIRST := op];
      UpdateRound(reg);
    }

    /** A free register behind those in use. */
    method Take(i: nat, op: Operand)
      requires Valid() && i - FIRST == |used| < REGISTERS && op !in used
      modifies `used, `history, inUse, held, lastUse
      ensures Valid() && used == old(used) + [op] && history == old(history) + [i]
    {
      inUse[i] := true;
      held[i] := Some(op);
      UpdateRound(i);
      used := used + [op];
    }

    /** The register with the greatest age. */
    method FindOldest() returns (replaceIdx: nat)
      requires Valid() && |used| == REGISTERS
      ensures FIRST <= replaceIdx < FIRST + REGISTERS
      ensures forall s :: FIRST <= s < FIRST + REGISTERS ==> s in history && Age(history, s) <= Age(history, replaceIdx)
      ensures replaceIdx == Oldest(history, REGISTERS)
    {
      replaceIdx := 8;
      var maxRound := -1;
      var i := 8;
      while i < 26
        invariant 8 <= i <= 26 && FIRST <= replaceIdx < 26
        invariant i > 8 ==> replaceIdx < i && maxRound == lastUse[replaceIdx]
        invariant i == 8 ==> maxRound == -1
        invariant forall s :: FIRST <= s < i ==> lastUse[s] <= maxRound
        invariant forall s :: FIRST <= s < replaceIdx && s < i ==> lastUse[s] < maxRound
      {
        assert lastUse[i] == Age(history, i);
        if lastUse[i] > maxRound {
          maxRound := lastUse[i];
          replaceIdx := i;
        }
        i := i + 1;
      }
      forall s | FIRST <= s < FIRST + REGISTERS ensures s in history && Age(history, s) <= Age(history, replaceIdx) {
        assert inUse[s] && lastUse[s] == Age(history, s) && lastUse[replaceIdx] == Age(history, replaceIdx);
      }
      OldestFound(history, REGISTERS, replaceIdx);
    }
  }

  lemma {:induction false} NotThere(used: seq<Operand>, op: Operand)
    requires forall k :: 0 <= k < |used| ==> used[k] != op
    ensures op !in used && IndexOf(used, op) == |used|
    decreases |used|
  {
    if used != [] {
      NotThere(used[1..], op);
    }
  }

  lemma {:induction false} Found(used: seq<Operand>, op: Operand, i: nat)
    requires i < |used| && used[i] == op && forall k :: 0 <= k < i ==> used[k] != op
    ensures IndexOf(used, op) == i
    decreases |used|
  {
    if i > 0 {
      Found(used[1..], op, i - 1);
    }
  }
}
