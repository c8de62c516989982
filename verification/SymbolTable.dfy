/** The hash table with layers: chains of symbols by hash value, and for every open scope the list of
    its symbols. It behaves like a plain stack of scopes. */
module SymbolTable {
  import opened Common
  import opened Syntax
  import opened Bits

  const TABLE_SIZE: nat := 200

  // ----- the hash function -----

  const WORD: nat := 0x1_0000_0000
  const CUT: nat := 0x4000

  /** One character of the PJW hash, computed in 32-bit words; `v - v % CUT` are the bits above the 14th. */
  function Mix(val: nat, c: nat): nat {
    var v := (4 * val + c) % WORD;
    var i := v - v % CUT;
    if i != 0 then Xor(v, i / 0x1000) % CUT else v
  }

  function Pjw(name: string, n: nat): nat
    requires n <= |name|
  {
    if n == 0 then 0 else Mix(Pjw(name, n - 1), name[n - 1] as int % 256)
  }

  /** The hash step by its bits: four times the value plus the character, with the bits above the 14th moved
      twelve places down and exchanged with what is there, and cut to 14 bits. */
  lemma MixBits(val: nat, c: nat, k: nat)
    requires val < CUT && c < 256
    ensures var v := 4 * val + c;
            Bit(Mix(val, c), k)
            == if k >= 14 then 0 else if k >= 2 && Bit(v, k + 12) == 1 then 1 - Bit(v, k) else Bit(v, k)
  {
    hide Xor, Bit, Two;
    Powers();
    var v := 4 * val + c;
    var high, low := v / CUT, v % CUT;
    MixParts(val, c, v, high);
    assert CutAt(v, 14, high, low) && CutAt(v - low, 12, 4 * high, 0);
    BitHigh(v, 14, high, low, k + 12);
    BitCut(v - low, 12, 4 * high, 0, k);
    BitCut(v, 14, high, low, k);
    XorBits(v, 4 * high, k);
    var x := Xor(v, 4 * high);
    assert CutAt(x, 14, x / CUT, x % CUT);
    BitCut(x, 14, x / CUT, x % CUT, k);
  }

  lemma MixParts(val: nat, c: nat, v: nat, high: nat)
    requires val < CUT && c < 256 && v == 4 * val + c && high == v / CUT
    ensures Mix(val, c) == Xor(v, 4 * high) % CUT
  {
    hide Xor;
    XorLaws(v, 0);
    assert v % WORD == v;
    var i := v - v % CUT;
    assert i == 0x1000 * (4 * high) + 0;
    assert i / 0x1000 == 4 * high;
    assert i == 0 ==> high == 0 && v % CUT == v;
  }

  lemma Powers()
    ensures Two(14) == CUT && Two(12) == 0x1000
  {
  }

  /** The hash value never leaves 14 bits, so the computation stays far from the word limit. */
  lemma {:induction false} PjwFits(name: string, n: nat)
    requires n <= |name|
    ensures Pjw(name, n) < CUT
    ensures n < |name| ==> 4 * Pjw(name, n) + name[n] as int % 256 < WORD
    decreases n
  {
    if n > 0 {
      PjwFits(name, n - 1);
    }
  }

  function Hash(name: string): (h: nat)
    ensures h < TABLE_SIZE
  {
    Pjw(name, |name|) % TABLE_SIZE
  }

  /** Names of up to three characters are numbers to base 4, as nothing is folded yet; names of one character already
      reach all 200 buckets. */
  lemma ShortNames(a: char, b: char, c: char)
    requires a as int < 256 && b as int < 256 && c as int < 256
    ensures Hash([a]) == a as int % 200 && Hash([a, b]) == (4 * a as int + b as int) % 200
    ensures Hash([a, b, c]) == (16 * a as int + 4 * b as int + c as int) % 200
  {
    hide Xor, Mix, Pjw;
    PlainMix(0, a as int);
    PlainMix(a as int, b as int);
    PlainMix(4 * a as int + b as int, c as int);
    PjwLast([], a);
    PjwLast([a], b);
    PjwLast([a, b], c);
    assert [] + [a] == [a] && [a] + [b] == [a, b] && [a, b] + [c] == [a, b, c];
  }

  lemma PjwLast(name: string, c: char)
    ensures Pjw(name + [c], |name| + 1) == Mix(Pjw(name, |name|), c as int % 256) && Pjw([], 0) == 0
  {
    hide Mix;
    PjwFront(name, c, |name|);
  }

  lemma {:induction false} PjwFront(name: string, c: char, n: nat)
    requires n <= |name|
    ensures Pjw(name + [c], n) == Pjw(name, n)
    decreases n
  {
    hide Mix;
    if n > 0 {
      PjwFront(name, c, n - 1);
    }
  }

  lemma PlainMix(val: nat, c: nat)
    requires 4 * val + c < CUT
    ensures Mix(val, c) == 4 * val + c
  {
    hide Xor;
  }

  method HashPjw(name: string) returns (h: nat)
    ensures h == Hash(name)
  {
    hide Xor;
    var val := 0;
    var k := 0;
    while k < |name|
      invariant k <= |name| && val == Pjw(name, k)
    {
      ghost var before := val;
      val := (4 * val + name[k] as int % 256) % WORD;
      var i := val - val % CUT;
      if i != 0 {
        val := Xor(val, i / 0x1000) % CUT;
      }
      assert val == Mix(before, name[k] as int % 256);
      k := k + 1;
    }
    h := val % TABLE_SIZE;
  }

  // ----- symbols and scopes -----

  class Symbol {
    const name: string
    const ty: Type
    var hashNext: Symbol?
    var layerNext: Symbol?

    constructor (name: string, ty: Type)
      ensures this.name == name && this.ty == ty && hashNext == null && layerNext == null
    {
      this.name, this.ty := name, ty;
      hashNext, layerNext := null, null;
    }
  }

  /** A scope: the list of its symbols and the scope around it. */
  class Layer {
    var next: Layer?
    var first: Symbol?

    constructor (next: Layer?)
      ensures this.next == next && first == null
    {
      this.next, first := next, null;
    }
  }

  /** The symbols of bucket `i`, in the order of `stack`. */
  function Bucket(stack: seq<Symbol>, hash: string -> nat, i: nat): (chain: seq<Symbol>)
    ensures forall s :: s in chain ==> s in stack && hash(s.name) == i
    ensures forall s :: s in stack && hash(s.name) == i ==> s in chain
  {
    if stack == [] then []
    else (if hash(stack[0].name) == i then [stack[0]] else []) + Bucket(stack[1..], hash, i)
  }

  /** The first symbol of that name, innermost and most recent first. */
  function Find(stack: seq<Symbol>, name: string): (s: Symbol?) {
    if stack == [] then null
    else if stack[0].name == name then stack[0]
    else Find(stack[1..], name)
  }

  function RemoveFirst(stack: seq<Symbol>, name: string): (rest: seq<Symbol>)
    ensures forall s :: s in rest ==> s in stack
  {
    if stack == [] then []
    else if stack[0].name == name then stack[1..]
    else [stack[0]] + RemoveFirst(stack[1..], name)
  }

  /** What is found is the first symbol of that name, and that one is removed. */
  lemma {:induction false} FoundAt(stack: seq<Symbol>, name: string) returns (k: nat)
    requires Find(stack, name) != null
    ensures k < |stack| && stack[k] == Find(stack, name) && stack[k].name == name
    ensures forall j :: 0 <= j < k ==> stack[j].name != name
    ensures RemoveFirst(stack, name) == stack[..k] + stack[k + 1..]
  {
    k := 0;
    if stack[0].name != name {
      k := FoundAt(stack[1..], name);
      assert stack == [stack[0]] + stack[1..];
      k := k + 1;
    }
  }

  /** All live symbols: those of the innermost scope first. */
  function Flatten(scopes: seq<seq<Symbol>>): (stack: seq<Symbol>)
    ensures forall i, s :: 0 <= i < |scopes| && s in scopes[i] ==> s in stack
  {
    if scopes == [] then [] else scopes[0] + Flatten(scopes[1..])
  }

  lemma FlattenPush(scopes: seq<seq<Symbol>>, sym: Symbol)
    requires scopes != []
    ensures Flatten([[sym] + scopes[0]] + scopes[1..]) == [sym] + Flatten(scopes)
  {
    var more := [[sym] + scopes[0]] + scopes[1..];
    assert more[1..] == scopes[1..];
  }

  predicate Distinct(stack: seq<Symbol>) {
    forall i, j :: 0 <= i < j < |stack| ==> stack[i] != stack[j]
  }

  function After(list: seq<Symbol>, j: nat): Symbol? {
    if j + 1 < |list| then list[j + 1] else null
  }

  function Around(nodes: seq<Layer>, i: nat): Layer? {
    if i + 1 < |nodes| then nodes[i + 1] else null
  }

  lemma AroundCons(cur: Layer, nodes: seq<Layer>)
    ensures Around([cur] + nodes, 0) == if nodes == [] then null else nodes[0]
    ensures forall i :: 0 < i < |nodes| + 1 ==>
            Around([cur] + nodes, i) == Around(nodes, i - 1) && ([cur] + nodes)[i] == nodes[i - 1]
  {
  }

  /** `chain` is linked through `next`, starting at `head`. */
  ghost predicate Linked(next: map<Symbol, Symbol?>, head: Symbol?, chain: seq<Symbol>) {
    && head == (if chain == [] then null else chain[0])
    && forall j :: 0 <= j < |chain| ==> chain[j] in next && next[chain[j]] == After(chain, j)
  }

  /** `list`, some of the symbols `live`, is linked through `layerNext`, starting at `head`. */
  ghost predicate Listed(head: Symbol?, list: seq<Symbol>, live: seq<Symbol>)
    reads live`layerNext
  {
    && head == (if list == [] then null else list[0])
    && forall j :: 0 <= j < |list| ==>
         list[j] in live && list[j].layerNext == After(list, j)
  }

  lemma LinkedCons(next: map<Symbol, Symbol?>, head: Symbol?, chain: seq<Symbol>, sym: Symbol)
    requires Linked(next, head, chain) && sym !in chain
    ensures Linked(next[sym := head], sym, [sym] + chain)
  {
    var all := [sym] + chain;
    forall j | 0 <= j < |all| ensures next[sym := head][all[j]] == After(all, j) {
      assert j > 0 ==> all[j] == chain[j - 1] && chain[j - 1] in chain && After(all, j) == After(chain, j - 1);
    }
  }

  lemma LinkedSame(next: map<Symbol, Symbol?>, head: Symbol?, chain: seq<Symbol>, sym: Symbol, other: Symbol?)
    requires Linked(next, head, chain) && sym !in chain
    ensures Linked(next[sym := other], head, chain)
  {
    assert forall j :: 0 <= j < |chain| ==> chain[j] in chain;
  }

  lemma ListedCons(sym: Symbol, list: seq<Symbol>, live: seq<Symbol>)
    requires Listed(sym.layerNext, list, live)
    ensures Listed(sym, [sym] + list, [sym] + live)
  {
    var all := [sym] + list;
    forall j | 0 <= j < |all| ensures all[j] in [sym] + live && all[j].layerNext == After(all, j) {
      assert j > 0 ==> all[j] == list[j - 1] && list[j - 1] in live && After(all, j) == After(list, j - 1);
    }
  }

  lemma ListedMore(head: Symbol?, list: seq<Symbol>, live: seq<Symbol>, live': seq<Symbol>)
    requires Listed(head, list, live) && forall s :: s in list ==> s in live'
    ensures Listed(head, list, live')
  {
    assert forall j :: 0 <= j < |list| ==> list[j] in list;
  }

  lemma {:induction false} BucketDistinct(stack: seq<Symbol>, hash: string -> nat, i: nat)
    requires Distinct(stack)
    ensures Distinct(Bucket(stack, hash, i))
    decreases |stack|
  {
    if stack != [] {
      BucketDistinct(stack[1..], hash, i);
    }
  }

  lemma {:induction false} FindInBucket(stack: seq<Symbol>, hash: string -> nat, name: string)
    ensures Find(Bucket(stack, hash, hash(name)), name) == Find(stack, name)
    decreases |stack|
  {
    if stack != [] {
      var chain, rest := Bucket(stack, hash, hash(name)), Bucket(stack[1..], hash, hash(name));
      FindInBucket(stack[1..], hash, name);
      if hash(stack[0].name) == hash(name) {
        assert chain[0] == stack[0] && chain[1..] == rest;
      } else {
        assert chain == rest;
      }
    }
  }

  lemma {:induction false} RemoveInBucket(stack: seq<Symbol>, hash: string -> nat, name: string, i: nat)
    ensures Bucket(RemoveFirst(stack, name), hash, i)
         == if i == hash(name) then RemoveFirst(Bucket(stack, hash, i), name) else Bucket(stack, hash, i)
    decreases |stack|
  {
    if stack != [] {
      var chain, rest := Bucket(stack, hash, i), Bucket(stack[1..], hash, i);
      RemoveInBucket(stack[1..], hash, name, i);
      assert if hash(stack[0].name) == i then chain[0] == stack[0] && chain[1..] == rest else chain == rest;
      if stack[0].name != name {
        var left := RemoveFirst(stack, name);
        assert left[0] == stack[0] && left[1..] == RemoveFirst(stack[1..], name);
      }
    }
  }

  lemma {:induction false} FindAt(stack: seq<Symbol>, k: nat, name: string)
    requires k <= |stack| && forall j :: 0 <= j < k ==> stack[j].name != name
    ensures Find(stack, name) == Find(stack[k..], name)
    ensures k < |stack| && stack[k].name == name ==> RemoveFirst(stack, name) == stack[..k] + stack[k + 1..]
    ensures k == |stack| ==> RemoveFirst(stack, name) == stack
    decreases k
  {
    if k > 0 {
      FindAt(stack[1..], k - 1, name);
      assert stack[1..][k - 1..] == stack[k..];
      if k < |stack| && stack[k].name == name {
        assert stack[..k] == [stack[0]] + stack[1..][..k - 1] && stack[1..][k..] == stack[k + 1..];
      }
    } else {
      assert stack[0..] == stack;
    }
  }

  lemma BucketCons(sym: Symbol, stack: seq<Symbol>, hash: string -> nat, i: nat)
    ensures Bucket([sym] + stack, hash, i)
            == if hash(sym.name) == i then [sym] + Bucket(stack, hash, i) else Bucket(stack, hash, i)
  {
    assert ([sym] + stack)[1..] == stack;
  }

  lemma {:induction false} RemoveDistinct(stack: seq<Symbol>, name: string)
    requires Distinct(stack)
    ensures Distinct(RemoveFirst(stack, name))
    decreases |stack|
  {
    if stack != [] {
      RemoveDistinct(stack[1..], name);
      assert stack[0] !in stack[1..];
    }
  }

  lemma {:induction false} NotFound(stack: seq<Symbol>, name: string)
    requires Find(stack, name) == null
    ensures RemoveFirst(stack, name) == stack
    decreases |stack|
  {
    if stack != [] {
      NotFound(stack[1..], name);
    }
  }

  /** A chain whose first symbol is dropped. */
  lemma LinkedTail(next: map<Symbol, Symbol?>, head: Symbol?, chain: seq<Symbol>)
    requires Linked(next, head, chain) && chain != []
    ensures Linked(next, After(chain, 0), chain[1..])
  {
    assert forall j :: 0 <= j < |chain| - 1 ==>
      chain[1..][j] == chain[j + 1] && After(chain[1..], j) == After(chain, j + 1);
  }

  /** A chain in which the symbol at position `k` is bypassed. */
  lemma LinkedBypass(next: map<Symbol, Symbol?>, head: Symbol?, chain: seq<Symbol>, k: nat)
    requires Linked(next, head, chain) && Distinct(chain) && 0 < k < |chain|
    ensures Linked(next[chain[k - 1] := After(chain, k)], head, chain[..k] + chain[k + 1..])
  {
    var next', rest := next[chain[k - 1] := After(chain, k)], chain[..k] + chain[k + 1..];
    forall j | 0 <= j < |rest| ensures rest[j] in next' && next'[rest[j]] == After(rest, j) {
      var i := if j < k then j else j + 1;
      assert rest[j] == chain[i];
      assert After(rest, j) == After(chain, if i + 1 == k then k else i);
    }
  }

  lemma ListedTail(head: Symbol?, list: seq<Symbol>, live: seq<Symbol>)
    requires Listed(head, list, live) && head != null
    ensures list != [] && head == list[0] && Listed(head.layerNext, list[1..], live)
  {
    assert forall j :: 0 <= j < |list| - 1 ==> list[1..][j] == list[j + 1] && After(list[1..], j) == After(list, j + 1);
  }

  lemma RemoveHead(list: seq<Symbol>, rest: seq<Symbol>)
    requires list != []
    ensures RemoveFirst(list + rest, list[0].name) == list[1..] + rest
  {
    assert (list + rest)[1..] == list[1..] + rest;
  }

  /** Every bucket of `stack` is linked, starting at its entry in `heads`. */
  ghost predicate Chains(next: map<Symbol, Symbol?>, heads: seq<Symbol?>, stack: seq<Symbol>, hash: string -> nat) {
    && |heads| == TABLE_SIZE && Distinct(stack)
    && forall i {:trigger ChainAt(next, heads, stack, hash, i)} :: 0 <= i < TABLE_SIZE ==>
      ChainAt(next, heads, stack, hash, i)
  }

  ghost predicate ChainAt(next: map<Symbol, Symbol?>, heads: seq<Symbol?>, stack: seq<Symbol>, hash: string -> nat,
                          i: nat)
    requires i < |heads|
  {
    Linked(next, heads[i], Bucket(stack, hash, i))
  }

  lemma ChainsPush(next: map<Symbol, Symbol?>, heads: seq<Symbol?>, stack: seq<Symbol>, hash: string -> nat,
                   sym: Symbol, h: nat)
    requires Chains(next, heads, stack, hash) && sym !in stack && hash(sym.name) == h < TABLE_SIZE
    ensures Chains(next[sym := heads[h]], heads[h := sym], [sym] + stack, hash)
  {
    var next', heads', stack' := next[sym := heads[h]], heads[h := sym], [sym] + stack;
    forall i {:trigger ChainAt(next', heads', stack', hash, i)} | 0 <= i < TABLE_SIZE
      ensures ChainAt(next', heads', stack', hash, i) {
      assert ChainAt(next, heads, stack, hash, i);
      BucketCons(sym, stack, hash, i);
      if i == h {
        LinkedCons(next, heads[h], Bucket(stack, hash, i), sym);
      } else {
        LinkedSame(next, heads[i], Bucket(stack, hash, i), sym, heads[h]);
      }
    }
  }

  /** The symbol at the head of its chain goes. */
  lemma ChainsDrop(next: map<Symbol, Symbol?>, heads: seq<Symbol?>, stack: seq<Symbol>, hash: string -> nat,
                   name: string, h: nat, chain: seq<Symbol>)
    requires Chains(next, heads, stack, hash) && hash(name) == h < TABLE_SIZE && chain == Bucket(stack, hash, h)
    requires chain != [] && chain[0].name == name
    ensures chain[0] in next && Chains(next, heads[h := next[chain[0]]], RemoveFirst(stack, name), hash)
  {
    var stack' := RemoveFirst(stack, name);
    assert ChainAt(next, heads, stack, hash, h);
    assert chain[0] in chain;
    var heads' := heads[h := next[chain[0]]];
    LinkedTail(next, heads[h], chain);
    RemoveDistinct(stack, name);
    forall i {:trigger ChainAt(next, heads', stack', hash, i)} | 0 <= i < TABLE_SIZE
      ensures ChainAt(next, heads', stack', hash, i) {
      assert ChainAt(next, heads, stack, hash, i);
      RemoveInBucket(stack, hash, name, i);
    }
  }

  /** The symbol at position `k` of its chain is bypassed. */
  lemma ChainsBypass(next: map<Symbol, Symbol?>, heads: seq<Symbol?>, stack: seq<Symbol>, hash: string -> nat,
                     name: string, h: nat, k: nat, chain: seq<Symbol>)
    requires Chains(next, heads, stack, hash) && hash(name) == h < TABLE_SIZE && chain == Bucket(stack, hash, h)
    requires 0 < k < |chain| && chain[k] in next && RemoveFirst(chain, name) == chain[..k] + chain[k + 1..]
    ensures Chains(next[chain[k - 1] := next[chain[k]]], heads, RemoveFirst(stack, name), hash)
  {
    var stack', next' := RemoveFirst(stack, name), next[chain[k - 1] := next[chain[k]]];
    assert ChainAt(next, heads, stack, hash, h);
    BucketDistinct(stack, hash, h);
    LinkedBypass(next, heads[h], chain, k);
    RemoveDistinct(stack, name);
    assert chain[k - 1] in chain;
    forall i {:trigger ChainAt(next', heads, stack', hash, i)} | 0 <= i < TABLE_SIZE
      ensures ChainAt(next', heads, stack', hash, i) {
      assert ChainAt(next, heads, stack, hash, i);
      RemoveInBucket(stack, hash, name, i);
      if i != h {
        LinkedSame(next, heads[i], Bucket(stack, hash, i), chain[k - 1], next[chain[k]]);
      }
    }
  }

  /** A walk along a chain has passed `k` symbols of other names; `tmp` is next, `pre` was last. */
  predicate Walked(chain: seq<Symbol>, name: string, pre: Symbol?, tmp: Symbol?, k: nat) {
    && k <= |chain| && tmp == (if k < |chain| then chain[k] else null)
    && pre == (if k == 0 then null else chain[k - 1])
    && forall j :: 0 <= j < k ==> chain[j].name != name
  }

  lemma WalkStart(next: map<Symbol, Symbol?>, head: Symbol?, chain: seq<Symbol>, name: string)
    requires Linked(next, head, chain)
    ensures Walked(chain, name, null, head, 0)
  {
  }

  lemma WalkOn(next: map<Symbol, Symbol?>, head: Symbol?, chain: seq<Symbol>, name: string, pre: Symbol?, tmp: Symbol,
               k: nat)
    requires Linked(next, head, chain) && Walked(chain, name, pre, tmp, k) && tmp.name != name
    ensures k < |chain| && tmp in chain && tmp in next && Walked(chain, name, tmp, next[tmp], k + 1)
  {
  }

  predicate Located(chain: seq<Symbol>, name: string, pre: Symbol?, tmp: Symbol?, k: nat) {
    Walked(chain, name, pre, tmp, k) && (tmp != null ==> tmp.name == name)
  }

  // ----- balanced nesting -----

  datatype Step = Opened | Added(sym: Symbol) | Closed

  /** What a step does to the scopes; `None` when there is no scope to add to or to close. */
  function Do(scopes: seq<seq<Symbol>>, step: Step): Option<seq<seq<Symbol>>> {
    match step
    case Opened => Some([[]] + scopes)
    case Added(sym) => if scopes == [] then None else Some([[sym] + scopes[0]] + scopes[1..])
    case Closed => if scopes == [] then None else Some(scopes[1..])
  }

  function DoAll(scopes: seq<seq<Symbol>>, steps: seq<Step>): Option<seq<seq<Symbol>>>
    decreases |steps|
  {
    if steps == [] then Some(scopes)
    else
      var next :- Do(scopes, steps[0]);
      DoAll(next, steps[1..])
  }

  /** Inside `depth` scopes: every scope that is opened is closed again, and symbols are added only
      to scopes opened on the way. */
  predicate Balanced(steps: seq<Step>, depth: nat) {
    if steps == [] then depth == 0
    else
      match steps[0]
      case Opened => Balanced(steps[1..], depth + 1)
      case Added(_) => depth > 0 && Balanced(steps[1..], depth)
      case Closed => depth > 0 && Balanced(steps[1..], depth - 1)
  }

  /** After any balanced nesting the scopes are what they were. */
  lemma {:induction false} BalancedRestores(steps: seq<Step>, inner: seq<seq<Symbol>>, scopes: seq<seq<Symbol>>)
    requires Balanced(steps, |inner|)
    ensures DoAll(inner + scopes, steps) == Some(scopes)
    decreases |steps|
  {
    if steps == [] {
      assert inner + scopes == scopes;
    } else {
      match steps[0]
      case Opened =>
        assert [[]] + (inner + scopes) == ([[]] + inner) + scopes;
        BalancedRestores(steps[1..], [[]] + inner, scopes);
      case Added(sym) =>
        var more := [[sym] + inner[0]] + inner[1..];
        assert (inner + scopes)[0] == inner[0] && (inner + scopes)[1..] == inner[1..] + scopes;
        assert [[sym] + inner[0]] + (inner[1..] + scopes) == more + scopes;
        BalancedRestores(steps[1..], more, scopes);
      case Closed =>
        assert (inner + scopes)[1..] == inner[1..] + scopes;
        BalancedRestores(steps[1..], inner[1..], scopes);
    }
  }

  /** The live symbols determine the 200 chains, link by link. */
  lemma ChainsDetermined(next: map<Symbol, Symbol?>, heads: seq<Symbol?>, next': map<Symbol, Symbol?>,
                         heads': seq<Symbol?>, stack: seq<Symbol>, hash: string -> nat)
    requires Chains(next, heads, stack, hash) && Chains(next', heads', stack, hash)
    requires forall name :: hash(name) < TABLE_SIZE
    ensures heads' == heads
    ensures forall s :: s in stack ==> s in next && s in next' && next'[s] == next[s]
  {
    forall i | 0 <= i < TABLE_SIZE ensures heads'[i] == heads[i] {
      assert ChainAt(next, heads, stack, hash, i) && ChainAt(next', heads', stack, hash, i);
    }
    forall s | s in stack ensures s in next && s in next' && next'[s] == next[s] {
      var i := hash(s.name);
      var chain := Bucket(stack, hash, i);
      assert ChainAt(next, heads, stack, hash, i) && ChainAt(next', heads', stack, hash, i);
      var j :| 0 <= j < |chain| && chain[j] == s;
    }
  }

  /** The scope of a live symbol and its position there. */
  lemma {:induction false} ScopeOf(scopes: seq<seq<Symbol>>, s: Symbol) returns (i: nat, j: nat)
    requires s in Flatten(scopes)
    ensures i < |scopes| && j < |scopes[i]| && scopes[i][j] == s
  {
    if s in scopes[0] {
      i := 0;
      j :| 0 <= j < |scopes[0]| && scopes[0][j] == s;
    } else {
      i, j := ScopeOf(scopes[1..], s);
      i := i + 1;
    }
  }

  /** No symbol is added that is already live or added twice. */
  predicate AllNew(steps: seq<Step>, stack: seq<Symbol>) {
    && (forall i :: 0 <= i < |steps| && steps[i].Added? ==> steps[i].sym !in stack)
    && forall i, j :: 0 <= i < j < |steps| && steps[i].Added? && steps[j].Added? ==> steps[i].sym != steps[j].sym
  }

  lemma AllNewAfter(steps: seq<Step>, stack: seq<Symbol>, stack': seq<Symbol>)
    requires steps != [] && AllNew(steps, stack)
    requires forall s :: s in stack' ==> s in stack || steps[0] == Added(s)
    ensures AllNew(steps[1..], stack')
  {
  }

  /** The contents of a table at one moment. */
  datatype Shot = Shot(stack: seq<Symbol>, scopes: seq<seq<Symbol>>, nodes: seq<Layer>, heads: seq<Symbol?>,
                       next: map<Symbol, Symbol?>, layerNext: map<Symbol, Symbol?>,
                       layers: map<Layer, (Layer?, Symbol?)>)

  /** The contents are those of a table in order. */
  ghost predicate ShotOk(shot: Shot, hash: string -> nat) {
    && Chains(shot.next, shot.heads, shot.stack, hash) && (forall name :: hash(name) < TABLE_SIZE)
    && Flatten(shot.scopes) == shot.stack && |shot.nodes| == |shot.scopes|
    && (forall s :: s in shot.stack ==> s in shot.next && s in shot.layerNext)
    && (forall i, j :: 0 <= i < |shot.scopes| && 0 <= j < |shot.scopes[i]| ==>
          shot.scopes[i][j] in shot.layerNext && shot.layerNext[shot.scopes[i][j]] == After(shot.scopes[i], j))
    && forall i :: 0 <= i < |shot.nodes| ==>
         shot.nodes[i] in shot.layers
         && shot.layers[shot.nodes[i]] == (Around(shot.nodes, i),
                                           if shot.scopes[i] == [] then null else shot.scopes[i][0])
  }

  class Table {
    const slots: array<Symbol?>
    const hash: string -> nat
    var layers: Layer?
    /** The live symbols, most recent first. */
    ghost var stack: seq<Symbol>
    /** Their `hashNext` fields. */
    ghost var next: map<Symbol, Symbol?>
    /** Their scopes, innermost first, and the objects that stand for the scopes. */
    ghost var scopes: seq<seq<Symbol>>
    ghost var nodes: seq<Layer>

    ghost predicate HashOk() {
      && (forall name {:trigger Hash(name)} :: hash(name) == Hash(name))
      && forall name :: hash(name) < TABLE_SIZE
    }

    /** The chains hold exactly the live symbols. */
    ghost predicate ChainsOk()
      reads `stack, `next, slots, stack`hashNext
    {
      && slots.Length == TABLE_SIZE && HashOk()
      && (forall s :: s in stack ==> s in next && s.hashNext == next[s])
      && Chains(next, slots[..], stack, hash)
    }

    /** The layers hold the scopes, which consist of the symbols `live`. */
    ghost predicate LayersOk(live: seq<Symbol>)
      reads `layers, `scopes, `nodes, live`layerNext, nodes
    {
      && |nodes| == |scopes| && Flatten(scopes) == live
      && NodesOk()
      && forall i {:trigger LayerOk(live, i)} :: 0 <= i < |scopes| ==> LayerOk(live, i)
    }

    ghost predicate LayerOk(live: seq<Symbol>, i: nat)
      requires i < |scopes| && |nodes| == |scopes|
      reads `scopes, `nodes, live`layerNext, nodes`first
    {
      Listed(nodes[i].first, scopes[i], live)
    }

    ghost predicate NodesOk()
      reads `layers, `nodes, nodes`next
    {
      && layers == (if nodes == [] then null else nodes[0])
      && (forall i :: 0 <= i < |nodes| ==> nodes[i].next == Around(nodes, i))
      && forall i, j :: 0 <= i < j < |nodes| ==> nodes[i] != nodes[j]
    }

    ghost predicate Valid()
      reads this, slots, stack, nodes
    {
      ChainsOk() && LayersOk(stack)
    }

    constructor ()
      ensures Valid() && scopes == [[]] && fresh(slots) && fresh(nodes)
    {
      slots := new Symbol?[TABLE_SIZE](i => null);
      hash := Hash;
      var global := new Layer(null);
      layers := global;
      stack, next, scopes, nodes := [], map[], [[]], [global];
    }

    method IndexOf(name: string) returns (index: nat)
      requires HashOk()
      ensures index == hash(name) && index < TABLE_SIZE
    {
      index := HashPjw(name);
    }

    /** Puts a symbol in front of its chain. */
    method Link(sym: Symbol, index: nat)
      requires ChainsOk() && sym !in stack && index == hash(sym.name)
      modifies `stack, `next, slots, sym`hashNext
      ensures ChainsOk() && stack == [sym] + old(stack)
    {
      var tail := slots[index];
      slots[index] := sym;
      sym.hashNext := tail;
      ChainsPush(next, old(slots[..]), stack, hash, sym, index);
      stack, next := [sym] + stack, next[sym := tail];
      assert slots[..] == old(slots[..])[index := sym];
    }

    /** Puts a symbol in front of the list of the innermost scope. */
    method Enlist(sym: Symbol, ghost live: seq<Symbol>)
      requires LayersOk(live) && scopes != [] && sym !in live
      modifies `scopes, sym`layerNext, nodes`first
      ensures LayersOk([sym] + live)
      ensures scopes == [[sym] + old(scopes[0])] + old(scopes[1..])
    {
      var cur := layers;
      var tail := cur.first;
      cur.first := sym;
      sym.layerNext := tail;
      ghost var before := scopes;
      scopes := [[sym] + before[0]] + before[1..];
      FlattenPush(before, sym);
      forall i {:trigger LayerOk([sym] + live, i)} | 0 <= i < |scopes| ensures LayerOk([sym] + live, i) {
        assert old(LayerOk(live, i));
        if i == 0 {
          ListedCons(sym, before[0], live);
        } else {
          assert nodes[i] != nodes[0] && scopes[i] == before[i];
          ListedMore(nodes[i].first, before[i], live, [sym] + live);
        }
      }
    }

    /** A new symbol hides all others of its name. */
    method Insert(sym: Symbol)
      requires Valid() && scopes != [] && sym !in stack
      modifies this, slots, sym, nodes
      ensures Valid() && nodes == old(nodes)
      ensures scopes == [[sym] + old(scopes[0])] + old(scopes[1..])
      ensures stack == [sym] + old(stack) && Find(stack, sym.name) == sym
    {
      var index := IndexOf(sym.name);
      ghost var before := stack;
      Link(sym, index);
      Enlist(sym, before);
    }

    /** The innermost, most recent symbol of that name. */
    method SearchAll(name: string) returns (sym: Symbol?)
      requires ChainsOk()
      ensures sym == Find(stack, name)
    {
      var index := IndexOf(name);
      ghost var chain, k := Bucket(stack, hash, index), 0;
      assert ChainAt(next, slots[..], stack, hash, index);
      sym := slots[index];
      while sym != null && sym.name != name
        invariant k <= |chain| && sym == (if k < |chain| then chain[k] else null)
        invariant forall j :: 0 <= j < k ==> chain[j].name != name
        decreases |chain| - k
      {
        assert chain[k] in chain;
        sym := sym.hashNext;
        k := k + 1;
      }
      FindInBucket(stack, hash, name);
      FindAt(chain, k, name);
    }

    /** The most recent symbol of that name in the innermost scope. */
    method SearchLayer(name: string) returns (sym: Symbol?)
      requires LayersOk(stack) && scopes != []
      ensures sym == Find(scopes[0], name)
    {
      ghost var scope, k := scopes[0], 0;
      assert LayerOk(stack, 0);
      sym := layers.first;
      while sym != null
        invariant k <= |scope| && sym == if k < |scope| then scope[k] else null
        invariant forall j :: 0 <= j < k ==> scope[j].name != name
        decreases |scope| - k
      {
        if sym.name == name {
          break;
        }
        sym := sym.layerNext;
        k := k + 1;
      }
      FindAt(scope, k, name);
    }

    /** The first symbol of that name in a chain, and the symbol in front of it there. */
    method Locate(index: nat, name: string, ghost chain: seq<Symbol>) returns (pre: Symbol?, tmp: Symbol?, ghost k: nat)
      requires index < slots.Length && Linked(next, slots[index], chain)
      requires forall s :: s in chain ==> s in next && s.hashNext == next[s]
      ensures Located(chain, name, pre, tmp, k)
    {
      hide Linked, Walked;
      k, pre, tmp := 0, null, slots[index];
      WalkStart(next, tmp, chain, name);
      while tmp != null && tmp.name != name
        invariant Walked(chain, name, pre, tmp, k)
        decreases |chain| - k
      {
        WalkOn(next, slots[index], chain, name, pre, tmp, k);
        pre := tmp;
        tmp := tmp.hashNext;
        k := k + 1;
      }
    }

    lemma LocatedNone(name: string, chain: seq<Symbol>, pre: Symbol?, k: nat)
      requires chain == Bucket(stack, hash, hash(name)) && Located(chain, name, pre, null, k)
      ensures RemoveFirst(stack, name) == stack && Find(stack, name) == null
    {
      FindAt(chain, |chain|, name);
      FindInBucket(stack, hash, name);
      NotFound(stack, name);
    }

    /** Takes the first symbol of that name out of its chain. */
    method DelSingle(name: string, ghost live: set<Symbol>)
      requires ChainsOk() && forall s :: s in stack ==> s in live
      modifies `stack, `next, slots, live`hashNext
      ensures ChainsOk() && stack == RemoveFirst(old(stack), name)
    {
      var index := IndexOf(name);
      ghost var chain := Bucket(stack, hash, index);
      assert ChainAt(next, slots[..], stack, hash, index);
      var pre, tmp, k := Locate(index, name, chain);
      if tmp == null {
        LocatedNone(name, chain, pre, k);
      } else if pre == null {
        assert tmp in chain;
        ChainsDrop(next, slots[..], stack, hash, name, index, chain);
        DropHead(index, tmp, RemoveFirst(stack, name));
      } else {
        FindAt(chain, k, name);
        assert tmp in chain && pre in chain;
        ChainsBypass(next, slots[..], stack, hash, name, index, k, chain);
        Bypass(pre, tmp, RemoveFirst(stack, name));
      }
    }

    method DropHead(index: nat, tmp: Symbol, ghost rest: seq<Symbol>)
      requires ChainsOk() && index < TABLE_SIZE && tmp in stack && forall s :: s in rest ==> s in stack
      requires Chains(next, slots[..][index := next[tmp]], rest, hash)
      modifies `stack, slots
      ensures ChainsOk() && stack == rest
    {
      slots[index] := tmp.hashNext;
      assert slots[..] == old(slots[..])[index := tmp.hashNext];
      stack := rest;
    }

    method Bypass(pre: Symbol, tmp: Symbol, ghost rest: seq<Symbol>)
      requires ChainsOk() && pre in stack && tmp in stack && forall s :: s in rest ==> s in stack
      requires Chains(next[pre := next[tmp]], slots[..], rest, hash)
      modifies `stack, `next, pre`hashNext
      ensures ChainsOk() && stack == rest
    {
      pre.hashNext := tmp.hashNext;
      next := next[pre := tmp.hashNext];
      stack := rest;
    }

    /** Opens a scope. */
    method Enter()
      requires Valid()
      modifies this
      ensures Valid() && scopes == [[]] + old(scopes) && stack == old(stack)
      ensures |nodes| == |old(nodes)| + 1 && nodes[1..] == old(nodes) && fresh(nodes[0])
    {
      hide Chains, Hash, Distinct;
      var cur := new Layer(layers);
      layers := cur;
      nodes := [cur] + nodes;
      scopes := [[]] + scopes;
      assert [] + Flatten(scopes[1..]) == stack;
      AroundCons(cur, nodes[1..]);
      forall i {:trigger LayerOk(stack, i)} | 0 <= i < |scopes| ensures LayerOk(stack, i) {
        assert i > 0 ==> old(LayerOk(stack, i - 1));
      }
    }

    /** Closes the innermost scope: exactly its symbols disappear, even if names are repeated in it. */
    method Exit()
      requires Valid() && scopes != []
      modifies this, slots, stack`hashNext
      ensures Valid() && scopes == old(scopes)[1..] && nodes == old(nodes)[1..]
      ensures forall s :: s in stack ==> s in old(stack)
    {
      hide Listed;
      var cur := layers;
      ghost var scope, live := scopes[0], stack;
      forall i | 0 <= i < |nodes| ensures Listed(nodes[i].first, scopes[i], live) {
        assert LayerOk(stack, i);
      }
      layers := cur.next;
      scopes, nodes := scopes[1..], nodes[1..];
      DelAll(cur.first, scope, Flatten(scopes), set s | s in stack);
      Popped(old(nodes), old(scopes), live);
      assert live == scope + stack;
    }

    /** The layers after the innermost one has gone. */
    lemma Popped(ns: seq<Layer>, sc: seq<seq<Symbol>>, live: seq<Symbol>)
      requires ns != [] && |ns| == |sc| && nodes == ns[1..] && scopes == sc[1..] && layers == ns[0].next
      requires forall i :: 0 <= i < |ns| ==> ns[i].next == Around(ns, i)
      requires forall i, j :: 0 <= i < j < |ns| ==> ns[i] != ns[j]
      requires forall i :: 0 <= i < |ns| ==> Listed(ns[i].first, sc[i], live)
      ensures LayersOk(Flatten(scopes))
    {
      assert forall i :: 0 <= i < |nodes| ==> Around(nodes, i) == Around(ns, i + 1) && nodes[i] == ns[i + 1];
      forall i {:trigger LayerOk(Flatten(scopes), i)} | 0 <= i < |scopes| ensures LayerOk(Flatten(scopes), i) {
        assert Listed(ns[i + 1].first, sc[i + 1], live);
        ListedMore(nodes[i].first, scopes[i], live, Flatten(scopes));
      }
    }

    /** The links of the scopes, as the scopes determine them. */
    lemma LayersDetermined(i: nat)
      requires Valid() && i < |scopes|
      ensures i < |nodes| && nodes[i].next == Around(nodes, i)
      ensures nodes[i].first == if scopes[i] == [] then null else scopes[i][0]
      ensures forall j :: 0 <= j < |scopes[i]| ==> scopes[i][j].layerNext == After(scopes[i], j)
    {
      assert LayerOk(stack, i);
    }

    /** One step: a scope is opened, a symbol is added to the innermost one, or that one is closed. */
    method Take(step: Step)
      requires Valid() && Do(scopes, step).Some? && (step.Added? ==> step.sym !in stack)
      modifies this, slots, stack`hashNext
      modifies if step.Added? then {step.sym} else {}, if step.Added? then set n | n in nodes else {}
      ensures Valid() && Do(old(scopes), step) == Some(scopes)
      ensures nodes == (match step
                        case Opened => [nodes[0]] + old(nodes)
                        case Added(_) => old(nodes)
                        case Closed => old(nodes)[1..])
      ensures step.Opened? ==> nodes != [] && fresh(nodes[0])
      ensures forall s :: s in stack ==> s in old(stack) || step == Added(s)
    {
      match step
      case Opened => Enter();
      case Added(sym) => Insert(sym);
      case Closed => Exit();
    }

    /** Takes the symbols of a list out of their chains. */
    method DelAll(first: Symbol?, ghost scope: seq<Symbol>, ghost rest: seq<Symbol>, ghost live: set<Symbol>)
      requires ChainsOk() && stack == scope + rest && Listed(first, scope, stack)
      requires forall s :: s in stack ==> s in live
      modifies `stack, `next, slots, live`hashNext
      ensures ChainsOk() && stack == rest
    {
      var symbol := first;
      ghost var left, all := scope, stack;
      while symbol != null
        invariant Listed(symbol, left, all)
        invariant ChainsOk() && stack == left + rest && forall s :: s in stack ==> s in live
        decreases |left|
      {
        ListedTail(symbol, left, all);
        RemoveHead(left, rest);
        DelSingle(symbol.name, live);
        symbol := symbol.layerNext;
        left := left[1..];
      }
      assert [] + rest == rest;
    }

    /** Any balanced nesting leaves the table as it was: the 200 chains, the stack of layers, and every
        link of every symbol that was live. */
    method RunBalanced(steps: seq<Step>, ghost syms: set<Symbol>)
      requires Valid() && Balanced(steps, 0) && AllNew(steps, stack)
      requires forall s :: s in stack ==> s in syms
      requires forall i :: 0 <= i < |steps| && steps[i].Added? ==> steps[i].sym in syms
      modifies this, slots, syms, nodes
      ensures Valid() && scopes == old(scopes) && nodes == old(nodes) && stack == old(stack)
      ensures slots[..] == old(slots[..])
      ensures forall s :: s in stack ==> s.hashNext == old(s.hashNext) && s.layerNext == old(s.layerNext)
      ensures forall n :: n in nodes ==> n.next == old(n.next) && n.first == old(n.first)
    {
      ghost var before := Snapshot();
      SnapshotOk();
      BalancedRestores(steps, [], scopes);
      assert [] + scopes == scopes && [] + nodes == nodes;
      RunSteps(steps, syms, [], nodes);
      Compare(before);
    }

    /** Runs steps inside the scopes `inner`, all of which they close. */
    method RunSteps(steps: seq<Step>, ghost syms: set<Symbol>, ghost inner: seq<Layer>, ghost rest: seq<Layer>)
      requires Valid() && Balanced(steps, |inner|) && AllNew(steps, stack) && nodes == inner + rest
      requires DoAll(scopes, steps).Some?
      requires forall s :: s in stack ==> s in syms
      requires forall i :: 0 <= i < |steps| && steps[i].Added? ==> steps[i].sym in syms
      modifies this, slots, syms, nodes
      ensures Valid() && DoAll(old(scopes), steps) == Some(scopes) && nodes == rest
      decreases |steps|
    {
      if steps == [] {
        assert inner + rest == rest;
        return;
      }
      ghost var stack0 := stack;
      Take(steps[0]);
      AllNewAfter(steps, stack0, stack);
      ghost var inner' := match steps[0]
                          case Opened => [nodes[0]] + inner
                          case Added(_) => inner
                          case Closed => inner[1..];
      Inside(steps[0], inner, rest, inner', nodes);
      RunSteps(steps[1..], syms, inner', rest);
    }

    lemma Inside(step: Step, inner: seq<Layer>, rest: seq<Layer>, inner': seq<Layer>, ns: seq<Layer>)
      requires step.Closed? ==> inner != []
      requires match step
               case Opened => ns != [] && ns == [ns[0]] + (inner + rest) && inner' == [ns[0]] + inner
               case Added(_) => ns == inner + rest && inner' == inner
               case Closed => ns == (inner + rest)[1..] && inner' == inner[1..]
      ensures ns == inner' + rest
    {
    }

    /** What the fields are now. */
    ghost function Snapshot(): (shot: Shot)
      requires Valid()
      reads this, slots, stack, nodes
    {
      Shot(stack, scopes, nodes, slots[..], next, map s | s in stack :: s.layerNext,
           map n | n in nodes :: (n.next, n.first))
    }

    lemma SnapshotOk()
      requires Valid()
      ensures ShotOk(Snapshot(), hash)
    {
      forall i, j | 0 <= i < |scopes| && 0 <= j < |scopes[i]|
        ensures scopes[i][j] in stack && scopes[i][j].layerNext == After(scopes[i], j)
      {
        LayersDetermined(i);
      }
      forall i | 0 <= i < |nodes|
        ensures (nodes[i].next, nodes[i].first)
                == (Around(nodes, i), if scopes[i] == [] then null else scopes[i][0]) {
        LayersDetermined(i);
      }
    }

    lemma Compare(shot: Shot)
      requires Valid() && ShotOk(shot, hash) && scopes == shot.scopes && nodes == shot.nodes
      ensures stack == shot.stack && slots[..] == shot.heads
      ensures forall s :: s in stack ==> s.hashNext == shot.next[s] && s.layerNext == shot.layerNext[s]
      ensures forall n :: n in nodes ==> (n.next, n.first) == shot.layers[n]
    {
      ChainsDetermined(shot.next, shot.heads, next, slots[..], stack, hash);
      forall s | s in stack ensures s.layerNext == shot.layerNext[s] {
        var i, j := ScopeOf(scopes, s);
        LayersDetermined(i);
      }
      forall n | n in nodes ensures (n.next, n.first) == shot.layers[n] {
        var i :| 0 <= i < |nodes| && nodes[i] == n;
        LayersDetermined(i);
      }
    }
  }
}
