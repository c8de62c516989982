/** Sizes of types and the addresses of the parts of a variable. */
module Layout {
  import opened Common
  import opened Syntax

  /** One step of an access path: a member of a structure or an element of an array. */
  datatype Selector = Member(name: string) | Element(index: nat)

  type Path = seq<Selector>

  /** A variable of one activation; `depth` counts the activations that were suspended when it began. */
  datatype Home = Home(depth: nat, name: string)

  /** The bytes that a structure or array occupies. */
  datatype Region = Region(base: int, size: nat)

  function SizeOf(t: Type): nat {
    match t
    case Int => 4
    case Array(elem, length) => length * SizeOf(elem)
    case Struct(_, members) => SizeOfFields(members)
    case Ref(target) => SizeOf(target)
  }

  function SizeOfFields(fs: Fields): nat {
    match fs
    case NoField => 0
    case Field(_, t, rest) => SizeOf(t) + SizeOfFields(rest)
  }

  /** The member called `name`: its distance from the start of the structure and its type. */
  function FindField(fs: Fields, name: string): Option<(nat, Type)> {
    match fs
    case NoField => None
    case Field(n, t, rest) =>
      if n == name then Some((0, t))
      else
        var (offset, ty) :- FindField(rest, name);
        Some((SizeOf(t) + offset, ty))
  }

  /** The part of a `t` that `s` selects: its distance from the start and its type. */
  function Select(t: Type, s: Selector): Option<(nat, Type)> {
    match s
    case Member(name) => if t.Struct? then FindField(t.members, name) else None
    case Element(i) => if t.Array? && i < t.length then Some((i * SizeOf(t.elem), t.elem)) else None
  }

  /** Where `path` leads inside a `t`, if every step is well typed and in range. */
  function Follow(t: Type, path: Path): Option<(nat, Type)> {
    if path == [] then Some((0, t))
    else
      var (offset, ty) :- Follow(t, path[..|path| - 1]);
      var (more, part) :- Select(ty, path[|path| - 1]);
      Some((offset + more, part))
  }

  lemma {:induction false} FieldInside(fs: Fields, name: string)
    requires FindField(fs, name).Some?
    ensures var (offset, t) := FindField(fs, name).value; offset + SizeOf(t) <= SizeOfFields(fs)
  {
    if fs.name != name {
      FieldInside(fs.rest, name);
    }
  }

  lemma {:induction false} FieldsApart(fs: Fields, a: string, b: string)
    requires a != b && FindField(fs, a).Some? && FindField(fs, b).Some?
    ensures var (oa, ta) := FindField(fs, a).value;
            var (ob, tb) := FindField(fs, b).value;
            oa + SizeOf(ta) <= ob || ob + SizeOf(tb) <= oa
  {
    if fs.name == a {
    } else if fs.name == b {
    } else {
      FieldsApart(fs.rest, a, b);
    }
  }

  lemma ElementInside(i: nat, length: nat, size: nat)
    requires i < length
    ensures i * size + size <= length * size
  {
    assert i * size + size == (i + 1) * size;
    MulMonotone(i + 1, length, size);
  }

  lemma MulMonotone(a: nat, b: nat, c: nat)
    requires a <= b
    ensures a * c <= b * c
  {
    assert b * c == a * c + (b - a) * c;
  }

  lemma SelectInside(t: Type, s: Selector)
    requires Select(t, s).Some?
    ensures var (offset, part) := Select(t, s).value; offset + SizeOf(part) <= SizeOf(t)
  {
    match s
    case Member(name) => FieldInside(t.members, name);
    case Element(i) => ElementInside(i, t.length, SizeOf(t.elem));
  }

  lemma SelectApart(t: Type, r: Selector, s: Selector)
    requires r != s && Select(t, r).Some? && Select(t, s).Some?
    ensures var (or, tr) := Select(t, r).value;
            var (os, ts) := Select(t, s).value;
            or + SizeOf(tr) <= os || os + SizeOf(ts) <= or
  {
    match r
    case Member(a) => FieldsApart(t.members, a, s.name);
    case Element(i) =>
      if i < s.index {
        ElementInside(i, s.index, SizeOf(t.elem));
      } else {
        ElementInside(s.index, i, SizeOf(t.elem));
      }
  }

  /** The part an access path reaches lies inside the part any prefix of the path reaches. */
  lemma {:induction false} PrefixContains(t: Type, path: Path, n: nat)
    requires n <= |path| && Follow(t, path).Some?
    ensures Follow(t, path[..n]).Some?
    ensures var (outer, to) := Follow(t, path[..n]).value;
            var (inner, ti) := Follow(t, path).value;
            outer <= inner && inner + SizeOf(ti) <= outer + SizeOf(to)
    decreases |path|
  {
    if n == |path| {
      assert path[..n] == path;
    } else {
      var shorter := path[..|path| - 1];
      PrefixContains(t, shorter, n);
      assert shorter[..n] == path[..n];
      SelectInside(Follow(t, shorter).value.1, path[|path| - 1]);
    }
  }

  /** Every well-typed access path stays inside the variable it starts from. */
  lemma AccessInBounds(t: Type, path: Path)
    requires Follow(t, path).Some?
    ensures var (offset, part) := Follow(t, path).value; offset + SizeOf(part) <= SizeOf(t)
  {
    PrefixContains(t, path, 0);
  }

  predicate IsPrefix(p: Path, q: Path) {
    |p| <= |q| && q[..|p|] == p
  }

  /** Two access paths neither of which continues the other reach disjoint parts. */
  lemma {:induction false} PathsApart(t: Type, p: Path, q: Path)
    requires Follow(t, p).Some? && Follow(t, q).Some?
    requires !IsPrefix(p, q) && !IsPrefix(q, p)
    ensures var (op, tp) := Follow(t, p).value;
            var (oq, tq) := Follow(t, q).value;
            op + SizeOf(tp) <= oq || oq + SizeOf(tq) <= op
    decreases |p|
  {
    var n := |p| - 1;
    var p' := p[..n];
    PrefixContains(t, p, n);
    if IsPrefix(p', q) {
      // the paths part company at position n
      var q' := q[..n + 1];
      PrefixContains(t, q, n + 1);
      assert q'[..n] == p';
      assert q[..n + 1] == p' + [q[n]] && p == p' + [p[n]];
      SelectApart(Follow(t, p').value.1, p[n], q[n]);
    } else {
      assert forall k :: 0 <= k <= n ==> p[..k] == p'[..k];
      PathsApart(t, p', q);
    }
  }

  /** A path to a scalar cannot be continued. */
  lemma ScalarIsLeaf(t: Type, p: Path, q: Path)
    requires Follow(t, p).Some? && Follow(t, p).value.1.Int? && Follow(t, q).Some?
    requires IsPrefix(p, q)
    ensures p == q
  {
    if |p| < |q| {
      var n := |p| + 1;
      assert q[..n][..|p|] == p;
      PrefixContains(t, q, n);
    }
  }

  /** Two different scalar parts of one variable have disjoint four-byte cells. */
  lemma ScalarsApart(t: Type, p: Path, q: Path)
    requires p != q
    requires Follow(t, p).Some? && Follow(t, p).value.1.Int?
    requires Follow(t, q).Some? && Follow(t, q).value.1.Int?
    ensures var a := Follow(t, p).value.0;
            var b := Follow(t, q).value.0;
            a + 4 <= b || b + 4 <= a
  {
    if IsPrefix(p, q) {
      ScalarIsLeaf(t, p, q);
    } else if IsPrefix(q, p) {
      ScalarIsLeaf(t, q, p);
    } else {
      PathsApart(t, p, q);
    }
  }

  /** Sizes are whole numbers of words. */
  lemma {:induction false} SizeIsWords(t: Type)
    ensures SizeOf(t) % 4 == 0
    decreases t
  {
    match t
    case Int =>
    case Array(elem, length) =>
      SizeIsWords(elem);
      MulWords(length, SizeOf(elem));
    case Struct(_, members) => FieldsAreWords(members);
    case Ref(target) => SizeIsWords(target);
  }

  lemma {:induction false} FieldsAreWords(fs: Fields)
    ensures SizeOfFields(fs) % 4 == 0
    decreases fs
  {
    match fs
    case NoField =>
    case Field(_, t, rest) =>
      SizeIsWords(t);
      FieldsAreWords(rest);
  }

  lemma MulWords(n: nat, size: nat)
    requires size % 4 == 0
    ensures (n * size) % 4 == 0
  {
    var k := size / 4;
    assert n * size == 4 * (n * k);
  }

  lemma {:induction false} FieldOffsetIsWords(fs: Fields, name: string)
    requires FindField(fs, name).Some?
    ensures FindField(fs, name).value.0 % 4 == 0
  {
    if fs.name != name {
      SizeIsWords(fs.ftype);
      FieldOffsetIsWords(fs.rest, name);
    }
  }

  /** Every part of a variable starts on a word boundary. */
  lemma {:induction false} AccessIsAligned(t: Type, path: Path)
    requires Follow(t, path).Some?
    ensures Follow(t, path).value.0 % 4 == 0
    decreases |path|
  {
    hide SizeOf, FindField;
    if path != [] {
      var shorter := path[..|path| - 1];
      AccessIsAligned(t, shorter);
      var ty := Follow(t, shorter).value.1;
      match path[|path| - 1]
      case Member(name) => FieldOffsetIsWords(ty.members, name);
      case Element(i) =>
        SizeIsWords(ty.elem);
        MulWords(i, SizeOf(ty.elem));
    }
  }

  // ----- no byte is wasted -----

  /** A type of a variable: no references inside, and in every structure the names of members differ. */
  predicate Distinct(t: Type) {
    match t
    case Int => true
    case Array(elem, _) => Distinct(elem)
    case Struct(_, members) => DistinctFields(members)
    case Ref(_) => false
  }

  predicate DistinctFields(fs: Fields) {
    fs.Field? ==> Distinct(fs.ftype) && FindField(fs.rest, fs.name).None? && DistinctFields(fs.rest)
  }

  /** A selector in front of a path. */
  lemma {:induction false} FollowFrom(t: Type, s: Selector, path: Path)
    requires Select(t, s).Some? && Follow(Select(t, s).value.1, path).Some?
    ensures var (first, part) := Select(t, s).value;
            var (more, ty) := Follow(part, path).value;
            Follow(t, [s] + path) == Some((first + more, ty))
    decreases |path|
  {
    var all := [s] + path;
    if path == [] {
      assert all == [s] && all[..0] == [];
      assert Follow(t, []) == Some((0, t));
    } else {
      FollowFrom(t, s, path[..|path| - 1]);
      assert all[..|all| - 1] == [s] + path[..|path| - 1];
    }
  }

  /** Every word of a variable is one of its scalar parts, so sizes and offsets could not be smaller. */
  lemma {:induction false} EveryWord(t: Type, a: nat) returns (path: Path)
    requires Distinct(t) && a % 4 == 0 && a < SizeOf(t)
    ensures Follow(t, path) == Some((a, Int))
    decreases t
  {
    match t
    case Int => path := [];
    case Array(elem, length) =>
      var i, b := ElementAt(elem, length, a);
      path := EveryWord(elem, b);
      FollowFrom(t, Element(i), path);
      path := [Element(i)] + path;
    case Struct(_, members) =>
      var name;
      name, path := FieldWord(members, a);
      FollowFrom(t, Member(name), path);
      path := [Member(name)] + path;
  }

  lemma {:induction false} FieldWord(fs: Fields, a: nat) returns (name: string, path: Path)
    requires DistinctFields(fs) && a % 4 == 0 && a < SizeOfFields(fs)
    ensures FindField(fs, name).Some?
    ensures var (offset, ty) := FindField(fs, name).value;
            Follow(ty, path).Some? && offset + Follow(ty, path).value.0 == a && Follow(ty, path).value.1 == Int
    decreases fs
  {
    SizeIsWords(fs.ftype);
    if a < SizeOf(fs.ftype) {
      name := fs.name;
      path := EveryWord(fs.ftype, a);
    } else {
      name, path := FieldWord(fs.rest, a - SizeOf(fs.ftype));
    }
  }

  /** The element that byte `a` of an array belongs to, and its place there. */
  lemma ElementAt(elem: Type, length: nat, a: nat) returns (i: nat, b: nat)
    requires a < length * SizeOf(elem) && a % 4 == 0
    ensures i < length && b < SizeOf(elem) && b % 4 == 0 && a == i * SizeOf(elem) + b
  {
    SizeIsWords(elem);
    i, b := Divided(length, SizeOf(elem), a);
    MulWords(i, SizeOf(elem));
  }

  lemma {:induction false} Divided(length: nat, size: nat, a: nat) returns (i: nat, b: nat)
    requires a < length * size
    ensures i < length && b < size && a == i * size + b
    decreases length
  {
    if a < (length - 1) * size {
      i, b := Divided(length - 1, size, a);
    } else {
      i, b := length - 1, a - (length - 1) * size;
      assert length * size == (length - 1) * size + size;
    }
  }
}
