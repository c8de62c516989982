/** Formatted output through a buffer of fixed size. */
module Printf {
  import opened Common

  const MAX_BUFFER_SIZE: nat := 256

  /** The contents of a 32-bit word, as an unsigned number. */
  type Word = n: int | 0 <= n < 0x1_0000_0000

  function Signed(w: Word): int {
    if w > INT_MAX then w - 0x1_0000_0000 else w
  }

  // ----- numerals -----

  function DigitChar(d: int): char
    requires 0 <= d < 16
  {
    if d < 10 then '0' + d as char else 'a' + (d - 10) as char
  }

  /** The digits are the usual ones. */
  lemma DigitsAreUsual(d: int)
    requires 0 <= d < 16
    ensures DigitChar(d) == "0123456789abcdef"[d] && DigitValue(DigitChar(d)) == d
  {
  }

  function DigitValue(c: char): int {
    if '0' <= c <= '9' then (c - '0') as int
    else if 'a' <= c <= 'f' then (c - 'a') as int + 10
    else -1
  }

  function Numeral(n: nat, base: nat): string
    requires 2 <= base <= 16
  {
    if n < base then [DigitChar(n)] else Numeral(n / base, base) + [DigitChar(n % base)]
  }

  function Magnitude(n: int): nat {
    if n < 0 then 0 - n else n
  }

  function Decimal(n: int): string {
    if n < 0 then "-" + Numeral(Magnitude(n), 10) else Numeral(n, 10)
  }

  /** A numeral of `base`: digits only, and no zero in front of other digits. */
  predicate Canonical(s: string, base: nat) {
    && s != [] && (|s| > 1 ==> s[0] != '0')
    && forall i :: 0 <= i < |s| ==> 0 <= DigitValue(s[i]) < base
  }

  function Parse(s: string, base: nat): int {
    if s == [] then 0 else Parse(s[..|s| - 1], base) * base + DigitValue(s[|s| - 1])
  }

  function ParseDecimal(s: string): int {
    if s != [] && s[0] == '-' then 0 - Parse(s[1..], 10) else Parse(s, 10)
  }

  lemma Quotients(n: nat, base: nat, q: nat, d: nat)
    requires base >= 2 && q == n / base && d == n % base
    ensures n == q * base + d && d < base && (if n < base then q == 0 && d == n else 0 < q < n)
  {
  }

  lemma {:induction false} NumeralParses(n: nat, base: nat)
    requires 2 <= base <= 16
    ensures Canonical(Numeral(n, base), base) && Parse(Numeral(n, base), base) == n
    ensures n > 0 ==> Numeral(n, base)[0] != '0'
  {
    var s, q, d := Numeral(n, base), n / base, n % base;
    Quotients(n, base, q, d);
    if n >= base {
      NumeralParses(q, base);
      assert s == Numeral(q, base) + [DigitChar(d)];
      assert s[..|s| - 1] == Numeral(q, base);
    } else {
      assert s[..0] == [];
    }
  }

  lemma {:induction false} ParseBounds(s: string, base: nat)
    requires Canonical(s, base) && base >= 2
    ensures Parse(s, base) >= 0 && (s[0] != '0' ==> Parse(s, base) > 0) && (|s| > 1 ==> Parse(s, base) >= base)
  {
    var front := s[..|s| - 1];
    if front == [] {
      assert Parse(front, base) == 0;
    } else {
      ParseBounds(front, base);
      TimesAtLeast(Parse(front, base), base);
    }
  }

  lemma TimesAtLeast(a: int, b: int)
    requires a >= 0 && b >= 0
    ensures a * b >= 0 && (a >= 1 ==> a * b >= b)
  {
    if a >= 1 {
      assert a * b == (a - 1) * b + b;
    }
  }

  /** The numeral of a number is the only canonical one that denotes it. */
  lemma {:induction false} NumeralUnique(s: string, base: nat)
    requires 2 <= base <= 16 && Canonical(s, base)
    ensures Parse(s, base) >= 0 && Numeral(Parse(s, base), base) == s
  {
    ParseBounds(s, base);
    var front, last := s[..|s| - 1], s[|s| - 1];
    assert DigitChar(DigitValue(last)) == last;
    if front == [] {
      assert Parse(front, base) == 0 && s == [last];
    } else {
      NumeralUnique(front, base);
      DivideBack(Parse(front, base), base, DigitValue(last));
    }
  }

  lemma DivideBack(q: int, base: nat, d: int)
    requires base > 0 && 0 <= d < base
    ensures (q * base + d) / base == q && (q * base + d) % base == d
  {
    var n := q * base + d;
    var e, r := n / base - q, n % base;
    assert e * base + r == d;
    var up, down := e * base, (0 - e) * base;
    assert down == 0 - up;
    if e >= 1 {
      TimesAtLeast(e, base);
    } else if e <= -1 {
      TimesAtLeast(0 - e, base);
    }
  }

  function Power(base: nat, k: nat): nat {
    if k == 0 then 1 else base * Power(base, k - 1)
  }

  lemma {:induction false} NumeralLength(n: nat, base: nat, k: nat)
    requires 2 <= base <= 16 && k > 0 && n < Power(base, k)
    ensures |Numeral(n, base)| <= k
  {
    hide DigitChar;
    if n >= base {
      if k == 1 {
        OnePower(base);
      } else {
        Quotient(n, base, Power(base, k - 1));
        NumeralLength(n / base, base, k - 1);
      }
    }
  }

  lemma OnePower(base: nat)
    ensures Power(base, 1) == base
  {
    assert Power(base, 0) == 1;
  }

  lemma Quotient(n: nat, base: nat, p: nat)
    requires base > 0 && n < base * p
    ensures n / base < p
  {
    var q := n / base;
    var over := (q - p) * base;
    assert over == q * base - p * base;
    if q >= p {
      TimesAtLeast(q - p, base);
    }
  }

  lemma PowersOf()
    ensures Power(10, 10) == 10_000_000_000 && Power(16, 8) == 0x1_0000_0000
  {
    assert Power(10, 5) == 100_000;
    assert Power(16, 4) == 0x1_0000;
  }

  /** What is printed for a 32-bit integer reads back as that integer. */
  lemma DecimalRoundTrip(n: int)
    requires IsInt32(n)
    ensures ParseDecimal(Decimal(n)) == n
    ensures |Decimal(n)| <= if n < 0 then 11 else 10
    ensures Canonical(if n < 0 then Decimal(n)[1..] else Decimal(n), 10)
  {
    PowersOf();
    var m := Magnitude(n);
    NumeralParses(m, 10);
    NumeralLength(m, 10, 10);
    if n < 0 {
      assert Decimal(n)[1..] == Numeral(m, 10);
    } else {
      assert DigitValue('-') == -1;
    }
  }

  lemma HexRoundTrip(w: Word)
    ensures Parse(Numeral(w, 16), 16) == w && Canonical(Numeral(w, 16), 16) && |Numeral(w, 16)| <= 8
  {
    PowersOf();
    NumeralParses(w, 16);
    NumeralLength(w, 16, 8);
  }

  // ----- formats -----

  /** Where the arguments are: the words above the format on the stack, by their distance in bytes,
      and the strings that words point to. */
  datatype Arguments = Arguments(word: nat -> Word, text: Word -> string)

  /** The text that `format` stands for, up to the first illegal directive, with the last argument
      consumed at distance `index`. */
  function Text(format: string, args: Arguments, index: nat): string {
    if format == [] then []
    else if format[0] == '%' then Directive(format[1..], args, index)
    else [format[0]] + Text(format[1..], args, index)
  }

  /** The rest of a format behind a percent sign. */
  function Directive(format: string, args: Arguments, index: nat): string {
    if format == [] then []
    else if format[0] == '%' then "%" + Text(format[1..], args, index)
    else if !IsLegal(format[0]) then []
    else Shown(format[0], args, index + 4) + Text(format[1..], args, index + 4)
  }

  predicate IsLegal(c: char) {
    c == 'd' || c == 'x' || c == 's' || c == 'c'
  }

  function Shown(c: char, args: Arguments, index: nat): string {
    var w := args.word(index);
    match c
    case 'd' => Decimal(Signed(w))
    case 'x' => Numeral(w, 16)
    case 's' => args.text(w)
    case _ => [(w % 256) as char]
  }

  /** A word and the signed number in it have the same bits. */
  lemma SignedWord(w: Word)
    ensures IsInt32(Signed(w)) && (Signed(w) - w) % 0x1_0000_0000 == 0
  {
  }

  lemma DirectiveAlone(c: char, args: Arguments, i: nat)
    requires IsLegal(c)
    ensures Text(['%', c], args, i) == Shown(c, args, i + 4)
  {
    assert ['%', c][1..] == [c] && [c][1..] == [];
    assert Directive([c], args, i) == Shown(c, args, i + 4) + Text([], args, i + 4);
    assert Shown(c, args, i + 4) + [] == Shown(c, args, i + 4);
  }

  /** What each directive prints: the next word as a signed decimal number, as a hexadecimal number, the string that
      it points to, or its low byte as a character. */
  lemma DirectivesPrint(args: Arguments, i: nat)
    ensures var w, d, x := args.word(i + 4), Text("%d", args, i), Text("%x", args, i);
            && ParseDecimal(d) == Signed(w) && d != [] && Canonical(if d[0] == '-' then d[1..] else d, 10)
            && Parse(x, 16) == w && Canonical(x, 16)
            && Text("%s", args, i) == args.text(w)
            && Text("%c", args, i) == [(w % 256) as char]
            && Text("%%", args, i) == "%"
  {
    var w := args.word(i + 4);
    SignedWord(w);
    DirectiveAlone('d', args, i);
    DirectiveAlone('x', args, i);
    DirectiveAlone('s', args, i);
    DirectiveAlone('c', args, i);
    DecimalRoundTrip(Signed(w));
    HexRoundTrip(w);
    PercentAlone(args, i);
    SignOf(Signed(w));
  }

  lemma PercentAlone(args: Arguments, i: nat)
    ensures Text("%%", args, i) == "%"
  {
    assert "%%"[1..] == "%" && "%"[1..] == "";
    assert Directive("%", args, i) == "%" + Text("", args, i);
    assert "%" + [] == "%";
  }

  lemma SignOf(n: int)
    ensures Decimal(n) != [] && (Decimal(n)[0] == '-' <==> n < 0)
  {
    if n >= 0 {
      NumeralParses(n, 10);
    }
  }

  /** Characters without a special meaning are printed as they are. */
  lemma {:induction false} PlainText(prefix: string, rest: string, args: Arguments, i: nat)
    requires forall k :: 0 <= k < |prefix| ==> prefix[k] != '%'
    ensures Text(prefix + rest, args, i) == prefix + Text(rest, args, i)
  {
    if prefix == [] {
      assert prefix + rest == rest;
    } else {
      assert (prefix + rest)[1..] == prefix[1..] + rest;
      PlainText(prefix[1..], rest, args, i);
    }
  }

  /** A format is printed piece by piece: plain characters as they are, a directive as it is printed by itself, and
      then the rest, with one more argument consumed. A percent sign doubled consumes none; one before any other
      character, or at the end, ends the text. */
  lemma PieceByPiece(prefix: string, c: char, rest: string, args: Arguments, i: nat)
    requires forall k :: 0 <= k < |prefix| ==> prefix[k] != '%'
    ensures IsLegal(c) ==>
              Text(prefix + ['%', c] + rest, args, i) == prefix + Text(['%', c], args, i) + Text(rest, args, i + 4)
    ensures c == '%' ==> Text(prefix + ['%', c] + rest, args, i) == prefix + "%" + Text(rest, args, i)
    ensures !IsLegal(c) && c != '%' ==> Text(prefix + ['%', c] + rest, args, i) == prefix
    ensures Text(prefix + "%", args, i) == prefix && Text(prefix, args, i) == prefix
  {
    var tail := ['%', c] + rest;
    assert prefix + ['%', c] + rest == prefix + tail;
    assert tail[1..] == [c] + rest && ([c] + rest)[1..] == rest;
    PlainText(prefix, tail, args, i);
    PlainText(prefix, "%", args, i);
    PlainText(prefix, [], args, i);
    assert prefix + [] == prefix && "%"[1..] == [];
    if IsLegal(c) {
      DirectiveAlone(c, args, i);
    }
  }

  // ----- chunks -----

  /** How a text reaches the console: in full buffers and a remainder. */
  function Chunks(t: string): seq<string>
    decreases |t|
  {
    if t == [] then []
    else if |t| <= MAX_BUFFER_SIZE then [t]
    else [t[..MAX_BUFFER_SIZE]] + Chunks(t[MAX_BUFFER_SIZE..])
  }

  function Concat(chunks: seq<string>): string {
    if chunks == [] then [] else chunks[0] + Concat(chunks[1..])
  }

  predicate AllFull(chunks: seq<string>) {
    forall i :: 0 <= i < |chunks| ==> |chunks[i]| == MAX_BUFFER_SIZE
  }

  /** Nothing is lost, and every chunk but the last is full. */
  lemma {:induction false} ChunksTransparent(t: string)
    ensures Concat(Chunks(t)) == t
    ensures forall i :: 0 <= i < |Chunks(t)| ==> 0 < |Chunks(t)[i]| <= MAX_BUFFER_SIZE
    ensures forall i :: 0 <= i < |Chunks(t)| - 1 ==> |Chunks(t)[i]| == MAX_BUFFER_SIZE
    decreases |t|
  {
    if t == [] {
    } else if |t| <= MAX_BUFFER_SIZE {
      assert Chunks(t)[1..] == [];
    } else {
      ChunksTransparent(t[MAX_BUFFER_SIZE..]);
      assert Chunks(t)[1..] == Chunks(t[MAX_BUFFER_SIZE..]);
    }
  }

  lemma {:induction false} ChunksOf(full: seq<string>, tail: string)
    requires AllFull(full) && |tail| <= MAX_BUFFER_SIZE
    ensures Chunks(Concat(full) + tail) == full + (if tail == [] then [] else [tail])
  {
    if full == [] {
      assert Concat(full) + tail == tail;
    } else {
      var t := Concat(full) + tail;
      ChunksOf(full[1..], tail);
      assert t[..MAX_BUFFER_SIZE] == full[0];
      assert t[MAX_BUFFER_SIZE..] == Concat(full[1..]) + tail;
      FullLength(full[1..]);
    }
  }

  lemma FullLength(full: seq<string>)
    requires AllFull(full)
    ensures full != [] ==> |Concat(full)| >= MAX_BUFFER_SIZE
  {
  }

  lemma {:induction false} ConcatAppend(chunks: seq<string>, chunk: string)
    ensures Concat(chunks + [chunk]) == Concat(chunks) + chunk
  {
    if chunks == [] {
      assert chunks + [chunk] == [chunk] && [chunk][1..] == [];
    } else {
      assert (chunks + [chunk])[1..] == chunks[1..] + [chunk];
      ConcatAppend(chunks[1..], chunk);
    }
  }

  /** The text `t` has gone into full chunks and the buffered `tail`. */
  ghost predicate Holds(chunks: seq<string>, tail: string, t: string) {
    AllFull(chunks) && t == Concat(chunks) + tail
  }

  lemma HoldsMore(chunks: seq<string>, tail: string, t: string, c: char)
    requires Holds(chunks, tail, t)
    ensures Holds(chunks, tail + [c], t + [c])
  {
  }

  lemma HoldsFlushed(chunks: seq<string>, tail: string, t: string)
    requires Holds(chunks, tail, t) && |tail| == MAX_BUFFER_SIZE
    ensures Holds(chunks + [tail], [], t)
  {
    ConcatAppend(chunks, tail);
  }

  // ----- the program -----

  /** The digits of a number, last one first, as they are spelled. */
  function Spelled(digits: seq<int>): string
    requires forall i :: 0 <= i < |digits| ==> 0 <= digits[i] < 16
  {
    if digits == [] then [] else [DigitChar(digits[|digits| - 1])] + Spelled(digits[..|digits| - 1])
  }

  lemma {:induction false} SpelledLength(digits: seq<int>)
    requires forall i :: 0 <= i < |digits| ==> 0 <= digits[i] < 16
    ensures |Spelled(digits)| == |digits|
  {
    if digits != [] {
      SpelledLength(digits[..|digits| - 1]);
    }
  }

  /** `digits` have been taken off the end of the numeral `all`, and `left` is what remains. */
  ghost predicate Taken(all: string, left: nat, base: nat, digits: seq<int>) {
    && 2 <= base <= 16 && (forall i :: 0 <= i < |digits| ==> 0 <= digits[i] < 16)
    && all == (if left == 0 && digits != [] then [] else Numeral(left, base)) + Spelled(digits)
  }

  lemma TakenStart(n: nat, base: nat)
    requires 2 <= base <= 16
    ensures Taken(Numeral(n, base), n, base, [])
  {
  }

  lemma TakenDone(all: string, base: nat, digits: seq<int>)
    requires Taken(all, 0, base, digits) && digits != []
    ensures (forall i :: 0 <= i < |digits| ==> 0 <= digits[i] < 16) && Spelled(digits) == all
  {
  }

  lemma TakenLength(all: string, left: nat, base: nat, digits: seq<int>)
    requires Taken(all, left, base, digits)
    ensures |digits| <= |all| && (left != 0 || digits == [] ==> |digits| < |all|)
  {
    SpelledLength(digits);
  }

  lemma SplitNumeral(n: nat, base: nat, q: nat)
    requires 2 <= base <= 16 && q == n / base
    ensures 0 <= n % base < base
    ensures Numeral(n, base) == (if q == 0 then [] else Numeral(q, base)) + [DigitChar(n % base)]
  {
    Quotients(n, base, q, n % base);
  }

  lemma TakeOff(all: string, left: nat, base: nat, digits: seq<int>, q: nat, d: int)
    requires Taken(all, left, base, digits) && (left != 0 || digits == []) && q == left / base && d == left % base
    ensures Taken(all, q, base, digits + [d])
  {
    SplitNumeral(left, base, q);
    Respell(all, if q == 0 then [] else Numeral(q, base), d, digits);
  }

  lemma Respell(all: string, head: string, d: int, digits: seq<int>)
    requires 0 <= d < 16 && forall i :: 0 <= i < |digits| ==> 0 <= digits[i] < 16
    requires all == head + [DigitChar(d)] + Spelled(digits)
    ensures all == head + Spelled(digits + [d])
  {
    var more := digits + [d];
    assert more[..|digits|] == digits && more[|digits|] == d;
    Regroup(head, [DigitChar(d)], Spelled(digits));
  }

  lemma Regroup(a: string, b: string, c: string)
    ensures a + b + c == a + (b + c)
  {
  }

  lemma NextHex(n: nat, q: nat, d: int)
    requires q == n / 16 && d == n - q * 16
    ensures d == n % 16 && 0 <= d < 16 && q <= n && (n > 0 ==> q < n)
  {
  }

  /** One digit of a signed number; nothing overflows on the way. */
  lemma NextDecimal(n: int, q: int, d: int)
    requires IsInt32(n) && q == TruncDiv(n, 10) && d == if n < 0 then q * 10 - n else n - q * 10
    ensures IsInt32(q) && IsInt32(q * 10) && Magnitude(q) == Magnitude(n) / 10 && d == Magnitude(n) % 10
    ensures if n < 0 then q <= 0 else q >= 0
  {
  }

  /** One process's output: a buffer in front of the console. */
  class Printer {
    const buffer: array<char>
    var count: nat
    /** What the system calls have written. */
    var chunks: seq<string>

    constructor ()
      ensures fresh(buffer) && buffer.Length == MAX_BUFFER_SIZE && count == 0 && chunks == []
    {
      buffer := new char[MAX_BUFFER_SIZE];
      count, chunks := 0, [];
    }

    /** Since the console had `before`, exactly `t` has been printed. */
    ghost predicate Printed(before: seq<string>, t: string)
      reads this, buffer
    {
      && buffer.Length == MAX_BUFFER_SIZE && count < MAX_BUFFER_SIZE
      && before <= chunks && Holds(chunks[|before|..], buffer[..count], t)
    }

    /** The same, but the buffer may be full. */
    ghost predicate Stored(before: seq<string>, t: string)
      reads this, buffer
    {
      && count <= buffer.Length == MAX_BUFFER_SIZE
      && before <= chunks && Holds(chunks[|before|..], buffer[..count], t)
    }

    method SysWrite(size: nat)
      requires size <= buffer.Length
      modifies `chunks
      ensures chunks == old(chunks) + [buffer[..size]]
    {
      chunks := chunks + [buffer[..size]];
    }

    /** Adds a character to the buffer, which may fill it. */
    method Store(c: char, ghost before: seq<string>, ghost t: string)
      requires Printed(before, t)
      modifies `count, buffer
      ensures Stored(before, t + [c])
    {
      HoldsMore(chunks[|before|..], buffer[..count], t, c);
      buffer[count] := c;
      count := count + 1;
      assert buffer[..count] == old(buffer[..count]) + [c];
    }

    method FlushIfFull(ghost before: seq<string>, ghost t: string)
      requires Stored(before, t)
      modifies this
      ensures Printed(before, t)
    {
      if count == MAX_BUFFER_SIZE {
        HoldsFlushed(chunks[|before|..], buffer[..count], t);
        SysWrite(MAX_BUFFER_SIZE);
        assert chunks[|before|..] == old(chunks)[|before|..] + [buffer[..count]];
        count := 0;
        assert buffer[..0] == [];
      }
    }

    method Put(c: char, ghost before: seq<string>, ghost t: string)
      requires Printed(before, t)
      modifies this, buffer
      ensures Printed(before, t + [c])
    {
      Store(c, before, t);
      FlushIfFull(before, t + [c]);
    }

    /** Prints the digits in `number`, last one first. */
    method PutDigits(number: array<int>, n: nat, ghost before: seq<string>, ghost t: string)
      requires Printed(before, t) && n <= number.Length && forall k :: 0 <= k < n ==> 0 <= number[k] < 16
      modifies this, buffer
      ensures Printed(before, t + Spelled(number[..n]))
    {
      ghost var digits, done := number[..n], t;
      var i := n;
      assert digits[..n] == digits;
      while i != 0
        invariant i <= n && forall k :: 0 <= k < n ==> digits[k] == number[k]
        invariant Printed(before, done) && done + Spelled(digits[..i]) == t + Spelled(digits)
      {
        assert digits[..i][..i - 1] == digits[..i - 1];
        Put(DigitChar(number[i - 1]), before, done);
        done := done + [DigitChar(digits[i - 1])];
        i := i - 1;
      }
      assert done == t + Spelled(digits);
    }

    /** Takes a number apart into its decimal digits; nothing overflows on the way. */
    method TakeApart(decimal: int, number: array<int>) returns (i: nat)
      requires IsInt32(decimal) && number.Length == 16
      modifies number
      ensures i <= 10 && Taken(Numeral(Magnitude(decimal), 10), 0, 10, number[..i]) && i > 0
    {
      var left := decimal;
      ghost var all := Numeral(Magnitude(decimal), 10);
      i := 0;
      PowersOf();
      NumeralLength(Magnitude(decimal), 10, 10);
      assert number[..0] == [];
      while left != 0 || i == 0
        invariant IsInt32(left) && (decimal < 0 ==> left <= 0) && (decimal >= 0 ==> left >= 0) && i <= 10
        invariant Taken(all, Magnitude(left), 10, number[..i])
        decreases Magnitude(left), i == 0
      {
        TakenLength(all, Magnitude(left), 10, number[..i]);
        var temp := TruncDiv(left, 10);
        var d := if decimal < 0 then temp * 10 - left else left - temp * 10;
        NextDecimal(left, temp, d);
        TakeOff(all, Magnitude(left), 10, number[..i], Magnitude(temp), d);
        ghost var was := number[..i];
        number[i] := d;
        left, i := temp, i + 1;
        assert number[..i] == was + [d];
      }
    }

    lemma SignFirst(t: string, n: int)
      ensures t + (if n < 0 then ['-'] else []) + Numeral(Magnitude(n), 10) == t + Decimal(n)
    {
      assert n >= 0 ==> t + [] == t;
    }

    /** Prints a signed number. */
    method Dec2Str(decimal: int, ghost before: seq<string>, ghost t: string)
      requires IsInt32(decimal) && Printed(before, t)
      modifies this, buffer
      ensures Printed(before, t + Decimal(decimal))
    {
      hide Numeral, Decimal;
      var number := new int[16];
      if decimal < 0 {
        Put('-', before, t);
      }
      ghost var sign, digits := if decimal < 0 then ['-'] else [], Numeral(Magnitude(decimal), 10);
      assert t + [] == t;
      var n := TakeApart(decimal, number);
      PutDigits(number, n, before, t + sign);
      SignFirst(t, decimal);
    }

    /** Prints an unsigned number to base sixteen. */
    method Hex2Str(hexadecimal: Word, ghost before: seq<string>, ghost t: string)
      requires Printed(before, t)
      modifies this, buffer
      ensures Printed(before, t + Numeral(hexadecimal, 16))
    {
      hide Numeral, Taken;
      var number := new int[16];
      var left, i: nat := hexadecimal, 0;
      ghost var all := Numeral(hexadecimal, 16);
      HexRoundTrip(hexadecimal);
      TakenStart(hexadecimal, 16);
      assert number[..0] == [];
      while left != 0 || i == 0
        invariant 0 <= left < 0x1_0000_0000 && i <= 8 && Taken(all, left, 16, number[..i])
        invariant Printed(before, t)
        decreases left, i == 0
      {
        TakenLength(all, left, 16, number[..i]);
        var temp := left / 16;
        var d := left - temp * 16;
        NextHex(left, temp, d);
        TakeOff(all, left, 16, number[..i], temp, d);
        ghost var was := number[..i];
        number[i] := d;
        left, i := temp, i + 1;
        assert number[..i] == was + [d];
      }
      TakenDone(all, 16, number[..i]);
      PutDigits(number, i, before, t);
    }

    /** Prints a string. */
    method Str2Str(s: string, ghost before: seq<string>, ghost t: string)
      requires Printed(before, t)
      modifies this, buffer
      ensures Printed(before, t + s)
    {
      var i := 0;
      assert t + s[..0] == t;
      while i < |s|
        invariant i <= |s| && Printed(before, t + s[..i])
      {
        Put(s[i], before, t + s[..i]);
        assert t + s[..i] + [s[i]] == t + s[..i + 1];
        i := i + 1;
      }
      assert s[..i] == s;
    }

    /** What the rest of a format will print, given the state of the scan. */
    static ghost function Rest(state: int, format: string, args: Arguments, index: nat): string {
      if state == 0 then Text(format, args, index) else if state == 1 then Directive(format, args, index) else []
    }

    /** Prints one argument. */
    method Convert(c: char, w: Word, args: Arguments, index: nat, ghost before: seq<string>, ghost t: string)
      requires Printed(before, t) && IsLegal(c) && w == args.word(index)
      modifies this, buffer
      ensures Stored(before, t + Shown(c, args, index))
    {
      match c
      case 'd' => Dec2Str(Signed(w), before, t);
      case 'x' => Hex2Str(w, before, t);
      case 's' => Str2Str(args.text(w), before, t);
      case _ => Store((w % 256) as char, before, t);
    }

    /** Deals with one character of a format. */
    method Scan(c: char, state: int, index: nat, args: Arguments, ghost rest: string, ghost before: seq<string>,
                ghost t: string)
      returns (state': int, index': nat, ghost t': string)
      requires Printed(before, t) && 0 <= state <= 1
      modifies this, buffer
      ensures Stored(before, t') && 0 <= state' <= 2 && (state' == 2 ==> Printed(before, t'))
      ensures t' + Rest(state', rest, args, index') == t + Rest(state, [c] + rest, args, index)
    {
      state', index', t' := state, index, t;
      assert ([c] + rest)[1..] == rest;
      if c == '%' && state == 0 {
        state' := 1;
      } else if state == 0 || c == '%' {
        state' := 0;
        Store(c, before, t);
        t' := t + [c];
      } else if IsLegal(c) {
        state', index' := 0, index + 4;
        var w := args.word(index');
        Convert(c, w, args, index', before, t);
        t' := t + Shown(c, args, index');
      } else {
        state' := 2;
      }
    }

    /** Prints `format` with its arguments. */
    method Printf(format: string, args: Arguments)
      requires buffer.Length == MAX_BUFFER_SIZE
      modifies this, buffer
      ensures chunks == old(chunks) + Chunks(Text(format, args, 0))
    {
      var i, index, state := 0, 0, 0;
      count := 0;
      ghost var before, t, all := chunks, [], Text(format, args, 0);
      assert buffer[..0] == [] && chunks[|before|..] == [] && format[0..] == format;
      while i < |format|
        invariant i <= |format| && 0 <= state <= 1 && Printed(before, t)
        invariant t + Rest(state, format[i..], args, index) == all
        decreases |format| - i
      {
        ghost var rest := format[i + 1..];
        assert format[i..] == [format[i]] + rest;
        state, index, t := Scan(format[i], state, index, args, rest, before, t);
        if state == 2 {
          break;
        }
        FlushIfFull(before, t);
        i := i + 1;
      }
      assert t == all;
      WriteRest(before, t);
    }

    /** Writes what is left in the buffer. */
    method WriteRest(ghost before: seq<string>, ghost t: string)
      requires Printed(before, t)
      modifies `chunks
      ensures chunks == before + Chunks(t)
    {
      ChunksOf(chunks[|before|..], buffer[..count]);
      assert chunks == before + chunks[|before|..];
      if count != 0 {
        SysWrite(count);
      }
    }
  }
}
