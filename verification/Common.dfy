/** Small general-purpose definitions shared by the other modules. */
module Common {

  datatype Option<+T> = None | Some(value: T) {
    predicate IsFailure() {
      None?
    }

    function PropagateFailure<U>(): Option<U>
      requires None?
    {
      None
    }

    function Extract(): T
      requires Some?
    {
      value
    }
  }

  const INT_MIN: int := -0x8000_0000
  const INT_MAX: int := 0x7fff_ffff

  /** The values of the machine's (and C's) `int`. */
  predicate IsInt32(n: int) {
    INT_MIN <= n <= INT_MAX
  }

  function Abs(n: int): nat {
    if n < 0 then -n else n
  }

  /** `q` is the quotient of `a` by `b` and `r` the remainder, which is smaller than `b` and has the sign of
      `a`, as sections 6.5.5 of ISO/IEC 9899:1999 asks. */
  predicate Divides(a: int, b: int, q: int, r: int) {
    a == b * q + r && Abs(r) < Abs(b) && (r == 0 || (r < 0 <==> a < 0))
  }

  /** Division that truncates toward zero. */
  function TruncDiv(a: int, b: int): (q: int)
    requires b != 0
    ensures Divides(a, b, q, a - b * q)
  {
    if a >= 0 then
      if b > 0 then a / b else -(a / -b)
    else
      if b > 0 then -(-a / b) else -a / -b
  }

  /** There is only one quotient. */
  lemma QuotientUnique(a: int, b: int, q: int, r: int, q': int, r': int)
    requires Divides(a, b, q, r) && Divides(a, b, q', r')
    ensures q == q' && r == r'
  {
    Farther(b, q, q');
    Nearer(a, b, b * q, r, b * q', r');
  }

  lemma Farther(b: int, q: int, q': int)
    ensures q != q' ==> Abs(b * q - b * q') >= Abs(b)
  {
    if q != q' {
      assert b * q - b * q' == b * (q - q');
      MagnitudeGrows(b, q - q');
    }
  }

  lemma MagnitudeGrows(b: int, d: int)
    requires d != 0
    ensures Abs(b * d) >= Abs(b)
  {
    if b >= 0 && d > 0 {
      AtLeast(b, d);
    } else if b >= 0 {
      AtLeast(b, -d);
      assert b * d == -(b * -d);
    } else if d > 0 {
      AtLeast(-b, d);
      assert b * d == -(-b * d);
    } else {
      AtLeast(-b, -d);
      assert b * d == -b * -d;
    }
  }

  lemma AtLeast(b: nat, d: int)
    requires d > 0
    ensures b * d >= b
  {
    assert b * d == b + b * (d - 1) && b * (d - 1) >= 0;
  }

  lemma Nearer(a: int, b: int, x: int, r: int, x': int, r': int)
    requires a == x + r && Abs(r) < Abs(b) && (r == 0 || (r < 0 <==> a < 0))
    requires a == x' + r' && Abs(r') < Abs(b) && (r' == 0 || (r' < 0 <==> a < 0))
    ensures Abs(x - x') < Abs(b)
  {
  }

  /** Triggers. Definitions that quantify over `Unfold(k)` stay folded in proofs that only pass them
      around; a proof that looks inside says `assert Unfold(0)`. There are three, so that opening one
      kind of definition leaves the others folded. */
  predicate Unfold(k: int) {
    true
  }

  predicate Inspect(k: int) {
    true
  }

  predicate Recall(k: int) {
    true
  }

  /** What passes between a program and the console. */
  datatype Event = ReadInt(value: int) | WriteInt(value: int)

  /** The console: the integers still to be read and what has happened so far. */
  datatype Console = Console(input: seq<int>, trace: seq<Event>) {
    function Write(n: int): Console {
      Console(input, trace + [WriteInt(n)])
    }

    function Read(): Console
      requires input != []
    {
      Console(input[1..], trace + [ReadInt(input[0])])
    }
  }
}
