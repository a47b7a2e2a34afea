/** The emitted floor division and floor modulo of 64-bit integers: truncation, then a correction. */
module FloorDivision {

  const MIN: int := -0x8000_0000_0000_0000
  const MAX: int := 0x7FFF_FFFF_FFFF_FFFF

  predicate Fits(n: int) {
    MIN <= n <= MAX
  }

  function Abs(n: int): nat {
    if n < 0 then -n else n
  }

  /** Rust `/`: the quotient rounds toward zero. */
  function Quotient(a: int, b: int): int
    requires b != 0
  {
    if (a < 0) == (b < 0) then Abs(a) / Abs(b) else -(Abs(a) / Abs(b))
  }

  /** Rust `%`: the remainder has the sign of the dividend. */
  function Remainder(a: int, b: int): int
    requires b != 0
  {
    if a < 0 then -(Abs(a) % Abs(b)) else Abs(a) % Abs(b)
  }

  predicate Corrects(a: int, b: int)
    requires b != 0
  {
    Remainder(a, b) != 0 && (Remainder(a, b) < 0) != (b < 0)
  }

  /** `emit_floor_div`. */
  function FloorQuotient(a: int, b: int): int
    requires b != 0
  {
    if Corrects(a, b) then Quotient(a, b) - 1 else Quotient(a, b)
  }

  /** `emit_floor_mod`. */
  function FloorRemainder(a: int, b: int): int
    requires b != 0
  {
    if Corrects(a, b) then Remainder(a, b) + b else Remainder(a, b)
  }

  /** Python's `//` and `%`: the pair whose remainder is zero or takes the divisor's sign. */
  predicate FloorPair(a: int, b: int, q: int, r: int) {
    a == q * b + r && (r == 0 || (r < 0) == (b < 0)) && Abs(r) < Abs(b)
  }

  lemma TruncatedPair(a: int, b: int)
    requires b != 0
    ensures a == Quotient(a, b) * b + Remainder(a, b) && Abs(Remainder(a, b)) < Abs(b)
  {
    var q, r := Abs(a) / Abs(b), Abs(a) % Abs(b);
    assert Abs(a) == q * Abs(b) + r;
    assert (-q) * b == -(q * b) && q * (-b) == -(q * b);
  }

  /** There is only one floor pair. */
  lemma FloorPairUnique(a: int, b: int, q1: int, r1: int, q2: int, r2: int)
    requires FloorPair(a, b, q1, r1) && FloorPair(a, b, q2, r2)
    ensures q1 == q2 && r1 == r2
  {
    var d := q1 - q2;
    assert d * b == r2 - r1;
    if d != 0 {
      ScaledBound(d, b);
    }
  }

  lemma NotNegative(x: nat, y: nat)
    ensures x * y >= 0
  {
  }

  lemma ScaledBound(d: int, b: int)
    requires d != 0
    ensures Abs(d * b) >= Abs(b)
  {
    var x, y := Abs(d) - 1, Abs(b);
    NotNegative(x, y);
    assert (x + 1) * y == x * y + y;
    assert d * b == (x + 1) * y || d * b == -((x + 1) * y) by {
      assert (-d) * b == -(d * b) && d * (-b) == -(d * b) && (-d) * (-b) == d * b;
    }
  }

  /** The corrected pair is the floor pair, for every dividend and divisor. */
  lemma CorrectedIsFloor(a: int, b: int)
    requires b != 0
    ensures FloorPair(a, b, FloorQuotient(a, b), FloorRemainder(a, b))
  {
    hide Quotient, Remainder;
    TruncatedPair(a, b);
    var q := Quotient(a, b);
    assert (q - 1) * b == q * b - b;
  }

  /** No step of the emitted code leaves 64 bits, exactly unless the least integer is divided by minus one. */
  lemma NothingOverflows(a: int, b: int)
    requires Fits(a) && Fits(b) && b != 0
    ensures (Fits(Quotient(a, b)) && Fits(Remainder(a, b)) && Fits(FloorQuotient(a, b)) && Fits(FloorRemainder(a, b)))
      <==> !(a == -9223372036854775808 && b == -1)
  {
    TruncatedPair(a, b);
    var q := Abs(a) / Abs(b);
    assert q <= Abs(a) by { QuotientBound(Abs(a), Abs(b)); }
    if Abs(b) >= 2 {
      QuotientHalves(Abs(a), Abs(b));
    } else {
      assert Abs(a) / 1 == Abs(a) && Abs(a) % 1 == 0;
    }
  }

  lemma QuotientBound(n: nat, d: nat)
    requires d > 0
    ensures n / d <= n
  {
    var q, r := n / d, n % d;
    NotNegative(q, d - 1);
    assert q * d == q * (d - 1) + q;
    assert n == q * d + r;
  }

  lemma QuotientHalves(n: nat, d: nat)
    requires d >= 2
    ensures 2 * (n / d) <= n
  {
    var q, r := n / d, n % d;
    NotNegative(q, d - 2);
    assert q * d == q * (d - 2) + 2 * q;
    assert n == q * d + r;
  }

  /** Euclidean division differs from floor division exactly on a negative divisor with something left over. */
  lemma EuclideanDiffers(a: int, b: int)
    requires b != 0
    ensures (a / b, a % b) != (FloorQuotient(a, b), FloorRemainder(a, b)) <==> b < 0 && FloorRemainder(a, b) != 0
  {
    hide Quotient, Remainder, Corrects;
    CorrectedIsFloor(a, b);
    var q, r := FloorQuotient(a, b), FloorRemainder(a, b);
    assert a == (a / b) * b + a % b && 0 <= a % b < Abs(b);
    if b > 0 || r == 0 {
      assert FloorPair(a, b, a / b, a % b) by {
        if b < 0 {
          assert a == q * b;
          Divides(a, b, q);
        }
      }
      FloorPairUnique(a, b, q, r, a / b, a % b);
    }
  }

  lemma Divides(a: int, b: int, q: int)
    requires b < 0 && a == q * b
    ensures a % b == 0
  {
    var d := q - a / b;
    assert d * b == a % b;
    if d != 0 {
      ScaledBound(d, b);
    }
  }
}
