/** The operators whose folds may be reordered are the commutative and associative ones; their tables, bit by bit. */
module FoldOperators {
  import opened Outcomes
  import opened FloorDivision
  import opened IntegerOperators

  // ---- bits ----

  /** The bit of weight `Power2(k)` of the two's-complement form. */
  function Bit(n: int, k: nat): int {
    (n / Power2(k)) % 2
  }

  lemma HigherBit(n: int, k: nat)
    requires k > 0
    ensures Bit(n, k) == Bit(n / 2, k - 1)
  {
    var h := Power2(k - 1);
    var q, r := (n / 2) / h, (n / 2) % h;
    assert n == 2 * (n / 2) + n % 2;
    assert n / 2 == h * q + r;
    assert n == (2 * h) * q + (2 * r + n % 2) by {
      assert 2 * (h * q) == (2 * h) * q;
    }
    QuotientIs(n, 2 * h, q, 2 * r + n % 2);
  }

  /** Bit by bit: both, either, or exactly one. */
  lemma {:induction false} BitTables(a: int, b: int, k: nat)
    ensures Bit(Bitwise(BitAnd, a, b), k) == 1 <==> Bit(a, k) == 1 && Bit(b, k) == 1
    ensures Bit(Bitwise(BitOr, a, b), k) == 1 <==> Bit(a, k) == 1 || Bit(b, k) == 1
    ensures Bit(Bitwise(BitXor, a, b), k) == 1 <==> Bit(a, k) != Bit(b, k)
    decreases k
  {
    hide Bitwise;
    BitwiseParts(BitAnd, a, b);
    BitwiseParts(BitOr, a, b);
    BitwiseParts(BitXor, a, b);
    if k == 0 {
      LowestBit(a);
      LowestBit(b);
      LowestBit(Bitwise(BitAnd, a, b));
      LowestBit(Bitwise(BitOr, a, b));
      LowestBit(Bitwise(BitXor, a, b));
    } else {
      hide Bit, BitOf;
      BitTables(a / 2, b / 2, k - 1);
      HigherBit(a, k);
      HigherBit(b, k);
      HigherBit(Bitwise(BitAnd, a, b), k);
      HigherBit(Bitwise(BitOr, a, b), k);
      HigherBit(Bitwise(BitXor, a, b), k);
    }
  }

  lemma LowestBit(n: int)
    ensures Bit(n, 0) == n % 2
  {
  }

  // ---- which folds may be reordered ----

  function Chained(op: BinOp, a: Option<int>, b: Option<int>): Option<int> {
    if a == None || b == None then None else Evaluate(op, a.value, b.value)
  }

  predicate CommutesAt(op: BinOp, a: int, b: int) {
    Evaluate(op, a, b) == Evaluate(op, b, a)
  }

  predicate AssociatesAt(op: BinOp, a: int, b: int, c: int) {
    Chained(op, Evaluate(op, a, b), Some(c)) == Chained(op, Some(a), Evaluate(op, b, c))
  }

  ghost predicate CommutativeAndAssociative(op: BinOp) {
    (forall a: int, b: int :: CommutesAt(op, a, b)) && (forall a: int, b: int, c: int :: AssociatesAt(op, a, b, c))
  }

  lemma ReorderableLaws(op: BinOp, a: int, b: int, c: int)
    requires IsReorderable(op)
    ensures CommutesAt(op, a, b) && AssociatesAt(op, a, b, c)
  {
    hide Bitwise;
    if op == Mul {
      assert a * b == b * a && a * b * c == a * (b * c);
    } else if op in {BitAnd, BitOr, BitXor} {
      BitwiseCommutes(op, a, b);
      BitwiseAssociates(op, a, b, c);
    }
  }

  /** Operands at which an operator is not commutative or not associative. */
  function CounterExample(op: BinOp): (int, int, int) {
    match op
    case Eq => (2, 3, 0)
    case NotEq => (2, 3, 1)
    case Shr => (2, 1, 0)
    case _ => (0, 1, 0)
  }

  lemma OthersFail(op: BinOp)
    requires !IsReorderable(op)
    ensures var (a, b, c) := CounterExample(op); !(CommutesAt(op, a, b) && AssociatesAt(op, a, b, c))
  {
    hide Bitwise;
    assert Power2(0) == 1 && Power2(1) == 2 && Power2(2) == 4;
    assert Power(0, 1) == 0 && Power(1, 0) == 1;
  }

  /** The admitted set is exactly the operators that are commutative and associative on all integers. */
  lemma ReorderableExactly(op: BinOp)
    ensures IsReorderable(op) <==> CommutativeAndAssociative(op)
  {
    hide CommutesAt, AssociatesAt;
    if IsReorderable(op) {
      forall a: int, b: int ensures CommutesAt(op, a, b) {
        ReorderableLaws(op, a, b, 0);
      }
      forall a: int, b: int, c: int ensures AssociatesAt(op, a, b, c) {
        ReorderableLaws(op, a, b, c);
      }
    } else {
      OthersFail(op);
    }
  }

  /** One step of a fold at a width is the integer operator, reduced for the sum and the product. */
  lemma StepIsOperator(op: BinOp, a: int, b: int, n: nat)
    requires IsReorderable(op)
    ensures var v := Evaluate(op, a, b);
      v.Some? && Wrapped(op, a, b, n) == if op == Add || op == Mul then v.value % Power2(n) else v.value
  {
  }

  /** Division and remainder floor: they are the corrected truncating ones. */
  lemma DivisionFloors(a: int, b: int)
    ensures b != 0 ==> Evaluate(FloorDiv, a, b) == Some(FloorQuotient(a, b))
    ensures b != 0 ==> Evaluate(Mod, a, b) == Some(FloorRemainder(a, b))
    ensures b == 0 ==> Evaluate(FloorDiv, a, b) == None && Evaluate(Mod, a, b) == None
  {
    hide FloorQuotient, FloorRemainder;
    if b != 0 {
      CorrectedIsFloor(a, b);
      var q := if b > 0 then a / b else -a / -b;
      var r := if b > 0 then a % b else -(-a % -b);
      assert a == q * b + r by {
        if b < 0 {
          assert -a == (-b) * (-a / -b) + -a % -b;
          assert (-b) * q == -(q * b);
        }
      }
      FloorPairUnique(a, b, q, r, FloorQuotient(a, b), FloorRemainder(a, b));
    }
  }
}
