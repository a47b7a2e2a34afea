/** Which integer operators commute with reduction to a machine width, and which folds may be reordered. */
module IntegerOperators {
  import opened Outcomes
  import opened FloorDivision

  datatype BinOp = Add | Sub | Mul | FloorDiv | Mod | Eq | NotEq | Lt | LtEq | Gt | GtEq | And | Or
    | BitAnd | BitOr | BitXor | Shl | Shr | Pow

  /** `c_binop_is_modular`: the operators before which an out-of-range literal may be reduced. */
  predicate IsModular(op: BinOp) {
    op in {Add, Sub, Mul, BitAnd, BitOr, BitXor}
  }

  /** `is_commutative_monoid_op`: the operators whose folds may be reordered. */
  predicate IsReorderable(op: BinOp) {
    op in {Add, Mul, And, Or, BitAnd, BitOr, BitXor}
  }

  function Power2(n: nat): (m: nat)
    ensures m > 0
  {
    if n == 0 then 1 else 2 * Power2(n - 1)
  }

  // ---- bits of unbounded two's-complement integers ----

  function BitOf(op: BinOp, a: int, b: int): int {
    match op
    case BitAnd => if a == 1 && b == 1 then 1 else 0
    case BitOr => if a == 1 || b == 1 then 1 else 0
    case _ => if a != b then 1 else 0
  }

  function Size(n: int): nat {
    if n < 0 then -n - 1 else n
  }

  /** Bit by bit; an integer is zeros or ones all the way up. */
  function Bitwise(op: BinOp, a: int, b: int): int
    decreases Size(a) + Size(b)
  {
    if a in {0, -1} && b in {0, -1} then -BitOf(op, -a, -b)
    else 2 * Bitwise(op, a / 2, b / 2) + BitOf(op, a % 2, b % 2)
  }

  function Power(a: int, b: nat): int {
    if b == 0 then 1 else a * Power(a, b - 1)
  }

  function Truth(b: bool): int {
    if b then 1 else 0
  }

  /** The integer value; division floors and has none by zero, and shifts and powers have none for a negative count. */
  function Evaluate(op: BinOp, a: int, b: int): Option<int> {
    match op
    case Add => Some(a + b)
    case Sub => Some(a - b)
    case Mul => Some(a * b)
    case FloorDiv => if b == 0 then None else Some(if b > 0 then a / b else -a / -b)
    case Mod => if b == 0 then None else Some(if b > 0 then a % b else -(-a % -b))
    case Eq => Some(Truth(a == b))
    case NotEq => Some(Truth(a != b))
    case Lt => Some(Truth(a < b))
    case LtEq => Some(Truth(a <= b))
    case Gt => Some(Truth(a > b))
    case GtEq => Some(Truth(a >= b))
    case And => Some(Truth(a != 0 && b != 0))
    case Or => Some(Truth(a != 0 || b != 0))
    case BitAnd | BitOr | BitXor => Some(Bitwise(op, a, b))
    case Shl => if b < 0 then None else Some(a * Power2(b))
    case Shr => if b < 0 then None else Some(a / Power2(b))
    case Pow => if b < 0 then None else Some(Power(a, b))
  }

  // ---- one operator ----

  lemma BitwiseStep(op: BinOp, a: int, b: int)
    requires op in {BitAnd, BitOr, BitXor}
    ensures Bitwise(op, a, b) == 2 * Bitwise(op, a / 2, b / 2) + BitOf(op, a % 2, b % 2)
  {
    if a in {0, -1} && b in {0, -1} {
      assert a / 2 == a && b / 2 == b;
      assert a % 2 == -a && b % 2 == -b;
    }
  }

  /** The lowest bit and the rest, at one width less. */
  lemma ReduceStep(a: int, n: nat)
    requires n > 0
    ensures a % Power2(n) == 2 * ((a / 2) % Power2(n - 1)) + a % 2
  {
    var h := Power2(n - 1);
    var q, r := (a / 2) / h, (a / 2) % h;
    assert a / 2 == h * q + r;
    assert a == 2 * (a / 2) + a % 2;
    assert 2 * (h * q) == (2 * h) * q;
    ModIs(a, 2 * h, q, 2 * r + a % 2);
  }

  lemma ModIs(a: int, m: nat, q: int, r: nat)
    requires m > 0 && a == m * q + r && r < m
    ensures a % m == r
  {
    var d := a / m - q;
    assert m * (a / m) == m * q + m * d;
    assert d * m == r - a % m;
    if d != 0 {
      ScaledBound(d, m);
    }
  }

  /** The low bits of a bitwise result come from the low bits of its operands. */
  lemma {:induction false} BitwiseReduces(op: BinOp, a: int, b: int, n: nat)
    requires op in {BitAnd, BitOr, BitXor}
    ensures Bitwise(op, a, b) % Power2(n) == Bitwise(op, a % Power2(n), b % Power2(n)) % Power2(n)
    decreases n
  {
    hide Bitwise, BitOf;
    if n > 0 {
      var m, h := Power2(n), Power2(n - 1);
      LowBits(a, n);
      LowBits(b, n);
      BitwiseParts(op, a, b);
      BitwiseParts(op, a % m, b % m);
      BitwiseReduces(op, a / 2, b / 2, n - 1);
      ReduceStep(Bitwise(op, a, b), n);
      ReduceStep(Bitwise(op, a % m, b % m), n);
    }
  }

  /** Reducing, then taking the lowest bit or the rest. */
  lemma LowBits(a: int, n: nat)
    requires n > 0
    ensures (a % Power2(n)) / 2 == (a / 2) % Power2(n - 1) && a % Power2(n) % 2 == a % 2
  {
    ReduceStep(a, n);
    HalfAndBit((a / 2) % Power2(n - 1), a % 2);
  }

  lemma HalfAndBit(h: int, bit: int)
    requires 0 <= bit <= 1
    ensures (2 * h + bit) / 2 == h && (2 * h + bit) % 2 == bit
  {
  }

  lemma SameRemainder(a: int, b: int, m: nat, k: int)
    requires m > 0 && a == b + m * k
    ensures a % m == b % m
  {
    var q := b / m;
    assert b == m * q + b % m;
    assert m * (q + k) == m * q + m * k;
    ModIs(a, m, q + k, b % m);
  }

  lemma SumReduces(a: int, b: int, m: nat)
    requires m > 0
    ensures (a + b) % m == (a % m + b % m) % m && (a - b) % m == (a % m - b % m) % m
  {
    var qa, ra, qb, rb := a / m, a % m, b / m, b % m;
    assert a == m * qa + ra && b == m * qb + rb;
    assert m * (qa + qb) == m * qa + m * qb;
    assert m * (qa - qb) == m * qa - m * qb;
    SameRemainder(a + b, ra + rb, m, qa + qb);
    SameRemainder(a - b, ra - rb, m, qa - qb);
  }

  lemma ProductReduces(a: int, b: int, m: nat)
    requires m > 0
    ensures (a * b) % m == (a % m * (b % m)) % m
  {
    var qa, ra, qb, rb := a / m, a % m, b / m, b % m;
    assert a == m * qa + ra && b == m * qb + rb;
    ProductOfSums(m, qa, ra, qb, rb);
    SameRemainder(a * b, ra * rb, m, qa * b + ra * qb);
  }

  lemma ProductOfSums(m: int, qa: int, ra: int, qb: int, rb: int)
    ensures (m * qa + ra) * (m * qb + rb) == ra * rb + m * (qa * (m * qb + rb) + ra * qb)
  {
    var b := m * qb + rb;
    assert (m * qa + ra) * b == m * qa * b + ra * b;
    assert ra * b == ra * (m * qb) + ra * rb;
    assert ra * (m * qb) == m * (ra * qb);
    assert m * qa * b == m * (qa * b);
    assert m * (qa * b + ra * qb) == m * (qa * b) + m * (ra * qb);
  }

  /** Computing on reduced operands and reducing the result, or reducing it alone. */
  predicate Commutes(op: BinOp, a: int, b: int, n: nat) {
    var m := Power2(n);
    var wide, reduced := Evaluate(op, a, b), Evaluate(op, a % m, b % m);
    wide.Some? && reduced.Some? && wide.value % m == reduced.value % m
  }

  lemma ModularCommutes(op: BinOp, a: int, b: int, n: nat)
    requires IsModular(op)
    ensures Commutes(op, a, b, n)
  {
    hide Bitwise;
    if op in {BitAnd, BitOr, BitXor} {
      BitwiseReduces(op, a, b, n);
    } else {
      SumReduces(a, b, Power2(n));
      ProductReduces(a, b, Power2(n));
    }
  }

  /** Where both sides have a value, they agree after reduction. */
  predicate Agrees(op: BinOp, a: int, b: int, n: nat) {
    var m := Power2(n);
    var wide, reduced := Evaluate(op, a, b), Evaluate(op, a % m, b % m);
    wide.Some? && reduced.Some? ==> wide.value % m == reduced.value % m
  }

  /** Operands on which an operator that is not admitted disagrees, at `n` bits. */
  function Witness(op: BinOp, n: nat): (nat, nat)
    requires !IsModular(op)
  {
    var m := Power2(n);
    if op == FloorDiv then (2 * m, m + 1)
    else if op == Mod then (1, m + 1)
    else if op in {Lt, GtEq} then (0, m)
    else if op in {And, Shr} then (m, 1)
    else if op == Shl then (1, m)
    else if op == Pow then (2, m)
    else (m, 0)
  }

  /** Both sides have a value, and the values differ after reduction. */
  predicate Disagrees(op: BinOp, a: int, b: int, n: nat) {
    var m := Power2(n);
    var wide, reduced := Evaluate(op, a, b), Evaluate(op, a % m, b % m);
    wide.Some? && reduced.Some? && wide.value % m != reduced.value % m
  }

  /** Every other operator fails, with both sides defined, at every width of a bit or more. */
  lemma WitnessDisagrees(op: BinOp, n: nat)
    requires !IsModular(op) && n >= 1
    ensures var (a, b) := Witness(op, n); Disagrees(op, a, b, n)
  {
    hide Power2, Disagrees;
    DivisionDisagrees(n);
    RemainderDisagrees(n);
    CountsDisagree(n);
    if op !in {FloorDiv, Mod, Shl, Shr, Pow} {
      TruthDisagrees(op, n);
    }
  }

  lemma DivisionDisagrees(n: nat)
    requires n >= 1
    ensures Disagrees(FloorDiv, 2 * Power2(n), Power2(n) + 1, n)
  {
    hide Power2;
    SmallRemainders(n);
    QuotientIs(2 * Power2(n), Power2(n) + 1, 1, Power2(n) - 1);
    QuotientIs(0, 1, 0, 0);
  }

  lemma RemainderDisagrees(n: nat)
    requires n >= 1
    ensures Disagrees(Mod, 1, Power2(n) + 1, n)
  {
    hide Power2;
    SmallRemainders(n);
    ModIs(1, Power2(n) + 1, 0, 1);
    ModIs(1, 1, 1, 0);
  }

  lemma CountsDisagree(n: nat)
    requires n >= 1
    ensures Disagrees(Shl, 1, Power2(n), n) && Disagrees(Shr, Power2(n), 1, n) && Disagrees(Pow, 2, Power2(n), n)
  {
    hide Power2, Evaluate;
    var m := Power2(n);
    SmallRemainders(n);
    PowerReaches(n);
    HalfPower(n);
    CountedValues(m, 2 % m);
  }

  /** What the counted operators make of a count of `m`, of one and of zero. */
  lemma CountedValues(m: nat, r: nat)
    ensures Evaluate(Shl, 1, m) == Some(Power2(m)) && Evaluate(Shl, 1, 0) == Some(1)
    ensures Evaluate(Shr, m, 1) == Some(m / Power2(1)) && Evaluate(Shr, 0, 1) == Some(0 / Power2(1))
    ensures Evaluate(Pow, 2, m) == Some(Power2(m)) && Evaluate(Pow, r, 0) == Some(1)
  {
    hide Power2, Power;
    PowerOfTwo(m);
    PowerOfNothing(r);
  }

  lemma TruthDisagrees(op: BinOp, n: nat)
    requires !IsModular(op) && op !in {FloorDiv, Mod, Shl, Shr, Pow} && n >= 1
    ensures var (a, b) := Witness(op, n); Disagrees(op, a, b, n)
  {
    hide Power2;
    SmallRemainders(n);
  }

  lemma SmallRemainders(n: nat)
    requires n >= 1
    ensures var m := Power2(n); m >= 2 && m % m == 0 && 2 * m % m == 0 && 0 % m == 0 && 1 % m == 1 && (m + 1) % m == 1
  {
    var m := Power2(n);
    assert m == 2 * Power2(n - 1);
    ModIs(m, m, 1, 0);
    ModIs(2 * m, m, 2, 0);
    ModIs(0, m, 0, 0);
    ModIs(1, m, 0, 1);
    ModIs(m + 1, m, 1, 1);
  }

  lemma PowerOfNothing(a: int)
    ensures Power(a, 0) == 1 && Power2(0) == 1
  {
  }

  lemma HalfPower(n: nat)
    requires n >= 1
    ensures Power2(n) / Power2(1) % Power2(n) != 0 && 0 / Power2(1) == 0
  {
    var m, h := Power2(n), Power2(n - 1);
    assert Power2(1) == 2 * Power2(0) && Power2(0) == 1;
    assert m == 2 * h;
    QuotientIs(m, 2, h, 0);
    ModIs(h, m, 0, h);
  }

  lemma QuotientIs(a: int, d: nat, q: int, r: nat)
    requires d > 0 && a == d * q + r && r < d
    ensures a / d == q
  {
    ModIs(a, d, q, r);
    var k := a / d - q;
    assert d * (a / d) == d * q;
    assert k * d == 0;
    if k != 0 {
      ScaledBound(k, d);
    }
  }

  lemma {:induction false} PowerOfTwo(b: nat)
    ensures Power(2, b) == Power2(b)
  {
    if b > 0 {
      PowerOfTwo(b - 1);
    }
  }

  /** Two to the width, and two to that: the second is a multiple of the first. */
  lemma PowerReaches(n: nat)
    ensures Power2(Power2(n)) % Power2(n) == 0
  {
    Exceeds(n);
    PowerSum(n, Power2(n) - n);
    ModIs(Power2(Power2(n)), Power2(n), Power2(Power2(n) - n), 0);
  }

  lemma {:induction false} Exceeds(n: nat)
    ensures Power2(n) > n
  {
    if n > 0 {
      Exceeds(n - 1);
    }
  }

  lemma {:induction false} PowerSum(a: nat, b: nat)
    ensures Power2(a + b) == Power2(a) * Power2(b)
  {
    if a > 0 {
      PowerSum(a - 1, b);
      var x, y := Power2(a - 1), Power2(b);
      assert Power2(a + b) == 2 * Power2(a - 1 + b) && Power2(a) == 2 * x;
      Doubled(x, y);
    }
  }

  lemma Doubled(x: int, y: int)
    ensures 2 * (x * y) == 2 * x * y
  {
  }

  /**
   * At every width the admitted operators are exactly those that agree with reduction wherever both sides are
   * defined; at width zero there is nothing to disagree about.
   */
  lemma ModularExactly(op: BinOp, n: nat)
    ensures IsModular(op) || n == 0 <==> forall a: nat, b: nat :: Agrees(op, a, b, n)
  {
    hide Bitwise, Evaluate;
    if IsModular(op) {
      forall a: nat, b: nat ensures Agrees(op, a, b, n) {
        ModularCommutes(op, a, b, n);
      }
    } else if n > 0 {
      WitnessDisagrees(op, n);
      var (a, b) := Witness(op, n);
      assert Disagrees(op, a, b, n);
      assert !Agrees(op, a, b, n);
    }
  }

  // ---- expression trees ----

  datatype Tree = Leaf(value: int) | Node(op: BinOp, left: Tree, right: Tree)

  predicate Admitted(t: Tree) {
    t.Node? ==> IsModular(t.op) && Admitted(t.left) && Admitted(t.right)
  }

  /** Over the integers. */
  function Value(t: Tree): int
    requires Admitted(t)
  {
    match t
    case Leaf(v) => v
    case Node(op, l, r) => Evaluate(op, Value(l), Value(r)).value
  }

  /** With every leaf and every intermediate result reduced to `n` bits. */
  function MachineValue(t: Tree, n: nat): (v: int)
    requires Admitted(t)
    ensures 0 <= v < Power2(n)
  {
    match t
    case Leaf(v) => v % Power2(n)
    case Node(op, l, r) => Evaluate(op, MachineValue(l, n), MachineValue(r, n)).value % Power2(n)
  }

  /** Machine arithmetic on a whole tree is integer arithmetic reduced once, at every width. */
  lemma {:induction false} MachineIsReducedInteger(t: Tree, n: nat)
    requires Admitted(t)
    ensures MachineValue(t, n) == Value(t) % Power2(n)
  {
    hide Evaluate;
    if t.Node? {
      MachineIsReducedInteger(t.left, n);
      MachineIsReducedInteger(t.right, n);
      ModularCommutes(t.op, Value(t.left), Value(t.right), n);
    }
  }

  // ---- folds ----

  /** The value on `n`-bit operands: wrapping arithmetic, bits as they are, logic on truthiness. */
  function Wrapped(op: BinOp, a: int, b: int, n: nat): int
    requires IsReorderable(op)
  {
    if op == And then if a != 0 && b != 0 then 1 else 0
    else if op == Or then if a != 0 || b != 0 then 1 else 0
    else if op == Add then (a + b) % Power2(n)
    else if op == Mul then (a * b) % Power2(n)
    else Bitwise(op, a, b)
  }

  lemma {:induction false} BitwiseCommutes(op: BinOp, a: int, b: int)
    requires op in {BitAnd, BitOr, BitXor}
    ensures Bitwise(op, a, b) == Bitwise(op, b, a)
    decreases Size(a) + Size(b)
  {
    if !(a in {0, -1} && b in {0, -1}) {
      BitwiseCommutes(op, a / 2, b / 2);
    }
  }

  lemma {:induction false} BitwiseAssociates(op: BinOp, a: int, b: int, c: int)
    requires op in {BitAnd, BitOr, BitXor}
    ensures Bitwise(op, Bitwise(op, a, b), c) == Bitwise(op, a, Bitwise(op, b, c))
    decreases Size(a) + Size(b) + Size(c)
  {
    hide Bitwise, BitOf, Size;
    if a in {0, -1} && b in {0, -1} && c in {0, -1} {
      BitwiseOfSigns(op, a, b);
      BitwiseOfSigns(op, b, c);
      BitOfAssociates(op, -a, -b, -c);
      BitwiseOfSigns(op, Bitwise(op, a, b), c);
      BitwiseOfSigns(op, a, Bitwise(op, b, c));
    } else {
      SizeHalves(a);
      SizeHalves(b);
      SizeHalves(c);
      BitwiseParts(op, a, b);
      BitwiseParts(op, b, c);
      BitwiseStep(op, Bitwise(op, a, b), c);
      BitwiseStep(op, a, Bitwise(op, b, c));
      BitwiseAssociates(op, a / 2, b / 2, c / 2);
      BitOfAssociates(op, a % 2, b % 2, c % 2);
    }
  }

  lemma BitwiseOfSigns(op: BinOp, a: int, b: int)
    requires a in {0, -1} && b in {0, -1}
    ensures Bitwise(op, a, b) == -BitOf(op, -a, -b) && Bitwise(op, a, b) in {0, -1}
  {
  }

  lemma SizeHalves(a: int)
    ensures Size(a / 2) <= Size(a)
    ensures a !in {0, -1} ==> Size(a / 2) < Size(a)
  {
  }

  lemma BitwiseParts(op: BinOp, a: int, b: int)
    requires op in {BitAnd, BitOr, BitXor}
    ensures Bitwise(op, a, b) / 2 == Bitwise(op, a / 2, b / 2) && Bitwise(op, a, b) % 2 == BitOf(op, a % 2, b % 2)
  {
    hide Bitwise;
    BitwiseStep(op, a, b);
    HalfAndBit(Bitwise(op, a / 2, b / 2), BitOf(op, a % 2, b % 2));
  }

  lemma BitOfAssociates(op: BinOp, x: int, y: int, z: int)
    requires op in {BitAnd, BitOr, BitXor} && 0 <= x <= 1 && 0 <= y <= 1 && 0 <= z <= 1
    ensures BitOf(op, BitOf(op, x, y), z) == BitOf(op, x, BitOf(op, y, z))
  {
  }

  /** Two steps of a fold may be exchanged. */
  lemma Exchange(op: BinOp, s: int, x: int, y: int, n: nat)
    requires IsReorderable(op)
    ensures Wrapped(op, Wrapped(op, s, x, n), y, n) == Wrapped(op, Wrapped(op, s, y, n), x, n)
  {
    hide Bitwise;
    var m := Power2(n);
    match op {
      case Add =>
        AddOnReduced(s + x, y, m);
        AddOnReduced(s + y, x, m);
      case Mul =>
        MulOnReduced(s * x, y, m);
        MulOnReduced(s * y, x, m);
        assert s * x * y == s * y * x;
      case And =>
      case Or =>
      case _ =>
        BitwiseAssociates(op, s, x, y);
        BitwiseAssociates(op, s, y, x);
        BitwiseCommutes(op, x, y);
    }
  }

  lemma AddOnReduced(a: int, b: int, m: nat)
    requires m > 0
    ensures (a % m + b) % m == (a + b) % m
  {
    assert a == m * (a / m) + a % m;
    SameRemainder(a + b, a % m + b, m, a / m);
  }

  lemma MulOnReduced(a: int, b: int, m: nat)
    requires m > 0
    ensures (a % m * b) % m == (a * b) % m
  {
    assert a == m * (a / m) + a % m;
    assert a * b == m * (a / m) * b + a % m * b;
    assert m * (a / m) * b == m * (a / m * b);
    SameRemainder(a * b, a % m * b, m, a / m * b);
  }

  /** `acc = acc OP e` over the elements in turn. */
  function Fold(op: BinOp, start: int, xs: seq<int>, n: nat): int
    requires IsReorderable(op)
  {
    if xs == [] then start else Wrapped(op, Fold(op, start, xs[..|xs| - 1], n), xs[|xs| - 1], n)
  }

  lemma FoldLast(op: BinOp, start: int, xs: seq<int>, x: int, n: nat)
    requires IsReorderable(op)
    ensures Fold(op, start, xs + [x], n) == Wrapped(op, Fold(op, start, xs, n), x, n)
  {
    assert (xs + [x])[..|xs|] == xs;
  }

  /** An element may be moved to the end. */
  lemma {:induction false} MoveLast(op: BinOp, start: int, a: seq<int>, x: int, b: seq<int>, n: nat)
    requires IsReorderable(op)
    ensures Fold(op, start, a + [x] + b, n) == Fold(op, start, a + b + [x], n)
    decreases |b|
  {
    hide Fold, Wrapped;
    if b == [] {
      assert a + [x] + b == a + b + [x];
    } else {
      var init, y := b[..|b| - 1], b[|b| - 1];
      assert a + [x] + b == a + [x] + init + [y];
      assert a + b + [x] == a + init + [y] + [x];
      MoveLast(op, start, a, x, init, n);
      FoldLast(op, start, a + [x] + init, y, n);
      FoldLast(op, start, a + init, x, n);
      FoldLast(op, start, a + init, y, n);
      FoldLast(op, start, a + init + [y], x, n);
      Exchange(op, Fold(op, start, a + init, n), x, y, n);
    }
  }

  lemma SameWithout(init: seq<int>, a: seq<int>, b: seq<int>, x: int)
    requires multiset(init + [x]) == multiset(a + [x] + b)
    ensures multiset(init) == multiset(a + b)
  {
    assert multiset(init) == multiset(init + [x]) - multiset{x};
    assert multiset(a + b) == multiset(a + [x] + b) - multiset{x};
  }

  /** Any reordering of the elements folds to the same result, at any width. */
  lemma {:induction false} ReorderedFold(op: BinOp, start: int, xs: seq<int>, ys: seq<int>, n: nat)
    requires IsReorderable(op) && multiset(xs) == multiset(ys)
    ensures Fold(op, start, xs, n) == Fold(op, start, ys, n)
    decreases |xs|
  {
    hide Fold, Wrapped;
    assert |xs| == |multiset(xs)| && |ys| == |multiset(ys)|;
    if xs != [] {
      var init, x := xs[..|xs| - 1], xs[|xs| - 1];
      assert xs == init + [x];
      assert x in multiset(xs);
      var i :| 0 <= i < |ys| && ys[i] == x;
      var a, b := ys[..i], ys[i + 1..];
      assert ys == a + [x] + b;
      SameWithout(init, a, b, x);
      ReorderedFold(op, start, init, a + b, n);
      MoveLast(op, start, a, x, b, n);
      FoldLast(op, start, init, x, n);
      FoldLast(op, start, a + b, x, n);
    } else {
      assert ys == [];
    }
  }
}
