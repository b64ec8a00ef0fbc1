/** The translation-time integer evaluator `integerConstantValue` and its three
    overflow-checked operations. */
module Constants {
  import opened Options
  import opened Primitives
  import opened Ast

  const LONG_BITS := 64

  predicate InLong(x: int) {
    LONG_MIN <= x <= LONG_MAX
  }

  function Abs(x: int): nat {
    if x < 0 then -x else x
  }

  /** C division: the quotient is truncated toward zero. */
  function TruncDiv(a: int, b: int): int
    requires b != 0
  {
    var magnitude := Abs(a) / Abs(b);
    if (a < 0) == (b < 0) then magnitude else -magnitude
  }

  /** C remainder: takes the sign of the dividend. */
  function TruncMod(a: int, b: int): int
    requires b != 0
  {
    a - b * TruncDiv(a, b)
  }

  function Pow2(n: nat): (p: nat)
    ensures p > 0
  {
    if n == 0 then 1 else 2 * Pow2(n - 1)
  }

  function BoolValue(b: bool): long {
    if b then 1 else 0
  }

  // ----- overflow-checked arithmetic, test by test as written -----

  function CheckedAdd(lhs: long, rhs: long): (r: Option<long>)
    ensures r == if InLong(lhs + rhs) then Some(lhs + rhs) else None
  {
    if (rhs > 0 && lhs > LONG_MAX - rhs) || (rhs < 0 && lhs < LONG_MIN - rhs) then None
    else Some(lhs + rhs)
  }

  function CheckedSub(lhs: long, rhs: long): (r: Option<long>)
    ensures r == if InLong(lhs - rhs) then Some(lhs - rhs) else None
  {
    if (rhs < 0 && lhs > LONG_MAX + rhs) || (rhs > 0 && lhs < LONG_MIN + rhs) then None
    else Some(lhs - rhs)
  }

  /** The product must fit exactly when no division test rejects it. */
  function CheckedMul(lhs: long, rhs: long): (r: Option<long>)
    ensures r == if InLong(lhs * rhs) then Some(lhs * rhs) else None
  {
    if lhs == 0 || rhs == 0 then Some(0)
    else if (lhs == -1 && rhs == LONG_MIN) || (rhs == -1 && lhs == LONG_MIN) then None
    else
      var overflows :=
        if lhs > 0 then
          if rhs > 0 then lhs > TruncDiv(LONG_MAX, rhs) else rhs < TruncDiv(LONG_MIN, lhs)
        else
          if rhs > 0 then lhs < TruncDiv(LONG_MIN, rhs) else lhs < TruncDiv(LONG_MAX, rhs);
      MulTests(lhs, rhs);
      if overflows then None else Some(lhs * rhs)
  }

  lemma MulTests(lhs: int, rhs: int)
    requires lhs != 0 && rhs != 0
    ensures lhs > 0 && rhs > 0 ==> (lhs > TruncDiv(LONG_MAX, rhs) <==> lhs * rhs > LONG_MAX)
    ensures lhs > 0 && rhs < 0 ==> (rhs < TruncDiv(LONG_MIN, lhs) <==> lhs * rhs < LONG_MIN)
    ensures lhs < 0 && rhs > 0 ==> (lhs < TruncDiv(LONG_MIN, rhs) <==> lhs * rhs < LONG_MIN)
    ensures lhs < 0 && rhs < 0 ==> (lhs < TruncDiv(LONG_MAX, rhs) <==> lhs * rhs > LONG_MAX)
    ensures (lhs > 0) == (rhs > 0) ==> lhs * rhs > 0
    ensures (lhs > 0) != (rhs > 0) ==> lhs * rhs < 0
  {
    if lhs > 0 && rhs > 0 {
      QuotientBounds(LONG_MAX, lhs, rhs);
    } else if lhs > 0 {
      QuotientBounds(-LONG_MIN, -rhs, lhs);
      assert (-rhs) * lhs == -(lhs * rhs);
    } else if rhs > 0 {
      QuotientBounds(-LONG_MIN, -lhs, rhs);
      assert (-lhs) * rhs == -(lhs * rhs);
    } else {
      QuotientBounds(LONG_MAX, -lhs, -rhs);
      assert (-lhs) * (-rhs) == lhs * rhs;
    }
  }

  lemma QuotientBounds(limit: nat, a: int, b: int)
    requires a > 0 && b > 0
    ensures a > limit / b <==> a * b > limit
    ensures a * b > 0
  {
    var q := limit / b;
    assert limit == q * b + limit % b;
    if a > q {
      assert a * b >= (q + 1) * b;
    } else {
      assert a * b <= q * b;
    }
  }

  // ----- bitwise operations on two's complement numbers -----

  function BitOf(op: BinOp, x: int, y: int): (bit: int)
    ensures 0 <= bit <= 1
  {
    match op
    case BitAnd => if x == 1 && y == 1 then 1 else 0
    case BitXor => if x != y then 1 else 0
    case _ => if x == 1 || y == 1 then 1 else 0
  }

  /** Distance from the all-zeros or all-ones pattern. */
  function Magnitude(x: int): nat {
    if x < 0 then -x - 1 else x
  }

  /** Bit-by-bit combination of two unbounded two's complement numbers. */
  function IdealBits(op: BinOp, x: int, y: int): int
    decreases Magnitude(x) + Magnitude(y)
  {
    if Magnitude(x) == 0 && Magnitude(y) == 0 then -BitOf(op, x % 2, y % 2)
    else 2 * IdealBits(op, x / 2, y / 2) + BitOf(op, x % 2, y % 2)
  }

  /** The same on a register of `width` bits, whose top bit carries the sign. */
  function MachineBits(op: BinOp, width: nat, x: int, y: int): int
    requires width >= 1
  {
    if width == 1 then -BitOf(op, x % 2, y % 2)
    else 2 * MachineBits(op, width - 1, x / 2, y / 2) + BitOf(op, x % 2, y % 2)
  }

  lemma AppendBit(high: int, bit: int, bound: nat)
    requires 0 <= bit <= 1 && Magnitude(high) < bound
    ensures Magnitude(2 * high + bit) < 2 * bound
  {
  }

  lemma Halved(x: int)
    ensures Magnitude(x / 2) == Magnitude(x) / 2
    ensures Magnitude(x) == 0 ==> x / 2 == x
  {
  }

  /** Two numbers that are all sign bit. */
  lemma {:induction false} SignPattern(op: BinOp, width: nat, x: int, y: int)
    requires width >= 1 && x / 2 == x && y / 2 == y
    ensures MachineBits(op, width, x, y) == -BitOf(op, x % 2, y % 2)
  {
    if width > 1 {
      SignPattern(op, width - 1, x, y);
    }
  }

  /** A register operation on operands that fit gives the unbounded result, which fits. */
  lemma {:induction false} MachineBitsExact(op: BinOp, width: nat, x: int, y: int)
    requires width >= 1
    requires Magnitude(x) < Pow2(width - 1) && Magnitude(y) < Pow2(width - 1)
    ensures MachineBits(op, width, x, y) == IdealBits(op, x, y)
    ensures Magnitude(IdealBits(op, x, y)) < Pow2(width - 1)
  {
    Halved(x);
    Halved(y);
    if Magnitude(x) == 0 && Magnitude(y) == 0 {
      SignPattern(op, width, x, y);
    } else {
      var high, bit := IdealBits(op, x / 2, y / 2), BitOf(op, x % 2, y % 2);
      MachineBitsExact(op, width - 1, x / 2, y / 2);
      AppendBit(high, bit, Pow2(width - 2));
      assert IdealBits(op, x, y) == 2 * high + bit;
    }
  }

  lemma SignBit()
    ensures Pow2(LONG_BITS - 1) == -LONG_MIN
  {
    assert Pow2(7) == 0x80 && Pow2(8) == 0x100;
    PowSum(8, 7);
    PowSum(8, 8);
    PowSum(16, 15);
    PowSum(16, 16);
    PowSum(32, 31);
  }

  lemma {:induction false} PowSum(a: nat, b: nat)
    ensures Pow2(a + b) == Pow2(a) * Pow2(b)
  {
    if a > 0 {
      PowSum(a - 1, b);
      Twice(Pow2(a - 1), Pow2(b));
    }
  }

  lemma Twice(x: int, y: int)
    ensures 2 * (x * y) == (2 * x) * y
  {
  }

  function LongBits(op: BinOp, x: long, y: long): (r: long)
    ensures r == IdealBits(op, x, y)
  {
    SignBit();
    MachineBitsExact(op, LONG_BITS, x, y);
    MachineBits(op, LONG_BITS, x, y)
  }

  // ----- the evaluator -----

  function IntegerConstantValue(e: Expr): Option<long> {
    match e
    case IntLit(value) => Some(value)
    case BoolLit(flag) => Some(BoolValue(flag))
    case Unary(op, rhs) =>
      var v := IntegerConstantValue(rhs);
      if v.None? then None else ApplyUnary(op, v.value)
    case Binary(op, lhs, rhs) =>
      var l := IntegerConstantValue(lhs);
      if l.None? then None
      else if op.And? && l.value == 0 then Some(0)
      else if op.Or? && l.value != 0 then Some(1)
      else
        var r := IntegerConstantValue(rhs);
        if r.None? then None else ApplyBinary(op, l.value, r.value)
    case Conditional(whenTrue, condition, whenFalse) =>
      var c := IntegerConstantValue(condition);
      if c.None? then None
      else if c.value != 0 then IntegerConstantValue(whenTrue)
      else IntegerConstantValue(whenFalse)
    case _ => None
  }

  function ApplyUnary(op: UnaryOp, v: long): Option<long> {
    match op
    case Not => Some(BoolValue(v == 0))
    case BitNot => Some(-1 - v)
    case Neg => if v == LONG_MIN then None else Some(-v)
  }

  function ApplyBinary(op: BinOp, l: long, r: long): Option<long> {
    match op
    case Add => CheckedAdd(l, r)
    case Sub => CheckedSub(l, r)
    case Mul => CheckedMul(l, r)
    case Div =>
      if r == 0 || (l == LONG_MIN && r == -1) then None
      else QuotientFits(l, r); Some(TruncDiv(l, r))
    case Mod =>
      if r == 0 || (l == LONG_MIN && r == -1) then None
      else RemainderFits(l, r); Some(TruncMod(l, r))
    case ShiftLeft =>
      if l < 0 || r < 0 || r >= LONG_BITS then None
      else if l > LONG_MAX / Pow2(r) then None
      else QuotientBounds(LONG_MAX, if l == 0 then 1 else l, Pow2(r)); Some(l * Pow2(r))
    case ShiftRight =>
      if r < 0 || r >= LONG_BITS then None
      else ShiftFits(l, Pow2(r)); Some(l / Pow2(r))
    case Gt => Some(BoolValue(l > r))
    case Lt => Some(BoolValue(l < r))
    case Eq => Some(BoolValue(l == r))
    case Ne => Some(BoolValue(l != r))
    case Ge => Some(BoolValue(l >= r))
    case Le => Some(BoolValue(l <= r))
    case BitAnd => Some(LongBits(op, l, r))
    case BitXor => Some(LongBits(op, l, r))
    case BitOr => Some(LongBits(op, l, r))
    case And => Some(BoolValue(r != 0))
    case Or => Some(BoolValue(r != 0))
    case Comma => Some(r)
  }

  lemma QuotientShrinks(a: int, b: int)
    requires a >= 0 && b > 0
    ensures 0 <= a / b <= a
    ensures b >= 2 ==> 2 * (a / b) <= a
    ensures 0 <= a - b * (a / b) < b
  {
    var q, r := a / b, a % b;
    assert a == b * q + r && 0 <= r < b;
    assert q >= 0;
    ProductBound(q, b);
  }

  lemma ProductBound(q: nat, b: int)
    requires b > 0
    ensures q <= b * q
    ensures b >= 2 ==> 2 * q <= b * q
  {
    assert b * q == q + (b - 1) * q;
    assert b >= 2 ==> b * q == 2 * q + (b - 2) * q;
  }

  lemma QuotientFits(l: int, r: int)
    requires InLong(l) && r != 0
    ensures InLong(TruncDiv(l, r)) <==> !(l == LONG_MIN && r == -1)
  {
    QuotientShrinks(Abs(l), Abs(r));
  }

  lemma RemainderFits(l: int, r: int)
    requires InLong(l) && InLong(r) && r != 0
    ensures InLong(TruncMod(l, r))
    ensures Abs(TruncMod(l, r)) < Abs(r)
  {
    QuotientShrinks(Abs(l), Abs(r));
    var q: int := Abs(l) / Abs(r);
    assert r * TruncDiv(l, r) == if l < 0 then -(Abs(r) * q) else Abs(r) * q;
  }

  lemma Scaled(x: int, p: int)
    requires p > 0
    ensures x >= 0 ==> x * p >= x
    ensures x <= 0 ==> x * p <= x
  {
    assert x * p == x + x * (p - 1);
  }

  lemma ShiftFits(l: int, p: int)
    requires InLong(l) && p > 0
    ensures InLong(l / p)
  {
    var q := l / p;
    Scaled(q, p);
    Scaled(q + 1, p);
    FloorBounds(l, p);
  }

  lemma FloorBounds(l: int, p: int)
    requires p > 0
    ensures (l / p) * p <= l < (l / p + 1) * p
  {
    assert l == (l / p) * p + l % p;
  }

  // ----- what the expression means -----

  type Store = map<string, int>

  /** The mathematical result of one operation; None when C leaves it undefined. */
  function Mathematical(op: BinOp, l: int, r: int): Option<int> {
    match op
    case Add => Some(l + r)
    case Sub => Some(l - r)
    case Mul => Some(l * r)
    case Div => if r == 0 then None else Some(TruncDiv(l, r))
    case Mod => if r == 0 || !InLong(TruncDiv(l, r)) then None else Some(TruncMod(l, r))
    case ShiftLeft => if l < 0 || r < 0 || r >= LONG_BITS then None else Some(l * Pow2(r))
    case ShiftRight => if r < 0 || r >= LONG_BITS then None else Some(l / Pow2(r))
    case Gt => Some(BoolValue(l > r))
    case Lt => Some(BoolValue(l < r))
    case Eq => Some(BoolValue(l == r))
    case Ne => Some(BoolValue(l != r))
    case Ge => Some(BoolValue(l >= r))
    case Le => Some(BoolValue(l <= r))
    case BitAnd => Some(IdealBits(op, l, r))
    case BitXor => Some(IdealBits(op, l, r))
    case BitOr => Some(IdealBits(op, l, r))
    case And => Some(BoolValue(l != 0 && r != 0))
    case Or => Some(BoolValue(l != 0 || r != 0))
    case Comma => Some(r)
  }

  function Representable(v: Option<int>): Option<int> {
    if v.Some? && InLong(v.value) then v else None
  }

  /** Evaluation over unbounded integers: None as soon as an evaluated step is
      undefined or leaves the range of long.  Operands that C does not evaluate
      are not looked at. */
  function Evaluate(e: Expr, store: Store): Option<int> {
    match e
    case IntLit(value) => Some(value)
    case BoolLit(flag) => Some(BoolValue(flag))
    case VarRef(name) => if name in store then Representable(Some(store[name])) else None
    case Unary(op, rhs) =>
      var v := Evaluate(rhs, store);
      if v.None? then None
      else (
        match op
        case Not => Some(BoolValue(v.value == 0))
        case Neg => Representable(Some(-v.value))
        case BitNot => Representable(Some(-v.value - 1))
      )
    case Binary(op, lhs, rhs) =>
      var l := Evaluate(lhs, store);
      if l.None? then None
      else if (op.And? && l.value == 0) || (op.Or? && l.value != 0) then Some(BoolValue(op.Or?))
      else
        var r := Evaluate(rhs, store);
        if r.None? then None else Representable(Mathematical(op, l.value, r.value))
    case Conditional(whenTrue, condition, whenFalse) =>
      var c := Evaluate(condition, store);
      if c.None? then None
      else if c.value != 0 then Evaluate(whenTrue, store)
      else Evaluate(whenFalse, store)
    case _ => None
  }

  lemma ApplyBinaryExact(op: BinOp, l: long, r: long)
    requires op.And? ==> l != 0
    requires op.Or? ==> l == 0
    ensures ApplyBinary(op, l, r) == Representable(Mathematical(op, l, r))
  {
    match op
    case Div => if r != 0 { QuotientFits(l, r); }
    case Mod => if r != 0 { QuotientFits(l, r); RemainderFits(l, r); }
    case ShiftLeft => if 0 <= r < LONG_BITS { LeftShiftExact(l, r); }
    case ShiftRight => if 0 <= r < LONG_BITS { ShiftFits(l, Pow2(r)); }
    case BitAnd => BitsExact(op, l, r);
    case BitXor => BitsExact(op, l, r);
    case BitOr => BitsExact(op, l, r);
    case _ =>
  }

  lemma LeftShiftExact(l: long, r: nat)
    requires r < LONG_BITS
    ensures l > 0 ==> (l > LONG_MAX / Pow2(r) <==> l * Pow2(r) > LONG_MAX) && l * Pow2(r) > 0
  {
    if l > 0 { QuotientBounds(LONG_MAX, l, Pow2(r)); }
  }

  lemma BitsExact(op: BinOp, l: long, r: long)
    ensures LongBits(op, l, r) == IdealBits(op, l, r) && InLong(IdealBits(op, l, r))
  {
  }

  /** The evaluator yields v exactly when evaluation that may read no object yields v
      with every evaluated step defined and in range. */
  lemma {:induction false} ConstantValueExact(e: Expr)
    ensures IntegerConstantValue(e) == Evaluate(e, map[])
  {
    match e
    case Unary(op, rhs) => ConstantValueExact(rhs);
    case Binary(op, lhs, rhs) =>
      ConstantValueExact(lhs);
      ConstantValueExact(rhs);
      var l, r := IntegerConstantValue(lhs), IntegerConstantValue(rhs);
      if l.Some? && r.Some? && !(op.And? && l.value == 0) && !(op.Or? && l.value != 0) {
        ApplyBinaryExact(op, l.value, r.value);
      }
    case Conditional(whenTrue, condition, whenFalse) =>
      ConstantValueExact(whenTrue);
      ConstantValueExact(condition);
      ConstantValueExact(whenFalse);
    case _ =>
  }

  lemma {:induction false} EvaluateMonotone(e: Expr, store: Store)
    requires Evaluate(e, map[]).Some?
    ensures Evaluate(e, store) == Evaluate(e, map[])
  {
    match e
    case Unary(op, rhs) => EvaluateMonotone(rhs, store);
    case Binary(op, lhs, rhs) =>
      EvaluateMonotone(lhs, store);
      if Evaluate(rhs, map[]).Some? { EvaluateMonotone(rhs, store); }
    case Conditional(whenTrue, condition, whenFalse) =>
      EvaluateMonotone(condition, store);
      if Evaluate(condition, map[]).value != 0 {
        EvaluateMonotone(whenTrue, store);
      } else {
        EvaluateMonotone(whenFalse, store);
      }
    case _ =>
  }

  /** A constant has its translation-time value at run time, whatever the store holds. */
  lemma ConstantHoldsInEveryStore(e: Expr, store: Store)
    requires IntegerConstantValue(e).Some?
    ensures Evaluate(e, store) == IntegerConstantValue(e)
  {
    ConstantValueExact(e);
    EvaluateMonotone(e, store);
  }

  predicate IsConstTruthy(e: Expr) {
    var v := IntegerConstantValue(e);
    v.Some? && v.value != 0
  }

  /** A test is taken for true for good exactly when some non-zero number is its value in
      every store. */
  lemma ConstTruthyIff(e: Expr)
    ensures IsConstTruthy(e) <==> exists v :: v != 0 && HasValueEverywhere(e, v)
  {
    ConstantValueExact(e);
    if IsConstTruthy(e) {
      var v := IntegerConstantValue(e).value;
      forall store ensures Evaluate(e, store) == Some(v) { ConstantHoldsInEveryStore(e, store); }
      assert HasValueEverywhere(e, v);
    }
  }

  ghost predicate HasValueEverywhere(e: Expr, v: int) {
    forall store :: Evaluate(e, store) == Some(v)
  }

  // ----- what the operators compute, number by number -----

  lemma LongIs(x: int)
    ensures InLong(x) <==> 0 - Pow2(63) <= x < Pow2(63)
  {
    SignBit();
  }

  /** Bit i of an unbounded two's complement number. */
  function BitAt(x: int, i: nat): int {
    (x / Pow2(i)) % 2
  }

  lemma HalvedQuotient(x: int, p: int)
    requires p > 0
    ensures x / (2 * p) == (x / 2) / p
  {
    var h, b := x / 2, x % 2;
    var q, r := h / p, h % p;
    assert h == p * q + r && x == 2 * h + b;
    assert x == (2 * p) * q + (2 * r + b) by { assert 2 * (p * q) == (2 * p) * q; }
    QuotientIs(x, 2 * p, q, 2 * r + b);
  }

  lemma QuotientIs(x: int, d: int, q: int, r: int)
    requires d > 0 && x == d * q + r && 0 <= r < d
    ensures x / d == q && x % d == r
  {
    var k := x / d - q;
    assert x == d * (x / d) + x % d;
    assert d * k == r - x % d by { assert d * k == d * (x / d) - d * q; }
    if k >= 1 { Scaled(d, k); }
    if k <= -1 { Scaled(d, -k); Negated(d, k); }
  }

  lemma Negated(a: int, b: int)
    ensures a * -b == -(a * b)
  {
  }

  lemma HigherBit(x: int, i: nat)
    requires i > 0
    ensures BitAt(x, i) == BitAt(x / 2, i - 1)
  {
    HalvedQuotient(x, Pow2(i - 1));
  }

  lemma LowestBit(x: int)
    ensures BitAt(x, 0) == x % 2
  {
  }

  /** Bit i of a bitwise result is 1 when both, exactly one or at least one of the bits i of
      the operands are 1. */
  lemma {:induction false} BitwiseAt(op: BinOp, x: int, y: int, i: nat)
    requires op.BitAnd? || op.BitXor? || op.BitOr?
    ensures BitAt(IdealBits(op, x, y), i) == 1 <==>
            match op
            case BitAnd => BitAt(x, i) == 1 && BitAt(y, i) == 1
            case BitXor => (BitAt(x, i) == 1) != (BitAt(y, i) == 1)
            case _ => BitAt(x, i) == 1 || BitAt(y, i) == 1
    decreases i
  {
    var r := IdealBits(op, x, y);
    Halved(x);
    Halved(y);
    LowestBit(x);
    LowestBit(y);
    LowestBit(r);
    if i > 0 {
      HigherBit(x, i);
      HigherBit(y, i);
      HigherBit(r, i);
      BitwiseAt(op, x / 2, y / 2, i - 1);
      HalfOfBits(op, x, y);
    }
  }

  lemma HalfOfBits(op: BinOp, x: int, y: int)
    ensures IdealBits(op, x, y) / 2 == IdealBits(op, x / 2, y / 2)
  {
    Halved(x);
    Halved(y);
  }

  /** The three results keep the sum of their operands between them. */
  lemma {:induction false} BitwiseLaws(x: int, y: int)
    ensures IdealBits(BitAnd, x, y) + IdealBits(BitOr, x, y) == x + y
    ensures IdealBits(BitXor, x, y) + IdealBits(BitAnd, x, y) == IdealBits(BitOr, x, y)
    decreases Magnitude(x) + Magnitude(y)
  {
    Halved(x);
    Halved(y);
    BitLaws(x % 2, y % 2);
    var both, either, one := IdealBits(BitAnd, x, y), IdealBits(BitOr, x, y), IdealBits(BitXor, x, y);
    if Magnitude(x) > 0 || Magnitude(y) > 0 {
      BitwiseLaws(x / 2, y / 2);
      BitsUnfold(BitAnd, x, y);
      BitsUnfold(BitOr, x, y);
      BitsUnfold(BitXor, x, y);
      hide IdealBits, BitOf, Magnitude;
    } else {
      assert both == -BitOf(BitAnd, x % 2, y % 2) && either == -BitOf(BitOr, x % 2, y % 2) && one == -BitOf(BitXor, x % 2, y % 2);
      hide IdealBits, BitOf;
    }
  }

  lemma BitsUnfold(op: BinOp, x: int, y: int)
    requires Magnitude(x) > 0 || Magnitude(y) > 0
    ensures IdealBits(op, x, y) == 2 * IdealBits(op, x / 2, y / 2) + BitOf(op, x % 2, y % 2)
  {
  }

  lemma BitLaws(a: int, b: int)
    requires 0 <= a <= 1 && 0 <= b <= 1
    ensures BitOf(BitAnd, a, b) + BitOf(BitOr, a, b) == a + b
    ensures BitOf(BitXor, a, b) + BitOf(BitAnd, a, b) == BitOf(BitOr, a, b)
  {
  }

  /** Two constant operands are combined by ApplyBinary alone. */
  lemma ConstantApplied(op: BinOp, lhs: Expr, rhs: Expr)
    requires IntegerConstantValue(lhs).Some? && IntegerConstantValue(rhs).Some?
    ensures var l, r := IntegerConstantValue(lhs).value, IntegerConstantValue(rhs).value;
            IntegerConstantValue(Binary(op, lhs, rhs)) ==
            if op.And? && l == 0 then Some(0) else if op.Or? && l != 0 then Some(1) else ApplyBinary(op, l, r)
  {
  }

  lemma NegationApplied(op: UnaryOp, rhs: Expr)
    requires IntegerConstantValue(rhs).Some?
    ensures IntegerConstantValue(Unary(op, rhs)) == ApplyUnary(op, IntegerConstantValue(rhs).value)
  {
  }

  lemma BitwiseApplied(op: BinOp, l: long, r: long)
    requires op.BitAnd? || op.BitXor? || op.BitOr?
    ensures ApplyBinary(op, l, r).Some? && ApplyBinary(op, l, r).value == IdealBits(op, l, r)
  {
  }

  lemma BitRange(x: int, i: nat)
    ensures BitAt(x, i) == 0 || BitAt(x, i) == 1
  {
  }

  /** Every bit of a constant `and`, `xor`, `or` and complement. */
  lemma ConstantBits(lhs: Expr, rhs: Expr, i: nat)
    requires IntegerConstantValue(lhs).Some? && IntegerConstantValue(rhs).Some?
    ensures var x, y := BitAt(IntegerConstantValue(lhs).value, i), BitAt(IntegerConstantValue(rhs).value, i);
            var both, either, one, flipped :=
              IntegerConstantValue(Binary(BitAnd, lhs, rhs)), IntegerConstantValue(Binary(BitOr, lhs, rhs)),
              IntegerConstantValue(Binary(BitXor, lhs, rhs)), IntegerConstantValue(Unary(BitNot, lhs));
            && both.Some? && either.Some? && one.Some? && flipped.Some?
            && (BitAt(both.value, i) == 1 <==> x == 1 && y == 1)
            && (BitAt(either.value, i) == 1 <==> x == 1 || y == 1)
            && (BitAt(one.value, i) == 1 <==> x != y)
            && BitAt(flipped.value, i) == 1 - x
  {
    ConstantApplied(BitAnd, lhs, rhs);
    ConstantApplied(BitOr, lhs, rhs);
    ConstantApplied(BitXor, lhs, rhs);
    NegationApplied(BitNot, lhs);
    hide IntegerConstantValue, BitAt, MachineBits, IdealBits, ApplyBinary;
    var l, r := IntegerConstantValue(lhs).value, IntegerConstantValue(rhs).value;
    BitwiseApplied(BitAnd, l, r);
    BitwiseApplied(BitXor, l, r);
    BitwiseApplied(BitOr, l, r);
    BitRange(l, i);
    BitRange(r, i);
    BitwiseAt(BitAnd, l, r, i);
    BitwiseAt(BitXor, l, r, i);
    BitwiseAt(BitOr, l, r, i);
    Complement(l, i);
  }

  lemma {:induction false} Complement(x: int, i: nat)
    ensures BitAt(-1 - x, i) == 1 - BitAt(x, i)
    decreases i
  {
    if i > 0 {
      HigherBit(x, i);
      HigherBit(-1 - x, i);
      assert (-1 - x) / 2 == -1 - x / 2;
      Complement(x / 2, i - 1);
    } else {
      LowestBit(x);
      LowestBit(-1 - x);
    }
  }

  lemma ConstantBitsSum(lhs: Expr, rhs: Expr)
    requires IntegerConstantValue(lhs).Some? && IntegerConstantValue(rhs).Some?
    ensures var l, r := IntegerConstantValue(lhs).value, IntegerConstantValue(rhs).value;
            var both, either, one :=
              IntegerConstantValue(Binary(BitAnd, lhs, rhs)), IntegerConstantValue(Binary(BitOr, lhs, rhs)),
              IntegerConstantValue(Binary(BitXor, lhs, rhs));
            && both.Some? && either.Some? && one.Some?
            && both.value + either.value == l + r
            && one.value + both.value == either.value
  {
    ConstantApplied(BitAnd, lhs, rhs);
    ConstantApplied(BitOr, lhs, rhs);
    ConstantApplied(BitXor, lhs, rhs);
    hide IntegerConstantValue, MachineBits, IdealBits, ApplyBinary;
    var l, r := IntegerConstantValue(lhs).value, IntegerConstantValue(rhs).value;
    BitwiseApplied(BitAnd, l, r);
    BitwiseApplied(BitXor, l, r);
    BitwiseApplied(BitOr, l, r);
    BitwiseLaws(l, r);
  }

  predicate Divides(l: int, r: int, q: int, m: int) {
    && l == q * r + m
    && (if r < 0 then r < m < -r else -r < m < r)
    && (l >= 0 ==> m >= 0) && (l <= 0 ==> m <= 0)
  }

  /** Quotient and remainder give the dividend back; the remainder is shorter than the
      divisor and never of the other sign than the dividend.  Both are unknown exactly for a
      zero divisor and for the one quotient that does not fit. */
  lemma ConstantDivision(lhs: Expr, rhs: Expr)
    requires IntegerConstantValue(lhs).Some? && IntegerConstantValue(rhs).Some?
    ensures var l, r := IntegerConstantValue(lhs).value, IntegerConstantValue(rhs).value;
            var q, m := IntegerConstantValue(Binary(Div, lhs, rhs)), IntegerConstantValue(Binary(Mod, lhs, rhs));
            && (q.Some? <==> m.Some?)
            && (q.Some? <==> r != 0 && !(l == LONG_MIN && r == -1))
            && (q.Some? && m.Some? ==> Divides(l, r, q.value, m.value))
  {
    ConstantApplied(Div, lhs, rhs);
    ConstantApplied(Mod, lhs, rhs);
    hide IntegerConstantValue;
    var l, r := IntegerConstantValue(lhs).value, IntegerConstantValue(rhs).value;
    if r != 0 && !(l == LONG_MIN && r == -1) {
      DivisionIs(l, r);
    }
  }

  lemma DivisionIs(l: int, r: int)
    requires r != 0
    ensures Divides(l, r, TruncDiv(l, r), TruncMod(l, r))
  {
    QuotientShrinks(Abs(l), Abs(r));
    var q: int := Abs(l) / Abs(r);
    assert r * TruncDiv(l, r) == if l < 0 then -(Abs(r) * q) else Abs(r) * q;
    assert Abs(l) - Abs(r) * q >= 0;
  }

  lemma LeftShiftIs(l: long, r: long)
    ensures var up := ApplyBinary(ShiftLeft, l, r);
            && (up.Some? <==> 0 <= r < 64 && l >= 0 && l * Pow2(r) < Pow2(63))
            && (up.Some? ==> up.value == l * Pow2(r))
  {
    SignBit();
    if 0 <= r < 64 && l >= 0 {
      LeftShiftExact(l, r);
      NotNegative(Pow2(r));
      hide Pow2;
    }
  }

  lemma NotNegative(p: int)
    requires p > 0
    ensures 0 * p == 0 && LONG_MAX / p >= 0
  {
  }

  lemma RightShiftIs(l: long, r: long)
    ensures var down := ApplyBinary(ShiftRight, l, r);
            && (down.Some? <==> 0 <= r < 64)
            && (down.Some? ==> down.value * Pow2(r) <= l < (down.value + 1) * Pow2(r))
  {
    if 0 <= r < 64 {
      FloorBounds(l, Pow2(r));
      hide Pow2;
    }
  }

  /** A left shift multiplies by a power of two; a right shift divides by it and rounds down. */
  lemma ConstantShifts(lhs: Expr, rhs: Expr)
    requires IntegerConstantValue(lhs).Some? && IntegerConstantValue(rhs).Some?
    ensures var l, r := IntegerConstantValue(lhs).value, IntegerConstantValue(rhs).value;
            var up, down := IntegerConstantValue(Binary(ShiftLeft, lhs, rhs)), IntegerConstantValue(Binary(ShiftRight, lhs, rhs));
            && (down.Some? <==> 0 <= r < 64)
            && (up.Some? <==> 0 <= r < 64 && l >= 0 && l * Pow2(r) < Pow2(63))
            && (up.Some? ==> up.value == l * Pow2(r))
            && (down.Some? ==> down.value * Pow2(r) <= l < (down.value + 1) * Pow2(r))
  {
    ConstantApplied(ShiftLeft, lhs, rhs);
    ConstantApplied(ShiftRight, lhs, rhs);
    hide IntegerConstantValue, ApplyBinary;
    LeftShiftIs(IntegerConstantValue(lhs).value, IntegerConstantValue(rhs).value);
    RightShiftIs(IntegerConstantValue(lhs).value, IntegerConstantValue(rhs).value);
  }

  /** Every test yields 1 or 0, and 1 exactly when it holds. */
  lemma ConstantTests(lhs: Expr, rhs: Expr)
    requires IntegerConstantValue(lhs).Some? && IntegerConstantValue(rhs).Some?
    ensures var l, r := IntegerConstantValue(lhs).value, IntegerConstantValue(rhs).value;
            && IntegerConstantValue(Binary(Gt, lhs, rhs)) == (if l > r then Some(1) else Some(0))
            && IntegerConstantValue(Binary(Lt, lhs, rhs)) == (if l < r then Some(1) else Some(0))
            && IntegerConstantValue(Binary(Ge, lhs, rhs)) == (if l < r then Some(0) else Some(1))
            && IntegerConstantValue(Binary(Le, lhs, rhs)) == (if l > r then Some(0) else Some(1))
            && IntegerConstantValue(Binary(Eq, lhs, rhs)) == (if l == r then Some(1) else Some(0))
            && IntegerConstantValue(Binary(Ne, lhs, rhs)) == (if l == r then Some(0) else Some(1))
            && IntegerConstantValue(Unary(Not, lhs)) == (if l == 0 then Some(1) else Some(0))
            && IntegerConstantValue(Binary(And, lhs, rhs)) == (if l == 0 || r == 0 then Some(0) else Some(1))
            && IntegerConstantValue(Binary(Or, lhs, rhs)) == (if l == 0 && r == 0 then Some(0) else Some(1))
  {
    hide IntegerConstantValue;
    NegationApplied(Not, lhs);
    ConstantApplied(Gt, lhs, rhs);
    ConstantApplied(Lt, lhs, rhs);
    ConstantApplied(Ge, lhs, rhs);
    ConstantApplied(Le, lhs, rhs);
    ConstantApplied(Eq, lhs, rhs);
    ConstantApplied(Ne, lhs, rhs);
    ConstantApplied(And, lhs, rhs);
    ConstantApplied(Or, lhs, rhs);
  }
}
