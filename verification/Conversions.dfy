/** Integer promotions and the usual arithmetic conversions (ISO/IEC 9899:1999 sections
    6.3.1.1 and 6.3.1.8), in every data model whose widths do not decrease with rank. */
module Conversions {
  import opened Types
  import opened Constants

  /** Widths in bits, and whether plain char is signed. */
  datatype DataModel = DataModel(charBits: nat, shortBits: nat, intBits: nat, longBits: nat, longLongBits: nat, plainSigned: bool) {
    predicate Valid() {
      2 <= charBits <= shortBits <= intBits <= longBits <= longLongBits
    }
  }

  predicate IsArithmetic(b: Base) {
    b.Boolean? || b.Enumeration? || b.Character? || b.Integer? || b.Floating? || b.Complex?
  }

  predicate IsInteger(b: Base) {
    b.Boolean? || b.Enumeration? || b.Character? || b.Integer?
  }

  function Width(m: DataModel, rank: IntegerRank): nat {
    match rank
    case Short => m.shortBits
    case Int => m.intBits
    case Long => m.longBits
    case LongLong => m.longLongBits
  }

  function RankOrder(rank: IntegerRank): nat {
    match rank
    case Short => 1
    case Int => 2
    case Long => 3
    case LongLong => 4
  }

  function UnsignedMax(width: nat): int { Pow2(width) - 1 }

  function SignedMax(width: nat): int
    requires width > 0
  {
    Pow2(width - 1) - 1
  }

  /** The data models are those whose widths do not decrease with rank; equal widths are allowed. */
  lemma ValidIff(m: DataModel)
    ensures m.Valid() <==>
            2 <= m.charBits &&
            forall a, b :: RankOrder(a) <= RankOrder(b) ==> m.charBits <= Width(m, a) <= Width(m, b)
  {
    assert RankOrder(Short) <= RankOrder(Int) && RankOrder(Int) <= RankOrder(Long) && RankOrder(Long) <= RankOrder(LongLong);
    if m.Valid() {
      forall a, b | RankOrder(a) <= RankOrder(b) ensures m.charBits <= Width(m, a) <= Width(m, b) {}
    }
  }

  // ----- the conversions -----

  const INT := Integer(Int, false)
  const UINT := Integer(Int, true)

  function Promote(m: DataModel, b: Base): Base
    requires m.Valid()
  {
    match b
    case Boolean => INT
    case Enumeration(_) => INT
    case Character(sign) =>
      if sign.PlainChar? then
        if -SignedMax(m.intBits) - 1 <= PlainLowest(m) && PlainMax(m) <= SignedMax(m.intBits) then INT else UINT
      else if sign.SignedChar? || UnsignedMax(m.charBits) <= SignedMax(m.intBits) then INT
      else UINT
    case Integer(rank, isUnsigned) =>
      if RankOrder(rank) >= RankOrder(Int) then b
      else if !isUnsigned || UnsignedMax(Width(m, rank)) <= SignedMax(m.intBits) then INT
      else UINT
    case _ => b
  }

  function PlainLowest(m: DataModel): int
    requires m.Valid()
  {
    if m.plainSigned then -SignedMax(m.charBits) - 1 else 0
  }

  function PlainMax(m: DataModel): int
    requires m.Valid()
  {
    if m.plainSigned then SignedMax(m.charBits) else UnsignedMax(m.charBits)
  }

  function UsualInteger(m: DataModel, lhs: Base, rhs: Base): Base
    requires m.Valid()
  {
    Larger(m, Promote(m, lhs), Promote(m, rhs))
  }

  /** The common type of two promoted operands. */
  function Larger(m: DataModel, l: Base, r: Base): Base
    requires m.Valid()
  {
    if l == r then l
    else if !l.Integer? || !r.Integer? then Integer(Long, false)
    else if l.isUnsigned == r.isUnsigned then if RankOrder(l.rank) >= RankOrder(r.rank) then l else r
    else
      var u, s := if l.isUnsigned then l else r, if l.isUnsigned then r else l;
      if RankOrder(u.rank) >= RankOrder(s.rank) then u
      else if SignedMax(Width(m, s.rank)) >= UnsignedMax(Width(m, u.rank)) then s
      else Integer(s.rank, true)
  }

  function Precision(b: Base): nat {
    match b
    case Floating(LongDouble) => 3
    case Floating(Double) => 2
    case Floating(Float) => 1
    case _ => 0
  }

  function UsualArithmetic(m: DataModel, lhs: Base, rhs: Base): Base
    requires m.Valid()
  {
    if lhs.Complex? || rhs.Complex? then Complex
    else if lhs.Floating? || rhs.Floating? then
      var precision := if Precision(lhs) >= Precision(rhs) then Precision(lhs) else Precision(rhs);
      Floating(if precision == 3 then LongDouble else if precision == 2 then Double else Float)
    else UsualInteger(m, lhs, rhs)
  }

  // ----- values -----

  /** Whether an integer type holds the value v. */
  predicate Holds(m: DataModel, b: Base, v: int)
    requires m.Valid()
  {
    match b
    case Boolean => 0 <= v <= 1
    case Enumeration(_) => -SignedMax(m.intBits) - 1 <= v <= SignedMax(m.intBits)
    case Character(sign) =>
      if sign.PlainChar? then PlainLowest(m) <= v <= PlainMax(m)
      else InWidth(m.charBits, sign.UnsignedChar?, v)
    case Integer(rank, isUnsigned) => InWidth(Width(m, rank), isUnsigned, v)
    case _ => false
  }

  predicate InWidth(width: nat, isUnsigned: bool, v: int)
    requires width > 0
  {
    if isUnsigned then 0 <= v <= UnsignedMax(width) else -SignedMax(width) - 1 <= v <= SignedMax(width)
  }

  lemma {:induction false} Pow2Monotone(a: nat, b: nat)
    requires a <= b
    ensures Pow2(a) <= Pow2(b)
    ensures a < b ==> Pow2(a) < Pow2(b)
  {
    if a < b {
      Pow2Monotone(a, b - 1);
    }
  }

  /** A wider signed type holds every value of an unsigned type; an equally wide one does not. */
  lemma WiderHolds(u: nat, s: nat)
    requires 0 < u <= s
    ensures SignedMax(s) >= UnsignedMax(u) <==> s > u
    ensures UnsignedMax(u) <= UnsignedMax(s) && SignedMax(u) <= SignedMax(s)
  {
    Pow2Monotone(u, s);
    Pow2Monotone(u - 1, s - 1);
    if s > u {
      Pow2Monotone(u, s - 1);
    }
  }

  /** Promotion never changes a value. */
  lemma PromotionPreserves(m: DataModel, b: Base, v: int)
    requires m.Valid() && IsInteger(b) && Holds(m, b, v)
    ensures Holds(m, Promote(m, b), v)
  {
    WiderHolds(m.charBits, m.intBits);
    WiderHolds(m.shortBits, m.intBits);
    assert SignedMax(m.intBits) >= 1 by { Pow2Monotone(1, m.intBits - 1); }
  }

  /** A type below int becomes int exactly when int holds all of its values, and otherwise
      unsigned int. */
  lemma PromotionIff(m: DataModel, b: Base)
    requires m.Valid() && IsInteger(b)
    ensures if b.Integer? && !b.rank.Short? then Promote(m, b) == b
            else if forall v :: Holds(m, b, v) ==> Holds(m, INT, v) then Promote(m, b) == INT
            else Promote(m, b) == UINT
  {
    WiderHolds(m.charBits, m.intBits);
    WiderHolds(m.shortBits, m.intBits);
    assert SignedMax(m.intBits) >= 1 by { Pow2Monotone(1, m.intBits - 1); }
    assert b.Character? ==> Holds(m, b, if b.sign.PlainChar? then PlainMax(m)
                                        else if b.sign.UnsignedChar? then UnsignedMax(m.charBits) else SignedMax(m.charBits));
    assert b.Integer? && b.isUnsigned ==> Holds(m, b, UnsignedMax(Width(m, b.rank)));
  }

  /** A signed result holds every value of both operands. */
  lemma SignedResultPreserves(m: DataModel, lhs: Base, rhs: Base, v: int)
    requires m.Valid() && IsInteger(lhs) && IsInteger(rhs)
    requires !UsualInteger(m, lhs, rhs).isUnsigned
    requires Holds(m, lhs, v) || Holds(m, rhs, v)
    ensures Holds(m, UsualInteger(m, lhs, rhs), v)
  {
    if Holds(m, lhs, v) { PromotionPreserves(m, lhs, v); }
    if Holds(m, rhs, v) { PromotionPreserves(m, rhs, v); }
    var l, r := Promote(m, lhs), Promote(m, rhs);
    RanksWiden(m, l.rank, r.rank);
  }

  /** Every value of both promoted operands survives exactly when the result is signed or no
      operand was: an unsigned result loses -1. */
  lemma EveryValueKept(m: DataModel, lhs: Base, rhs: Base)
    requires m.Valid() && IsInteger(lhs) && IsInteger(rhs)
    ensures var l, r, u := Promote(m, lhs), Promote(m, rhs), UsualArithmetic(m, lhs, rhs);
            && l.Integer? && r.Integer? && u.Integer?
            && ((forall v :: Holds(m, l, v) || Holds(m, r, v) ==> Holds(m, u, v))
                <==> (!u.isUnsigned || (l.isUnsigned && r.isUnsigned)))
  {
    PromotedOnce(m, lhs);
    PromotedOnce(m, rhs);
    var l, r := Promote(m, lhs), Promote(m, rhs);
    var u := Larger(m, l, r);
    LargerIsLeast(m, l, r, l);
    RanksWiden(m, l.rank, r.rank);
    if u.isUnsigned && !(l.isUnsigned && r.isUnsigned) {
      assert Holds(m, l, -1) || Holds(m, r, -1);
      assert !Holds(m, u, -1);
    }
  }

  lemma RanksWiden(m: DataModel, a: IntegerRank, b: IntegerRank)
    requires m.Valid()
    ensures RankOrder(a) <= RankOrder(b) ==>
              Width(m, a) <= Width(m, b) &&
              UnsignedMax(Width(m, a)) <= UnsignedMax(Width(m, b)) &&
              SignedMax(Width(m, a)) <= SignedMax(Width(m, b)) &&
              (SignedMax(Width(m, b)) >= UnsignedMax(Width(m, a)) <==> Width(m, b) > Width(m, a))
    ensures RankOrder(b) <= RankOrder(a) ==>
              Width(m, b) <= Width(m, a) &&
              UnsignedMax(Width(m, b)) <= UnsignedMax(Width(m, a)) &&
              SignedMax(Width(m, b)) <= SignedMax(Width(m, a)) &&
              (SignedMax(Width(m, a)) >= UnsignedMax(Width(m, b)) <==> Width(m, a) > Width(m, b))
  {
    if RankOrder(a) <= RankOrder(b) { WiderHolds(Width(m, a), Width(m, b)); }
    if RankOrder(b) <= RankOrder(a) { WiderHolds(Width(m, b), Width(m, a)); }
  }

  // ----- the conversions form a semilattice -----

  /** The order in which the conversions take the larger of two promoted integer types. */
  predicate AtMost(m: DataModel, a: Base, b: Base)
    requires m.Valid() && a.Integer? && b.Integer?
  {
    && RankOrder(a.rank) <= RankOrder(b.rank)
    && (a.isUnsigned && !b.isUnsigned ==> Width(m, a.rank) < Width(m, b.rank))
  }

  predicate Promoted(b: Base) {
    b.Integer? && RankOrder(b.rank) >= 2
  }

  lemma AtMostOrder(m: DataModel, a: Base, b: Base, c: Base)
    requires m.Valid() && Promoted(a) && Promoted(b) && Promoted(c)
    ensures AtMost(m, a, a)
    ensures AtMost(m, a, b) && AtMost(m, b, a) ==> a == b
    ensures AtMost(m, a, b) && AtMost(m, b, c) ==> AtMost(m, a, c)
  {
  }

  lemma PromotedOnce(m: DataModel, b: Base)
    requires m.Valid() && IsInteger(b)
    ensures Promoted(Promote(m, b))
  {
  }

  lemma PromotedStays(m: DataModel, b: Base)
    requires m.Valid() && Promoted(b)
    ensures Promote(m, b) == b && IsInteger(b)
  {
  }

  lemma LargerIsLeast(m: DataModel, l: Base, r: Base, c: Base)
    requires m.Valid() && Promoted(l) && Promoted(r) && Promoted(c)
    ensures var u := Larger(m, l, r);
            && Promoted(u)
            && AtMost(m, l, u) && AtMost(m, r, u)
            && (AtMost(m, l, c) && AtMost(m, r, c) ==> AtMost(m, u, c))
  {
    RanksWiden(m, l.rank, r.rank);
  }

  lemma LargerCommutes(m: DataModel, l: Base, r: Base)
    requires m.Valid() && Promoted(l) && Promoted(r)
    ensures Larger(m, l, r) == Larger(m, r, l)
  {
    var u, v := Larger(m, l, r), Larger(m, r, l);
    LargerIsLeast(m, r, l, v);
    LargerIsLeast(m, l, r, v);
    LargerIsLeast(m, r, l, u);
    AtMostOrder(m, u, v, u);
  }

  lemma LargerAssociates(m: DataModel, p: Base, q: Base, r: Base)
    requires m.Valid() && Promoted(p) && Promoted(q) && Promoted(r)
    ensures Promoted(Larger(m, p, q)) && Promoted(Larger(m, q, r))
    ensures Larger(m, Larger(m, p, q), r) == Larger(m, p, Larger(m, q, r))
  {
    LargerIsLeast(m, p, q, r);
    LargerIsLeast(m, q, r, p);
    var pq, qr := Larger(m, p, q), Larger(m, q, r);
    LargerIsLeast(m, pq, r, p);
    LargerIsLeast(m, p, qr, r);
    var left, right := Larger(m, pq, r), Larger(m, p, qr);
    AtMostOrder(m, p, pq, left);
    AtMostOrder(m, q, pq, left);
    AtMostOrder(m, q, qr, right);
    AtMostOrder(m, r, qr, right);
    LargerIsLeast(m, p, q, right);
    LargerIsLeast(m, pq, r, right);
    LargerIsLeast(m, q, r, left);
    LargerIsLeast(m, p, qr, left);
    AtMostOrder(m, left, right, left);
  }

  /** The converted type is the least one above both promoted operands. */
  lemma LeastUpperBound(m: DataModel, a: Base, b: Base, c: Base)
    requires m.Valid() && IsInteger(a) && IsInteger(b) && Promoted(c)
    ensures var l, r, u := Promote(m, a), Promote(m, b), UsualArithmetic(m, a, b);
            && Promoted(l) && Promoted(r) && Promoted(u)
            && AtMost(m, l, u) && AtMost(m, r, u)
            && (AtMost(m, l, c) && AtMost(m, r, c) ==> AtMost(m, u, c))
  {
    PromotedOnce(m, a);
    PromotedOnce(m, b);
    LargerIsLeast(m, Promote(m, a), Promote(m, b), c);
  }

  // ----- one order over all arithmetic types -----

  /** Below the floating types stand the integers, and above them the complex numbers. */
  predicate TypeAtMost(m: DataModel, a: Base, b: Base)
    requires m.Valid()
  {
    match b
    case Complex => true
    case Floating(LongDouble) => !a.Complex?
    case Floating(Double) => !a.Complex? && a != Floating(LongDouble)
    case Floating(Float) => !a.Complex? && (a.Floating? ==> a == b)
    case _ => a.Integer? && b.Integer? && AtMost(m, a, b)
  }

  /** What an operand is after promotion. */
  predicate Operand(b: Base) {
    b.Complex? || b.Floating? || Promoted(b)
  }

  lemma TypeOrder(m: DataModel, a: Base, b: Base, c: Base)
    requires m.Valid() && Operand(a) && Operand(b) && Operand(c)
    ensures TypeAtMost(m, a, a)
    ensures TypeAtMost(m, a, b) && TypeAtMost(m, b, a) ==> a == b
    ensures TypeAtMost(m, a, b) && TypeAtMost(m, b, c) ==> TypeAtMost(m, a, c)
  {
    if Promoted(a) && Promoted(b) && Promoted(c) { AtMostOrder(m, a, b, c); }
    if Promoted(a) && Promoted(b) { AtMostOrder(m, a, b, b); }
    if Promoted(a) { AtMostOrder(m, a, a, a); }
  }

  lemma PromotedConverts(m: DataModel, a: Base)
    requires m.Valid() && IsArithmetic(a)
    ensures Operand(Promote(m, a))
    ensures !IsInteger(a) ==> Promote(m, a) == a
  {
    if IsInteger(a) { PromotedOnce(m, a); }
  }

  /** The common type of two arithmetic operands is the least type above both of them. */
  lemma LeastCommonType(m: DataModel, a: Base, b: Base, c: Base)
    requires m.Valid() && IsArithmetic(a) && IsArithmetic(b) && Operand(c)
    ensures var l, r, u := Promote(m, a), Promote(m, b), UsualArithmetic(m, a, b);
            && Operand(l) && Operand(r) && Operand(u)
            && TypeAtMost(m, l, u) && TypeAtMost(m, r, u)
            && (TypeAtMost(m, l, c) && TypeAtMost(m, r, c) ==> TypeAtMost(m, u, c))
  {
    PromotedConverts(m, a);
    PromotedConverts(m, b);
    if IsInteger(a) && IsInteger(b) {
      LeastUpperBound(m, a, b, if Promoted(c) then c else INT);
    }
  }

  lemma Commutative(m: DataModel, a: Base, b: Base)
    requires m.Valid() && IsArithmetic(a) && IsArithmetic(b)
    ensures UsualArithmetic(m, a, b) == UsualArithmetic(m, b, a)
  {
    if IsInteger(a) && IsInteger(b) {
      PromotedOnce(m, a);
      PromotedOnce(m, b);
      LargerCommutes(m, Promote(m, a), Promote(m, b));
    }
  }

  lemma Idempotent(m: DataModel, a: Base)
    requires m.Valid() && IsArithmetic(a)
    ensures UsualArithmetic(m, a, a) == Promote(m, a)
    ensures Promote(m, Promote(m, a)) == Promote(m, a)
  {
    if IsInteger(a) {
      PromotedOnce(m, a);
    }
  }

  lemma Associative(m: DataModel, a: Base, b: Base, c: Base)
    requires m.Valid() && IsArithmetic(a) && IsArithmetic(b) && IsArithmetic(c)
    ensures UsualArithmetic(m, UsualArithmetic(m, a, b), c) == UsualArithmetic(m, a, UsualArithmetic(m, b, c))
  {
    if IsInteger(a) && IsInteger(b) && IsInteger(c) {
      AssociativeIntegers(m, a, b, c);
    } else {
      if IsInteger(a) && IsInteger(b) { StaysInteger(m, a, b); }
      if IsInteger(b) && IsInteger(c) { StaysInteger(m, b, c); }
    }
  }

  lemma StaysInteger(m: DataModel, a: Base, b: Base)
    requires m.Valid() && IsInteger(a) && IsInteger(b)
    ensures Promoted(UsualInteger(m, a, b)) && IsInteger(UsualInteger(m, a, b))
  {
    LeastUpperBound(m, a, b, INT);
  }

  lemma AssociativeIntegers(m: DataModel, a: Base, b: Base, c: Base)
    requires m.Valid() && IsInteger(a) && IsInteger(b) && IsInteger(c)
    ensures UsualArithmetic(m, UsualArithmetic(m, a, b), c) == UsualArithmetic(m, a, UsualArithmetic(m, b, c))
  {
    PromotedOnce(m, a);
    PromotedOnce(m, b);
    PromotedOnce(m, c);
    LargerAssociates(m, Promote(m, a), Promote(m, b), Promote(m, c));
    PromotedStays(m, UsualInteger(m, a, b));
    PromotedStays(m, UsualInteger(m, b, c));
  }
}
