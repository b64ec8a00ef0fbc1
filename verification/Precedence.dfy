/** How tightly operators bind: the text of a tree without parentheses is read as that tree
    whenever its shape follows the ladder of operators, left operands first. */
module Precedence {
  import opened Options
  import opened Primitives
  import opened Syntax
  import opened Grammar
  import opened Printer
  import opened ExpressionRoundTrip

  /** From the loosest to the tightest.  The prefixes "not" and "bitwise not" stand on a rung of
      their own between "bitwise and" and the comparisons. */
  const LADDER: seq<seq<Infix>> := [
    [Op(Or)], [Op(And)], [Op(BitOr)], [Op(BitXor)], [Op(BitAnd)],
    [],
    [Op(Gt), Op(Lt), Op(Eq), Op(Ne), Op(Ge), Op(Le)],
    [Op(ShiftLeft), Op(ShiftRight)],
    [Op(Add), Op(Sub)],
    [Op(Mul), Op(Div), Op(Mod)],
    [Power]]

  predicate OnRung(op: Infix, k: nat) {
    k < |LADDER| && op in LADDER[k]
  }

  lemma RungIs(op: Infix, k: nat)
    requires OnRung(op, k)
    ensures k == LevelOf(op) && op != Op(Comma) && k < PRIMARY_LEVEL && k != NOT_LEVEL
  {
  }

  /** An expression written without parentheses, but for those within its leaves. */
  datatype Flat =
    | Leaf(e: Expr)
    | Negated(bitwise: bool, operand: Flat)
    | Infixed(op: Infix, lhs: Flat, rhs: Flat)

  function TextTo(f: Flat, rest: Tokens): Tokens {
    match f
    case Leaf(e) => PrintTo(e, rest)
    case Negated(bitwise, operand) => Front(if bitwise then [WBitwise, WNot] else [WNot], TextTo(operand, rest))
    case Infixed(op, lhs, rhs) => TextTo(lhs, Front(InfixWords(op), TextTo(rhs, rest)))
  }

  function Tree(f: Flat): Expr {
    match f
    case Leaf(e) => Regrouped(e)
    case Negated(bitwise, operand) => Unary(if bitwise then BitNot else Not, Tree(operand))
    case Infixed(op, lhs, rhs) => Join(op, Tree(lhs), Tree(rhs))
  }

  /** Leaves are printed expressions that take no operator in. */
  predicate Leafy(f: Flat) {
    match f
    case Leaf(e) => Printable(e) && !OpenEnd(e)
    case Negated(_, operand) => Leafy(operand)
    case Infixed(_, lhs, rhs) => Leafy(lhs) && Leafy(rhs)
  }

  /** The shape of f follows the ladder from a rung on: operands bind tighter, on the left they
      may also stand on the same rung, and comparisons have no comparison as operand. */
  ghost predicate Follows(rung: nat, f: Flat)
    decreases f
  {
    match f
    case Leaf(_) => true
    case Negated(_, operand) => rung <= NOT_LEVEL && Follows(NOT_LEVEL, operand)
    case Infixed(op, lhs, rhs) =>
      exists k :: rung <= k && OnRung(op, k) && Follows(if k == COMPARISON_LEVEL then k + 1 else k, lhs) && Follows(k + 1, rhs)
  }

  // ----- what stands behind an operand -----

  /** No operator of this rung or a tighter one, and no rest of a type. */
  predicate EndsAt(rung: nat, tail: Tokens) {
    && !ExactlyAt(tail, 0)
    && (rung <= COMPARISON_LEVEL ==> !WordAt(tail, 0, WIs))
    && forall k :: rung <= k < PRIMARY_LEVEL ==> OperatorAt(k, tail) == None
  }

  lemma LooseOperatorFound(op: Infix, tail: Tokens, level: nat)
    requires op != Op(Comma) && LevelOf(op) < NOT_LEVEL && level < PRIMARY_LEVEL
    ensures var mid, words := Front(InfixWords(op), tail), InfixWords(op);
            && !WordAt(mid, 0, WIs)
            && OperatorAt(level, mid) == (if level == LevelOf(op) then Some(Sized(op, |words|)) else None)
            && mid[|words|..] == tail
  {
    hide Front, Idents;
  }

  /** Behind the left operand of an operator no tighter one stands. */
  lemma OperatorEnds(op: Infix, k: nat, tail: Tokens)
    requires OnRung(op, k) && (k >= NOT_LEVEL ==> StartsExpr(tail))
    ensures EndsAt(k + 1, Front(InfixWords(op), tail))
    ensures k != COMPARISON_LEVEL ==>
              var mid := Front(InfixWords(op), tail);
              OperatorAt(k, mid) == Some(Sized(op, |InfixWords(op)|)) && mid[|InfixWords(op)|..] == tail
  {
    hide Front, Idents, OperatorAt, StartsExpr, ExactlyAt;
    RungIs(op, k);
    OperatorIsNotExactly(op, tail);
    var mid := Front(InfixWords(op), tail);
    if k == COMPARISON_LEVEL {
      ComparisonFound(op, tail);
    } else {
      forall j: nat | j < PRIMARY_LEVEL
        ensures !WordAt(mid, 0, WIs) && mid[|InfixWords(op)|..] == tail
        ensures OperatorAt(j, mid) == (if j == k then Some(Sized(op, |InfixWords(op)|)) else None)
      {
        if k < NOT_LEVEL { LooseOperatorFound(op, tail, j); } else { OperatorFound(op, tail, j); }
      }
    }
  }

  /** Above the prefixes a text starts like a printed expression. */
  lemma {:induction false} TextStarts(rung: nat, f: Flat, rest: Tokens)
    requires Leafy(f) && Follows(rung, f) && rung > NOT_LEVEL
    ensures StartsExpr(TextTo(f, rest))
    decreases f
  {
    match f
    case Leaf(e) => PrintedStarts(e, rest);
    case Infixed(op, lhs, rhs) =>
      var k :| rung <= k && OnRung(op, k) && Follows(if k == COMPARISON_LEVEL then k + 1 else k, lhs) && Follows(k + 1, rhs);
      TextStarts(if k == COMPARISON_LEVEL then k + 1 else k, lhs, Front(InfixWords(op), TextTo(rhs, rest)));
  }

  // ----- reading -----

  /** What reading at a rung makes of a text whose shape follows the ladder from there: the tree,
      and further operators of that rung folded onto it. */
  ghost predicate ReadsOn(rung: nat, ts: Tokens, tree: Expr, comparison: bool, tail: Tokens)
    requires rung <= PRIMARY_LEVEL
  {
    ParseLevel(rung, ts) ==
    if rung == PRIMARY_LEVEL || rung == NOT_LEVEL || (rung == COMPARISON_LEVEL && comparison) then Some(Got(tree, tail))
    else if rung == COMPARISON_LEVEL then ParseComparison(tree, tail)
    else ParseOperators(rung, tree, tail)
  }

  predicate IsCompared(f: Flat) { f.Infixed? && OnRung(f.op, COMPARISON_LEVEL) }

  lemma {:induction false} FlatReads(rung: nat, f: Flat, tail: Tokens)
    requires rung <= PRIMARY_LEVEL && Leafy(f) && Follows(rung, f) && EndsAt(rung + 1, tail)
    ensures ReadsOn(rung, TextTo(f, tail), Tree(f), IsCompared(f), tail)
    decreases f, PRIMARY_LEVEL - rung, 1
  {
    hide ParseLevel, ParseOperators, ParseComparison, Front, Idents, PrintTo, Regrouped, Printable, OperatorAt, ExactlyAt, OpenEnd;
    if rung == PRIMARY_LEVEL {
      LeafReads(f, tail);
    } else if f.Negated? && rung == NOT_LEVEL {
      FlatReads(NOT_LEVEL, f.operand, tail);
      NotForm(if f.bitwise then BitNot else Not, TextTo(f.operand, tail), Got(Tree(f.operand), tail));
    } else if f.Infixed? && OnRung(f.op, rung) {
      var k :| rung <= k && OnRung(f.op, k) && Follows(if k == COMPARISON_LEVEL then k + 1 else k, f.lhs) && Follows(k + 1, f.rhs);
      RungIs(f.op, k);
      RungIs(f.op, rung);
      InfixedReads(rung, f, tail);
    } else {
      HigherFollows(rung, f);
      FlatEnds(rung + 1, f, tail);
      if rung == NOT_LEVEL {
        TextStarts(rung + 1, f, tail);
        NotSkipped(TextTo(f, tail));
      } else {
        LevelStep(rung, TextTo(f, tail), Got(Tree(f), tail));
      }
    }
  }

  lemma LeafReads(f: Flat, tail: Tokens)
    requires Leafy(f) && Follows(PRIMARY_LEVEL, f) && EndsAt(PRIMARY_LEVEL + 1, tail)
    ensures f.Leaf? && ParseLevel(PRIMARY_LEVEL, TextTo(f, tail)) == Some(Got(Tree(f), tail))
  {
    hide PrintTo, ParsePrimary, Regrouped, Printable, OpenEnd, ExactlyAt;
    if f.Leaf? { PrimaryReads(f.e, tail); }
  }

  lemma HigherFollows(rung: nat, f: Flat)
    requires Follows(rung, f) && !(f.Negated? && rung == NOT_LEVEL) && !(f.Infixed? && OnRung(f.op, rung))
    ensures Follows(rung + 1, f)
  {
    hide OnRung;
    if f.Infixed? {
      var k :| rung <= k && OnRung(f.op, k) && Follows(if k == COMPARISON_LEVEL then k + 1 else k, f.lhs) && Follows(k + 1, f.rhs);
      assert k != rung;
    }
  }

  lemma NotSkipped(ts: Tokens)
    requires StartsExpr(ts)
    ensures ParseLevel(NOT_LEVEL, ts) == ParseLevel(NOT_LEVEL + 1, ts)
  {
    StartIsStill(ts);
  }

  /** With no operator of the rung behind it, the tree is all that is read there. */
  lemma {:induction false} FlatEnds(rung: nat, f: Flat, tail: Tokens)
    requires rung <= PRIMARY_LEVEL && Leafy(f) && Follows(rung, f) && EndsAt(rung, tail)
    ensures ParseLevel(rung, TextTo(f, tail)) == Some(Got(Tree(f), tail))
    decreases f, PRIMARY_LEVEL - rung, 2
  {
    hide ParseLevel, Front, Idents, PrintTo, Regrouped, Printable, OperatorAt, ExactlyAt, OpenEnd;
    FlatReads(rung, f, tail);
    if rung < PRIMARY_LEVEL { assert OperatorAt(rung, tail) == None; }
  }

  lemma {:induction false} InfixedReads(rung: nat, f: Flat, tail: Tokens)
    requires f.Infixed? && OnRung(f.op, rung) && Leafy(f) && EndsAt(rung + 1, tail)
    requires Follows(if rung == COMPARISON_LEVEL then rung + 1 else rung, f.lhs) && Follows(rung + 1, f.rhs)
    requires rung < PRIMARY_LEVEL && rung != NOT_LEVEL
    ensures ReadsOn(rung, TextTo(f, tail), Tree(f), IsCompared(f), tail)
    decreases f, PRIMARY_LEVEL - rung, 0
  {
    hide ParseLevel, ParseOperators, ParseComparison, Front, Idents, PrintTo, Regrouped, Printable, OperatorAt, ExactlyAt, OpenEnd,
         StartsExpr, LADDER;
    RungIs(f.op, rung);
    var behind := TextTo(f.rhs, tail);
    var mid := Front(InfixWords(f.op), behind);
    if rung >= NOT_LEVEL { TextStarts(rung + 1, f.rhs, tail); }
    OperatorEnds(f.op, rung, behind);
    FlatEnds(rung + 1, f.rhs, tail);
    if rung == COMPARISON_LEVEL {
      FlatEnds(rung + 1, f.lhs, mid);
      LevelStep(rung, TextTo(f.lhs, mid), Got(Tree(f.lhs), mid));
      ComparisonReads(f.op, Tree(f.lhs), behind, Got(Tree(f.rhs), tail));
    } else {
      FlatReads(rung, f.lhs, mid);
      FoldOne(rung, f.op, Tree(f.lhs), mid, behind, Got(Tree(f.rhs), tail));
    }
  }

  lemma FoldOne(rung: nat, op: Infix, lhs: Expr, mid: Tokens, behind: Tokens, right: Got<Expr>)
    requires rung < PRIMARY_LEVEL && OperatorAt(rung, mid) == Some(Sized(op, |InfixWords(op)|))
    requires mid[|InfixWords(op)|..] == behind && ParseLevel(rung + 1, behind) == Some(right)
    ensures ParseOperators(rung, lhs, mid) == ParseOperators(rung, Join(op, lhs, right.value), right.rest)
  {
    hide ParseLevel;
  }

  /** A text without parentheses whose shape follows the ladder is read as its tree. */
  lemma LadderReads(f: Flat, rest: Tokens)
    requires Leafy(f) && Follows(OR_LEVEL, f) && Still(rest)
    ensures ParseExpr(TextTo(f, rest)) == Some(Got(Tree(f), rest))
  {
    hide ParseLevel;
    FlatEnds(OR_LEVEL, f, rest);
  }

  // ----- two operators -----

  /** Of two operators between three operands the one on the higher rung takes the operand
      between them, and on the same rung the first one; comparisons are not chained. */
  lemma TwoOperators(a: Expr, first: Infix, b: Expr, second: Infix, c: Expr, j: nat, k: nat, rest: Tokens)
    requires Leafy(Leaf(a)) && Leafy(Leaf(b)) && Leafy(Leaf(c)) && Still(rest)
    requires OnRung(first, j) && OnRung(second, k) && !(j == k == COMPARISON_LEVEL)
    ensures ParseExpr(PrintTo(a, Front(InfixWords(first), PrintTo(b, Front(InfixWords(second), PrintTo(c, rest)))))) ==
            Some(Got(if j >= k then Join(second, Join(first, Regrouped(a), Regrouped(b)), Regrouped(c))
                     else Join(first, Regrouped(a), Join(second, Regrouped(b), Regrouped(c))), rest))
  {
    hide ParseLevel, PrintTo, Regrouped, Printable, OpenEnd, Front, Idents, LADDER;
    var f := if j >= k then Infixed(second, Infixed(first, Leaf(a), Leaf(b)), Leaf(c))
             else Infixed(first, Leaf(a), Infixed(second, Leaf(b), Leaf(c)));
    if j >= k {
      var inner := Infixed(first, Leaf(a), Leaf(b));
      PairIs(first, a, b, j, Front(InfixWords(second), PrintTo(c, rest)));
      RungBelow(if k == COMPARISON_LEVEL then k + 1 else k, j, inner);
      assert Follows(OR_LEVEL, f);
      assert TextTo(f, rest) == TextTo(inner, Front(InfixWords(second), PrintTo(c, rest)));
      assert Tree(f) == Join(second, Tree(inner), Regrouped(c));
    } else {
      var inner := Infixed(second, Leaf(b), Leaf(c));
      PairIs(second, b, c, k, rest);
      RungBelow(j + 1, k, inner);
      assert Follows(OR_LEVEL, f);
      assert TextTo(f, rest) == PrintTo(a, Front(InfixWords(first), TextTo(inner, rest)));
      assert Tree(f) == Join(first, Regrouped(a), Tree(inner));
    }
    LadderReads(f, rest);
  }

  lemma PairIs(op: Infix, a: Expr, b: Expr, k: nat, rest: Tokens)
    requires OnRung(op, k) && Leafy(Leaf(a)) && Leafy(Leaf(b))
    ensures var f := Infixed(op, Leaf(a), Leaf(b));
            && Follows(k, f) && Leafy(f) && Tree(f) == Join(op, Regrouped(a), Regrouped(b))
            && TextTo(f, rest) == PrintTo(a, Front(InfixWords(op), PrintTo(b, rest)))
  {
    hide PrintTo, Regrouped, Printable, OpenEnd, Front, Idents, LADDER, InfixWords;
    var f := Infixed(op, Leaf(a), Leaf(b));
    assert TextTo(Leaf(b), rest) == PrintTo(b, rest);
    assert TextTo(f, rest) == TextTo(Leaf(a), Front(InfixWords(op), TextTo(Leaf(b), rest)));
    assert Tree(Leaf(a)) == Regrouped(a) && Tree(Leaf(b)) == Regrouped(b);
  }

  lemma RungBelow(low: nat, high: nat, f: Flat)
    requires low <= high && Follows(high, f)
    ensures Follows(low, f)
  {
  }

  /** A comparison ends where another one begins. */
  lemma ComparisonsDoNotChain(a: Expr, first: Infix, b: Expr, second: Infix, ts: Tokens)
    requires Leafy(Leaf(a)) && Leafy(Leaf(b)) && StartsExpr(ts)
    requires OnRung(first, COMPARISON_LEVEL) && OnRung(second, COMPARISON_LEVEL)
    ensures var next := Front(InfixWords(second), ts);
            ParseLevel(COMPARISON_LEVEL, PrintTo(a, Front(InfixWords(first), PrintTo(b, next)))) ==
            Some(Got(Join(first, Regrouped(a), Regrouped(b)), next))
  {
    hide ParseLevel, PrintTo, Regrouped, Printable, OpenEnd, Front, Idents, LADDER, InfixWords;
    var next := Front(InfixWords(second), ts);
    OperatorEnds(second, COMPARISON_LEVEL, ts);
    PairIs(first, a, b, COMPARISON_LEVEL, next);
    FlatReads(COMPARISON_LEVEL, Infixed(first, Leaf(a), Leaf(b)), next);
  }
}
