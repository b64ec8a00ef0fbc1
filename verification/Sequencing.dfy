/** The sequencing analysis: read and write sets, the conflict test and the E0034
    reports, modelled on every expression node.

    Only whether a conflict is found matters here, not the name put in the message. */
module Sequencing {
  import opened Options
  import opened Primitives
  import opened Ast

  datatype Effects = Effects(read: set<string>, written: set<string>)

  const NONE := Effects({}, {})

  function Join(a: Effects, b: Effects): Effects {
    Effects(a.read + b.read, a.written + b.written)
  }

  /** The name of the object that an lvalue modifies; `native` holds the names of native objects. */
  function ModificationTarget(native: set<string>, e: Expr): Option<string> {
    match e
    case VarRef(name) => if name in native then Some(name) else None
    case Member(member, base) =>
      var inner := ModificationTarget(native, base);
      if inner.Some? then Some(inner.value + "." + member) else None
    case Element(_, base) =>
      var inner := ModificationTarget(native, base);
      if inner.Some? then Some(inner.value + "[]") else None
    case Deref(pointer) =>
      var inner := ModificationTarget(native, pointer);
      if inner.Some? then Some("*" + inner.value) else None
    case _ => None
  }

  function EffectsOf(native: set<string>, e: Expr): Effects {
    match e
    case VarRef(name) => if name in native then Effects({name}, {}) else NONE
    case IncDec(_, operand) =>
      var inner := EffectsOf(native, operand);
      var target := ModificationTarget(native, operand);
      if target.Some? then Join(inner, Effects({target.value}, {target.value})) else inner
    case Binary(_, lhs, rhs) => Join(EffectsOf(native, lhs), EffectsOf(native, rhs))
    case Unary(_, rhs) => EffectsOf(native, rhs)
    case Conditional(whenTrue, condition, whenFalse) =>
      Join(EffectsOf(native, condition), Join(EffectsOf(native, whenTrue), EffectsOf(native, whenFalse)))
    case Call(_, args) => EffectsOfAll(native, args)
    case _ => NONE
  }

  function EffectsOfAll(native: set<string>, es: seq<Expr>): Effects {
    if es == [] then NONE else Join(EffectsOf(native, es[0]), EffectsOfAll(native, es[1..]))
  }

  /** One side writes what the other side read or writes. */
  predicate Clash(a: Effects, b: Effects) {
    a.written * (b.read + b.written) != {} || b.written * a.read != {}
  }

  lemma NoClash(a: Effects, b: Effects)
    requires !Clash(a, b)
    ensures forall x :: x in a.written ==> x !in b.read && x !in b.written
    ensures forall x :: x in b.written ==> x !in a.read && x !in a.written
  {
    forall x | x in a.written ensures x !in b.read && x !in b.written {
      assert x !in a.written * (b.read + b.written);
    }
    forall x | x in b.written ensures x !in a.read {
      assert x !in b.written * a.read;
    }
  }

  predicate IsSequenced(op: BinOp) {
    op.And? || op.Or? || op.Comma?
  }

  /** `findUnsequencedConflict`, which does not look below unary operators. */
  predicate FindsConflict(native: set<string>, e: Expr) {
    match e
    case Binary(op, lhs, rhs) =>
      || FindsConflict(native, lhs)
      || FindsConflict(native, rhs)
      || (!IsSequenced(op) && Clash(EffectsOf(native, lhs), EffectsOf(native, rhs)))
    case Conditional(whenTrue, condition, whenFalse) =>
      FindsConflict(native, condition) || FindsConflict(native, whenTrue) || FindsConflict(native, whenFalse)
    case Call(_, args) => ArgumentsConflict(native, args)
    case _ => false
  }

  predicate ArgumentsConflict(native: set<string>, args: seq<Expr>) {
    args != [] &&
    (|| FindsConflict(native, args[0])
     || ArgumentsConflict(native, args[1..])
     || exists j :: 0 < j < |args| && Clash(EffectsOf(native, args[0]), EffectsOf(native, args[j])))
  }

  /** How many E0034 reports type inference raises; a node whose operands already contain
      a conflict stays silent. */
  function Reports(native: set<string>, e: Expr): nat {
    match e
    case Binary(op, lhs, rhs) =>
      Reports(native, lhs) + Reports(native, rhs) +
      (if && !IsSequenced(op)
          && !FindsConflict(native, lhs)
          && !FindsConflict(native, rhs)
          && Clash(EffectsOf(native, lhs), EffectsOf(native, rhs)) then 1 else 0)
    case Unary(_, rhs) => Reports(native, rhs)
    case IncDec(_, operand) => Reports(native, operand)
    case Conditional(whenTrue, condition, whenFalse) =>
      Reports(native, condition) + Reports(native, whenTrue) + Reports(native, whenFalse)
    case Deref(pointer) => Reports(native, pointer)
    case Element(index, base) => Reports(native, index) + Reports(native, base)
    case Member(_, base) => Reports(native, base)
    case Pow(powBase, exponent) => Reports(native, powBase) + Reports(native, exponent)
    case Call(_, args) => ReportsOfAll(native, args)
    case _ => 0
  }

  function ReportsOfAll(native: set<string>, es: seq<Expr>): nat {
    if es == [] then 0 else Reports(native, es[0]) + ReportsOfAll(native, es[1..])
  }

  // ----- scalar expressions -----

  /** Literals, variables, increments and decrements of native variables, operators, Choose. */
  predicate Scalar(native: set<string>, e: Expr) {
    match e
    case IntLit(_) => true
    case BoolLit(_) => true
    case VarRef(_) => true
    case IncDec(_, operand) => operand.VarRef? && operand.name in native
    case Unary(_, rhs) => Scalar(native, rhs)
    case Binary(_, lhs, rhs) => Scalar(native, lhs) && Scalar(native, rhs)
    case Conditional(whenTrue, condition, whenFalse) =>
      Scalar(native, whenTrue) && Scalar(native, condition) && Scalar(native, whenFalse)
    case _ => false
  }

  /** The expression `part` stands somewhere in e, evaluated or not. */
  predicate Within(part: Expr, e: Expr) {
    part == e ||
    match e
    case IncDec(_, operand) => Within(part, operand)
    case Unary(_, rhs) => Within(part, rhs)
    case Binary(_, lhs, rhs) => Within(part, lhs) || Within(part, rhs)
    case Conditional(whenTrue, condition, whenFalse) =>
      Within(part, whenTrue) || Within(part, condition) || Within(part, whenFalse)
    case _ => false
  }

  predicate Steps(x: string, e: Expr) {
    exists kind :: Within(IncDec(kind, VarRef(x)), e)
  }

  /** The effects of a scalar expression are the native variables that stand in it and those
      that it increments or decrements, no more and no fewer. */
  lemma {:induction false} EffectsAre(native: set<string>, e: Expr)
    requires Scalar(native, e)
    ensures forall x :: x in EffectsOf(native, e).read <==> x in native && Within(VarRef(x), e)
    ensures forall x :: x in EffectsOf(native, e).written <==> Steps(x, e)
  {
    match e
    case IncDec(kind, operand) =>
      assert forall part :: Within(part, operand) <==> part == operand;
      assert forall part :: Within(part, e) <==> part == e || part == operand;
      assert e == IncDec(kind, VarRef(operand.name)) && Steps(operand.name, e);
    case Unary(_, rhs) =>
      EffectsAre(native, rhs);
      forall x ensures Steps(x, e) <==> Steps(x, rhs) { StepsSplit(x, e, rhs, rhs, rhs); }
    case Binary(_, lhs, rhs) =>
      EffectsAre(native, lhs);
      EffectsAre(native, rhs);
      forall x ensures Steps(x, e) <==> Steps(x, lhs) || Steps(x, rhs) { StepsSplit(x, e, lhs, rhs, rhs); }
    case Conditional(whenTrue, condition, whenFalse) =>
      EffectsAre(native, whenTrue);
      EffectsAre(native, condition);
      EffectsAre(native, whenFalse);
      forall x ensures Steps(x, e) <==> Steps(x, whenTrue) || Steps(x, condition) || Steps(x, whenFalse) {
        StepsSplit(x, e, whenTrue, condition, whenFalse);
      }
    case _ =>
  }

  lemma StepsSplit(x: string, e: Expr, a: Expr, b: Expr, c: Expr)
    requires forall part :: part != e ==> (Within(part, e) <==> Within(part, a) || Within(part, b) || Within(part, c))
    requires !e.IncDec? && a < e && b < e && c < e
    ensures Steps(x, e) <==> Steps(x, a) || Steps(x, b) || Steps(x, c)
  {
    forall kind ensures Within(IncDec(kind, VarRef(x)), e) <==>
        Within(IncDec(kind, VarRef(x)), a) || Within(IncDec(kind, VarRef(x)), b) || Within(IncDec(kind, VarRef(x)), c) {
      assert IncDec(kind, VarRef(x)) != e;
    }
  }

  /** Two sides clash exactly when one of them writes what the other reads or writes. */
  lemma ClashIff(a: Effects, b: Effects)
    ensures Clash(a, b) <==> exists x :: (x in a.written && (x in b.read || x in b.written)) || (x in b.written && x in a.read)
  {
    if !Clash(a, b) {
      NoClash(a, b);
    } else if a.written * (b.read + b.written) != {} {
      var x :| x in a.written * (b.read + b.written);
      assert x in a.written;
    } else {
      var x :| x in b.written * a.read;
      assert x in b.written;
    }
  }

  /** No unsequenced operator anywhere has operands that clash. */
  predicate Independent(native: set<string>, e: Expr) {
    match e
    case Unary(_, rhs) => Independent(native, rhs)
    case Binary(op, lhs, rhs) =>
      && Independent(native, lhs)
      && Independent(native, rhs)
      && (IsSequenced(op) || !Clash(EffectsOf(native, lhs), EffectsOf(native, rhs)))
    case Conditional(whenTrue, condition, whenFalse) =>
      Independent(native, whenTrue) && Independent(native, condition) && Independent(native, whenFalse)
    case _ => true
  }

  /** A node that stays silent because a conflict was found below has a report below. */
  lemma {:induction false} ConflictIsReported(native: set<string>, e: Expr)
    requires Scalar(native, e) && FindsConflict(native, e)
    ensures Reports(native, e) > 0
  {
    match e
    case Binary(op, lhs, rhs) =>
      if FindsConflict(native, lhs) {
        ConflictIsReported(native, lhs);
      } else if FindsConflict(native, rhs) {
        ConflictIsReported(native, rhs);
      }
    case Conditional(whenTrue, condition, whenFalse) =>
      if FindsConflict(native, condition) {
        ConflictIsReported(native, condition);
      } else if FindsConflict(native, whenTrue) {
        ConflictIsReported(native, whenTrue);
      } else {
        ConflictIsReported(native, whenFalse);
      }
    case _ =>
  }

  /** An expression passes without a report exactly when it is independent everywhere. */
  lemma {:induction false} SilentIffIndependent(native: set<string>, e: Expr)
    requires Scalar(native, e)
    ensures Reports(native, e) == 0 <==> Independent(native, e)
  {
    match e
    case Unary(_, rhs) => SilentIffIndependent(native, rhs);
    case Binary(op, lhs, rhs) =>
      SilentIffIndependent(native, lhs);
      SilentIffIndependent(native, rhs);
      if FindsConflict(native, lhs) { ConflictIsReported(native, lhs); }
      if FindsConflict(native, rhs) { ConflictIsReported(native, rhs); }
    case Conditional(whenTrue, condition, whenFalse) =>
      SilentIffIndependent(native, whenTrue);
      SilentIffIndependent(native, condition);
      SilentIffIndependent(native, whenFalse);
    case _ =>
  }

  /** Reading a variable beside its step is reported for every operator but "and", "or" and
      the one that evaluates its operands one after the other. */
  lemma OnlyUnsequencedReported(native: set<string>, op: BinOp, kind: IncDecKind, x: string)
    requires x in native
    ensures Reports(native, Binary(op, IncDec(kind, VarRef(x)), VarRef(x))) == (if op in {And, Or, Comma} then 0 else 1)
  {
    var step, read := IncDec(kind, VarRef(x)), VarRef(x);
    EffectsAre(native, step);
    EffectsAre(native, read);
    assert Within(step, step) && x in EffectsOf(native, step).written && x in EffectsOf(native, read).read;
    ClashIff(EffectsOf(native, step), EffectsOf(native, read));
  }

  /** Arguments conflict exactly when one of them does in itself or two different ones clash. */
  lemma {:induction false} ArgumentsConflictIff(native: set<string>, args: seq<Expr>)
    ensures ArgumentsConflict(native, args) <==>
            || (exists i :: 0 <= i < |args| && FindsConflict(native, args[i]))
            || (exists i, j :: 0 <= i < j < |args| && Clash(EffectsOf(native, args[i]), EffectsOf(native, args[j])))
  {
    if args != [] {
      var rest := args[1..];
      ArgumentsConflictIff(native, rest);
      hide FindsConflict, Clash, EffectsOf;
      forall i | 0 <= i < |rest| ensures rest[i] == args[i + 1] {}
      if i :| 0 <= i < |args| && FindsConflict(native, args[i]) {
        if i > 0 { assert rest[i - 1] == args[i]; }
      }
      if i, j :| 0 <= i < j < |args| && Clash(EffectsOf(native, args[i]), EffectsOf(native, args[j])) {
        if i > 0 { assert rest[i - 1] == args[i] && rest[j - 1] == args[j]; }
      }
    }
  }
}
