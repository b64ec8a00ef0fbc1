/** That the rules of assignment reject nothing without need: each is the weakest one that
    keeps constants constant and values in their types. */
module ConstRules {
  import opened Options
  import opened Types
  import opened Primitives
  import opened Ast
  import opened Constants
  import opened Conversions
  import opened ConstSafety
  import opened ConstSoundness

  // ----- converted values -----

  /** Conversion to an integer type: the one value of the type that is the same modulo its
      width, and for Boolean the answer whether the value is not zero. */
  lemma ConversionIs(m: DataModel, b: Base, n: int)
    requires m.Valid() && IsInteger(b)
    ensures Holds(m, b, ConvertInt(m, b, n))
    ensures b.Boolean? ==> (ConvertInt(m, b, n) == 1 <==> n != 0)
    ensures !b.Boolean? ==> (ConvertInt(m, b, n) - n) % Pow2(Bits(m, b)) == 0
    ensures Holds(m, b, n) ==> ConvertInt(m, b, n) == n
  {
    ConvertHolds(m, b, n);
    if !b.Boolean? {
      var size := Pow2(Bits(m, b));
      if IsUnsigned(m, b) {
        Congruent(n, size);
        if Holds(m, b, n) { Residue(n, size); }
      } else {
        var half := Pow2(Bits(m, b) - 1);
        Congruent(n + half, size);
        if Holds(m, b, n) { SignedZero(half, n); }
      }
    }
  }

  lemma Congruent(n: int, size: int)
    requires size > 0
    ensures (n % size - n) % size == 0
  {
    var q := n / size;
    assert n % size - n == size * -q + 0 by { Negated(size, q); }
    QuotientIs(n % size - n, size, -q, 0);
  }

  /** A test sees of a number or a null what conversion to Boolean gives, and takes a pointer to
      an object for true. */
  lemma TestIsConversion(m: DataModel, v: Value)
    requires m.Valid()
    ensures v.PtrTo? ==> Truthy(v)
    ensures !v.PtrTo? ==> Converted(m, Plain(PLAIN, Boolean), v) == Some(IntV(if Truthy(v) then 1 else 0))
  {
  }

  /** The number one above or one below. */
  function Next(kind: IncDecKind, n: int): int {
    if kind.PrefixIncrement? || kind.PostfixIncrement? then n + 1 else n - 1
  }

  lemma BumpsVariable(m: DataModel, env: Env, kind: IncDecKind, x: string, store: Objects)
    requires Setting(m, env) && x in env && x in store && !TopQualifiers(env[x]).isConst
    ensures var new_ := Stepped(m, env[x], store[x], Next(kind, 0));
            Eval(m, env, IncDec(kind, VarRef(x)), store) ==
            if new_.Done? then Done(if kind.PrefixIncrement? || kind.PrefixDecrement? then new_.value else store[x], store[x := new_.value])
            else new_
  {
    hide Stepped, Holds, Promote, UsualArithmetic, ConditionalType;
    if env[x].Pointer? { PointeeIsObject(env[x]); }
    assert Locate(m, env, VarRef(x), store) == Done(PtrTo(x, 0), store);
    assert TypeOf(m, env, VarRef(x)) == Some(env[x]);
  }

  lemma IntegerSteps(m: DataModel, t: Type, n: int, change: int)
    requires m.Valid() && t.Plain? && IsInteger(t.base) && Holds(m, t.base, n)
    ensures Holds(m, t.base, n + change) ==> Stepped(m, t, IntV(n), change) == Done(IntV(n + change), map[])
    ensures Promote(m, t.base) == t.base && t.base.Integer? && !t.base.isUnsigned && !Holds(m, t.base, n + change) ==>
              Stepped(m, t, IntV(n), change) == Undefined
  {
    if Holds(m, t.base, n + change) {
      ConversionIs(m, t.base, n + change);
      PromotionPreserves(m, t.base, n + change);
    }
    hide Holds, ConvertInt, Promote;
  }

  /** Stepping an integer object that may change: the next number is stored when the type holds
      it, and an overflow of a type that promotion leaves signed is undefined. */
  lemma StepIs(m: DataModel, env: Env, kind: IncDecKind, x: string, store: Objects)
    requires Setting(m, env) && x in env && x in store && env[x].Plain? && !env[x].q.isConst
    requires store[x].IntV? && Holds(m, env[x].base, store[x].v)
    ensures var n, after := store[x].v, Eval(m, env, IncDec(kind, VarRef(x)), store);
            && (Holds(m, env[x].base, Next(kind, n)) ==>
                  after == Done(IntV(if kind.PrefixIncrement? || kind.PrefixDecrement? then Next(kind, n) else n),
                                store[x := IntV(Next(kind, n))]))
            && (Promote(m, env[x].base) == env[x].base && !env[x].base.isUnsigned && !Holds(m, env[x].base, Next(kind, n)) ==>
                  after == Undefined)
  {
    BumpsVariable(m, env, kind, x, store);
    IntegerSteps(m, env[x], store[x].v, Next(kind, store[x].v) - store[x].v);
    hide Holds, Promote, Stepped, Eval;
  }

  /** Stepping a pointer object: it may go from an object to just past it and back. */
  lemma PointerStepIs(m: DataModel, env: Env, kind: IncDecKind, x: string, store: Objects)
    requires Setting(m, env) && x in env && x in store && env[x].Pointer? && !env[x].q.isConst && store[x].PtrTo?
    ensures var p, after := store[x], Eval(m, env, IncDec(kind, VarRef(x)), store);
            var next := PtrTo(p.name, Next(kind, p.offset));
            after == if next.offset in {0, 1}
                     then Done(if kind.PrefixIncrement? || kind.PrefixDecrement? then next else p, store[x := next])
                     else Undefined
  {
    BumpsVariable(m, env, kind, x, store);
    hide Eval;
  }

  // ----- writing -----

  /** A target is rejected only when an object it may designate is constant. */
  lemma ModifiableIsWeakest(t: Type)
    requires Storable(t)
    ensures Modifiable(t) <==> forall declared :: Reaches(t, declared) ==> !TopQualifiers(declared).isConst
  {
    assert Reaches(t, t);
  }

  /** What the evaluator knows of an expression agrees with its type. */
  predicate Consistent(t: Type, e: Expr) {
    && (e.NullptrLit? ==> IsNullptr(t))
    && (IntegerConstantValue(e).Some? ==> !IsNullptr(t) && (t.Pointer? ==> IntegerConstantValue(e).value == 0))
  }

  lemma {:induction false} TypesAreConsistent(m: DataModel, env: Env, e: Expr)
    requires Setting(m, env) && TypeOf(m, env, e).Some?
    ensures Consistent(TypeOf(m, env, e).value, e)
  {
    TypesStay(m, env, e);
    if e.Conditional? {
      TypesStay(m, env, e.whenTrue);
      TypesStay(m, env, e.whenFalse);
      TypesAreConsistent(m, env, e.whenTrue);
      TypesAreConsistent(m, env, e.whenFalse);
      var l, r := TypeOf(m, env, e.whenTrue).value, TypeOf(m, env, e.whenFalse).value;
      if IsArithmeticType(l) && IsArithmeticType(r) { StaysInteger(m, l.base, r.base); }
    }
  }

  /** Every value the expression may have in any surroundings is converted to one of the target. */
  ghost predicate AllConvert(m: DataModel, target: Type, source: Type, e: Expr)
    requires m.Valid()
  {
    forall env, v :: Setting(m, env) && Fits(m, env, source, v) && ShowsConstant(e, v) ==>
      Converted(m, target, v).Some? && Fits(m, env, target, Converted(m, target, v).value)
  }

  predicate IsBoolean(t: Type) { t.Plain? && t.base.Boolean? }

  /** An assignment is rejected only when some value of the source has no counterpart in the
      target, or to keep every pointer, even one that is always null, out of a Boolean. */
  lemma AssignmentRuleIsWeakest(m: DataModel, target: Type, source: Type, e: Expr)
    requires m.Valid() && m.longBits == LONG_BITS && Storable(target) && ValueType(source) && Consistent(source, e)
    ensures AssignableExpr(target, source, e) <==>
            AllConvert(m, target, source, e) && !(IsBoolean(target) && source.Pointer?)
  {
    if AssignableExpr(target, source, e) {
      forall env, v | Setting(m, env) && Fits(m, env, source, v) && ShowsConstant(e, v)
        ensures Converted(m, target, v).Some? && Fits(m, env, target, Converted(m, target, v).value)
      {
        ConvertedFits(m, env, target, source, e, v);
      }
    } else if !(IsBoolean(target) && source.Pointer?) {
      LostValue(m, target, source, e);
    }
  }

  lemma LostValue(m: DataModel, target: Type, source: Type, e: Expr)
    requires m.Valid() && m.longBits == LONG_BITS && Storable(target) && ValueType(source) && Consistent(source, e)
    requires !AssignableExpr(target, source, e) && !(IsBoolean(target) && source.Pointer?)
    ensures !AllConvert(m, target, source, e)
  {
    Requalified(target, PLAIN);
    if source.Pointer? {
      var env, v := map["x" := source.to], if IntegerConstantValue(e).Some? then Null else PtrTo("x", 0);
      assert Setting(m, env) && Fits(m, env, source, v) && ShowsConstant(e, v);
      if target.Pointer? {
        Requalified(target.to, PLAIN);
        Requalified(source.to, PLAIN);
      }
    } else if source.base.Nullptr? {
      assert Setting(m, map[]) && Fits(m, map[], source, Null) && ShowsConstant(e, Null);
    } else {
      assert Holds(m, source.base, 1) by { OneHeld(m, source.base); }
      assert Setting(m, map[]) && Fits(m, map[], source, IntV(1)) && ShowsConstant(e, IntV(1));
    }
  }

  lemma OneHeld(m: DataModel, b: Base)
    requires m.Valid() && IsInteger(b)
    ensures Holds(m, b, 1)
  {
    assert Pow2(1) == 2;
    Pow2Monotone(1, m.charBits - 1);
    Pow2Monotone(1, m.charBits);
    Pow2Monotone(1, m.shortBits - 1);
    Pow2Monotone(1, m.intBits - 1);
    Pow2Monotone(1, m.longBits - 1);
    Pow2Monotone(1, m.longLongBits - 1);
    Pow2Monotone(1, m.shortBits);
    Pow2Monotone(1, m.intBits);
    Pow2Monotone(1, m.longBits);
    Pow2Monotone(1, m.longLongBits);
  }

  // ----- choosing -----

  predicate IsNull(t: Type, e: Expr) { IsNullptr(t) || IntegerConstantValue(e) == Some(0) }

  /** Two operands have a common type exactly when both are integers, both null, both pointers to
      the same type qualifiers aside, or a pointer and a null. */
  lemma ChoiceTypedIff(m: DataModel, l: Type, r: Type, whenTrue: Expr, whenFalse: Expr)
    requires m.Valid() && ValueType(l) && ValueType(r) && Consistent(l, whenTrue) && Consistent(r, whenFalse)
    ensures ConditionalType(m, l, r, whenTrue, whenFalse).Some? <==>
            || (IsInteger(BaseOf(l)) && IsInteger(BaseOf(r)))
            || (IsNullptr(l) && IsNullptr(r))
            || (l.Pointer? && r.Pointer? && Unqualified(l.to) == Unqualified(r.to))
            || (l.Pointer? && IsNull(r, whenFalse))
            || (r.Pointer? && IsNull(l, whenTrue))
  {
    if l.Pointer? { Requalified(l.to, PLAIN); }
    if r.Pointer? { Requalified(r.to, PLAIN); }
  }

  function BaseOf(t: Type): Base {
    if t.Plain? then t.base else Nullptr
  }

  /** Of two pointers neither of which is a null constant, the common type is the least one
      that what both point to may be reached through. */
  lemma ChosenPointerIsLeast(m: DataModel, l: Type, r: Type, whenTrue: Expr, whenFalse: Expr, t: Type)
    requires m.Valid() && l.Pointer? && r.Pointer? && Storable(l) && Storable(r) && Storable(t)
    requires !IsNull(l, whenTrue) && !IsNull(r, whenFalse) && Consistent(l, whenTrue) && Consistent(r, whenFalse)
    requires Unqualified(l.to) == Unqualified(r.to)
    ensures var c := ConditionalType(m, l, r, whenTrue, whenFalse);
            && c.Some? && c.value.Pointer? && Reaches(c.value.to, l.to) && Reaches(c.value.to, r.to)
            && (Reaches(t, l.to) && Reaches(t, r.to) ==> Reaches(t, c.value.to))
  {
    Requalified(l.to, Combined(TopQualifiers(l.to), TopQualifiers(r.to)));
    Requalified(r.to, PLAIN);
    Requalified(t, PLAIN);
  }

  // ----- typing -----

  /** The parts of e have types that fit together. */
  predicate PartsFit(m: DataModel, env: Env, e: Expr)
    requires m.Valid()
  {
    match e
    case IntLit(_) => true
    case BoolLit(_) => true
    case NullptrLit => true
    case VarRef(name) => name in env
    case AddressOf(name) => name in env
    case Deref(pointer) =>
      var p := TypeOf(m, env, pointer);
      p.Some? && p.value.Pointer?
    case Conditional(whenTrue, condition, whenFalse) =>
      var l, r := TypeOf(m, env, whenTrue), TypeOf(m, env, whenFalse);
      && TypeOf(m, env, condition).Some? && l.Some? && r.Some?
      && ConditionalType(m, Unqualified(l.value), Unqualified(r.value), whenTrue, whenFalse).Some?
    case IncDec(_, operand) =>
      var o := TypeOf(m, env, operand);
      o.Some? && (operand.VarRef? || operand.Deref?) && IsScalar(o.value) && !IsNullptr(o.value) && !TopQualifiers(o.value).isConst
    case _ => false
  }

  /** In these settings an expression is rejected only for a name that is not there, for following
      what is no pointer, for choosing between operands with no common type, or for stepping
      what is no object that may change. */
  lemma TypedIff(m: DataModel, env: Env, e: Expr)
    requires Setting(m, env)
    ensures TypeOf(m, env, e).Some? <==> PartsFit(m, env, e)
  {
    if e.Deref? {
      DerefTyped(m, env, e.pointer);
    } else if e.Conditional? {
      ChoiceTyped(m, env, e);
    } else if e.IncDec? {
      StepTyped(m, env, e);
    }
  }

  lemma DerefTyped(m: DataModel, env: Env, pointer: Expr)
    requires Setting(m, env)
    ensures var p := TypeOf(m, env, pointer);
            TypeOf(m, env, Deref(pointer)).Some? <==> p.Some? && p.value.Pointer?
  {
    TypesStay(m, env, pointer);
    var p := TypeOf(m, env, pointer);
    if p.Some? && p.value.Pointer? { PointeeIsObject(p.value); }
  }

  lemma PointeeIsObject(t: Type)
    requires t.Pointer? && Storable(t)
    ensures Decay(t) == Pointer(PLAIN, t.to) && IsObject(t.to)
  {
    Requalified(t.to, PLAIN);
  }

  lemma ChoiceTyped(m: DataModel, env: Env, e: Expr)
    requires Setting(m, env) && e.Conditional?
    ensures TypeOf(m, env, e).Some? <==> PartsFit(m, env, e)
  {
    TypesStay(m, env, e.whenTrue);
    TypesStay(m, env, e.whenFalse);
    TypesStay(m, env, e.condition);
    hide ConditionalType, IsArithmetic, Setting;
  }

  lemma StepTyped(m: DataModel, env: Env, e: Expr)
    requires Setting(m, env) && e.IncDec?
    ensures TypeOf(m, env, e).Some? <==> PartsFit(m, env, e)
  {
    TypesStay(m, env, e.operand);
    var o := TypeOf(m, env, e.operand);
    if o.Some? && o.value.Pointer? { PointeeIsObject(o.value); }
    hide ConditionalType, Setting;
  }

  /** What is written is of a type, may be written there, and has a value there. */
  ghost predicate WritesFit(m: DataModel, env: Env, s: Stmt)
    requires m.Valid()
  {
    var t := TypeOf(m, env, s.expr);
    && t.Some?
    && match s
       case Set(name, e) =>
         && name in env && !TopQualifiers(env[name]).isConst
         && AllConvert(m, env[name], t.value, e) && !(IsBoolean(env[name]) && t.value.Pointer?)
       case SetValueAt(pointer, e) =>
         var p := TypeOf(m, env, pointer);
         && p.Some? && p.value.Pointer?
         && (forall declared :: Reaches(p.value.to, declared) ==> !TopQualifiers(declared).isConst)
         && AllConvert(m, p.value.to, t.value, e) && !(IsBoolean(p.value.to) && t.value.Pointer?)
       case Test(_) => true
  }

  /** A statement is accepted exactly when its expressions are typed, what it writes may not be
      constant, and every value it may write there is one of the object's type. */
  lemma AcceptedIff(m: DataModel, env: Env, s: Stmt)
    requires Setting(m, env)
    ensures Accepts(m, env, s) <==> WritesFit(m, env, s)
  {
    var e := s.expr;
    TypesStay(m, env, e);
    var t := TypeOf(m, env, e);
    if t.Some? {
      TypesAreConsistent(m, env, e);
      if s.Set? && s.name in env { AssignmentRuleIsWeakest(m, env[s.name], t.value, e); }
    }
    if s.SetValueAt? {
      TypesStay(m, env, s.pointer);
      var p := TypeOf(m, env, s.pointer);
      if p.Some? && t.Some? && p.value.Pointer? {
        ModifiableIsWeakest(p.value.to);
        AssignmentRuleIsWeakest(m, p.value.to, t.value, e);
      }
    }
  }

  // ----- pointers to anything -----

  /** Types of the same sort, whatever their widths, signs and tags. */
  predicate SameSort(a: Type, b: Type) {
    match (a, b)
    case (Pointer(_, _), Pointer(_, _)) => true
    case (Array(_, _), Array(_, _)) => true
    case (Function(_, _, _), Function(_, _, _)) => true
    case (Plain(_, x), Plain(_, y)) =>
      || (x.Void? && y.Void?) || (x.Boolean? && y.Boolean?) || (x.Floating? && y.Floating?) || (x.Complex? && y.Complex?)
      || (x.BitInt? && y.BitInt?) || (x.Structure? && y.Structure?) || (x.Union? && y.Union?)
      || (x.Enumeration? && y.Enumeration?) || (x.Nullptr? && y.Nullptr?)
      || ((x.Character? || x.Integer?) && (y.Character? || y.Integer?))
    case _ => false
  }

  /** Pointers may be assigned between two objects of one type, between void and any object, and
      between functions whose parameters and results are of the same sorts. */
  lemma PointeesIff(to: Type, from: Type)
    ensures BasesCompatible(to, from) <==>
            if to.Function? && from.Function? then
              && to.variadic == from.variadic && |to.params| == |from.params| && SameSort(to.result, from.result)
              && forall i :: 0 <= i < |to.params| ==> SameSort(to.params[i], from.params[i])
            else
              || Unqualified(to) == Unqualified(from)
              || (IsVoid(to) && !from.Function?)
              || (IsVoid(from) && !to.Function?)
  {
    forall a, b ensures Kind(a) == Kind(b) <==> SameSort(a, b) {}
  }
}
