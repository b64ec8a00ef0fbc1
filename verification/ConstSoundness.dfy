/** The const guarantee, proved over whole runs. */
module ConstSoundness {
  import opened Options
  import opened Types
  import opened Primitives
  import opened Ast
  import opened Constants
  import opened Conversions
  import opened ConstSafety

  // ----- conversions keep the invariant -----

  lemma ConvertHolds(m: DataModel, b: Base, n: int)
    requires m.Valid() && IsInteger(b)
    ensures Holds(m, b, ConvertInt(m, b, n))
  {
    if !b.Boolean? && !IsUnsigned(m, b) {
      Wrapped(Bits(m, b), n);
    }
  }

  lemma Wrapped(width: nat, n: int)
    requires width > 0
    ensures var half: int := Pow2(width - 1);
            -half <= (n + half) % (2 * half) - half < half
  {
  }

  /** Converting an operand to the common type never turns a non-zero value into zero. */
  lemma ConvertZero(m: DataModel, from: Base, other: Base, n: int)
    requires m.Valid() && IsInteger(from) && IsInteger(other) && Holds(m, from, n)
    ensures ConvertInt(m, UsualArithmetic(m, from, other), n) == 0 <==> n == 0
  {
    var common := UsualInteger(m, from, other);
    StaysInteger(m, from, other);
    if common.isUnsigned {
      UnsignedCommon(m, from, other, n);
    } else {
      SignedResultPreserves(m, from, other, n);
      SignedZero(Pow2(Width(m, common.rank) - 1), n);
    }
  }

  lemma SignedZero(half: int, n: int)
    requires half > 0 && -half <= n < half
    ensures (n + half) % (2 * half) - half == n
  {
    Residue(n + half, 2 * half);
  }

  lemma UnsignedCommon(m: DataModel, from: Base, other: Base, n: int)
    requires m.Valid() && IsInteger(from) && IsInteger(other) && Holds(m, from, n)
    requires UsualInteger(m, from, other).Integer? && UsualInteger(m, from, other).isUnsigned
    ensures n % Pow2(Width(m, UsualInteger(m, from, other).rank)) == 0 <==> n == 0
  {
    var promoted, common := Promote(m, from), UsualInteger(m, from, other);
    PromotionPreserves(m, from, n);
    LeastUpperBound(m, from, other, INT);
    RanksWiden(m, promoted.rank, common.rank);
    UnsignedZero(Width(m, promoted.rank), promoted.isUnsigned, Width(m, common.rank), n);
  }

  lemma UnsignedZero(narrow: nat, isUnsigned: bool, wide: nat, n: int)
    requires 0 < narrow <= wide && InWidth(narrow, isUnsigned, n)
    ensures n % Pow2(wide) == 0 <==> n == 0
  {
    WiderHolds(narrow, wide);
    Residue(n, Pow2(wide));
  }

  lemma Residue(n: int, size: int)
    requires size > 0 && -size < n < size
    ensures n % size == if n < 0 then n + size else n
  {
  }

  // ----- types -----

  predicate ValueType(t: Type) {
    Storable(t) || (t.Plain? && t.base.Nullptr?)
  }

  lemma Requalified(t: Type, q: Qualifiers)
    requires Storable(t)
    ensures Storable(Unqualified(t)) && IsObject(Unqualified(t)) && Unqualified(t) == Decay(t)
    ensures Requalify(Unqualified(t), q) == Requalify(t, q) && Storable(Requalify(t, q))
    ensures TopQualifiers(Requalify(t, q)) == q
  {
  }

  lemma ConditionalStays(m: DataModel, l: Type, r: Type, whenTrue: Expr, whenFalse: Expr)
    requires m.Valid() && ValueType(l) && ValueType(r)
    ensures var t := ConditionalType(m, l, r, whenTrue, whenFalse); t.Some? ==> ValueType(t.value)
  {
    if IsArithmeticType(l) && IsArithmeticType(r) {
      StaysInteger(m, l.base, r.base);
    } else if l.Pointer? && r.Pointer? {
      Requalified(l.to, Combined(TopQualifiers(l.to), TopQualifiers(r.to)));
      Requalified(r.to, PLAIN);
    }
  }

  lemma {:induction false} TypesStay(m: DataModel, env: Env, e: Expr)
    requires Setting(m, env)
    ensures var t := TypeOf(m, env, e); t.Some? ==> ValueType(t.value)
  {
    match e
    case Deref(pointer) => TypesStay(m, env, pointer);
    case IncDec(_, operand) => TypesStay(m, env, operand);
    case Conditional(whenTrue, condition, whenFalse) =>
      TypesStay(m, env, whenTrue);
      TypesStay(m, env, whenFalse);
      var l, r := TypeOf(m, env, whenTrue), TypeOf(m, env, whenFalse);
      if l.Some? && r.Some? {
        ConditionalStays(m, Decay(l.value), Decay(r.value), whenTrue, whenFalse);
      }
    case _ =>
  }

  // ----- evaluation keeps the invariant -----

  ghost predicate Sound(m: DataModel, env: Env, t: Type, before: Objects, result: Outcome)
    requires m.Valid()
  {
    match result
    case Stuck => false
    case Undefined => true
    case Done(v, after) => Fits(m, env, t, v) && Good(m, env, after) && ConstantsKept(env, before, after)
  }

  /** The object found is reached through the lvalue's type. */
  ghost predicate Found(m: DataModel, env: Env, t: Type, before: Objects, place: Outcome)
    requires m.Valid()
  {
    match place
    case Stuck => false
    case Undefined => true
    case Done(v, after) =>
      && v.PtrTo? && v.offset == 0 && v.name in env && Reaches(t, env[v.name])
      && Good(m, env, after) && ConstantsKept(env, before, after)
  }

  lemma ReadSound(m: DataModel, env: Env, t: Type, before: Objects, place: Outcome)
    requires m.Valid() && Found(m, env, t, before, place) && ValueType(t)
    ensures Sound(m, env, t, before, ReadAt(place))
  {
  }

  lemma WriteSound(m: DataModel, env: Env, t: Type, before: Objects, now: Objects, name: string, v: Value)
    requires m.Valid() && Good(m, env, now) && ConstantsKept(env, before, now)
    requires name in env && Reaches(t, env[name]) && Modifiable(t) && Fits(m, env, t, v)
    ensures Good(m, env, now[name := v]) && ConstantsKept(env, before, now[name := v])
  {
  }

  lemma StepFits(m: DataModel, env: Env, t: Type, v: Value, change: int)
    requires m.Valid() && Storable(t) && Fits(m, env, t, v)
    ensures var new_ := Stepped(m, t, v, change);
            !new_.Stuck? && (new_.Done? ==> Fits(m, env, t, new_.value))
  {
    if t.Plain? { ConvertHolds(m, t.base, v.v + change); }
  }

  lemma BumpSound(m: DataModel, env: Env, t: Type, kind: IncDecKind, before: Objects, place: Outcome)
    requires m.Valid() && Found(m, env, t, before, place) && Storable(t) && Modifiable(t)
    ensures Sound(m, env, t, before, Bump(m, t, kind, place))
  {
    ReadSound(m, env, t, before, place);
    var old_ := ReadAt(place);
    if old_.Done? {
      var change := if kind.PrefixIncrement? || kind.PostfixIncrement? then 1 else -1;
      StepFits(m, env, t, old_.value, change);
      var new_ := Stepped(m, t, old_.value, change);
      if new_.Done? { WriteSound(m, env, t, before, old_.store, place.value.name, new_.value); }
    }
  }

  /** Conversion to the type of the target, by every branch of the assignment rule. */
  lemma ConvertedFits(m: DataModel, env: Env, target: Type, source: Type, e: Expr, v: Value)
    requires m.Valid() && Storable(target) && ValueType(source)
    requires AssignableExpr(target, source, e) && Fits(m, env, source, v) && ShowsConstant(e, v)
    ensures Converted(m, target, v).Some? && Fits(m, env, target, Converted(m, target, v).value)
  {
    if target.Plain? && v.IntV? {
      ConvertHolds(m, target.base, v.v);
    } else if target.Pointer? && source.Pointer? {
      Requalified(target.to, PLAIN);
      Requalified(source.to, PLAIN);
    }
  }

  /** The value of the selected operand of a Choose, converted to its common type. */
  lemma ChosenFits(m: DataModel, env: Env, l: Type, r: Type, whenTrue: Expr, whenFalse: Expr, first: bool, v: Value)
    requires m.Valid() && ValueType(l) && ValueType(r)
    requires ConditionalType(m, l, r, whenTrue, whenFalse).Some?
    requires Fits(m, env, if first then l else r, v) && ShowsConstant(if first then whenTrue else whenFalse, v)
    ensures var t := ConditionalType(m, l, r, whenTrue, whenFalse).value;
            var c := Converted(m, t, v);
            c.Some? && Fits(m, env, t, c.value) && ShowsConstant(if first then whenTrue else whenFalse, c.value)
  {
    if IsArithmeticType(l) && IsArithmeticType(r) {
      StaysInteger(m, l.base, r.base);
      Commutative(m, l.base, r.base);
      ConvertHolds(m, UsualArithmetic(m, l.base, r.base), v.v);
      if first { ConvertZero(m, l.base, r.base, v.v); } else { ConvertZero(m, r.base, l.base, v.v); }
    } else if l.Pointer? && r.Pointer? {
      var q := Combined(TopQualifiers(l.to), TopQualifiers(r.to));
      Requalified(l.to, q);
      Requalified(r.to, q);
    }
  }

  lemma SoundAfter(m: DataModel, env: Env, t: Type, before: Objects, middle: Objects, result: Outcome)
    requires m.Valid() && ConstantsKept(env, before, middle) && Sound(m, env, t, middle, result)
    ensures Sound(m, env, t, before, result)
  {
  }

  lemma ConditionalSound(m: DataModel, env: Env, e: Expr, before: Objects, c: Value, after: Objects)
    requires Setting(m, env) && e.Conditional? && TypeOf(m, env, e).Some?
    requires Eval(m, env, e.condition, before) == Done(c, after)
    requires ConstantsKept(env, before, after) && ShowsConstant(e.condition, c)
    requires var selected := if Truthy(c) then e.whenTrue else e.whenFalse;
             var v := Eval(m, env, selected, after);
             && Sound(m, env, Decay(TypeOf(m, env, selected).value), after, v)
             && (v.Done? ==> ShowsConstant(selected, v.value))
    ensures var t, result := TypeOf(m, env, e).value, Eval(m, env, e, before);
            && Sound(m, env, Decay(t), before, result)
            && (result.Done? ==> ShowsConstant(e, result.value))
  {
    var selected := if Truthy(c) then e.whenTrue else e.whenFalse;
    TypesStay(m, env, e.whenTrue);
    TypesStay(m, env, e.whenFalse);
    var l, r := Decay(TypeOf(m, env, e.whenTrue).value), Decay(TypeOf(m, env, e.whenFalse).value);
    var v := Eval(m, env, selected, after);
    SoundAfter(m, env, Decay(TypeOf(m, env, selected).value), before, after, v);
    if v.Done? {
      ChosenFits(m, env, l, r, e.whenTrue, e.whenFalse, Truthy(c), v.value);
    }
  }

  /** An accepted expression never applies an operation to a value of the wrong type, its value
      fits its type, and no constant object changes. */
  lemma {:induction false} EvalSound(m: DataModel, env: Env, e: Expr, store: Objects)
    requires Setting(m, env) && Good(m, env, store) && TypeOf(m, env, e).Some?
    ensures var t, result := TypeOf(m, env, e).value, Eval(m, env, e, store);
            && ValueType(t)
            && Sound(m, env, Decay(t), store, result)
            && (result.Done? ==> ShowsConstant(e, result.value))
    decreases e, 1
  {
    TypesStay(m, env, e);
    var t := TypeOf(m, env, e).value;
    match e
    case IntLit(n) => LiteralFits(m, n);
    case BoolLit(flag) => LiteralFits(m, BoolValue(flag));
    case NullptrLit =>
    case AddressOf(name) =>
    case VarRef(_) =>
      LocateSound(m, env, e, store);
      ReadSound(m, env, t, store, Locate(m, env, e, store));
    case Deref(_) =>
      LocateSound(m, env, e, store);
      ReadSound(m, env, t, store, Locate(m, env, e, store));
    case IncDec(kind, operand) =>
      LocateSound(m, env, operand, store);
      TypesStay(m, env, operand);
      BumpSound(m, env, TypeOf(m, env, operand).value, kind, store, Locate(m, env, operand, store));
    case Conditional(whenTrue, condition, whenFalse) =>
      EvalSound(m, env, condition, store);
      var c := Eval(m, env, condition, store);
      if c.Done? {
        EvalSound(m, env, if Truthy(c.value) then whenTrue else whenFalse, c.store);
        ConditionalSound(m, env, e, store, c.value, c.store);
      }
    case _ =>
  }

  lemma LiteralFits(m: DataModel, n: long)
    requires m.Valid() && m.longBits == LONG_BITS
    ensures Holds(m, NUMBER.base, n)
  {
    SignBit();
  }

  lemma {:induction false} LocateSound(m: DataModel, env: Env, e: Expr, store: Objects)
    requires Setting(m, env) && Good(m, env, store) && TypeOf(m, env, e).Some? && (e.VarRef? || e.Deref?)
    ensures Found(m, env, TypeOf(m, env, e).value, store, Locate(m, env, e, store))
    ensures Storable(TypeOf(m, env, e).value)
    decreases e, 0
  {
    if e.Deref? {
      EvalSound(m, env, e.pointer, store);
    }
  }

  // ----- statements and runs -----

  lemma WriteThrough(m: DataModel, env: Env, to: Type, source: Type, e: Expr, before: Objects, place: Outcome, v: Value)
    requires m.Valid() && Storable(to) && ValueType(source) && Modifiable(to)
    requires place.Done? && Found(m, env, to, before, place)
    requires AssignableExpr(to, source, e) && Fits(m, env, source, v) && ShowsConstant(e, v)
    ensures var result := WriteAt(m, to, place, Done(v, place.store));
            result.Done? && Good(m, env, result.store) && ConstantsKept(env, before, result.store)
  {
    ConvertedFits(m, env, to, source, e, v);
    WriteSound(m, env, to, before, place.store, place.value.name, Converted(m, to, v).value);
  }

  /** The source type may be taken with or without decay: neither changes an assignment. */
  lemma DecayedSource(m: DataModel, env: Env, target: Type, source: Type, e: Expr)
    requires Storable(target) && ValueType(source) && AssignableExpr(target, source, e)
    ensures ValueType(Decay(source)) && AssignableExpr(target, Decay(source), e)
  {
  }

  ghost predicate Kept(m: DataModel, env: Env, before: Objects, result: Outcome)
    requires m.Valid()
  {
    match result
    case Stuck => false
    case Undefined => true
    case Done(_, after) => Good(m, env, after) && ConstantsKept(env, before, after)
  }

  lemma SetSound(m: DataModel, env: Env, s: Stmt, store: Objects)
    requires Setting(m, env) && Good(m, env, store) && s.Set? && Accepts(m, env, s)
    ensures Kept(m, env, store, Perform(m, env, s, true, store))
  {
    EvalSound(m, env, s.expr, store);
    var value := Eval(m, env, s.expr, store);
    var t := TypeOf(m, env, s.expr).value;
    DecayedSource(m, env, env[s.name], t, s.expr);
    if value.Done? {
      WriteThrough(m, env, env[s.name], Decay(t), s.expr, store, Done(PtrTo(s.name, 0), value.store), value.value);
    }
  }

  lemma StoreSound(m: DataModel, env: Env, s: Stmt, pointerFirst: bool, store: Objects)
    requires Setting(m, env) && Good(m, env, store) && s.SetValueAt? && Accepts(m, env, s)
    ensures Kept(m, env, store, Perform(m, env, s, pointerFirst, store))
  {
    var to, t := TypeOf(m, env, s.pointer).value.to, TypeOf(m, env, s.expr).value;
    TypesStay(m, env, s.pointer);
    var one, other := if pointerFirst then s.pointer else s.expr, if pointerFirst then s.expr else s.pointer;
    EvalSound(m, env, one, store);
    var first := Eval(m, env, one, store);
    if first.Done? {
      EvalSound(m, env, other, first.store);
      SoundAfter(m, env, Decay(TypeOf(m, env, other).value), store, first.store, Eval(m, env, other, first.store));
      TypesStay(m, env, s.expr);
      DecayedSource(m, env, to, t, s.expr);
      var second := Eval(m, env, other, first.store);
      if second.Done? {
        var pointer, v := if pointerFirst then first.value else second.value, if pointerFirst then second.value else first.value;
        var place := Target(Done(pointer, second.store));
        if place.Done? {
          WriteThrough(m, env, to, Decay(t), s.expr, store, place, v);
        }
      }
    }
  }

  lemma PerformSound(m: DataModel, env: Env, s: Stmt, pointerFirst: bool, store: Objects)
    requires Setting(m, env) && Good(m, env, store) && Accepts(m, env, s)
    ensures Kept(m, env, store, Perform(m, env, s, pointerFirst, store))
  {
    match s
    case Test(e) => EvalSound(m, env, e, store);
    case Set(_, _) => SetSound(m, env, s, store);
    case SetValueAt(_, _) => StoreSound(m, env, s, pointerFirst, store);
  }

  /** The const guarantee: whatever accepted statements run, in whatever order, no object
      declared constant changes, no value is used at a wrong type, and every stored pointer is
      null or refers to an object its type may reach. */
  lemma {:induction false} ConstObjectsNeverChange(m: DataModel, env: Env, moves: seq<Move>, store: Objects)
    requires Setting(m, env) && Good(m, env, store)
    requires forall i :: 0 <= i < |moves| ==> Accepts(m, env, moves[i].stmt)
    ensures match Run(m, env, moves, store)
            case Stuck => false
            case Undefined => true
            case Done(_, after) =>
              && Good(m, env, after)
              && forall x :: x in env && TopQualifiers(env[x]).isConst ==> after[x] == store[x]
  {
    if moves != [] {
      PerformSound(m, env, moves[0].stmt, moves[0].pointerFirst, store);
      var step := Perform(m, env, moves[0].stmt, moves[0].pointerFirst, store);
      if step.Done? {
        ConstObjectsNeverChange(m, env, moves[1..], step.store);
      }
    }
  }

  /** Objects start out zero: the integer zero or the null pointer. */
  function ZeroStore(env: Env): Objects {
    map x | x in env :: if env[x].Pointer? then Null else IntV(0)
  }

  lemma ZeroStoreIsGood(m: DataModel, env: Env)
    requires Setting(m, env)
    ensures Good(m, env, ZeroStore(env))
  {
  }

  /** The assignment rule for pointers is the weakest one that keeps the invariant: it admits
      exactly the assignments under which every value that fits the source fits the target. */
  lemma PointerRuleIsWeakest(m: DataModel, target: Type, source: Type)
    requires m.Valid() && m.longBits == LONG_BITS
    requires target.Pointer? && source.Pointer? && Storable(target) && Storable(source)
    ensures Assignable(target, source) <==>
              forall env, v :: Setting(m, env) && Fits(m, env, source, v) ==> Fits(m, env, target, v)
  {
    Requalified(target.to, PLAIN);
    Requalified(source.to, PLAIN);
    var env, v := map["x" := source.to], PtrTo("x", 0);
    assert Setting(m, env) && Fits(m, env, source, v);
    if Assignable(target, source) {
      forall env, v | Setting(m, env) && Fits(m, env, source, v) ensures Fits(m, env, target, v) {}
    }
  }

  const CONST := PLAIN.(isConst := true)

  /** An example of objects with a void pointee among their types: a constant, a pointer
      variable, a pointer to void and a pointer to pointer to constant, and any others. */
  predicate HasVoidDoor(env: Env) {
    && "c" in env && env["c"] == Plain(CONST, INT)
    && "p" in env && env["p"] == Pointer(PLAIN, Plain(PLAIN, INT))
    && "v" in env && env["v"] == Pointer(PLAIN, Plain(PLAIN, Void))
    && "q" in env && env["q"] == Pointer(PLAIN, Pointer(PLAIN, Plain(CONST, INT)))
  }

  /** For such objects the guarantee fails: going through the pointer to void, as C allows, an
      accepted run overwrites the constant, whatever it held.  Other shapes that fail are not
      looked for. */
  lemma VoidPointerDefeatsConst(m: DataModel, env: Env, store: Objects)
    requires m.Valid() && HasVoidDoor(env) && store.Keys == env.Keys
    ensures var moves := [
              Move(Set("v", AddressOf("p")), true),
              Move(Set("q", VarRef("v")), true),
              Move(SetValueAt(VarRef("q"), AddressOf("c")), true),
              Move(SetValueAt(VarRef("p"), IntLit(1)), true)];
            && (forall i :: 0 <= i < |moves| ==> Accepts(m, env, moves[i].stmt))
            && var end := Run(m, env, moves, store);
               end.Done? && "c" in end.store && end.store["c"] == IntV(1)
  {
    var s1 := store["v" := PtrTo("p", 0)];
    var s2 := s1["q" := PtrTo("p", 0)];
    var s3 := s2["p" := PtrTo("c", 0)];
    Laundered(m, env, store);
    Aliased(m, env, s1);
    Aimed(m, env, s2);
    Overwritten(m, env, s3);
    FourSteps(m, env,
              Move(Set("v", AddressOf("p")), true), Move(Set("q", VarRef("v")), true),
              Move(SetValueAt(VarRef("q"), AddressOf("c")), true), Move(SetValueAt(VarRef("p"), IntLit(1)), true),
              store, s1, s2, s3, s3["c" := IntV(1)]);
  }

  lemma Laundered(m: DataModel, env: Env, store: Objects)
    requires m.Valid() && HasVoidDoor(env) && "p" in store
    ensures Accepts(m, env, Set("v", AddressOf("p")))
    ensures StepsTo(m, env, Move(Set("v", AddressOf("p")), true), store, store["v" := PtrTo("p", 0)])
  {
  }

  lemma Aliased(m: DataModel, env: Env, store: Objects)
    requires m.Valid() && HasVoidDoor(env) && "v" in store && store["v"] == PtrTo("p", 0)
    ensures Accepts(m, env, Set("q", VarRef("v")))
    ensures StepsTo(m, env, Move(Set("q", VarRef("v")), true), store, store["q" := PtrTo("p", 0)])
  {
  }

  lemma Aimed(m: DataModel, env: Env, store: Objects)
    requires m.Valid() && HasVoidDoor(env)
    requires "q" in store && "p" in store && "c" in store && store["q"] == PtrTo("p", 0)
    ensures Accepts(m, env, SetValueAt(VarRef("q"), AddressOf("c")))
    ensures StepsTo(m, env, Move(SetValueAt(VarRef("q"), AddressOf("c")), true), store, store["p" := PtrTo("c", 0)])
  {
  }

  lemma Overwritten(m: DataModel, env: Env, store: Objects)
    requires m.Valid() && HasVoidDoor(env) && "p" in store && "c" in store && store["p"] == PtrTo("c", 0)
    ensures Accepts(m, env, SetValueAt(VarRef("p"), IntLit(1)))
    ensures StepsTo(m, env, Move(SetValueAt(VarRef("p"), IntLit(1)), true), store, store["c" := IntV(1)])
  {
    ConvertsOne(m);
  }

  lemma ConvertsOne(m: DataModel)
    requires m.Valid()
    ensures ConvertInt(m, INT, 1) == 1
  {
    Pow2Monotone(1, m.intBits - 1);
    SignedZero(Pow2(m.intBits - 1), 1);
  }

  predicate StepsTo(m: DataModel, env: Env, move: Move, before: Objects, after: Objects)
    requires m.Valid() && Accepts(m, env, move.stmt)
  {
    var step := Perform(m, env, move.stmt, move.pointerFirst, before);
    step.Done? && step.store == after
  }

  lemma FourSteps(m: DataModel, env: Env, a: Move, b: Move, c: Move, d: Move,
                  s0: Objects, s1: Objects, s2: Objects, s3: Objects, s4: Objects)
    requires m.Valid()
    requires Accepts(m, env, a.stmt) && Accepts(m, env, b.stmt) && Accepts(m, env, c.stmt) && Accepts(m, env, d.stmt)
    requires StepsTo(m, env, a, s0, s1) && StepsTo(m, env, b, s1, s2)
    requires StepsTo(m, env, c, s2, s3) && StepsTo(m, env, d, s3, s4)
    ensures Run(m, env, [a, b, c, d], s0) == Done(Null, s4)
  {
    RunStep(m, env, d, [], s3);
    RunStep(m, env, c, [d], s2);
    RunStep(m, env, b, [c, d], s1);
    RunStep(m, env, a, [b, c, d], s0);
    assert [a] + [b, c, d] == [a, b, c, d];
    assert [b] + [c, d] == [b, c, d];
    assert [c] + [d] == [c, d];
    assert [d] + [] == [d];
  }

  lemma RunStep(m: DataModel, env: Env, move: Move, rest: seq<Move>, store: Objects)
    requires m.Valid() && Accepts(m, env, move.stmt)
    requires forall i :: 0 <= i < |rest| ==> Accepts(m, env, rest[i].stmt)
    ensures var step := Perform(m, env, move.stmt, move.pointerFirst, store);
            step.Done? ==> Run(m, env, [move] + rest, store) == Run(m, env, rest, step.store)
  {
    assert ([move] + rest)[1..] == rest;
  }
}
