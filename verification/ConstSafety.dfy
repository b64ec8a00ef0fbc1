/** Assignability, modifiability and the const guarantee they give: no run of accepted
    statements changes an object declared constant.

    The store holds top-level objects of integer and nested pointer types.  A pointer value
    is null or names an object and an offset in it: 0 is the object, 1 is just past it. */
module ConstSafety {
  import opened Options
  import opened Types
  import opened Primitives
  import opened Ast
  import opened Constants
  import opened Conversions

  type Env = map<string, Type>

  // ----- qualifiers -----

  function TopQualifiers(t: Type): Qualifiers {
    if t.Plain? || t.Pointer? then t.q else PLAIN
  }

  function Requalify(t: Type, q: Qualifiers): Type {
    match t
    case Plain(_, base) => Plain(q, base)
    case Pointer(_, to) => Pointer(q, to)
    case Array(_, _) => t
    case Function(_, _, _) => t
  }

  function Unqualified(t: Type): Type {
    Requalify(t, PLAIN)
  }

  function Decay(t: Type): Type {
    if t.Array? then Pointer(PLAIN, t.element) else Unqualified(t)
  }

  predicate Includes(target: Qualifiers, source: Qualifiers) {
    && (source.isConst ==> target.isConst)
    && (source.isVolatile ==> target.isVolatile)
    && (source.isRestrict ==> target.isRestrict)
    && (source.isAtomic ==> target.isAtomic)
  }

  function Combined(a: Qualifiers, b: Qualifiers): Qualifiers {
    Qualifiers(a.isConst || b.isConst, a.isVolatile || b.isVolatile,
               a.isRestrict || b.isRestrict, a.isAtomic || b.isAtomic)
  }

  // ----- assignability -----

  predicate IsVoid(t: Type) { t.Plain? && t.base.Void? }

  predicate IsObject(t: Type) { !IsVoid(t) && !t.Function? }

  function Kind(t: Type): nat {
    match t
    case Pointer(_, _) => 100
    case Array(_, _) => 101
    case Function(_, _, _) => 102
    case Plain(_, base) =>
      match base
      case Void => 0
      case Boolean => 1
      case Character(_) => 2
      case Integer(_, _) => 2
      case Floating(_) => 3
      case Complex => 4
      case BitInt(_, _) => 5
      case Structure(_) => 6
      case Union(_) => 7
      case Enumeration(_) => 8
      case Nullptr => 9
  }

  /** Agreement of the pointed-to types, top-level qualifiers aside. */
  predicate BasesCompatible(to: Type, from: Type) {
    var a, b := Unqualified(to), Unqualified(from);
    if a.Function? && b.Function? then
      && a.variadic == b.variadic
      && |a.params| == |b.params|
      && Kind(a.result) == Kind(b.result)
      && forall i :: 0 <= i < |a.params| ==> Kind(a.params[i]) == Kind(b.params[i])
    else a == b || (IsVoid(a) && IsObject(b)) || (IsVoid(b) && IsObject(a))
  }

  predicate PointersAssignable(target: Type, source: Type) {
    && target.Pointer? && source.Pointer?
    && BasesCompatible(target.to, source.to)
    && Includes(TopQualifiers(target.to), TopQualifiers(source.to))
  }

  predicate IsArithmeticType(t: Type) {
    t.Plain? && (IsArithmetic(t.base) || t.base.BitInt?)
  }

  predicate IsNullptr(t: Type) { t.Plain? && t.base.Nullptr? }

  predicate Assignable(target: Type, source: Type) {
    var to, from := Unqualified(target), Decay(source);
    && !target.Array?
    && (|| to == from
        || (to.Plain? && to.base.Boolean? && IsNullptr(from))
        || (to.Pointer? && IsNullptr(from))
        || (IsArithmeticType(to) && IsArithmeticType(from))
        || PointersAssignable(to, from))
  }

  predicate IsNullConstant(e: Expr) {
    e.NullptrLit? || IntegerConstantValue(e) == Some(0)
  }

  predicate IsNullLike(t: Type, e: Expr) {
    IsNullptr(t) || IsNullConstant(e)
  }

  predicate AssignableExpr(target: Type, source: Type, e: Expr) {
    || Assignable(target, source)
    || (target.Pointer? && IsNullLike(source, e))
    || (IsNullptr(target) && IsNullConstant(e))
  }

  /** Structures and unions are outside the environments of this module. */
  predicate Modifiable(t: Type) {
    && !t.Array? && !TopQualifiers(t).isConst
    && !t.Function? && !IsVoid(t)
    && !(t.Plain? && (t.base.Structure? || t.base.Union?))
  }

  // ----- types of expressions -----

  const NUMBER := Plain(PLAIN, Integer(Long, false))
  const NULL_TYPE := Plain(PLAIN, Nullptr)

  predicate IsScalar(t: Type) {
    IsArithmeticType(t) || t.Pointer? || IsNullptr(t)
  }

  function ConditionalPointer(l: Type, r: Type): Option<Type> {
    if !l.Pointer? || !r.Pointer? || !BasesCompatible(l.to, r.to) then None
    else
      var a, b := Unqualified(l.to), Unqualified(r.to);
      var q := Combined(TopQualifiers(l.to), TopQualifiers(r.to));
      if IsVoid(a) && IsObject(b) then Some(Pointer(PLAIN, Requalify(a, q)))
      else if IsVoid(b) && IsObject(a) then Some(Pointer(PLAIN, Requalify(b, q)))
      else if a == b then Some(Pointer(PLAIN, Requalify(a, q)))
      else None
  }

  function ConditionalType(m: DataModel, l: Type, r: Type, whenTrue: Expr, whenFalse: Expr): Option<Type>
    requires m.Valid()
  {
    if IsArithmeticType(l) && IsArithmeticType(r) then Some(Plain(PLAIN, UsualArithmetic(m, l.base, r.base)))
    else if l.Pointer? && IsNullLike(r, whenFalse) then Some(l)
    else if r.Pointer? && IsNullLike(l, whenTrue) then Some(r)
    else if IsNullptr(l) && IsNullptr(r) then Some(NULL_TYPE)
    else ConditionalPointer(l, r)
  }

  /** The type of an expression, when no diagnostic is raised for it. */
  function TypeOf(m: DataModel, env: Env, e: Expr): Option<Type>
    requires m.Valid()
  {
    match e
    case IntLit(_) => Some(NUMBER)
    case BoolLit(_) => Some(NUMBER)
    case NullptrLit => Some(NULL_TYPE)
    case VarRef(name) => if name in env then Some(env[name]) else None
    case AddressOf(name) => if name in env then Some(Pointer(PLAIN, env[name])) else None
    case Deref(pointer) =>
      (match TypeOf(m, env, pointer)
       case Some(t) => if Decay(t).Pointer? && !IsVoid(Decay(t).to) then Some(Decay(t).to) else None
       case None => None)
    case Conditional(whenTrue, condition, whenFalse) =>
      (match (TypeOf(m, env, condition), TypeOf(m, env, whenTrue), TypeOf(m, env, whenFalse))
       case (Some(c), Some(l), Some(r)) =>
         if IsScalar(Decay(c)) then ConditionalType(m, Decay(l), Decay(r), whenTrue, whenFalse) else None
       case _ => None)
    case IncDec(_, operand) =>
      (match TypeOf(m, env, operand)
       case Some(t) =>
         if !(operand.VarRef? || operand.Deref?) || !Modifiable(t) then None
         else if t.Pointer? then if IsObject(t.to) then Some(Unqualified(t)) else None
         else if IsArithmeticType(t) then Some(Unqualified(t)) else None
       case None => None)
    case _ => None
  }

  // ----- values -----

  datatype Value = IntV(v: int) | Null | PtrTo(name: string, offset: int)

  type Objects = map<string, Value>

  /** `Undefined` is a run C gives no meaning to; `Stuck` would be an operation on a value of
      the wrong type. */
  datatype Outcome = Done(value: Value, store: Objects) | Undefined | Stuck

  predicate Truthy(v: Value) {
    match v
    case IntV(n) => n != 0
    case Null => false
    case PtrTo(_, _) => true
  }

  predicate IsUnsigned(m: DataModel, b: Base) {
    match b
    case Character(sign) => sign.UnsignedChar? || (sign.PlainChar? && !m.plainSigned)
    case Integer(_, isUnsigned) => isUnsigned
    case _ => false
  }

  function Bits(m: DataModel, b: Base): (n: nat)
    requires m.Valid()
    ensures n > 0
  {
    match b
    case Character(_) => m.charBits
    case Integer(rank, _) => Width(m, rank)
    case _ => m.intBits
  }

  /** Conversion of an integer value: modulo the width, as two's complement. */
  function ConvertInt(m: DataModel, b: Base, n: int): int
    requires m.Valid()
  {
    if b.Boolean? then if n == 0 then 0 else 1
    else if IsUnsigned(m, b) then n % Pow2(Bits(m, b))
    else
      var half := Pow2(Bits(m, b) - 1);
      (n + half) % (2 * half) - half
  }

  /** The value stored when v is assigned to an object of type t. */
  function Converted(m: DataModel, t: Type, v: Value): Option<Value>
    requires m.Valid()
  {
    match t
    case Pointer(_, _) => if v.IntV? then (if v.v == 0 then Some(Null) else None) else Some(v)
    case Plain(_, base) =>
      if base.Nullptr? then (if v == Null || v == IntV(0) then Some(Null) else None)
      else if !IsInteger(base) then None
      else if v.IntV? then Some(IntV(ConvertInt(m, base, v.v)))
      else if base.Boolean? && v.Null? then Some(IntV(0))
      else None
    case _ => None
  }

  // ----- evaluation -----

  /** The object an lvalue designates, as a pointer to it. */
  function Locate(m: DataModel, env: Env, e: Expr, store: Objects): Outcome
    requires m.Valid()
    decreases e, 0
  {
    match e
    case VarRef(name) => if name in store then Done(PtrTo(name, 0), store) else Stuck
    case Deref(pointer) => Target(Eval(m, env, pointer, store))
    case _ => Stuck
  }

  /** Following a pointer value needs an object right there. */
  function Target(pointer: Outcome): Outcome {
    match pointer
    case Done(PtrTo(name, offset), after) => if offset == 0 && name in after then pointer else Undefined
    case Done(Null, _) => Undefined
    case Done(IntV(_), _) => Stuck
    case _ => pointer
  }

  function ReadAt(place: Outcome): Outcome {
    match place
    case Done(PtrTo(name, _), after) => if name in after then Done(after[name], after) else Stuck
    case Done(_, _) => Stuck
    case _ => place
  }

  function Eval(m: DataModel, env: Env, e: Expr, store: Objects): Outcome
    requires m.Valid()
    decreases e, 1
  {
    match e
    case IntLit(n) => Done(IntV(n), store)
    case BoolLit(flag) => Done(IntV(BoolValue(flag)), store)
    case NullptrLit => Done(Null, store)
    case AddressOf(name) => if name in store then Done(PtrTo(name, 0), store) else Stuck
    case VarRef(_) => ReadAt(Locate(m, env, e, store))
    case Deref(_) => ReadAt(Locate(m, env, e, store))
    case Conditional(whenTrue, condition, whenFalse) =>
      (match Eval(m, env, condition, store)
       case Done(c, after) =>
         var chosen :=
           if Truthy(c) then Eval(m, env, whenTrue, after) else Eval(m, env, whenFalse, after);
         (match TypeOf(m, env, e)
          case Some(t) => ConvertOutcome(m, t, chosen)
          case None => Stuck)
       case other => other)
    case IncDec(kind, operand) =>
      (match TypeOf(m, env, operand)
       case Some(t) => Bump(m, t, kind, Locate(m, env, operand, store))
       case None => Stuck)
    case _ => Stuck
  }

  function ConvertOutcome(m: DataModel, t: Type, from: Outcome): Outcome
    requires m.Valid()
  {
    match from
    case Done(v, after) =>
      (match Converted(m, t, v)
       case Some(v') => Done(v', after)
       case None => Stuck)
    case _ => from
  }

  /** One more or one less; signed overflow and leaving the object are undefined. */
  function Stepped(m: DataModel, t: Type, v: Value, change: int): Outcome
    requires m.Valid()
  {
    if t.Pointer? then
      match v
      case PtrTo(name, offset) =>
        if 0 <= offset + change <= 1 then Done(PtrTo(name, offset + change), map[]) else Undefined
      case Null => Undefined
      case IntV(_) => Stuck
    else if t.Plain? && IsInteger(t.base) && v.IntV? then
      var promoted := Promote(m, t.base);
      if !IsUnsigned(m, promoted) && !Holds(m, promoted, v.v + change) then Undefined
      else Done(IntV(ConvertInt(m, t.base, v.v + change)), map[])
    else Stuck
  }

  function Bump(m: DataModel, t: Type, kind: IncDecKind, place: Outcome): Outcome
    requires m.Valid()
  {
    match ReadAt(place)
    case Done(before, after) =>
      (match Stepped(m, t, before, if kind.PrefixIncrement? || kind.PostfixIncrement? then 1 else -1)
       case Done(new_, _) =>
         Done(if kind.PrefixIncrement? || kind.PrefixDecrement? then new_ else before,
              after[place.value.name := new_])
       case other => other)
    case other => other
  }

  // ----- statements -----

  datatype Stmt =
    | Set(name: string, expr: Expr)
    | SetValueAt(pointer: Expr, expr: Expr)
    | Test(expr: Expr)

  predicate Accepts(m: DataModel, env: Env, s: Stmt)
    requires m.Valid()
  {
    match s
    case Set(name, e) =>
      var t := TypeOf(m, env, e);
      t.Some? && name in env && Modifiable(env[name]) && AssignableExpr(env[name], t.value, e)
    case SetValueAt(pointer, e) =>
      var p, t := TypeOf(m, env, pointer), TypeOf(m, env, e);
      && p.Some? && t.Some? && p.value.Pointer? && !IsVoid(p.value.to)
      && Modifiable(p.value.to) && AssignableExpr(p.value.to, t.value, e)
    case Test(e) =>
      var t := TypeOf(m, env, e);
      t.Some? && IsScalar(Decay(t.value))
  }

  function WriteAt(m: DataModel, t: Type, place: Outcome, value: Outcome): Outcome
    requires m.Valid()
  {
    match value
    case Done(v, after) =>
      (match Converted(m, t, v)
       case Some(v') =>
         (match place
          case Done(PtrTo(name, _), _) => Done(v', after[name := v'])
          case Done(_, _) => Stuck
          case other => other)
       case None => Stuck)
    case other => other
  }

  /** A store through a pointer may evaluate its two operands in either order. */
  function Perform(m: DataModel, env: Env, s: Stmt, pointerFirst: bool, store: Objects): Outcome
    requires m.Valid() && Accepts(m, env, s)
  {
    match s
    case Test(e) => Eval(m, env, e, store)
    case Set(name, e) => WriteAt(m, env[name], Done(PtrTo(name, 0), store), Eval(m, env, e, store))
    case SetValueAt(pointer, e) =>
      var to := TypeOf(m, env, pointer).value.to;
      if pointerFirst then
        var place := Target(Eval(m, env, pointer, store));
        if place.Done? then WriteAt(m, to, place, Eval(m, env, e, place.store)) else place
      else
        var value := Eval(m, env, e, store);
        if value.Done? then
          var place := Target(Eval(m, env, pointer, value.store));
          if place.Done? then WriteAt(m, to, place, Done(value.value, place.store)) else place
        else value
  }

  datatype Move = Move(stmt: Stmt, pointerFirst: bool)

  /** Control flow picks the next accepted statement freely, so a run is any list of them. */
  function Run(m: DataModel, env: Env, moves: seq<Move>, store: Objects): Outcome
    requires m.Valid()
    requires forall i :: 0 <= i < |moves| ==> Accepts(m, env, moves[i].stmt)
  {
    if moves == [] then Done(Null, store)
    else
      match Perform(m, env, moves[0].stmt, moves[0].pointerFirst, store)
      case Done(_, after) => Run(m, env, moves[1..], after)
      case other => other
  }

  // ----- the invariant -----

  predicate Storable(t: Type) {
    match t
    case Plain(_, base) => IsInteger(base)
    case Pointer(_, to) => Storable(to)
    case _ => false
  }

  /** A 64-bit `long`, and objects of integer and nested pointer types. */
  predicate Setting(m: DataModel, env: Env) {
    m.Valid() && m.longBits == LONG_BITS && forall x :: x in env ==> Storable(env[x])
  }

  /** The object may be reached through this pointed-to type. */
  predicate Reaches(to: Type, declared: Type) {
    Unqualified(to) == Unqualified(declared) && Includes(TopQualifiers(to), TopQualifiers(declared))
  }

  predicate Fits(m: DataModel, env: Env, t: Type, v: Value)
    requires m.Valid()
  {
    match t
    case Plain(_, base) => if base.Nullptr? then v.Null? else v.IntV? && Holds(m, base, v.v)
    case Pointer(_, to) =>
      v.Null? || (v.PtrTo? && v.name in env && 0 <= v.offset <= 1 && Reaches(to, env[v.name]))
    case _ => false
  }

  predicate Good(m: DataModel, env: Env, store: Objects)
    requires m.Valid()
  {
    store.Keys == env.Keys && forall x :: x in env ==> Fits(m, env, env[x], store[x])
  }

  predicate ConstantsKept(env: Env, before: Objects, after: Objects) {
    forall x :: x in env && TopQualifiers(env[x]).isConst ==>
      x in before && x in after && before[x] == after[x]
  }

  /** A constant expression evaluates to a value with its truth, and a zero one to zero or null. */
  predicate ShowsConstant(e: Expr, v: Value) {
    if e.NullptrLit? then v.Null?
    else
      match IntegerConstantValue(e)
      case None => true
      case Some(c) => if v.IntV? then v.v == 0 <==> c == 0 else v.Null? && c == 0
  }
}
