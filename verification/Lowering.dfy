/** The two mutually recursive lowerings of an expression: to a raw C expression, and to a
    boxed runtime value.  Arithmetic itself is C's; what is modelled is which form each lowering
    chooses, when one hands over to the other, and what the boxed logical operators do. */
module Lowering {
  import opened Options
  import opened Primitives
  import opened Ast
  import opened Constants
  import opened Lists

  /** What the lowerings look at in a type. */
  datatype Kind = Integral | Real | ComplexKind | PointerKind | ArrayKind | NullptrKind | StringKind | ListKind | Aggregate

  /** Expressions with the type kinds the checker inferred.  `Direct` stands for the forms that
      have a raw spelling of their own, which boxing wraps; `Deferred` for the forms that exist
      only boxed. */
  datatype Typed = Typed(node: Node, kind: Kind)

  datatype Node =
    | Number_(value: long)
    | Truth(flag: bool)
    | Native(name: string)
    | BoxedVar(name: string)
    | UnaryNode(unop: UnaryOp, operand: Typed)
    | BinaryNode(op: BinOp, lhs: Typed, rhs: Typed)
    | Choice(whenTrue: Typed, condition: Typed, whenFalse: Typed)
    | Direct(id: nat, parts: seq<Typed>)
    | Deferred(id: nat, parts: seq<Typed>)

  // ----- the emitted code -----

  datatype CCode =
    | CLong(value: long)
    | CTruth(flag: bool)
    | CObject(name: string)
    | CPrefix(unop: UnaryOp, operand: CCode)
    | CInfix(op: BinOp, lhs: CCode, rhs: CCode)
    | CTernary(condition: CCode, whenTrue: CCode, whenFalse: CCode)
    | CForm(id: nat, parts: seq<CCode>)
    | UnboxInt(boxed: PsCode)
    | UnboxReal(boxed: PsCode)
    | AsItIs(boxed: PsCode)

  datatype PsCode =
    | PsLong(value: long)
    | PsVar(name: string)
    | BoxInt(raw: CCode)
    | BoxReal(raw: CCode)
    | PsZero
    | PsCall(op: BinOp, lhs: PsCode, rhs: PsCode)
    | PsUnary(unop: UnaryOp, operand: PsCode)
    | PsForm(id: nat, parts: seq<PsCode>)

  predicate IsCArithmetic(k: Kind) { k.Integral? || k.Real? || k.ComplexKind? }

  predicate IsCScalar(k: Kind) { IsCArithmetic(k) || k.PointerKind? || k.NullptrKind? }

  predicate IsLogical(op: BinOp) { op.And? || op.Or? }

  predicate Addresses(k: Kind) { k.PointerKind? || k.ArrayKind? }

  function BoxRaw(raw: CCode, k: Kind): PsCode {
    if k.Real? then BoxReal(raw) else if k.Integral? then BoxInt(raw) else PsZero
  }

  /** The raw lowering has no form for this node, and takes the boxed one. */
  predicate RawDefers(e: Typed) {
    match e.node
    case BinaryNode(op, lhs, rhs) =>
      && !(Addresses(lhs.kind) || Addresses(rhs.kind))
      && !((op.Eq? || op.Ne?) && (lhs.kind.NullptrKind? || rhs.kind.NullptrKind?))
      && !(IsLogical(op) && IsCScalar(lhs.kind) && IsCScalar(rhs.kind))
      && !(!IsLogical(op) && IsCArithmetic(lhs.kind) && IsCArithmetic(rhs.kind))
    case UnaryNode(op, operand) => !(op.Not? && IsCScalar(operand.kind)) && !IsCArithmetic(operand.kind)
    case BoxedVar(_) => true
    case Deferred(_, _) => true
    case _ => false
  }

  /** The boxed lowering wraps the raw one. */
  predicate BoxedDefers(e: Typed) {
    match e.node
    case BinaryNode(op, lhs, rhs) =>
      || Addresses(lhs.kind) || Addresses(rhs.kind) || lhs.kind.NullptrKind? || rhs.kind.NullptrKind?
      || (!IsLogical(op) && IsCArithmetic(lhs.kind) && IsCArithmetic(rhs.kind))
    case UnaryNode(op, operand) => if op.Not? then IsCScalar(operand.kind) else IsCArithmetic(operand.kind)
    case Choice(_, _, _) => true
    case Direct(_, _) => true
    case _ => false
  }

  // ----- what the checker lets through -----

  function Decayed(k: Kind): Kind {
    if k.ArrayKind? then PointerKind else k
  }

  predicate Conditionable(k: Kind) { IsCArithmetic(Decayed(k)) || Decayed(k).PointerKind? || k.NullptrKind? }

  /** Necessary for the checker to raise no diagnostic at a binary node, by kinds alone. */
  predicate BinaryAccepted(op: BinOp, l: Kind, r: Kind) {
    var lhs, rhs := Decayed(l), Decayed(r);
    if op.Comma? then
      (IsCArithmetic(lhs) || lhs.PointerKind?) && (IsCArithmetic(rhs) || rhs.PointerKind?)
    else if IsLogical(op) then Conditionable(l) && Conditionable(r)
    else if op.Eq? || op.Ne? then
      !lhs.ListKind? && !rhs.ListKind?
    else if op.Gt? || op.Lt? || op.Ge? || op.Le? then
      !lhs.NullptrKind? && !rhs.NullptrKind? && !lhs.ListKind? && !rhs.ListKind?
    else if lhs.PointerKind? || rhs.PointerKind? then
      (op.Add? || op.Sub?) && !lhs.NullptrKind? && !rhs.NullptrKind?
    else if op.Add? then
      (IsCArithmetic(lhs) || lhs.StringKind?) && (IsCArithmetic(rhs) || rhs.StringKind?)
    else IsCArithmetic(lhs) && IsCArithmetic(rhs)
  }

  predicate UnaryAccepted(op: UnaryOp, k: Kind) {
    if op.Not? then Conditionable(k) else IsCArithmetic(k)
  }

  /** Checked throughout. */
  predicate Accepted(e: Typed) {
    match e.node
    case UnaryNode(op, operand) => UnaryAccepted(op, operand.kind) && Accepted(operand)
    case BinaryNode(op, lhs, rhs) => BinaryAccepted(op, lhs.kind, rhs.kind) && Accepted(lhs) && Accepted(rhs)
    case Choice(whenTrue, condition, whenFalse) => Accepted(whenTrue) && Accepted(condition) && Accepted(whenFalse)
    case Direct(_, parts) => forall i :: 0 <= i < |parts| ==> Accepted(parts[i])
    case Deferred(_, parts) => forall i :: 0 <= i < |parts| ==> Accepted(parts[i])
    case _ => true
  }

  /** When the two lowerings would call each other forever: a null operand, and neither an
      address beside it, nor an equality, nor two scalars of a logical operator. */
  lemma HandOverForeverIff(e: Typed)
    ensures RawDefers(e) && BoxedDefers(e) <==>
              && e.node.BinaryNode?
              && (e.node.lhs.kind.NullptrKind? || e.node.rhs.kind.NullptrKind?)
              && !Addresses(e.node.lhs.kind) && !Addresses(e.node.rhs.kind)
              && !e.node.op.Eq? && !e.node.op.Ne?
              && !(IsLogical(e.node.op) && IsCScalar(e.node.lhs.kind) && IsCScalar(e.node.rhs.kind))
  {
  }

  /** The checker rejects all of those. */
  lemma NeverForever(e: Typed)
    requires Accepted(e)
    ensures !(RawDefers(e) && BoxedDefers(e))
  {
    HandOverForeverIff(e);
  }

  // ----- the lowerings -----

  function Raw(e: Typed): CCode
    requires Accepted(e)
    decreases e, if RawDefers(e) then 1 else 0
  {
    NeverForever(e);
    if RawDefers(e) then
      var boxed := Boxed(e);
      if e.kind.Real? then UnboxReal(boxed) else if e.kind.Integral? then UnboxInt(boxed) else AsItIs(boxed)
    else
      match e.node
      case Number_(value) => CLong(value)
      case Truth(flag) => CTruth(flag)
      case Native(name) => CObject(name)
      case BoxedVar(name) => AsItIs(PsVar(name))
      case UnaryNode(op, operand) => CPrefix(op, Raw(operand))
      case BinaryNode(op, lhs, rhs) => CInfix(op, Raw(lhs), Raw(rhs))
      case Choice(whenTrue, condition, whenFalse) => CTernary(Raw(condition), Raw(whenTrue), Raw(whenFalse))
      case Direct(id, parts) => CForm(id, seq(|parts|, i requires 0 <= i < |parts| => Raw(parts[i])))
      case Deferred(id, parts) => CForm(id, [])
  }

  function Boxed(e: Typed): PsCode
    requires Accepted(e)
    decreases e, if BoxedDefers(e) then 1 else 0
  {
    NeverForever(e);
    if BoxedDefers(e) then BoxRaw(Raw(e), e.kind)
    else
      match e.node
      case Number_(value) => PsLong(value)
      case Truth(flag) => PsLong(BoolValue(flag))
      case Native(name) => BoxRaw(CObject(name), e.kind)
      case BoxedVar(name) => PsVar(name)
      case UnaryNode(op, operand) => PsUnary(op, Boxed(operand))
      case BinaryNode(op, lhs, rhs) => PsCall(op, Boxed(lhs), Boxed(rhs))
      case Choice(_, _, _) => PsZero
      case Direct(_, _) => PsZero
      case Deferred(id, parts) => PsForm(id, seq(|parts|, i requires 0 <= i < |parts| => Boxed(parts[i])))
  }

  /** The forms that are not looked into keep their parts, in order. */
  lemma FormsKeepParts(e: Typed)
    requires Accepted(e)
    ensures e.node.Direct? ==>
              && Raw(e).CForm? && Raw(e).id == e.node.id && |Raw(e).parts| == |e.node.parts|
              && (forall i :: 0 <= i < |e.node.parts| ==> Raw(e).parts[i] == Raw(e.node.parts[i]))
              && Boxed(e) == BoxRaw(Raw(e), e.kind)
    ensures e.node.Deferred? ==>
              && Boxed(e).PsForm? && Boxed(e).id == e.node.id && |Boxed(e).parts| == |e.node.parts|
              && (forall i :: 0 <= i < |e.node.parts| ==> Boxed(e).parts[i] == Boxed(e.node.parts[i]))
  {
  }

  // ----- running the emitted code -----

  datatype CValue = CInt(v: int) | CReal(r: real)

  /** Objects, boxed variables, and what C and the runtime make of the operations that are not
      looked into; None is undefined behaviour or a runtime error. */
  datatype Machine = Machine(
    objects: map<string, CValue>,
    vars: map<string, PsValue>,
    infix: (BinOp, CCode, CCode, CValue, CValue) -> Option<CValue>,
    prefix: (UnaryOp, CCode, CValue) -> Option<CValue>,
    common: (CCode, CValue) -> Option<CValue>,
    form: CCode -> Option<CValue>,
    psInfix: (BinOp, PsValue, PsValue) -> Option<PsValue>,
    psForm: PsCode -> Option<PsValue>)

  predicate Holds(v: CValue) {
    match v
    case CInt(v) => v != 0
    case CReal(r) => r != 0.0
  }

  /** A real operand counts as its integer value does, and as true wherever it is not zero. */
  lemma RealHolds(i: int, r: real)
    ensures Holds(CReal(i as real)) <==> Holds(CInt(i))
    ensures Holds(CReal(r)) <==> r < 0.0 || r > 0.0
  {
  }

  /** Conversion to long: modulo its width. */
  function ToLong(v: int): (r: int)
    ensures InLong(v) ==> r == v
  {
    (v - LONG_MIN) % (LONG_MAX - LONG_MIN + 1) + LONG_MIN
  }

  /** The one long that is the same modulo 2 to the 64th. */
  lemma ToLongIs(v: int)
    ensures InLong(ToLong(v)) && (ToLong(v) - v) % 0x1_0000_0000_0000_0000 == 0
  {
    var size := 0x1_0000_0000_0000_0000;
    var q := (v - LONG_MIN) / size;
    QuotientIs(ToLong(v) - v, size, -q, 0);
  }

  function EvalC(m: Machine, c: CCode): Option<CValue> {
    match c
    case CLong(value) => Some(CInt(value))
    case CTruth(flag) => Some(CInt(BoolValue(flag)))
    case CObject(name) => if name in m.objects then Some(m.objects[name]) else None
    case CPrefix(op, operand) =>
      (match EvalC(m, operand)
       case None => None
       case Some(v) => if op.Not? then Some(CInt(BoolValue(!Holds(v)))) else m.prefix(op, operand, v))
    case CInfix(op, lhs, rhs) =>
      (match EvalC(m, lhs)
       case None => None
       case Some(l) =>
         if op.And? && !Holds(l) then Some(CInt(0))
         else if op.Or? && Holds(l) then Some(CInt(1))
         else
           match EvalC(m, rhs)
           case None => None
           case Some(r) =>
             if IsLogical(op) then Some(CInt(BoolValue(Holds(r))))
             else if op.Comma? then Some(r)
             else m.infix(op, lhs, rhs, l, r))
    case CTernary(condition, whenTrue, whenFalse) =>
      (match EvalC(m, condition)
       case None => None
       case Some(v) =>
         match if Holds(v) then EvalC(m, whenTrue) else EvalC(m, whenFalse)
         case None => None
         case Some(chosen) => m.common(c, chosen))
    case CForm(_, _) => m.form(c)
    case UnboxInt(boxed) =>
      (match EvalPs(m, boxed)
       case Some(Number(i)) => Some(CInt(i))
       case Some(Decimal(d)) => Some(CInt(if d < 0.0 then -((-d).Floor) else d.Floor))
       case _ => None)
    case UnboxReal(boxed) =>
      (match EvalPs(m, boxed)
       case Some(Number(i)) => Some(CReal(i as real))
       case Some(Decimal(d)) => Some(CReal(d))
       case _ => None)
    case AsItIs(_) => None
  }

  function EvalPs(m: Machine, p: PsCode): Option<PsValue> {
    match p
    case PsLong(value) => Some(Number(value))
    case PsVar(name) => if name in m.vars then Some(m.vars[name]) else None
    case BoxInt(raw) =>
      (match EvalC(m, raw)
       case Some(CInt(v)) => Some(Number(ToLong(v)))
       case _ => None)
    case BoxReal(raw) =>
      (match EvalC(m, raw)
       case Some(CInt(v)) => Some(Decimal(v as real))
       case Some(CReal(r)) => Some(Decimal(r))
       case None => None)
    case PsZero => Some(Number(0))
    case PsCall(op, lhs, rhs) =>
      (match (EvalPs(m, lhs), EvalPs(m, rhs))
       case (Some(l), Some(r)) => if IsLogical(op) then PsLogical(op, l, r) else m.psInfix(op, l, r)
       case _ => None)
    case PsUnary(op, operand) =>
      (match EvalPs(m, operand)
       case Some(Number(i)) => Some(Number(if op.Not? then BoolValue(i == 0) else -i))
       case Some(Decimal(d)) => if op.Not? then None else Some(Decimal(-d))
       case _ => None)
    case PsForm(_, _) => m.psForm(p)
  }

  /** The runtime's "and" and "or": both operands are there already, and must be numbers. */
  function PsLogical(op: BinOp, l: PsValue, r: PsValue): Option<PsValue> {
    if !l.Number? || !r.Number? then None
    else if op.And? then Some(Number(BoolValue(l.i != 0 && r.i != 0)))
    else Some(Number(BoolValue(l.i != 0 || r.i != 0)))
  }

  // ----- the two lowerings compared -----

  /** A logical operator on two arithmetic operands: the boxed form runs both. */
  predicate Eager(e: Typed) {
    e.node.BinaryNode? && IsLogical(e.node.op) && IsCArithmetic(e.node.lhs.kind) && IsCArithmetic(e.node.rhs.kind)
  }

  /** Below logical operators, operands are real numbers, and integers that fit in long. */
  predicate Fitting(m: Machine, e: Typed)
    requires Accepted(e)
  {
    if Eager(e) then e.kind.Integral? && Fitting(m, e.node.lhs) && Fitting(m, e.node.rhs)
    else
      var raw, boxed := EvalC(m, Raw(e)), EvalPs(m, Boxed(e));
      if e.kind.Integral? then
        && (raw.Some? ==> raw.value.CInt? && InLong(raw.value.v))
        && (RawDefers(e) && boxed.Some? ==> boxed.value.Number? && InLong(boxed.value.i))
      else
        && e.kind.Real?
        && (raw.Some? ==> raw.value.CReal?)
        && (RawDefers(e) && boxed.Some? ==> boxed.value.Decimal?)
  }

  /** Every operand under the logical operators is an integer and is defined, reached or not. */
  predicate AllDefined(m: Machine, e: Typed)
    requires Accepted(e)
  {
    if Eager(e) then AllDefined(m, e.node.lhs) && AllDefined(m, e.node.rhs)
    else e.kind.Integral? && EvalC(m, Raw(e)).Some?
  }

  function AsBoxed(v: Option<CValue>): Option<PsValue> {
    match v
    case None => None
    case Some(CInt(v)) => Some(Number(ToLong(v)))
    case Some(CReal(r)) => Some(Decimal(r))
  }

  /** Apart from the logical operators, boxed code gives the boxed value of raw code. */
  lemma OperandsAgree(m: Machine, e: Typed)
    requires Accepted(e) && !Eager(e) && Fitting(m, e)
    ensures EvalPs(m, Boxed(e)) == AsBoxed(EvalC(m, Raw(e)))
  {
  }

  lemma {:induction false} EagerRuns(m: Machine, e: Typed)
    requires Accepted(e) && Fitting(m, e)
    ensures AllDefined(m, e) ==>
              var raw := EvalC(m, Raw(e));
              raw.Some? && raw.value.CInt? && InLong(raw.value.v) && EvalPs(m, Boxed(e)) == Some(Number(raw.value.v))
    ensures !AllDefined(m, e) ==> var boxed := EvalPs(m, Boxed(e)); boxed.None? || !boxed.value.Number?
  {
    if Eager(e) {
      EagerRuns(m, e.node.lhs);
      EagerRuns(m, e.node.rhs);
      EagerCode(e);
    } else {
      OperandsAgree(m, e);
    }
  }

  lemma EagerCode(e: Typed)
    requires Accepted(e) && Eager(e)
    ensures Raw(e) == CInfix(e.node.op, Raw(e.node.lhs), Raw(e.node.rhs))
    ensures Boxed(e) == PsCall(e.node.op, Boxed(e.node.lhs), Boxed(e.node.rhs))
  {
  }

  /** The boxed value of an integer expression is the raw one exactly when the raw code is
      itself undefined, or every operand of the logical operators is a defined integer, those
      included that the raw code skips. */
  lemma BoxedAgreesIff(m: Machine, e: Typed)
    requires Accepted(e) && Fitting(m, e) && e.kind.Integral?
    ensures EvalPs(m, Boxed(e)) == AsBoxed(EvalC(m, Raw(e))) <==> EvalC(m, Raw(e)).None? || AllDefined(m, e)
  {
    EagerRuns(m, e);
    if Eager(e) {
      EagerCode(e);
    } else {
      OperandsAgree(m, e);
    }
  }

  // ----- raw code computes the source expression -----

  /** Integer literals, native objects, operators and choices. */
  predicate IntegerTree(e: Typed) {
    e.kind.Integral? &&
    match e.node
    case Number_(_) => true
    case Truth(_) => true
    case Native(_) => true
    case UnaryNode(_, operand) => IntegerTree(operand)
    case BinaryNode(_, lhs, rhs) => IntegerTree(lhs) && IntegerTree(rhs)
    case Choice(whenTrue, condition, whenFalse) => IntegerTree(whenTrue) && IntegerTree(condition) && IntegerTree(whenFalse)
    case _ => false
  }

  function Untyped(e: Typed): Expr
    requires IntegerTree(e)
  {
    match e.node
    case Number_(value) => IntLit(value)
    case Truth(flag) => BoolLit(flag)
    case Native(name) => VarRef(name)
    case UnaryNode(op, operand) => Unary(op, Untyped(operand))
    case BinaryNode(op, lhs, rhs) => Binary(op, Untyped(lhs), Untyped(rhs))
    case Choice(whenTrue, condition, whenFalse) => Conditional(Untyped(whenTrue), Untyped(condition), Untyped(whenFalse))
  }

  function AsC(v: Option<int>): Option<CValue> {
    if v.Some? then Some(CInt(v.value)) else None
  }

  /** A machine whose objects are longs of this store and whose operators compute on long. */
  ghost predicate ComputesOnLong(m: Machine, store: Store) {
    && (forall x :: x in m.objects <==> x in store && InLong(store[x]))
    && (forall x :: x in m.objects ==> m.objects[x] == CInt(store[x]))
    && (forall op, lhs, rhs, l, r :: m.infix(op, lhs, rhs, CInt(l), CInt(r)) == AsC(Representable(Mathematical(op, l, r))))
    && (forall c, v :: m.prefix(Neg, c, CInt(v)) == AsC(Representable(Some(-v))))
    && (forall c, v :: m.prefix(BitNot, c, CInt(v)) == AsC(Representable(Some(-v - 1))))
    && (forall c, v :: m.common(c, v) == Some(v))
  }

  lemma {:induction false} IntegersAccepted(e: Typed)
    requires IntegerTree(e)
    ensures Accepted(e) && !RawDefers(e)
  {
    match e.node
    case UnaryNode(_, operand) => IntegersAccepted(operand);
    case BinaryNode(_, lhs, rhs) => IntegersAccepted(lhs); IntegersAccepted(rhs);
    case Choice(whenTrue, condition, whenFalse) =>
      IntegersAccepted(whenTrue);
      IntegersAccepted(condition);
      IntegersAccepted(whenFalse);
    case _ =>
  }

  lemma {:induction false} ValuesAreLong(e: Expr, store: Store)
    ensures var v := Evaluate(e, store); v.Some? ==> InLong(v.value)
  {
    hide Mathematical;
    match e
    case Unary(_, rhs) => ValuesAreLong(rhs, store);
    case Conditional(whenTrue, _, whenFalse) => ValuesAreLong(whenTrue, store); ValuesAreLong(whenFalse, store);
    case _ =>
  }

  /** On such a machine the raw code of an integer expression computes its value. */
  lemma {:induction false} RawComputes(m: Machine, store: Store, e: Typed)
    requires IntegerTree(e) && ComputesOnLong(m, store)
    ensures Accepted(e) && EvalC(m, Raw(e)) == AsC(Evaluate(Untyped(e), store))
  {
    hide Evaluate, EvalC, RawDefers;
    IntegersAccepted(e);
    match e.node
    case UnaryNode(op, operand) =>
      RawComputes(m, store, operand);
      PrefixComputes(m, op, Raw(operand), Untyped(operand), store);
    case BinaryNode(op, lhs, rhs) =>
      RawComputes(m, store, lhs);
      RawComputes(m, store, rhs);
      InfixComputes(m, op, Raw(lhs), Raw(rhs), Untyped(lhs), Untyped(rhs), store);
    case Choice(whenTrue, condition, whenFalse) =>
      RawComputes(m, store, whenTrue);
      RawComputes(m, store, condition);
      RawComputes(m, store, whenFalse);
      TernaryComputes(m, Raw(condition), Raw(whenTrue), Raw(whenFalse), Untyped(condition), Untyped(whenTrue), Untyped(whenFalse), store);
    case Number_(value) => LeafComputes(m, CLong(value), IntLit(value), store);
    case Truth(flag) => LeafComputes(m, CTruth(flag), BoolLit(flag), store);
    case Native(name) => LeafComputes(m, CObject(name), VarRef(name), store);
  }

  lemma LeafComputes(m: Machine, c: CCode, e: Expr, store: Store)
    requires ComputesOnLong(m, store)
    requires match c
             case CLong(value) => e == IntLit(value)
             case CTruth(flag) => e == BoolLit(flag)
             case CObject(name) => e == VarRef(name)
             case _ => false
    ensures EvalC(m, c) == AsC(Evaluate(e, store))
  {
    hide Mathematical;
  }

  lemma PrefixComputes(m: Machine, op: UnaryOp, c: CCode, e: Expr, store: Store)
    requires ComputesOnLong(m, store) && EvalC(m, c) == AsC(Evaluate(e, store))
    ensures EvalC(m, CPrefix(op, c)) == AsC(Evaluate(Unary(op, e), store))
  {
    hide Mathematical;
  }

  lemma TernaryComputes(m: Machine, b: CCode, c: CCode, d: CCode, condition: Expr, whenTrue: Expr, whenFalse: Expr, store: Store)
    requires ComputesOnLong(m, store) && EvalC(m, b) == AsC(Evaluate(condition, store))
    requires EvalC(m, c) == AsC(Evaluate(whenTrue, store)) && EvalC(m, d) == AsC(Evaluate(whenFalse, store))
    ensures EvalC(m, CTernary(b, c, d)) == AsC(Evaluate(Conditional(whenTrue, condition, whenFalse), store))
  {
    hide Mathematical;
  }

  lemma LogicalIs(l: int, r: int)
    ensures l != 0 ==> Mathematical(And, l, r) == Some(BoolValue(r != 0))
    ensures l == 0 ==> Mathematical(Or, l, r) == Some(BoolValue(r != 0))
    ensures Mathematical(Comma, l, r) == Some(r)
  {
  }

  lemma InfixComputes(m: Machine, op: BinOp, c: CCode, d: CCode, lhs: Expr, rhs: Expr, store: Store)
    requires ComputesOnLong(m, store)
    requires EvalC(m, c) == AsC(Evaluate(lhs, store)) && EvalC(m, d) == AsC(Evaluate(rhs, store))
    ensures EvalC(m, CInfix(op, c, d)) == AsC(Evaluate(Binary(op, lhs, rhs), store))
  {
    var l, r := Evaluate(lhs, store), Evaluate(rhs, store);
    ValuesAreLong(rhs, store);
    if l.Some? && r.Some? { LogicalIs(l.value, r.value); }
    hide Mathematical;
  }

  lemma LongMachineExists(store: Store) returns (m: Machine)
    ensures ComputesOnLong(m, store)
  {
    m := Machine(map x | x in store && InLong(store[x]) :: CInt(store[x]), map[],
                 (op: BinOp, lhs: CCode, rhs: CCode, l: CValue, r: CValue) =>
                   if l.CInt? && r.CInt? then AsC(Representable(Mathematical(op, l.v, r.v))) else None,
                 (op: UnaryOp, c: CCode, v: CValue) =>
                   if v.CInt? then AsC(Representable(Some(if op.Neg? then -v.v else -v.v - 1))) else None,
                 (c: CCode, v: CValue) => Some(v), (c: CCode) => None,
                 (op: BinOp, l: PsValue, r: PsValue) => None, (p: PsCode) => None);
  }

  /** What the checker takes for a constant is what the raw code computes, whatever the objects hold. */
  lemma ConstantIsComputed(m: Machine, store: Store, e: Typed)
    requires IntegerTree(e) && ComputesOnLong(m, store) && IntegerConstantValue(Untyped(e)).Some?
    ensures Accepted(e) && EvalC(m, Raw(e)) == Some(CInt(IntegerConstantValue(Untyped(e)).value))
  {
    RawComputes(m, store, e);
    ConstantHoldsInEveryStore(Untyped(e), store);
  }

  function Literal(n: long): Typed { Typed(Number_(n), Integral) }

  /** "1 divided by 0", and "0 and 1 divided by 0". */
  const DIVISION := Typed(BinaryNode(Div, Literal(1), Literal(0)), Integral)
  const GUARDED := Typed(BinaryNode(And, Literal(0), DIVISION), Integral)

  /** Dividing by zero is undefined. */
  ghost predicate NoZeroDivision(m: Machine) {
    forall lhs, rhs, l: CValue :: m.infix(Div, lhs, rhs, l, CInt(0)) == None
  }

  lemma DivisionByZero(m: Machine)
    requires NoZeroDivision(m)
    ensures Accepted(DIVISION) && Fitting(m, DIVISION)
    ensures EvalC(m, Raw(DIVISION)) == None && EvalPs(m, Boxed(DIVISION)) == None
  {
    assert Raw(Literal(1)) == CLong(1) && Raw(Literal(0)) == CLong(0);
    assert Raw(DIVISION) == CInfix(Div, CLong(1), CLong(0));
    OperandsAgree(m, DIVISION);
  }

  /** The raw code skips the division and gives 0; the boxed code runs it. */
  lemma GuardedDivisionDisagrees(m: Machine)
    requires NoZeroDivision(m)
    ensures Accepted(GUARDED) && Fitting(m, GUARDED) && !AllDefined(m, GUARDED)
    ensures EvalC(m, Raw(GUARDED)) == Some(CInt(0)) && EvalPs(m, Boxed(GUARDED)) == None
  {
    DivisionByZero(m);
    assert Raw(Literal(0)) == CLong(0);
    assert EvalC(m, CLong(0)) == Some(CInt(0));
    EagerCode(GUARDED);
  }

  /** There is such a machine. */
  lemma DividerExists() returns (m: Machine)
    ensures NoZeroDivision(m) && m.infix(Div, CLong(6), CLong(2), CInt(6), CInt(2)) == Some(CInt(3))
  {
    m := Machine(map[], map[],
                 (op: BinOp, lhs: CCode, rhs: CCode, l: CValue, r: CValue) =>
                   if op.Div? && l.CInt? && r.CInt? && r.v != 0 then Some(CInt(TruncDiv(l.v, r.v))) else None,
                 (op: UnaryOp, c: CCode, v: CValue) => None, (c: CCode, v: CValue) => None, (c: CCode) => None,
                 (op: BinOp, l: PsValue, r: PsValue) => None, (p: PsCode) => None);
  }
}
