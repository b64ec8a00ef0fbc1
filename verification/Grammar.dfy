/** The grammar of expressions, type spellings and aggregate blocks, as functions from the tokens
    that are left to a tree and the tokens left after it.  Every function that succeeds leaves
    fewer tokens, which is also why the mutual recursion ends. */
module Grammar {
  import opened Options
  import opened Primitives
  import opened Types
  import opened Syntax

  datatype Got<+T> = Got(value: T, rest: Tokens)

  // ----- single tokens -----

  function ExpectWord(w: Word, ts: Tokens): (r: Option<Tokens>)
    ensures r == if WordAt(ts, 0, w) then Some(ts[1..]) else None
  {
    if WordAt(ts, 0, w) then Some(ts[1..]) else None
  }

  /** Any word will do as a name. */
  function ExpectName(ts: Tokens): (r: Option<Got<Name>>)
    ensures r == if NameAt(ts, 0) then Some(Got(ts[0].word, ts[1..])) else None
  {
    if NameAt(ts, 0) then Some(Got(ts[0].word, ts[1..])) else None
  }

  predicate TwoAt(ts: Tokens, k: nat, v: Word, w: Word) {
    WordAt(ts, k, v) && WordAt(ts, k + 1, w)
  }

  // ----- operators -----

  datatype Infix = Power | Op(op: BinOp)

  function Join(op: Infix, lhs: Expr, rhs: Expr): Expr {
    match op
    case Power => Pow(lhs, rhs)
    case Op(op) => Binary(op, lhs, rhs)
  }

  /** Something spelled with a number of tokens. */
  datatype Sized<+T> = Sized(it: T, width: nat)

  const OR_LEVEL := 0
  const NOT_LEVEL := 5
  const COMPARISON_LEVEL := 6
  const PRIMARY_LEVEL := 11

  /** What a level of left-associative operators finds next. */
  function OperatorAt(level: nat, ts: Tokens): (r: Option<Sized<Infix>>)
    ensures r.Some? ==> 0 < r.value.width <= |ts|
  {
    if level == 0 then
      if WordAt(ts, 0, WOr) then Some(Sized(Op(Or), 1)) else None
    else if level == 1 then
      if WordAt(ts, 0, WAnd) then Some(Sized(Op(And), 1)) else None
    else if level == 2 then
      if TwoAt(ts, 0, WBitwise, WOr) then Some(Sized(Op(BitOr), 2)) else None
    else if level == 3 then
      if TwoAt(ts, 0, WBitwise, WXor) then Some(Sized(Op(BitXor), 2)) else None
    else if level == 4 then
      if TwoAt(ts, 0, WBitwise, WAnd) then Some(Sized(Op(BitAnd), 2)) else None
    else if level == 7 then
      if TwoAt(ts, 0, WShifted, WLeft) && WordAt(ts, 2, WBy) then Some(Sized(Op(ShiftLeft), 3))
      else if TwoAt(ts, 0, WShifted, WRight) && WordAt(ts, 2, WBy) then Some(Sized(Op(ShiftRight), 3))
      else None
    else if level == 8 then
      if WordAt(ts, 0, WPlus) then Some(Sized(Op(Add), 1))
      else if WordAt(ts, 0, WMinus) then Some(Sized(Op(Sub), 1))
      else None
    else if level == 9 then
      if WordAt(ts, 0, WTimes) then Some(Sized(Op(Mul), 1))
      else if TwoAt(ts, 0, WDivided, WBy) then Some(Sized(Op(Div), 2))
      else if WordAt(ts, 0, WMod) || WordAt(ts, 0, WModulo) then Some(Sized(Op(Mod), 1))
      else None
    else if level == 10 then
      if TwoAt(ts, 0, WTo, WThe) && TwoAt(ts, 2, WPower, WOf) then Some(Sized(Power, 4)) else None
    else None
  }

  /** The comparison after "is", the longer spellings first. */
  function ComparisonAt(ts: Tokens): (r: Option<Sized<Infix>>)
    ensures r.Some? ==> 0 < r.value.width <= |ts|
  {
    if TwoAt(ts, 0, WGreater, WThan) && TwoAt(ts, 2, WOr, WEqual) && WordAt(ts, 4, WTo) then Some(Sized(Op(Ge), 5))
    else if TwoAt(ts, 0, WLess, WThan) && TwoAt(ts, 2, WOr, WEqual) && WordAt(ts, 4, WTo) then Some(Sized(Op(Le), 5))
    else if TwoAt(ts, 0, WGreater, WThan) then Some(Sized(Op(Gt), 2))
    else if TwoAt(ts, 0, WLess, WThan) then Some(Sized(Op(Lt), 2))
    else if TwoAt(ts, 0, WEqual, WTo) then Some(Sized(Op(Eq), 2))
    else if TwoAt(ts, 0, WNot, WEqual) && WordAt(ts, 2, WTo) then Some(Sized(Op(Ne), 3))
    else None
  }

  // ----- the ladder -----

  function ParseLevel(level: nat, ts: Tokens): (r: Option<Got<Expr>>)
    requires level <= PRIMARY_LEVEL
    ensures r.Some? ==> |r.value.rest| < |ts|
    decreases |ts|, 20 - level, 1
  {
    if level == PRIMARY_LEVEL then ParsePrimary(ts)
    else if level == NOT_LEVEL then
      if WordAt(ts, 0, WNot) then
        var p :- ParseLevel(NOT_LEVEL, ts[1..]);
        Some(Got(Unary(Not, p.value), p.rest))
      else if TwoAt(ts, 0, WBitwise, WNot) then
        var p :- ParseLevel(NOT_LEVEL, ts[2..]);
        Some(Got(Unary(BitNot, p.value), p.rest))
      else ParseLevel(level + 1, ts)
    else
      var lhs :- ParseLevel(level + 1, ts);
      if level == COMPARISON_LEVEL then ParseComparison(lhs.value, lhs.rest)
      else ParseOperators(level, lhs.value, lhs.rest)
  }

  function ParseOperators(level: nat, lhs: Expr, ts: Tokens): (r: Option<Got<Expr>>)
    requires level < PRIMARY_LEVEL
    ensures r.Some? ==> |r.value.rest| <= |ts|
    decreases |ts|, 20 - level, 0
  {
    match OperatorAt(level, ts)
    case None => Some(Got(lhs, ts))
    case Some(s) =>
      var rhs :- ParseLevel(level + 1, ts[s.width..]);
      ParseOperators(level, Join(s.it, lhs, rhs.value), rhs.rest)
  }

  /** Comparisons do not chain. */
  function ParseComparison(lhs: Expr, ts: Tokens): (r: Option<Got<Expr>>)
    ensures r.Some? ==> |r.value.rest| <= |ts|
    decreases |ts|, 0, 0
  {
    if !WordAt(ts, 0, WIs) then Some(Got(lhs, ts))
    else
      var s :- ComparisonAt(ts[1..]);
      var rhs :- ParseLevel(COMPARISON_LEVEL + 1, ts[1..][s.width..]);
      Some(Got(Join(s.it, lhs, rhs.value), rhs.rest))
  }

  function ParseExpr(ts: Tokens): (r: Option<Got<Expr>>)
    ensures r.Some? ==> |r.value.rest| < |ts|
    decreases |ts|, 21, 0
  {
    ParseLevel(OR_LEVEL, ts)
  }

  /** An expression and the word that must follow it. */
  function ParseUpTo(w: Word, ts: Tokens): (r: Option<Got<Expr>>)
    ensures r.Some? ==> |r.value.rest| < |ts|
    decreases |ts|, 22, 0
  {
    var p :- ParseExpr(ts);
    var rest :- ExpectWord(w, p.rest);
    Some(Got(p.value, rest))
  }

  // ----- primaries -----

  /** The words of the forms that one primary completes. */
  function PrefixAt(ts: Tokens): (r: Option<Sized<Prefix>>)
    ensures r.Some? ==> 0 < r.value.width <= |ts|
  {
    if TwoAt(ts, 0, WIncrement, WBefore) then Some(Sized(Step(PrefixIncrement), 2))
    else if TwoAt(ts, 0, WIncrement, WAfter) then Some(Sized(Step(PostfixIncrement), 2))
    else if TwoAt(ts, 0, WDecrement, WBefore) then Some(Sized(Step(PrefixDecrement), 2))
    else if TwoAt(ts, 0, WDecrement, WAfter) then Some(Sized(Step(PostfixDecrement), 2))
    else if TwoAt(ts, 0, WValue, WAt) then Some(Sized(PointTo, 2))
    else if TwoAt(ts, 0, WLength, WOf) then Some(Sized(LengthOf, 2))
    else if TwoAt(ts, 0, WSize, WOf) && !WordAt(ts, 2, WType) then Some(Sized(SizeOf, 2))
    else if TwoAt(ts, 0, WAtomic, WLoad) && WordAt(ts, 2, WOf) then Some(Sized(Math(ATOMIC_LOAD), 3))
    else if WordAt(ts, 0, WMember) && NameAt(ts, 1) && WordAt(ts, 2, WOf) then Some(Sized(MemberOf(ts[1].word), 3))
    else if TwoAt(ts, 0, WSquare, WRoot) && WordAt(ts, 2, WOf) then Some(Sized(Math(WMath("sqrt")), 3))
    else if TwoAt(ts, 0, WReal, WPart) && WordAt(ts, 2, WOf) then Some(Sized(Math(WReal), 3))
    else if TwoAt(ts, 0, WImaginary, WPart) && WordAt(ts, 2, WOf) then Some(Sized(Math(WImaginary), 3))
    else if TwoAt(ts, 0, WAbsolute, WValue) && WordAt(ts, 2, WOf) then Some(Sized(Math(WMath("abs")), 3))
    else if NameAt(ts, 0) && ts[0].word.WMath? && WordAt(ts, 1, WOf) then Some(Sized(Math(ts[0].word), 2))
    else None
  }

  const ATOMIC_LOAD := Named("atomic_load")

  /** The forms with parts of their own. */
  datatype Form =
    | NegateForm | ParenForm | EvaluateForm | ChooseForm | ElementForm | ItemForm
    | ConvertForm | SizeTypeForm | AlignForm | LimitForm(maximum: bool) | OffsetForm
    | ExchangeForm | FetchForm(operation: Word) | ListForm | CallThroughForm | CallForm
    | CompoundForm | SelectForm | NextForm

  predicate IsFetch(w: Word) { w in {WAdd, WSubtract, WAnd, WOr, WXor} }

  function FormAt(ts: Tokens): (r: Option<Sized<Form>>)
    ensures r.Some? ==> 0 < r.value.width <= |ts|
  {
    if ts != [] && ts[0] == OpenParen then Some(Sized(ParenForm, 1))
    else if WordAt(ts, 0, WMinus) then Some(Sized(NegateForm, 1))
    else if WordAt(ts, 0, WEvaluate) then Some(Sized(EvaluateForm, 1))
    else if WordAt(ts, 0, WChoose) then Some(Sized(ChooseForm, 1))
    else if WordAt(ts, 0, WConvert) then Some(Sized(ConvertForm, 1))
    else if TwoAt(ts, 0, WElement, WAt) then Some(Sized(ElementForm, 2))
    else if TwoAt(ts, 0, WItem, WAt) then Some(Sized(ItemForm, 2))
    else if TwoAt(ts, 0, WCall, WThrough) then Some(Sized(CallThroughForm, 2))
    else if WordAt(ts, 0, WCall) then Some(Sized(CallForm, 1))
    else if TwoAt(ts, 0, WList, WWith) then Some(Sized(ListForm, 2))
    else if TwoAt(ts, 0, WCompound, WValue) then Some(Sized(CompoundForm, 2))
    else if TwoAt(ts, 0, WSelect, WBy) && TwoAt(ts, 2, WType, WOf) then Some(Sized(SelectForm, 4))
    else if TwoAt(ts, 0, WNext, WVariadic) && WordAt(ts, 2, WArgument) then Some(Sized(NextForm, 3))
    else if TwoAt(ts, 0, WSize, WOf) && WordAt(ts, 2, WType) then Some(Sized(SizeTypeForm, 3))
    else if TwoAt(ts, 0, WAlignment, WOf) && WordAt(ts, 2, WType) then Some(Sized(AlignForm, 3))
    else if TwoAt(ts, 0, WMaximum, WValue) && TwoAt(ts, 2, WOf, WType) then Some(Sized(LimitForm(true), 4))
    else if TwoAt(ts, 0, WMinimum, WValue) && TwoAt(ts, 2, WOf, WType) then Some(Sized(LimitForm(false), 4))
    else if TwoAt(ts, 0, WOffset, WOf) && WordAt(ts, 2, WMember) then Some(Sized(OffsetForm, 3))
    else if TwoAt(ts, 0, WAtomic, WExchange) then Some(Sized(ExchangeForm, 2))
    else if TwoAt(ts, 0, WAtomic, WFetch) && NameAt(ts, 2) && IsFetch(ts[2].word) then Some(Sized(FetchForm(ts[2].word), 3))
    else None
  }

  /** What is left: single tokens, and words with names; any other word is a variable. */
  function ParseAtom(ts: Tokens): (r: Option<Got<Expr>>)
    ensures r.Some? ==> |r.value.rest| < |ts| && r.value.rest == ts[|ts| - |r.value.rest|..]
  {
    if ts == [] then None
    else if ts[0].Num? then Some(Got(IntLit(ts[0].value), ts[1..]))
    else if ts[0].Decimal? then Some(Got(FloatLit(ts[0].number), ts[1..]))
    else if ts[0].Str? then Some(Got(StringLit(ts[0].text), ts[1..]))
    else if !ts[0].Ident? then None
    else if TwoAt(ts, 0, WThe, WCharacter) && StrAt(ts, 2) then
      if |ts[2].text| != 1 then None else Some(Got(IntLit(ts[2].text[0] as int % 256), ts[3..]))
    else if WordAt(ts, 0, WTrue) then Some(Got(BoolLit(true), ts[1..]))
    else if WordAt(ts, 0, WFalse) then Some(Got(BoolLit(false), ts[1..]))
    else if TwoAt(ts, 0, WNull, WPointer) then Some(Got(NullptrLit, ts[2..]))
    else if TwoAt(ts, 0, WAddress, WOf) then
      if NameAt(ts, 2) then Some(Got(AddressOf(ts[2].word), ts[3..])) else None
    else if TwoAt(ts, 0, WIs, WLock) && WordAt(ts, 2, WFree) then
      if NameAt(ts, 3) then Some(Got(LockFree(ts[3].word), ts[4..])) else None
    else if TwoAt(ts, 0, WEmpty, WList) && WordAt(ts, 2, WOf) then
      if WordAt(ts, 3, WNumbers) then Some(Got(EmptyList(NumberItems), ts[4..]))
      else if WordAt(ts, 3, WDecimals) then Some(Got(EmptyList(DecimalItems), ts[4..]))
      else if WordAt(ts, 3, WStrings) then Some(Got(EmptyList(StringItems), ts[4..]))
      else None
    else if WordAt(ts, 0, WEnumerator) then
      if NameAt(ts, 1) && WordAt(ts, 2, WOf) && NameAt(ts, 3)
      then Some(Got(Enumerator(ts[1].word, ts[3].word), ts[4..])) else None
    else if WordAt(ts, 0, WMember) then None
    else Some(Got(VarRef(ts[0].word), ts[1..]))
  }

  function ParsePrimary(ts: Tokens): (r: Option<Got<Expr>>)
    ensures r.Some? ==> |r.value.rest| < |ts|
    decreases |ts|, 0, 2
  {
    match PrefixAt(ts)
    case Some(s) =>
      var p :- ParsePrimary(ts[s.width..]);
      Some(Got(Prefixed(s.it, p.value), p.rest))
    case None =>
      match FormAt(ts)
      case Some(s) => ParseForm(s.it, ts[s.width..])
      case None => ParseAtom(ts)
  }

  /** The parts of a form, after its words. */
  function ParseForm(form: Form, ts: Tokens): (r: Option<Got<Expr>>)
    ensures r.Some? ==> |r.value.rest| < |ts|
    decreases |ts|, 40, 0
  {
    match form
    case NegateForm => ParseNegated(ts)
    case ParenForm => ParseInner(ts)
    case EvaluateForm => ParseEvaluate(ts)
    case ChooseForm => ParseChoose(ts)
    case ElementForm => ParseIndexed(true, ts)
    case ItemForm => ParseIndexed(false, ts)
    case ConvertForm => ParseConvert(ts)
    case SizeTypeForm => (var t :- ParseSpec(ts); Some(Got(SizeOfType(t.value), t.rest)))
    case AlignForm => (var t :- ParseSpec(ts); Some(Got(AlignOfType(t.value), t.rest)))
    case LimitForm(maximum) => (var t :- ParseSpec(ts); Some(Got(LimitOfType(t.value, maximum), t.rest)))
    case OffsetForm => ParseOffset(ts)
    case ExchangeForm => ParseAtomic(None, WWith, ts)
    case FetchForm(operation) => ParseAtomic(Some(operation), WTo, ts)
    case ListForm => ParseList(ts)
    case CallThroughForm => ParseCallThrough(ts)
    case CallForm => ParseCall(ts)
    case CompoundForm => ParseCompound(ts)
    case SelectForm => ParseSelect(ts)
    case NextForm => ParseNext(ts)
  }

  function ParseNegated(ts: Tokens): (r: Option<Got<Expr>>)
    ensures r.Some? ==> |r.value.rest| < |ts|
    decreases |ts|, 30, 0
  {
    var p :- ParsePrimary(ts);
    Some(Got(Unary(Neg, p.value), p.rest))
  }

  function ParseInner(ts: Tokens): (r: Option<Got<Expr>>)
    ensures r.Some? ==> |r.value.rest| < |ts|
    decreases |ts|, 30, 0
  {
    var p :- ParseExpr(ts);
    if p.rest != [] && p.rest[0] == CloseParen then Some(Got(p.value, p.rest[1..])) else None
  }

  function ParseEvaluate(ts: Tokens): (r: Option<Got<Expr>>)
    ensures r.Some? ==> |r.value.rest| < |ts|
    decreases |ts|, 30, 0
  {
    var first :- ParseUpTo(WThen, ts);
    var last :- ParseExpr(first.rest);
    Some(Got(Binary(Comma, first.value, last.value), last.rest))
  }

  function ParseChoose(ts: Tokens): (r: Option<Got<Expr>>)
    ensures r.Some? ==> |r.value.rest| < |ts|
    decreases |ts|, 30, 0
  {
    var whenTrue :- ParseUpTo(WWhen, ts);
    var condition :- ParseUpTo(WOtherwise, whenTrue.rest);
    var whenFalse :- ParseExpr(condition.rest);
    Some(Got(Conditional(whenTrue.value, condition.value, whenFalse.value), whenFalse.rest))
  }

  function ParseIndexed(element: bool, ts: Tokens): (r: Option<Got<Expr>>)
    ensures r.Some? ==> |r.value.rest| < |ts|
    decreases |ts|, 30, 0
  {
    var index :- ParseUpTo(WIn, ts);
    var base :- ParsePrimary(index.rest);
    Some(Got(if element then Element(index.value, base.value) else Item(index.value, base.value), base.rest))
  }

  function ParseConvert(ts: Tokens): (r: Option<Got<Expr>>)
    ensures r.Some? ==> |r.value.rest| < |ts|
    decreases |ts|, 30, 0
  {
    var operand :- ParsePrimary(ts);
    var to :- ExpectWord(WTo, operand.rest);
    var type_ :- ExpectWord(WType, to);
    var target :- ParseSpec(type_);
    Some(Got(Cast(operand.value, target.value), target.rest))
  }

  function ParseOffset(ts: Tokens): (r: Option<Got<Expr>>)
    ensures r.Some? ==> |r.value.rest| < |ts|
    decreases |ts|, 30, 0
  {
    var name :- ExpectName(ts);
    var in_ :- ExpectWord(WIn, name.rest);
    var type_ :- ExpectWord(WType, in_);
    var target :- ParseSpec(type_);
    Some(Got(OffsetOf(name.value, target.value), target.rest))
  }

  function ParseAtomic(operation: Option<Word>, before: Word, ts: Tokens): (r: Option<Got<Expr>>)
    ensures r.Some? ==> |r.value.rest| < |ts|
    decreases |ts|, 30, 0
  {
    var operand :- ParseUpTo(before, ts);
    var name :- ExpectName(operand.rest);
    Some(Got(if operation.Some? then AtomicRmw(operation.value, name.value, operand.value)
             else AtomicExchange(name.value, operand.value), name.rest))
  }

  function ParseNext(ts: Tokens): (r: Option<Got<Expr>>)
    ensures r.Some? ==> |r.value.rest| < |ts|
    decreases |ts|, 30, 0
  {
    if WordAt(ts, 0, WFrom) then
      var source :- ExpectName(ts[1..]);
      var as_ :- ExpectWord(WAs, source.rest);
      var target :- ParseSpec(as_);
      Some(Got(VaArg(Some(source.value), target.value), target.rest))
    else
      var as_ :- ExpectWord(WAs, ts);
      var target :- ParseSpec(as_);
      Some(Got(VaArg(None, target.value), target.rest))
  }

  // ----- lists of expressions -----

  predicate FollowedBy(ts: Tokens) { TwoAt(ts, 0, WFollowed, WBy) }

  function ParseList(ts: Tokens): (r: Option<Got<Expr>>)
    ensures r.Some? ==> |r.value.rest| < |ts|
    decreases |ts|, 30, 0
  {
    if WordAt(ts, 0, WDone) then None
    else
      var items :- ParseItems(ts);
      var rest :- ExpectWord(WDone, items.rest);
      Some(Got(ListOf(items.value), rest))
  }

  /** One or more, "followed by" between them. */
  function ParseItems(ts: Tokens): (r: Option<Got<seq<Expr>>>)
    ensures r.Some? ==> |r.value.rest| < |ts|
    decreases |ts|, 23, 0
  {
    var first :- ParseExpr(ts);
    if FollowedBy(first.rest) then
      var others :- ParseItems(first.rest[2..]);
      Some(Got([first.value] + others.value, others.rest))
    else Some(Got([first.value], first.rest))
  }

  /** Arguments stand side by side until "done". */
  function ParseArgs(ts: Tokens): (r: Option<Got<seq<Expr>>>)
    ensures r.Some? ==> |r.value.rest| < |ts|
    decreases |ts|, 23, 0
  {
    if WordAt(ts, 0, WDone) then Some(Got([], ts[1..]))
    else
      var first :- ParseExpr(ts);
      var others :- ParseArgs(first.rest);
      Some(Got([first.value] + others.value, others.rest))
  }

  /** What follows the callee. */
  function ParseCallEnd(ts: Tokens): (r: Option<Got<seq<Expr>>>)
    ensures r.Some? ==> |r.value.rest| < |ts|
    decreases |ts|, 24, 0
  {
    if WordAt(ts, 0, WWith) then ParseArgs(ts[1..])
    else
      var rest :- ExpectWord(WDone, ts);
      Some(Got([], rest))
  }

  function ParseCall(ts: Tokens): (r: Option<Got<Expr>>)
    ensures r.Some? ==> |r.value.rest| < |ts|
    decreases |ts|, 30, 0
  {
    var name :- ExpectName(ts);
    var args :- ParseCallEnd(name.rest);
    Some(Got(Call(name.value, args.value), args.rest))
  }

  function ParseCallThrough(ts: Tokens): (r: Option<Got<Expr>>)
    ensures r.Some? ==> |r.value.rest| < |ts|
    decreases |ts|, 30, 0
  {
    var callee :- ParsePrimary(ts);
    var args :- ParseCallEnd(callee.rest);
    Some(Got(IndirectCall(callee.value, args.value), args.rest))
  }

  // ----- compound values and aggregate blocks -----

  function ParseCompound(ts: Tokens): (r: Option<Got<Expr>>)
    ensures r.Some? ==> |r.value.rest| < |ts|
    decreases |ts|, 30, 0
  {
    var of :- ExpectWord(WOf, ts);
    var type_ :- ExpectWord(WType, of);
    var target :- ParseSpec(type_);
    var with :- ExpectWord(WWith, target.rest);
    if WordAt(with, 0, WValue) then
      var single :- ParseUpTo(WDone, with[1..]);
      Some(Got(Compound(target.value, Scalar(single.value)), single.rest))
    else if BlockAt(with) then
      var block :- ParseAggregate(with);
      if block.value.Braces? then
        var rest :- ExpectWord(WDone, block.rest);
        Some(Got(Compound(target.value, block.value), rest))
      else Some(Got(Compound(target.value, block.value), block.rest))
    else None
  }

  predicate BlockAt(ts: Tokens) {
    WordAt(ts, 0, WEmpty) || WordAt(ts, 0, WValues) || WordAt(ts, 0, WMembers) || WordAt(ts, 0, WElements)
  }

  function EntryKindAt(ts: Tokens): (r: Option<EntryKind>)
    ensures r.Some? ==> ts != []
  {
    if WordAt(ts, 0, WValues) then Some(Positional)
    else if WordAt(ts, 0, WMembers) then Some(ByMember)
    else if WordAt(ts, 0, WElements) then Some(ByElement)
    else None
  }

  /** A block after its "with"; all but empty braces end with "done". */
  function ParseAggregate(ts: Tokens): (r: Option<Got<Aggregate>>)
    ensures r.Some? ==> |r.value.rest| < |ts|
    decreases |ts|, 25, 0
  {
    if TwoAt(ts, 0, WEmpty, WBraces) then Some(Got(Braces, ts[2..]))
    else
      var kind :- EntryKindAt(ts);
      if WordAt(ts, 1, WDone) then None
      else
        var entries :- ParseEntries(kind, ts[1..]);
        var rest :- ExpectWord(WDone, entries.rest);
        Some(Got(Listed(kind, entries.value), rest))
  }

  function ParseEntries(kind: EntryKind, ts: Tokens): (r: Option<Got<seq<Entry>>>)
    ensures r.Some? ==> |r.value.rest| < |ts|
    decreases |ts|, 24, 1
  {
    var first :- ParseEntry(kind, ts);
    if FollowedBy(first.rest) then
      var others :- ParseEntries(kind, first.rest[2..]);
      Some(Got([first.value] + others.value, others.rest))
    else Some(Got([first.value], first.rest))
  }

  const NO_NAME := Named("")

  function ParseEntry(kind: EntryKind, ts: Tokens): (r: Option<Got<Entry>>)
    ensures r.Some? ==> |r.value.rest| < |ts|
    decreases |ts|, 24, 0
  {
    match kind
    case Positional =>
      var content :- ParseContent(ts);
      Some(Got(Entry(NO_NAME, 0, content.value), content.rest))
    case ByMember =>
      var name :- ExpectName(ts);
      var as_ :- ExpectWord(WAs, name.rest);
      var content :- ParseContent(as_);
      Some(Got(Entry(name.value, 0, content.value), content.rest))
    case ByElement =>
      if !WordAt(ts, 0, WAt) || !NumAt(ts, 1) then None
      else
        var as_ :- ExpectWord(WAs, ts[2..]);
        var content :- ParseContent(as_);
        Some(Got(Entry(NO_NAME, ts[1].value, content.value), content.rest))
  }

  function ParseContent(ts: Tokens): (r: Option<Got<Content>>)
    ensures r.Some? ==> |r.value.rest| < |ts|
    decreases |ts|, 23, 0
  {
    if WordAt(ts, 0, WWith) then
      var block :- ParseAggregate(ts[1..]);
      Some(Got(Nested(block.value), block.rest))
    else
      var e :- ParseExpr(ts);
      Some(Got(Value(e.value), e.rest))
  }

  // ----- selection by type -----

  function ParseSelect(ts: Tokens): (r: Option<Got<Expr>>)
    ensures r.Some? ==> |r.value.rest| < |ts|
    decreases |ts|, 30, 0
  {
    var control :- ParseUpTo(WWith, ts);
    if WordAt(control.rest, 0, WDone) || WordAt(control.rest, 0, WOtherwise) then None
    else
      var chosen :- ParseAssociations(control.rest);
      var default_ :- ParseDefault(chosen.rest);
      var rest :- ExpectWord(WDone, default_.rest);
      Some(Got(Select(control.value, chosen.value, default_.value), rest))
  }

  /** One or more; after "followed by" the list may also end. */
  function ParseAssociations(ts: Tokens): (r: Option<Got<seq<Association>>>)
    ensures r.Some? ==> |r.value.rest| < |ts|
    decreases |ts|, 23, 0
  {
    var target :- ParseSpec(ts);
    var as_ :- ExpectWord(WAs, target.rest);
    var result :- ParseExpr(as_);
    var first := Association(target.value, result.value);
    if !FollowedBy(result.rest) then Some(Got([first], result.rest))
    else
      var next := result.rest[2..];
      if WordAt(next, 0, WDone) || WordAt(next, 0, WOtherwise) then Some(Got([first], next))
      else
        var others :- ParseAssociations(next);
        Some(Got([first] + others.value, others.rest))
  }

  function ParseDefault(ts: Tokens): (r: Option<Got<Default>>)
    ensures r.Some? ==> |r.value.rest| <= |ts|
    decreases |ts|, 23, 0
  {
    if WordAt(ts, 0, WOtherwise) then
      var e :- ParseExpr(ts[1..]);
      Some(Got(Otherwise(e.value), e.rest))
    else Some(Got(NoDefault, ts))
  }

  // ----- types -----

  function ParseQualifiers(q: Qualifiers, ts: Tokens): (r: Got<Qualifiers>)
    ensures |r.rest| <= |ts|
    decreases |ts|
  {
    if WordAt(ts, 0, WConstant) then ParseQualifiers(q.(isConst := true), ts[1..])
    else if WordAt(ts, 0, WVolatile) then ParseQualifiers(q.(isVolatile := true), ts[1..])
    else if WordAt(ts, 0, WRestricted) then ParseQualifiers(q.(isRestrict := true), ts[1..])
    else if WordAt(ts, 0, WAtomic) then ParseQualifiers(q.(isAtomic := true), ts[1..])
    else Got(q, ts)
  }

  function ParseSpec(ts: Tokens): (r: Option<Got<Spec>>)
    ensures r.Some? ==> |r.value.rest| < |ts|
    decreases |ts|, 22, 1
  {
    var head := ParseQualifiers(PLAIN, ts);
    ParseBody(head.value, head.rest)
  }

  /** A type after its qualifiers: derived types here, the others spelled by themselves. */
  function ParseBody(q: Qualifiers, ts: Tokens): (r: Option<Got<Spec>>)
    ensures r.Some? ==> |r.value.rest| < |ts|
    decreases |ts|, 22, 0
  {
    if TwoAt(ts, 0, WPointer, WTo) then
      var t :- ParseSpec(ts[2..]);
      Some(Got(PointerTo(q, t.value), t.rest))
    else if TwoAt(ts, 0, WArray, WOf) then ParseArray(q, ts[2..])
    else if TwoAt(ts, 0, WFunction, WTaking) then ParseFunction(q, ts[2..])
    else if TwoAt(ts, 0, WFunction, WReturning) then ParseResult(q, [], false, ts[2..])
    else if TwoAt(ts, 0, WType, WOf) then ParseTypeOf(q, ts[2..])
    else ParseLeaf(q, ts)
  }

  function ParseTypeOf(q: Qualifiers, ts: Tokens): (r: Option<Got<Spec>>)
    ensures r.Some? ==> |r.value.rest| < |ts|
    decreases |ts|, 31, 0
  {
    var unqualified := WordAt(ts, 0, WUnqualified);
    var what := if unqualified then ts[1..] else ts;
    if what != [] && what[0] == OpenParen then
      var e :- ParseInner(what[1..]);
      Some(Got(TypeOfExpr(q, unqualified, e.value), e.rest))
    else
      var name :- ExpectName(what);
      Some(Got(TypeOfName(q, unqualified, name.value), name.rest))
  }

  function ParseArray(q: Qualifiers, ts: Tokens): (r: Option<Got<Spec>>)
    ensures r.Some? ==> |r.value.rest| < |ts|
    decreases |ts|, 31, 0
  {
    var element :- ParseSpec(ts);
    var with :- ExpectWord(WWith, element.rest);
    var length :- ExpectWord(WLength, with);
    if NumAt(length, 0) then
      if length[0].value == 0 then None else Some(Got(ArrayOf(q, element.value, length[0].value), length[1..]))
    else
      var e :- ParseExpr(length);
      Some(Got(VariableArray(q, element.value, e.value), e.rest))
  }

  function ParseResult(q: Qualifiers, params: seq<Spec>, variadic: bool, ts: Tokens): (r: Option<Got<Spec>>)
    ensures r.Some? ==> |r.value.rest| < |ts|
    decreases |ts|, 31, 0
  {
    var result :- ParseSpec(ts);
    Some(Got(FunctionOf(q, params, variadic, result.value), result.rest))
  }

  function ParseFunction(q: Qualifiers, ts: Tokens): (r: Option<Got<Spec>>)
    ensures r.Some? ==> |r.value.rest| < |ts|
    decreases |ts|, 32, 0
  {
    if TwoAt(ts, 0, WNo, WParameters) then
      var returning :- ExpectWord(WReturning, ts[2..]);
      ParseResult(q, [], false, returning)
    else
      var params :- ParseParams(ts);
      var last := VariadicAt(params.rest);
      var returning :- ExpectWord(WReturning, if last then params.rest[3..] else params.rest);
      ParseResult(q, params.value, last, returning)
  }

  predicate VariadicAt(ts: Tokens) {
    TwoAt(ts, 0, WAnd, WVariadic) && WordAt(ts, 2, WParameters)
  }

  /** Up to "and variadic parameters" or a type with no "and" behind it. */
  function ParseParams(ts: Tokens): (r: Option<Got<seq<Spec>>>)
    ensures r.Some? ==> |r.value.rest| < |ts|
    decreases |ts|, 23, 0
  {
    var first :- ParseSpec(ts);
    if WordAt(first.rest, 0, WAnd) && !VariadicAt(first.rest) then
      var others :- ParseParams(first.rest[1..]);
      Some(Got([first.value] + others.value, others.rest))
    else Some(Got([first.value], first.rest))
  }

  // ----- types without parts -----

  /** "with exactly N bits" from position k on. */
  predicate ExactlyAt(ts: Tokens, k: nat) {
    TwoAt(ts, k, WWith, WExactly) && NumAt(ts, k + 2) && WordAt(ts, k + 3, WBits)
  }

  /** "integer with at least N bits" from position k on. */
  predicate AtLeastAt(ts: Tokens, k: nat) {
    TwoAt(ts, k, WInteger, WWith) && TwoAt(ts, k + 2, WAt, WLeast) && NumAt(ts, k + 4) && WordAt(ts, k + 5, WBits)
  }

  /** "bit integer with width" from position k on. */
  predicate BitAt(ts: Tokens, k: nat) {
    TwoAt(ts, k, WBit, WInteger) && TwoAt(ts, k + 2, WWith, WWidth)
  }

  /** A spelling that takes up the first `used` tokens. */
  function Used(spec: Spec, ts: Tokens, used: nat): (r: Option<Got<Spec>>)
    requires 0 < used <= |ts|
    ensures r == Some(Got(spec, ts[used..]))
  {
    Some(Got(spec, ts[used..]))
  }

  function ParseLeaf(q: Qualifiers, ts: Tokens): (r: Option<Got<Spec>>)
    ensures r.Some? ==> |r.value.rest| < |ts| && r.value.rest == ts[|ts| - |r.value.rest|..]
  {
    if !NameAt(ts, 0) then None
    else if WordAt(ts, 0, WEnumeration) then ParseTag(q, EnumerationTag, ts)
    else if WordAt(ts, 0, WUnion) then ParseTag(q, UnionTag, ts)
    else if WordAt(ts, 0, WStructure) then ParseTag(q, StructureTag, ts)
    else if WordAt(ts, 0, WInteger) && ExactlyAt(ts, 1) then ParseFixed(q, false, ts, 3)
    else if (WordAt(ts, 0, WLeast) || WordAt(ts, 0, WFast)) && AtLeastAt(ts, 1) then
      ParseStdint(q, false, WordAt(ts, 0, WFast), ts, 5)
    else if BitAt(ts, 0) then ParseBits(q, false, ts, 4)
    else if WordAt(ts, 0, WUnsigned) then ParseUnsigned(q, ts)
    else
      match PlainAt(ts)
      case Some(s) => Used(Simple(q, s.it), ts, s.width)
      case None => Used(Alias(q, ts[0].word), ts, 1)
  }

  function PlainAt(ts: Tokens): (r: Option<Sized<Plainness>>)
    ensures r.Some? ==> 0 < r.value.width <= |ts|
  {
    if TwoAt(ts, 0, WNull, WPointer) && WordAt(ts, 2, WType) then Some(Sized(PNullptr, 3))
    else if WordAt(ts, 0, WVoid) then Some(Sized(PVoid, 1))
    else if TwoAt(ts, 0, WComplex, WDecimal) then Some(Sized(PComplex, 2))
    else if TwoAt(ts, 0, WSize, WType) then Some(Sized(PSizeType, 2))
    else if TwoAt(ts, 0, WDifference, WType) then Some(Sized(PDifferenceType, 2))
    else if WordAt(ts, 0, WAuto) then Some(Sized(PAuto, 1))
    else if WordAt(ts, 0, WBoolean) then Some(Sized(PBoolean, 1))
    else if WordAt(ts, 0, WCharacter) then Some(Sized(PCharacter, 1))
    else if TwoAt(ts, 0, WSigned, WCharacter) then Some(Sized(PSignedCharacter, 2))
    else if TwoAt(ts, 0, WShort, WInteger) then Some(Sized(PShort, 2))
    else if WordAt(ts, 0, WInteger) then Some(Sized(PInteger, 1))
    else if TwoAt(ts, 0, WLong, WLong) && WordAt(ts, 2, WInteger) then Some(Sized(PLongLong, 3))
    else if TwoAt(ts, 0, WLong, WInteger) then Some(Sized(PLong, 2))
    else if WordAt(ts, 0, WFloat) then Some(Sized(PFloat, 1))
    else if WordAt(ts, 0, WDecimal) then Some(Sized(PDecimal, 1))
    else if TwoAt(ts, 0, WLong, WDecimal) then Some(Sized(PLongDecimal, 2))
    else None
  }

  function ParseUnsigned(q: Qualifiers, ts: Tokens): (r: Option<Got<Spec>>)
    requires WordAt(ts, 0, WUnsigned)
    ensures r.Some? ==> |r.value.rest| < |ts| && r.value.rest == ts[|ts| - |r.value.rest|..]
  {
    if WordAt(ts, 1, WInteger) && ExactlyAt(ts, 2) then ParseFixed(q, true, ts, 4)
    else if (WordAt(ts, 1, WLeast) || WordAt(ts, 1, WFast)) && AtLeastAt(ts, 2) then
      ParseStdint(q, true, WordAt(ts, 1, WFast), ts, 6)
    else if BitAt(ts, 1) then ParseBits(q, true, ts, 5)
    else if WordAt(ts, 1, WCharacter) then Used(Simple(q, PUnsignedCharacter), ts, 2)
    else if TwoAt(ts, 1, WShort, WInteger) then Used(Simple(q, PUnsignedShort), ts, 3)
    else if WordAt(ts, 1, WInteger) then Used(Simple(q, PUnsignedInteger), ts, 2)
    else if TwoAt(ts, 1, WLong, WLong) && WordAt(ts, 3, WInteger) then Used(Simple(q, PUnsignedLongLong), ts, 4)
    else if TwoAt(ts, 1, WLong, WInteger) then Used(Simple(q, PUnsignedLong), ts, 3)
    else Used(Alias(q, WUnsigned), ts, 1)
  }

  function ParseTag(q: Qualifiers, kind: TagKind, ts: Tokens): (r: Option<Got<Spec>>)
    requires ts != []
    ensures r.Some? ==> |r.value.rest| < |ts| && r.value.rest == ts[|ts| - |r.value.rest|..]
  {
    if NameAt(ts, 1) then Used(Tagged(q, kind, ts[1].word), ts, 2) else None
  }

  /** The number stands at `at`, "bits" after it. */
  function ParseFixed(q: Qualifiers, isUnsigned: bool, ts: Tokens, at: nat): (r: Option<Got<Spec>>)
    requires NumAt(ts, at) && at + 2 <= |ts|
    ensures r.Some? ==> |r.value.rest| < |ts| && r.value.rest == ts[|ts| - |r.value.rest|..]
  {
    if ts[at].value == 0 then None else Used(FixedInteger(q, isUnsigned, ts[at].value), ts, at + 2)
  }

  function ParseStdint(q: Qualifiers, isUnsigned: bool, fast: bool, ts: Tokens, at: nat): (r: Option<Got<Spec>>)
    requires NumAt(ts, at) && at + 2 <= |ts|
    ensures r.Some? ==> |r.value.rest| < |ts| && r.value.rest == ts[|ts| - |r.value.rest|..]
  {
    if ts[at].value == 0 then None else Used(StdintInteger(q, isUnsigned, fast, ts[at].value), ts, at + 2)
  }

  function ParseBits(q: Qualifiers, isUnsigned: bool, ts: Tokens, at: nat): (r: Option<Got<Spec>>)
    ensures r.Some? ==> |r.value.rest| < |ts| && r.value.rest == ts[|ts| - |r.value.rest|..]
  {
    if !NumAt(ts, at) || ts[at].value == 0 then None else Used(BitInteger(q, isUnsigned, ts[at].value), ts, at + 1)
  }
}
