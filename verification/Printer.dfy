/** What the printer writes, as the tokens that its text has, in front of what follows. */
module Printer {
  import opened Options
  import opened Primitives
  import opened Types
  import opened Syntax
  import Literals

  // ----- words -----

  function OpWords(op: BinOp): seq<Word> {
    match op
    case Add => [WPlus]
    case Sub => [WMinus]
    case Mul => [WTimes]
    case Div => [WDivided, WBy]
    case Mod => [WMod]
    case ShiftLeft => [WShifted, WLeft, WBy]
    case ShiftRight => [WShifted, WRight, WBy]
    case Gt => [WIs, WGreater, WThan]
    case Lt => [WIs, WLess, WThan]
    case Eq => [WIs, WEqual, WTo]
    case Ne => [WIs, WNot, WEqual, WTo]
    case Ge => [WIs, WGreater, WThan, WOr, WEqual, WTo]
    case Le => [WIs, WLess, WThan, WOr, WEqual, WTo]
    case BitAnd => [WBitwise, WAnd]
    case BitXor => [WBitwise, WXor]
    case BitOr => [WBitwise, WOr]
    case And => [WAnd]
    case Comma => [WThen]
    case Or => [WOr]
  }

  const POWER_WORDS := [WTo, WThe, WPower, WOf]

  function UnaryWords(op: UnaryOp): seq<Word> {
    if op.Not? then [WNot] else if op.BitNot? then [WBitwise, WNot] else [WMinus]
  }

  function PrefixWords(form: Prefix): seq<Word> {
    match form
    case PointTo => [WValue, WAt]
    case Step(kind) =>
      [if kind.PrefixIncrement? || kind.PostfixIncrement? then WIncrement else WDecrement,
       if kind.PrefixIncrement? || kind.PrefixDecrement? then WBefore else WAfter]
    case LengthOf => [WLength, WOf]
    case SizeOf => [WSize, WOf]
    case MemberOf(member) => [WMember, member, WOf]
    case Math(func) => [func, WOf]
  }

  function QualifierWords(q: Qualifiers): seq<Word> {
    (if q.isConst then [WConstant] else []) + (if q.isVolatile then [WVolatile] else [])
    + (if q.isRestrict then [WRestricted] else []) + (if q.isAtomic then [WAtomic] else [])
  }

  function PlainWords(plain: Plainness): seq<Word> {
    match plain
    case PVoid => [WVoid]
    case PBoolean => [WBoolean]
    case PCharacter => [WCharacter]
    case PSignedCharacter => [WSigned, WCharacter]
    case PUnsignedCharacter => [WUnsigned, WCharacter]
    case PShort => [WShort, WInteger]
    case PUnsignedShort => [WUnsigned, WShort, WInteger]
    case PInteger => [WInteger]
    case PUnsignedInteger => [WUnsigned, WInteger]
    case PLong => [WLong, WInteger]
    case PUnsignedLong => [WUnsigned, WLong, WInteger]
    case PLongLong => [WLong, WLong, WInteger]
    case PUnsignedLongLong => [WUnsigned, WLong, WLong, WInteger]
    case PFloat => [WFloat]
    case PDecimal => [WDecimal]
    case PLongDecimal => [WLong, WDecimal]
    case PNullptr => [WNull, WPointer, WType]
    case PAuto => [WAuto]
    case PSizeType => [WSize, WType]
    case PDifferenceType => [WDifference, WType]
    case PComplex => [WComplex, WDecimal]
  }

  function Sign(isUnsigned: bool): seq<Word> {
    if isUnsigned then [WUnsigned] else []
  }

  function BitWords(isUnsigned: bool): seq<Word> {
    Sign(isUnsigned) + [WBit, WInteger, WWith, WWidth]
  }

  function FixedWords(isUnsigned: bool): seq<Word> {
    Sign(isUnsigned) + [WInteger, WWith, WExactly]
  }

  function StdintWords(isUnsigned: bool, fast: bool): seq<Word> {
    Sign(isUnsigned) + [if fast then WFast else WLeast, WInteger, WWith, WAt, WLeast]
  }

  function ItemsWord(kind: ListKind): Word {
    match kind
    case NumberItems => WNumbers
    case DecimalItems => WDecimals
    case StringItems => WStrings
  }

  function KindWord(kind: EntryKind): Word {
    match kind
    case Positional => WValues
    case ByMember => WMembers
    case ByElement => WElements
  }

  function SourceWords(source: Option<Name>): seq<Word> {
    if source.Some? then [WFrom, source.value, WAs] else [WAs]
  }

  // ----- numbers and strings -----

  /** Seventeen digits and no exponent. */
  const WHOLE_LIMIT := 100_000_000_000_000_000

  predicate IsWhole(v: real) {
    v == v.Floor as real
  }

  /** A decimal prints without a point when it is whole and below the limit, so that a number
      is read; seventeen digits tell doubles apart.  A minus sign is no token. */
  function DecimalToken(v: real): Token {
    if v < 0.0 then Garbled
    else if IsWhole(v) && v.Floor < WHOLE_LIMIT then Num(v.Floor)
    else Decimal(v)
  }

  /** The text between quotes stands as it is.  When it ends at its own closing quote, the token is
      what the tokenizer makes of it; otherwise it runs into what follows, and `Garbled` stands
      for tokens that are not modelled. */
  function StringToken(text: string): Token {
    match Literals.Alone(text)
    case Some(read) => Str(read)
    case None => Garbled
  }

  // ----- types -----

  function SpellTo(t: Spec, rest: Tokens): Tokens
    decreases t, 1
  {
    Front(QualifierWords(t.q), BodyTo(t, rest))
  }

  /** The printed form drops "and variadic parameters". */
  function BodyTo(t: Spec, rest: Tokens): Tokens
    decreases t, 0
  {
    match t
    case Simple(_, plain) => Front(PlainWords(plain), rest)
    case Tagged(_, kind, tag) => Front([TagWord(kind), tag], rest)
    case Alias(_, tag) => Front([tag], rest)
    case PointerTo(_, to) => Front([WPointer, WTo], SpellTo(to, rest))
    case ArrayOf(_, to, bound) =>
      Front([WArray, WOf], SpellTo(to, Front([WWith, WLength], Size(bound) + rest)))
    case VariableArray(_, to, length) => Front([WArray, WOf], SpellTo(to, Front([WWith, WLength], PrintTo(length, rest))))
    case FunctionOf(_, params, _, result) =>
      Front([WFunction, WTaking],
        if params == [] then Front([WNo, WParameters, WReturning], SpellTo(result, rest))
        else ParamsTo(params, Front([WReturning], SpellTo(result, rest))))
    case BitInteger(_, isUnsigned, width) => Front(BitWords(isUnsigned), Size(width) + rest)
    case FixedInteger(_, isUnsigned, width) =>
      Front(FixedWords(isUnsigned), Size(width) + Front([WBits], rest))
    case StdintInteger(_, isUnsigned, fast, width) =>
      Front(StdintWords(isUnsigned, fast), Size(width) + Front([WBits], rest))
    case TypeOfExpr(_, unqualified, e) =>
      Front(if unqualified then [WType, WOf, WUnqualified] else [WType, WOf], [OpenParen] + PrintTo(e, [CloseParen] + rest))
    case TypeOfName(_, unqualified, name) =>
      Front(if unqualified then [WType, WOf, WUnqualified, name] else [WType, WOf, name], rest)
  }

  function Size(width: nat): (ts: Tokens)
    ensures |ts| == 1 && (width <= LONG_MAX ==> ts[0] == Num(width))
  {
    [if width <= LONG_MAX then Num(width) else Garbled]
  }

  function ParamsTo(params: seq<Spec>, rest: Tokens): Tokens
    requires params != []
    decreases params, 0
  {
    if |params| == 1 then SpellTo(params[0], rest) else SpellTo(params[0], Front([WAnd], ParamsTo(params[1..], rest)))
  }

  // ----- expressions -----

  function PrintTo(e: Expr, rest: Tokens): Tokens
    decreases e, 0
  {
    match e
    case IntLit(n) => [if n >= 0 then Num(n) else Garbled] + rest
    case FloatLit(v) => [DecimalToken(v)] + rest
    case StringLit(text) => [StringToken(text)] + rest
    case BoolLit(flag) => Front([if flag then WTrue else WFalse], rest)
    case NullptrLit => Front([WNull, WPointer], rest)
    case VarRef(name) => Front([name], rest)
    case AddressOf(name) => Front([WAddress, WOf, name], rest)
    case EmptyList(kind) => Front([WEmpty, WList, WOf, ItemsWord(kind)], rest)
    case Enumerator(name, enumeration) => Front([WEnumerator, name, WOf, enumeration], rest)
    case Prefixed(form, operand) => Front(PrefixWords(form), PrintTo(operand, rest))
    case Conditional(whenTrue, condition, whenFalse) =>
      Front([WChoose], PrintTo(whenTrue, Front([WWhen], PrintTo(condition, Front([WOtherwise], PrintTo(whenFalse, rest))))))
    case Element(index, base) => Front([WElement, WAt], PrintTo(index, Front([WIn], PrintTo(base, rest))))
    case Item(index, base) => Front([WItem, WAt], PrintTo(index, Front([WIn], PrintTo(base, rest))))
    case Cast(operand, target) => Front([WConvert], PrintTo(operand, Front([WTo, WType], SpellTo(target, rest))))
    case SizeOfType(target) => Front([WSize, WOf, WType], SpellTo(target, rest))
    case AlignOfType(target) => Front([WAlignment, WOf, WType], SpellTo(target, rest))
    case VaArg(source, target) =>
      Front([WNext, WVariadic, WArgument] + SourceWords(source), SpellTo(target, rest))
    case ListOf(items) => Front([WList, WWith], ItemsTo(items, Front([WDone], rest)))
    case Call(name, items) =>
      Front([WCall, name], if items == [] then Front([WDone], rest) else Front([WWith], ArgsTo(items, Front([WDone], rest))))
    case Compound(target, block) =>
      Front([WCompound, WValue, WOf, WType], SpellTo(target, Front([WWith], BlockTo(block, Front([WDone], rest)))))
    case Select(control, associations, default_) =>
      Front([WSelect, WBy, WType, WOf], PrintTo(control, Front([WWith],
        ChoicesTo(associations, DefaultTo(default_, Front([WDone], rest))))))
    case Pow(lhs, rhs) => [OpenParen] + PrintTo(lhs, Front(POWER_WORDS, PrintTo(rhs, [CloseParen] + rest)))
    case Binary(op, lhs, rhs) => [OpenParen] + PrintTo(lhs, Front(OpWords(op), PrintTo(rhs, [CloseParen] + rest)))
    case Unary(op, operand) => [OpenParen] + Front(UnaryWords(op), PrintTo(operand, [CloseParen] + rest))
    case _ => [Garbled] + rest
  }

  function ItemsTo(items: seq<Expr>, rest: Tokens): Tokens
    decreases items, 0
  {
    if items == [] then rest
    else if |items| == 1 then PrintTo(items[0], rest)
    else PrintTo(items[0], Front([WFollowed, WBy], ItemsTo(items[1..], rest)))
  }

  /** The commas between arguments are no tokens. */
  function ArgsTo(args: seq<Expr>, rest: Tokens): Tokens
    decreases args, 0
  {
    if args == [] then rest else PrintTo(args[0], ArgsTo(args[1..], rest))
  }

  function BlockTo(block: Aggregate, rest: Tokens): Tokens
    decreases block, 0
  {
    match block
    case Braces => Front([WEmpty, WBraces], rest)
    case Scalar(single) => Front([WValue], PrintTo(single, rest))
    case Listed(kind, entries) => Front([KindWord(kind)], EntriesTo(kind, entries, rest))
  }

  function EntriesTo(kind: EntryKind, entries: seq<Entry>, rest: Tokens): Tokens
    decreases entries, 0
  {
    if entries == [] then rest
    else if |entries| == 1 then EntryTo(kind, entries[0], rest)
    else EntryTo(kind, entries[0], Front([WFollowed, WBy], EntriesTo(kind, entries[1..], rest)))
  }

  function EntryTo(kind: EntryKind, entry: Entry, rest: Tokens): Tokens
    decreases entry, 1
  {
    match kind
    case Positional => ContentTo(entry.content, rest)
    case ByMember => Front([entry.member, WAs], ContentTo(entry.content, rest))
    case ByElement => Front([WAt], Size(entry.index) + Front([WAs], ContentTo(entry.content, rest)))
  }

  /** A compound value's nested blocks are not printed. */
  function ContentTo(content: Content, rest: Tokens): Tokens
    decreases content, 0
  {
    if content.Value? then PrintTo(content.expr, rest) else [Garbled] + rest
  }

  function ChoicesTo(associations: seq<Association>, rest: Tokens): Tokens
    decreases associations, 0
  {
    if associations == [] then rest
    else if |associations| == 1 then ChoiceTo(associations[0], rest)
    else ChoiceTo(associations[0], Front([WFollowed, WBy], ChoicesTo(associations[1..], rest)))
  }

  function ChoiceTo(a: Association, rest: Tokens): Tokens
    decreases a, 0
  {
    SpellTo(a.target, Front([WAs], PrintTo(a.result, rest)))
  }

  function DefaultTo(d: Default, rest: Tokens): Tokens
    decreases d, 0
  {
    if d.NoDefault? then rest else Front([WOtherwise], PrintTo(d.result, rest))
  }
}
