/** The trees the parser builds and the printer prints, and the tokens between them.

    Line numbers are dropped. */
module Syntax {
  import opened Options
  import opened Primitives
  import opened Types

  /** Different words are spelled differently, so a name stands for its spelling. */
  type Name = Word

  // ----- trees -----

  datatype Expr =
    | IntLit(value: long)
    | FloatLit(number: real)
    | StringLit(text: string)
    | BoolLit(flag: bool)
    | NullptrLit
    | VarRef(name: Name)
    | AddressOf(name: Name)
    | LockFree(name: Name)
    | EmptyList(kind: ListKind)
    | Enumerator(name: Name, enumeration: Name)
    | Prefixed(form: Prefix, operand: Expr)
    | Conditional(whenTrue: Expr, condition: Expr, whenFalse: Expr)
    | Element(index: Expr, base: Expr)
    | Item(index: Expr, base: Expr)
    | Cast(operand: Expr, target: Spec)
    | SizeOfType(target: Spec)
    | AlignOfType(target: Spec)
    | LimitOfType(target: Spec, maximum: bool)
    | OffsetOf(name: Name, target: Spec)
    | VaArg(source: Option<Name>, target: Spec)
    | AtomicExchange(name: Name, operand: Expr)
    | AtomicRmw(operation: Name, name: Name, operand: Expr)
    | ListOf(items: seq<Expr>)
    | Call(name: Name, items: seq<Expr>)
    | IndirectCall(callee: Expr, items: seq<Expr>)
    | Compound(target: Spec, block: Aggregate)
    | Select(control: Expr, associations: seq<Association>, default_: Default)
    | Pow(lhs: Expr, rhs: Expr)
    | Binary(op: BinOp, lhs: Expr, rhs: Expr)
    | Unary(unop: UnaryOp, operand: Expr)

  datatype ListKind = NumberItems | DecimalItems | StringItems

  /** The forms that are a few words before one primary. */
  datatype Prefix =
    | PointTo
    | Step(kind: IncDecKind)
    | LengthOf
    | SizeOf
    | MemberOf(member: Name)
    | Math(func: Name)

  datatype Association = Association(target: Spec, result: Expr)

  datatype Default = NoDefault | Otherwise(result: Expr)

  datatype Aggregate =
    | Braces
    | Scalar(single: Expr)
    | Listed(kind: EntryKind, entries: seq<Entry>)

  datatype EntryKind = Positional | ByMember | ByElement

  datatype Entry = Entry(member: Name, index: nat, content: Content)

  datatype Content = Value(expr: Expr) | Nested(block: Aggregate)

  datatype Plainness =
    | PVoid | PBoolean | PCharacter | PSignedCharacter | PUnsignedCharacter
    | PShort | PUnsignedShort | PInteger | PUnsignedInteger | PLong | PUnsignedLong | PLongLong | PUnsignedLongLong
    | PFloat | PDecimal | PLongDecimal | PNullptr | PAuto | PSizeType | PDifferenceType | PComplex

  datatype TagKind = StructureTag | UnionTag | EnumerationTag

  /** Type spellings. */
  datatype Spec =
    | Simple(q: Qualifiers, plain: Plainness)
    | Tagged(q: Qualifiers, kind: TagKind, tag: Name)
    | Alias(q: Qualifiers, tag: Name)
    | PointerTo(q: Qualifiers, to: Spec)
    | ArrayOf(q: Qualifiers, to: Spec, bound: nat)
    | VariableArray(q: Qualifiers, to: Spec, length: Expr)
    | FunctionOf(q: Qualifiers, params: seq<Spec>, variadic: bool, result: Spec)
    | BitInteger(q: Qualifiers, isUnsigned: bool, width: nat)
    | FixedInteger(q: Qualifiers, isUnsigned: bool, width: nat)
    | StdintInteger(q: Qualifiers, isUnsigned: bool, fast: bool, width: nat)
    | TypeOfExpr(q: Qualifiers, unqualified: bool, expr: Expr)
    | TypeOfName(q: Qualifiers, unqualified: bool, name: Name)

  // ----- tokens -----

  /** A key is a word of the grammar, `WMath` one of the function names that "of" may follow,
      `Named` any other word. */
  datatype Word = Key(number: nat) | WMath(text: string) | Named(text: string)

  const WOr := Key(0)
  const WAnd := Key(1)
  const WBitwise := Key(2)
  const WXor := Key(3)
  const WNot := Key(4)
  const WIs := Key(5)
  const WGreater := Key(6)
  const WThan := Key(7)
  const WLess := Key(8)
  const WEqual := Key(9)
  const WTo := Key(10)
  const WShifted := Key(11)
  const WLeft := Key(12)
  const WRight := Key(13)
  const WBy := Key(14)
  const WPlus := Key(15)
  const WMinus := Key(16)
  const WTimes := Key(17)
  const WDivided := Key(18)
  const WMod := Key(19)
  const WModulo := Key(20)
  const WThe := Key(21)
  const WPower := Key(22)
  const WOf := Key(23)
  const WTrue := Key(24)
  const WFalse := Key(25)
  const WNull := Key(26)
  const WPointer := Key(27)
  const WChoose := Key(28)
  const WWhen := Key(29)
  const WOtherwise := Key(30)
  const WIncrement := Key(31)
  const WDecrement := Key(32)
  const WBefore := Key(33)
  const WAfter := Key(34)
  const WAddress := Key(35)
  const WValue := Key(36)
  const WAt := Key(37)
  const WMember := Key(38)
  const WElement := Key(39)
  const WIn := Key(40)
  const WCall := Key(41)
  const WThrough := Key(42)
  const WWith := Key(43)
  const WDone := Key(44)
  const WEvaluate := Key(45)
  const WThen := Key(46)
  const WConstant := Key(47)
  const WVolatile := Key(48)
  const WRestricted := Key(49)
  const WAtomic := Key(50)
  const WEnumeration := Key(51)
  const WUnion := Key(52)
  const WStructure := Key(53)
  const WType := Key(54)
  const WArray := Key(55)
  const WLength := Key(56)
  const WInteger := Key(57)
  const WUnsigned := Key(58)
  const WExactly := Key(59)
  const WBits := Key(60)
  const WLeast := Key(61)
  const WFast := Key(62)
  const WFunction := Key(63)
  const WReturning := Key(64)
  const WTaking := Key(65)
  const WNo := Key(66)
  const WParameters := Key(67)
  const WVariadic := Key(68)
  const WBit := Key(69)
  const WWidth := Key(70)
  const WVoid := Key(71)
  const WComplex := Key(72)
  const WDecimal := Key(73)
  const WSize := Key(74)
  const WDifference := Key(75)
  const WAuto := Key(76)
  const WBoolean := Key(77)
  const WCharacter := Key(78)
  const WSigned := Key(79)
  const WShort := Key(80)
  const WLong := Key(81)
  const WFloat := Key(82)
  const WUnqualified := Key(83)
  const WCompound := Key(84)
  const WValues := Key(85)
  const WMembers := Key(86)
  const WElements := Key(87)
  const WAs := Key(88)
  const WFollowed := Key(89)
  const WEmpty := Key(90)
  const WBraces := Key(91)
  const WSelect := Key(92)
  const WNext := Key(93)
  const WArgument := Key(94)
  const WFrom := Key(95)
  const WConvert := Key(96)
  const WAlignment := Key(97)
  const WMaximum := Key(98)
  const WMinimum := Key(99)
  const WOffset := Key(100)
  const WLock := Key(101)
  const WFree := Key(102)
  const WLoad := Key(103)
  const WExchange := Key(104)
  const WFetch := Key(105)
  const WAdd := Key(106)
  const WSubtract := Key(107)
  const WList := Key(108)
  const WNumbers := Key(109)
  const WDecimals := Key(110)
  const WStrings := Key(111)
  const WEnumerator := Key(112)
  const WItem := Key(113)
  const WSquare := Key(114)
  const WRoot := Key(115)
  const WReal := Key(116)
  const WPart := Key(117)
  const WImaginary := Key(118)
  const WAbsolute := Key(119)
  const WSay := Key(120)
  const WPrint := Key(121)
  const WShow := Key(122)
  const WDisplay := Key(123)
  const WWrite := Key(124)
  const WOutput := Key(125)
  const WSet := Key(126)
  const WLet := Key(127)
  const WMake := Key(128)
  const WAssign := Key(129)
  const WPut := Key(130)
  const WDeclare := Key(131)
  const WCreate := Key(132)
  const WDefine := Key(133)
  const WSum := Key(134)
  const WDeduct := Key(135)
  const WTake := Key(136)
  const WIncrease := Key(137)
  const WRaise := Key(138)
  const WGrow := Key(139)
  const WDecrease := Key(140)
  const WReduce := Key(141)
  const WLower := Key(142)
  const WReadfloat := Key(143)
  const WRead := Key(144)
  const WAppend := Key(145)
  const WPush := Key(146)
  const WReplace := Key(147)
  const WRemove := Key(148)
  const WWarn := Key(149)
  const WWarning := Key(150)
  const WBreak := Key(151)
  const WContinue := Key(152)
  const WRepeat := Key(153)
  const WUnless := Key(154)
  const WIf := Key(155)
  const WCompile := Key(156)
  const WUntil := Key(157)
  const WWhile := Key(158)
  const WDo := Key(159)
  const WFor := Key(160)
  const WSwitch := Key(161)
  const WGo := Key(162)
  const WLabel := Key(163)
  const WProcedure := Key(164)
  const WReturn := Key(165)
  const WYield := Key(166)
  const WAssert := Key(167)
  const WStart := Key(168)
  const WCopy := Key(169)
  const WFinish := Key(170)
  const WImport := Key(171)
  const WThat := Key(172)
  const WMessage := Key(173)
  const WFence := Key(174)
  const WStore := Key(175)
  const WArguments := Key(176)
  const WLanguage := Key(177)
  const WHeader := Key(178)
  const WLibrary := Key(179)
  const WObject := Key(180)
  const WA := Key(181)
  const WAn := Key(182)
  const WReturns := Key(183)
  const WInternal := Key(184)
  const WExternal := Key(185)
  const WLinkage := Key(186)
  const WStatic := Key(187)
  const WStorage := Key(188)
  const WDeprecated := Key(189)
  const WMaybe := Key(190)
  const WUnused := Key(191)
  const WThread := Key(192)
  const WLocal := Key(193)
  const WConstexpr := Key(194)
  const WEnd := Key(195)
  const WField := Key(196)
  const WFlexible := Key(197)
  const WDefined := Key(198)
  const WElif := Key(199)
  const WElse := Key(200)
  const WEach := Key(201)
  const WDown := Key(202)
  const WTakes := Key(203)
  const WInline := Key(204)

  function TagWord(kind: TagKind): Word {
    match kind
    case StructureTag => WStructure
    case UnionTag => WUnion
    case EnumerationTag => WEnumeration
  }

  type Natural = n: int | 0 <= n <= LONG_MAX

  /** `Garbled` is text that the grammar has no token for. */
  datatype Token =
    | Ident(word: Word)
    | Num(value: Natural)
    | Decimal(number: real)
    | Str(text: string)
    | Dot | Colon | OpenParen | CloseParen | Comment | Garbled | Eof

  type Tokens = seq<Token>

  predicate WordAt(ts: Tokens, k: nat, w: Word) {
    k < |ts| && ts[k] == Ident(w)
  }

  predicate NumAt(ts: Tokens, k: nat) {
    k < |ts| && ts[k].Num?
  }

  predicate NameAt(ts: Tokens, k: nat) {
    k < |ts| && ts[k].Ident?
  }

  predicate StrAt(ts: Tokens, k: nat) {
    k < |ts| && ts[k].Str?
  }

  function Idents(words: seq<Word>): (ts: Tokens)
    ensures |ts| == |words| && forall k :: 0 <= k < |ts| ==> ts[k] == Ident(words[k])
  {
    seq(|words|, k requires 0 <= k < |words| => Ident(words[k]))
  }

  /** Words in front of other tokens. */
  function Front(words: seq<Word>, rest: Tokens): (ts: Tokens)
    ensures |ts| == |words| + |rest| && ts[|words|..] == rest
    ensures forall k :: 0 <= k < |words| ==> ts[k] == Ident(words[k])
  {
    Idents(words) + rest
  }
}
