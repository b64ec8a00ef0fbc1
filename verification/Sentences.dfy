/** The grammar of sentences, as functions from the tokens that are left to a tree and the tokens
    left after it.  The blocks of a sentence hold further sentences; every function that succeeds
    leaves fewer tokens, which is why the loops over sentences, clauses and fields end. */
module Sentences {
  import opened Options
  import opened Primitives
  import opened Types
  import opened Syntax
  import opened Grammar

  // ----- trees -----

  datatype Sentence =
    | Remark
    | Say(items: seq<Expr>)
    | Set(name: Name, value: Expr)
    | StoreThrough(pointer: Expr, value: Expr)
    | StoreElement(index: Expr, base: Expr, value: Expr)
    | StoreMember(member: Name, base: Expr, value: Expr)
    | Declare(name: Name, traits: Traits, threadLocal: bool, constexpr: bool, type_: Spec, start: Start)
    | Record(kind: TagKind, name: Name, fields: seq<Field>)
    | Enumerate(name: Name, constants: seq<Constant>)
    | Define(name: Name, type_: Spec)
    | AddTo(value: Expr, name: Name)
    | SubtractFrom(value: Expr, name: Name)
    | Read(name: Name, asDecimal: bool)
    | Append(value: Expr, name: Name)
    | ReplaceItem(index: Expr, name: Name, value: Expr)
    | RemoveItem(index: Expr, name: Name)
    | Warn(message: string)
    | Break
    | Continue
    | Repeat(count: Expr, body: seq<Sentence>)
    | If(condition: Expr, yes: seq<Sentence>, no: seq<Sentence>)
    | CompileIf(macro: Name, yes: seq<Sentence>, branches: seq<Branch>, no: seq<Sentence>)
    | While(condition: Expr, body: seq<Sentence>)
    | DoWhile(body: seq<Sentence>, condition: Expr)
    | ForEach(name: Name, list: Expr, body: seq<Sentence>)
    | For(name: Name, from: Expr, to: Expr, descending: bool, body: seq<Sentence>)
    | Switch(subject: Expr, clauses: seq<Clause>)
    | GoTo(name: Name)
    | Label(name: Name)
    | CallName(name: Name, items: seq<Expr>)
    | CallThrough(callee: Expr, items: seq<Expr>)
    | Procedure(name: Name, header: Header, returns_: Option<Spec>, marks: Marks, body: seq<Sentence>)
    | Return(result: Option<Expr>)
    | StaticAssert(condition: Expr, text: Option<string>)
    | RuntimeAssert(condition: Expr)
    | AtomicFence
    | AtomicStore(value: Expr, name: Name)
    | StartVariadic(last: Name)
    | FinishVariadic
    | CopyVariadic(name: Name)
    | FinishCopy(name: Name)
    | ImportFile(library: bool, file: string)
    | ImportObject(constant: bool, name: Name, type_: Spec, file: string)
    | ImportFunction(name: Name, params: seq<Spec>, variadic: bool, type_: Spec, file: string)

  datatype Traits = Traits(
    alignment: Option<nat>, internal: bool, external: bool, static_: bool, deprecated: bool, message: string, unused: bool)

  const NO_TRAITS := Traits(None, false, false, false, false, "", false)

  datatype Start = Unset | Given(value: Expr) | Block(block: Aggregate)

  datatype Field = Field(name: Option<Name>, type_: Spec, width: Option<nat>, flexible: bool)

  datatype Constant = Constant(name: Name, value: Option<int>)

  datatype Branch = Branch(macro: Name, body: seq<Sentence>)

  /** The value of a When clause; an Otherwise clause has none. */
  datatype Clause = Clause(value: Option<Expr>, body: seq<Sentence>)

  datatype Param = Param(name: Name, type_: Option<Spec>)

  /** The parameters so far, and of which sorts they were. */
  datatype Header = Header(params: seq<Param>, typed: bool, untyped: bool, variadic: bool)

  datatype Marks = Marks(inline: bool, noReturn: bool, deprecated: bool, message: string, unused: bool)

  const NO_MARKS := Marks(false, false, false, "", false)

  // ----- verbs -----

  /** Sentences without blocks, and those with. */
  datatype Verb =
    | Blockless(it: SimpleVerb)
    | RepeatVerb | IfVerb(negated: bool) | CompileVerb | WhileVerb(negated: bool) | DoVerb | ForEachVerb | ForVerb
    | SwitchVerb | ProcedureVerb

  datatype SimpleVerb =
    | SayVerb | SetVerb | DeclareVerb | RecordVerb(kind: TagKind) | EnumerationVerb | DefineVerb
    | ChangeVerb(change: Change) | ReadVerb(asDecimal: bool) | ReplaceVerb | RemoveVerb | WarnVerb | BreakVerb
    | ContinueVerb | GoVerb | LabelVerb | CallVerb | ReturnVerb | StaticAssertVerb | AssertVerb | FenceVerb
    | StartVerb | CopyVerb | FinishCopyVerb | FinishVerb | ImportVerb

  datatype Change = Adding | Subtracting | Increasing | Decreasing | Appending | Storing

  /** The verbs that are one word, whatever it is followed by. */
  function PlainVerb(w: Word): Option<Verb> {
    match ChangingVerb(w)
    case Some(verb) => Some(Blockless(verb))
    case None =>
      match ActingVerb(w)
      case Some(verb) => Some(Blockless(verb))
      case None => BlockVerb(w)
  }

  function ChangingVerb(w: Word): Option<SimpleVerb> {
    if w == WSet || w == WLet || w == WMake || w == WAssign || w == WPut then Some(SetVerb)
    else if w == WDeclare || w == WCreate then Some(DeclareVerb)
    else if w == WAdd || w == WSum then Some(ChangeVerb(Adding))
    else if w == WSubtract || w == WDeduct || w == WTake then Some(ChangeVerb(Subtracting))
    else if w == WIncrease || w == WRaise || w == WGrow then Some(ChangeVerb(Increasing))
    else if w == WDecrease || w == WReduce || w == WLower then Some(ChangeVerb(Decreasing))
    else if w == WAppend || w == WPush then Some(ChangeVerb(Appending))
    else if w == WReplace then Some(ReplaceVerb)
    else if w == WRemove then Some(RemoveVerb)
    else None
  }

  function ActingVerb(w: Word): Option<SimpleVerb> {
    if w == WSay || w == WPrint || w == WShow || w == WDisplay || w == WWrite || w == WOutput then Some(SayVerb)
    else if w == WReadfloat then Some(ReadVerb(true))
    else if w == WRead then Some(ReadVerb(false))
    else if w == WWarn || w == WWarning then Some(WarnVerb)
    else if w == WBreak then Some(BreakVerb)
    else if w == WContinue then Some(ContinueVerb)
    else if w == WGo then Some(GoVerb)
    else if w == WLabel then Some(LabelVerb)
    else if w == WCall then Some(CallVerb)
    else if w == WReturn || w == WYield then Some(ReturnVerb)
    else None
  }

  function BlockVerb(w: Word): Option<Verb> {
    if w == WRepeat then Some(RepeatVerb)
    else if w == WUnless then Some(IfVerb(true))
    else if w == WIf then Some(IfVerb(false))
    else if w == WUntil then Some(WhileVerb(true))
    else if w == WWhile then Some(WhileVerb(false))
    else if w == WDo then Some(DoVerb)
    else if w == WSwitch then Some(SwitchVerb)
    else if w == WProcedure then Some(ProcedureVerb)
    else None
  }

  /** The verbs of the top level alone. */
  function TopVerb(ts: Tokens): (r: Option<Sized<Verb>>)
    ensures r.Some? ==> 0 < r.value.width <= |ts|
  {
    if WordAt(ts, 0, WStructure) then Some(Sized(Blockless(RecordVerb(StructureTag)), 1))
    else if WordAt(ts, 0, WUnion) then Some(Sized(Blockless(RecordVerb(UnionTag)), 1))
    else if WordAt(ts, 0, WEnumeration) then Some(Sized(Blockless(EnumerationVerb), 1))
    else if WordAt(ts, 0, WDefine) then Some(Sized(Blockless(DefineVerb), 1))
    else if TwoAt(ts, 0, WAtomic, WFence) then Some(Sized(Blockless(FenceVerb), 2))
    else if TwoAt(ts, 0, WAtomic, WStore) then Some(Sized(Blockless(ChangeVerb(Storing)), 2))
    else if TwoAt(ts, 0, WImport, WLanguage) then Some(Sized(Blockless(ImportVerb), 2))
    else if TwoAt(ts, 0, WImport, WThe) && WordAt(ts, 2, WLanguage) then Some(Sized(Blockless(ImportVerb), 3))
    else None
  }

  /** The verbs that further words complete. */
  function LongVerb(ts: Tokens): (r: Option<Sized<Verb>>)
    ensures r.Some? ==> 0 < r.value.width <= |ts|
  {
    if TwoAt(ts, 0, WCompile, WIf) then Some(Sized(CompileVerb, 2))
    else if TwoAt(ts, 0, WFor, WEach) then Some(Sized(ForEachVerb, 2))
    else if WordAt(ts, 0, WFor) then Some(Sized(ForVerb, 1))
    else if TwoAt(ts, 0, WAssert, WThat) then Some(Sized(Blockless(StaticAssertVerb), 2))
    else if WordAt(ts, 0, WAssert) then Some(Sized(Blockless(AssertVerb), 1))
    else if !TwoAt(ts, 1, WVariadic, WArguments) then None
    else if WordAt(ts, 0, WStart) then Some(Sized(Blockless(StartVerb), 3))
    else if WordAt(ts, 0, WCopy) then Some(Sized(Blockless(CopyVerb), 3))
    else if TwoAt(ts, 0, WFinish, WVariadic) && WordAt(ts, 3, WCopy) then Some(Sized(Blockless(FinishCopyVerb), 4))
    else if WordAt(ts, 0, WFinish) then Some(Sized(Blockless(FinishVerb), 3))
    else None
  }

  function VerbAt(top: bool, ts: Tokens): (r: Option<Sized<Verb>>)
    ensures r.Some? ==> 0 < r.value.width <= |ts|
  {
    if !NameAt(ts, 0) then None
    else if top && TopVerb(ts).Some? then TopVerb(ts)
    else
      match PlainVerb(ts[0].word)
      case Some(verb) => Some(Sized(verb, 1))
      case None => LongVerb(ts)
  }

  // ----- punctuation -----

  function ExpectToken(t: Token, ts: Tokens): (r: Option<Tokens>)
    ensures r == if ts != [] && ts[0] == t then Some(ts[1..]) else None
  {
    if ts != [] && ts[0] == t then Some(ts[1..]) else None
  }

  function ExpectText(ts: Tokens): (r: Option<Got<string>>)
    ensures r.Some? ==> |r.value.rest| < |ts|
  {
    if StrAt(ts, 0) then Some(Got(ts[0].text, ts[1..])) else None
  }

  /** A sentence and its dot. */
  function Ended(s: Sentence, ts: Tokens): (r: Option<Got<Sentence>>)
    ensures r.Some? ==> |r.value.rest| < |ts|
  {
    var rest :- ExpectToken(Dot, ts);
    Some(Got(s, rest))
  }

  /** A name that ends the sentence. */
  function EndingName(ts: Tokens): (r: Option<Got<Name>>)
    ensures r.Some? ==> |r.value.rest| < |ts|
  {
    var name :- ExpectName(ts);
    var rest :- ExpectToken(Dot, name.rest);
    Some(Got(name.value, rest))
  }

  /** An expression that ends the sentence. */
  function EndingExpr(ts: Tokens): (r: Option<Got<Expr>>)
    ensures r.Some? ==> |r.value.rest| < |ts|
  {
    var e :- ParseExpr(ts);
    var rest :- ExpectToken(Dot, e.rest);
    Some(Got(e.value, rest))
  }

  function EndingText(ts: Tokens): (r: Option<Got<string>>)
    ensures r.Some? ==> |r.value.rest| < |ts|
  {
    var text :- ExpectText(ts);
    var rest :- ExpectToken(Dot, text.rest);
    Some(Got(text.value, rest))
  }

  function NameUpTo(w: Word, ts: Tokens): (r: Option<Got<Name>>)
    ensures r.Some? ==> |r.value.rest| < |ts|
  {
    var name :- ExpectName(ts);
    var rest :- ExpectWord(w, name.rest);
    Some(Got(name.value, rest))
  }

  // ----- sentences without blocks -----

  function ParseSay(ts: Tokens): (r: Option<Got<Sentence>>)
    ensures r.Some? ==> |r.value.rest| < |ts|
  {
    var items :- ParseItems(ts);
    Ended(Say(items.value), items.rest)
  }

  function ParseSet(ts: Tokens): (r: Option<Got<Sentence>>)
    ensures r.Some? ==> |r.value.rest| < |ts|
  {
    if TwoAt(ts, 0, WValue, WAt) then
      var pointer :- ParseUpTo(WTo, ts[2..]);
      var value :- EndingExpr(pointer.rest);
      Some(Got(StoreThrough(pointer.value, value.value), value.rest))
    else if TwoAt(ts, 0, WElement, WAt) then
      var index :- ParseUpTo(WIn, ts[2..]);
      var base :- ParseUpTo(WTo, index.rest);
      var value :- EndingExpr(base.rest);
      Some(Got(StoreElement(index.value, base.value, value.value), value.rest))
    else if WordAt(ts, 0, WMember) then
      var member :- NameUpTo(WOf, ts[1..]);
      var base :- ParseUpTo(WTo, member.rest);
      var value :- EndingExpr(base.rest);
      Some(Got(StoreMember(member.value, base.value, value.value), value.rest))
    else
      var name :- NameUpTo(WTo, ts);
      var value :- EndingExpr(name.rest);
      Some(Got(Set(name.value, value.value), value.rest))
  }

  /** An unknown phrase after "with" ends the list and is left for the caller. */
  function ParseTraits(t: Traits, ts: Tokens): (r: Option<Got<Traits>>)
    ensures r.Some? ==> |r.value.rest| <= |ts|
    decreases |ts|
  {
    if !WordAt(ts, 0, WWith) then Some(Got(t, ts))
    else if WordAt(ts, 1, WAlignment) then
      if NumAt(ts, 2) && ts[2].value != 0 then ParseTraits(t.(alignment := Some(ts[2].value)), ts[3..]) else None
    else if TwoAt(ts, 1, WInternal, WLinkage) then ParseTraits(t.(internal := true), ts[3..])
    else if TwoAt(ts, 1, WExternal, WLinkage) then ParseTraits(t.(external := true), ts[3..])
    else if TwoAt(ts, 1, WStatic, WStorage) then ParseTraits(t.(static_ := true), ts[3..])
    else if WordAt(ts, 1, WDeprecated) then
      if StrAt(ts, 2) then ParseTraits(t.(deprecated := true, message := ts[2].text), ts[3..])
      else ParseTraits(t.(deprecated := true), ts[2..])
    else if TwoAt(ts, 1, WMaybe, WUnused) then ParseTraits(t.(unused := true), ts[3..])
    else Some(Got(t, ts))
  }

  function ParseStart(ts: Tokens): (r: Option<Got<Start>>)
    ensures r.Some? ==> |r.value.rest| <= |ts|
  {
    if !WordAt(ts, 0, WWith) then Some(Got(Unset, ts))
    else if WordAt(ts, 1, WValue) then
      var e :- ParseExpr(ts[2..]);
      Some(Got(Given(e.value), e.rest))
    else
      var block :- ParseAggregate(ts[1..]);
      Some(Got(Block(block.value), block.rest))
  }

  /** What is left after words that may stand here. */
  function Past(skip: bool, count: nat, ts: Tokens): (r: Tokens)
    requires skip ==> count <= |ts|
    ensures |r| <= |ts|
  {
    if skip then ts[count..] else ts
  }

  function ParseDeclare(ts: Tokens): (r: Option<Got<Sentence>>)
    ensures r.Some? ==> |r.value.rest| < |ts|
  {
    var name :- ExpectName(ts);
    var traits :- ParseTraits(NO_TRAITS, name.rest);
    var as_ :- ExpectWord(WAs, traits.rest);
    var thread := TwoAt(as_, 0, WThread, WLocal);
    var after := Past(thread, 2, as_);
    var constexpr := WordAt(after, 0, WConstexpr);
    var type_ :- ParseSpec(Past(constexpr, 1, after));
    var start :- ParseStart(type_.rest);
    Ended(Declare(name.value, traits.value, thread, constexpr, type_.value, start.value), start.rest)
  }

  function ParseRecord(kind: TagKind, ts: Tokens): (r: Option<Got<Sentence>>)
    ensures r.Some? ==> |r.value.rest| < |ts|
  {
    var name :- ExpectName(ts);
    var colon :- ExpectToken(Colon, name.rest);
    var fields :- ParseFields(TagWord(kind), [], colon);
    Ended(Record(kind, name.value, fields.value), fields.rest)
  }

  function ParseFields(what: Word, sofar: seq<Field>, ts: Tokens): (r: Option<Got<seq<Field>>>)
    ensures r.Some? ==> |r.value.rest| < |ts|
    decreases |ts|
  {
    if TwoAt(ts, 0, WEnd, what) then Some(Got(sofar, ts[2..]))
    else
      var field :- ParseField(ts);
      ParseFields(what, sofar + [field.value], field.rest)
  }

  function ParseField(ts: Tokens): (r: Option<Got<Field>>)
    ensures r.Some? ==> |r.value.rest| < |ts|
  {
    if TwoAt(ts, 0, WBit, WField) then ParseBitField(ts[2..])
    else if TwoAt(ts, 0, WFlexible, WField) then ParseNamedField(true, ts[2..])
    else
      var field :- ExpectWord(WField, ts);
      ParseNamedField(false, field)
  }

  function ParseNamedField(flexible: bool, ts: Tokens): (r: Option<Got<Field>>)
    ensures r.Some? ==> |r.value.rest| < |ts|
  {
    var name :- NameUpTo(WAs, ts);
    var type_ :- ParseSpec(name.rest);
    var rest :- ExpectToken(Dot, type_.rest);
    Some(Got(Field(Some(name.value), type_.value, None, flexible), rest))
  }

  /** Bit fields need no name. */
  function ParseBitField(ts: Tokens): (r: Option<Got<Field>>)
    ensures r.Some? ==> |r.value.rest| < |ts|
  {
    var name :- ParseFieldName(ts);
    var as_ :- ExpectWord(WAs, name.rest);
    var type_ :- ParseSpec(as_);
    var with :- ExpectWord(WWith, type_.rest);
    var width :- ExpectWord(WWidth, with);
    if !NumAt(width, 0) then None
    else
      var rest :- ExpectToken(Dot, width[1..]);
      Some(Got(Field(name.value, type_.value, Some(width[0].value), false), rest))
  }

  function ParseFieldName(ts: Tokens): (r: Option<Got<Option<Name>>>)
    ensures r.Some? ==> |r.value.rest| <= |ts|
  {
    if WordAt(ts, 0, WAs) then Some(Got(None, ts))
    else
      var name :- ExpectName(ts);
      Some(Got(Some(name.value), name.rest))
  }

  function ParseEnumeration(ts: Tokens): (r: Option<Got<Sentence>>)
    ensures r.Some? ==> |r.value.rest| < |ts|
  {
    var name :- ExpectName(ts);
    var colon :- ExpectToken(Colon, name.rest);
    var constants :- ParseConstants([], colon);
    Ended(Enumerate(name.value, constants.value), constants.rest)
  }

  function ParseConstants(sofar: seq<Constant>, ts: Tokens): (r: Option<Got<seq<Constant>>>)
    ensures r.Some? ==> |r.value.rest| < |ts|
    decreases |ts|
  {
    if TwoAt(ts, 0, WEnd, WEnumeration) then Some(Got(sofar, ts[2..]))
    else
      var constant :- ParseConstant(ts);
      ParseConstants(sofar + [constant.value], constant.rest)
  }

  function ParseConstant(ts: Tokens): (r: Option<Got<Constant>>)
    ensures r.Some? ==> |r.value.rest| < |ts|
  {
    var enumerator :- ExpectWord(WEnumerator, ts);
    var name :- ExpectName(enumerator);
    var value :- ParseConstantValue(name.rest);
    var rest :- ExpectToken(Dot, value.rest);
    Some(Got(Constant(name.value, value.value), rest))
  }

  function ParseConstantValue(ts: Tokens): (r: Option<Got<Option<int>>>)
    ensures r.Some? ==> |r.value.rest| <= |ts|
  {
    if !WordAt(ts, 0, WAs) then Some(Got(None, ts))
    else
      var negative := WordAt(ts, 1, WMinus);
      var number := Past(negative, 1, ts[1..]);
      if !NumAt(number, 0) then None
      else
        var value: int := number[0].value;
        Some(Got(Some(if negative then -value else value), number[1..]))
  }

  function ParseDefine(ts: Tokens): (r: Option<Got<Sentence>>)
    ensures r.Some? ==> |r.value.rest| < |ts|
  {
    var name :- NameUpTo(WAs, ts);
    var type_ :- ParseSpec(name.rest);
    Ended(Define(name.value, type_.value), type_.rest)
  }

  /** "Add 1 to x", "Increase x by 1" and their like. */
  function ParseChange(change: Change, ts: Tokens): (r: Option<Got<Sentence>>)
    ensures r.Some? ==> |r.value.rest| < |ts|
  {
    if change.Increasing? || change.Decreasing? then
      var name :- NameUpTo(WBy, ts);
      var value :- EndingExpr(name.rest);
      Some(Got(Changed(change, value.value, name.value), value.rest))
    else
      var value :- ParseUpTo(if change.Subtracting? then WFrom else WTo, ts);
      var name :- EndingName(value.rest);
      Some(Got(Changed(change, value.value, name.value), name.rest))
  }

  function Changed(change: Change, value: Expr, name: Name): Sentence {
    match change
    case Adding => AddTo(value, name)
    case Increasing => AddTo(value, name)
    case Subtracting => SubtractFrom(value, name)
    case Decreasing => SubtractFrom(value, name)
    case Appending => Append(value, name)
    case Storing => AtomicStore(value, name)
  }

  function ParseReplace(ts: Tokens): (r: Option<Got<Sentence>>)
    ensures r.Some? ==> |r.value.rest| < |ts|
  {
    var item :- ExpectWord(WItem, ts);
    var at :- ExpectWord(WAt, item);
    var index :- ParseUpTo(WIn, at);
    var name :- NameUpTo(WWith, index.rest);
    var value :- EndingExpr(name.rest);
    Some(Got(ReplaceItem(index.value, name.value, value.value), value.rest))
  }

  function ParseRemove(ts: Tokens): (r: Option<Got<Sentence>>)
    ensures r.Some? ==> |r.value.rest| < |ts|
  {
    var item :- ExpectWord(WItem, ts);
    var at :- ExpectWord(WAt, item);
    var index :- ParseUpTo(WFrom, at);
    var name :- EndingName(index.rest);
    Some(Got(RemoveItem(index.value, name.value), name.rest))
  }

  function ParseCallSentence(ts: Tokens): (r: Option<Got<Sentence>>)
    ensures r.Some? ==> |r.value.rest| < |ts|
  {
    if WordAt(ts, 0, WThrough) then
      var callee :- ParsePrimary(ts[1..]);
      var args :- ParseCallEnd(callee.rest);
      Ended(CallThrough(callee.value, args.value), args.rest)
    else
      var name :- ExpectName(ts);
      var args :- ParseCallEnd(name.rest);
      Ended(CallName(name.value, args.value), args.rest)
  }

  function ParseReturn(ts: Tokens): (r: Option<Got<Sentence>>)
    ensures r.Some? ==> |r.value.rest| < |ts|
  {
    if ts != [] && ts[0] == Dot then Some(Got(Return(None), ts[1..]))
    else
      var e :- EndingExpr(ts);
      Some(Got(Return(Some(e.value)), e.rest))
  }

  function ParseStaticAssert(ts: Tokens): (r: Option<Got<Sentence>>)
    ensures r.Some? ==> |r.value.rest| < |ts|
  {
    var condition :- ParseExpr(ts);
    if TwoAt(condition.rest, 0, WWith, WMessage) then
      var text :- EndingText(condition.rest[2..]);
      Some(Got(StaticAssert(condition.value, Some(text.value)), text.rest))
    else Ended(StaticAssert(condition.value, None), condition.rest)
  }

  // ----- imports -----

  function PastArticle(ts: Tokens): (r: Tokens)
    ensures |r| <= |ts|
  {
    var noun := Past(WordAt(ts, 0, WA) || WordAt(ts, 0, WAn) || WordAt(ts, 0, WThe), 1, ts);
    Past(WordAt(noun, 0, WType), 1, noun)
  }

  /** From the header of that name. */
  function ParseHeaderName(ts: Tokens): (r: Option<Got<string>>)
    ensures r.Some? ==> |r.value.rest| < |ts|
  {
    var from :- ExpectWord(WFrom, ts);
    var header :- ExpectWord(WHeader, Past(WordAt(from, 0, WThe), 1, from));
    EndingText(header)
  }

  function ParseImport(ts: Tokens): (r: Option<Got<Sentence>>)
    ensures r.Some? ==> |r.value.rest| < |ts|
  {
    if WordAt(ts, 0, WFunction) then ParseImportFunction(ts[1..])
    else if WordAt(ts, 0, WObject) then ParseImportObject(false, ts[1..])
    else if WordAt(ts, 0, WConstant) then ParseImportObject(true, ts[1..])
    else if WordAt(ts, 0, WHeader) || WordAt(ts, 0, WLibrary) then
      var file :- EndingText(ts[1..]);
      Some(Got(ImportFile(WordAt(ts, 0, WLibrary), file.value), file.rest))
    else None
  }

  function ParseImportObject(constant: bool, ts: Tokens): (r: Option<Got<Sentence>>)
    ensures r.Some? ==> |r.value.rest| < |ts|
  {
    var name :- NameUpTo(WAs, ts);
    var type_ :- ParseSpec(PastArticle(name.rest));
    var file :- ParseHeaderName(type_.rest);
    Some(Got(ImportObject(constant, name.value, type_.value, file.value), file.rest))
  }

  datatype Signature = Signature(params: seq<Spec>, variadic: bool)

  function ParseImportFunction(ts: Tokens): (r: Option<Got<Sentence>>)
    ensures r.Some? ==> |r.value.rest| < |ts|
  {
    var name :- NameUpTo(WTaking, ts);
    var signature :- ParseSignature(name.rest);
    if !WordAt(signature.rest, 0, WReturning) && !WordAt(signature.rest, 0, WReturns) then None
    else
      var type_ :- ParseSpec(PastArticle(signature.rest[1..]));
      var file :- ParseHeaderName(type_.rest);
      Some(Got(ImportFunction(name.value, signature.value.params, signature.value.variadic, type_.value, file.value), file.rest))
  }

  function ParseSignature(ts: Tokens): (r: Option<Got<Signature>>)
    ensures r.Some? ==> |r.value.rest| < |ts|
  {
    if WordAt(ts, 0, WNo) then
      var parameters :- ExpectWord(WParameters, ts[1..]);
      Some(Got(Signature([], false), parameters))
    else ParseImportParams([], ts)
  }

  function ParseImportParams(sofar: seq<Spec>, ts: Tokens): (r: Option<Got<Signature>>)
    ensures r.Some? ==> |r.value.rest| < |ts|
    decreases |ts|
  {
    var param :- ParseSpec(PastArticle(ts));
    var params := sofar + [param.value];
    if !WordAt(param.rest, 0, WAnd) then Some(Got(Signature(params, false), param.rest))
    else if WordAt(param.rest, 1, WVariadic) then
      var parameters :- ExpectWord(WParameters, param.rest[2..]);
      Some(Got(Signature(params, true), parameters))
    else ParseImportParams(params, param.rest[1..])
  }

  // ----- blocks -----

  /** Where a block ends. */
  datatype Stop =
    | EndOf(what: Word)
    | EndOfEither(what: Word, other: Word)
    | ElseOrEnd
    | ClauseEnd
    | BranchEnd
    | CompileEnd

  predicate StopsAt(stop: Stop, ts: Tokens) {
    match stop
    case EndOf(what) => TwoAt(ts, 0, WEnd, what)
    case EndOfEither(what, other) => TwoAt(ts, 0, WEnd, what) || TwoAt(ts, 0, WEnd, other)
    case ElseOrEnd => WordAt(ts, 0, WElse) || TwoAt(ts, 0, WEnd, WIf) || TwoAt(ts, 0, WEnd, WUnless)
    case ClauseEnd => WordAt(ts, 0, WWhen) || WordAt(ts, 0, WOtherwise) || TwoAt(ts, 0, WEnd, WSwitch)
    case BranchEnd => WordAt(ts, 0, WOtherwise) || WordAt(ts, 0, WElif) || (TwoAt(ts, 0, WEnd, WCompile) && WordAt(ts, 2, WIf))
    case CompileEnd => TwoAt(ts, 0, WEnd, WCompile) && WordAt(ts, 2, WIf)
  }

  /** The sentences in front of the words that end the block. */
  function ParseSentences(stop: Stop, sofar: seq<Sentence>, ts: Tokens): (r: Option<Got<seq<Sentence>>>)
    ensures r.Some? ==> |r.value.rest| <= |ts| && StopsAt(stop, r.value.rest)
    decreases |ts|, 3
  {
    if StopsAt(stop, ts) then Some(Got(sofar, ts))
    else
      var s :- ParseSentence(false, ts);
      ParseSentences(stop, sofar + [s.value], s.rest)
  }

  /** A block after its colon that "End" and one of two words close. */
  function ParseBlock(what: Word, other: Word, ts: Tokens): (r: Option<Got<seq<Sentence>>>)
    ensures r.Some? ==> |r.value.rest| < |ts|
    decreases |ts|, 4
  {
    var colon :- ExpectToken(Colon, ts);
    var body :- ParseSentences(EndOfEither(what, other), [], colon);
    var rest :- ExpectToken(Dot, body.rest[2..]);
    Some(Got(body.value, rest))
  }

  function ParseSentence(top: bool, ts: Tokens): (r: Option<Got<Sentence>>)
    ensures r.Some? ==> |r.value.rest| < |ts|
    decreases |ts|, 2
  {
    if ts != [] && ts[0] == Comment then Some(Got(Remark, ts[1..]))
    else
      var verb :- VerbAt(top, ts);
      ParseVerb(verb.it, ts[verb.width..])
  }

  function ParseProgram(sofar: seq<Sentence>, ts: Tokens): Option<seq<Sentence>>
    decreases |ts|
  {
    if ts == [] then Some(sofar)
    else
      var s :- ParseSentence(true, ts);
      ParseProgram(sofar + [s.value], s.rest)
  }

  /** A sentence after its verb. */
  function ParseVerb(verb: Verb, ts: Tokens): (r: Option<Got<Sentence>>)
    ensures r.Some? ==> |r.value.rest| < |ts|
    decreases |ts|, 6
  {
    match verb
    case RepeatVerb => ParseRepeat(ts)
    case IfVerb(negated) => ParseIf(negated, ts)
    case CompileVerb => ParseCompileIf(ts)
    case WhileVerb(negated) => ParseWhile(negated, ts)
    case DoVerb => ParseDoWhile(ts)
    case ForEachVerb => ParseForEach(ts)
    case ForVerb => ParseFor(ts)
    case SwitchVerb => ParseSwitch(ts)
    case ProcedureVerb => ParseProcedure(ts)
    case Blockless(simple) => ParseSimple(simple, ts)
  }

  function ParseSimple(verb: SimpleVerb, ts: Tokens): (r: Option<Got<Sentence>>)
    ensures r.Some? ==> |r.value.rest| < |ts|
  {
    match verb
    case SayVerb => ParseSay(ts)
    case SetVerb => ParseSet(ts)
    case DeclareVerb => ParseDeclare(ts)
    case RecordVerb(kind) => ParseRecord(kind, ts)
    case EnumerationVerb => ParseEnumeration(ts)
    case DefineVerb => ParseDefine(ts)
    case ChangeVerb(change) => ParseChange(change, ts)
    case ReadVerb(asDecimal) => (var name :- EndingName(ts); Some(Got(Read(name.value, asDecimal), name.rest)))
    case ReplaceVerb => ParseReplace(ts)
    case RemoveVerb => ParseRemove(ts)
    case WarnVerb => (var text :- EndingText(ts); Some(Got(Warn(text.value), text.rest)))
    case BreakVerb => Ended(Break, ts)
    case ContinueVerb => Ended(Continue, ts)
    case GoVerb =>
      (var to :- ExpectWord(WTo, ts);
       var name :- EndingName(to);
       Some(Got(GoTo(name.value), name.rest)))
    case LabelVerb => (var name :- EndingName(ts); Some(Got(Label(name.value), name.rest)))
    case CallVerb => ParseCallSentence(ts)
    case ReturnVerb => ParseReturn(ts)
    case StaticAssertVerb => ParseStaticAssert(ts)
    case AssertVerb => (var e :- EndingExpr(ts); Some(Got(RuntimeAssert(e.value), e.rest)))
    case FenceVerb => Ended(AtomicFence, ts)
    case StartVerb =>
      (var after :- ExpectWord(WAfter, ts);
       var name :- EndingName(after);
       Some(Got(StartVariadic(name.value), name.rest)))
    case CopyVerb =>
      (var to :- ExpectWord(WTo, ts);
       var name :- EndingName(to);
       Some(Got(CopyVariadic(name.value), name.rest)))
    case FinishCopyVerb => (var name :- EndingName(ts); Some(Got(FinishCopy(name.value), name.rest)))
    case FinishVerb => Ended(FinishVariadic, ts)
    case ImportVerb => ParseImport(ts)
  }

  function ParseRepeat(ts: Tokens): (r: Option<Got<Sentence>>)
    ensures r.Some? ==> |r.value.rest| < |ts|
    decreases |ts|, 5
  {
    var count :- ParseExpr(ts);
    var body :- ParseBlock(WRepeat, WRepeat, count.rest);
    Some(Got(Repeat(count.value, body.value), body.rest))
  }

  function Condition(negated: bool, e: Expr): Expr {
    if negated then Unary(Not, e) else e
  }

  function ParseIf(negated: bool, ts: Tokens): (r: Option<Got<Sentence>>)
    ensures r.Some? ==> |r.value.rest| < |ts|
    decreases |ts|, 5
  {
    var condition :- ParseUpTo(WThen, ts);
    var colon :- ExpectToken(Colon, condition.rest);
    var yes :- ParseSentences(ElseOrEnd, [], colon);
    if WordAt(yes.rest, 0, WElse) then
      var no :- ParseBlock(WIf, WUnless, yes.rest[1..]);
      Some(Got(If(Condition(negated, condition.value), yes.value, no.value), no.rest))
    else Ended(If(Condition(negated, condition.value), yes.value, []), yes.rest[2..])
  }

  function ParseWhile(negated: bool, ts: Tokens): (r: Option<Got<Sentence>>)
    ensures r.Some? ==> |r.value.rest| < |ts|
    decreases |ts|, 5
  {
    var condition :- ParseExpr(ts);
    var body :- ParseBlock(WWhile, WUntil, condition.rest);
    Some(Got(While(Condition(negated, condition.value), body.value), body.rest))
  }

  function ParseDoWhile(ts: Tokens): (r: Option<Got<Sentence>>)
    ensures r.Some? ==> |r.value.rest| < |ts|
    decreases |ts|, 5
  {
    var colon :- ExpectToken(Colon, ts);
    var body :- ParseSentences(EndOf(WDo), [], colon);
    var test :- ExpectWord(WWhile, body.rest[2..]);
    var condition :- EndingExpr(test);
    Some(Got(DoWhile(body.value, condition.value), condition.rest))
  }

  function ParseForEach(ts: Tokens): (r: Option<Got<Sentence>>)
    ensures r.Some? ==> |r.value.rest| < |ts|
    decreases |ts|, 5
  {
    var name :- NameUpTo(WIn, ts);
    var list :- ParseExpr(name.rest);
    var body :- ParseBlock(WFor, WFor, list.rest);
    Some(Got(ForEach(name.value, list.value, body.value), body.rest))
  }

  function ParseFor(ts: Tokens): (r: Option<Got<Sentence>>)
    ensures r.Some? ==> |r.value.rest| < |ts|
    decreases |ts|, 5
  {
    var name :- NameUpTo(WFrom, ts);
    var from :- ParseExpr(name.rest);
    var down := WordAt(from.rest, 0, WDown);
    var limit :- ExpectWord(WTo, Past(down, 1, from.rest));
    var to :- ParseExpr(limit);
    var body :- ParseBlock(WFor, WFor, to.rest);
    Some(Got(For(name.value, from.value, to.value, down, body.value), body.rest))
  }

  /** At least one clause. */
  function ParseSwitch(ts: Tokens): (r: Option<Got<Sentence>>)
    ensures r.Some? ==> |r.value.rest| < |ts|
    decreases |ts|, 5
  {
    var subject :- ParseExpr(ts);
    var colon :- ExpectToken(Colon, subject.rest);
    var clauses :- ParseClauses([], colon);
    if clauses.value == [] then None else Ended(Switch(subject.value, clauses.value), clauses.rest)
  }

  function ParseClauses(sofar: seq<Clause>, ts: Tokens): (r: Option<Got<seq<Clause>>>)
    ensures r.Some? ==> |r.value.rest| < |ts|
    decreases |ts|, 2
  {
    if TwoAt(ts, 0, WEnd, WSwitch) then Some(Got(sofar, ts[2..]))
    else
      var clause :- ParseClause(ts);
      ParseClauses(sofar + [clause.value], clause.rest)
  }

  function ParseClause(ts: Tokens): (r: Option<Got<Clause>>)
    ensures r.Some? ==> |r.value.rest| < |ts|
    decreases |ts|, 1
  {
    var value :- ParseClauseHead(ts);
    var body :- ParseSentences(ClauseEnd, [], value.rest);
    Some(Got(Clause(value.value, body.value), body.rest))
  }

  function ParseClauseHead(ts: Tokens): (r: Option<Got<Option<Expr>>>)
    ensures r.Some? ==> |r.value.rest| < |ts|
  {
    if WordAt(ts, 0, WOtherwise) then
      var rest :- ExpectToken(Colon, ts[1..]);
      Some(Got(None, rest))
    else
      var when :- ExpectWord(WWhen, ts);
      var e :- ParseExpr(when);
      var rest :- ExpectToken(Colon, e.rest);
      Some(Got(Some(e.value), rest))
  }

  /** The name of the macro that must be defined. */
  function ParseMacro(ts: Tokens): (r: Option<Got<Name>>)
    ensures r.Some? ==> |r.value.rest| < |ts|
  {
    var name :- NameUpTo(WIs, ts);
    var defined :- ExpectWord(WDefined, name.rest);
    var rest :- ExpectToken(Colon, defined);
    Some(Got(name.value, rest))
  }

  function ParseCompileIf(ts: Tokens): (r: Option<Got<Sentence>>)
    ensures r.Some? ==> |r.value.rest| < |ts|
    decreases |ts|, 5
  {
    var macro :- ParseMacro(ts);
    var yes :- ParseSentences(BranchEnd, [], macro.rest);
    var branches :- ParseBranches([], yes.rest);
    var no :- ParseOtherwise(branches.rest);
    var end :- ExpectWord(WEnd, no.rest);
    var compile :- ExpectWord(WCompile, end);
    var if_ :- ExpectWord(WIf, compile);
    Ended(CompileIf(macro.value, yes.value, branches.value, no.value), if_)
  }

  function ParseBranches(sofar: seq<Branch>, ts: Tokens): (r: Option<Got<seq<Branch>>>)
    ensures r.Some? ==> |r.value.rest| <= |ts|
    decreases |ts|, 5
  {
    if !WordAt(ts, 0, WElif) then Some(Got(sofar, ts))
    else
      var macro :- ParseMacro(ts[1..]);
      var body :- ParseSentences(BranchEnd, [], macro.rest);
      ParseBranches(sofar + [Branch(macro.value, body.value)], body.rest)
  }

  function ParseOtherwise(ts: Tokens): (r: Option<Got<seq<Sentence>>>)
    ensures r.Some? ==> |r.value.rest| <= |ts|
    decreases |ts|, 4
  {
    if !WordAt(ts, 0, WOtherwise) then Some(Got([], ts))
    else
      var colon :- ExpectToken(Colon, ts[1..]);
      ParseSentences(CompileEnd, [], colon)
  }

  // ----- procedures -----

  function ParseProcedure(ts: Tokens): (r: Option<Got<Sentence>>)
    ensures r.Some? ==> |r.value.rest| < |ts|
    decreases |ts|, 5
  {
    var name :- ExpectName(ts);
    var header :- ParseHeader(name.rest);
    var returns_ :- ParseReturns(header.rest);
    if header.value.typed && returns_.value.None? then None
    else if header.value.untyped && returns_.value.Some? then None
    else
      var marks :- ParseMarks(NO_MARKS, returns_.rest);
      var body :- ParseBlock(WProcedure, WProcedure, marks.rest);
      Some(Got(Procedure(name.value, header.value, returns_.value, marks.value, body.value), body.rest))
  }

  const NO_HEADER := Header([], false, false, false)

  function ParseHeader(ts: Tokens): (r: Option<Got<Header>>)
    ensures r.Some? ==> |r.value.rest| <= |ts|
  {
    if WordAt(ts, 0, WTakes) then ParseProcedureParams(NO_HEADER, ts[1..]) else Some(Got(NO_HEADER, ts))
  }

  predicate HeaderEnds(ts: Tokens) {
    (ts != [] && ts[0] == Colon) || WordAt(ts, 0, WReturns)
  }

  /** Either every parameter has a type or none has. */
  function ParseProcedureParams(h: Header, ts: Tokens): (r: Option<Got<Header>>)
    ensures r.Some? ==> |r.value.rest| <= |ts|
    decreases |ts|
  {
    if HeaderEnds(ts) then Some(Got(h, ts))
    else if VariadicAt(ts) then Some(Got(h.(variadic := true), ts[3..]))
    else
      var param :- ParseParam(ts);
      var typed := h.typed || param.value.type_.Some?;
      var untyped := h.untyped || param.value.type_.None?;
      if typed && untyped then None
      else ParseProcedureParams(Header(h.params + [param.value], typed, untyped, false), param.rest)
  }

  function ParseParam(ts: Tokens): (r: Option<Got<Param>>)
    ensures r.Some? ==> |r.value.rest| < |ts|
  {
    var name :- ExpectName(ts);
    if WordAt(name.rest, 0, WAs) then
      var type_ :- ParseSpec(name.rest[1..]);
      Some(Got(Param(name.value, Some(type_.value)), type_.rest))
    else Some(Got(Param(name.value, None), name.rest))
  }

  function ParseReturns(ts: Tokens): (r: Option<Got<Option<Spec>>>)
    ensures r.Some? ==> |r.value.rest| <= |ts|
  {
    if WordAt(ts, 0, WReturns) then
      var type_ :- ParseSpec(ts[1..]);
      Some(Got(Some(type_.value), type_.rest))
    else Some(Got(None, ts))
  }

  function ParseMarks(m: Marks, ts: Tokens): (r: Option<Got<Marks>>)
    ensures r.Some? ==> |r.value.rest| <= |ts|
    decreases |ts|
  {
    if !WordAt(ts, 0, WWith) then Some(Got(m, ts))
    else if WordAt(ts, 1, WInline) then ParseMarks(m.(inline := true), ts[2..])
    else if TwoAt(ts, 1, WNo, WReturn) then ParseMarks(m.(noReturn := true), ts[3..])
    else if WordAt(ts, 1, WDeprecated) then
      if StrAt(ts, 2) then ParseMarks(m.(deprecated := true, message := ts[2].text), ts[3..])
      else ParseMarks(m.(deprecated := true), ts[2..])
    else if TwoAt(ts, 1, WMaybe, WUnused) then ParseMarks(m.(unused := true), ts[3..])
    else None
  }

  // ----- first tokens -----

  lemma ColonOff(rest: Tokens)
    ensures ExpectToken(Colon, [Colon] + rest) == Some(rest)
  {
    assert ([Colon] + rest)[1..] == rest;
  }

  lemma DotOff(rest: Tokens)
    ensures ExpectToken(Dot, [Dot] + rest) == Some(rest)
  {
    assert ([Dot] + rest)[1..] == rest;
  }

  lemma WordOff(w: Word, ts: Tokens)
    ensures ExpectWord(w, Front([w], ts)) == Some(ts)
  {
  }

  lemma NameOff(name: Name, ts: Tokens)
    ensures ExpectName(Front([name], ts)) == Some(Got(name, ts))
  {
  }

  lemma NameDot(name: Name, rest: Tokens)
    ensures EndingName(Front([name], [Dot] + rest)) == Some(Got(name, rest))
  {
    hide Front, Idents;
    NameOff(name, [Dot] + rest);
    DotOff(rest);
  }

  lemma NameBefore(name: Name, w: Word, ts: Tokens)
    ensures NameUpTo(w, Front([name], Front([w], ts))) == Some(Got(name, ts))
  {
    hide Front, Idents;
    NameOff(name, Front([w], ts));
    WordOff(w, ts);
  }

  /** The groups of verbs have different words. */
  lemma ChangingWords(w: Word)
    ensures ChangingVerb(w).Some? ==> w.Key? && (106 <= w.number <= 107 || 126 <= w.number <= 142 || 145 <= w.number <= 148)
  {
  }

  lemma ActingWords(w: Word)
    ensures ActingVerb(w).Some? ==>
              && w.Key?
              && (|| w.number == 41 || 120 <= w.number <= 125 || 143 <= w.number <= 144 || 149 <= w.number <= 152
                  || 162 <= w.number <= 163 || 165 <= w.number <= 166)
  {
  }
}
