/** What the printer writes for sentences, blocks and programs, as tokens in front of what follows. */
module SentencePrinter {
  import opened Options
  import opened Primitives
  import opened Types
  import opened Syntax
  import opened Printer
  import opened Sentences

  /** The words a verb is printed with; none for those of sentences the printer does not know. */
  function VerbWords(verb: Verb): seq<Word> {
    match verb
    case Blockless(simple) => SimpleWords(simple)
    case RepeatVerb => [WRepeat]
    case IfVerb(negated) => if negated then [] else [WIf]
    case CompileVerb => [WCompile, WIf]
    case WhileVerb(negated) => if negated then [] else [WWhile]
    case DoVerb => [WDo]
    case ForEachVerb => [WFor, WEach]
    case ForVerb => [WFor]
    case SwitchVerb => [WSwitch]
    case ProcedureVerb => [WProcedure]
  }

  function SimpleWords(verb: SimpleVerb): seq<Word> {
    match verb
    case SayVerb => [WSay]
    case SetVerb => [WSet]
    case DeclareVerb => [WDeclare]
    case RecordVerb(kind) => if kind.EnumerationTag? then [] else [TagWord(kind)]
    case EnumerationVerb => [WEnumeration]
    case ChangeVerb(change) =>
      if change.Adding? then [WAdd] else if change.Subtracting? then [WSubtract] else if change.Appending? then [WAppend] else []
    case ReadVerb(asDecimal) => [if asDecimal then WReadfloat else WRead]
    case ReplaceVerb => [WReplace]
    case RemoveVerb => [WRemove]
    case WarnVerb => [WWarning]
    case BreakVerb => [WBreak]
    case ContinueVerb => [WContinue]
    case GoVerb => [WGo]
    case LabelVerb => [WLabel]
    case CallVerb => [WCall]
    case ReturnVerb => [WReturn]
    case StartVerb => [WStart, WVariadic, WArguments]
    case CopyVerb => [WCopy, WVariadic, WArguments]
    case FinishCopyVerb => [WFinish, WVariadic, WArguments, WCopy]
    case FinishVerb => [WFinish, WVariadic, WArguments]
    case _ => []
  }

  /** The verb of a sentence that is printed. */
  function VerbOf(s: Sentence): Option<Verb> {
    match s
    case Say(_) => Some(Blockless(SayVerb))
    case Set(_, _) => Some(Blockless(SetVerb))
    case StoreThrough(_, _) => Some(Blockless(SetVerb))
    case StoreElement(_, _, _) => Some(Blockless(SetVerb))
    case StoreMember(_, _, _) => Some(Blockless(SetVerb))
    case Declare(_, _, _, _, _, _) => Some(Blockless(DeclareVerb))
    case Record(kind, _, _) => Some(Blockless(RecordVerb(kind)))
    case Enumerate(_, _) => Some(Blockless(EnumerationVerb))
    case AddTo(_, _) => Some(Blockless(ChangeVerb(Adding)))
    case SubtractFrom(_, _) => Some(Blockless(ChangeVerb(Subtracting)))
    case Append(_, _) => Some(Blockless(ChangeVerb(Appending)))
    case Read(_, asDecimal) => Some(Blockless(ReadVerb(asDecimal)))
    case ReplaceItem(_, _, _) => Some(Blockless(ReplaceVerb))
    case RemoveItem(_, _) => Some(Blockless(RemoveVerb))
    case Warn(_) => Some(Blockless(WarnVerb))
    case Break => Some(Blockless(BreakVerb))
    case Continue => Some(Blockless(ContinueVerb))
    case GoTo(_) => Some(Blockless(GoVerb))
    case Label(_) => Some(Blockless(LabelVerb))
    case CallName(_, _) => Some(Blockless(CallVerb))
    case Return(_) => Some(Blockless(ReturnVerb))
    case StartVariadic(_) => Some(Blockless(StartVerb))
    case FinishVariadic => Some(Blockless(FinishVerb))
    case CopyVariadic(_) => Some(Blockless(CopyVerb))
    case FinishCopy(_) => Some(Blockless(FinishCopyVerb))
    case Repeat(_, _) => Some(RepeatVerb)
    case If(_, _, _) => Some(IfVerb(false))
    case CompileIf(_, _, _, _) => Some(CompileVerb)
    case While(_, _) => Some(WhileVerb(false))
    case DoWhile(_, _) => Some(DoVerb)
    case ForEach(_, _, _) => Some(ForEachVerb)
    case For(_, _, _, _, _) => Some(ForVerb)
    case Switch(_, _) => Some(SwitchVerb)
    case Procedure(_, _, _, _, _) => Some(ProcedureVerb)
    case _ => None
  }

  function SentenceTo(s: Sentence, rest: Tokens): Tokens
    decreases s, 2
  {
    if s.Remark? then [Comment] + rest
    else
      match VerbOf(s)
      case Some(verb) => Front(VerbWords(verb), if IsBlock(verb) then BlockPartsTo(s, rest) else PartsTo(s, [Dot] + rest))
      case None => [Garbled] + rest
  }

  predicate IsBlock(verb: Verb) { !verb.Blockless? }

  // ----- sentences without blocks -----

  /** What stands behind the verb, in front of the dot. */
  function PartsTo(s: Sentence, dot: Tokens): Tokens {
    match s
    case Say(items) => ItemsTo(items, dot)
    case Set(name, value) => Front([name], Front([WTo], PrintTo(value, dot)))
    case StoreThrough(pointer, value) => Front([WValue, WAt], PrintTo(pointer, Front([WTo], PrintTo(value, dot))))
    case StoreElement(index, base, value) =>
      Front([WElement, WAt], PrintTo(index, Front([WIn], PrintTo(base, Front([WTo], PrintTo(value, dot))))))
    case StoreMember(member, base, value) =>
      Front([WMember], Front([member], Front([WOf], PrintTo(base, Front([WTo], PrintTo(value, dot))))))
    case Declare(name, traits, _, _, type_, start) =>
      Front([name], TraitsTo(traits, Front([WAs], SpellTo(type_, StartTo(start, dot)))))
    case Record(kind, name, fields) => Front([name], [Colon] + FieldsTo(fields, Front([WEnd, TagWord(kind)], dot)))
    case Enumerate(name, constants) => Front([name], [Colon] + ConstantsTo(constants, Front([WEnd, WEnumeration], dot)))
    case AddTo(value, name) => PrintTo(value, Front([WTo], Front([name], dot)))
    case SubtractFrom(value, name) => PrintTo(value, Front([WFrom], Front([name], dot)))
    case Append(value, name) => PrintTo(value, Front([WTo], Front([name], dot)))
    case Read(name, _) => Front([name], dot)
    case ReplaceItem(index, name, value) =>
      Front([WItem, WAt], PrintTo(index, Front([WIn], Front([name], Front([WWith], PrintTo(value, dot))))))
    case RemoveItem(index, name) => Front([WItem, WAt], PrintTo(index, Front([WFrom], Front([name], dot))))
    case Warn(message) => [StringToken(message)] + dot
    case GoTo(name) => Front([WTo], Front([name], dot))
    case Label(name) => Front([name], dot)
    case CallName(name, items) =>
      Front([name], if items == [] then Front([WDone], dot) else Front([WWith], ArgsTo(items, Front([WDone], dot))))
    case Return(result) => if result.Some? then PrintTo(result.value, dot) else dot
    case StartVariadic(last) => Front([WAfter], Front([last], dot))
    case CopyVariadic(name) => Front([WTo], Front([name], dot))
    case FinishCopy(name) => Front([name], dot)
    case _ => dot
  }

  /** Of the storage phrases only these are printed. */
  function TraitsTo(t: Traits, rest: Tokens): Tokens {
    DeprecatedTo(t.deprecated, t.message, UnusedTo(t.unused, rest))
  }

  function DeprecatedTo(deprecated: bool, message: string, rest: Tokens): Tokens {
    if !deprecated then rest
    else Front([WWith, WDeprecated], if message == "" then rest else [StringToken(message)] + rest)
  }

  function UnusedTo(unused: bool, rest: Tokens): Tokens {
    if unused then Front([WWith, WMaybe, WUnused], rest) else rest
  }

  function StartTo(start: Start, rest: Tokens): Tokens {
    match start
    case Unset => rest
    case Given(value) => Front([WWith], Front([WValue], PrintTo(value, rest)))
    case Block(block) => Front([WWith], AggregateTo(block, rest))
  }

  /** Blocks of declarations, unlike those of compound values, are printed with the blocks in them. */
  function AggregateTo(block: Aggregate, rest: Tokens): Tokens
    decreases block, 0
  {
    match block
    case Braces => Front([WEmpty, WBraces], rest)
    case Scalar(_) => [Garbled] + rest
    case Listed(kind, entries) => Front([KindWord(kind)], PartEntriesTo(kind, entries, Front([WDone], rest)))
  }

  function PartEntriesTo(kind: EntryKind, entries: seq<Entry>, rest: Tokens): Tokens
    decreases entries, 0
  {
    if entries == [] then rest
    else if |entries| == 1 then PartEntryTo(kind, entries[0], rest)
    else PartEntryTo(kind, entries[0], Front([WFollowed, WBy], PartEntriesTo(kind, entries[1..], rest)))
  }

  function PartEntryTo(kind: EntryKind, entry: Entry, rest: Tokens): Tokens
    decreases entry, 1
  {
    match kind
    case Positional => PartTo(entry.content, rest)
    case ByMember => Front([entry.member, WAs], PartTo(entry.content, rest))
    case ByElement => Front([WAt], Size(entry.index) + Front([WAs], PartTo(entry.content, rest)))
  }

  function PartTo(content: Content, rest: Tokens): Tokens
    decreases content, 0
  {
    match content
    case Value(e) => PrintTo(e, rest)
    case Nested(block) => Front([WWith], AggregateTo(block, rest))
  }

  function FieldsTo(fields: seq<Field>, rest: Tokens): Tokens {
    if fields == [] then rest else FieldTo(fields[0], FieldsTo(fields[1..], rest))
  }

  function FieldTo(f: Field, rest: Tokens): Tokens {
    if f.width.Some? then
      Front([WBit, WField], NameTo(f.name, Front([WAs],
        SpellTo(f.type_, Front([WWith], Front([WWidth], Size(f.width.value) + ([Dot] + rest)))))))
    else
      Front(if f.flexible then [WFlexible, WField] else [WField], NameTo(f.name, Front([WAs], SpellTo(f.type_, [Dot] + rest))))
  }

  function NameTo(name: Option<Name>, rest: Tokens): Tokens {
    if name.Some? then Front([name.value], rest) else rest
  }

  function ConstantsTo(constants: seq<Constant>, rest: Tokens): Tokens {
    if constants == [] then rest else ConstantTo(constants[0], ConstantsTo(constants[1..], rest))
  }

  function ConstantTo(c: Constant, rest: Tokens): Tokens {
    Front([WEnumerator], Front([c.name], NumberTo(c.value, [Dot] + rest)))
  }

  function NumberTo(value: Option<int>, rest: Tokens): Tokens {
    if value.None? then rest
    else if value.value >= 0 then Front([WAs], Size(value.value) + rest)
    else Front([WAs], Front([WMinus], Size(-value.value) + rest))
  }

  // ----- blocks -----

  function SentencesTo(body: seq<Sentence>, rest: Tokens): Tokens
    decreases body, 0
  {
    if body == [] then rest else SentenceTo(body[0], SentencesTo(body[1..], rest))
  }

  /** A block after its colon, with the words that close it. */
  function ClosedBlockTo(body: seq<Sentence>, what: Word, rest: Tokens): Tokens
    decreases body, 1
  {
    [Colon] + SentencesTo(body, Front([WEnd, what], [Dot] + rest))
  }

  function BlockPartsTo(s: Sentence, rest: Tokens): Tokens
    decreases s, 1
  {
    match s
    case Repeat(_, _) => RepeatTo(s, rest)
    case If(_, _, _) => IfTo(s, rest)
    case CompileIf(_, _, _, _) => CompileIfTo(s, rest)
    case While(_, _) => WhileTo(s, rest)
    case DoWhile(_, _) => DoWhileTo(s, rest)
    case ForEach(_, _, _) => ForEachTo(s, rest)
    case For(_, _, _, _, _) => ForTo(s, rest)
    case Switch(_, _) => SwitchTo(s, rest)
    case Procedure(_, _, _, _, _) => ProcedureTo(s, rest)
    case _ => rest
  }

  function RepeatTo(s: Sentence, rest: Tokens): Tokens
    requires s.Repeat?
    decreases s, 0
  {
    PrintTo(s.count, ClosedBlockTo(s.body, WRepeat, rest))
  }

  function IfTo(s: Sentence, rest: Tokens): Tokens
    requires s.If?
    decreases s, 0
  {
    PrintTo(s.condition, Front([WThen], [Colon] + SentencesTo(s.yes, ElseTo(s.no, Front([WEnd, WIf], [Dot] + rest)))))
  }

  function CompileIfTo(s: Sentence, rest: Tokens): Tokens
    requires s.CompileIf?
    decreases s, 0
  {
    MacroTo(s.macro, SentencesTo(s.yes, BranchesTo(s.branches, OtherwiseTo(s.no, Front([WEnd, WCompile, WIf], [Dot] + rest)))))
  }

  function WhileTo(s: Sentence, rest: Tokens): Tokens
    requires s.While?
    decreases s, 0
  {
    PrintTo(s.condition, ClosedBlockTo(s.body, WWhile, rest))
  }

  function DoWhileTo(s: Sentence, rest: Tokens): Tokens
    requires s.DoWhile?
    decreases s, 0
  {
    [Colon] + SentencesTo(s.body, Front([WEnd, WDo], Front([WWhile], PrintTo(s.condition, [Dot] + rest))))
  }

  function ForEachTo(s: Sentence, rest: Tokens): Tokens
    requires s.ForEach?
    decreases s, 0
  {
    Front([s.name], Front([WIn], PrintTo(s.list, ClosedBlockTo(s.body, WFor, rest))))
  }

  function ForTo(s: Sentence, rest: Tokens): Tokens
    requires s.For?
    decreases s, 0
  {
    Front([s.name], Front([WFrom], PrintTo(s.from, DownTo(s.descending, PrintTo(s.to, ClosedBlockTo(s.body, WFor, rest))))))
  }

  function SwitchTo(s: Sentence, rest: Tokens): Tokens
    requires s.Switch?
    decreases s, 0
  {
    PrintTo(s.subject, [Colon] + ClausesTo(s.clauses, Front([WEnd, WSwitch], [Dot] + rest)))
  }

  function ProcedureTo(s: Sentence, rest: Tokens): Tokens
    requires s.Procedure?
    decreases s, 0
  {
    Front([s.name], HeaderTo(s.header, ReturnsTo(s.returns_, MarksTo(s.marks, ClosedBlockTo(s.body, WProcedure, rest)))))
  }

  function ElseTo(no: seq<Sentence>, rest: Tokens): Tokens
    decreases no, 1
  {
    if no == [] then rest else Front([WElse], [Colon] + SentencesTo(no, rest))
  }

  function OtherwiseTo(no: seq<Sentence>, rest: Tokens): Tokens
    decreases no, 1
  {
    if no == [] then rest else Front([WOtherwise], [Colon] + SentencesTo(no, rest))
  }

  function DownTo(descending: bool, rest: Tokens): Tokens {
    if descending then Front([WDown], Front([WTo], rest)) else Front([WTo], rest)
  }

  function MacroTo(macro: Name, rest: Tokens): Tokens {
    Front([macro], Front([WIs], Front([WDefined], [Colon] + rest)))
  }

  function BranchesTo(branches: seq<Branch>, rest: Tokens): Tokens
    decreases branches, 0
  {
    if branches == [] then rest
    else Front([WElif], MacroTo(branches[0].macro, SentencesTo(branches[0].body, BranchesTo(branches[1..], rest))))
  }

  function ClausesTo(clauses: seq<Clause>, rest: Tokens): Tokens
    decreases clauses, 0
  {
    if clauses == [] then rest else ClauseTo(clauses[0], ClausesTo(clauses[1..], rest))
  }

  function ClauseTo(c: Clause, rest: Tokens): Tokens
    decreases c, 0
  {
    if c.value.Some? then Front([WWhen], PrintTo(c.value.value, [Colon] + SentencesTo(c.body, rest)))
    else Front([WOtherwise], [Colon] + SentencesTo(c.body, rest))
  }

  // ----- procedures -----

  /** "takes" stands only in front of a parameter, even where variable arguments follow. */
  function HeaderTo(h: Header, rest: Tokens): Tokens {
    if h.params == [] then VariadicTo(h.variadic, rest)
    else Front([WTakes], ParametersTo(h.params, VariadicTo(h.variadic, rest)))
  }

  function VariadicTo(variadic: bool, rest: Tokens): Tokens {
    if variadic then Front([WAnd, WVariadic, WParameters], rest) else rest
  }

  /** The commas between parameters are no tokens. */
  function ParametersTo(params: seq<Param>, rest: Tokens): Tokens {
    if params == [] then rest else ParamTo(params[0], ParametersTo(params[1..], rest))
  }

  function ParamTo(p: Param, rest: Tokens): Tokens {
    Front([p.name], if p.type_.Some? then Front([WAs], SpellTo(p.type_.value, rest)) else rest)
  }

  function ReturnsTo(returns_: Option<Spec>, rest: Tokens): Tokens {
    if returns_.Some? then Front([WReturns], SpellTo(returns_.value, rest)) else rest
  }

  function MarksTo(m: Marks, rest: Tokens): Tokens {
    InlineTo(m.inline, NoReturnTo(m.noReturn, DeprecatedTo(m.deprecated, m.message, UnusedTo(m.unused, rest))))
  }

  function InlineTo(inline: bool, rest: Tokens): Tokens {
    if inline then Front([WWith, WInline], rest) else rest
  }

  function NoReturnTo(noReturn: bool, rest: Tokens): Tokens {
    if noReturn then Front([WWith, WNo, WReturn], rest) else rest
  }
}
