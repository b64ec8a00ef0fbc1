/** What the parser makes of printed sentences, blocks and programs. */
module SentenceRoundTrip {
  import opened Options
  import opened Primitives
  import opened Types
  import opened Syntax
  import opened Grammar
  import opened Printer
  import opened TypeSpellings
  import opened ExpressionRoundTrip
  import opened Sentences
  import opened SentencePrinter
  import Literals

  // ----- the printable sentences -----

  predicate Text(s: string) { Literals.Alone(s).Some? }

  predicate AllPrintable(es: seq<Expr>) { forall i :: 0 <= i < |es| ==> Printable(es[i]) }

  /** Sentences the printer has words for, built as the parser builds them.  Records and enumerations
      stand at the top level only. */
  predicate PrintableSentence(top: bool, s: Sentence)
    decreases s
  {
    match s
    case Remark => true
    case Say(items) => items != [] && AllPrintable(items)
    case Set(name, value) => name.Named? && Printable(value)
    case StoreThrough(pointer, value) => Printable(pointer) && Printable(value)
    case StoreElement(index, base, value) => Printable(index) && Printable(base) && Printable(value)
    case StoreMember(_, base, value) => Printable(base) && Printable(value)
    case Declare(_, traits, _, _, type_, start) => Text(traits.message) && Spellable(type_) && PrintableStart(start)
    case Record(kind, _, fields) =>
      top && !kind.EnumerationTag? && forall i :: 0 <= i < |fields| ==> PrintableField(fields[i])
    case Enumerate(_, constants) => top && forall i :: 0 <= i < |constants| ==> PrintableConstant(constants[i])
    case AddTo(value, name) => name.Named? && Printable(value)
    case SubtractFrom(value, _) => Printable(value)
    case Append(value, name) => name.Named? && Printable(value)
    case Read(_, _) => true
    case ReplaceItem(index, _, value) => Printable(index) && Printable(value)
    case RemoveItem(index, _) => Printable(index)
    case Warn(message) => Text(message)
    case Break => true
    case Continue => true
    case GoTo(_) => true
    case Label(_) => true
    case CallName(name, items) => name != WThrough && AllPrintable(items)
    case Return(result) => result.Some? ==> Printable(result.value)
    case StartVariadic(_) => true
    case FinishVariadic => true
    case CopyVariadic(_) => true
    case FinishCopy(_) => true
    case Repeat(count, body) => Printable(count) && PrintableBody(body)
    case If(condition, yes, no) => Printable(condition) && PrintableBody(yes) && PrintableBody(no)
    case CompileIf(_, yes, branches, no) => PrintableBody(yes) && PrintableBranches(branches) && PrintableBody(no)
    case While(condition, body) => Printable(condition) && PrintableBody(body)
    case DoWhile(body, condition) => PrintableBody(body) && Printable(condition)
    case ForEach(_, list, body) => Printable(list) && PrintableBody(body)
    case For(name, from, to, _, body) => name != WEach && Printable(from) && Printable(to) && PrintableBody(body)
    case Switch(subject, clauses) => clauses != [] && Printable(subject) && PrintableClauses(clauses)
    case Procedure(_, header, returns_, marks, body) => PrintableProcedure(header, returns_, marks) && PrintableBody(body)
    case _ => false
  }

  predicate PrintableBody(body: seq<Sentence>) {
    forall i :: 0 <= i < |body| ==> PrintableSentence(false, body[i])
  }

  predicate PrintableBranches(branches: seq<Branch>) {
    forall i :: 0 <= i < |branches| ==> PrintableBody(branches[i].body)
  }

  predicate PrintableClauses(clauses: seq<Clause>) {
    forall i :: 0 <= i < |clauses| ==> PrintableClause(clauses[i])
  }

  predicate PrintableClause(c: Clause) {
    (c.value.Some? ==> Printable(c.value.value)) && PrintableBody(c.body)
  }

  predicate PrintableStart(start: Start) {
    match start
    case Unset => true
    case Given(value) => Printable(value)
    case Block(block) => PrintableAggregate(block)
  }

  predicate PrintableAggregate(block: Aggregate) {
    match block
    case Braces => true
    case Scalar(_) => false
    case Listed(kind, entries) =>
      && entries != [] && (kind.ByMember? ==> entries[0].member != WDone)
      && forall i :: 0 <= i < |entries| ==> PrintablePartEntry(kind, entries[i])
  }

  predicate PrintablePartEntry(kind: EntryKind, entry: Entry)
    decreases entry
  {
    && PrintablePart(entry.content)
    && (!kind.ByMember? ==> entry.member == NO_NAME)
    && (if kind.ByElement? then entry.index <= LONG_MAX else entry.index == 0)
  }

  predicate PrintablePart(content: Content) {
    match content
    case Value(e) => Printable(e)
    case Nested(block) => PrintableAggregate(block)
  }

  /** Only bit fields may have no name, and they are not flexible. */
  predicate PrintableField(f: Field) {
    && Spellable(f.type_)
    && (if f.width.Some? then f.width.value <= LONG_MAX && !f.flexible && f.name != Some(WAs) else f.name.Some?)
  }

  predicate PrintableConstant(c: Constant) {
    c.value.Some? ==> -LONG_MAX <= c.value.value <= LONG_MAX
  }

  /** All parameters have a type and the result has one, or none of them.  Variable arguments need
      a parameter in front of them, whose type does not end in an expression; and marks do not
      stand right behind a parameter without a type. */
  predicate PrintableProcedure(h: Header, returns_: Option<Spec>, marks: Marks) {
    && PrintableParams(h.params)
    && (h.typed <==> exists i :: 0 <= i < |h.params| && h.params[i].type_.Some?)
    && (h.untyped <==> exists i :: 0 <= i < |h.params| && h.params[i].type_.None?)
    && !(h.typed && h.untyped) && (h.typed ==> returns_.Some?) && (h.untyped ==> returns_.None?)
    && (h.variadic ==> h.params != [] && !OpenParam(h.params[|h.params| - 1]))
    && (h.untyped && !h.variadic ==> marks == NO_MARKS)
    && (returns_.Some? ==> Spellable(returns_.value)) && Text(marks.message)
  }

  predicate PrintableParams(params: seq<Param>) {
    forall i :: 0 <= i < |params| ==> params[i].name.Named? && (params[i].type_.Some? ==> Spellable(params[i].type_.value))
  }

  predicate OpenParam(p: Param) { p.type_.Some? && OpenType(p.type_.value) }

  // ----- what is read from them -----

  function Reread(text: string): string {
    if Text(text) then Literals.Alone(text).value else text
  }

  /** The printer drops storage phrases other than deprecated and maybe unused. */
  function RegroupedSentence(s: Sentence): Sentence {
    match s
    case Say(items) => Say(RegroupedAll(items))
    case Set(name, value) => Set(name, Regrouped(value))
    case StoreThrough(pointer, value) => StoreThrough(Regrouped(pointer), Regrouped(value))
    case StoreElement(index, base, value) => StoreElement(Regrouped(index), Regrouped(base), Regrouped(value))
    case StoreMember(member, base, value) => StoreMember(member, Regrouped(base), Regrouped(value))
    case Declare(name, traits, _, _, type_, start) =>
      Declare(name, RegroupedTraits(traits), false, false, RegroupedSpec(type_), RegroupedStart(start))
    case Record(kind, name, fields) => Record(kind, name, RegroupedFields(fields))
    case AddTo(value, name) => AddTo(Regrouped(value), name)
    case SubtractFrom(value, name) => SubtractFrom(Regrouped(value), name)
    case Append(value, name) => Append(Regrouped(value), name)
    case ReplaceItem(index, name, value) => ReplaceItem(Regrouped(index), name, Regrouped(value))
    case RemoveItem(index, name) => RemoveItem(Regrouped(index), name)
    case Warn(message) => Warn(Reread(message))
    case CallName(name, items) => CallName(name, RegroupedAll(items))
    case Return(result) => if result.Some? then Return(Some(Regrouped(result.value))) else s
    case Repeat(count, body) => Repeat(Regrouped(count), RegroupedBody(body))
    case If(condition, yes, no) => If(Regrouped(condition), RegroupedBody(yes), RegroupedBody(no))
    case CompileIf(macro, yes, branches, no) => CompileIf(macro, RegroupedBody(yes), RegroupedBranches(branches), RegroupedBody(no))
    case While(condition, body) => While(Regrouped(condition), RegroupedBody(body))
    case DoWhile(body, condition) => DoWhile(RegroupedBody(body), Regrouped(condition))
    case ForEach(name, list, body) => ForEach(name, Regrouped(list), RegroupedBody(body))
    case For(name, from, to, descending, body) => For(name, Regrouped(from), Regrouped(to), descending, RegroupedBody(body))
    case Switch(subject, clauses) => Switch(Regrouped(subject), RegroupedClauses(clauses))
    case Procedure(name, header, returns_, marks, body) =>
      Procedure(name, RegroupedHeader(header), RegroupedReturns(returns_), RegroupedMarks(marks), RegroupedBody(body))
    case _ => s
  }

  function RegroupedBody(body: seq<Sentence>): (r: seq<Sentence>)
    ensures |r| == |body| && forall i :: 0 <= i < |body| ==> r[i] == RegroupedSentence(body[i])
  {
    if body == [] then [] else [RegroupedSentence(body[0])] + RegroupedBody(body[1..])
  }

  function RegroupedBranches(branches: seq<Branch>): (r: seq<Branch>)
    ensures |r| == |branches| && forall i :: 0 <= i < |branches| ==> r[i] == RegroupedBranch(branches[i])
  {
    if branches == [] then [] else [RegroupedBranch(branches[0])] + RegroupedBranches(branches[1..])
  }

  function RegroupedBranch(b: Branch): Branch { Branch(b.macro, RegroupedBody(b.body)) }

  function RegroupedClauses(clauses: seq<Clause>): (r: seq<Clause>)
    ensures |r| == |clauses| && forall i :: 0 <= i < |clauses| ==> r[i] == RegroupedClause(clauses[i])
  {
    if clauses == [] then [] else [RegroupedClause(clauses[0])] + RegroupedClauses(clauses[1..])
  }

  function RegroupedClause(c: Clause): Clause {
    Clause(if c.value.Some? then Some(Regrouped(c.value.value)) else None, RegroupedBody(c.body))
  }

  function RegroupedTraits(t: Traits): Traits {
    NO_TRAITS.(deprecated := t.deprecated, message := if t.deprecated then Reread(t.message) else "", unused := t.unused)
  }

  function RegroupedMarks(m: Marks): Marks {
    m.(message := if m.deprecated then Reread(m.message) else "")
  }

  function RegroupedStart(start: Start): Start {
    match start
    case Unset => Unset
    case Given(value) => Given(Regrouped(value))
    case Block(block) => Block(RegroupedAggregate(block))
  }

  function RegroupedAggregate(block: Aggregate): Aggregate {
    match block
    case Listed(kind, entries) => Listed(kind, RegroupedParts(entries))
    case _ => block
  }

  function RegroupedParts(entries: seq<Entry>): (r: seq<Entry>)
    ensures |r| == |entries| && forall i :: 0 <= i < |entries| ==> r[i] == RegroupedPart(entries[i])
  {
    if entries == [] then [] else [RegroupedPart(entries[0])] + RegroupedParts(entries[1..])
  }

  function RegroupedPart(entry: Entry): Entry {
    Entry(entry.member, entry.index, RegroupedPartContent(entry.content))
  }

  function RegroupedPartContent(content: Content): Content {
    match content
    case Value(e) => Value(Regrouped(e))
    case Nested(block) => Nested(RegroupedAggregate(block))
  }

  function RegroupedFields(fields: seq<Field>): (r: seq<Field>)
    ensures |r| == |fields| && forall i :: 0 <= i < |fields| ==> r[i] == RegroupedField(fields[i])
  {
    if fields == [] then [] else [RegroupedField(fields[0])] + RegroupedFields(fields[1..])
  }

  function RegroupedField(f: Field): Field { f.(type_ := RegroupedSpec(f.type_)) }

  function RegroupedHeader(h: Header): Header { h.(params := RegroupedParams(h.params)) }

  function RegroupedParams(params: seq<Param>): (r: seq<Param>)
    ensures |r| == |params| && forall i :: 0 <= i < |params| ==> r[i] == RegroupedParam(params[i])
  {
    if params == [] then [] else [RegroupedParam(params[0])] + RegroupedParams(params[1..])
  }

  function RegroupedParam(p: Param): Param { Param(p.name, RegroupedReturns(p.type_)) }

  function RegroupedReturns(returns_: Option<Spec>): Option<Spec> {
    if returns_.Some? then Some(RegroupedSpec(returns_.value)) else None
  }

  // ----- ends of sentences -----

  lemma DotIsStill(rest: Tokens)
    ensures Still([Dot] + rest)
  {
  }

  lemma ColonIsStill(rest: Tokens)
    ensures Still([Colon] + rest)
  {
  }

  lemma ToIsStill(ts: Tokens)
    requires !WordAt(ts, 0, WThe)
    ensures Still(Front([WTo], ts))
  {
    var all := Front([WTo], ts);
    if |all| > 1 { assert all[1] == ts[0]; }
  }

  lemma WordIsStill(w: Word, ts: Tokens)
    requires w == WFrom || w == WDown || w == WReturns
    ensures Still(Front([w], ts))
  {
  }

  lemma OfIsQuiet(ts: Tokens)
    ensures Still(Front([WOf], ts))
  {
  }

  lemma ExprDot(e: Expr, rest: Tokens)
    requires Printable(e)
    ensures EndingExpr(PrintTo(e, [Dot] + rest)) == Some(Got(Regrouped(e), rest))
  {
    hide PrintTo, ParseLevel, Regrouped, Printable;
    DotIsStill(rest);
    ExprReads(OR_LEVEL, e, [Dot] + rest);
    assert ([Dot] + rest)[1..] == rest;
  }

  lemma ExprColon(e: Expr, rest: Tokens)
    requires Printable(e)
    ensures ParseExpr(PrintTo(e, [Colon] + rest)) == Some(Got(Regrouped(e), [Colon] + rest))
  {
    hide PrintTo, ParseLevel, Regrouped, Printable;
    ColonIsStill(rest);
    ExprReads(OR_LEVEL, e, [Colon] + rest);
  }

  lemma TextDot(text: string, rest: Tokens)
    requires Text(text)
    ensures EndingText([StringToken(text)] + ([Dot] + rest)) == Some(Got(Reread(text), rest))
  {
    hide Literals.Alone;
    assert ([StringToken(text)] + ([Dot] + rest))[1..] == [Dot] + rest;
    DotOff(rest);
  }

  // ----- verbs -----

  /** What the words of a verb must not be followed by. */
  predicate VerbStays(verb: Verb, ts: Tokens) {
    (verb.ForVerb? ==> !WordAt(ts, 0, WEach)) && (verb == Blockless(FinishVerb) ==> !WordAt(ts, 0, WCopy))
  }

  predicate IsTopVerb(verb: Verb) {
    verb.Blockless? && (verb.it.RecordVerb? || verb.it.EnumerationVerb?)
  }

  /** Verbs that need more than their first word. */
  predicate IsLong(verb: Verb) {
    || verb.CompileVerb? || verb.ForEachVerb? || verb.ForVerb?
    || (verb.Blockless? && (verb.it.StartVerb? || verb.it.CopyVerb? || verb.it.FinishCopyVerb? || verb.it.FinishVerb?))
  }

  lemma VerbFound(top: bool, verb: Verb, ts: Tokens)
    requires VerbWords(verb) != [] && VerbStays(verb, ts) && (IsTopVerb(verb) ==> top)
    ensures VerbAt(top, Front(VerbWords(verb), ts)) == Some(Sized(verb, |VerbWords(verb)|))
  {
    hide Idents, Front, VerbWords, VerbStays, TopVerb, PlainVerb, LongVerb;
    var all := Front(VerbWords(verb), ts);
    assert all[0] == Ident(VerbWords(verb)[0]);
    if IsTopVerb(verb) {
      TopVerbFound(verb, ts);
    } else {
      NoTopVerb(verb, ts);
      if !IsLong(verb) {
        if verb.Blockless? {
          assert VerbWords(Blockless(verb.it)) == SimpleWords(verb.it) by { WordsOfSimple(verb.it); }
          SimpleVerbFound(verb.it);
        } else {
          BlockVerbFound(verb);
        }
      } else {
        NoPlainVerb(verb);
        if verb.Blockless? { VariadicVerbFound(verb, ts); } else { LoopVerbFound(verb, ts); }
      }
    }
  }

  lemma TopVerbFound(verb: Verb, ts: Tokens)
    requires IsTopVerb(verb) && VerbWords(verb) != []
    ensures TopVerb(Front(VerbWords(verb), ts)) == Some(Sized(verb, 1)) && |VerbWords(verb)| == 1
  {
  }

  lemma NoTopVerb(verb: Verb, ts: Tokens)
    requires !IsTopVerb(verb) && VerbWords(verb) != []
    ensures TopVerb(Front(VerbWords(verb), ts)) == None
  {
    hide Idents, Front;
    assert Front(VerbWords(verb), ts)[0] == Ident(VerbWords(verb)[0]);
  }

  lemma WordsOfSimple(verb: SimpleVerb)
    ensures VerbWords(Blockless(verb)) == SimpleWords(verb)
  {
  }

  predicate Changes(verb: SimpleVerb) {
    verb.SetVerb? || verb.DeclareVerb? || verb.ChangeVerb? || verb.ReplaceVerb? || verb.RemoveVerb?
  }

  lemma SimpleVerbFound(verb: SimpleVerb)
    requires SimpleWords(verb) != [] && !IsLong(Blockless(verb)) && !IsTopVerb(Blockless(verb))
    ensures |SimpleWords(verb)| == 1 && PlainVerb(SimpleWords(verb)[0]) == Some(Blockless(verb))
    ensures VerbWords(Blockless(verb)) == SimpleWords(verb)
  {
    hide ChangingVerb, ActingVerb, BlockVerb;
    if Changes(verb) {
      ChangingVerbFound(verb);
    } else {
      ActingVerbFound(verb);
      ChangingWords(SimpleWords(verb)[0]);
    }
  }

  lemma ChangingVerbFound(verb: SimpleVerb)
    requires SimpleWords(verb) != [] && Changes(verb)
    ensures |SimpleWords(verb)| == 1 && ChangingVerb(SimpleWords(verb)[0]) == Some(verb)
  {
  }

  lemma ActingVerbFound(verb: SimpleVerb)
    requires SimpleWords(verb) != [] && !Changes(verb) && !IsLong(Blockless(verb)) && !IsTopVerb(Blockless(verb))
    ensures |SimpleWords(verb)| == 1 && ActingVerb(SimpleWords(verb)[0]) == Some(verb)
    ensures var w := SimpleWords(verb)[0]; w == WCall || (w.Key? && (120 <= w.number <= 125 || 143 <= w.number <= 144 || 149 <= w.number))
  {
  }

  lemma BlockVerbFound(verb: Verb)
    requires VerbWords(verb) != [] && !verb.Blockless? && !IsLong(verb)
    ensures |VerbWords(verb)| == 1 && PlainVerb(VerbWords(verb)[0]) == Some(verb)
  {
    hide ChangingVerb, ActingVerb;
    ChangingWords(VerbWords(verb)[0]);
    ActingWords(VerbWords(verb)[0]);
  }

  lemma NoPlainVerb(verb: Verb)
    requires VerbWords(verb) != [] && IsLong(verb)
    ensures PlainVerb(VerbWords(verb)[0]) == None
  {
    hide ChangingVerb, ActingVerb;
    ChangingWords(VerbWords(verb)[0]);
    ActingWords(VerbWords(verb)[0]);
  }

  lemma LoopVerbFound(verb: Verb, ts: Tokens)
    requires (verb.CompileVerb? || verb.ForEachVerb? || verb.ForVerb?) && VerbStays(verb, ts)
    ensures LongVerb(Front(VerbWords(verb), ts)) == Some(Sized(verb, |VerbWords(verb)|))
  {
    hide Idents, Front;
    var words := VerbWords(verb);
    var all := Front(words, ts);
    assert all[0] == Ident(words[0]) && (|words| == 2 ==> all[1] == Ident(words[1]));
    assert verb.ForVerb? && ts != [] ==> all[1] == ts[0];
  }

  lemma VariadicVerbFound(verb: Verb, ts: Tokens)
    requires verb.Blockless? && IsLong(verb) && VerbStays(verb, ts)
    ensures LongVerb(Front(VerbWords(verb), ts)) == Some(Sized(verb, |VerbWords(verb)|))
  {
    hide Idents, Front;
    var words := VerbWords(verb);
    var all := Front(words, ts);
    assert all[0] == Ident(words[0]) && all[1] == Ident(WVariadic) && all[2] == Ident(WArguments);
    assert verb.it.FinishCopyVerb? ==> all[3] == Ident(WCopy);
    assert ts != [] && |words| == 3 ==> all[3] == ts[0];
  }

  /** After the words of a verb its parts are read. */
  lemma VerbReads(top: bool, verb: Verb, ts: Tokens)
    requires VerbWords(verb) != [] && VerbStays(verb, ts) && (IsTopVerb(verb) ==> top)
    ensures ParseSentence(top, Front(VerbWords(verb), ts)) == ParseVerb(verb, ts)
  {
    hide Idents, Front, VerbAt, ParseVerb;
    VerbFound(top, verb, ts);
    VerbWordsAreWords(verb, ts);
  }

  lemma VerbWordsAreWords(verb: Verb, ts: Tokens)
    requires VerbWords(verb) != []
    ensures var all := Front(VerbWords(verb), ts); all != [] && all[0].Ident? && all[|VerbWords(verb)|..] == ts
  {
    hide Idents, Front, VerbWords;
    assert Front(VerbWords(verb), ts)[0] == Ident(VerbWords(verb)[0]);
  }

  // ----- sentences without blocks -----

  lemma {:induction false} ItemsBefore(items: seq<Expr>, end: Tokens)
    requires items != [] && AllPrintable(items) && Still(end) && !FollowedBy(end)
    ensures ParseItems(ItemsTo(items, end)) == Some(Got(RegroupedAll(items), end))
    decreases items
  {
    hide ParseLevel, PrintTo, Regrouped, Front, Idents;
    if |items| == 1 {
      ExprReads(OR_LEVEL, items[0], end);
      LastItem(ItemsTo(items, end), Got(Regrouped(items[0]), end));
      assert RegroupedAll(items) == [Regrouped(items[0])];
    } else {
      var tail := ItemsTo(items[1..], end);
      ItemsBefore(items[1..], end);
      FollowedIsStill(tail);
      ExprReads(OR_LEVEL, items[0], Front([WFollowed, WBy], tail));
      ItemsStep(ItemsTo(items, end), Regrouped(items[0]), tail);
    }
  }

  lemma LastItem(ts: Tokens, last: Got<Expr>)
    requires ParseExpr(ts) == Some(last) && !FollowedBy(last.rest)
    ensures ParseItems(ts) == Some(Got([last.value], last.rest))
  {
    hide ParseExpr;
  }

  lemma SayReads(items: seq<Expr>, rest: Tokens)
    requires items != [] && AllPrintable(items)
    ensures ParseSay(ItemsTo(items, [Dot] + rest)) == Some(Got(Say(RegroupedAll(items)), rest))
  {
    hide ParseItems, ItemsTo, RegroupedAll, AllPrintable;
    DotIsStill(rest);
    ItemsBefore(items, [Dot] + rest);
    DotOff(rest);
  }

  lemma SetReads(name: Name, value: Expr, rest: Tokens)
    requires name.Named? && Printable(value)
    ensures ParseSet(Front([name], Front([WTo], PrintTo(value, [Dot] + rest)))) == Some(Got(Set(name, Regrouped(value)), rest))
  {
    hide PrintTo, Front, Idents, EndingExpr, NameUpTo, Regrouped, Printable, ParseUpTo;
    var end := PrintTo(value, [Dot] + rest);
    NameBefore(name, WTo, end);
    ExprDot(value, rest);
    assert Front([name], Front([WTo], end))[0] == Ident(name);
  }

  lemma ThroughReads(pointer: Expr, value: Expr, rest: Tokens)
    requires Printable(pointer) && Printable(value)
    ensures ParseSet(Front([WValue, WAt], PrintTo(pointer, Front([WTo], PrintTo(value, [Dot] + rest))))) ==
            Some(Got(StoreThrough(Regrouped(pointer), Regrouped(value)), rest))
  {
    hide PrintTo, Front, Idents, EndingExpr, NameUpTo, Regrouped, Printable, ParseUpTo, StartsExpr;
    var end := PrintTo(value, [Dot] + rest);
    ToBefore(pointer, value, rest);
    ExprDot(value, rest);
    var all := Front([WValue, WAt], PrintTo(pointer, Front([WTo], end)));
    assert all[0] == Ident(WValue) && all[1] == Ident(WAt);
  }

  /** A part in front of "to" and a value. */
  lemma ToBefore(e: Expr, value: Expr, rest: Tokens)
    requires Printable(e) && Printable(value)
    ensures ParseUpTo(WTo, PrintTo(e, Front([WTo], PrintTo(value, [Dot] + rest)))) ==
            Some(Got(Regrouped(e), PrintTo(value, [Dot] + rest)))
  {
    hide PrintTo, Front, Idents, Regrouped, Printable, ParseUpTo;
    PrintedStarts(value, [Dot] + rest);
    ToIsStill(PrintTo(value, [Dot] + rest));
    ReadsUpTo(e, WTo, PrintTo(value, [Dot] + rest));
  }

  lemma ElementReads(index: Expr, base: Expr, value: Expr, rest: Tokens)
    requires Printable(index) && Printable(base) && Printable(value)
    ensures ParseSet(Front([WElement, WAt], PrintTo(index, Front([WIn], PrintTo(base, Front([WTo], PrintTo(value, [Dot] + rest))))))) ==
            Some(Got(StoreElement(Regrouped(index), Regrouped(base), Regrouped(value)), rest))
  {
    hide PrintTo, Front, Idents, EndingExpr, NameUpTo, Regrouped, Printable, ParseUpTo;
    var end := PrintTo(value, [Dot] + rest);
    var second := PrintTo(base, Front([WTo], end));
    SeparatorsAreStill(WIn, second);
    ReadsUpTo(index, WIn, second);
    ToBefore(base, value, rest);
    ExprDot(value, rest);
    var all := Front([WElement, WAt], PrintTo(index, Front([WIn], second)));
    assert all[0] == Ident(WElement) && all[1] == Ident(WAt);
  }

  lemma MemberReads(member: Name, base: Expr, value: Expr, rest: Tokens)
    requires Printable(base) && Printable(value)
    ensures ParseSet(Front([WMember], Front([member], Front([WOf], PrintTo(base, Front([WTo], PrintTo(value, [Dot] + rest))))))) ==
            Some(Got(StoreMember(member, Regrouped(base), Regrouped(value)), rest))
  {
    hide PrintTo, Front, Idents, EndingExpr, NameUpTo, Regrouped, Printable, ParseUpTo;
    var second := PrintTo(base, Front([WTo], PrintTo(value, [Dot] + rest)));
    NameBefore(member, WOf, second);
    ToBefore(base, value, rest);
    ExprDot(value, rest);
    assert Front([WMember], Front([member], Front([WOf], second)))[0] == Ident(WMember);
  }

  lemma ChangeReads(change: Change, value: Expr, name: Name, rest: Tokens)
    requires Printable(value) && (change.Subtracting? || ((change.Adding? || change.Appending?) && name.Named?))
    ensures var w := if change.Subtracting? then WFrom else WTo;
            ParseChange(change, PrintTo(value, Front([w], Front([name], [Dot] + rest)))) ==
            Some(Got(Changed(change, Regrouped(value), name), rest))
  {
    hide PrintTo, Front, Idents, EndingExpr, EndingName, NameUpTo, Regrouped, Printable, ParseUpTo;
    var w := if change.Subtracting? then WFrom else WTo;
    var end := Front([name], [Dot] + rest);
    assert end[0] == Ident(name);
    if change.Subtracting? { WordIsStill(WFrom, end); } else { ToIsStill(end); }
    ReadsUpTo(value, w, end);
    NameDot(name, rest);
  }

  lemma ReplaceReads(index: Expr, name: Name, value: Expr, rest: Tokens)
    requires Printable(index) && Printable(value)
    ensures ParseReplace(Front([WItem, WAt], PrintTo(index, Front([WIn], Front([name], Front([WWith], PrintTo(value, [Dot] + rest))))))) ==
            Some(Got(ReplaceItem(Regrouped(index), name, Regrouped(value)), rest))
  {
    hide PrintTo, Front, Idents, EndingExpr, NameUpTo, Regrouped, Printable, ParseUpTo;
    var end := PrintTo(value, [Dot] + rest);
    var second := Front([name], Front([WWith], end));
    SeparatorsAreStill(WIn, second);
    ReadsUpTo(index, WIn, second);
    NameBefore(name, WWith, end);
    ExprDot(value, rest);
    TwoOff(WItem, WAt, PrintTo(index, Front([WIn], second)));
  }

  lemma TwoOff(v: Word, w: Word, ts: Tokens)
    ensures ExpectWord(v, Front([v, w], ts)) == Some(Front([w], ts)) && ExpectWord(w, Front([w], ts)) == Some(ts)
  {
    assert Front([v, w], ts)[1..] == Front([w], ts);
  }

  lemma RemoveReads(index: Expr, name: Name, rest: Tokens)
    requires Printable(index)
    ensures ParseRemove(Front([WItem, WAt], PrintTo(index, Front([WFrom], Front([name], [Dot] + rest))))) ==
            Some(Got(RemoveItem(Regrouped(index), name), rest))
  {
    hide PrintTo, Front, Idents, EndingName, NameUpTo, Regrouped, Printable, ParseUpTo;
    var end := Front([name], [Dot] + rest);
    WordIsStill(WFrom, end);
    ReadsUpTo(index, WFrom, end);
    NameDot(name, rest);
    TwoOff(WItem, WAt, PrintTo(index, Front([WFrom], end)));
  }

  lemma CallNameReads(name: Name, items: seq<Expr>, rest: Tokens)
    requires name != WThrough && AllPrintable(items)
    ensures ParseCallSentence(Front([name], if items == [] then Front([WDone], [Dot] + rest)
                                            else Front([WWith], ArgsTo(items, Front([WDone], [Dot] + rest))))) ==
            Some(Got(CallName(name, RegroupedAll(items)), rest))
  {
    hide ArgsTo, Front, Idents, ParseCallEnd, ParseArgs, ParsePrimary, RegroupedAll, Printable;
    DotOff(rest);
    if items == [] {
      CallEnds([Dot] + rest);
      NameOff(name, Front([WDone], [Dot] + rest));
      assert Front([name], Front([WDone], [Dot] + rest))[0] == Ident(name);
    } else {
      var args := ArgsTo(items, Front([WDone], [Dot] + rest));
      ArgsRead(items, [Dot] + rest);
      CallEnds(args);
      NameOff(name, Front([WWith], args));
      assert Front([name], Front([WWith], args))[0] == Ident(name);
    }
  }

  lemma ReturnReads(result: Option<Expr>, rest: Tokens)
    requires result.Some? ==> Printable(result.value)
    ensures ParseReturn(if result.Some? then PrintTo(result.value, [Dot] + rest) else [Dot] + rest) ==
            Some(Got(Return(if result.Some? then Some(Regrouped(result.value)) else None), rest))
  {
    hide PrintTo, EndingExpr, Regrouped, Printable;
    if result.Some? {
      ExprDot(result.value, rest);
      PrintedStarts(result.value, [Dot] + rest);
      NoDotStarts(result.value, [Dot] + rest);
    } else {
      assert ([Dot] + rest)[1..] == rest;
    }
  }

  lemma NoDotStarts(e: Expr, rest: Tokens)
    requires Printable(e)
    ensures PrintTo(e, rest) != [] && PrintTo(e, rest)[0] != Dot
  {
    hide SpellTo, ItemsTo, ArgsTo, BlockTo, ChoicesTo, DefaultTo, OpWords, Idents, SourceWords, Spellable, PrintableBlock;
  }

  // ----- declarations -----

  /** Storage phrases: none of the words that end them. */
  predicate EndsPhrases(rest: Tokens) {
    !WordAt(rest, 0, WWith) && !StrAt(rest, 0)
  }

  lemma TraitsRead(t: Traits, rest: Tokens)
    requires Text(t.message) && EndsPhrases(rest)
    ensures ParseTraits(NO_TRAITS, TraitsTo(t, rest)) == Some(Got(RegroupedTraits(t), rest))
  {
    hide Idents, Front, Literals.Alone;
    var tail := UnusedTo(t.unused, rest);
    var before := NO_TRAITS.(deprecated := t.deprecated, message := if t.deprecated then Reread(t.message) else "");
    UnusedPhrase(before, t.unused, rest);
    if t.deprecated {
      UnusedStarts(t.unused, rest);
      if t.message == "" {
        BareDeprecatedPhrase(NO_TRAITS, tail);
        Literals.AloneIff("");
      } else {
        DeprecatedPhrase(NO_TRAITS, t.message, tail);
      }
    }
  }

  lemma UnusedStarts(unused: bool, rest: Tokens)
    requires EndsPhrases(rest)
    ensures !StrAt(UnusedTo(unused, rest), 0)
  {
    if unused { assert UnusedTo(unused, rest)[0] == Ident(WWith); }
  }

  lemma UnusedPhrase(t: Traits, unused: bool, rest: Tokens)
    requires EndsPhrases(rest) && !t.unused
    ensures ParseTraits(t, UnusedTo(unused, rest)) == Some(Got(t.(unused := unused), rest))
  {
    hide Idents, Front;
    if unused {
      var all := Front([WWith, WMaybe, WUnused], rest);
      assert all[0] == Ident(WWith) && all[1] == Ident(WMaybe) && all[2] == Ident(WUnused) && all[3..] == rest;
    }
  }

  lemma DeprecatedPhrase(t: Traits, message: string, rest: Tokens)
    requires Text(message)
    ensures ParseTraits(t, Front([WWith, WDeprecated], [StringToken(message)] + rest)) ==
            ParseTraits(t.(deprecated := true, message := Reread(message)), rest)
  {
    hide Idents, Front, Literals.Alone;
    var all := Front([WWith, WDeprecated], [StringToken(message)] + rest);
    assert all[0] == Ident(WWith) && all[1] == Ident(WDeprecated) && all[2..] == [StringToken(message)] + rest;
    assert all[2] == all[2..][0] && all[3..] == all[2..][1..];
  }

  lemma BareDeprecatedPhrase(t: Traits, rest: Tokens)
    requires !StrAt(rest, 0)
    ensures ParseTraits(t, Front([WWith, WDeprecated], rest)) == ParseTraits(t.(deprecated := true), rest)
  {
    hide Idents, Front;
    var all := Front([WWith, WDeprecated], rest);
    assert all[0] == Ident(WWith) && all[1] == Ident(WDeprecated) && all[2..] == rest;
    assert !StrAt(all, 2) by { if rest != [] { assert all[2] == all[2..][0]; } }
  }

  lemma {:induction false} AggregateReads(block: Aggregate, rest: Tokens)
    requires PrintableAggregate(block)
    ensures ParseAggregate(AggregateTo(block, rest)) == Some(Got(RegroupedAggregate(block), rest))
    decreases block, 0
  {
    hide ParseAggregate, ParseEntries, Front, Idents;
    if block.Braces? {
      BracesRead(rest);
    } else {
      PartsRead(block.kind, block.entries, rest);
      PartsStart(block.kind, block.entries, Front([WDone], rest));
      ListedReads(block.kind, PartEntriesTo(block.kind, block.entries, Front([WDone], rest)), RegroupedParts(block.entries), rest);
    }
  }

  lemma BracesRead(rest: Tokens)
    ensures ParseAggregate(Front([WEmpty, WBraces], rest)) == Some(Got(Braces, rest))
  {
    assert TwoAt(Front([WEmpty, WBraces], rest), 0, WEmpty, WBraces);
  }

  lemma {:induction false} PartsRead(kind: EntryKind, entries: seq<Entry>, rest: Tokens)
    requires entries != [] && forall i :: 0 <= i < |entries| ==> PrintablePartEntry(kind, entries[i])
    ensures ParseEntries(kind, PartEntriesTo(kind, entries, Front([WDone], rest))) ==
            Some(Got(RegroupedParts(entries), Front([WDone], rest)))
    decreases entries, 0
  {
    hide ParseEntries, ParseEntry, Front, Idents, PartEntryTo, RegroupedPart, PrintablePartEntry;
    var done := Front([WDone], rest);
    if |entries| == 1 {
      SeparatorsAreStill(WDone, rest);
      PartEntryRead(kind, entries[0], done);
      EntriesEnd(kind, PartEntriesTo(kind, entries, done), RegroupedPart(entries[0]), rest);
      assert RegroupedParts(entries) == [RegroupedPart(entries[0])];
    } else {
      var tail := PartEntriesTo(kind, entries[1..], done);
      PartsRead(kind, entries[1..], rest);
      FollowedIsStill(tail);
      PartEntryRead(kind, entries[0], Front([WFollowed, WBy], tail));
      EntriesStep(kind, PartEntriesTo(kind, entries, done), RegroupedPart(entries[0]), tail, Got(RegroupedParts(entries[1..]), done));
    }
  }

  lemma {:induction false} PartEntryRead(kind: EntryKind, entry: Entry, rest: Tokens)
    requires PrintablePartEntry(kind, entry) && Still(rest)
    ensures ParseEntry(kind, PartEntryTo(kind, entry, rest)) == Some(Got(RegroupedPart(entry), rest))
    decreases entry, 1
  {
    hide ParseEntry, ParseContent, Front, Idents, PartTo, RegroupedPartContent;
    PartRead(entry.content, rest);
    EntryReads(kind, RegroupedPart(entry), PartTo(entry.content, rest), Got(RegroupedPartContent(entry.content), rest));
  }

  lemma {:induction false} PartRead(content: Content, rest: Tokens)
    requires PrintablePart(content) && Still(rest)
    ensures ParseContent(PartTo(content, rest)) == Some(Got(RegroupedPartContent(content), rest))
    decreases content, 0
  {
    hide ParseContent, ParseAggregate, ParseLevel, Front, Idents, PrintTo, AggregateTo, Regrouped;
    match content
    case Value(e) =>
      ExprReads(OR_LEVEL, e, rest);
      PrintedStarts(e, rest);
      StartIsNoWith(PrintTo(e, rest));
      ContentReads(PrintTo(e, rest), Got(Regrouped(e), rest));
    case Nested(block) =>
      AggregateReads(block, rest);
      NestedReads(AggregateTo(block, rest), Got(RegroupedAggregate(block), rest));
  }

  lemma StartIsNoWith(ts: Tokens)
    requires StartsExpr(ts)
    ensures !WordAt(ts, 0, WWith)
  {
  }

  lemma NestedReads(ts: Tokens, block: Got<Aggregate>)
    requires ParseAggregate(ts) == Some(block)
    ensures ParseContent(Front([WWith], ts)) == Some(Got(Nested(block.value), block.rest))
  {
    hide ParseAggregate;
  }

  lemma PartsStart(kind: EntryKind, entries: seq<Entry>, rest: Tokens)
    requires entries != [] && PrintablePartEntry(kind, entries[0]) && (kind.ByMember? ==> entries[0].member != WDone)
    ensures !WordAt(PartEntriesTo(kind, entries, rest), 0, WDone)
  {
    PartEntryStarts(kind, entries[0], if |entries| == 1 then rest else Front([WFollowed, WBy], PartEntriesTo(kind, entries[1..], rest)));
  }

  lemma PartEntryStarts(kind: EntryKind, entry: Entry, rest: Tokens)
    requires PrintablePartEntry(kind, entry) && (kind.ByMember? ==> entry.member != WDone)
    ensures !WordAt(PartEntryTo(kind, entry, rest), 0, WDone)
  {
    hide PrintTo, AggregateTo, Front, Idents;
    if kind.Positional? {
      if entry.content.Value? {
        PrintedStarts(entry.content.expr, rest);
      } else {
        assert PartTo(entry.content, rest)[0] == Ident(WWith);
      }
    } else if kind.ByMember? {
      assert PartEntryTo(kind, entry, rest)[0] == Ident(entry.member);
    } else {
      assert PartEntryTo(kind, entry, rest)[0] == Ident(WAt);
    }
  }

  lemma StartReads(start: Start, rest: Tokens)
    requires PrintableStart(start)
    ensures ParseStart(StartTo(start, [Dot] + rest)) == Some(Got(RegroupedStart(start), [Dot] + rest))
    ensures Still(StartTo(start, [Dot] + rest)) && EndsPhrases([Dot] + rest)
  {
    hide ParseLevel, ParseAggregate, Front, Idents, PrintTo, AggregateTo, Regrouped, RegroupedAggregate, Printable;
    var dot := [Dot] + rest;
    DotIsStill(rest);
    match start
    case Unset =>
    case Given(value) =>
      ExprReads(OR_LEVEL, value, dot);
      var all := Front([WWith], Front([WValue], PrintTo(value, dot)));
      ValueBehind(PrintTo(value, dot));
      WithIsStill(Front([WValue], PrintTo(value, dot)));
    case Block(block) =>
      AggregateReads(block, dot);
      BlockStartsWell(block, dot);
      WithIsStill(AggregateTo(block, dot));
      var all := Front([WWith], AggregateTo(block, dot));
      assert all[1..] == AggregateTo(block, dot);
      assert |all| > 1 ==> all[1] == all[1..][0];
  }

  lemma ValueBehind(ts: Tokens)
    ensures var all := Front([WWith], Front([WValue], ts)); all[1] == Ident(WValue) && all[2..] == ts
    ensures !WordAt(Front([WValue], ts), 0, WExactly)
  {
    assert Front([WWith], Front([WValue], ts))[1..] == Front([WValue], ts);
  }

  lemma BlockStartsWell(block: Aggregate, rest: Tokens)
    requires PrintableAggregate(block)
    ensures !WordAt(AggregateTo(block, rest), 0, WExactly) && !WordAt(AggregateTo(block, rest), 0, WValue)
  {
    hide PartEntriesTo, Idents, Front;
    if block.Listed? {
      assert AggregateTo(block, rest)[0] == Ident(KindWord(block.kind));
    } else {
      assert AggregateTo(block, rest)[0] == Ident(WEmpty);
    }
  }

  lemma DeclareReads(s: Sentence, rest: Tokens)
    requires s.Declare? && Text(s.traits.message) && Spellable(s.type_) && PrintableStart(s.start)
    ensures ParseDeclare(PartsTo(s, [Dot] + rest)) == Some(Got(RegroupedSentence(s), rest))
  {
    hide Front, Idents, ParseTraits, ParseSpec, ParseStart, TraitsTo, SpellTo, StartTo, RegroupedTraits, RegroupedSpec, RegroupedStart,
         Text, Spellable, PrintableStart, Quiet;
    var end := StartTo(s.start, [Dot] + rest);
    var type_ := SpellTo(s.type_, end);
    StartReads(s.start, rest);
    TypeReads(s.type_, end);
    AsBefore(type_);
    TraitsRead(s.traits, Front([WAs], type_));
    WordOff(WAs, type_);
    NameOff(s.name, TraitsTo(s.traits, Front([WAs], type_)));
    DotOff(rest);
  }

  lemma AsBefore(ts: Tokens)
    ensures EndsPhrases(Front([WAs], ts))
  {
  }

  /** A type in front of what neither continues it nor an expression at its end. */
  lemma TypeReads(t: Spec, rest: Tokens)
    requires Spellable(t) && Still(rest)
    ensures ParseSpec(SpellTo(t, rest)) == Some(Got(RegroupedSpec(t), rest))
    ensures !WordAt(SpellTo(t, rest), 0, WThread) && !WordAt(SpellTo(t, rest), 0, WConstexpr)
  {
    hide ParseSpec, SpellTo, RegroupedSpec, Spellable;
    SpecReads(t, rest);
    SpecStarts(t, rest);
  }

  // ----- records and enumerations -----

  lemma FieldReads(f: Field, rest: Tokens)
    requires PrintableField(f)
    ensures ParseField(FieldTo(f, rest)) == Some(Got(RegroupedField(f), rest))
  {
    hide Front, Idents, ParseBitField, ParseNamedField, ParseSpec, SpellTo, RegroupedSpec, Spellable;
    var all := FieldTo(f, rest);
    if f.width.Some? {
      var tail := NameTo(f.name, Front([WAs], SpellTo(f.type_, Front([WWith], Front([WWidth], Size(f.width.value) + ([Dot] + rest))))));
      BitFieldReads(f, rest);
      assert all[0] == Ident(WBit) && all[1] == Ident(WField) && all[2..] == tail;
    } else {
      NamedFieldReads(f, rest);
      FieldHead(f.flexible, NameTo(f.name, Front([WAs], SpellTo(f.type_, [Dot] + rest))));
    }
  }

  lemma FieldHead(flexible: bool, ts: Tokens)
    ensures ParseField(Front(if flexible then [WFlexible, WField] else [WField], ts)) == ParseNamedField(flexible, ts)
  {
    hide ParseNamedField, ParseBitField;
    if flexible {
      assert TwoAt(Front([WFlexible, WField], ts), 0, WFlexible, WField);
    } else {
      WordOff(WField, ts);
    }
  }

  lemma NamedFieldReads(f: Field, rest: Tokens)
    requires f.name.Some? && f.width.None? && Spellable(f.type_)
    ensures ParseNamedField(f.flexible, NameTo(f.name, Front([WAs], SpellTo(f.type_, [Dot] + rest)))) == Some(Got(RegroupedField(f), rest))
  {
    hide Front, Idents, ParseSpec, SpellTo, RegroupedSpec, Spellable, NameUpTo;
    DotIsStill(rest);
    TypeReads(f.type_, [Dot] + rest);
    NameBefore(f.name.value, WAs, SpellTo(f.type_, [Dot] + rest));
    DotOff(rest);
  }

  lemma BitFieldReads(f: Field, rest: Tokens)
    requires f.width.Some? && f.width.value <= LONG_MAX && !f.flexible && f.name != Some(WAs) && Spellable(f.type_)
    ensures ParseBitField(NameTo(f.name, Front([WAs],
              SpellTo(f.type_, Front([WWith], Front([WWidth], Size(f.width.value) + ([Dot] + rest))))))) ==
            Some(Got(RegroupedField(f), rest))
  {
    hide Front, Idents, ParseSpec, SpellTo, RegroupedSpec, Spellable, ParseFieldName;
    var size := Size(f.width.value) + ([Dot] + rest);
    var end := Front([WWith], Front([WWidth], size));
    assert Front([WWidth], size)[0] == Ident(WWidth);
    WithIsStill(Front([WWidth], size));
    TypeReads(f.type_, end);
    FieldNameReads(f.name, SpellTo(f.type_, end));
    WordOff(WAs, SpellTo(f.type_, end));
    WordOff(WWith, Front([WWidth], size));
    WordOff(WWidth, size);
    assert size[1..] == [Dot] + rest;
    DotOff(rest);
  }

  lemma FieldNameReads(name: Option<Name>, ts: Tokens)
    requires name != Some(WAs)
    ensures ParseFieldName(NameTo(name, Front([WAs], ts))) == Some(Got(name, Front([WAs], ts)))
  {
    if name.Some? { NameOff(name.value, Front([WAs], ts)); }
  }

  /** The words that close a record or an enumeration. */
  lemma EndAt(what: Word, ts: Tokens)
    ensures TwoAt(Front([WEnd, what], ts), 0, WEnd, what) && Front([WEnd, what], ts)[2..] == ts
  {
  }

  lemma FieldStarts(f: Field, rest: Tokens)
    ensures !WordAt(FieldTo(f, rest), 0, WEnd)
  {
    hide Front, Idents, SpellTo;
    if f.width.Some? {
      assert FieldTo(f, rest)[0] == Ident(WBit);
    } else {
      assert FieldTo(f, rest)[0] == Ident(if f.flexible then WFlexible else WField);
    }
  }

  lemma {:induction false} FieldsRead(what: Word, sofar: seq<Field>, fields: seq<Field>, rest: Tokens)
    requires forall i :: 0 <= i < |fields| ==> PrintableField(fields[i])
    ensures ParseFields(what, sofar, FieldsTo(fields, Front([WEnd, what], rest))) == Some(Got(sofar + RegroupedFields(fields), rest))
    decreases |fields|
  {
    hide Front, Idents, FieldTo, ParseField, PrintableField, RegroupedField;
    var end := Front([WEnd, what], rest);
    if fields == [] {
      EndAt(what, rest);
      assert sofar + [] == sofar;
    } else {
      var tail := FieldsTo(fields[1..], end);
      FieldReads(fields[0], tail);
      FieldStarts(fields[0], tail);
      FieldsRead(what, sofar + [RegroupedField(fields[0])], fields[1..], rest);
      assert sofar + [RegroupedField(fields[0])] + RegroupedFields(fields[1..]) == sofar + RegroupedFields(fields);
    }
  }

  lemma RecordReads(kind: TagKind, name: Name, fields: seq<Field>, rest: Tokens)
    requires forall i :: 0 <= i < |fields| ==> PrintableField(fields[i])
    ensures ParseRecord(kind, Front([name], [Colon] + FieldsTo(fields, Front([WEnd, TagWord(kind)], [Dot] + rest)))) ==
            Some(Got(Record(kind, name, RegroupedFields(fields)), rest))
  {
    hide Front, Idents, ParseFields, FieldsTo, PrintableField, RegroupedField, RegroupedFields;
    var body := FieldsTo(fields, Front([WEnd, TagWord(kind)], [Dot] + rest));
    NameOff(name, [Colon] + body);
    ColonOff(body);
    FieldsRead(TagWord(kind), [], fields, [Dot] + rest);
    assert [] + RegroupedFields(fields) == RegroupedFields(fields);
    DotOff(rest);
  }

  lemma ConstantReads(c: Constant, rest: Tokens)
    requires PrintableConstant(c)
    ensures ParseConstant(ConstantTo(c, rest)) == Some(Got(c, rest))
    ensures !WordAt(ConstantTo(c, rest), 0, WEnd)
  {
    hide Front, Idents, ParseConstantValue, NumberTo;
    var end := NumberTo(c.value, [Dot] + rest);
    NumberValueReads(c.value, rest);
    NameOff(c.name, end);
    WordOff(WEnumerator, Front([c.name], end));
    DotOff(rest);
  }

  lemma NumberValueReads(value: Option<int>, rest: Tokens)
    requires value.Some? ==> -LONG_MAX <= value.value <= LONG_MAX
    ensures ParseConstantValue(NumberTo(value, [Dot] + rest)) == Some(Got(value, [Dot] + rest))
  {
    hide Front, Idents;
    var dot := [Dot] + rest;
    if value.Some? {
      if value.value >= 0 {
        var size := Size(value.value) + dot;
        var all := Front([WAs], size);
        assert all[1..] == size && all[1] == size[0] && size[1..] == dot;
      } else {
        var size := Size(-value.value) + dot;
        MinusBehind(size);
        assert size[1..] == dot;
      }
    }
  }

  lemma MinusBehind(ts: Tokens)
    ensures var all := Front([WAs], Front([WMinus], ts)); WordAt(all, 0, WAs) && WordAt(all, 1, WMinus) && all[1..][1..] == ts
  {
    assert Front([WAs], Front([WMinus], ts))[1..] == Front([WMinus], ts);
  }

  lemma {:induction false} ConstantsRead(sofar: seq<Constant>, constants: seq<Constant>, rest: Tokens)
    requires forall i :: 0 <= i < |constants| ==> PrintableConstant(constants[i])
    ensures ParseConstants(sofar, ConstantsTo(constants, Front([WEnd, WEnumeration], rest))) == Some(Got(sofar + constants, rest))
    decreases |constants|
  {
    hide Front, Idents, ConstantTo, ParseConstant, PrintableConstant;
    var end := Front([WEnd, WEnumeration], rest);
    if constants == [] {
      EndAt(WEnumeration, rest);
      assert sofar + [] == sofar;
    } else {
      var tail := ConstantsTo(constants[1..], end);
      ConstantReads(constants[0], tail);
      ConstantsRead(sofar + [constants[0]], constants[1..], rest);
      assert sofar + [constants[0]] + constants[1..] == sofar + constants;
    }
  }

  lemma EnumerationReads(name: Name, constants: seq<Constant>, rest: Tokens)
    requires forall i :: 0 <= i < |constants| ==> PrintableConstant(constants[i])
    ensures ParseEnumeration(Front([name], [Colon] + ConstantsTo(constants, Front([WEnd, WEnumeration], [Dot] + rest)))) ==
            Some(Got(Enumerate(name, constants), rest))
  {
    hide Front, Idents, ParseConstants, ConstantsTo, PrintableConstant;
    var body := ConstantsTo(constants, Front([WEnd, WEnumeration], [Dot] + rest));
    NameOff(name, [Colon] + body);
    ColonOff(body);
    ConstantsRead([], constants, [Dot] + rest);
    assert [] + constants == constants;
    DotOff(rest);
  }

  // ----- blocks -----

  predicate StopWord(w: Word) { w == WEnd || w == WElse || w == WOtherwise || w == WElif || w == WWhen }

  lemma StopsAtWord(stop: Stop, ts: Tokens)
    requires StopsAt(stop, ts)
    ensures NameAt(ts, 0) && StopWord(ts[0].word)
  {
  }

  lemma VerbsDoNotStop(verb: Verb)
    requires VerbWords(verb) != []
    ensures !StopWord(VerbWords(verb)[0])
  {
  }

  /** No printed sentence looks like the end of a block. */
  lemma SentenceStarts(s: Sentence, rest: Tokens)
    requires s.Record? ==> !s.kind.EnumerationTag?
    ensures var ts := SentenceTo(s, rest); NameAt(ts, 0) ==> !StopWord(ts[0].word)
  {
    hide Front, Idents, PartsTo, BlockPartsTo, VerbWords, StopWord;
    if !s.Remark? && VerbOf(s).Some? {
      var verb := VerbOf(s).value;
      VerbsAreSpelled(s);
      VerbsDoNotStop(verb);
      assert SentenceTo(s, rest)[0] == Ident(VerbWords(verb)[0]);
    }
  }

  lemma VerbsAreSpelled(s: Sentence)
    requires VerbOf(s).Some? && !(s.Record? && s.kind.EnumerationTag?)
    ensures VerbWords(VerbOf(s).value) != []
  {
  }

  lemma {:induction false} SentencesRead(stop: Stop, sofar: seq<Sentence>, body: seq<Sentence>, rest: Tokens)
    requires PrintableBody(body) && StopsAt(stop, rest)
    ensures ParseSentences(stop, sofar, SentencesTo(body, rest)) == Some(Got(sofar + RegroupedBody(body), rest))
    decreases body, 0
  {
    hide ParseSentence, SentenceTo, StopsAt, RegroupedSentence, PrintableSentence;
    if body == [] {
      assert sofar + [] == sofar;
    } else {
      var tail := SentencesTo(body[1..], rest);
      var first := RegroupedSentence(body[0]);
      SentenceReads(false, body[0], tail);
      SentencesRead(stop, sofar + [first], body[1..], rest);
      RecordsAreNamed(false, body[0]);
      DoesNotStop(stop, body[0], tail);
      assert sofar + [first] + RegroupedBody(body[1..]) == sofar + RegroupedBody(body);
    }
  }

  lemma RecordsAreNamed(top: bool, s: Sentence)
    requires PrintableSentence(top, s)
    ensures s.Record? ==> !s.kind.EnumerationTag?
  {
  }

  lemma DoesNotStop(stop: Stop, s: Sentence, rest: Tokens)
    requires s.Record? ==> !s.kind.EnumerationTag?
    ensures !StopsAt(stop, SentenceTo(s, rest))
  {
    hide StopsAt, SentenceTo;
    SentenceStarts(s, rest);
    if StopsAt(stop, SentenceTo(s, rest)) { StopsAtWord(stop, SentenceTo(s, rest)); }
  }

  /** A block from its colon to the words that close it. */
  lemma {:induction false} BlockReads(body: seq<Sentence>, what: Word, other: Word, rest: Tokens)
    requires PrintableBody(body)
    ensures ParseBlock(what, other, ClosedBlockTo(body, what, rest)) == Some(Got(RegroupedBody(body), rest))
    decreases body, 1
  {
    hide ParseSentences, SentencesTo, PrintableSentence, Front, Idents;
    var end := Front([WEnd, what], [Dot] + rest);
    EndAt(what, [Dot] + rest);
    SentencesRead(EndOfEither(what, other), [], body, end);
    ColonOff(SentencesTo(body, end));
    assert [] + RegroupedBody(body) == RegroupedBody(body);
    DotOff(rest);
  }

  lemma {:induction false} RepeatReads(s: Sentence, rest: Tokens)
    requires s.Repeat? && Printable(s.count) && PrintableBody(s.body)
    ensures ParseRepeat(RepeatTo(s, rest)) == Some(Got(Repeat(Regrouped(s.count), RegroupedBody(s.body)), rest))
    decreases s, 2
  {
    hide ParseBlock, ParseExpr, PrintTo, SentencesTo, Regrouped, Printable, PrintableBody;
    BlockReads(s.body, WRepeat, WRepeat, rest);
    ExprColon(s.count, SentencesTo(s.body, Front([WEnd, WRepeat], [Dot] + rest)));
  }

  lemma {:induction false} WhileReads(s: Sentence, rest: Tokens)
    requires s.While? && Printable(s.condition) && PrintableBody(s.body)
    ensures ParseWhile(false, WhileTo(s, rest)) == Some(Got(While(Regrouped(s.condition), RegroupedBody(s.body)), rest))
    decreases s, 2
  {
    hide ParseBlock, ParseExpr, PrintTo, SentencesTo, Regrouped, Printable, PrintableBody;
    BlockReads(s.body, WWhile, WUntil, rest);
    ExprColon(s.condition, SentencesTo(s.body, Front([WEnd, WWhile], [Dot] + rest)));
  }

  lemma {:induction false} ForEachReads(s: Sentence, rest: Tokens)
    requires s.ForEach? && Printable(s.list) && PrintableBody(s.body)
    ensures ParseForEach(ForEachTo(s, rest)) == Some(Got(ForEach(s.name, Regrouped(s.list), RegroupedBody(s.body)), rest))
    decreases s, 2
  {
    hide ParseBlock, ParseExpr, PrintTo, SentencesTo, Regrouped, Printable, PrintableBody, NameUpTo, Front, Idents;
    BlockReads(s.body, WFor, WFor, rest);
    ExprColon(s.list, SentencesTo(s.body, Front([WEnd, WFor], [Dot] + rest)));
    NameBefore(s.name, WIn, PrintTo(s.list, ClosedBlockTo(s.body, WFor, rest)));
  }

  lemma {:induction false} ForReads(s: Sentence, rest: Tokens)
    requires s.For? && Printable(s.from) && Printable(s.to) && PrintableBody(s.body)
    ensures ParseFor(ForTo(s, rest)) ==
            Some(Got(For(s.name, Regrouped(s.from), Regrouped(s.to), s.descending, RegroupedBody(s.body)), rest))
    decreases s, 2
  {
    hide ParseBlock, ParseExpr, PrintTo, SentencesTo, Regrouped, Printable, PrintableBody, NameUpTo, Front, Idents, DownTo;
    BlockReads(s.body, WFor, WFor, rest);
    var limit := PrintTo(s.to, ClosedBlockTo(s.body, WFor, rest));
    ExprColon(s.to, SentencesTo(s.body, Front([WEnd, WFor], [Dot] + rest)));
    PrintedStarts(s.to, ClosedBlockTo(s.body, WFor, rest));
    DownToReads(s.descending, limit);
    FromReads(s.from, DownTo(s.descending, limit));
    NameBefore(s.name, WFrom, PrintTo(s.from, DownTo(s.descending, limit)));
  }

  lemma DownToReads(descending: bool, limit: Tokens)
    requires StartsExpr(limit)
    ensures var ts := DownTo(descending, limit);
            && Still(ts) && WordAt(ts, 0, WDown) == descending
            && ExpectWord(WTo, Past(descending, 1, ts)) == Some(limit)
  {
    hide Front, Idents;
    ToIsStill(limit);
    WordIsStill(WDown, Front([WTo], limit));
    WordOff(WTo, limit);
    assert Front([WDown], Front([WTo], limit))[0] == Ident(WDown) && Front([WTo], limit)[0] == Ident(WTo);
    assert Front([WDown], Front([WTo], limit))[1..] == Front([WTo], limit);
  }

  lemma FromReads(e: Expr, rest: Tokens)
    requires Printable(e) && Still(rest)
    ensures ParseExpr(PrintTo(e, rest)) == Some(Got(Regrouped(e), rest))
  {
    hide ParseLevel, PrintTo, Regrouped, Printable;
    ExprReads(OR_LEVEL, e, rest);
  }

  lemma {:induction false} DoWhileReads(s: Sentence, rest: Tokens)
    requires s.DoWhile? && Printable(s.condition) && PrintableBody(s.body)
    ensures ParseDoWhile(DoWhileTo(s, rest)) == Some(Got(DoWhile(RegroupedBody(s.body), Regrouped(s.condition)), rest))
    decreases s, 2
  {
    hide ParseSentences, EndingExpr, PrintTo, SentencesTo, Regrouped, Printable, PrintableBody, Front, Idents;
    var test := PrintTo(s.condition, [Dot] + rest);
    var end := Front([WEnd, WDo], Front([WWhile], test));
    EndAt(WDo, Front([WWhile], test));
    SentencesRead(EndOf(WDo), [], s.body, end);
    ColonOff(SentencesTo(s.body, end));
    assert [] + RegroupedBody(s.body) == RegroupedBody(s.body);
    WordOff(WWhile, test);
    ExprDot(s.condition, rest);
  }

  lemma {:induction false} IfReads(s: Sentence, rest: Tokens)
    requires s.If? && Printable(s.condition) && PrintableBody(s.yes) && PrintableBody(s.no)
    ensures ParseIf(false, IfTo(s, rest)) ==
            Some(Got(If(Regrouped(s.condition), RegroupedBody(s.yes), RegroupedBody(s.no)), rest))
    decreases s, 2
  {
    hide ParseSentences, ParseBlock, ParseUpTo, PrintTo, SentencesTo, ElseTo, Regrouped, Printable, PrintableBody, Front, Idents, StopsAt;
    var end := Front([WEnd, WIf], [Dot] + rest);
    var tail := ElseTo(s.no, end);
    EndAt(WIf, [Dot] + rest);
    ElseStops(s.no, end);
    SeparatorsAreStill(WThen, [Colon] + SentencesTo(s.yes, tail));
    ReadsUpTo(s.condition, WThen, [Colon] + SentencesTo(s.yes, tail));
    ColonOff(SentencesTo(s.yes, tail));
    SentencesRead(ElseOrEnd, [], s.yes, tail);
    assert [] + RegroupedBody(s.yes) == RegroupedBody(s.yes);
    DotOff(rest);
    if s.no != [] {
      BlockReads(s.no, WIf, WUnless, rest);
    }
  }

  lemma ElseStops(no: seq<Sentence>, end: Tokens)
    requires TwoAt(end, 0, WEnd, WIf)
    ensures StopsAt(ElseOrEnd, ElseTo(no, end)) && WordAt(ElseTo(no, end), 0, WElse) == (no != [])
    ensures if no != [] then ElseTo(no, end)[1..] == [Colon] + SentencesTo(no, end) else ElseTo(no, end) == end
  {
    hide SentencesTo;
  }

  // ----- clauses and branches -----

  lemma {:induction false} ClauseReads(c: Clause, rest: Tokens)
    requires PrintableClause(c) && StopsAt(ClauseEnd, rest)
    ensures ParseClause(ClauseTo(c, rest)) == Some(Got(RegroupedClause(c), rest))
    decreases c, 2
  {
    hide ParseSentences, ParseClauseHead, PrintTo, SentencesTo, Regrouped, Printable, PrintableBody, StopsAt, Front, Idents;
    var body := SentencesTo(c.body, rest);
    ClauseHeadReads(c, body);
    SentencesRead(ClauseEnd, [], c.body, rest);
    assert [] + RegroupedBody(c.body) == RegroupedBody(c.body);
  }

  lemma ClauseStarts(c: Clause, rest: Tokens)
    ensures StopsAt(ClauseEnd, ClauseTo(c, rest)) && !WordAt(ClauseTo(c, rest), 0, WEnd)
  {
    hide PrintTo, SentencesTo, Idents, Front;
    assert ClauseTo(c, rest)[0] == Ident(if c.value.Some? then WWhen else WOtherwise);
  }

  lemma ClauseHeadReads(c: Clause, body: Tokens)
    requires c.value.Some? ==> Printable(c.value.value)
    ensures ParseClauseHead(if c.value.Some? then Front([WWhen], PrintTo(c.value.value, [Colon] + body))
                            else Front([WOtherwise], [Colon] + body)) ==
            Some(Got(if c.value.Some? then Some(Regrouped(c.value.value)) else None, body))
  {
    hide ParseExpr, PrintTo, Regrouped, Printable, Front, Idents;
    ColonOff(body);
    if c.value.Some? {
      var ts := PrintTo(c.value.value, [Colon] + body);
      ExprColon(c.value.value, body);
      WordOff(WWhen, ts);
      assert Front([WWhen], ts)[0] == Ident(WWhen);
    } else {
      assert Front([WOtherwise], [Colon] + body)[0] == Ident(WOtherwise) && Front([WOtherwise], [Colon] + body)[1..] == [Colon] + body;
    }
  }

  lemma {:induction false} ClausesRead(sofar: seq<Clause>, clauses: seq<Clause>, rest: Tokens)
    requires PrintableClauses(clauses)
    ensures var end := Front([WEnd, WSwitch], rest);
            && ParseClauses(sofar, ClausesTo(clauses, end)) == Some(Got(sofar + RegroupedClauses(clauses), rest))
            && StopsAt(ClauseEnd, ClausesTo(clauses, end))
    decreases clauses, 1
  {
    hide ParseClause, ClauseTo, StopsAt, RegroupedClause, PrintableClause, Front, Idents;
    var end := Front([WEnd, WSwitch], rest);
    EndAt(WSwitch, rest);
    if clauses == [] {
      SwitchEndStops(end);
      assert sofar + [] == sofar;
    } else {
      var tail := ClausesTo(clauses[1..], end);
      var first := RegroupedClause(clauses[0]);
      ClausesRead(sofar + [first], clauses[1..], rest);
      ClauseReads(clauses[0], tail);
      ClauseStarts(clauses[0], tail);
      assert sofar + [first] + RegroupedClauses(clauses[1..]) == sofar + RegroupedClauses(clauses);
    }
  }

  lemma SwitchEndStops(end: Tokens)
    requires TwoAt(end, 0, WEnd, WSwitch)
    ensures StopsAt(ClauseEnd, end)
  {
  }

  lemma {:induction false} SwitchReads(s: Sentence, rest: Tokens)
    requires s.Switch? && Printable(s.subject) && s.clauses != [] && PrintableClauses(s.clauses)
    ensures ParseSwitch(SwitchTo(s, rest)) == Some(Got(Switch(Regrouped(s.subject), RegroupedClauses(s.clauses)), rest))
    decreases s, 2
  {
    hide ParseExpr, ParseClauses, PrintTo, ClausesTo, Regrouped, Printable, PrintableClauses, StopsAt, Front, Idents;
    var body := ClausesTo(s.clauses, Front([WEnd, WSwitch], [Dot] + rest));
    ExprColon(s.subject, body);
    ColonOff(body);
    ClausesRead([], s.clauses, [Dot] + rest);
    assert [] + RegroupedClauses(s.clauses) == RegroupedClauses(s.clauses);
    DotOff(rest);
  }

  lemma MacroReads(macro: Name, rest: Tokens)
    ensures ParseMacro(MacroTo(macro, rest)) == Some(Got(macro, rest))
  {
    hide Front, Idents, NameUpTo;
    NameBefore(macro, WIs, Front([WDefined], [Colon] + rest));
    WordOff(WDefined, [Colon] + rest);
    ColonOff(rest);
  }

  /** The words that close a compile-time conditional, and what may stand in front of them. */
  predicate Closes(end: Tokens) {
    StopsAt(CompileEnd, end)
  }

  predicate OpensOtherwise(ts: Tokens) { WordAt(ts, 0, WOtherwise) || Closes(ts) }

  lemma {:induction false} BranchesRead(sofar: seq<Branch>, branches: seq<Branch>, rest: Tokens)
    requires PrintableBranches(branches) && OpensOtherwise(rest)
    ensures ParseBranches(sofar, BranchesTo(branches, rest)) == Some(Got(sofar + RegroupedBranches(branches), rest))
    decreases branches, 1
  {
    hide ParseSentences, ParseMacro, MacroTo, SentencesTo, PrintableBody, Front, Idents, StopsAt, RegroupedBranch;
    if branches == [] {
      NoElif(rest);
      assert sofar + [] == sofar;
    } else {
      hide ParseBranches, OpensOtherwise;
      var first := RegroupedBranch(branches[0]);
      BranchRead(sofar, branches[0], BranchesTo(branches[1..], rest)) by { BranchesStop(branches[1..], rest); }
      BranchesRead(sofar + [first], branches[1..], rest);
      assert sofar + [first] + RegroupedBranches(branches[1..]) == sofar + RegroupedBranches(branches);
    }
  }

  lemma {:induction false} BranchRead(sofar: seq<Branch>, b: Branch, tail: Tokens)
    requires PrintableBody(b.body) && StopsAt(BranchEnd, tail)
    ensures ParseBranches(sofar, Front([WElif], MacroTo(b.macro, SentencesTo(b.body, tail)))) ==
            ParseBranches(sofar + [RegroupedBranch(b)], tail)
    decreases b, 0
  {
    hide ParseSentences, ParseMacro, ParseBranches, MacroTo, SentencesTo, PrintableBody, Front, Idents, StopsAt, RegroupedBody;
    var body := SentencesTo(b.body, tail);
    SentencesRead(BranchEnd, [], b.body, tail);
    assert [] + RegroupedBody(b.body) == RegroupedBody(b.body);
    MacroReads(b.macro, body);
    BranchStep(sofar, MacroTo(b.macro, body), Got(b.macro, body), Got(RegroupedBody(b.body), tail));
  }

  lemma BranchStep(sofar: seq<Branch>, ts: Tokens, macro: Got<Name>, body: Got<seq<Sentence>>)
    requires ParseMacro(ts) == Some(macro) && ParseSentences(BranchEnd, [], macro.rest) == Some(body)
    ensures ParseBranches(sofar, Front([WElif], ts)) == ParseBranches(sofar + [Branch(macro.value, body.value)], body.rest)
  {
    hide ParseSentences, ParseMacro, Front, Idents, StopsAt;
    ElifOff(ts);
  }

  lemma NoElif(ts: Tokens)
    requires OpensOtherwise(ts)
    ensures !WordAt(ts, 0, WElif) && StopsAt(BranchEnd, ts)
  {
  }

  lemma BranchesStop(branches: seq<Branch>, rest: Tokens)
    requires OpensOtherwise(rest)
    ensures StopsAt(BranchEnd, BranchesTo(branches, rest))
  {
    hide MacroTo, SentencesTo, Front, Idents, OpensOtherwise;
    if branches == [] {
      NoElif(rest);
    } else {
      ElifOff(MacroTo(branches[0].macro, SentencesTo(branches[0].body, BranchesTo(branches[1..], rest))));
    }
  }

  lemma ElifOff(ts: Tokens)
    ensures WordAt(Front([WElif], ts), 0, WElif) && Front([WElif], ts)[1..] == ts
  {
  }

  lemma {:induction false} OtherwiseReads(no: seq<Sentence>, end: Tokens)
    requires PrintableBody(no) && Closes(end)
    ensures ParseOtherwise(OtherwiseTo(no, end)) == Some(Got(RegroupedBody(no), end)) && OpensOtherwise(OtherwiseTo(no, end))
    decreases no, 2
  {
    hide ParseSentences, SentencesTo, PrintableBody, Front, Idents, RegroupedSentence;
    if no == [] {
      NoOtherwise(end);
    } else {
      hide ParseOtherwise, OpensOtherwise, Closes, StopsAt;
      var body := SentencesTo(no, end);
      SentencesRead(CompileEnd, [], no, end) by { CloseStops(end); }
      assert [] + RegroupedBody(no) == RegroupedBody(no);
      OtherwiseStep(body, Got(RegroupedBody(no), end));
    }
  }

  lemma CloseStops(end: Tokens)
    requires Closes(end)
    ensures StopsAt(CompileEnd, end)
  {
  }

  lemma NoOtherwise(end: Tokens)
    requires Closes(end)
    ensures !WordAt(end, 0, WOtherwise) && OpensOtherwise(end)
  {
  }

  lemma OtherwiseStep(body: Tokens, no: Got<seq<Sentence>>)
    requires ParseSentences(CompileEnd, [], body) == Some(no)
    ensures var ts := Front([WOtherwise], [Colon] + body); ParseOtherwise(ts) == Some(no) && OpensOtherwise(ts)
  {
    hide ParseSentences, Front, Idents;
    ColonOff(body);
    var ts := Front([WOtherwise], [Colon] + body);
    assert ts[0] == Ident(WOtherwise) && ts[1..] == [Colon] + body;
  }

  lemma CompileCloses(rest: Tokens)
    ensures var end := Front([WEnd, WCompile, WIf], rest);
            && Closes(end) && ExpectWord(WEnd, end).Some? && ExpectWord(WCompile, ExpectWord(WEnd, end).value).Some?
            && ExpectWord(WIf, ExpectWord(WCompile, ExpectWord(WEnd, end).value).value) == Some(rest)
  {
    var end := Front([WEnd, WCompile, WIf], rest);
    assert end[1..][1..][1..] == rest && end[1..][0] == Ident(WCompile) && end[1..][1..][0] == Ident(WIf);
  }

  lemma {:induction false} CompileIfReads(s: Sentence, rest: Tokens)
    requires s.CompileIf? && PrintableBody(s.yes) && PrintableBranches(s.branches) && PrintableBody(s.no)
    ensures ParseCompileIf(CompileIfTo(s, rest)) ==
            Some(Got(CompileIf(s.macro, RegroupedBody(s.yes), RegroupedBranches(s.branches), RegroupedBody(s.no)), rest))
    decreases s, 2
  {
    hide ParseSentences, ParseMacro, ParseBranches, ParseOtherwise, MacroTo, SentencesTo, BranchesTo, OtherwiseTo, PrintableBody,
         PrintableBranches, Closes, StopsAt, Front, Idents;
    var end := Front([WEnd, WCompile, WIf], [Dot] + rest);
    var third := OtherwiseTo(s.no, end);
    var second := BranchesTo(s.branches, third);
    CompileCloses([Dot] + rest);
    OtherwiseReads(s.no, end);
    BranchesRead([], s.branches, third);
    BranchesStop(s.branches, third);
    SentencesRead(BranchEnd, [], s.yes, second);
    MacroReads(s.macro, SentencesTo(s.yes, second));
    assert [] + RegroupedBody(s.yes) == RegroupedBody(s.yes) && [] + RegroupedBranches(s.branches) == RegroupedBranches(s.branches);
    DotOff(rest);
  }

  // ----- procedures -----

  lemma MarksRead(m: Marks, rest: Tokens)
    requires Text(m.message) && EndsPhrases(rest)
    ensures ParseMarks(NO_MARKS, MarksTo(m, rest)) == Some(Got(RegroupedMarks(m), rest))
  {
    hide Idents, Front, Literals.Alone, ParseMarks;
    var last := UnusedTo(m.unused, rest);
    var third := DeprecatedTo(m.deprecated, m.message, last);
    var second := NoReturnTo(m.noReturn, third);
    var m1 := NO_MARKS.(inline := m.inline);
    var m2 := m1.(noReturn := m.noReturn);
    var m3 := m2.(deprecated := m.deprecated, message := if m.deprecated then Reread(m.message) else "");
    InlineMark(m.inline, second);
    NoReturnMark(m1, m.noReturn, third);
    UnusedStarts(m.unused, rest);
    DeprecatedMark(m2, m.deprecated, m.message, last);
    UnusedMark(m3, m.unused, rest);
  }

  lemma InlineMark(inline: bool, rest: Tokens)
    ensures ParseMarks(NO_MARKS, InlineTo(inline, rest)) == ParseMarks(NO_MARKS.(inline := inline), rest)
  {
    hide Idents, Front;
    if inline {
      var all := Front([WWith, WInline], rest);
      assert all[0] == Ident(WWith) && all[1] == Ident(WInline) && all[2..] == rest;
    }
  }

  lemma NoReturnMark(m: Marks, noReturn: bool, rest: Tokens)
    requires !m.noReturn
    ensures ParseMarks(m, NoReturnTo(noReturn, rest)) == ParseMarks(m.(noReturn := noReturn), rest)
  {
    hide Idents, Front;
    if noReturn {
      var all := Front([WWith, WNo, WReturn], rest);
      assert all[0] == Ident(WWith) && all[1] == Ident(WNo) && all[2] == Ident(WReturn) && all[3..] == rest;
    }
  }

  lemma DeprecatedMark(m: Marks, deprecated: bool, message: string, rest: Tokens)
    requires Text(message) && !StrAt(rest, 0) && !m.deprecated && m.message == ""
    ensures ParseMarks(m, DeprecatedTo(deprecated, message, rest)) ==
            ParseMarks(m.(deprecated := deprecated, message := if deprecated then Reread(message) else ""), rest)
  {
    hide Idents, Front, Literals.Alone;
    Literals.AloneIff("");
    if deprecated {
      var tail := if message == "" then rest else [StringToken(message)] + rest;
      var all := Front([WWith, WDeprecated], tail);
      assert all[0] == Ident(WWith) && all[1] == Ident(WDeprecated) && all[2..] == tail;
      assert tail != [] ==> all[2] == tail[0];
      if message != "" { assert all[3..] == all[2..][1..] && tail[1..] == rest; }
    }
  }

  lemma UnusedMark(m: Marks, unused: bool, rest: Tokens)
    requires EndsPhrases(rest) && !m.unused
    ensures ParseMarks(m, UnusedTo(unused, rest)) == Some(Got(m.(unused := unused), rest))
  {
    hide Idents, Front;
    if unused {
      var all := Front([WWith, WMaybe, WUnused], rest);
      assert all[0] == Ident(WWith) && all[1] == Ident(WMaybe) && all[2] == Ident(WUnused) && all[3..] == rest;
    }
  }

  /** What may stand behind the header of a procedure. */
  predicate BehindParams(rest: Tokens) {
    HeaderEnds(rest) || VariadicAt(rest)
  }

  /** The flags that a list of parameters sets. */
  function Flagged(h: Header, params: seq<Param>): Header
    decreases |params|
  {
    if params == [] then h
    else Flagged(Header(h.params + [params[0]], h.typed || params[0].type_.Some?, h.untyped || params[0].type_.None?, false), params[1..])
  }

  predicate OneSort(typed: bool, params: seq<Param>) {
    forall i :: 0 <= i < |params| ==> params[i].type_.Some? == typed
  }

  /** What may stand behind a list of parameters. */
  predicate EndsParams(params: seq<Param>, rest: Tokens) {
    params != [] ==> (HeaderEnds(rest) && Quiet(rest)) || (VariadicAt(rest) && !OpenParam(params[|params| - 1]))
  }

  lemma {:induction false} ParametersRead(h: Header, typed: bool, params: seq<Param>, rest: Tokens)
    requires PrintableParams(params) && OneSort(typed, params) && !h.variadic && (if typed then !h.untyped else !h.typed)
    requires EndsParams(params, rest) && !ExactlyAt(rest, 0)
    ensures ParseProcedureParams(h, ParametersTo(params, rest)) == ParseProcedureParams(Flagged(h, RegroupedParams(params)), rest)
    decreases |params|
  {
    hide Front, Idents, ParamTo, ParseParam, Spellable, OpenParam, RegroupedParam, ExactlyAt, Quiet, HeaderEnds, VariadicAt;
    if params != [] {
      var tail := ParametersTo(params[1..], rest);
      var first := RegroupedParam(params[0]);
      var h' := Header(h.params + [first], h.typed || first.type_.Some?, h.untyped || first.type_.None?, false);
      NextStarts(params[1..], rest);
      if |params| == 1 { EndIsNoAs(params, rest); }
      ParamReads(params[0], tail);
      ParamStarts(params[0], tail);
      assert first.type_.Some? == typed by { RegroupedSort(params[0]); }
      if |params| > 1 { assert params[1..][|params| - 2] == params[|params| - 1]; }
      ParametersRead(h', typed, params[1..], rest);
      assert RegroupedParams(params) == [first] + RegroupedParams(params[1..]);
      assert RegroupedParams(params)[1..] == RegroupedParams(params[1..]);
    }
  }

  lemma EndIsNoAs(params: seq<Param>, rest: Tokens)
    requires params != [] && EndsParams(params, rest)
    ensures !WordAt(rest, 0, WAs) && (OpenParam(params[|params| - 1]) ==> Quiet(rest))
  {
    hide Quiet, OpenParam;
  }

  lemma RegroupedSort(p: Param)
    ensures RegroupedParam(p).type_.Some? == p.type_.Some?
  {
  }

  /** Behind a parameter stands another one's name, or what follows them all. */
  lemma NextStarts(params: seq<Param>, rest: Tokens)
    requires PrintableParams(params) && !ExactlyAt(rest, 0)
    ensures params != [] ==> Still(ParametersTo(params, rest)) && !WordAt(ParametersTo(params, rest), 0, WAs)
    ensures !ExactlyAt(ParametersTo(params, rest), 0)
  {
    hide Front, Idents, SpellTo, Spellable;
    if params != [] {
      var ts := ParametersTo(params, rest);
      assert ts[0] == Ident(params[0].name);
      NamedIsStill(ts);
    }
  }

  lemma NamedIsStill(ts: Tokens)
    requires NameAt(ts, 0) && ts[0].word.Named?
    ensures Still(ts) && !WordAt(ts, 0, WAs) && !HeaderEnds(ts) && !VariadicAt(ts)
  {
  }

  lemma ParamStarts(p: Param, rest: Tokens)
    requires p.name.Named?
    ensures !HeaderEnds(ParamTo(p, rest)) && !VariadicAt(ParamTo(p, rest))
  {
    hide Front, Idents, SpellTo;
    assert ParamTo(p, rest)[0] == Ident(p.name);
    NamedIsStill(ParamTo(p, rest));
  }

  lemma ParamReads(p: Param, rest: Tokens)
    requires (p.type_.Some? ==> Spellable(p.type_.value)) && !ExactlyAt(rest, 0)
    requires OpenParam(p) ==> Quiet(rest)
    requires p.type_.None? ==> !WordAt(rest, 0, WAs)
    ensures ParseParam(ParamTo(p, rest)) == Some(Got(RegroupedParam(p), rest))
  {
    hide Front, Idents, ParseSpec, SpellTo, RegroupedSpec, Spellable, ExactlyAt, Quiet;
    if p.type_.Some? {
      var ts := SpellTo(p.type_.value, rest);
      SpecReads(p.type_.value, rest);
      NameOff(p.name, Front([WAs], ts));
      WordOff(WAs, ts);
      assert Front([WAs], ts)[0] == Ident(WAs);
    } else {
      NameOff(p.name, rest);
    }
  }

  /** All of them together set the flags of the header. */
  lemma {:induction false} FlaggedIs(h: Header, typed: bool, params: seq<Param>)
    requires OneSort(typed, params) && params != [] && !h.variadic && (if typed then !h.untyped else !h.typed)
    ensures Flagged(h, params) == Header(h.params + params, typed, !typed, false)
    decreases |params|
  {
    var h' := Header(h.params + [params[0]], h.typed || params[0].type_.Some?, h.untyped || params[0].type_.None?, false);
    if |params| == 1 {
      assert Flagged(h', params[1..]) == h';
      assert [params[0]] == params;
    } else {
      FlaggedIs(h', typed, params[1..]);
      assert h.params + [params[0]] + params[1..] == h.params + params;
    }
  }

  lemma HeaderReads(h: Header, rest: Tokens)
    requires PrintableParams(h.params) && OneSort(h.typed, h.params) && (h.params == [] ==> !h.typed && !h.untyped && !h.variadic)
    requires h.params != [] ==> h.untyped == !h.typed
    requires h.variadic ==> h.params != [] && !OpenParam(h.params[|h.params| - 1])
    requires h.params == [] ==> !WordAt(rest, 0, WTakes)
    requires h.params != [] && !h.variadic ==> HeaderEnds(rest) && Still(rest)
    ensures ParseHeader(HeaderTo(h, rest)) == Some(Got(RegroupedHeader(h), rest))
  {
    hide Front, Idents, ParametersTo, ParseProcedureParams, PrintableParams, OpenParam, RegroupedParam, Quiet, ExactlyAt, HeaderEnds;
    if h.params == [] {
      assert RegroupedParams([]) == [];
    } else {
      var end := VariadicTo(h.variadic, rest);
      var ts := ParametersTo(h.params, end);
      if h.variadic { VariadicEnd(rest); }
      ParametersRead(NO_HEADER, h.typed, h.params, end);
      SortsKept(h.typed, h.params);
      FlaggedIs(NO_HEADER, h.typed, RegroupedParams(h.params));
      assert [] + RegroupedParams(h.params) == RegroupedParams(h.params);
      ParamsEnd(Header(RegroupedParams(h.params), h.typed, !h.typed, false), h.variadic, rest);
      TakesOff(ts);
    }
  }

  lemma TakesOff(ts: Tokens)
    ensures WordAt(Front([WTakes], ts), 0, WTakes) && Front([WTakes], ts)[1..] == ts
  {
  }

  lemma SortsKept(typed: bool, params: seq<Param>)
    requires OneSort(typed, params)
    ensures OneSort(typed, RegroupedParams(params))
  {
  }

  lemma VariadicEnd(rest: Tokens)
    ensures var end := VariadicTo(true, rest); VariadicAt(end) && !HeaderEnds(end) && !ExactlyAt(end, 0) && end[3..] == rest
  {
  }

  lemma ParamsEnd(h: Header, variadic: bool, rest: Tokens)
    requires !h.variadic && (!variadic ==> HeaderEnds(rest))
    ensures ParseProcedureParams(h, VariadicTo(variadic, rest)) == Some(Got(h.(variadic := variadic), rest))
  {
    hide Front, Idents;
    if variadic { VariadicEnd(rest); }
  }

  lemma ReturnsRead(returns_: Option<Spec>, rest: Tokens)
    requires (returns_.Some? ==> Spellable(returns_.value)) && Still(rest) && !WordAt(rest, 0, WReturns)
    ensures ParseReturns(ReturnsTo(returns_, rest)) == Some(Got(RegroupedReturns(returns_), rest))
  {
    hide Front, Idents, ParseSpec, SpellTo, RegroupedSpec, Spellable, Quiet;
    if returns_.Some? {
      var ts := SpellTo(returns_.value, rest);
      TypeReads(returns_.value, rest);
      assert Front([WReturns], ts)[0] == Ident(WReturns) && Front([WReturns], ts)[1..] == ts;
    }
  }

  /** What a procedure's header, result and marks stand in front of. */
  lemma MarksStart(m: Marks, body: Tokens)
    ensures var ts := MarksTo(m, [Colon] + body);
            Still(ts) && !WordAt(ts, 0, WReturns) && !WordAt(ts, 0, WTakes) && (m == NO_MARKS ==> HeaderEnds(ts))
  {
    hide Front, Idents;
    ColonIsStill(body);
    if m.inline {
      WithMark([WInline], NoReturnTo(m.noReturn, DeprecatedTo(m.deprecated, m.message, UnusedTo(m.unused, [Colon] + body))),
               [WWith, WInline]);
    } else if m.noReturn {
      WithMark([WNo, WReturn], DeprecatedTo(m.deprecated, m.message, UnusedTo(m.unused, [Colon] + body)), [WWith, WNo, WReturn]);
    } else if m.deprecated {
      var tail := UnusedTo(m.unused, [Colon] + body);
      WithMark([WDeprecated], if m.message == "" then tail else [StringToken(m.message)] + tail, [WWith, WDeprecated]);
    } else if m.unused {
      WithMark([WMaybe, WUnused], [Colon] + body, [WWith, WMaybe, WUnused]);
    }
  }

  lemma WithMark(words: seq<Word>, ts: Tokens, all: seq<Word>)
    requires words != [] && words[0] != WExactly && all == [WWith] + words
    ensures Still(Front(all, ts)) && WordAt(Front(all, ts), 0, WWith)
  {
    hide Idents;
    assert Front(all, ts)[0] == Ident(WWith) && Front(all, ts)[1] == Ident(words[0]);
  }

  lemma {:induction false} ProcedureReads(s: Sentence, rest: Tokens)
    requires s.Procedure? && PrintableProcedure(s.header, s.returns_, s.marks) && PrintableBody(s.body)
    ensures ParseProcedure(ProcedureTo(s, rest)) ==
            Some(Got(Procedure(s.name, RegroupedHeader(s.header), RegroupedReturns(s.returns_), RegroupedMarks(s.marks),
                               RegroupedBody(s.body)), rest))
    decreases s, 2
  {
    hide ParseBlock, ParseHeader, ParseReturns, ParseMarks, HeaderTo, ReturnsTo, MarksTo, SentencesTo, PrintableBody, Front, Idents,
         RegroupedMarks, RegroupedHeader, Spellable, Text, Quiet, HeaderEnds;
    var body := ClosedBlockTo(s.body, WProcedure, rest);
    var marks := MarksTo(s.marks, body);
    var result := ReturnsTo(s.returns_, marks);
    BlockReads(s.body, WProcedure, WProcedure, rest);
    ColonEnds(SentencesTo(s.body, Front([WEnd, WProcedure], [Dot] + rest)));
    MarksStart(s.marks, SentencesTo(s.body, Front([WEnd, WProcedure], [Dot] + rest)));
    MarksRead(s.marks, body);
    ReturnsRead(s.returns_, marks);
    ProcedureHead(s.header, s.returns_, s.marks, marks);
    NameOff(s.name, HeaderTo(s.header, result));
    HeaderKept(s.header);
  }

  lemma ColonEnds(ts: Tokens)
    ensures EndsPhrases([Colon] + ts)
  {
  }

  lemma HeaderKept(h: Header)
    ensures RegroupedHeader(h).typed == h.typed && RegroupedHeader(h).untyped == h.untyped
  {
  }

  lemma ProcedureHead(h: Header, returns_: Option<Spec>, m: Marks, rest: Tokens)
    requires PrintableProcedure(h, returns_, m) && Still(rest) && !WordAt(rest, 0, WTakes) && (m == NO_MARKS ==> HeaderEnds(rest))
    ensures ParseHeader(HeaderTo(h, ReturnsTo(returns_, rest))) == Some(Got(RegroupedHeader(h), ReturnsTo(returns_, rest)))
  {
    hide ParseHeader, HeaderTo, Front, Idents, SpellTo, RegroupedHeader, Quiet, ExactlyAt;
    var result := ReturnsTo(returns_, rest);
    if returns_.Some? {
      WordIsStill(WReturns, SpellTo(returns_.value, rest));
      assert result[0] == Ident(WReturns);
    }
    FlagsAgree(h, returns_, m);
    HeaderReads(h, result);
  }

  lemma FlagsAgree(h: Header, returns_: Option<Spec>, m: Marks)
    requires PrintableProcedure(h, returns_, m)
    ensures OneSort(h.typed, h.params) && (h.params == [] ==> !h.typed && !h.untyped && !h.variadic)
    ensures h.params != [] ==> h.untyped == !h.typed
  {
    hide PrintableParams, OpenParam, Spellable, Text;
    if h.params != [] {
      assert h.params[0].type_.Some? || h.params[0].type_.None?;
    }
  }

  // ----- sentences -----

  ghost predicate SimpleRead(verb: SimpleVerb, s: Sentence, rest: Tokens) {
    ParseSimple(verb, PartsTo(s, [Dot] + rest)) == Some(Got(RegroupedSentence(s), rest))
  }

  lemma SimpleReads(s: Sentence, rest: Tokens)
    requires PrintableSentence(true, s) && VerbOf(s).Some? && VerbOf(s).value.Blockless?
    ensures SimpleRead(VerbOf(s).value.it, s, rest)
  {
    hide SimpleRead, PrintableSentence;
    if s.Set? || s.StoreThrough? || s.StoreElement? || s.StoreMember? {
      SettingReads(s, rest);
    } else if s.AddTo? || s.SubtractFrom? || s.Append? {
      ChangingReads(s, rest);
    } else if s.ReplaceItem? || s.RemoveItem? {
      ItemReads(s, rest);
    } else if s.Declare? || s.Record? || s.Enumerate? {
      DefiningReads(s, rest);
    } else if s.Say? || s.CallName? || s.Return? || s.Warn? {
      ActingReads(s, rest);
    } else {
      ShortReads(s, rest);
    }
  }

  lemma DefiningReads(s: Sentence, rest: Tokens)
    requires PrintableSentence(true, s) && (s.Declare? || s.Record? || s.Enumerate?)
    ensures SimpleRead(VerbOf(s).value.it, s, rest)
  {
    hide SimpleRead, PrintableSentence;
    if s.Declare? { DeclaringReads(s, rest); } else if s.Record? { RecordsRead(s, rest); } else { EnumerationsRead(s, rest); }
  }

  lemma ActingReads(s: Sentence, rest: Tokens)
    requires PrintableSentence(true, s) && (s.Say? || s.CallName? || s.Return? || s.Warn?)
    ensures SimpleRead(VerbOf(s).value.it, s, rest)
  {
    hide SimpleRead, PrintableSentence;
    if s.Say? {
      SayingReads(s, rest);
    } else if s.CallName? {
      CallingReads(s, rest);
    } else if s.Return? {
      ReturningReads(s, rest);
    } else {
      WarningReads(s, rest);
    }
  }

  lemma ShortReads(s: Sentence, rest: Tokens)
    requires s.Read? || s.Label? || s.FinishCopy? || s.GoTo? || s.StartVariadic? || s.CopyVariadic?
             || s.Break? || s.Continue? || s.FinishVariadic?
    ensures SimpleRead(VerbOf(s).value.it, s, rest)
  {
    hide SimpleRead;
    if s.Read? || s.Label? || s.FinishCopy? {
      NamingReads(s, rest);
    } else if s.GoTo? || s.StartVariadic? || s.CopyVariadic? {
      TowardsReads(s, rest);
    } else {
      BareReads(s, rest);
    }
  }

  lemma SettingReads(s: Sentence, rest: Tokens)
    requires PrintableSentence(true, s) && (s.Set? || s.StoreThrough? || s.StoreElement? || s.StoreMember?)
    ensures SimpleRead(SetVerb, s, rest)
  {
    hide PrintTo, Front, Idents, ParseSet, Regrouped, Printable;
    match s
    case Set(name, value) => SetReads(name, value, rest);
    case StoreThrough(pointer, value) => ThroughReads(pointer, value, rest);
    case StoreElement(index, base, value) => ElementReads(index, base, value, rest);
    case StoreMember(member, base, value) => MemberReads(member, base, value, rest);
  }

  lemma ChangingReads(s: Sentence, rest: Tokens)
    requires PrintableSentence(true, s) && (s.AddTo? || s.SubtractFrom? || s.Append?)
    ensures SimpleRead(ChangeVerb(if s.AddTo? then Adding else if s.SubtractFrom? then Subtracting else Appending), s, rest)
  {
    hide PrintTo, Front, Idents, ParseChange, Regrouped, Printable;
    ChangeReads(if s.AddTo? then Adding else if s.SubtractFrom? then Subtracting else Appending, s.value, s.name, rest);
  }

  lemma ItemReads(s: Sentence, rest: Tokens)
    requires PrintableSentence(true, s) && (s.ReplaceItem? || s.RemoveItem?)
    ensures SimpleRead(if s.ReplaceItem? then ReplaceVerb else RemoveVerb, s, rest)
  {
    hide PrintTo, Front, Idents, ParseReplace, ParseRemove, Regrouped, Printable;
    if s.ReplaceItem? { ReplaceReads(s.index, s.name, s.value, rest); } else { RemoveReads(s.index, s.name, rest); }
  }

  lemma SayingReads(s: Sentence, rest: Tokens)
    requires PrintableSentence(true, s) && s.Say?
    ensures SimpleRead(SayVerb, s, rest)
  {
    hide ItemsTo, ParseSay, RegroupedAll, AllPrintable;
    SayReads(s.items, rest);
  }

  lemma CallingReads(s: Sentence, rest: Tokens)
    requires PrintableSentence(true, s) && s.CallName?
    ensures SimpleRead(CallVerb, s, rest)
  {
    hide ParseSay, ParseSet, ParseDeclare, ParseRecord, ParseEnumeration, ParseDefine, ParseChange, ParseReplace, ParseRemove,
         ParseCallSentence, ParseReturn, ParseStaticAssert, ParseImport, EndingName, EndingExpr, EndingText, Ended, PrintTo,
         ItemsTo, ArgsTo, SpellTo, TraitsTo, StartTo, FieldsTo, ConstantsTo, Front, Idents, StringToken, Regrouped,
         RegroupedAll, RegroupedSpec, RegroupedTraits, RegroupedStart, RegroupedFields, RegroupedBody, RegroupedBranches,
         RegroupedClauses, RegroupedHeader, RegroupedReturns, RegroupedMarks, Reread;
    CallNameReads(s.name, s.items, rest);
  }

  lemma ReturningReads(s: Sentence, rest: Tokens)
    requires PrintableSentence(true, s) && s.Return?
    ensures SimpleRead(ReturnVerb, s, rest)
  {
    hide PrintTo, ParseReturn, Regrouped, Printable;
    ReturnReads(s.result, rest);
  }

  lemma DeclaringReads(s: Sentence, rest: Tokens)
    requires PrintableSentence(true, s) && s.Declare?
    ensures SimpleRead(DeclareVerb, s, rest)
  {
    hide ParseDeclare, PartsTo, RegroupedSentence;
    DeclareReads(s, rest);
  }

  lemma RecordsRead(s: Sentence, rest: Tokens)
    requires PrintableSentence(true, s) && s.Record?
    ensures SimpleRead(RecordVerb(s.kind), s, rest)
  {
    hide ParseRecord, FieldsTo, Front, Idents, PrintableField, RegroupedFields;
    RecordReads(s.kind, s.name, s.fields, rest);
  }

  lemma EnumerationsRead(s: Sentence, rest: Tokens)
    requires PrintableSentence(true, s) && s.Enumerate?
    ensures SimpleRead(EnumerationVerb, s, rest)
  {
    hide ParseEnumeration, ConstantsTo, Front, Idents, PrintableConstant;
    EnumerationReads(s.name, s.constants, rest);
  }

  lemma NamingReads(s: Sentence, rest: Tokens)
    requires s.Read? || s.Label? || s.FinishCopy?
    ensures SimpleRead(if s.Read? then ReadVerb(s.asDecimal) else if s.Label? then LabelVerb else FinishCopyVerb, s, rest)
  {
    hide ParseSay, ParseSet, ParseDeclare, ParseRecord, ParseEnumeration, ParseDefine, ParseChange, ParseReplace, ParseRemove,
         ParseCallSentence, ParseReturn, ParseStaticAssert, ParseImport, EndingName, EndingExpr, EndingText, Ended, PrintTo,
         ItemsTo, ArgsTo, SpellTo, TraitsTo, StartTo, FieldsTo, ConstantsTo, Front, Idents, StringToken, Regrouped,
         RegroupedAll, RegroupedSpec, RegroupedTraits, RegroupedStart, RegroupedFields, RegroupedBody, RegroupedBranches,
         RegroupedClauses, RegroupedHeader, RegroupedReturns, RegroupedMarks, Reread;
    NameDot(s.name, rest);
  }

  lemma WarningReads(s: Sentence, rest: Tokens)
    requires PrintableSentence(true, s) && s.Warn?
    ensures SimpleRead(WarnVerb, s, rest)
  {
    hide ParseSay, ParseSet, ParseDeclare, ParseRecord, ParseEnumeration, ParseDefine, ParseChange, ParseReplace, ParseRemove,
         ParseCallSentence, ParseReturn, ParseStaticAssert, ParseImport, EndingName, EndingExpr, EndingText, Ended, PrintTo,
         ItemsTo, ArgsTo, SpellTo, TraitsTo, StartTo, FieldsTo, ConstantsTo, Front, Idents, StringToken, Regrouped,
         RegroupedAll, RegroupedSpec, RegroupedTraits, RegroupedStart, RegroupedFields, RegroupedBody, RegroupedBranches,
         RegroupedClauses, RegroupedHeader, RegroupedReturns, RegroupedMarks, Reread;
    TextDot(s.message, rest);
  }

  lemma TowardsReads(s: Sentence, rest: Tokens)
    requires s.GoTo? || s.StartVariadic? || s.CopyVariadic?
    ensures SimpleRead(if s.GoTo? then GoVerb else if s.StartVariadic? then StartVerb else CopyVerb, s, rest)
  {
    hide ParseSimple, PartsTo, RegroupedSentence;
    if s.GoTo? { GoToReads(s, rest); } else if s.StartVariadic? { StartVariadicReads(s, rest); } else { CopyReads(s, rest); }
  }

  lemma GoToReads(s: Sentence, rest: Tokens)
    requires s.GoTo?
    ensures ParseSimple(GoVerb, PartsTo(s, [Dot] + rest)) == Some(Got(RegroupedSentence(s), rest))
  {
    hide ParseSay, ParseSet, ParseDeclare, ParseRecord, ParseEnumeration, ParseDefine, ParseChange, ParseReplace, ParseRemove,
         ParseCallSentence, ParseReturn, ParseStaticAssert, ParseImport, EndingName, EndingExpr, EndingText, Ended, PrintTo,
         ItemsTo, ArgsTo, SpellTo, TraitsTo, StartTo, FieldsTo, ConstantsTo, Front, Idents, StringToken, Regrouped,
         RegroupedAll, RegroupedSpec, RegroupedTraits, RegroupedStart, RegroupedFields, RegroupedBody, RegroupedBranches,
         RegroupedClauses, RegroupedHeader, RegroupedReturns, RegroupedMarks, Reread;
    NameDot(s.name, rest);
    WordOff(WTo, Front([s.name], [Dot] + rest));
  }

  lemma StartVariadicReads(s: Sentence, rest: Tokens)
    requires s.StartVariadic?
    ensures ParseSimple(StartVerb, PartsTo(s, [Dot] + rest)) == Some(Got(RegroupedSentence(s), rest))
  {
    hide ParseSay, ParseSet, ParseDeclare, ParseRecord, ParseEnumeration, ParseDefine, ParseChange, ParseReplace, ParseRemove,
         ParseCallSentence, ParseReturn, ParseStaticAssert, ParseImport, EndingName, EndingExpr, EndingText, Ended, PrintTo,
         ItemsTo, ArgsTo, SpellTo, TraitsTo, StartTo, FieldsTo, ConstantsTo, Front, Idents, StringToken, Regrouped,
         RegroupedAll, RegroupedSpec, RegroupedTraits, RegroupedStart, RegroupedFields, RegroupedBody, RegroupedBranches,
         RegroupedClauses, RegroupedHeader, RegroupedReturns, RegroupedMarks, Reread;
    NameDot(s.last, rest);
    WordOff(WAfter, Front([s.last], [Dot] + rest));
  }

  lemma CopyReads(s: Sentence, rest: Tokens)
    requires s.CopyVariadic?
    ensures ParseSimple(CopyVerb, PartsTo(s, [Dot] + rest)) == Some(Got(RegroupedSentence(s), rest))
  {
    hide ParseSay, ParseSet, ParseDeclare, ParseRecord, ParseEnumeration, ParseDefine, ParseChange, ParseReplace, ParseRemove,
         ParseCallSentence, ParseReturn, ParseStaticAssert, ParseImport, EndingName, EndingExpr, EndingText, Ended, PrintTo,
         ItemsTo, ArgsTo, SpellTo, TraitsTo, StartTo, FieldsTo, ConstantsTo, Front, Idents, StringToken, Regrouped,
         RegroupedAll, RegroupedSpec, RegroupedTraits, RegroupedStart, RegroupedFields, RegroupedBody, RegroupedBranches,
         RegroupedClauses, RegroupedHeader, RegroupedReturns, RegroupedMarks, Reread;
    NameDot(s.name, rest);
    WordOff(WTo, Front([s.name], [Dot] + rest));
  }

  lemma BareReads(s: Sentence, rest: Tokens)
    requires s.Break? || s.Continue? || s.FinishVariadic?
    ensures SimpleRead(if s.Break? then BreakVerb else if s.Continue? then ContinueVerb else FinishVerb, s, rest)
  {
    hide ParseSay, ParseSet, ParseDeclare, ParseRecord, ParseEnumeration, ParseDefine, ParseChange, ParseReplace, ParseRemove,
         ParseCallSentence, ParseReturn, ParseStaticAssert, ParseImport, EndingName, EndingExpr, EndingText, PrintTo, ItemsTo,
         ArgsTo, SpellTo, TraitsTo, StartTo, FieldsTo, ConstantsTo, Front, Idents, StringToken, Regrouped, RegroupedAll,
         RegroupedSpec, RegroupedTraits, RegroupedStart, RegroupedFields, RegroupedBody, RegroupedBranches, RegroupedClauses,
         RegroupedHeader, RegroupedReturns, RegroupedMarks, Reread;
    DotOff(rest);
  }

  ghost predicate BlockRead(verb: Verb, s: Sentence, rest: Tokens) {
    ParseVerb(verb, BlockPartsTo(s, rest)) == Some(Got(RegroupedSentence(s), rest))
  }

  lemma {:induction false} BlockPartsRead(s: Sentence, rest: Tokens)
    requires PrintableSentence(false, s) && VerbOf(s).Some? && !VerbOf(s).value.Blockless?
    ensures BlockRead(VerbOf(s).value, s, rest)
    decreases s, 4
  {
    hide BlockRead, PrintableSentence;
    if s.Repeat? || s.While? || s.DoWhile? || s.ForEach? || s.For? { LoopsRead(s, rest); } else { ChoicesRead(s, rest); }
  }

  lemma {:induction false} LoopsRead(s: Sentence, rest: Tokens)
    requires PrintableSentence(false, s) && (s.Repeat? || s.While? || s.DoWhile? || s.ForEach? || s.For?)
    ensures BlockRead(VerbOf(s).value, s, rest)
    decreases s, 3
  {
    hide ParseRepeat, ParseIf, ParseCompileIf, ParseWhile, ParseDoWhile, ParseForEach, ParseFor, ParseSwitch, ParseProcedure,
         RepeatTo, IfTo, CompileIfTo, WhileTo, DoWhileTo, ForEachTo, ForTo, SwitchTo, ProcedureTo, Printable, PrintableBody,
         Regrouped, RegroupedBody;
    if s.Repeat? {
      RepeatReads(s, rest);
    } else if s.While? {
      WhileReads(s, rest);
    } else if s.DoWhile? {
      DoWhileReads(s, rest);
    } else if s.For? {
      ForReads(s, rest);
    } else {
      ForEachReads(s, rest);
    }
  }

  lemma {:induction false} ChoicesRead(s: Sentence, rest: Tokens)
    requires PrintableSentence(false, s) && (s.If? || s.Switch? || s.CompileIf? || s.Procedure?)
    ensures BlockRead(VerbOf(s).value, s, rest)
    decreases s, 3
  {
    hide ParseRepeat, ParseIf, ParseCompileIf, ParseWhile, ParseDoWhile, ParseForEach, ParseFor, ParseSwitch, ParseProcedure,
         RepeatTo, IfTo, CompileIfTo, WhileTo, DoWhileTo, ForEachTo, ForTo, SwitchTo, ProcedureTo, Printable, PrintableBody,
         PrintableBranches, PrintableClauses, PrintableProcedure, Regrouped, RegroupedBody, RegroupedClauses, RegroupedBranches,
         RegroupedHeader, RegroupedReturns, RegroupedMarks;
    if s.If? {
      IfReads(s, rest);
    } else if s.Switch? {
      SwitchReads(s, rest);
    } else if s.CompileIf? {
      CompileIfReads(s, rest);
    } else {
      ProcedureReads(s, rest);
    }
  }

  /** A printed sentence is read as its regrouped form, up to its dot. */
  lemma {:induction false} SentenceReads(top: bool, s: Sentence, rest: Tokens)
    requires PrintableSentence(top, s)
    ensures ParseSentence(top, SentenceTo(s, rest)) == Some(Got(RegroupedSentence(s), rest))
    decreases s, 5
  {
    hide ParseSentence, ParseVerb, ParseSimple, SentenceTo, PartsTo, BlockPartsTo, VerbWords, VerbStays, RegroupedSentence, Front, Idents,
         PrintableSentence, VerbOf;
    if s.Remark? {
      RemarkReads(top, rest);
    } else {
      VerbIsPrinted(top, s, rest);
      var verb := VerbOf(s).value;
      SentenceText(s, rest);
      if verb.Blockless? {
        TopIsMore(top, s);
        SimpleReads(s, rest);
        VerbReads(top, verb, PartsTo(s, [Dot] + rest));
        SimpleVerbReads(verb.it, PartsTo(s, [Dot] + rest));
      } else {
        BlockIsNested(top, s);
        BlockPartsRead(s, rest);
        VerbReads(top, verb, BlockPartsTo(s, rest));
      }
    }
  }

  lemma SentenceText(s: Sentence, rest: Tokens)
    requires !s.Remark? && VerbOf(s).Some?
    ensures SentenceTo(s, rest) ==
            Front(VerbWords(VerbOf(s).value), if VerbOf(s).value.Blockless? then PartsTo(s, [Dot] + rest) else BlockPartsTo(s, rest))
  {
    hide Front, Idents, VerbWords, VerbOf, PartsTo, BlockPartsTo;
  }

  lemma BlockIsNested(top: bool, s: Sentence)
    requires PrintableSentence(top, s) && VerbOf(s).Some? && !VerbOf(s).value.Blockless?
    ensures PrintableSentence(false, s)
  {
    hide PrintableSentence;
    TopIsMore(top, s);
  }

  lemma RemarkReads(top: bool, rest: Tokens)
    ensures ParseSentence(top, SentenceTo(Remark, rest)) == Some(Got(RegroupedSentence(Remark), rest))
  {
    hide ParseVerb, VerbAt, PartsTo, BlockPartsTo, VerbOf, VerbWords;
    assert ([Comment] + rest)[1..] == rest;
  }

  lemma SimpleVerbReads(verb: SimpleVerb, ts: Tokens)
    ensures ParseVerb(Blockless(verb), ts) == ParseSimple(verb, ts)
  {
    hide ParseSimple;
  }

  /** What is printable in a block is so at the top level; without a block it is the other way too,
      records and enumerations apart. */
  lemma TopIsMore(top: bool, s: Sentence)
    requires PrintableSentence(top, s)
    ensures PrintableSentence(true, s) && (!s.Record? && !s.Enumerate? ==> PrintableSentence(false, s))
  {
    hide Printable, PrintableBody, PrintableBranches, PrintableClauses, PrintableProcedure, PrintableField, PrintableConstant, AllPrintable;
  }

  lemma VerbIsPrinted(top: bool, s: Sentence, rest: Tokens)
    requires PrintableSentence(top, s) && !s.Remark?
    ensures VerbOf(s).Some? && VerbWords(VerbOf(s).value) != [] && (IsTopVerb(VerbOf(s).value) ==> top)
    ensures VerbStays(VerbOf(s).value, if VerbOf(s).value.Blockless? then PartsTo(s, [Dot] + rest) else BlockPartsTo(s, rest))
  {
    hide Front, Idents, PartsTo, BlockPartsTo, VerbWords, Printable, PrintableBody, PrintableBranches, PrintableClauses,
         PrintableProcedure, PrintableField, PrintableConstant, PrintableStart, AllPrintable, Spellable, Text;
    VerbsAreSpelled(s);
    if s.For? { ForStarts(s, rest); }
    if s.FinishVariadic? { FinishStarts(rest); }
  }

  lemma ForStarts(s: Sentence, rest: Tokens)
    requires s.For? && s.name != WEach
    ensures !WordAt(BlockPartsTo(s, rest), 0, WEach)
  {
    hide Front, Idents, PrintTo, ClosedBlockTo, DownTo;
    assert BlockPartsTo(s, rest) == ForTo(s, rest);
    assert BlockPartsTo(s, rest)[0] == Ident(s.name);
  }

  lemma FinishStarts(rest: Tokens)
    ensures !WordAt(PartsTo(FinishVariadic, [Dot] + rest), 0, WCopy)
  {
  }

  // ----- programs -----

  predicate PrintableProgram(program: seq<Sentence>) {
    forall i :: 0 <= i < |program| ==> PrintableSentence(true, program[i])
  }

  lemma {:induction false} ProgramReads(sofar: seq<Sentence>, program: seq<Sentence>)
    requires PrintableProgram(program)
    ensures ParseProgram(sofar, SentencesTo(program, [])) == Some(sofar + RegroupedBody(program))
    decreases |program|
  {
    hide ParseSentence, SentenceTo, PrintableSentence, RegroupedSentence;
    if program == [] {
      assert sofar + [] == sofar;
    } else {
      var tail := SentencesTo(program[1..], []);
      var first := RegroupedSentence(program[0]);
      SentenceReads(true, program[0], tail);
      assert SentenceTo(program[0], tail) != [];
      ProgramReads(sofar + [first], program[1..]);
      assert sofar + [first] + RegroupedBody(program[1..]) == sofar + RegroupedBody(program);
    }
  }

  // ----- when a program comes back -----

  predicate AllClosed(es: seq<Expr>) { forall i :: 0 <= i < |es| ==> Closed(es[i]) }

  predicate ClosedSentence(s: Sentence) {
    match s
    case Say(items) => AllClosed(items)
    case Set(_, value) => Closed(value)
    case StoreThrough(pointer, value) => Closed(pointer) && Closed(value)
    case StoreElement(index, base, value) => Closed(index) && Closed(base) && Closed(value)
    case StoreMember(_, base, value) => Closed(base) && Closed(value)
    case Declare(_, traits, threadLocal, constexpr, type_, start) =>
      ClosedTraits(traits) && !threadLocal && !constexpr && ClosedSpec(type_) && ClosedStart(start)
    case Record(_, _, fields) => forall i :: 0 <= i < |fields| ==> ClosedSpec(fields[i].type_)
    case AddTo(value, _) => Closed(value)
    case SubtractFrom(value, _) => Closed(value)
    case Append(value, _) => Closed(value)
    case ReplaceItem(index, _, value) => Closed(index) && Closed(value)
    case RemoveItem(index, _) => Closed(index)
    case Warn(message) => Literals.Plain(message)
    case CallName(_, items) => AllClosed(items)
    case Return(result) => result.Some? ==> Closed(result.value)
    case Repeat(count, body) => Closed(count) && ClosedBody(body)
    case If(condition, yes, no) => Closed(condition) && ClosedBody(yes) && ClosedBody(no)
    case CompileIf(_, yes, branches, no) => ClosedBody(yes) && ClosedBranches(branches) && ClosedBody(no)
    case While(condition, body) => Closed(condition) && ClosedBody(body)
    case DoWhile(body, condition) => ClosedBody(body) && Closed(condition)
    case ForEach(_, list, body) => Closed(list) && ClosedBody(body)
    case For(_, from, to, _, body) => Closed(from) && Closed(to) && ClosedBody(body)
    case Switch(subject, clauses) => Closed(subject) && ClosedClauses(clauses)
    case Procedure(_, header, returns_, marks, body) =>
      && ClosedParams(header.params) && ClosedReturns(returns_) && ClosedMessage(marks.deprecated, marks.message)
      && ClosedBody(body)
    case _ => true
  }

  predicate ClosedBody(body: seq<Sentence>) { forall i :: 0 <= i < |body| ==> ClosedSentence(body[i]) }

  predicate ClosedBranches(branches: seq<Branch>) { forall i :: 0 <= i < |branches| ==> ClosedBody(branches[i].body) }

  predicate ClosedClauses(clauses: seq<Clause>) { forall i :: 0 <= i < |clauses| ==> ClosedClause(clauses[i]) }

  predicate ClosedClause(c: Clause) { (c.value.Some? ==> Closed(c.value.value)) && ClosedBody(c.body) }

  predicate ClosedMessage(deprecated: bool, message: string) {
    if deprecated then Literals.Plain(message) else message == ""
  }

  /** None of the storage phrases that the printer drops. */
  predicate ClosedTraits(t: Traits) {
    t.alignment.None? && !t.internal && !t.external && !t.static_ && ClosedMessage(t.deprecated, t.message)
  }

  predicate ClosedStart(start: Start) {
    match start
    case Unset => true
    case Given(value) => Closed(value)
    case Block(block) => ClosedAggregate(block)
  }

  predicate ClosedAggregate(block: Aggregate) {
    block.Listed? ==> forall i :: 0 <= i < |block.entries| ==> ClosedPart(block.entries[i].content)
  }

  predicate ClosedPart(content: Content) {
    match content
    case Value(e) => Closed(e)
    case Nested(block) => ClosedAggregate(block)
  }

  predicate ClosedReturns(returns_: Option<Spec>) { returns_.Some? ==> ClosedSpec(returns_.value) }

  predicate ClosedParams(params: seq<Param>) { forall i :: 0 <= i < |params| ==> ClosedReturns(params[i].type_) }

  predicate Same(s: Sentence) { RegroupedSentence(s) == s <==> ClosedSentence(s) }

  lemma ExprIff(e: Expr)
    requires Printable(e)
    ensures Regrouped(e) == e <==> Closed(e)
  {
    hide Printable, Regrouped, Closed;
    RegroupedIff(e);
    assert Agrees(e);
  }

  lemma TypeIff(t: Spec)
    requires Spellable(t)
    ensures RegroupedSpec(t) == t <==> ClosedSpec(t)
  {
    hide Spellable, RegroupedSpec, ClosedSpec;
    SpecIff(t);
    assert SpecAgrees(t);
  }

  lemma AllIff(es: seq<Expr>)
    requires AllPrintable(es)
    ensures RegroupedAll(es) == es <==> AllClosed(es)
  {
    RegroupedAllIff(es);
  }

  lemma MessageIff(message: string)
    requires Text(message)
    ensures Reread(message) == message <==> Literals.Plain(message)
  {
    Literals.AloneIff(message);
  }

  lemma {:induction false} AggregateIff(block: Aggregate)
    requires PrintableAggregate(block)
    ensures RegroupedAggregate(block) == block <==> ClosedAggregate(block)
    decreases block
  {
    if block.Listed? {
      forall i | 0 <= i < |block.entries|
        ensures RegroupedPart(block.entries[i]) == block.entries[i] <==> ClosedPart(block.entries[i].content)
      {
        assert block.entries[i] < block && PrintablePartEntry(block.kind, block.entries[i]);
        PartIff(block.entries[i].content);
      }
      var r := RegroupedParts(block.entries);
      if ClosedAggregate(block) { assert r == block.entries; }
    }
  }

  lemma {:induction false} PartIff(content: Content)
    requires PrintablePart(content)
    ensures RegroupedPartContent(content) == content <==> ClosedPart(content)
    decreases content
  {
    match content
    case Value(e) => ExprIff(e);
    case Nested(block) => AggregateIff(block);
  }

  lemma StartIff(start: Start)
    requires PrintableStart(start)
    ensures RegroupedStart(start) == start <==> ClosedStart(start)
  {
    hide Regrouped, Closed, RegroupedAggregate, ClosedAggregate, Printable, PrintableAggregate;
    match start
    case Unset =>
    case Given(value) => ExprIff(value);
    case Block(block) => AggregateIff(block);
  }

  lemma TraitsIff(t: Traits)
    requires Text(t.message)
    ensures RegroupedTraits(t) == t <==> ClosedTraits(t)
  {
    hide Reread, Text;
    MessageIff(t.message);
  }

  lemma FieldsIff(fields: seq<Field>)
    requires forall i :: 0 <= i < |fields| ==> PrintableField(fields[i])
    ensures RegroupedFields(fields) == fields <==> forall i :: 0 <= i < |fields| ==> ClosedSpec(fields[i].type_)
  {
    hide RegroupedSpec, ClosedSpec, Spellable;
    forall i | 0 <= i < |fields| ensures RegroupedField(fields[i]) == fields[i] <==> ClosedSpec(fields[i].type_) {
      TypeIff(fields[i].type_);
    }
    var r := RegroupedFields(fields);
    if forall i :: 0 <= i < |fields| ==> ClosedSpec(fields[i].type_) { assert r == fields; }
  }

  lemma ParamsIff(params: seq<Param>)
    requires PrintableParams(params)
    ensures RegroupedParams(params) == params <==> ClosedParams(params)
  {
    hide RegroupedSpec, ClosedSpec, Spellable;
    forall i | 0 <= i < |params| ensures RegroupedParam(params[i]) == params[i] <==> ClosedReturns(params[i].type_) {
      if params[i].type_.Some? { TypeIff(params[i].type_.value); }
    }
    var r := RegroupedParams(params);
    if ClosedParams(params) { assert r == params; }
  }

  // ----- sentence by sentence -----

  lemma SettingSame(s: Sentence)
    requires PrintableSentence(true, s) && (s.Set? || s.StoreThrough? || s.StoreElement? || s.StoreMember?)
    ensures Same(s)
  {
    hide Regrouped, Closed, Printable;
    if s.StoreThrough? { ExprIff(s.pointer); }
    if s.StoreElement? { ExprIff(s.index); }
    if s.StoreElement? || s.StoreMember? { ExprIff(s.base); }
    ExprIff(s.value);
  }

  lemma ChangingSame(s: Sentence)
    requires PrintableSentence(true, s) && (s.AddTo? || s.SubtractFrom? || s.Append? || s.ReplaceItem? || s.RemoveItem?)
    ensures Same(s)
  {
    hide Regrouped, Closed, Printable;
    if s.ReplaceItem? || s.RemoveItem? { ExprIff(s.index); }
    if !s.RemoveItem? { ExprIff(s.value); }
  }

  lemma ActingSame(s: Sentence)
    requires PrintableSentence(true, s) && (s.Say? || s.CallName? || s.Return? || s.Warn?)
    ensures Same(s)
  {
    hide Regrouped, Closed, Printable, RegroupedAll, AllClosed, AllPrintable, Reread, Text;
    if s.Return? {
      if s.result.Some? { ExprIff(s.result.value); }
    } else if s.Warn? {
      MessageIff(s.message);
    } else {
      AllIff(s.items);
    }
  }

  lemma DefiningSame(s: Sentence)
    requires PrintableSentence(true, s) && (s.Declare? || s.Record?)
    ensures Same(s)
  {
    hide RegroupedSpec, ClosedSpec, Spellable, RegroupedTraits, ClosedTraits, RegroupedStart, ClosedStart, PrintableStart, Text,
         RegroupedFields, PrintableField;
    if s.Declare? {
      TraitsIff(s.traits);
      TypeIff(s.type_);
      StartIff(s.start);
      DeclarationKept(s);
    } else {
      FieldsIff(s.fields);
    }
  }

  lemma DeclarationKept(s: Sentence)
    requires s.Declare?
    ensures RegroupedSentence(s) == s <==>
              && RegroupedTraits(s.traits) == s.traits && !s.threadLocal && !s.constexpr
              && RegroupedSpec(s.type_) == s.type_ && RegroupedStart(s.start) == s.start
  {
    hide RegroupedSpec, RegroupedTraits, RegroupedStart;
  }

  lemma {:induction false} BodyIff(body: seq<Sentence>)
    requires PrintableBody(body)
    ensures RegroupedBody(body) == body <==> ClosedBody(body)
    decreases body, 0
  {
    hide RegroupedSentence, ClosedSentence, PrintableSentence;
    forall i | 0 <= i < |body| ensures RegroupedSentence(body[i]) == body[i] <==> ClosedSentence(body[i]) {
      SentenceIff(false, body[i]);
      assert Same(body[i]);
    }
    var r := RegroupedBody(body);
    if ClosedBody(body) { assert r == body; }
  }

  lemma {:induction false} BranchesIff(branches: seq<Branch>)
    requires PrintableBranches(branches)
    ensures RegroupedBranches(branches) == branches <==> ClosedBranches(branches)
    decreases branches, 1
  {
    hide RegroupedBody, ClosedBody, PrintableBody;
    forall i | 0 <= i < |branches| ensures RegroupedBranch(branches[i]) == branches[i] <==> ClosedBody(branches[i].body) {
      BodyIff(branches[i].body);
    }
    var r := RegroupedBranches(branches);
    if ClosedBranches(branches) { assert r == branches; }
  }

  lemma {:induction false} ClauseIff(c: Clause)
    requires PrintableClause(c)
    ensures RegroupedClause(c) == c <==> ClosedClause(c)
    decreases c, 1
  {
    hide Regrouped, Closed, Printable, RegroupedBody, ClosedBody, PrintableBody;
    BodyIff(c.body);
    if c.value.Some? { ExprIff(c.value.value); }
  }

  lemma {:induction false} ClausesIff(clauses: seq<Clause>)
    requires PrintableClauses(clauses)
    ensures RegroupedClauses(clauses) == clauses <==> ClosedClauses(clauses)
    decreases clauses, 2
  {
    hide RegroupedClause, ClosedClause, PrintableClause;
    forall i | 0 <= i < |clauses| ensures RegroupedClause(clauses[i]) == clauses[i] <==> ClosedClause(clauses[i]) {
      ClauseIff(clauses[i]);
    }
    var r := RegroupedClauses(clauses);
    if ClosedClauses(clauses) { assert r == clauses; }
  }

  lemma {:induction false} LoopSame(s: Sentence)
    requires PrintableSentence(false, s) && (s.Repeat? || s.While? || s.DoWhile? || s.ForEach? || s.For?)
    ensures Same(s)
    decreases s, 1
  {
    hide Regrouped, Closed, Printable, RegroupedBody, ClosedBody, PrintableBody;
    BodyIff(s.body);
    match s
    case Repeat(count, _) => ExprIff(count);
    case While(condition, _) => ExprIff(condition);
    case DoWhile(_, condition) => ExprIff(condition);
    case ForEach(_, list, _) => ExprIff(list);
    case For(_, from, to, _, _) => ExprIff(from); ExprIff(to);
  }

  lemma {:induction false} ChoiceSame(s: Sentence)
    requires PrintableSentence(false, s) && (s.If? || s.CompileIf? || s.Switch?)
    ensures Same(s)
    decreases s, 1
  {
    hide Regrouped, Closed, Printable, RegroupedBody, ClosedBody, PrintableBody, RegroupedBranches, ClosedBranches, PrintableBranches,
         RegroupedClauses, ClosedClauses, PrintableClauses;
    if s.If? {
      ExprIff(s.condition);
      BodyIff(s.yes);
      BodyIff(s.no);
    } else if s.CompileIf? {
      BodyIff(s.yes);
      BranchesIff(s.branches);
      BodyIff(s.no);
    } else {
      ExprIff(s.subject);
      ClausesIff(s.clauses);
    }
  }

  lemma {:induction false} ProcedureSame(s: Sentence)
    requires PrintableSentence(false, s) && s.Procedure?
    ensures Same(s)
    decreases s, 1
  {
    hide RegroupedBody, ClosedBody, PrintableBody, RegroupedParams, ClosedParams, PrintableParams, RegroupedSpec, ClosedSpec, Spellable,
         Reread, Text;
    BodyIff(s.body);
    ParamsIff(s.header.params);
    if s.returns_.Some? { TypeIff(s.returns_.value); }
    MessageIff(s.marks.message);
    ProcedureKept(s);
  }

  lemma ProcedureKept(s: Sentence)
    requires s.Procedure?
    ensures RegroupedSentence(s) == s <==>
              && RegroupedParams(s.header.params) == s.header.params && RegroupedReturns(s.returns_) == s.returns_
              && RegroupedMarks(s.marks) == s.marks && RegroupedBody(s.body) == s.body
  {
    hide RegroupedParams, RegroupedReturns, RegroupedMarks, RegroupedBody;
  }

  lemma OthersSame(s: Sentence)
    requires s.Remark? || s.Enumerate? || s.Read? || s.Break? || s.Continue? || s.GoTo? || s.Label? || s.StartVariadic?
             || s.FinishVariadic? || s.CopyVariadic? || s.FinishCopy?
    ensures Same(s)
  {
    hide Regrouped, RegroupedAll, RegroupedSpec, RegroupedTraits, RegroupedStart, RegroupedFields, RegroupedBody, RegroupedBranches,
         RegroupedClauses, RegroupedHeader, RegroupedReturns, RegroupedMarks, Reread, Closed, AllClosed, ClosedSpec, ClosedTraits,
         ClosedStart, ClosedBody, ClosedBranches, ClosedClauses, ClosedParams, ClosedReturns, ClosedMessage;
  }

  /** What is read is the sentence itself exactly when every part of it comes back and the printer
      drops no phrase of it. */
  lemma {:induction false} SentenceIff(top: bool, s: Sentence)
    requires PrintableSentence(top, s)
    ensures Same(s)
    decreases s, 2
  {
    hide Same, PrintableSentence;
    TopIsMore(top, s);
    if s.Set? || s.StoreThrough? || s.StoreElement? || s.StoreMember? {
      SettingSame(s);
    } else if s.AddTo? || s.SubtractFrom? || s.Append? || s.ReplaceItem? || s.RemoveItem? {
      ChangingSame(s);
    } else if s.Say? || s.CallName? || s.Return? || s.Warn? {
      ActingSame(s);
    } else if s.Declare? || s.Record? {
      DefiningSame(s);
    } else if s.Repeat? || s.While? || s.DoWhile? || s.ForEach? || s.For? {
      LoopSame(s);
    } else if s.If? || s.CompileIf? || s.Switch? {
      ChoiceSame(s);
    } else if s.Procedure? {
      ProcedureSame(s);
    } else {
      PrintedOthers(top, s);
      OthersSame(s);
    }
  }

  lemma PrintedOthers(top: bool, s: Sentence)
    requires PrintableSentence(top, s)
    requires !s.Set? && !s.StoreThrough? && !s.StoreElement? && !s.StoreMember? && !s.AddTo? && !s.SubtractFrom? && !s.Append?
    requires !s.ReplaceItem? && !s.RemoveItem? && !s.Say? && !s.CallName? && !s.Return? && !s.Warn? && !s.Declare? && !s.Record?
    requires !s.Repeat? && !s.While? && !s.DoWhile? && !s.ForEach? && !s.For? && !s.If? && !s.CompileIf? && !s.Switch? && !s.Procedure?
    ensures s.Remark? || s.Enumerate? || s.Read? || s.Break? || s.Continue? || s.GoTo? || s.Label? || s.StartVariadic?
            || s.FinishVariadic? || s.CopyVariadic? || s.FinishCopy?
  {
  }

  // ----- main results -----

  /** A printed sentence comes back, and the rest is untouched, exactly when it is closed. */
  lemma SentenceRoundTripIff(top: bool, s: Sentence, rest: Tokens)
    requires PrintableSentence(top, s)
    ensures ParseSentence(top, SentenceTo(s, rest)) == Some(Got(s, rest)) <==> ClosedSentence(s)
  {
    hide ParseSentence, SentenceTo, RegroupedSentence, ClosedSentence, PrintableSentence;
    SentenceReads(top, s, rest);
    SentenceIff(top, s);
    assert Same(s);
  }

  /** A printed program is read as its sentences regrouped, and comes back exactly when every one of
      them does. */
  lemma ProgramRoundTripIff(program: seq<Sentence>)
    requires PrintableProgram(program)
    ensures ParseProgram([], SentencesTo(program, [])) == Some(RegroupedBody(program))
    ensures ParseProgram([], SentencesTo(program, [])) == Some(program) <==> ClosedBody(program)
  {
    hide ParseProgram, SentencesTo, RegroupedSentence, ClosedSentence, PrintableSentence;
    ProgramReads([], program);
    assert [] + RegroupedBody(program) == RegroupedBody(program);
    forall i | 0 <= i < |program| ensures RegroupedSentence(program[i]) == program[i] <==> ClosedSentence(program[i]) {
      SentenceIff(true, program[i]);
      assert Same(program[i]);
    }
    var r := RegroupedBody(program);
    if ClosedBody(program) { assert r == program; }
  }

  /** Sentences the printer does not know are unreadable. */
  lemma UnknownSentence(top: bool, s: Sentence, rest: Tokens)
    requires !s.Remark? && VerbOf(s).None?
    ensures ParseSentence(top, SentenceTo(s, rest)) == None
  {
    hide VerbOf;
    assert SentenceTo(s, rest) == [Garbled] + rest;
    assert VerbAt(top, [Garbled] + rest) == None;
  }

  /** Variable arguments without a parameter in front of them are printed without "takes". */
  lemma VariadicAloneIsUnreadable(s: Sentence, rest: Tokens)
    requires s.Procedure? && s.header.params == [] && s.header.variadic
    ensures ParseProcedure(ProcedureTo(s, rest)) == None
  {
    hide Front, Idents, SpellTo, SentencesTo;
    var end := ReturnsTo(s.returns_, MarksTo(s.marks, ClosedBlockTo(s.body, WProcedure, rest)));
    var ts := Front([WAnd, WVariadic, WParameters], end);
    assert HeaderTo(s.header, end) == ts && ts[0] == Ident(WAnd);
    NameOff(s.name, ts);
  }
}
