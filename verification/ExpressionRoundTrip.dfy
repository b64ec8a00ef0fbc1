/** What the parser makes of a printed expression and of a printed type.

    Every printed form is a primary: operators come with their own parentheses.  There are two
    exceptions.  A Choose, or the length of an array type, takes whatever operator follows it into
    its last operand, and a type at the end may be continued by "with exactly N bits". */
module ExpressionRoundTrip {
  import opened Options
  import opened Primitives
  import opened Types
  import opened Syntax
  import opened Grammar
  import opened Printer
  import opened TypeSpellings
  import Literals

  // ----- the printable fragment -----

  /** Expressions the printer writes in words the grammar has. */
  predicate Printable(e: Expr) {
    match e
    case IntLit(n) => n >= 0
    case FloatLit(v) => v >= 0.0
    case StringLit(text) => Literals.Alone(text).Some?
    case BoolLit(_) => true
    case NullptrLit => true
    case VarRef(name) => name.Named?
    case AddressOf(_) => true
    case EmptyList(_) => true
    case Enumerator(_, _) => true
    case Prefixed(form, operand) => (form.Math? ==> form.func.WMath?) && Printable(operand)
    case Conditional(whenTrue, condition, whenFalse) =>
      Printable(whenTrue) && Printable(condition) && Printable(whenFalse)
    case Element(index, base) => Printable(index) && Printable(base)
    case Item(index, base) => Printable(index) && Printable(base)
    case Cast(operand, target) => Printable(operand) && Spellable(target)
    case SizeOfType(target) => Spellable(target)
    case AlignOfType(target) => Spellable(target)
    case VaArg(_, target) => Spellable(target)
    case ListOf(items) => items != [] && forall i :: 0 <= i < |items| ==> Printable(items[i])
    case Call(name, items) => name != WThrough && forall i :: 0 <= i < |items| ==> Printable(items[i])
    case Compound(target, block) => Spellable(target) && PrintableBlock(block)
    case Select(control, associations, default_) =>
      && Printable(control) && associations != []
      && (forall i :: 0 <= i < |associations| ==> PrintableChoice(associations[i]))
      && PrintableDefault(default_)
    case Pow(lhs, rhs) => Printable(lhs) && Printable(rhs)
    case Binary(op, lhs, rhs) => op != Comma && Printable(lhs) && Printable(rhs)
    case Unary(_, operand) => Printable(operand)
    case _ => false
  }

  /** A name that is none of the words of the grammar, positive sizes and lengths; and no length
      that is an expression in front of the "and" of another parameter. */
  predicate Spellable(t: Spec) {
    match t
    case Simple(_, _) => true
    case Tagged(_, _, _) => true
    case Alias(_, tag) => tag.Named?
    case PointerTo(_, to) => Spellable(to)
    case ArrayOf(_, to, bound) => IsSize(bound) && Spellable(to)
    case VariableArray(_, to, length) => Spellable(to) && Printable(length) && (PrintsNumber(length) ==> IsSize(NumberOf(length)))
    case FunctionOf(_, params, _, result) =>
      && Spellable(result) && (forall i :: 0 <= i < |params| ==> Spellable(params[i]))
      && (forall i :: 0 <= i < |params| - 1 ==> !OpenType(params[i]))
    case BitInteger(_, _, width) => IsSize(width)
    case FixedInteger(_, _, width) => IsSize(width)
    case StdintInteger(_, _, _, width) => IsSize(width)
    case TypeOfExpr(_, _, e) => Printable(e)
    case TypeOfName(_, unqualified, name) => unqualified || name != WUnqualified
  }

  predicate PrintsNumber(e: Expr) {
    e.IntLit? || (e.FloatLit? && e.number >= 0.0 && ReadsWhole(e.number))
  }

  function NumberOf(e: Expr): int
    requires PrintsNumber(e)
  {
    if e.IntLit? then e.value else e.number.Floor
  }

  predicate PrintableChoice(a: Association) { Spellable(a.target) && Printable(a.result) }

  predicate PrintableDefault(d: Default) { d.Otherwise? ==> Printable(d.result) }

  predicate PrintableBlock(block: Aggregate) {
    match block
    case Braces => true
    case Scalar(single) => Printable(single)
    case Listed(kind, entries) =>
      && entries != [] && (kind.ByMember? ==> entries[0].member != WDone)
      && forall i :: 0 <= i < |entries| ==> PrintableEntry(kind, entries[i])
  }

  /** No nested block, and only the designator that the kind of list has. */
  predicate PrintableEntry(kind: EntryKind, entry: Entry)
    decreases entry
  {
    && PrintableContent(entry.content)
    && (!kind.ByMember? ==> entry.member == NO_NAME)
    && (if kind.ByElement? then entry.index <= LONG_MAX else entry.index == 0)
  }

  predicate PrintableContent(content: Content) {
    content.Value? && Printable(content.expr)
  }

  /** The text ends in a Choose, or in the length of an array type, outside parentheses. */
  predicate OpenEnd(e: Expr) {
    match e
    case Conditional(_, _, _) => true
    case Cast(_, target) => OpenType(target)
    case SizeOfType(target) => OpenType(target)
    case AlignOfType(target) => OpenType(target)
    case VaArg(_, target) => OpenType(target)
    case Prefixed(_, operand) => OpenEnd(operand)
    case Element(_, base) => OpenEnd(base)
    case Item(_, base) => OpenEnd(base)
    case _ => false
  }

  predicate OpenType(t: Spec) {
    match t
    case PointerTo(_, to) => OpenType(to)
    case VariableArray(_, _, length) => !PrintsNumber(length)
    case FunctionOf(_, _, _, result) => OpenType(result)
    case _ => false
  }

  /** The text ends in a type that ends in "integer". */
  predicate BareEnd(e: Expr) {
    match e
    case Conditional(_, _, whenFalse) => BareEnd(whenFalse)
    case Prefixed(_, operand) => BareEnd(operand)
    case Element(_, base) => BareEnd(base)
    case Item(_, base) => BareEnd(base)
    case Cast(_, target) => EndsBare(target)
    case SizeOfType(target) => EndsBare(target)
    case AlignOfType(target) => EndsBare(target)
    case VaArg(_, target) => EndsBare(target)
    case _ => false
  }

  predicate EndsBare(t: Spec) {
    match t
    case Simple(_, plain) => Bare(plain)
    case PointerTo(_, to) => EndsBare(to)
    case VariableArray(_, _, length) => BareEnd(length)
    case FunctionOf(_, _, _, result) => EndsBare(result)
    case _ => false
  }

  predicate ReadsWhole(v: real) {
    IsWhole(v) && v.Floor < WHOLE_LIMIT
  }

  /** No left operand has an open end, no function type is variadic, no decimal is a small whole
      number, no string has quotes or backslashes, no length that is kept as an expression is a
      number. */
  predicate Closed(e: Expr) {
    match e
    case FloatLit(v) => !ReadsWhole(v)
    case StringLit(text) => Literals.Plain(text)
    case Prefixed(_, operand) => Closed(operand)
    case Conditional(whenTrue, condition, whenFalse) => Closed(whenTrue) && Closed(condition) && Closed(whenFalse)
    case Element(index, base) => Closed(index) && Closed(base)
    case Item(index, base) => Closed(index) && Closed(base)
    case Cast(operand, target) => Closed(operand) && ClosedSpec(target)
    case SizeOfType(target) => ClosedSpec(target)
    case AlignOfType(target) => ClosedSpec(target)
    case VaArg(_, target) => ClosedSpec(target)
    case ListOf(items) => forall i :: 0 <= i < |items| ==> Closed(items[i])
    case Call(_, items) => forall i :: 0 <= i < |items| ==> Closed(items[i])
    case Compound(target, block) => ClosedSpec(target) && ClosedBlock(block)
    case Select(control, associations, default_) =>
      && Closed(control) && (forall i :: 0 <= i < |associations| ==> ClosedChoice(associations[i]))
      && ClosedDefault(default_)
    case Pow(lhs, rhs) => !OpenEnd(lhs) && Closed(lhs) && Closed(rhs)
    case Binary(_, lhs, rhs) => !OpenEnd(lhs) && Closed(lhs) && Closed(rhs)
    case Unary(_, operand) => Closed(operand)
    case _ => true
  }

  predicate ClosedSpec(t: Spec) {
    match t
    case PointerTo(_, to) => ClosedSpec(to)
    case ArrayOf(_, to, _) => ClosedSpec(to)
    case VariableArray(_, to, length) => !PrintsNumber(length) && ClosedSpec(to) && Closed(length)
    case FunctionOf(_, params, variadic, result) =>
      !variadic && ClosedSpec(result) && forall i :: 0 <= i < |params| ==> ClosedSpec(params[i])
    case TypeOfExpr(_, _, e) => Closed(e)
    case _ => true
  }

  predicate ClosedChoice(a: Association) { ClosedSpec(a.target) && Closed(a.result) }

  predicate ClosedDefault(d: Default) { d.Otherwise? ==> Closed(d.result) }

  predicate ClosedBlock(block: Aggregate) {
    match block
    case Braces => true
    case Scalar(single) => Closed(single)
    case Listed(_, entries) => forall i :: 0 <= i < |entries| ==> ClosedEntry(entries[i])
  }

  predicate ClosedEntry(entry: Entry) { ClosedContent(entry.content) }

  predicate ClosedContent(content: Content) { content.Value? ==> Closed(content.expr) }

  // ----- what printed text stands for -----

  function Regrouped(e: Expr): Expr
    decreases e, 0
  {
    match e
    case FloatLit(v) => if v >= 0.0 && ReadsWhole(v) then IntLit(v.Floor) else e
    case StringLit(text) => StringLit(if Literals.Alone(text).Some? then Literals.Alone(text).value else text)
    case Prefixed(form, operand) => Prefixed(form, Regrouped(operand))
    case Conditional(whenTrue, condition, whenFalse) =>
      Conditional(Regrouped(whenTrue), Regrouped(condition), Regrouped(whenFalse))
    case Element(index, base) => Element(Regrouped(index), Regrouped(base))
    case Item(index, base) => Item(Regrouped(index), Regrouped(base))
    case Cast(operand, target) => Cast(Regrouped(operand), RegroupedSpec(target))
    case SizeOfType(target) => SizeOfType(RegroupedSpec(target))
    case AlignOfType(target) => AlignOfType(RegroupedSpec(target))
    case VaArg(source, target) => VaArg(source, RegroupedSpec(target))
    case ListOf(items) => ListOf(RegroupedAll(items))
    case Call(name, items) => Call(name, RegroupedAll(items))
    case Compound(target, block) => Compound(RegroupedSpec(target), RegroupedBlock(block))
    case Select(control, associations, default_) =>
      Select(Regrouped(control), RegroupedChoices(associations), RegroupedDefault(default_))
    case Pow(lhs, rhs) => Attached(lhs, Power, Regrouped(rhs))
    case Binary(op, lhs, rhs) => Attached(lhs, Op(op), Regrouped(rhs))
    case Unary(op, operand) => Unary(op, Regrouped(operand))
    case _ => e
  }

  /** An operator after an open end goes into the last operand of the Choose, or into the length. */
  function Attached(lhs: Expr, op: Infix, rhs: Expr): Expr
    decreases lhs, 1
  {
    if !OpenEnd(lhs) then Join(op, Regrouped(lhs), rhs)
    else if lhs.Prefixed? then Prefixed(lhs.form, Attached(lhs.operand, op, rhs))
    else if lhs.Element? then Element(Regrouped(lhs.index), Attached(lhs.base, op, rhs))
    else if lhs.Item? then Item(Regrouped(lhs.index), Attached(lhs.base, op, rhs))
    else if lhs.Cast? then Cast(Regrouped(lhs.operand), AttachedSpec(lhs.target, op, rhs))
    else if lhs.SizeOfType? then SizeOfType(AttachedSpec(lhs.target, op, rhs))
    else if lhs.AlignOfType? then AlignOfType(AttachedSpec(lhs.target, op, rhs))
    else if lhs.VaArg? then VaArg(lhs.source, AttachedSpec(lhs.target, op, rhs))
    else Conditional(Regrouped(lhs.whenTrue), Regrouped(lhs.condition), Attached(lhs.whenFalse, op, rhs))
  }

  function RegroupedSpec(t: Spec): Spec
    decreases t, 0
  {
    match t
    case PointerTo(q, to) => PointerTo(q, RegroupedSpec(to))
    case ArrayOf(q, to, bound) => ArrayOf(q, RegroupedSpec(to), bound)
    case VariableArray(q, to, length) =>
      if PrintsNumber(length) && NumberOf(length) > 0 then ArrayOf(q, RegroupedSpec(to), NumberOf(length))
      else VariableArray(q, RegroupedSpec(to), Regrouped(length))
    case FunctionOf(q, params, _, result) => FunctionOf(q, RegroupedSpecs(params), false, RegroupedSpec(result))
    case TypeOfExpr(q, unqualified, e) => TypeOfExpr(q, unqualified, Regrouped(e))
    case _ => t
  }

  function AttachedSpec(t: Spec, op: Infix, rhs: Expr): Spec
    requires OpenType(t)
    decreases t, 1
  {
    match t
    case PointerTo(q, to) => PointerTo(q, AttachedSpec(to, op, rhs))
    case VariableArray(q, to, length) => VariableArray(q, RegroupedSpec(to), Attached(length, op, rhs))
    case FunctionOf(q, params, _, result) => FunctionOf(q, RegroupedSpecs(params), false, AttachedSpec(result, op, rhs))
  }

  function RegroupedSpecs(ts: seq<Spec>): (r: seq<Spec>)
    ensures |r| == |ts| && forall i :: 0 <= i < |ts| ==> r[i] == RegroupedSpec(ts[i])
    decreases ts, 0
  {
    if ts == [] then [] else [RegroupedSpec(ts[0])] + RegroupedSpecs(ts[1..])
  }

  /** What is read from the spelling of t followed by `rest`: a bare "integer" is continued by
      "with exactly N bits". */
  function Reading(t: Spec, rest: Tokens): Option<Got<Spec>> {
    if !EndsBare(t) || !ExactlyAt(rest, 0) then Some(Got(RegroupedSpec(t), rest))
    else if rest[2].value == 0 then None
    else Some(Got(Widened(RegroupedSpec(t), rest[2].value), rest[4..]))
  }

  function Widened(t: Spec, width: nat): Spec {
    match t
    case Simple(q, plain) => FixedInteger(q, plain.PUnsignedInteger?, width)
    case PointerTo(q, to) => PointerTo(q, Widened(to, width))
    case FunctionOf(q, params, variadic, result) => FunctionOf(q, params, variadic, Widened(result, width))
    case _ => t
  }

  function RegroupedAll(es: seq<Expr>): (r: seq<Expr>)
    ensures |r| == |es| && forall i :: 0 <= i < |es| ==> r[i] == Regrouped(es[i])
    decreases es, 0
  {
    if es == [] then [] else [Regrouped(es[0])] + RegroupedAll(es[1..])
  }

  function RegroupedChoice(a: Association): Association {
    Association(RegroupedSpec(a.target), Regrouped(a.result))
  }

  function RegroupedChoices(choices: seq<Association>): (r: seq<Association>)
    ensures |r| == |choices| && forall i :: 0 <= i < |choices| ==> r[i] == RegroupedChoice(choices[i])
    decreases choices, 0
  {
    if choices == [] then [] else [RegroupedChoice(choices[0])] + RegroupedChoices(choices[1..])
  }

  function RegroupedDefault(d: Default): Default {
    if d.NoDefault? then d else Otherwise(Regrouped(d.result))
  }

  function RegroupedBlock(block: Aggregate): Aggregate {
    match block
    case Braces => Braces
    case Scalar(single) => Scalar(Regrouped(single))
    case Listed(kind, entries) => Listed(kind, RegroupedEntries(entries))
  }

  function RegroupedEntries(entries: seq<Entry>): (r: seq<Entry>)
    ensures |r| == |entries| && forall i :: 0 <= i < |entries| ==> r[i] == RegroupedEntry(entries[i])
    decreases entries, 0
  {
    if entries == [] then [] else [RegroupedEntry(entries[0])] + RegroupedEntries(entries[1..])
  }

  function RegroupedEntry(entry: Entry): Entry {
    Entry(entry.member, entry.index, RegroupedContent(entry.content))
  }

  function RegroupedContent(content: Content): Content {
    if content.Value? then Value(Regrouped(content.expr)) else content
  }

  // ----- what may follow -----

  /** No operator starts here. */
  predicate Quiet(rest: Tokens) {
    !WordAt(rest, 0, WIs) && forall level: nat :: level < PRIMARY_LEVEL ==> OperatorAt(level, rest) == None
  }

  /** Nor does the rest of a sized integer type. */
  predicate Still(rest: Tokens) {
    Quiet(rest) && !ExactlyAt(rest, 0)
  }

  /** A word that no operator starts with and no type goes on with. */
  predicate Separator(w: Word) {
    || w == WWhen || w == WOtherwise || w == WIn || w == WDone || w == WFollowed || w == WThen || w == WAs
  }

  lemma SeparatorsAreStill(w: Word, rest: Tokens)
    requires Separator(w)
    ensures Still(Front([w], rest))
  {
  }

  lemma CloseIsStill(rest: Tokens)
    ensures Still([CloseParen] + rest)
  {
  }

  lemma FollowedIsStill(rest: Tokens)
    ensures Still(Front([WFollowed, WBy], rest))
  {
  }

  lemma ToTypeIsStill(rest: Tokens)
    ensures Still(Front([WTo, WType], rest))
  {
    assert Front([WTo, WType], rest)[1] == Ident(WType);
  }

  /** "with" is no operator. */
  lemma WithIsStill(rest: Tokens)
    requires !WordAt(rest, 0, WExactly)
    ensures Still(Front([WWith], rest))
  {
    var ts := Front([WWith], rest);
    if |ts| > 1 {
      assert ts[1] == ts[1..][0];
    }
  }

  predicate StartsOperator(w: Word) {
    || w == WOr || w == WAnd || w == WBitwise || w == WNot || w == WIs || w == WShifted || w == WPlus || w == WTimes
    || w == WDivided || w == WMod || w == WModulo || w == WTo || w == WMinus
  }

  /** How a printed expression starts: not like an operator, nor like what ends a list, a block
      entry or a sized type. */
  predicate StartsExpr(ts: Tokens) {
    && ts != [] && !ts[0].Garbled? && ts[0] != CloseParen
    && (ts[0].Ident? ==>
          var w := ts[0].word;
          !StartsOperator(w) && w != WDone && w != WWith && w != WType && w != WExactly && w != WThrough && w != WOtherwise && w != WThe)
  }

  lemma StartIsStill(ts: Tokens)
    requires StartsExpr(ts)
    ensures Still(ts) && !WordAt(ts, 0, WNot) && !WordAt(ts, 0, WBitwise) && !WordAt(ts, 0, WOr) && !WordAt(ts, 0, WDone)
  {
  }

  lemma PrefixStarts(form: Prefix, rest: Tokens)
    requires form.Math? ==> form.func.WMath?
    ensures StartsExpr(Front(PrefixWords(form), rest))
  {
  }

  lemma AtomStarts(e: Expr, rest: Tokens)
    requires Printable(e)
    requires e.IntLit? || e.FloatLit? || e.StringLit? || e.BoolLit? || e.NullptrLit? || e.VarRef? || e.AddressOf?
             || e.EmptyList? || e.Enumerator?
    ensures StartsExpr(PrintTo(e, rest))
  {
  }

  lemma PartsStart(e: Expr, rest: Tokens)
    requires e.Conditional? || e.Element? || e.Item? || e.ListOf?
    ensures StartsExpr(PrintTo(e, rest))
  {
  }

  lemma BlockStarts(e: Expr, rest: Tokens)
    requires e.Call? || e.Compound? || e.Select?
    ensures StartsExpr(PrintTo(e, rest))
  {
  }

  lemma TypedStart(e: Expr, rest: Tokens)
    requires e.Cast? || e.SizeOfType? || e.AlignOfType? || e.VaArg?
    ensures StartsExpr(PrintTo(e, rest))
  {
    if e.VaArg? {
      assert PrintTo(e, rest)[0] == Ident(WNext);
    }
  }

  lemma PrintedStarts(e: Expr, rest: Tokens)
    requires Printable(e)
    ensures StartsExpr(PrintTo(e, rest))
  {
    if e.Prefixed? {
      PrefixStarts(e.form, PrintTo(e.operand, rest));
    } else if e.Cast? || e.SizeOfType? || e.AlignOfType? || e.VaArg? {
      TypedStart(e, rest);
    } else if e.Conditional? || e.Element? || e.Item? || e.ListOf? {
      PartsStart(e, rest);
    } else if e.Call? || e.Compound? || e.Select? {
      BlockStarts(e, rest);
    } else if !e.Pow? && !e.Binary? && !e.Unary? {
      AtomStarts(e, rest);
    }
  }

  lemma BodyStarts(t: Spec, rest: Tokens)
    requires Spellable(t)
    ensures StartsBody(BodyTo(t, rest))
  {
    if t.BitInteger? || t.FixedInteger? || t.StdintInteger? {
      SizedStarts(t, rest);
    } else if t.Simple? {
      SimpleStarts(t.plain, rest);
    } else if t.TypeOfExpr? || t.TypeOfName? {
      TypeOfStarts(t, rest);
    } else {
      hide Idents, SpellTo, ParamsTo, Size;
    }
  }

  lemma SpecStarts(t: Spec, rest: Tokens)
    requires Spellable(t)
    ensures StartsSpec(SpellTo(t, rest))
  {
    BodyStarts(t, rest);
    var words := QualifierWords(t.q);
    if words == [] {
      assert SpellTo(t, rest) == BodyTo(t, rest);
    } else {
      assert IsQualifier(words[0]);
    }
  }

  // ----- climbing the ladder -----

  /** With no operator behind it, an expression read at one level is read at every level above. */
  lemma {:induction false} Climb(level: nat, from: nat, ts: Tokens, p: Got<Expr>)
    requires level <= from <= PRIMARY_LEVEL && ParseLevel(from, ts) == Some(p) && Quiet(p.rest)
    requires from > NOT_LEVEL ==> !WordAt(ts, 0, WNot) && !WordAt(ts, 0, WBitwise)
    ensures ParseLevel(level, ts) == Some(p)
    decreases from - level
  {
    if level < from {
      Climb(level + 1, from, ts, p);
      ClimbOne(level, ts, p);
    }
  }

  lemma ClimbOne(level: nat, ts: Tokens, p: Got<Expr>)
    requires level < PRIMARY_LEVEL && ParseLevel(level + 1, ts) == Some(p) && Quiet(p.rest)
    requires level == NOT_LEVEL ==> !WordAt(ts, 0, WNot) && !WordAt(ts, 0, WBitwise)
    ensures ParseLevel(level, ts) == Some(p)
  {
    if level != NOT_LEVEL && level != COMPARISON_LEVEL {
      assert OperatorAt(level, p.rest) == None;
    }
  }

  function LevelOf(op: Infix): nat {
    match op
    case Power => 10
    case Op(op) =>
      match op
      case Or => 0
      case And => 1
      case BitOr => 2
      case BitXor => 3
      case BitAnd => 4
      case ShiftLeft => 7
      case ShiftRight => 7
      case Add => 8
      case Sub => 8
      case Mul => 9
      case Div => 9
      case Mod => 9
      case Comma => PRIMARY_LEVEL
      case _ => COMPARISON_LEVEL
  }

  function InfixWords(op: Infix): seq<Word> {
    match op
    case Power => POWER_WORDS
    case Op(op) => OpWords(op)
  }

  predicate IsComparison(op: Infix) {
    LevelOf(op) == COMPARISON_LEVEL
  }

  /** An operator's words are an operator at its own level and at no other. */
  lemma OperatorFound(op: Infix, tail: Tokens, level: nat)
    requires op != Op(Comma) && !IsComparison(op) && StartsExpr(tail) && level < PRIMARY_LEVEL
    ensures var mid, words := Front(InfixWords(op), tail), InfixWords(op);
            && !WordAt(mid, 0, WIs)
            && OperatorAt(level, mid) == (if level == LevelOf(op) then Some(Sized(op, |words|)) else None)
            && mid[|words|..] == tail
  {
    hide Front, Idents;
  }

  lemma ComparisonFound(op: Infix, tail: Tokens)
    requires IsComparison(op) && StartsExpr(tail)
    ensures var mid, words := Front(InfixWords(op), tail), InfixWords(op);
            && WordAt(mid, 0, WIs)
            && ComparisonAt(mid[1..]) == Some(Sized(op, |words| - 1))
            && mid[1..][|words| - 1..] == tail
            && forall level: nat :: level < PRIMARY_LEVEL ==> OperatorAt(level, mid) == None
  {
    hide Front, Idents, ComparisonAt, StartsExpr;
    var words := InfixWords(op);
    var mid := Front(words, tail);
    assert |words| >= 3 && words[0] == WIs;
    assert mid[1..] == Front(words[1..], tail);
    ComparisonSpelled(op.op, tail);
  }

  lemma ComparisonSpelled(op: BinOp, tail: Tokens)
    requires IsComparison(Op(op)) && StartsExpr(tail)
    ensures ComparisonAt(Front(OpWords(op)[1..], tail)) == Some(Sized(Op(op), |OpWords(op)| - 1))
  {
    hide Front, Idents;
    var after := Front(OpWords(op)[1..], tail);
    assert |OpWords(op)| == 3 ==> after[2] == after[2..][0] == tail[0];
    match op
    case Gt => assert OpWords(Gt)[1..] == [WGreater, WThan];
    case Lt => assert OpWords(Lt)[1..] == [WLess, WThan];
    case Eq => assert OpWords(Eq)[1..] == [WEqual, WTo];
    case Ne => assert OpWords(Ne)[1..] == [WNot, WEqual, WTo];
    case Ge => assert OpWords(Ge)[1..] == [WGreater, WThan, WOr, WEqual, WTo];
    case Le => assert OpWords(Le)[1..] == [WLess, WThan, WOr, WEqual, WTo];
  }

  /** Operators are not the rest of a type. */
  lemma OperatorIsNotExactly(op: Infix, tail: Tokens)
    requires op != Op(Comma)
    ensures !ExactlyAt(Front(InfixWords(op), tail), 0)
  {
  }

  /** Above the level of the operator behind it, an operand is read alone. */
  lemma {:induction false} ClimbAlone(level: nat, op: Infix, ts: Tokens, lhs: Expr, tail: Tokens)
    requires op != Op(Comma) && StartsExpr(tail) && LevelOf(op) < level <= PRIMARY_LEVEL
    requires StartsExpr(ts) && ParsePrimary(ts) == Some(Got(lhs, Front(InfixWords(op), tail)))
    ensures ParseLevel(level, ts) == Some(Got(lhs, Front(InfixWords(op), tail)))
    decreases PRIMARY_LEVEL - level
  {
    if level < PRIMARY_LEVEL {
      hide ParseLevel, ParsePrimary, Front, Idents, StartsExpr;
      StartIsStill(ts);
      ClimbAlone(level + 1, op, ts, lhs, tail);
      if IsComparison(op) { ComparisonFound(op, tail); } else { OperatorFound(op, tail, level); }
      AloneAt(level, ts, Got(lhs, Front(InfixWords(op), tail)));
    }
  }

  lemma AloneAt(level: nat, ts: Tokens, p: Got<Expr>)
    requires level == COMPARISON_LEVEL ==> !WordAt(p.rest, 0, WIs)
    requires level < PRIMARY_LEVEL && ParseLevel(level + 1, ts) == Some(p) && OperatorAt(level, p.rest) == None
    requires !WordAt(ts, 0, WNot) && !WordAt(ts, 0, WBitwise)
    ensures ParseLevel(level, ts) == Some(p)
  {
  }

  lemma ComparisonReads(op: Infix, lhs: Expr, tail: Tokens, right: Got<Expr>)
    requires IsComparison(op) && StartsExpr(tail) && ParseLevel(COMPARISON_LEVEL + 1, tail) == Some(right)
    ensures ParseComparison(lhs, Front(InfixWords(op), tail)) == Some(Got(Join(op, lhs, right.value), right.rest))
  {
    ComparisonFound(op, tail);
  }

  lemma OperatorReads(op: Infix, lhs: Expr, tail: Tokens, right: Got<Expr>)
    requires !IsComparison(op) && op != Op(Comma) && StartsExpr(tail)
    requires ParseLevel(LevelOf(op) + 1, tail) == Some(right) && Quiet(right.rest)
    ensures ParseOperators(LevelOf(op), lhs, Front(InfixWords(op), tail)) == Some(Got(Join(op, lhs, right.value), right.rest))
  {
    OperatorFound(op, tail, LevelOf(op));
    assert OperatorAt(LevelOf(op), right.rest) == None;
  }

  lemma LevelStep(level: nat, ts: Tokens, lhs: Got<Expr>)
    requires level < PRIMARY_LEVEL && level != NOT_LEVEL && ParseLevel(level + 1, ts) == Some(lhs)
    ensures ParseLevel(level, ts) ==
            if level == COMPARISON_LEVEL then ParseComparison(lhs.value, lhs.rest)
            else ParseOperators(level, lhs.value, lhs.rest)
  {
  }

  lemma InfixLevel(op: Infix, ts: Tokens, lhs: Expr, tail: Tokens, right: Got<Expr>)
    requires op != Op(Comma) && StartsExpr(tail)
    requires ParseLevel(LevelOf(op) + 1, ts) == Some(Got(lhs, Front(InfixWords(op), tail)))
    requires ParseLevel(LevelOf(op) + 1, tail) == Some(right) && Quiet(right.rest)
    ensures ParseLevel(LevelOf(op), ts) == Some(Got(Join(op, lhs, right.value), right.rest))
  {
    hide Front, Idents, ComparisonAt, OperatorAt, ParseLevel, ParseOperators, ParseComparison, StartsExpr, Quiet;
    LevelStep(LevelOf(op), ts, Got(lhs, Front(InfixWords(op), tail)));
    if IsComparison(op) {
      ComparisonReads(op, lhs, tail, right);
    } else {
      OperatorReads(op, lhs, tail, right);
    }
  }

  // ----- the words of a form lead to its parts -----

  lemma PrefixFound(form: Prefix, ts: Tokens)
    requires (form.Math? ==> form.func.WMath?) && (form.SizeOf? ==> !WordAt(ts, 0, WType))
    ensures PrefixAt(Front(PrefixWords(form), ts)) == Some(Sized(form, |PrefixWords(form)|))
  {
    var all := Front(PrefixWords(form), ts);
    assert all[|PrefixWords(form)|..] == ts;
    assert |ts| > 0 ==> all[|PrefixWords(form)|] == ts[0];
  }

  lemma PrefixForm(form: Prefix, ts: Tokens)
    requires (form.Math? ==> form.func.WMath?) && (form.SizeOf? ==> !WordAt(ts, 0, WType))
    ensures ParsePrimary(Front(PrefixWords(form), ts)) ==
            match ParsePrimary(ts) case None => None case Some(p) => Some(Got(Prefixed(form, p.value), p.rest))
  {
    PrefixFound(form, ts);
  }

  function FormWords(form: Form): seq<Word> {
    match form
    case NegateForm => [WMinus]
    case ChooseForm => [WChoose]
    case ElementForm => [WElement, WAt]
    case ItemForm => [WItem, WAt]
    case ConvertForm => [WConvert]
    case SizeTypeForm => [WSize, WOf, WType]
    case AlignForm => [WAlignment, WOf, WType]
    case ListForm => [WList, WWith]
    case CallForm => [WCall]
    case CompoundForm => [WCompound, WValue]
    case SelectForm => [WSelect, WBy, WType, WOf]
    case NextForm => [WNext, WVariadic, WArgument]
    case _ => []
  }

  lemma NoPrefix(form: Form, ts: Tokens)
    requires FormWords(form) != []
    ensures PrefixAt(Front(FormWords(form), ts)) == None
  {
    var all := Front(FormWords(form), ts);
    assert all[0] == Ident(FormWords(form)[0]);
  }

  lemma FormFound(form: Form, ts: Tokens)
    requires FormWords(form) != [] && (form.CallForm? ==> !WordAt(ts, 0, WThrough))
    ensures FormAt(Front(FormWords(form), ts)) == Some(Sized(form, |FormWords(form)|))
  {
    var all := Front(FormWords(form), ts);
    assert |all| > 1 && form.CallForm? ==> all[1] == all[1..][0];
  }

  lemma FormReads(form: Form, ts: Tokens)
    requires FormWords(form) != [] && (form.CallForm? ==> !WordAt(ts, 0, WThrough))
    ensures ParsePrimary(Front(FormWords(form), ts)) == ParseForm(form, ts)
  {
    NoPrefix(form, ts);
    FormFound(form, ts);
  }

  lemma ParenReads(ts: Tokens)
    ensures ParsePrimary([OpenParen] + ts) == ParseInner(ts)
  {
    var all := [OpenParen] + ts;
    assert all[1..] == ts;
    assert PrefixAt(all) == None && FormAt(all) == Some(Sized(ParenForm, 1));
    assert ParsePrimary(all) == ParseForm(ParenForm, ts);
  }

  lemma AtomReads(ts: Tokens)
    requires PrefixAt(ts) == None && FormAt(ts) == None
    ensures ParsePrimary(ts) == ParseAtom(ts)
  {
  }

  // ----- atoms -----

  lemma NumberReads(n: Natural, rest: Tokens)
    ensures ParsePrimary([Num(n)] + rest) == Some(Got(IntLit(n), rest))
  {
    var ts := [Num(n)] + rest;
    assert ts[1..] == rest;
    AtomReads(ts);
  }

  lemma LiteralReads(e: Expr, rest: Tokens)
    requires Printable(e) && (e.IntLit? || e.FloatLit? || e.StringLit?)
    ensures ParsePrimary(PrintTo(e, rest)) == Some(Got(Regrouped(e), rest))
  {
    hide ParsePrimary;
    if e.IntLit? {
      NumberReads(e.value, rest);
    } else if e.FloatLit? && ReadsWhole(e.number) {
      NumberReads(e.number.Floor, rest);
    } else {
      TokenReads(PrintTo(e, rest)[0], rest);
    }
  }

  lemma TokenReads(t: Token, rest: Tokens)
    requires t.Decimal? || t.Str?
    ensures ParsePrimary([t] + rest) == Some(Got(if t.Str? then StringLit(t.text) else FloatLit(t.number), rest))
  {
    hide ParsePrimary;
    var ts := [t] + rest;
    assert ts[1..] == rest;
    AtomReads(ts);
  }

  /** What the words of an atom are read as. */
  lemma AtomWords(e: Expr, rest: Tokens)
    requires Printable(e)
    requires e.BoolLit? || e.NullptrLit? || e.VarRef? || e.AddressOf? || e.EmptyList? || e.Enumerator?
    ensures var ts := PrintTo(e, rest);
            PrefixAt(ts) == None && FormAt(ts) == None && ParseAtom(ts) == Some(Got(e, rest))
  {
    if e.VarRef? {
      NameAtom(e.name, rest);
    } else if e.AddressOf? {
      AddressAtom(e.name, rest);
    } else if e.EmptyList? {
      EmptyAtom(e.kind, rest);
    } else if e.Enumerator? {
      EnumeratorAtom(e.name, e.enumeration, rest);
    } else if e.NullptrLit? {
      NullAtom(rest);
    } else {
      TruthAtom(e.flag, rest);
    }
  }

  ghost predicate IsAtom(ts: Tokens, e: Expr, rest: Tokens) {
    PrefixAt(ts) == None && FormAt(ts) == None && ParseAtom(ts) == Some(Got(e, rest))
  }

  lemma NameAtom(name: Word, rest: Tokens)
    requires name.Named?
    ensures IsAtom(Front([name], rest), VarRef(name), rest)
  {
  }

  lemma AddressAtom(name: Word, rest: Tokens)
    ensures IsAtom(Front([WAddress, WOf, name], rest), AddressOf(name), rest)
  {
  }

  lemma EmptyAtom(kind: ListKind, rest: Tokens)
    ensures IsAtom(Front([WEmpty, WList, WOf, ItemsWord(kind)], rest), EmptyList(kind), rest)
  {
  }

  lemma EnumeratorAtom(name: Word, enumeration: Word, rest: Tokens)
    ensures IsAtom(Front([WEnumerator, name, WOf, enumeration], rest), Enumerator(name, enumeration), rest)
  {
  }

  lemma NullAtom(rest: Tokens)
    ensures IsAtom(Front([WNull, WPointer], rest), NullptrLit, rest)
  {
  }

  lemma TruthAtom(flag: bool, rest: Tokens)
    ensures IsAtom(Front([if flag then WTrue else WFalse], rest), BoolLit(flag), rest)
  {
  }

  // ----- forms, given what their parts are read as -----

  lemma UpTo(w: Word, ts: Tokens, e: Expr, rest: Tokens)
    requires ParseExpr(ts) == Some(Got(e, Front([w], rest)))
    ensures ParseUpTo(w, ts) == Some(Got(e, rest))
  {
  }

  lemma ChooseParts(ts: Tokens, a: Got<Expr>, c: Got<Expr>, f: Got<Expr>)
    requires ParseUpTo(WWhen, ts) == Some(a) && ParseUpTo(WOtherwise, a.rest) == Some(c) && ParseExpr(c.rest) == Some(f)
    ensures ParseForm(ChooseForm, ts) == Some(Got(Conditional(a.value, c.value, f.value), f.rest))
  {
    assert ParseChoose(ts) == Some(Got(Conditional(a.value, c.value, f.value), f.rest));
  }

  lemma IndexedParts(element: bool, ts: Tokens, index: Got<Expr>, base: Got<Expr>)
    requires ParseUpTo(WIn, ts) == Some(index) && ParsePrimary(index.rest) == Some(base)
    ensures ParseForm(if element then ElementForm else ItemForm, ts) ==
            Some(Got(if element then Element(index.value, base.value) else Item(index.value, base.value), base.rest))
  {
    assert ParseIndexed(element, ts) ==
           Some(Got(if element then Element(index.value, base.value) else Item(index.value, base.value), base.rest));
  }

  lemma ConvertParts(ts: Tokens, operand: Expr, after: Tokens, target: Got<Spec>)
    requires ParsePrimary(ts) == Some(Got(operand, Front([WTo, WType], after))) && ParseSpec(after) == Some(target)
    ensures ParseForm(ConvertForm, ts) == Some(Got(Cast(operand, target.value), target.rest))
  {
    assert Front([WTo, WType], after)[1..][1..] == after;
  }

  lemma SizeTypeParts(ts: Tokens, target: Got<Spec>)
    requires ParseSpec(ts) == Some(target)
    ensures ParseForm(SizeTypeForm, ts) == Some(Got(SizeOfType(target.value), target.rest))
    ensures ParseForm(AlignForm, ts) == Some(Got(AlignOfType(target.value), target.rest))
  {
  }

  lemma NextParts(source: Option<Name>, ts: Tokens, target: Got<Spec>)
    requires ParseSpec(ts) == Some(target)
    ensures ParseForm(NextForm, Front(SourceWords(source), ts)) == Some(Got(VaArg(source, target.value), target.rest))
  {
    var all := Front(SourceWords(source), ts);
    if source.Some? {
      assert all[1..][1..][1..] == ts;
      assert all[1..][0] == Ident(source.value) && all[1..][1..][0] == Ident(WAs);
    }
  }

  lemma ListParts(ts: Tokens, items: seq<Expr>, rest: Tokens)
    requires !WordAt(ts, 0, WDone) && ParseItems(ts) == Some(Got(items, Front([WDone], rest)))
    ensures ParseForm(ListForm, ts) == Some(Got(ListOf(items), rest))
  {
    assert ParseList(ts) == Some(Got(ListOf(items), rest));
  }

  lemma CallParts(name: Word, end: Tokens, args: Got<seq<Expr>>)
    requires ParseCallEnd(end) == Some(args)
    ensures ParseForm(CallForm, Front([name], end)) == Some(Got(Call(name, args.value), args.rest))
  {
  }

  lemma CallEnds(ts: Tokens)
    ensures ParseCallEnd(Front([WWith], ts)) == ParseArgs(ts)
    ensures ParseCallEnd(Front([WDone], ts)) == Some(Got([], ts))
  {
  }

  lemma NegatedParts(ts: Tokens, p: Got<Expr>)
    requires ParsePrimary(ts) == Some(p)
    ensures ParseForm(NegateForm, ts) == Some(Got(Unary(Neg, p.value), p.rest))
  {
  }

  lemma InnerParts(inner: Tokens, e: Expr, rest: Tokens)
    requires ParseExpr(inner) == Some(Got(e, [CloseParen] + rest))
    ensures ParseInner(inner) == Some(Got(e, rest))
  {
    assert ([CloseParen] + rest)[1..] == rest;
  }

  lemma InnerReads(inner: Tokens, e: Expr, rest: Tokens)
    requires ParseExpr(inner) == Some(Got(e, [CloseParen] + rest))
    ensures ParsePrimary([OpenParen] + inner) == Some(Got(e, rest))
  {
    InnerParts(inner, e, rest);
    ParenReads(inner);
  }

  // ----- blocks and selections, given what their parts are read as -----

  lemma ItemsStep(ts: Tokens, first: Expr, tail: Tokens)
    requires ParseExpr(ts) == Some(Got(first, Front([WFollowed, WBy], tail))) && ParseItems(tail).Some?
    ensures ParseItems(ts) == Some(Got([first] + ParseItems(tail).value.value, ParseItems(tail).value.rest))
  {
    assert FollowedBy(Front([WFollowed, WBy], tail));
  }

  lemma ItemsEnd(ts: Tokens, last: Expr, rest: Tokens)
    requires ParseExpr(ts) == Some(Got(last, Front([WDone], rest)))
    ensures ParseItems(ts) == Some(Got([last], Front([WDone], rest)))
  {
  }

  lemma ArgsStep(ts: Tokens, first: Got<Expr>, others: Got<seq<Expr>>)
    requires !WordAt(ts, 0, WDone) && ParseExpr(ts) == Some(first) && ParseArgs(first.rest) == Some(others)
    ensures ParseArgs(ts) == Some(Got([first.value] + others.value, others.rest))
  {
  }

  lemma ContentReads(ts: Tokens, e: Got<Expr>)
    requires !WordAt(ts, 0, WWith) && ParseExpr(ts) == Some(e)
    ensures ParseContent(ts) == Some(Got(Value(e.value), e.rest))
  {
  }

  lemma EntryReads(kind: EntryKind, entry: Entry, ts: Tokens, content: Got<Content>)
    requires ParseContent(ts) == Some(content) && content.value == entry.content
    requires (!kind.ByMember? ==> entry.member == NO_NAME) && (if kind.ByElement? then entry.index <= LONG_MAX else entry.index == 0)
    ensures ParseEntry(kind, match kind
                             case Positional => ts
                             case ByMember => Front([entry.member, WAs], ts)
                             case ByElement => Front([WAt], Size(entry.index) + Front([WAs], ts))) ==
            Some(Got(entry, content.rest))
  {
    if kind.ByMember? {
      assert Front([entry.member, WAs], ts)[1..][1..] == ts;
      assert Front([entry.member, WAs], ts)[1..][0] == Ident(WAs);
    } else if kind.ByElement? {
      var all := Front([WAt], Size(entry.index) + Front([WAs], ts));
      assert all[1..] == Size(entry.index) + Front([WAs], ts);
      assert all[1] == all[1..][0] && all[2..] == all[1..][1..];
      assert all[2..] == Front([WAs], ts);
    }
  }

  lemma EntriesStep(kind: EntryKind, ts: Tokens, first: Entry, tail: Tokens, others: Got<seq<Entry>>)
    requires ParseEntry(kind, ts) == Some(Got(first, Front([WFollowed, WBy], tail))) && ParseEntries(kind, tail) == Some(others)
    ensures ParseEntries(kind, ts) == Some(Got([first] + others.value, others.rest))
  {
    assert FollowedBy(Front([WFollowed, WBy], tail));
  }

  lemma EntriesEnd(kind: EntryKind, ts: Tokens, last: Entry, rest: Tokens)
    requires ParseEntry(kind, ts) == Some(Got(last, Front([WDone], rest)))
    ensures ParseEntries(kind, ts) == Some(Got([last], Front([WDone], rest)))
  {
  }

  lemma ListedReads(kind: EntryKind, ts: Tokens, entries: seq<Entry>, rest: Tokens)
    requires !WordAt(ts, 0, WDone) && ParseEntries(kind, ts) == Some(Got(entries, Front([WDone], rest)))
    ensures ParseAggregate(Front([KindWord(kind)], ts)) == Some(Got(Listed(kind, entries), rest))
  {
    var all := Front([KindWord(kind)], ts);
    assert all[1..] == ts;
    assert |ts| > 0 ==> all[1] == ts[0];
    assert EntryKindAt(all) == Some(kind);
  }

  lemma CompoundHead(ts: Tokens, target: Spec, with: Tokens)
    requires ParseSpec(ts) == Some(Got(target, Front([WWith], with)))
    ensures ParseCompound(Front([WOf, WType], ts)) ==
            if WordAt(with, 0, WValue) then
              match ParseUpTo(WDone, with[1..])
              case None => None
              case Some(p) => Some(Got(Compound(target, Scalar(p.value)), p.rest))
            else if WordAt(with, 0, WEmpty) || WordAt(with, 0, WValues) || WordAt(with, 0, WMembers) || WordAt(with, 0, WElements) then
              match ParseAggregate(with)
              case None => None
              case Some(block) =>
                if block.value.Braces? then
                  if WordAt(block.rest, 0, WDone) then Some(Got(Compound(target, block.value), block.rest[1..])) else None
                else Some(Got(Compound(target, block.value), block.rest))
            else None
  {
    assert Front([WOf, WType], ts)[1..][1..] == ts;
    assert Front([WOf, WType], ts)[1..][0] == Ident(WType);
  }

  lemma AssociationsStep(ts: Tokens, first: Association, after: Tokens, tail: Tokens, others: Got<seq<Association>>)
    requires ParseSpec(ts) == Some(Got(first.target, Front([WAs], after)))
    requires ParseExpr(after) == Some(Got(first.result, Front([WFollowed, WBy], tail)))
    requires !WordAt(tail, 0, WDone) && !WordAt(tail, 0, WOtherwise) && ParseAssociations(tail) == Some(others)
    ensures ParseAssociations(ts) == Some(Got([first] + others.value, others.rest))
  {
    assert FollowedBy(Front([WFollowed, WBy], tail));
  }

  lemma AssociationsEnd(ts: Tokens, last: Association, after: Tokens, rest: Tokens)
    requires ParseSpec(ts) == Some(Got(last.target, Front([WAs], after)))
    requires ParseExpr(after) == Some(Got(last.result, rest)) && !FollowedBy(rest)
    ensures ParseAssociations(ts) == Some(Got([last], rest))
  {
  }

  lemma SelectParts(ts: Tokens, control: Got<Expr>, chosen: Got<seq<Association>>, default_: Default, rest: Tokens)
    requires ParseUpTo(WWith, ts) == Some(control)
    requires !WordAt(control.rest, 0, WDone) && !WordAt(control.rest, 0, WOtherwise)
    requires ParseAssociations(control.rest) == Some(chosen) && ParseDefault(chosen.rest) == Some(Got(default_, Front([WDone], rest)))
    ensures ParseForm(SelectForm, ts) == Some(Got(Select(control.value, chosen.value, default_), rest))
  {
    assert ParseSelect(ts) == Some(Got(Select(control.value, chosen.value, default_), rest));
  }

  // ----- reading what was printed -----

  lemma Formed(form: Form, ts: Tokens, p: Got<Expr>)
    requires FormWords(form) != [] && (form.CallForm? ==> !WordAt(ts, 0, WThrough)) && ParseForm(form, ts) == Some(p)
    ensures ParsePrimary(Front(FormWords(form), ts)) == Some(p)
  {
    FormReads(form, ts);
  }

  /** What may stand behind the text of an expression for it to be read alone. */
  predicate Leaves(e: Expr, rest: Tokens) {
    (OpenEnd(e) ==> Quiet(rest)) && (BareEnd(e) ==> !ExactlyAt(rest, 0))
  }

  lemma {:induction false} ExprReads(level: nat, e: Expr, rest: Tokens)
    requires Printable(e) && Quiet(rest) && Leaves(e, rest) && level <= PRIMARY_LEVEL
    ensures ParseLevel(level, PrintTo(e, rest)) == Some(Got(Regrouped(e), rest))
    decreases e, 3
  {
    PrimaryReads(e, rest);
    PrintedStarts(e, rest);
    StartIsStill(PrintTo(e, rest));
    Climb(level, PRIMARY_LEVEL, PrintTo(e, rest), Got(Regrouped(e), rest));
  }

  /** Reading an expression up to the word that ends it. */
  lemma {:induction false} ReadsUpTo(e: Expr, w: Word, rest: Tokens)
    requires Printable(e) && Still(Front([w], rest))
    ensures ParseUpTo(w, PrintTo(e, Front([w], rest))) == Some(Got(Regrouped(e), rest))
    decreases e, 4
  {
    ExprReads(OR_LEVEL, e, Front([w], rest));
    UpTo(w, PrintTo(e, Front([w], rest)), Regrouped(e), rest);
  }

  lemma {:induction false} PrimaryReads(e: Expr, rest: Tokens)
    requires Printable(e) && Leaves(e, rest)
    ensures ParsePrimary(PrintTo(e, rest)) == Some(Got(Regrouped(e), rest))
    decreases e, 2
  {
    hide PrintTo, ParsePrimary;
    if e.IntLit? || e.FloatLit? || e.StringLit? {
      LiteralReads(e, rest);
    } else if e.BoolLit? || e.NullptrLit? || e.VarRef? || e.AddressOf? || e.EmptyList? || e.Enumerator? {
      AtomWords(e, rest);
      AtomReads(PrintTo(e, rest));
    } else if e.Prefixed? {
      PrefixedReads(e, rest);
    } else if e.Conditional? {
      ConditionalReads(e, rest);
    } else if e.Element? || e.Item? {
      IndexReads(e, rest);
    } else if e.Cast? {
      CastReads(e, rest);
    } else if e.SizeOfType? {
      SizeReads(e, rest);
    } else if e.AlignOfType? {
      AlignReads(e, rest);
    } else if e.VaArg? {
      NextReads(e, rest);
    } else if e.ListOf? {
      ListReads(e, rest);
    } else if e.Call? {
      CallReads(e, rest);
    } else if e.Compound? {
      CompoundReads(e, rest);
    } else if e.Select? {
      SelectReads(e, rest);
    } else if e.Unary? {
      UnaryReads(e, rest);
    } else {
      InfixParensRead(e, rest);
    }
  }

  lemma {:induction false} PrefixedReads(e: Expr, rest: Tokens)
    requires e.Prefixed? && Printable(e) && Leaves(e, rest)
    ensures ParsePrimary(PrintTo(e, rest)) == Some(Got(Regrouped(e), rest))
    decreases e, 1
  {
    PrimaryReads(e.operand, rest);
    PrintedStarts(e.operand, rest);
    PrefixForm(e.form, PrintTo(e.operand, rest));
  }

  lemma {:induction false} ConditionalReads(e: Expr, rest: Tokens)
    requires e.Conditional? && Printable(e) && Leaves(e, rest)
    ensures ParsePrimary(PrintTo(e, rest)) == Some(Got(Regrouped(e), rest))
    decreases e, 1
  {
    ExprReads(OR_LEVEL, e.whenFalse, rest);
    ChooseText(e, PrintTo(e.whenFalse, rest), Got(Regrouped(e.whenFalse), rest));
  }

  /** A Choose whose last operand is read from `tail` as `last`. */
  lemma {:induction false} ChooseText(e: Expr, tail: Tokens, last: Got<Expr>)
    requires e.Conditional? && Printable(e.whenTrue) && Printable(e.condition) && ParseExpr(tail) == Some(last)
    ensures ParsePrimary(Front([WChoose], PrintTo(e.whenTrue, Front([WWhen], PrintTo(e.condition, Front([WOtherwise], tail)))))) ==
            Some(Got(Conditional(Regrouped(e.whenTrue), Regrouped(e.condition), last.value), last.rest))
    decreases e, 0
  {
    var second := PrintTo(e.condition, Front([WOtherwise], tail));
    SeparatorsAreStill(WWhen, second);
    SeparatorsAreStill(WOtherwise, tail);
    ReadsUpTo(e.whenTrue, WWhen, second);
    ReadsUpTo(e.condition, WOtherwise, tail);
    ChooseFormed(PrintTo(e.whenTrue, Front([WWhen], second)), Got(Regrouped(e.whenTrue), second),
                 Got(Regrouped(e.condition), tail), last);
  }

  lemma ChooseFormed(ts: Tokens, a: Got<Expr>, c: Got<Expr>, f: Got<Expr>)
    requires ParseUpTo(WWhen, ts) == Some(a) && ParseUpTo(WOtherwise, a.rest) == Some(c) && ParseExpr(c.rest) == Some(f)
    ensures ParsePrimary(Front([WChoose], ts)) == Some(Got(Conditional(a.value, c.value, f.value), f.rest))
  {
    hide ParsePrimary, ParseForm, ParseUpTo, ParseExpr, Front, Idents;
    ChooseParts(ts, a, c, f);
    Formed(ChooseForm, ts, Got(Conditional(a.value, c.value, f.value), f.rest));
  }

  function IndexWords(element: bool): seq<Word> {
    if element then [WElement, WAt] else [WItem, WAt]
  }

  /** An index whose base is read from `tail` as `base`. */
  lemma {:induction false} IndexText(element: bool, index: Expr, tail: Tokens, base: Got<Expr>)
    requires Printable(index) && ParsePrimary(tail) == Some(base)
    ensures ParsePrimary(Front(IndexWords(element), PrintTo(index, Front([WIn], tail)))) ==
            Some(Got(if element then Element(Regrouped(index), base.value) else Item(Regrouped(index), base.value), base.rest))
    decreases index, 5
  {
    SeparatorsAreStill(WIn, tail);
    ReadsUpTo(index, WIn, tail);
    IndexFormed(element, PrintTo(index, Front([WIn], tail)), Got(Regrouped(index), tail), base);
  }

  lemma IndexFormed(element: bool, ts: Tokens, index: Got<Expr>, base: Got<Expr>)
    requires ParseUpTo(WIn, ts) == Some(index) && ParsePrimary(index.rest) == Some(base)
    ensures ParsePrimary(Front(IndexWords(element), ts)) ==
            Some(Got(if element then Element(index.value, base.value) else Item(index.value, base.value), base.rest))
  {
    hide ParsePrimary, ParseForm, ParseUpTo, Front, Idents;
    IndexedParts(element, ts, index, base);
    Formed(if element then ElementForm else ItemForm, ts,
           Got(if element then Element(index.value, base.value) else Item(index.value, base.value), base.rest));
  }

  lemma {:induction false} IndexReads(e: Expr, rest: Tokens)
    requires (e.Element? || e.Item?) && Printable(e) && Leaves(e, rest)
    ensures ParsePrimary(PrintTo(e, rest)) == Some(Got(Regrouped(e), rest))
    decreases e, 1
  {
    PrimaryReads(e.base, rest);
    IndexText(e.Element?, e.index, PrintTo(e.base, rest), Got(Regrouped(e.base), rest));
  }

  lemma {:induction false} CastReads(e: Expr, rest: Tokens)
    requires e.Cast? && Printable(e) && Leaves(e, rest)
    ensures ParsePrimary(PrintTo(e, rest)) == Some(Got(Regrouped(e), rest))
    decreases e, 1
  {
    var type_ := SpellTo(e.target, rest);
    ToTypeIsStill(type_);
    PrimaryReads(e.operand, Front([WTo, WType], type_));
    SpecReads(e.target, rest);
    CastFormed(PrintTo(e.operand, Front([WTo, WType], type_)), Regrouped(e.operand), type_, Got(RegroupedSpec(e.target), rest));
  }

  lemma CastFormed(ts: Tokens, operand: Expr, after: Tokens, target: Got<Spec>)
    requires ParsePrimary(ts) == Some(Got(operand, Front([WTo, WType], after))) && ParseSpec(after) == Some(target)
    ensures ParsePrimary(Front([WConvert], ts)) == Some(Got(Cast(operand, target.value), target.rest))
  {
    hide ParsePrimary, ParseForm, ParseSpec, Front, Idents;
    ConvertParts(ts, operand, after, target);
    Formed(ConvertForm, ts, Got(Cast(operand, target.value), target.rest));
  }

  lemma SizeText(target: Spec, rest: Tokens)
    ensures PrintTo(SizeOfType(target), rest) == Front(FormWords(SizeTypeForm), SpellTo(target, rest))
  {
    assert FormWords(SizeTypeForm) == [WSize, WOf, WType];
  }

  lemma AlignText(target: Spec, rest: Tokens)
    ensures PrintTo(AlignOfType(target), rest) == Front(FormWords(AlignForm), SpellTo(target, rest))
  {
    assert FormWords(AlignForm) == [WAlignment, WOf, WType];
  }

  lemma {:induction false} SizeReads(e: Expr, rest: Tokens)
    requires e.SizeOfType? && Printable(e) && Leaves(e, rest)
    ensures ParsePrimary(PrintTo(e, rest)) == Some(Got(Regrouped(e), rest))
    decreases e, 1
  {
    SpecReads(e.target, rest);
    SizeText(e.target, rest);
    SizeFormed(SpellTo(e.target, rest), Got(RegroupedSpec(e.target), rest));
  }

  lemma {:induction false} AlignReads(e: Expr, rest: Tokens)
    requires e.AlignOfType? && Printable(e) && Leaves(e, rest)
    ensures ParsePrimary(PrintTo(e, rest)) == Some(Got(Regrouped(e), rest))
    decreases e, 1
  {
    SpecReads(e.target, rest);
    AlignText(e.target, rest);
    AlignFormed(SpellTo(e.target, rest), Got(RegroupedSpec(e.target), rest));
  }

  lemma {:induction false} NextReads(e: Expr, rest: Tokens)
    requires e.VaArg? && Printable(e) && Leaves(e, rest)
    ensures ParsePrimary(PrintTo(e, rest)) == Some(Got(Regrouped(e), rest))
    decreases e, 1
  {
    SpecReads(e.target, rest);
    NextText(e.source, e.target, rest);
    NextFormed(e.source, SpellTo(e.target, rest), Got(RegroupedSpec(e.target), rest));
  }

  lemma SizeFormed(ts: Tokens, target: Got<Spec>)
    requires ParseSpec(ts) == Some(target)
    ensures ParsePrimary(Front(FormWords(SizeTypeForm), ts)) == Some(Got(SizeOfType(target.value), target.rest))
  {
    hide ParsePrimary, ParseForm, ParseSpec, Front, Idents;
    SizeTypeParts(ts, target);
    Formed(SizeTypeForm, ts, Got(SizeOfType(target.value), target.rest));
  }

  lemma AlignFormed(ts: Tokens, target: Got<Spec>)
    requires ParseSpec(ts) == Some(target)
    ensures ParsePrimary(Front(FormWords(AlignForm), ts)) == Some(Got(AlignOfType(target.value), target.rest))
  {
    hide ParsePrimary, ParseForm, ParseSpec, Front, Idents;
    SizeTypeParts(ts, target);
    Formed(AlignForm, ts, Got(AlignOfType(target.value), target.rest));
  }

  lemma NextFormed(source: Option<Name>, ts: Tokens, target: Got<Spec>)
    requires ParseSpec(ts) == Some(target)
    ensures ParsePrimary(Front(FormWords(NextForm), Front(SourceWords(source), ts))) == Some(Got(VaArg(source, target.value), target.rest))
  {
    hide ParsePrimary, ParseForm, ParseSpec, Front, Idents;
    NextParts(source, ts, target);
    Formed(NextForm, Front(SourceWords(source), ts), Got(VaArg(source, target.value), target.rest));
  }

  lemma Fronts(v: seq<Word>, w: seq<Word>, ts: Tokens)
    ensures Front(v + w, ts) == Front(v, Front(w, ts))
  {
    assert Idents(v + w) == Idents(v) + Idents(w);
    assert (Idents(v) + Idents(w)) + ts == Idents(v) + (Idents(w) + ts);
  }

  lemma NextText(source: Option<Name>, target: Spec, rest: Tokens)
    ensures PrintTo(VaArg(source, target), rest) == Front(FormWords(NextForm), Front(SourceWords(source), SpellTo(target, rest)))
  {
    hide SpellTo, Idents, Front;
    NextWords(source, SpellTo(target, rest));
  }

  lemma NextWords(source: Option<Name>, ts: Tokens)
    ensures Front([WNext, WVariadic, WArgument] + SourceWords(source), ts) == Front(FormWords(NextForm), Front(SourceWords(source), ts))
  {
    hide PrintTo, Idents, Front, SourceWords;
    Fronts(FormWords(NextForm), SourceWords(source), ts);
  }

  // ----- types -----

  predicate IsLeaf(t: Spec) {
    !t.PointerTo? && !t.ArrayOf? && !t.VariableArray? && !t.FunctionOf? && !t.TypeOfName? && !t.TypeOfExpr?
  }

  /** What may stand behind the spelling of a type that ends in an expression. */
  predicate SpecLeaves(t: Spec, rest: Tokens) {
    OpenType(t) ==> Quiet(rest) && (EndsBare(t) ==> !ExactlyAt(rest, 0))
  }

  lemma LengthIsStill(rest: Tokens)
    ensures Still(Front([WWith, WLength], rest))
  {
    assert Front([WWith, WLength], rest)[1] == Ident(WLength);
  }

  lemma ReturningIsStill(rest: Tokens)
    ensures Still(Front([WReturning], rest))
  {
  }

  lemma LeafStarts(t: Spec, rest: Tokens)
    requires Spellable(t) && IsLeaf(t)
    ensures NameAt(BodyTo(t, rest), 0) && LeafWord(BodyTo(t, rest)[0].word)
  {
    if t.Simple? {
      SimpleStarts(t.plain, rest);
    } else if t.BitInteger? || t.FixedInteger? || t.StdintInteger? {
      SizedStarts(t, rest);
    }
  }

  lemma LeafReads(t: Spec, rest: Tokens)
    requires Spellable(t) && IsLeaf(t)
    ensures ParseBody(t.q, BodyTo(t, rest)) == Reading(t, rest)
  {
    LeafStarts(t, rest);
    LeafBody(t.q, BodyTo(t, rest));
    if t.Simple? { SimpleReads(t.q, t.plain, rest); }
    else if t.Tagged? { TagReads(t.q, t.kind, t.tag, rest); }
    else if t.Alias? { AliasReads(t.q, t.tag, rest); }
    else if t.BitInteger? { BitReads(t.q, t.isUnsigned, t.width, rest); }
    else if t.FixedInteger? { FixedReads(t.q, t.isUnsigned, t.width, rest); }
    else { StdintReads(t.q, t.isUnsigned, t.fast, t.width, rest); }
  }

  lemma {:induction false} SpecReads(t: Spec, rest: Tokens)
    requires Spellable(t) && SpecLeaves(t, rest)
    ensures ParseSpec(SpellTo(t, rest)) == Reading(t, rest)
    decreases t, 7
  {
    BodyReads(t, rest);
    BodyStarts(t, rest);
    QualifiersRead(t.q, BodyTo(t, rest));
  }

  lemma {:induction false} BodyReads(t: Spec, rest: Tokens)
    requires Spellable(t) && SpecLeaves(t, rest)
    ensures ParseBody(t.q, BodyTo(t, rest)) == Reading(t, rest)
    decreases t, 6
  {
    hide ParseSpec, ParseBody, ParseTypeOf, ParseLevel, Front, Idents;
    if t.PointerTo? {
      SpecReads(t.to, rest);
      PointerReads(t.q, t.to, rest);
    } else if t.ArrayOf? {
      LengthIsStill(Size(t.bound) + rest);
      SpecReads(t.to, Front([WWith, WLength], Size(t.bound) + rest));
      ArrayReads(t.q, t.to, t.bound, rest, SpellTo(t.to, Front([WWith, WLength], Size(t.bound) + rest)));
    } else if t.VariableArray? {
      VariableReads(t, rest);
    } else if t.FunctionOf? {
      SpecReads(t.result, rest);
      FunctionReads(t.q, t.params, SpellTo(t.result, rest));
      ResultReads(t, rest, SpellTo(t.result, rest));
    } else if t.TypeOfName? {
      TypeNameReads(t.q, t.unqualified, t.name, rest);
    } else if t.TypeOfExpr? {
      CloseIsStill(rest);
      ExprReads(OR_LEVEL, t.expr, [CloseParen] + rest);
      TypeExprReads(t.q, t.unqualified, t.expr, Regrouped(t.expr), rest);
    } else {
      LeafReads(t, rest);
    }
  }

  lemma {:induction false} VariableReads(t: Spec, rest: Tokens)
    requires t.VariableArray? && Spellable(t) && SpecLeaves(t, rest)
    ensures ParseBody(t.q, BodyTo(t, rest)) == Reading(t, rest)
    decreases t, 5
  {
    hide Front, Idents, PrintTo, SpellTo, ParseSpec, ParseBody, ParseLevel, Regrouped;
    var length := PrintTo(t.length, rest);
    var ts := SpellTo(t.to, Front([WWith, WLength], length));
    LengthIsStill(length);
    SpecReads(t.to, Front([WWith, WLength], length));
    if PrintsNumber(t.length) {
      NumberText(t.length, rest);
      ArrayForm(t.q, ts, RegroupedSpec(t.to), NumberOf(t.length), rest);
    } else {
      ExprReads(OR_LEVEL, t.length, rest);
      LengthStart(t.length, rest);
      LengthForm(t.q, ts, RegroupedSpec(t.to), length, Got(Regrouped(t.length), rest));
    }
  }

  lemma NumberText(e: Expr, rest: Tokens)
    requires Printable(e) && PrintsNumber(e) && IsSize(NumberOf(e))
    ensures PrintTo(e, rest) == Size(NumberOf(e)) + rest && !BareEnd(e)
  {
  }

  lemma PointerReads(q: Qualifiers, to: Spec, rest: Tokens)
    requires ParseSpec(SpellTo(to, rest)) == Reading(to, rest)
    ensures ParseBody(q, Front([WPointer, WTo], SpellTo(to, rest))) == Reading(PointerTo(q, to), rest)
  {
    PointerForm(q, SpellTo(to, rest));
    PointerReading(q, to, rest);
  }

  lemma PointerReading(q: Qualifiers, to: Spec, rest: Tokens)
    ensures Reading(PointerTo(q, to), rest) ==
            match Reading(to, rest) case None => None case Some(p) => Some(Got(PointerTo(q, p.value), p.rest))
  {
  }

  lemma ArrayReading(q: Qualifiers, to: Spec, bound: nat, rest: Tokens)
    ensures Reading(ArrayOf(q, to, bound), rest) == Some(Got(ArrayOf(q, RegroupedSpec(to), bound), rest))
    ensures Reading(to, Front([WWith, WLength], rest)) == Some(Got(RegroupedSpec(to), Front([WWith, WLength], rest)))
  {
    LengthIsStill(rest);
  }

  lemma ArrayReads(q: Qualifiers, to: Spec, bound: nat, rest: Tokens, ts: Tokens)
    requires IsSize(bound) && ParseSpec(ts) == Reading(to, Front([WWith, WLength], Size(bound) + rest))
    ensures ParseBody(q, Front([WArray, WOf], ts)) == Reading(ArrayOf(q, to, bound), rest)
  {
    ArrayReading(q, to, bound, Size(bound) + rest);
    ArrayReading(q, to, bound, rest);
    ArrayForm(q, ts, RegroupedSpec(to), bound, rest);
  }

  lemma ResultReads(t: Spec, rest: Tokens, ts: Tokens)
    requires t.FunctionOf? && ParseSpec(ts) == Reading(t.result, rest)
    ensures ParseResult(t.q, RegroupedSpecs(t.params), false, ts) == Reading(t, rest)
  {
    ResultReading(t, rest);
  }

  lemma ResultReading(t: Spec, rest: Tokens)
    requires t.FunctionOf?
    ensures Reading(t, rest) ==
            match Reading(t.result, rest)
            case None => None
            case Some(p) => Some(Got(FunctionOf(t.q, RegroupedSpecs(t.params), false, p.value), p.rest))
  {
  }

  lemma {:induction false} FunctionReads(q: Qualifiers, params: seq<Spec>, result: Tokens)
    requires forall i :: 0 <= i < |params| ==> Spellable(params[i])
    requires forall i :: 0 <= i < |params| - 1 ==> !OpenType(params[i])
    ensures ParseBody(q, Front([WFunction, WTaking],
              if params == [] then Front([WNo, WParameters, WReturning], result) else ParamsTo(params, Front([WReturning], result))))
            == ParseResult(q, RegroupedSpecs(params), false, result)
    decreases params, 1
  {
    var last := Front([WReturning], result);
    if params == [] {
      FunctionForm(q, Front([WNo, WParameters, WReturning], result));
      NoParamsForm(q, result);
    } else {
      ParamsRead(params, result);
      SpecStarts(params[0], if |params| == 1 then last else Front([WAnd], ParamsTo(params[1..], last)));
      FunctionForm(q, ParamsTo(params, last));
      ParamsForm(q, ParamsTo(params, last), RegroupedSpecs(params), result);
    }
  }

  lemma {:induction false} ParamsRead(params: seq<Spec>, result: Tokens)
    requires params != [] && forall i :: 0 <= i < |params| ==> Spellable(params[i])
    requires forall i :: 0 <= i < |params| - 1 ==> !OpenType(params[i])
    ensures ParseParams(ParamsTo(params, Front([WReturning], result))) == Some(Got(RegroupedSpecs(params), Front([WReturning], result)))
    decreases params, 0
  {
    hide ParseSpec, Front, Idents, SpellTo;
    var last := Front([WReturning], result);
    if |params| == 1 {
      ReturningIsStill(result);
      SpecReads(params[0], last);
      assert RegroupedSpecs(params) == [RegroupedSpec(params[0])];
    } else {
      var others := ParamsTo(params[1..], last);
      ParamsRead(params[1..], result);
      SpecReads(params[0], Front([WAnd], others));
      SpecStarts(params[1], if |params| == 2 then last else Front([WAnd], ParamsTo(params[1..][1..], last)));
      MoreParams(SpellTo(params[0], Front([WAnd], others)), RegroupedSpec(params[0]), others);
      assert RegroupedSpecs(params) == [RegroupedSpec(params[0])] + RegroupedSpecs(params[1..]);
    }
  }

  lemma TypeExprReads(q: Qualifiers, unqualified: bool, e: Expr, e': Expr, rest: Tokens)
    requires ParseExpr(PrintTo(e, [CloseParen] + rest)) == Some(Got(e', [CloseParen] + rest))
    ensures ParseBody(q, BodyTo(TypeOfExpr(q, unqualified, e), rest)) == Some(Got(TypeOfExpr(q, unqualified, e'), rest))
  {
    hide ParseExpr, ParseBody, ParseInner, ParseTypeOf, PrintTo, BodyTo, Front, Idents;
    var inner := PrintTo(e, [CloseParen] + rest);
    InnerParts(inner, e', rest);
    ParensForm(q, unqualified, inner, Got(e', rest));
    ParensText(q, unqualified, e, rest);
    TypeOfForm(q, BodyTo(TypeOfExpr(q, unqualified, e), rest));
  }

  lemma LengthStart(e: Expr, rest: Tokens)
    requires Printable(e) && !PrintsNumber(e)
    ensures !NumAt(PrintTo(e, rest), 0)
  {
    hide SpellTo, ItemsTo, ArgsTo, BlockTo, ChoicesTo, DefaultTo, OpWords, Idents, SourceWords, Spellable, PrintableBlock;
  }

  lemma LengthForm(q: Qualifiers, ts: Tokens, element: Spec, length: Tokens, e: Got<Expr>)
    requires ParseSpec(ts) == Some(Got(element, Front([WWith, WLength], length)))
    requires !NumAt(length, 0) && ParseExpr(length) == Some(e)
    ensures ParseBody(q, Front([WArray, WOf], ts)) == Some(Got(VariableArray(q, element, e.value), e.rest))
  {
    assert TwoAt(Front([WArray, WOf], ts), 0, WArray, WOf);
    assert Front([WWith, WLength], length)[1..][1..] == length;
    assert Front([WWith, WLength], length)[1..][0] == Ident(WLength);
  }

  // ----- lists and calls -----

  lemma {:induction false} ItemsRead(items: seq<Expr>, rest: Tokens)
    requires items != [] && forall i :: 0 <= i < |items| ==> Printable(items[i])
    ensures ParseItems(ItemsTo(items, Front([WDone], rest))) == Some(Got(RegroupedAll(items), Front([WDone], rest)))
    decreases items, 0
  {
    var done := Front([WDone], rest);
    if |items| == 1 {
      SeparatorsAreStill(WDone, rest);
      ExprReads(OR_LEVEL, items[0], done);
      ItemsEnd(ItemsTo(items, done), Regrouped(items[0]), rest);
      assert RegroupedAll(items) == [Regrouped(items[0])];
    } else {
      var tail := ItemsTo(items[1..], done);
      ItemsRead(items[1..], rest);
      FollowedIsStill(tail);
      ExprReads(OR_LEVEL, items[0], Front([WFollowed, WBy], tail));
      ItemsStep(ItemsTo(items, done), Regrouped(items[0]), tail);
    }
  }

  lemma ItemsStart(items: seq<Expr>, rest: Tokens)
    requires items != [] && Printable(items[0])
    ensures StartsExpr(ItemsTo(items, rest)) && StartsExpr(ArgsTo(items, rest))
  {
    PrintedStarts(items[0], if |items| == 1 then rest else Front([WFollowed, WBy], ItemsTo(items[1..], rest)));
    PrintedStarts(items[0], ArgsTo(items[1..], rest));
  }

  lemma {:induction false} ListReads(e: Expr, rest: Tokens)
    requires e.ListOf? && Printable(e)
    ensures ParsePrimary(PrintTo(e, rest)) == Some(Got(Regrouped(e), rest))
    decreases e, 1
  {
    ItemsRead(e.items, rest);
    ItemsStart(e.items, Front([WDone], rest));
    ListFormed(ItemsTo(e.items, Front([WDone], rest)), RegroupedAll(e.items), rest);
  }

  lemma ListFormed(ts: Tokens, items: seq<Expr>, rest: Tokens)
    requires !WordAt(ts, 0, WDone) && ParseItems(ts) == Some(Got(items, Front([WDone], rest)))
    ensures ParsePrimary(Front([WList, WWith], ts)) == Some(Got(ListOf(items), rest))
  {
    hide ParsePrimary, ParseForm, ParseItems, Front, Idents;
    ListParts(ts, items, rest);
    Formed(ListForm, ts, Got(ListOf(items), rest));
  }

  lemma {:induction false} ArgsRead(args: seq<Expr>, rest: Tokens)
    requires forall i :: 0 <= i < |args| ==> Printable(args[i])
    ensures ParseArgs(ArgsTo(args, Front([WDone], rest))) == Some(Got(RegroupedAll(args), rest))
    decreases args, 0
  {
    if args == [] {
      assert Front([WDone], rest)[1..] == rest;
    } else {
      var others := ArgsTo(args[1..], Front([WDone], rest));
      ArgsRead(args[1..], rest);
      if |args| > 1 {
        ItemsStart(args[1..], Front([WDone], rest));
        StartIsStill(others);
      } else {
        SeparatorsAreStill(WDone, rest);
      }
      ExprReads(OR_LEVEL, args[0], others);
      PrintedStarts(args[0], others);
      ArgsStep(PrintTo(args[0], others), Got(Regrouped(args[0]), others), Got(RegroupedAll(args[1..]), rest));
    }
  }

  lemma {:induction false} CallReads(e: Expr, rest: Tokens)
    requires e.Call? && Printable(e)
    ensures ParsePrimary(PrintTo(e, rest)) == Some(Got(Regrouped(e), rest))
    decreases e, 1
  {
    CallText(e, rest);
    if e.items == [] {
      CallEnds(rest);
      CallFormed(e.name, Front([WDone], rest), Got([], rest));
    } else {
      var args := ArgsTo(e.items, Front([WDone], rest));
      ArgsRead(e.items, rest);
      CallEnds(args);
      CallFormed(e.name, Front([WWith], args), Got(RegroupedAll(e.items), rest));
    }
  }

  lemma CallText(e: Expr, rest: Tokens)
    requires e.Call?
    ensures PrintTo(e, rest) == Front([WCall], Front([e.name],
              if e.items == [] then Front([WDone], rest) else Front([WWith], ArgsTo(e.items, Front([WDone], rest)))))
  {
    hide SpellTo, ArgsTo, Idents;
    var tail := if e.items == [] then Front([WDone], rest) else Front([WWith], ArgsTo(e.items, Front([WDone], rest)));
    assert Idents([WCall, e.name]) == Idents([WCall]) + Idents([e.name]);
    assert (Idents([WCall]) + Idents([e.name])) + tail == Idents([WCall]) + (Idents([e.name]) + tail);
  }

  lemma CallFormed(name: Word, end: Tokens, args: Got<seq<Expr>>)
    requires name != WThrough && ParseCallEnd(end) == Some(args)
    ensures ParsePrimary(Front([WCall], Front([name], end))) == Some(Got(Call(name, args.value), args.rest))
  {
    hide ParsePrimary, ParseForm, ParseCallEnd, Front, Idents;
    CallParts(name, end, args);
    Formed(CallForm, Front([name], end), Got(Call(name, args.value), args.rest));
  }

  // ----- compound values -----

  lemma {:induction false} EntryRead(kind: EntryKind, entry: Entry, rest: Tokens)
    requires PrintableEntry(kind, entry) && Still(rest)
    ensures ParseEntry(kind, EntryTo(kind, entry, rest)) == Some(Got(RegroupedEntry(entry), rest))
    decreases entry, 1
  {
    ContentRead(entry.content, rest);
    EntryReads(kind, RegroupedEntry(entry), ContentTo(entry.content, rest), Got(RegroupedContent(entry.content), rest));
  }

  lemma {:induction false} ContentRead(content: Content, rest: Tokens)
    requires PrintableContent(content) && Still(rest)
    ensures ParseContent(ContentTo(content, rest)) == Some(Got(RegroupedContent(content), rest))
    decreases content, 0
  {
    ExprReads(OR_LEVEL, content.expr, rest);
    PrintedStarts(content.expr, rest);
    ContentReads(ContentTo(content, rest), Got(Regrouped(content.expr), rest));
  }

  lemma {:induction false} EntriesRead(kind: EntryKind, entries: seq<Entry>, rest: Tokens)
    requires entries != [] && forall i :: 0 <= i < |entries| ==> PrintableEntry(kind, entries[i])
    ensures ParseEntries(kind, EntriesTo(kind, entries, Front([WDone], rest))) == Some(Got(RegroupedEntries(entries), Front([WDone], rest)))
    decreases entries, 0
  {
    var done := Front([WDone], rest);
    if |entries| == 1 {
      SeparatorsAreStill(WDone, rest);
      EntryRead(kind, entries[0], done);
      EntriesEnd(kind, EntriesTo(kind, entries, done), RegroupedEntry(entries[0]), rest);
      assert RegroupedEntries(entries) == [RegroupedEntry(entries[0])];
    } else {
      var tail := EntriesTo(kind, entries[1..], done);
      EntriesRead(kind, entries[1..], rest);
      FollowedIsStill(tail);
      EntryRead(kind, entries[0], Front([WFollowed, WBy], tail));
      EntriesStep(kind, EntriesTo(kind, entries, done), RegroupedEntry(entries[0]), tail, Got(RegroupedEntries(entries[1..]), done));
    }
  }

  lemma EntriesStart(kind: EntryKind, entries: seq<Entry>, rest: Tokens)
    requires entries != [] && PrintableEntry(kind, entries[0])
    requires kind.ByMember? ==> entries[0].member != WDone
    ensures !WordAt(EntriesTo(kind, entries, rest), 0, WDone)
  {
    EntryStarts(kind, entries[0], if |entries| == 1 then rest else Front([WFollowed, WBy], EntriesTo(kind, entries[1..], rest)));
  }

  lemma EntryStarts(kind: EntryKind, entry: Entry, rest: Tokens)
    requires PrintableEntry(kind, entry) && (kind.ByMember? ==> entry.member != WDone)
    ensures !WordAt(EntryTo(kind, entry, rest), 0, WDone)
  {
    if kind.Positional? {
      PrintedStarts(entry.content.expr, rest);
    } else if kind.ByMember? {
      assert EntryTo(kind, entry, rest)[0] == Ident(entry.member);
    } else {
      assert EntryTo(kind, entry, rest)[0] == Ident(WAt);
    }
  }

  /** What a block in front of the "done" of a compound value is read as. */
  lemma {:induction false} CompoundReads(e: Expr, rest: Tokens)
    requires e.Compound? && Printable(e)
    ensures ParsePrimary(PrintTo(e, rest)) == Some(Got(Regrouped(e), rest))
    decreases e, 1
  {
    hide Front, Idents, PrintTo, SpellTo, ParseSpec, ParseCompound, ParsePrimary;
    var done := Front([WDone], rest);
    var with := BlockTo(e.block, done);
    var ts := SpellTo(e.target, Front([WWith], with));
    BlockNotExact(e.block, done);
    SpecReads(e.target, Front([WWith], with));
    CompoundText(e.target, e.block, rest);
    BlockRead(e.target, e.block, ts, rest);
    CompoundFormed(Front([WOf, WType], ts), Got(Regrouped(e), rest));
  }

  lemma CompoundText(target: Spec, block: Aggregate, rest: Tokens)
    ensures PrintTo(Compound(target, block), rest) == Front(FormWords(CompoundForm), Front([WOf, WType],
              SpellTo(target, Front([WWith], BlockTo(block, Front([WDone], rest))))))
  {
    hide SpellTo, BlockTo, Idents, Front;
    CompoundWords(SpellTo(target, Front([WWith], BlockTo(block, Front([WDone], rest)))));
  }

  lemma CompoundWords(ts: Tokens)
    ensures Front([WCompound, WValue, WOf, WType], ts) == Front(FormWords(CompoundForm), Front([WOf, WType], ts))
  {
    Fronts([WCompound, WValue], [WOf, WType], ts);
    assert [WCompound, WValue] + [WOf, WType] == [WCompound, WValue, WOf, WType];
  }

  lemma CompoundFormed(ts: Tokens, p: Got<Expr>)
    requires ParseCompound(ts) == Some(p)
    ensures ParsePrimary(Front(FormWords(CompoundForm), ts)) == Some(p)
  {
    assert ParseForm(CompoundForm, ts) == ParseCompound(ts);
    Formed(CompoundForm, ts, p);
  }

  lemma BlockNotExact(block: Aggregate, rest: Tokens)
    ensures !ExactlyAt(Front([WWith], BlockTo(block, rest)), 0)
  {
    WithBefore(BlockTo(block, rest));
    BlockStart(block, rest);
  }

  lemma WithBefore(ts: Tokens)
    requires !WordAt(ts, 0, WExactly)
    ensures !ExactlyAt(Front([WWith], ts), 0)
  {
    WithIsStill(ts);
  }

  lemma BlockStart(block: Aggregate, rest: Tokens)
    ensures var ts := BlockTo(block, rest);
            && NameAt(ts, 0)
            && ts[0].word == (match block case Braces => WEmpty case Scalar(_) => WValue case Listed(kind, _) => KindWord(kind))
  {
  }

  lemma {:induction false} BlockRead(target: Spec, block: Aggregate, ts: Tokens, rest: Tokens)
    requires PrintableBlock(block)
    requires ParseSpec(ts) == Some(Got(RegroupedSpec(target), Front([WWith], BlockTo(block, Front([WDone], rest)))))
    ensures ParseCompound(Front([WOf, WType], ts)) == Some(Got(Compound(RegroupedSpec(target), RegroupedBlock(block)), rest))
    decreases block, 0
  {
    var with := BlockTo(block, Front([WDone], rest));
    CompoundHead(ts, RegroupedSpec(target), with);
    BlockStart(block, Front([WDone], rest));
    match block {
      case Braces => BracesParts(rest);
      case Scalar(single) =>
        SeparatorsAreStill(WDone, rest);
        ReadsUpTo(single, WDone, rest);
        assert with[1..] == PrintTo(single, Front([WDone], rest));
      case Listed(kind, entries) =>
        EntriesRead(kind, entries, rest);
        EntriesStart(kind, entries, Front([WDone], rest));
        ListedReads(kind, EntriesTo(kind, entries, Front([WDone], rest)), RegroupedEntries(entries), rest);
    }
  }

  lemma BracesParts(rest: Tokens)
    ensures var ts := Front([WEmpty, WBraces], Front([WDone], rest));
            ParseAggregate(ts) == Some(Got(Braces, Front([WDone], rest)))
  {
    assert TwoAt(Front([WEmpty, WBraces], Front([WDone], rest)), 0, WEmpty, WBraces);
  }

  // ----- selections -----

  lemma ChoiceStarts(a: Association, rest: Tokens)
    requires Spellable(a.target)
    ensures StartsSpec(ChoiceTo(a, rest))
  {
    SpecStarts(a.target, Front([WAs], PrintTo(a.result, rest)));
  }

  lemma ChoicesStart(associations: seq<Association>, rest: Tokens)
    requires associations != [] && Spellable(associations[0].target)
    ensures StartsSpec(ChoicesTo(associations, rest))
  {
    ChoiceStarts(associations[0], if |associations| == 1 then rest else Front([WFollowed, WBy], ChoicesTo(associations[1..], rest)));
  }

  /** What stands behind the last association. */
  predicate EndsChoices(rest: Tokens) {
    Still(rest) && !FollowedBy(rest)
  }

  lemma {:induction false} ChoiceRead(a: Association, rest: Tokens)
    requires PrintableChoice(a) && Still(rest)
    ensures var tail := PrintTo(a.result, rest);
            && ParseSpec(ChoiceTo(a, rest)) == Some(Got(RegroupedSpec(a.target), Front([WAs], tail)))
            && ParseExpr(tail) == Some(Got(Regrouped(a.result), rest))
    decreases a, 0
  {
    var tail := PrintTo(a.result, rest);
    SeparatorsAreStill(WAs, tail);
    SpecReads(a.target, Front([WAs], tail));
    ExprReads(OR_LEVEL, a.result, rest);
  }

  lemma {:induction false} ChoicesRead(associations: seq<Association>, rest: Tokens)
    requires associations != [] && (forall i :: 0 <= i < |associations| ==> PrintableChoice(associations[i])) && EndsChoices(rest)
    ensures ParseAssociations(ChoicesTo(associations, rest)) == Some(Got(RegroupedChoices(associations), rest))
    decreases associations, 0
  {
    var first := associations[0];
    if |associations| == 1 {
      ChoiceRead(first, rest);
      AssociationsEnd(ChoicesTo(associations, rest), RegroupedChoice(first), PrintTo(first.result, rest), rest);
      assert RegroupedChoices(associations) == [RegroupedChoice(first)];
    } else {
      var tail := ChoicesTo(associations[1..], rest);
      ChoicesRead(associations[1..], rest);
      FollowedIsStill(tail);
      ChoiceRead(first, Front([WFollowed, WBy], tail));
      ChoicesStart(associations[1..], rest);
      AssociationsStep(ChoicesTo(associations, rest), RegroupedChoice(first), PrintTo(first.result, Front([WFollowed, WBy], tail)),
                       tail, Got(RegroupedChoices(associations[1..]), rest));
    }
  }

  lemma {:induction false} DefaultRead(d: Default, rest: Tokens)
    requires PrintableDefault(d)
    ensures ParseDefault(DefaultTo(d, Front([WDone], rest))) == Some(Got(RegroupedDefault(d), Front([WDone], rest)))
    ensures EndsChoices(DefaultTo(d, Front([WDone], rest)))
    decreases d, 0
  {
    var done := Front([WDone], rest);
    SeparatorsAreStill(WDone, rest);
    if d.Otherwise? {
      ExprReads(OR_LEVEL, d.result, done);
      SeparatorsAreStill(WOtherwise, PrintTo(d.result, done));
      assert DefaultTo(d, done)[1..] == PrintTo(d.result, done);
    }
  }

  lemma {:induction false} SelectReads(e: Expr, rest: Tokens)
    requires e.Select? && Printable(e)
    ensures ParsePrimary(PrintTo(e, rest)) == Some(Got(Regrouped(e), rest))
    decreases e, 1
  {
    var end := DefaultTo(e.default_, Front([WDone], rest));
    var choices := ChoicesTo(e.associations, end);
    DefaultRead(e.default_, rest);
    ChoicesRead(e.associations, end);
    ChoicesStart(e.associations, end);
    WithIsStill(choices);
    ReadsUpTo(e.control, WWith, choices);
    SelectFormed(PrintTo(e.control, Front([WWith], choices)), Got(Regrouped(e.control), choices),
                 Got(RegroupedChoices(e.associations), end), RegroupedDefault(e.default_), rest);
  }

  lemma SelectFormed(ts: Tokens, control: Got<Expr>, chosen: Got<seq<Association>>, default_: Default, rest: Tokens)
    requires ParseUpTo(WWith, ts) == Some(control)
    requires !WordAt(control.rest, 0, WDone) && !WordAt(control.rest, 0, WOtherwise)
    requires ParseAssociations(control.rest) == Some(chosen) && ParseDefault(chosen.rest) == Some(Got(default_, Front([WDone], rest)))
    ensures ParsePrimary(Front([WSelect, WBy, WType, WOf], ts)) == Some(Got(Select(control.value, chosen.value, default_), rest))
  {
    hide ParsePrimary, ParseForm, ParseUpTo, ParseAssociations, ParseDefault, Front, Idents;
    SelectParts(ts, control, chosen, default_, rest);
    Formed(SelectForm, ts, Got(Select(control.value, chosen.value, default_), rest));
  }

  // ----- operators -----

  lemma NotForm(op: UnaryOp, ts: Tokens, p: Got<Expr>)
    requires !op.Neg? && ParseLevel(NOT_LEVEL, ts) == Some(p)
    ensures ParseLevel(NOT_LEVEL, Front(UnaryWords(op), ts)) == Some(Got(Unary(op, p.value), p.rest))
  {
    assert Front(UnaryWords(op), ts)[|UnaryWords(op)|..] == ts;
  }

  lemma NegatedFormed(ts: Tokens, p: Got<Expr>)
    requires ParsePrimary(ts) == Some(p)
    ensures ParsePrimary(Front([WMinus], ts)) == Some(Got(Unary(Neg, p.value), p.rest))
  {
    hide ParsePrimary, ParseForm, Front, Idents;
    NegatedParts(ts, p);
    Formed(NegateForm, ts, Got(Unary(Neg, p.value), p.rest));
  }

  lemma {:induction false} UnaryReads(e: Expr, rest: Tokens)
    requires e.Unary? && Printable(e)
    ensures ParsePrimary(PrintTo(e, rest)) == Some(Got(Regrouped(e), rest))
    decreases e, 1
  {
    var close := [CloseParen] + rest;
    CloseIsStill(rest);
    if e.unop.Neg? {
      PrimaryReads(e.operand, close);
      NegatedAbove(PrintTo(e.operand, close), Got(Regrouped(e.operand), close));
    } else {
      ExprReads(NOT_LEVEL, e.operand, close);
      NotAbove(e.unop, PrintTo(e.operand, close), Got(Regrouped(e.operand), close));
    }
    InnerReads(Front(UnaryWords(e.unop), PrintTo(e.operand, close)), Regrouped(e), rest);
  }

  lemma NegatedAbove(ts: Tokens, p: Got<Expr>)
    requires ParsePrimary(ts) == Some(p) && Quiet(p.rest)
    ensures ParseExpr(Front(UnaryWords(Neg), ts)) == Some(Got(Unary(Neg, p.value), p.rest))
  {
    NegatedFormed(ts, p);
    Climb(OR_LEVEL, PRIMARY_LEVEL, Front([WMinus], ts), Got(Unary(Neg, p.value), p.rest));
  }

  lemma NotAbove(op: UnaryOp, ts: Tokens, p: Got<Expr>)
    requires !op.Neg? && ParseLevel(NOT_LEVEL, ts) == Some(p) && Quiet(p.rest)
    ensures ParseExpr(Front(UnaryWords(op), ts)) == Some(Got(Unary(op, p.value), p.rest))
  {
    NotForm(op, ts, p);
    Climb(OR_LEVEL, NOT_LEVEL, Front(UnaryWords(op), ts), Got(Unary(op, p.value), p.rest));
  }

  /** An operand, an operator, and what follows it. */
  lemma {:induction false} InfixReads(lhs: Expr, op: Infix, tail: Tokens, right: Got<Expr>)
    requires Printable(lhs) && op != Op(Comma) && StartsExpr(tail)
    requires ParseLevel(LevelOf(op) + 1, tail) == Some(right) && Quiet(right.rest)
    ensures ParseExpr(PrintTo(lhs, Front(InfixWords(op), tail))) == Some(Got(Attached(lhs, op, right.value), right.rest))
    decreases lhs, 5
  {
    hide Front, Idents, PrintTo, ParsePrimary, ParseOperators, ParseComparison, Regrouped, Quiet;
    var mid := Front(InfixWords(op), tail);
    PrintedStarts(lhs, mid);
    OperatorIsNotExactly(op, tail);
    if OpenEnd(lhs) {
      OpenReads(lhs, op, tail, right);
      StartIsStill(PrintTo(lhs, mid));
      Climb(OR_LEVEL, PRIMARY_LEVEL, PrintTo(lhs, mid), Got(Attached(lhs, op, right.value), right.rest));
    } else {
      PrimaryReads(lhs, mid);
      InfixAtTop(op, PrintTo(lhs, mid), Regrouped(lhs), tail, right);
    }
  }

  lemma InfixAtTop(op: Infix, ts: Tokens, lhs: Expr, tail: Tokens, right: Got<Expr>)
    requires op != Op(Comma) && StartsExpr(tail) && StartsExpr(ts)
    requires ParsePrimary(ts) == Some(Got(lhs, Front(InfixWords(op), tail)))
    requires ParseLevel(LevelOf(op) + 1, tail) == Some(right) && Quiet(right.rest)
    ensures ParseExpr(ts) == Some(Got(Join(op, lhs, right.value), right.rest))
  {
    hide Front, Idents, ParseLevel, ParsePrimary, ParseOperators, ParseComparison;
    ClimbAlone(LevelOf(op) + 1, op, ts, lhs, tail);
    InfixLevel(op, ts, lhs, tail, right);
    StartIsStill(ts);
    Climb(OR_LEVEL, LevelOf(op), ts, Got(Join(op, lhs, right.value), right.rest));
  }

  /** An open end takes the operator in. */
  lemma {:induction false} OpenReads(lhs: Expr, op: Infix, tail: Tokens, right: Got<Expr>)
    requires Printable(lhs) && OpenEnd(lhs) && op != Op(Comma) && StartsExpr(tail)
    requires ParseLevel(LevelOf(op) + 1, tail) == Some(right) && Quiet(right.rest)
    ensures ParsePrimary(PrintTo(lhs, Front(InfixWords(op), tail))) == Some(Got(Attached(lhs, op, right.value), right.rest))
    decreases lhs, 4
  {
    hide Front, Idents, ParsePrimary, ParseLevel, Regrouped;
    var mid := Front(InfixWords(op), tail);
    if lhs.Prefixed? {
      OpenReads(lhs.operand, op, tail, right);
      PrintedStarts(lhs.operand, mid);
      PrefixForm(lhs.form, PrintTo(lhs.operand, mid));
    } else if lhs.Element? || lhs.Item? {
      OpenReads(lhs.base, op, tail, right);
      IndexText(lhs.Element?, lhs.index, PrintTo(lhs.base, mid), Got(Attached(lhs.base, op, right.value), right.rest));
    } else if lhs.Cast? {
      OpenCastReads(lhs, op, tail, right);
    } else if lhs.SizeOfType? || lhs.AlignOfType? || lhs.VaArg? {
      OpenTypedReads(lhs, op, tail, right);
    } else {
      InfixReads(lhs.whenFalse, op, tail, right);
      ChooseText(lhs, PrintTo(lhs.whenFalse, mid), Got(Attached(lhs.whenFalse, op, right.value), right.rest));
    }
  }

  lemma {:induction false} OpenCastReads(lhs: Expr, op: Infix, tail: Tokens, right: Got<Expr>)
    requires lhs.Cast? && Printable(lhs) && OpenEnd(lhs) && op != Op(Comma) && StartsExpr(tail)
    requires ParseLevel(LevelOf(op) + 1, tail) == Some(right) && Quiet(right.rest)
    ensures ParsePrimary(PrintTo(lhs, Front(InfixWords(op), tail))) == Some(Got(Attached(lhs, op, right.value), right.rest))
    decreases lhs, 3
  {
    hide Front, Idents, ParsePrimary, ParseLevel, ParseSpec, Regrouped, Quiet, StartsExpr;
    var type_ := SpellTo(lhs.target, Front(InfixWords(op), tail));
    OpenSpecReads(lhs.target, op, tail, right);
    ToTypeIsStill(type_);
    PrimaryReads(lhs.operand, Front([WTo, WType], type_));
    CastFormed(PrintTo(lhs.operand, Front([WTo, WType], type_)), Regrouped(lhs.operand), type_,
               Got(AttachedSpec(lhs.target, op, right.value), right.rest));
  }

  lemma {:induction false} OpenTypedReads(lhs: Expr, op: Infix, tail: Tokens, right: Got<Expr>)
    requires (lhs.SizeOfType? || lhs.AlignOfType? || lhs.VaArg?) && Printable(lhs) && OpenEnd(lhs)
    requires op != Op(Comma) && StartsExpr(tail)
    requires ParseLevel(LevelOf(op) + 1, tail) == Some(right) && Quiet(right.rest)
    ensures ParsePrimary(PrintTo(lhs, Front(InfixWords(op), tail))) == Some(Got(Attached(lhs, op, right.value), right.rest))
    decreases lhs, 3
  {
    hide Front, Idents, PrintTo, ParsePrimary, ParseLevel, ParseSpec, Regrouped, Quiet, StartsExpr;
    var mid := Front(InfixWords(op), tail);
    var target := Got(AttachedSpec(lhs.target, op, right.value), right.rest);
    OpenSpecReads(lhs.target, op, tail, right);
    if lhs.SizeOfType? {
      SizeText(lhs.target, mid);
      SizeFormed(SpellTo(lhs.target, mid), target);
    } else if lhs.AlignOfType? {
      AlignText(lhs.target, mid);
      AlignFormed(SpellTo(lhs.target, mid), target);
    } else {
      NextText(lhs.source, lhs.target, mid);
      NextFormed(lhs.source, SpellTo(lhs.target, mid), target);
    }
  }

  /** So does a type that ends in an expression. */
  lemma {:induction false} OpenSpecReads(t: Spec, op: Infix, tail: Tokens, right: Got<Expr>)
    requires Spellable(t) && OpenType(t) && op != Op(Comma) && StartsExpr(tail)
    requires ParseLevel(LevelOf(op) + 1, tail) == Some(right) && Quiet(right.rest)
    ensures ParseSpec(SpellTo(t, Front(InfixWords(op), tail))) == Some(Got(AttachedSpec(t, op, right.value), right.rest))
    decreases t, 7
  {
    hide Front, Idents, BodyTo, ParseBody, ParseLevel, Regrouped, Quiet, StartsExpr, AttachedSpec;
    OpenBodyReads(t, op, tail, right);
    BodyStarts(t, Front(InfixWords(op), tail));
    QualifiersRead(t.q, BodyTo(t, Front(InfixWords(op), tail)));
  }

  lemma {:induction false} OpenBodyReads(t: Spec, op: Infix, tail: Tokens, right: Got<Expr>)
    requires Spellable(t) && OpenType(t) && op != Op(Comma) && StartsExpr(tail)
    requires ParseLevel(LevelOf(op) + 1, tail) == Some(right) && Quiet(right.rest)
    ensures ParseBody(t.q, BodyTo(t, Front(InfixWords(op), tail))) == Some(Got(AttachedSpec(t, op, right.value), right.rest))
    decreases t, 6
  {
    hide Front, Idents, PrintTo, SpellTo, ParseSpec, ParseBody, ParseLevel, ParseResult, Regrouped, Quiet, StartsExpr;
    var mid := Front(InfixWords(op), tail);
    if t.PointerTo? {
      OpenSpecReads(t.to, op, tail, right);
      PointerForm(t.q, SpellTo(t.to, mid));
    } else if t.VariableArray? {
      var length := PrintTo(t.length, mid);
      LengthIsStill(length);
      SpecReads(t.to, Front([WWith, WLength], length));
      InfixReads(t.length, op, tail, right);
      LengthStart(t.length, mid);
      LengthForm(t.q, SpellTo(t.to, Front([WWith, WLength], length)), RegroupedSpec(t.to), length,
                 Got(Attached(t.length, op, right.value), right.rest));
    } else {
      OpenSpecReads(t.result, op, tail, right);
      FunctionReads(t.q, t.params, SpellTo(t.result, mid));
      ResultForm(t.q, RegroupedSpecs(t.params), SpellTo(t.result, mid), Got(AttachedSpec(t.result, op, right.value), right.rest));
    }
  }

  lemma ResultForm(q: Qualifiers, params: seq<Spec>, ts: Tokens, result: Got<Spec>)
    requires ParseSpec(ts) == Some(result)
    ensures ParseResult(q, params, false, ts) == Some(Got(FunctionOf(q, params, false, result.value), result.rest))
  {
  }

  lemma {:induction false} InfixParensRead(e: Expr, rest: Tokens)
    requires (e.Binary? || e.Pow?) && Printable(e)
    ensures ParsePrimary(PrintTo(e, rest)) == Some(Got(Regrouped(e), rest))
    decreases e, 1
  {
    var op := if e.Pow? then Power else Op(e.op);
    var close := [CloseParen] + rest;
    var tail := PrintTo(e.rhs, close);
    CloseIsStill(rest);
    ExprReads(LevelOf(op) + 1, e.rhs, close);
    PrintedStarts(e.rhs, close);
    InfixReads(e.lhs, op, tail, Got(Regrouped(e.rhs), close));
    InnerReads(PrintTo(e.lhs, Front(InfixWords(op), tail)), Attached(e.lhs, op, Regrouped(e.rhs)), rest);
  }

  // ----- text that what follows continues -----

  /** Whatever the parser makes of it, more is used up than the text of the expression. */
  predicate Overruns(r: Option<Got<Expr>>, rest: Tokens) {
    r.Some? ==> |r.value.rest| < |rest|
  }

  lemma {:induction false} ClimbOver(level: nat, ts: Tokens, rest: Tokens)
    requires level <= PRIMARY_LEVEL && Overruns(ParsePrimary(ts), rest)
    requires !WordAt(ts, 0, WNot) && !WordAt(ts, 0, WBitwise)
    ensures Overruns(ParseLevel(level, ts), rest)
    decreases PRIMARY_LEVEL - level
  {
    if level < PRIMARY_LEVEL {
      ClimbOver(level + 1, ts, rest);
    }
  }

  lemma {:induction false} BareOverruns(e: Expr, rest: Tokens)
    requires Printable(e) && BareEnd(e) && ExactlyAt(rest, 0)
    ensures Overruns(ParsePrimary(PrintTo(e, rest)), rest)
    decreases e, 2
  {
    if e.Prefixed? {
      BareOverruns(e.operand, rest);
      PrintedStarts(e.operand, rest);
      PrefixForm(e.form, PrintTo(e.operand, rest));
    } else if e.Conditional? {
      BareOverruns(e.whenFalse, rest);
      ChooseOverruns(e, rest);
    } else if e.Element? || e.Item? {
      BareOverruns(e.base, rest);
      IndexOverruns(e, rest);
    } else if e.Cast? {
      CastOverruns(e, rest);
    } else {
      TypeOverruns(e, rest);
    }
  }

  lemma ChooseOverruns(e: Expr, rest: Tokens)
    requires e.Conditional? && Printable(e) && Overruns(ParsePrimary(PrintTo(e.whenFalse, rest)), rest)
    ensures Overruns(ParsePrimary(PrintTo(e, rest)), rest)
  {
    var tail := PrintTo(e.whenFalse, rest);
    var second := PrintTo(e.condition, Front([WOtherwise], tail));
    PrintedStarts(e.whenFalse, rest);
    StartIsStill(tail);
    ClimbOver(OR_LEVEL, tail, rest);
    SeparatorsAreStill(WWhen, second);
    SeparatorsAreStill(WOtherwise, tail);
    ReadsUpTo(e.whenTrue, WWhen, second);
    ReadsUpTo(e.condition, WOtherwise, tail);
    ChooseOver(PrintTo(e.whenTrue, Front([WWhen], second)), Got(Regrouped(e.whenTrue), second), Got(Regrouped(e.condition), tail), rest);
  }

  lemma ChooseOver(ts: Tokens, a: Got<Expr>, c: Got<Expr>, rest: Tokens)
    requires ParseUpTo(WWhen, ts) == Some(a) && ParseUpTo(WOtherwise, a.rest) == Some(c) && Overruns(ParseExpr(c.rest), rest)
    ensures Overruns(ParsePrimary(Front([WChoose], ts)), rest)
  {
    FormReads(ChooseForm, ts);
    ChoosePartsOver(ts, a, c, rest);
  }

  lemma ChoosePartsOver(ts: Tokens, a: Got<Expr>, c: Got<Expr>, rest: Tokens)
    requires ParseUpTo(WWhen, ts) == Some(a) && ParseUpTo(WOtherwise, a.rest) == Some(c) && Overruns(ParseExpr(c.rest), rest)
    ensures Overruns(ParseForm(ChooseForm, ts), rest)
  {
    assert Overruns(ParseChoose(ts), rest);
  }

  lemma IndexOverruns(e: Expr, rest: Tokens)
    requires (e.Element? || e.Item?) && Printable(e) && Overruns(ParsePrimary(PrintTo(e.base, rest)), rest)
    ensures Overruns(ParsePrimary(PrintTo(e, rest)), rest)
  {
    var tail := PrintTo(e.base, rest);
    SeparatorsAreStill(WIn, tail);
    ReadsUpTo(e.index, WIn, tail);
    IndexOver(e.Element?, PrintTo(e.index, Front([WIn], tail)), Got(Regrouped(e.index), tail), rest);
  }

  lemma IndexOver(element: bool, ts: Tokens, index: Got<Expr>, rest: Tokens)
    requires ParseUpTo(WIn, ts) == Some(index) && Overruns(ParsePrimary(index.rest), rest)
    ensures Overruns(ParsePrimary(Front(IndexWords(element), ts)), rest)
  {
    FormReads(if element then ElementForm else ItemForm, ts);
    IndexPartsOver(element, ts, index, rest);
  }

  lemma IndexPartsOver(element: bool, ts: Tokens, index: Got<Expr>, rest: Tokens)
    requires ParseUpTo(WIn, ts) == Some(index) && Overruns(ParsePrimary(index.rest), rest)
    ensures Overruns(ParseForm(if element then ElementForm else ItemForm, ts), rest)
  {
    assert Overruns(ParseIndexed(element, ts), rest);
  }

  predicate SpecOverruns(r: Option<Got<Spec>>, rest: Tokens) {
    r.Some? ==> |r.value.rest| < |rest|
  }

  lemma {:induction false} ReadingOverruns(t: Spec, rest: Tokens)
    requires Spellable(t) && EndsBare(t) && ExactlyAt(rest, 0)
    ensures SpecOverruns(ParseSpec(SpellTo(t, rest)), rest)
    decreases t, 7
  {
    if OpenType(t) {
      hide Front, Idents, BodyTo, ParseBody;
      OpenOverruns(t, rest);
      BodyStarts(t, rest);
      QualifiersRead(t.q, BodyTo(t, rest));
    } else {
      SpecReads(t, rest);
    }
  }

  lemma {:induction false} OpenOverruns(t: Spec, rest: Tokens)
    requires Spellable(t) && OpenType(t) && EndsBare(t) && ExactlyAt(rest, 0)
    ensures SpecOverruns(ParseBody(t.q, BodyTo(t, rest)), rest)
    decreases t, 6
  {
    hide Front, Idents, PrintTo, SpellTo, ParseSpec, ParseBody, ParseLevel, ParseResult, ParsePrimary;
    if t.PointerTo? {
      ReadingOverruns(t.to, rest);
      PointerForm(t.q, SpellTo(t.to, rest));
    } else if t.VariableArray? {
      var length := PrintTo(t.length, rest);
      LengthIsStill(length);
      SpecReads(t.to, Front([WWith, WLength], length));
      BareOverruns(t.length, rest);
      PrintedStarts(t.length, rest);
      StartIsStill(length);
      ClimbOver(OR_LEVEL, length, rest);
      LengthStart(t.length, rest);
      LengthOver(t.q, SpellTo(t.to, Front([WWith, WLength], length)), RegroupedSpec(t.to), length, rest);
    } else {
      ReadingOverruns(t.result, rest);
      FunctionReads(t.q, t.params, SpellTo(t.result, rest));
      ResultOver(t.q, RegroupedSpecs(t.params), SpellTo(t.result, rest), rest);
    }
  }

  lemma LengthOver(q: Qualifiers, ts: Tokens, element: Spec, length: Tokens, rest: Tokens)
    requires ParseSpec(ts) == Some(Got(element, Front([WWith, WLength], length)))
    requires !NumAt(length, 0) && Overruns(ParseExpr(length), rest)
    ensures SpecOverruns(ParseBody(q, Front([WArray, WOf], ts)), rest)
  {
    assert TwoAt(Front([WArray, WOf], ts), 0, WArray, WOf);
    assert Front([WWith, WLength], length)[1..][1..] == length;
    assert Front([WWith, WLength], length)[1..][0] == Ident(WLength);
  }

  lemma ResultOver(q: Qualifiers, params: seq<Spec>, ts: Tokens, rest: Tokens)
    requires SpecOverruns(ParseSpec(ts), rest)
    ensures SpecOverruns(ParseResult(q, params, false, ts), rest)
  {
  }

  lemma {:induction false} CastOverruns(e: Expr, rest: Tokens)
    requires e.Cast? && Printable(e) && EndsBare(e.target) && ExactlyAt(rest, 0)
    ensures Overruns(ParsePrimary(PrintTo(e, rest)), rest)
    decreases e, 1
  {
    var type_ := SpellTo(e.target, rest);
    ToTypeIsStill(type_);
    PrimaryReads(e.operand, Front([WTo, WType], type_));
    ReadingOverruns(e.target, rest);
    CastOver(PrintTo(e.operand, Front([WTo, WType], type_)), Regrouped(e.operand), type_, rest);
  }

  lemma CastOver(ts: Tokens, operand: Expr, after: Tokens, rest: Tokens)
    requires ParsePrimary(ts) == Some(Got(operand, Front([WTo, WType], after)))
    requires ParseSpec(after).Some? ==> |ParseSpec(after).value.rest| < |rest|
    ensures Overruns(ParsePrimary(Front([WConvert], ts)), rest)
  {
    CastPartsOver(ts, operand, after, rest);
    FormReads(ConvertForm, ts);
  }

  lemma CastPartsOver(ts: Tokens, operand: Expr, after: Tokens, rest: Tokens)
    requires ParsePrimary(ts) == Some(Got(operand, Front([WTo, WType], after)))
    requires ParseSpec(after).Some? ==> |ParseSpec(after).value.rest| < |rest|
    ensures Overruns(ParseForm(ConvertForm, ts), rest)
  {
    assert Front([WTo, WType], after)[1..][1..] == after;
    assert Overruns(ParseConvert(ts), rest);
  }

  lemma {:induction false} TypeOverruns(e: Expr, rest: Tokens)
    requires (e.SizeOfType? || e.AlignOfType? || e.VaArg?) && Printable(e) && EndsBare(e.target) && ExactlyAt(rest, 0)
    ensures Overruns(ParsePrimary(PrintTo(e, rest)), rest)
    decreases e, 1
  {
    ReadingOverruns(e.target, rest);
    if e.VaArg? {
      NextText(e.source, e.target, rest);
      NextOver(e.source, SpellTo(e.target, rest), rest);
    } else {
      if e.SizeOfType? { SizeText(e.target, rest); } else { AlignText(e.target, rest); }
      SizeOver(e.SizeOfType?, SpellTo(e.target, rest), rest);
    }
  }

  lemma SizeOver(size: bool, ts: Tokens, rest: Tokens)
    requires ParseSpec(ts).Some? ==> |ParseSpec(ts).value.rest| < |rest|
    ensures Overruns(ParsePrimary(Front(FormWords(if size then SizeTypeForm else AlignForm), ts)), rest)
  {
    SizePartsOver(size, ts, rest);
    FormReads(if size then SizeTypeForm else AlignForm, ts);
  }

  lemma SizePartsOver(size: bool, ts: Tokens, rest: Tokens)
    requires ParseSpec(ts).Some? ==> |ParseSpec(ts).value.rest| < |rest|
    ensures Overruns(ParseForm(if size then SizeTypeForm else AlignForm, ts), rest)
  {
  }

  lemma NextOver(source: Option<Name>, ts: Tokens, rest: Tokens)
    requires ParseSpec(ts).Some? ==> |ParseSpec(ts).value.rest| < |rest|
    ensures Overruns(ParsePrimary(Front(FormWords(NextForm), Front(SourceWords(source), ts))), rest)
  {
    NextPartsOver(source, ts, rest);
    FormReads(NextForm, Front(SourceWords(source), ts));
  }

  lemma NextPartsOver(source: Option<Name>, ts: Tokens, rest: Tokens)
    requires ParseSpec(ts).Some? ==> |ParseSpec(ts).value.rest| < |rest|
    ensures Overruns(ParseForm(NextForm, Front(SourceWords(source), ts)), rest)
  {
    var all := Front(SourceWords(source), ts);
    if source.Some? {
      assert all[1..][1..][1..] == ts;
      assert all[1..][0] == Ident(source.value) && all[1..][1..][0] == Ident(WAs);
    }
    assert Overruns(ParseNext(all), rest);
  }

  // ----- main results -----

  /** Printed text, with no operator behind it that is not continued as a type, is read as the
      regrouped expression. */
  lemma PrintedReadsRegrouped(e: Expr, rest: Tokens)
    requires Printable(e) && Quiet(rest) && !(BareEnd(e) && ExactlyAt(rest, 0))
    ensures ParseExpr(PrintTo(e, rest)) == Some(Got(Regrouped(e), rest))
  {
    ExprReads(OR_LEVEL, e, rest);
  }

  /** Nothing but a decimal or a string changes where no parts are read. */
  lemma AtomIff(e: Expr)
    requires !e.Prefixed? && !e.Unary? && !e.Cast? && !e.SizeOfType? && !e.AlignOfType? && !e.VaArg? && !e.Conditional?
    requires !e.Element? && !e.Item? && !e.ListOf? && !e.Call? && !e.Compound? && !e.Select? && !e.Pow? && !e.Binary?
    requires Printable(e)
    ensures Agrees(e)
  {
    if e.StringLit? { Literals.AloneIff(e.text); }
  }

  predicate Agrees(e: Expr) { Regrouped(e) == e <==> Closed(e) }

  lemma OperandIff(e: Expr)
    requires (e.Prefixed? || e.Unary?) && Agrees(e.operand)
    ensures Agrees(e)
  {
  }

  lemma TypedIff(e: Expr)
    requires e.SizeOfType? || e.AlignOfType? || e.VaArg?
    requires SpecAgrees(e.target)
    ensures Agrees(e)
  {
  }

  lemma IndexIff(e: Expr)
    requires (e.Element? || e.Item?) && Agrees(e.index) && Agrees(e.base)
    ensures Agrees(e)
  {
  }

  /** An open end turns the whole into another form. */
  lemma AttachedForm(lhs: Expr, op: Infix, rhs: Expr)
    ensures if OpenEnd(lhs) then !Attached(lhs, op, rhs).Pow? && !Attached(lhs, op, rhs).Binary?
            else Attached(lhs, op, rhs) == Join(op, Regrouped(lhs), rhs)
  {
    hide Regrouped;
  }

  lemma PowIff(lhs: Expr, rhs: Expr)
    requires Agrees(lhs) && Agrees(rhs)
    ensures Agrees(Pow(lhs, rhs))
  {
    hide Attached, OpenEnd, RegroupedAll, RegroupedBlock, RegroupedChoices, RegroupedDefault, RegroupedSpec;
    AttachedForm(lhs, Power, Regrouped(rhs));
  }

  lemma BinaryIff(op: BinOp, lhs: Expr, rhs: Expr)
    requires Agrees(lhs) && Agrees(rhs)
    ensures Agrees(Binary(op, lhs, rhs))
  {
    hide Attached, OpenEnd, RegroupedAll, RegroupedBlock, RegroupedChoices, RegroupedDefault, RegroupedSpec;
    AttachedForm(lhs, Op(op), Regrouped(rhs));
  }

  lemma {:induction false} RegroupedIff(e: Expr)
    requires Printable(e)
    ensures Agrees(e)
    decreases e, 1
  {
    hide Agrees, RegroupedSpec, ClosedSpec, Spellable;
    match e
    case Prefixed(_, operand) => RegroupedIff(operand); OperandIff(e);
    case Unary(_, operand) => RegroupedIff(operand); OperandIff(e);
    case SizeOfType(target) => SpecIff(target); TypedIff(e);
    case AlignOfType(target) => SpecIff(target); TypedIff(e);
    case VaArg(_, target) => SpecIff(target); TypedIff(e);
    case Cast(_, _) => PartsIff(e);
    case Conditional(_, _, _) => PartsIff(e);
    case Element(_, _) => PairIff(e);
    case Item(_, _) => PairIff(e);
    case Pow(_, _) => PairIff(e);
    case Binary(_, _, _) => PairIff(e);
    case ListOf(_) => ManyIff(e);
    case Call(_, _) => ManyIff(e);
    case Compound(target, block) => CompoundIff(target, block);
    case Select(control, choices, default_) => SelectIff(control, choices, default_);
    case _ => AtomIff(e);
  }

  lemma {:induction false} PairIff(e: Expr)
    requires Printable(e) && (e.Element? || e.Item? || e.Pow? || e.Binary?)
    ensures Agrees(e)
    decreases e, 0
  {
    if e.Element? || e.Item? {
      RegroupedIff(e.index);
      RegroupedIff(e.base);
      IndexIff(e);
    } else {
      RegroupedIff(e.lhs);
      RegroupedIff(e.rhs);
      if e.Pow? { PowIff(e.lhs, e.rhs); } else { BinaryIff(e.op, e.lhs, e.rhs); }
    }
  }

  lemma {:induction false} PartsIff(e: Expr)
    requires Printable(e) && (e.Cast? || e.Conditional?)
    ensures Agrees(e)
    decreases e, 0
  {
    if e.Cast? {
      RegroupedIff(e.operand);
      SpecIff(e.target);
    } else {
      RegroupedIff(e.whenTrue);
      RegroupedIff(e.condition);
      RegroupedIff(e.whenFalse);
    }
  }

  lemma {:induction false} ManyIff(e: Expr)
    requires Printable(e) && (e.ListOf? || e.Call?)
    ensures Agrees(e)
    decreases e, 0
  {
    hide RegroupedSpec, ClosedSpec, Spellable, Attached, OpenEnd;
    RegroupedAllIff(e.items);
  }

  lemma {:induction false} CompoundIff(target: Spec, block: Aggregate)
    requires Printable(Compound(target, block))
    ensures Agrees(Compound(target, block))
    decreases Compound(target, block), 0
  {
    hide RegroupedSpec, ClosedSpec, Spellable, Attached, OpenEnd;
    SpecIff(target);
    RegroupedBlockIff(block);
  }

  lemma {:induction false} SelectIff(control: Expr, choices: seq<Association>, default_: Default)
    requires Printable(Select(control, choices, default_))
    ensures Agrees(Select(control, choices, default_))
    decreases Select(control, choices, default_), 0
  {
    RegroupedIff(control);
    RegroupedChoicesIff(choices);
    RegroupedDefaultIff(default_);
    SelectAgrees(Select(control, choices, default_));
  }

  lemma {:induction false} RegroupedDefaultIff(d: Default)
    requires PrintableDefault(d)
    ensures RegroupedDefault(d) == d <==> ClosedDefault(d)
    decreases d
  {
    if d.Otherwise? { RegroupedIff(d.result); }
  }

  lemma SelectAgrees(e: Expr)
    requires e.Select? && Agrees(e.control) && (RegroupedDefault(e.default_) == e.default_ <==> ClosedDefault(e.default_))
    requires RegroupedChoices(e.associations) == e.associations <==>
             forall i :: 0 <= i < |e.associations| ==> ClosedChoice(e.associations[i])
    ensures Agrees(e)
  {
    hide RegroupedChoices, ClosedChoice, RegroupedDefault, ClosedDefault;
  }

  predicate SpecAgrees(t: Spec) { RegroupedSpec(t) == t <==> ClosedSpec(t) }

  lemma {:induction false} SpecIff(t: Spec)
    requires Spellable(t)
    ensures SpecAgrees(t)
    decreases t, 1
  {
    if t.PointerTo? || t.ArrayOf? {
      SpecIff(t.to);
    } else if t.VariableArray? {
      SpecIff(t.to);
      RegroupedIff(t.length);
      LengthIff(t);
    } else if t.TypeOfExpr? {
      RegroupedIff(t.expr);
    } else if t.FunctionOf? {
      SpecIff(t.result);
      SpecsIff(t.params);
    }
  }

  lemma LengthIff(t: Spec)
    requires t.VariableArray? && SpecAgrees(t.to) && Agrees(t.length) && Spellable(t)
    ensures SpecAgrees(t)
  {
  }

  lemma {:induction false} SpecsIff(ts: seq<Spec>)
    requires forall i :: 0 <= i < |ts| ==> Spellable(ts[i])
    ensures RegroupedSpecs(ts) == ts <==> forall i :: 0 <= i < |ts| ==> ClosedSpec(ts[i])
    decreases ts, 0
  {
    forall i | 0 <= i < |ts| ensures RegroupedSpec(ts[i]) == ts[i] <==> ClosedSpec(ts[i]) {
      SpecIff(ts[i]);
      assert SpecAgrees(ts[i]);
    }
    var r := RegroupedSpecs(ts);
    if forall i :: 0 <= i < |ts| ==> ClosedSpec(ts[i]) {
      assert r == ts;
    }
  }

  lemma {:induction false} RegroupedAllIff(es: seq<Expr>)
    requires forall i :: 0 <= i < |es| ==> Printable(es[i])
    ensures RegroupedAll(es) == es <==> forall i :: 0 <= i < |es| ==> Closed(es[i])
    decreases es
  {
    forall i | 0 <= i < |es| ensures Regrouped(es[i]) == es[i] <==> Closed(es[i]) {
      RegroupedIff(es[i]);
    }
    var r := RegroupedAll(es);
    if forall i :: 0 <= i < |es| ==> Closed(es[i]) {
      assert r == es;
    }
  }

  lemma {:induction false} RegroupedChoicesIff(choices: seq<Association>)
    requires forall i :: 0 <= i < |choices| ==> PrintableChoice(choices[i])
    ensures RegroupedChoices(choices) == choices <==> forall i :: 0 <= i < |choices| ==> ClosedChoice(choices[i])
    decreases choices
  {
    forall i | 0 <= i < |choices| ensures RegroupedChoice(choices[i]) == choices[i] <==> ClosedChoice(choices[i]) {
      assert choices[i].result < choices[i];
      SpecIff(choices[i].target);
      RegroupedIff(choices[i].result);
    }
    var r := RegroupedChoices(choices);
    if forall i :: 0 <= i < |choices| ==> ClosedChoice(choices[i]) {
      assert r == choices;
    }
  }

  lemma {:induction false} RegroupedEntryIff(kind: EntryKind, entry: Entry)
    requires PrintableEntry(kind, entry)
    ensures RegroupedEntry(entry) == entry <==> ClosedEntry(entry)
    decreases entry
  {
    assert entry.content.expr < entry.content;
    RegroupedIff(entry.content.expr);
  }

  lemma {:induction false} RegroupedBlockIff(block: Aggregate)
    requires PrintableBlock(block)
    ensures RegroupedBlock(block) == block <==> ClosedBlock(block)
    decreases block
  {
    if block.Scalar? {
      RegroupedIff(block.single);
    } else if block.Listed? {
      forall i | 0 <= i < |block.entries| ensures RegroupedEntry(block.entries[i]) == block.entries[i] <==> ClosedEntry(block.entries[i]) {
        assert block.entries[i] < block && PrintableEntry(block.kind, block.entries[i]);
        RegroupedEntryIff(block.kind, block.entries[i]);
      }
      var r := RegroupedEntries(block.entries);
      if ClosedBlock(block) {
        assert r == block.entries;
      }
    }
  }

  /** The round trip holds exactly when no left operand ends in an open Choose, no function type
      is variadic, no decimal is a small whole number, and what follows does not continue the
      type at the end. */
  lemma RoundTripIff(e: Expr, rest: Tokens)
    requires Printable(e) && Quiet(rest)
    ensures ParseExpr(PrintTo(e, rest)) == Some(Got(e, rest)) <==> Closed(e) && !(BareEnd(e) && ExactlyAt(rest, 0))
  {
    hide PrintTo, Regrouped, ParseLevel, ParsePrimary, Closed;
    if BareEnd(e) && ExactlyAt(rest, 0) {
      BareOverruns(e, rest);
      PrintedStarts(e, rest);
      StartIsStill(PrintTo(e, rest));
      ClimbOver(OR_LEVEL, PrintTo(e, rest), rest);
    } else {
      PrintedReadsRegrouped(e, rest);
      RegroupedIff(e);
    }
  }

  /** Whatever follows, the spelling of a type is read as that type, regrouped; only a bare "integer"
      is continued by "with exactly N bits", and only an expression at the end by an operator. */
  lemma SpelledReads(t: Spec, rest: Tokens)
    requires Spellable(t) && SpecLeaves(t, rest)
    ensures ParseSpec(SpellTo(t, rest)) == Reading(t, rest)
  {
    SpecReads(t, rest);
  }

  /** The round trip of a type holds exactly when nothing is variadic, expressions come back, and
      what follows does not continue the spelling. */
  lemma TypeRoundTripIff(t: Spec, rest: Tokens)
    requires Spellable(t) && (OpenType(t) ==> Quiet(rest))
    ensures ParseSpec(SpellTo(t, rest)) == Some(Got(t, rest)) <==>
              ClosedSpec(t) && !(EndsBare(t) && ExactlyAt(rest, 0))
  {
    if EndsBare(t) && ExactlyAt(rest, 0) {
      ReadingOverruns(t, rest);
    } else {
      SpecReads(t, rest);
      SpecIff(t);
      assert SpecAgrees(t);
    }
  }

  /** The spelling printed for Comma is not in the grammar. */
  lemma CommaIsUnreadable(first: Expr, last: Expr, rest: Tokens)
    requires Printable(first)
    ensures ParseExpr(PrintTo(Binary(Comma, first, last), rest)) == None
  {
    var then_ := Front([WThen], PrintTo(last, [CloseParen] + rest));
    SeparatorsAreStill(WThen, PrintTo(last, [CloseParen] + rest));
    ExprReads(OR_LEVEL, first, then_);
    CommaText(first, last, rest);
    NotClosedAnywhere(PrintTo(first, then_), Got(Regrouped(first), then_));
  }

  lemma CommaText(first: Expr, last: Expr, rest: Tokens)
    ensures PrintTo(Binary(Comma, first, last), rest) ==
            [OpenParen] + PrintTo(first, Front([WThen], PrintTo(last, [CloseParen] + rest)))
  {
    hide Front, Idents, PrintTo;
    BinaryText(Comma, first, last, rest);
    assert OpWords(Comma) == [WThen];
  }

  lemma BinaryText(op: BinOp, lhs: Expr, rhs: Expr, rest: Tokens)
    ensures PrintTo(Binary(op, lhs, rhs), rest) ==
            [OpenParen] + PrintTo(lhs, Front(OpWords(op), PrintTo(rhs, [CloseParen] + rest)))
  {
    hide *;
    InfixText(Binary(op, lhs, rhs), rest);
  }

  lemma InfixText(e: Expr, rest: Tokens)
    requires e.Binary?
    ensures PrintTo(e, rest) == [OpenParen] + PrintTo(e.lhs, Front(OpWords(e.op), PrintTo(e.rhs, [CloseParen] + rest)))
  {
    hide Front, Idents, OpWords, SpellTo, ItemsTo, ArgsTo, BlockTo, ChoicesTo, DefaultTo, PrefixWords, UnaryWords, DecimalToken,
         ItemsWord, SourceWords, Literals.Plain;
  }

  lemma NotClosedAnywhere(inner: Tokens, p: Got<Expr>)
    requires ParseExpr(inner) == Some(p) && (p.rest == [] || p.rest[0] != CloseParen)
    ensures ParseExpr([OpenParen] + inner) == None
  {
    NotClosed(inner, p);
    NothingAbove(OR_LEVEL, [OpenParen] + inner);
  }

  lemma NotClosed(inner: Tokens, p: Got<Expr>)
    requires ParseExpr(inner) == Some(p) && (p.rest == [] || p.rest[0] != CloseParen)
    ensures ParsePrimary([OpenParen] + inner) == None
  {
    ParenReads(inner);
  }

  lemma {:induction false} NothingAbove(level: nat, ts: Tokens)
    requires level <= PRIMARY_LEVEL && ParsePrimary(ts) == None && ts != [] && !ts[0].Ident?
    ensures ParseLevel(level, ts) == None
    decreases PRIMARY_LEVEL - level
  {
    if level < PRIMARY_LEVEL {
      NothingAbove(level + 1, ts);
    }
  }

  /** What the printer has no text for that the tokenizer takes. */
  predicate Unknown(e: Expr) {
    match e
    case IntLit(n) => n < 0
    case FloatLit(v) => v < 0.0
    case LockFree(_) => true
    case LimitOfType(_, _) => true
    case OffsetOf(_, _) => true
    case AtomicExchange(_, _) => true
    case AtomicRmw(_, _, _) => true
    case IndirectCall(_, _) => true
    case _ => false
  }

  lemma UnknownIsUnreadable(e: Expr, rest: Tokens)
    requires Unknown(e)
    ensures ParseExpr(PrintTo(e, rest)) == None
  {
    UnknownText(e, rest);
    GarbledPrimary(rest);
    NothingAbove(OR_LEVEL, [Garbled] + rest);
  }

  lemma UnknownText(e: Expr, rest: Tokens)
    requires Unknown(e)
    ensures PrintTo(e, rest) == [Garbled] + rest
  {
  }

  lemma GarbledPrimary(rest: Tokens)
    ensures ParsePrimary([Garbled] + rest) == None
  {
    var ts := [Garbled] + rest;
    assert PrefixAt(ts) == None && FormAt(ts) == None && ParseAtom(ts) == None;
  }

  /** The functions that the grammar spells in another way are printed by a name that is read as a
      variable, with the rest of the text left over. */
  lemma OtherFunctionIsLost(func: Name, operand: Expr, rest: Tokens)
    requires Printable(operand) && (func.Named? || func == WReal || func == WImaginary)
    ensures var ts := PrintTo(operand, rest);
            ParseExpr(PrintTo(Prefixed(Math(func), operand), rest)) == Some(Got(VarRef(func), Front([WOf], ts)))
  {
    hide Front, Idents, ParseLevel, ParsePrimary, Quiet;
    var ts := PrintTo(operand, rest);
    MathText(func, operand, rest);
    NameIsVariable(func, ts);
    OfIsStill(ts);
    NameIsPrimary(func, ts);
    Climb(OR_LEVEL, PRIMARY_LEVEL, Front([func, WOf], ts), Got(VarRef(func), Front([WOf], ts)));
  }

  lemma MathText(func: Name, operand: Expr, rest: Tokens)
    ensures PrintTo(Prefixed(Math(func), operand), rest) == Front([func, WOf], PrintTo(operand, rest))
  {
    assert PrefixWords(Math(func)) == [func, WOf];
  }

  lemma NameIsPrimary(func: Name, ts: Tokens)
    ensures ParseLevel(PRIMARY_LEVEL, Front([func, WOf], ts)) == ParsePrimary(Front([func, WOf], ts))
  {
    hide ParsePrimary, Front, Idents;
  }

  lemma OfIsStill(ts: Tokens)
    ensures Still(Front([WOf], ts))
  {
  }

  lemma NameIsVariable(func: Name, ts: Tokens)
    requires func.Named? || func == WReal || func == WImaginary
    ensures ParsePrimary(Front([func, WOf], ts)) == Some(Got(VarRef(func), Front([WOf], ts)))
  {
    hide Front, Idents, PrefixAt, FormAt, ParseAtom;
    NameIsNoForm(func, ts);
    NameIsAtom(func, ts);
  }

  lemma NameIsNoForm(func: Name, ts: Tokens)
    requires func.Named? || func == WReal || func == WImaginary
    ensures PrefixAt(Front([func, WOf], ts)) == None && FormAt(Front([func, WOf], ts)) == None
  {
    hide Front, Idents;
    var all := Front([func, WOf], ts);
    assert all[0] == Ident(func) && all[1] == Ident(WOf);
  }

  lemma NameIsAtom(func: Name, ts: Tokens)
    requires func.Named? || func == WReal || func == WImaginary
    ensures ParseAtom(Front([func, WOf], ts)) == Some(Got(VarRef(func), Front([WOf], ts)))
  {
    hide Front, Idents;
    var all := Front([func, WOf], ts);
    assert all[0] == Ident(func) && all[1..] == Front([WOf], ts);
  }

  // ----- strings, and types that hold expressions -----

  /** What is read from the printed text of any string.  The tokenizer scans the characters behind
      the opening quote, `more` among them; where that succeeds, the token in front of the tokens
      `after` of what is left is read as that string, which is the printed one exactly when it
      holds no quote and no backslash. */
  lemma StringTextReads(text: string, more: string, after: Tokens)
    requires Literals.Scanned(text + (['"'] + more)).Some? && Quiet(after)
    ensures var read := Literals.Scanned(text + (['"'] + more)).value.value;
            && ParseExpr([Str(read)] + after) == Some(Got(StringLit(read), after))
            && (read == text <==> Literals.Plain(text))
  {
    hide ParseLevel, ParsePrimary, Quiet;
    var read := Literals.Scanned(text + (['"'] + more)).value.value;
    Literals.ReadTextIff(text, more);
    TextReads(read, after);
    Climb(OR_LEVEL, PRIMARY_LEVEL, [Str(read)] + after, Got(StringLit(read), after));
  }

  lemma TextReads(text: string, after: Tokens)
    ensures ParseLevel(PRIMARY_LEVEL, [Str(text)] + after) == Some(Got(StringLit(text), after))
  {
    hide ParsePrimary;
    var ts := [Str(text)] + after;
    assert ts[1..] == after;
    AtomReads(ts);
  }

  /** Such a string stands for its text wherever it ends at its own closing quote. */
  lemma StringTokenIs(text: string, more: string)
    requires Literals.Alone(text).Some?
    ensures var scan := Literals.Scanned(text + (['"'] + more));
            scan.Some? && scan.value.rest == more && StringToken(text) == Str(scan.value.value)
  {
    hide Literals.Scanned;
    Literals.AloneAnywhere(text, more);
  }

  /** A "type of" comes back exactly when the expression in it does. */
  lemma TypeOfReads(q: Qualifiers, unqualified: bool, e: Expr, rest: Tokens)
    requires Printable(e)
    ensures var t := TypeOfExpr(q, unqualified, e);
            && ParseSpec(SpellTo(t, rest)) == Some(Got(TypeOfExpr(q, unqualified, Regrouped(e)), rest))
            && (ParseSpec(SpellTo(t, rest)) == Some(Got(t, rest)) <==> Closed(e))
  {
    hide ParseSpec, SpellTo, Closed, Regrouped;
    SpecReads(TypeOfExpr(q, unqualified, e), rest);
    RegroupedIff(e);
    assert Agrees(e);
  }

  /** The size of an array type whose length is an expression takes the operator behind it into
      that length, for every operator and every length that is not printed as a number. */
  lemma LengthTakesOperator(q: Qualifiers, to: Spec, length: Expr, op: BinOp, rhs: Expr, rest: Tokens)
    requires Spellable(to) && Printable(length) && Printable(rhs) && op != Comma && !PrintsNumber(length)
    ensures ParsePrimary(PrintTo(Binary(op, SizeOfType(VariableArray(q, to, length)), rhs), rest)) ==
            Some(Got(SizeOfType(VariableArray(q, RegroupedSpec(to), Attached(length, Op(op), Regrouped(rhs)))), rest))
  {
    hide PrintTo, ParsePrimary, Regrouped, Attached, Printable;
    var v := VariableArray(q, to, length);
    LengthAttached(q, to, length, op, rhs);
    PrintableSize(v, op, rhs);
    InfixParensRead(Binary(op, SizeOfType(v), rhs), rest);
  }

  lemma PrintableSize(t: Spec, op: BinOp, rhs: Expr)
    requires Spellable(t) && Printable(rhs) && op != Comma
    ensures Printable(Binary(op, SizeOfType(t), rhs))
  {
    hide Spellable;
    assert Printable(SizeOfType(t));
  }

  lemma LengthAttached(q: Qualifiers, to: Spec, length: Expr, op: BinOp, rhs: Expr)
    requires !PrintsNumber(length)
    ensures Regrouped(Binary(op, SizeOfType(VariableArray(q, to, length)), rhs)) ==
            SizeOfType(VariableArray(q, RegroupedSpec(to), Attached(length, Op(op), Regrouped(rhs))))
  {
    hide RegroupedSpec;
    var v := VariableArray(q, to, length);
    assert AttachedSpec(v, Op(op), Regrouped(rhs)) == VariableArray(q, RegroupedSpec(to), Attached(length, Op(op), Regrouped(rhs)));
    assert Attached(SizeOfType(v), Op(op), Regrouped(rhs)) == SizeOfType(AttachedSpec(v, Op(op), Regrouped(rhs)));
  }
}
