/** The parser's cursor over the token vector.  Its methods read what the grammar's functions
    say, and never move past the end-of-file token, which is the last one. */
module Parsing {
  import opened Options
  import opened Primitives
  import opened Types
  import opened Syntax
  import opened Grammar
  import opened Sentences

  /** What comes out when some elements have been read already. */
  function Behind<T>(front: seq<T>, r: Option<Got<seq<T>>>): Option<Got<seq<T>>> {
    match r
    case None => None
    case Some(p) => Some(Got(front + p.value, p.rest))
  }

  lemma NothingRead<T>(r: Option<Got<seq<T>>>)
    ensures Behind([], r) == r
  {
    if r.Some? { assert [] + r.value.value == r.value.value; }
  }

  lemma OneMoreRead<T>(front: seq<T>, item: T, r: Option<Got<seq<T>>>)
    ensures Behind(front, Behind([item], r)) == Behind(front + [item], r)
  {
    if r.Some? { assert front + ([item] + r.value.value) == front + [item] + r.value.value; }
  }

  class Parser {
    const tokens: Tokens
    var pos: nat

    /** The tokenizer puts the end of the file behind everything else. */
    constructor (source: Tokens)
      requires Eof !in source
      ensures Valid() && tokens == source + [Eof] && Rest() == source
    {
      tokens := source + [Eof];
      pos := 0;
    }

    predicate Valid()
      reads this
    {
      pos < |tokens| && tokens[|tokens| - 1] == Eof && forall k :: 0 <= k < |tokens| - 1 ==> tokens[k] != Eof
    }

    /** What is still to be read. */
    function Rest(): Tokens
      requires Valid()
      reads this
    {
      tokens[pos..|tokens| - 1]
    }

    /** A result, with the cursor behind its tokens, or an error. */
    ghost predicate Outcome<T>(r: Option<T>, wanted: Option<Got<T>>)
      reads this
    {
      Valid() &&
      match wanted
      case None => r == None
      case Some(p) => r == Some(p.value) && Rest() == p.rest
    }

    // ----- tokens -----

    /** A position behind the last token shows the last token. */
    method Peek(ahead: nat) returns (t: Token)
      requires Valid()
      ensures t == if ahead < |Rest()| then Rest()[ahead] else Eof
    {
      t := if pos + ahead < |tokens| then tokens[pos + ahead] else tokens[|tokens| - 1];
    }

    /** The cursor stays on the last token. */
    method Advance()
      requires Valid()
      modifies this
      ensures Valid() && Rest() == if old(Rest()) == [] then [] else old(Rest())[1..]
    {
      if pos + 1 < |tokens| { pos := pos + 1; }
    }

    method Skip(count: nat)
      requires Valid() && count <= |Rest()|
      modifies this
      ensures Valid() && Rest() == old(Rest())[count..]
    {
      for k := 0 to count
        invariant Valid() && Rest() == old(Rest())[k..]
      {
        Advance();
      }
    }

    method CheckWordAt(ahead: nat, w: Word) returns (found: bool)
      requires Valid()
      ensures found == WordAt(Rest(), ahead, w)
    {
      var t := Peek(ahead);
      found := t == Ident(w);
    }

    method CheckTwo(ahead: nat, v: Word, w: Word) returns (found: bool)
      requires Valid()
      ensures found == TwoAt(Rest(), ahead, v, w)
    {
      var first := CheckWordAt(ahead, v);
      var second := CheckWordAt(ahead + 1, w);
      found := first && second;
    }

    method Expect(t: Token) returns (r: Option<()>)
      requires Valid() && t != Eof
      modifies this
      ensures Outcome(r, if old(Rest()) != [] && old(Rest())[0] == t then Some(Got((), old(Rest())[1..])) else None)
    {
      var here := Peek(0);
      if here != t { return None; }
      Advance();
      return Some(());
    }

    method ReadName() returns (r: Option<Name>)
      requires Valid()
      modifies this
      ensures Outcome(r, ExpectName(old(Rest())))
    {
      var here := Peek(0);
      if !here.Ident? { return None; }
      Advance();
      return Some(here.word);
    }

    // ----- operators -----

    method ReadExpr() returns (r: Option<Expr>)
      requires Valid()
      modifies this
      ensures Outcome(r, ParseExpr(old(Rest())))
      decreases |Rest()|, 21, 0
    {
      r := ReadLevel(OR_LEVEL);
    }

    method ReadLevel(level: nat) returns (r: Option<Expr>)
      requires Valid() && level <= PRIMARY_LEVEL
      modifies this
      ensures Outcome(r, ParseLevel(level, old(Rest())))
      decreases |Rest()|, 20 - level, 1
    {
      if level == PRIMARY_LEVEL {
        r := ReadPrimary();
      } else if level == NOT_LEVEL {
        r := ReadNot();
      } else {
        var lhs :- ReadLevel(level + 1);
        if level == COMPARISON_LEVEL {
          r := ReadComparison(lhs);
        } else {
          r := ReadOperators(level, lhs);
        }
      }
    }

    method ReadNot() returns (r: Option<Expr>)
      requires Valid()
      modifies this
      ensures Outcome(r, ParseLevel(NOT_LEVEL, old(Rest())))
      decreases |Rest()|, 20 - NOT_LEVEL, 0
    {
      var not_ := CheckWordAt(0, WNot);
      var bitwise := CheckTwo(0, WBitwise, WNot);
      if not_ || bitwise {
        Skip(if not_ then 1 else 2);
        var operand :- ReadNot();
        return Some(Unary(if not_ then Not else BitNot, operand));
      }
      r := ReadLevel(COMPARISON_LEVEL);
    }

    /** Left-associative operators: the loop that grows the left operand. */
    method ReadOperators(level: nat, first: Expr) returns (r: Option<Expr>)
      requires Valid() && level < PRIMARY_LEVEL
      modifies this
      ensures Outcome(r, ParseOperators(level, first, old(Rest())))
      decreases |Rest()|, 20 - level, 0
    {
      var lhs := first;
      var op := OperatorAt(level, Rest());
      while op.Some?
        invariant Valid() && |Rest()| <= |old(Rest())| && op == OperatorAt(level, Rest())
        invariant ParseOperators(level, lhs, Rest()) == ParseOperators(level, first, old(Rest()))
        decreases |Rest()|
      {
        Skip(op.value.width);
        var rhs :- ReadLevel(level + 1);
        lhs := Join(op.value.it, lhs, rhs);
        op := OperatorAt(level, Rest());
      }
      return Some(lhs);
    }

    method ReadComparison(lhs: Expr) returns (r: Option<Expr>)
      requires Valid()
      modifies this
      ensures Outcome(r, ParseComparison(lhs, old(Rest())))
      decreases |Rest()|, 0, 0
    {
      var is_ := CheckWordAt(0, WIs);
      if !is_ { return Some(lhs); }
      Advance();
      var op :- ComparisonAt(Rest());
      Skip(op.width);
      var rhs :- ReadLevel(COMPARISON_LEVEL + 1);
      return Some(Join(op.it, lhs, rhs));
    }

    method ReadUpTo(w: Word) returns (r: Option<Expr>)
      requires Valid()
      modifies this
      ensures Outcome(r, ParseUpTo(w, old(Rest())))
      decreases |Rest()|, 22, 0
    {
      var e :- ReadExpr();
      var _ :- Expect(Ident(w));
      return Some(e);
    }

    // ----- primaries -----

    method ReadPrimary() returns (r: Option<Expr>)
      requires Valid()
      modifies this
      ensures Outcome(r, ParsePrimary(old(Rest())))
      decreases |Rest()|, 0, 2
    {
      var prefix := PrefixAt(Rest());
      if prefix.Some? {
        Skip(prefix.value.width);
        var operand :- ReadPrimary();
        return Some(Prefixed(prefix.value.it, operand));
      }
      var form := FormAt(Rest());
      if form.Some? {
        Skip(form.value.width);
        r := ReadForm(form.value.it);
      } else {
        r := ReadAtom();
      }
    }

    method ReadAtom() returns (r: Option<Expr>)
      requires Valid()
      modifies this
      ensures Outcome(r, ParseAtom(old(Rest())))
    {
      var p :- ParseAtom(Rest());
      Skip(|Rest()| - |p.rest|);
      return Some(p.value);
    }

    method ReadForm(form: Form) returns (r: Option<Expr>)
      requires Valid()
      modifies this
      ensures Outcome(r, ParseForm(form, old(Rest())))
      decreases |Rest()|, 40, 0
    {
      match form
      case NegateForm => r := ReadNegated();
      case ParenForm => r := ReadInner();
      case EvaluateForm => r := ReadEvaluate();
      case ChooseForm => r := ReadChoose();
      case ElementForm => r := ReadIndexed(true);
      case ItemForm => r := ReadIndexed(false);
      case ConvertForm => r := ReadConvert();
      case SizeTypeForm =>
        var target :- ReadSpec();
        return Some(SizeOfType(target));
      case AlignForm =>
        var target :- ReadSpec();
        return Some(AlignOfType(target));
      case LimitForm(maximum) =>
        var target :- ReadSpec();
        return Some(LimitOfType(target, maximum));
      case OffsetForm => r := ReadOffset();
      case ExchangeForm => r := ReadAtomic(None, WWith);
      case FetchForm(operation) => r := ReadAtomic(Some(operation), WTo);
      case ListForm => r := ReadList();
      case CallThroughForm => r := ReadCallThrough();
      case CallForm => r := ReadCall();
      case CompoundForm => r := ReadCompound();
      case SelectForm => r := ReadSelect();
      case NextForm => r := ReadNext();
    }

    method ReadNegated() returns (r: Option<Expr>)
      requires Valid()
      modifies this
      ensures Outcome(r, ParseNegated(old(Rest())))
      decreases |Rest()|, 30, 0
    {
      var operand :- ReadPrimary();
      return Some(Unary(Neg, operand));
    }

    method ReadInner() returns (r: Option<Expr>)
      requires Valid()
      modifies this
      ensures Outcome(r, ParseInner(old(Rest())))
      decreases |Rest()|, 30, 0
    {
      var e :- ReadExpr();
      var _ :- Expect(CloseParen);
      return Some(e);
    }

    method ReadEvaluate() returns (r: Option<Expr>)
      requires Valid()
      modifies this
      ensures Outcome(r, ParseEvaluate(old(Rest())))
      decreases |Rest()|, 30, 0
    {
      var first :- ReadUpTo(WThen);
      var last :- ReadExpr();
      return Some(Binary(Comma, first, last));
    }

    method ReadChoose() returns (r: Option<Expr>)
      requires Valid()
      modifies this
      ensures Outcome(r, ParseChoose(old(Rest())))
      decreases |Rest()|, 30, 0
    {
      var whenTrue :- ReadUpTo(WWhen);
      var condition :- ReadUpTo(WOtherwise);
      var whenFalse :- ReadExpr();
      return Some(Conditional(whenTrue, condition, whenFalse));
    }

    method ReadIndexed(element: bool) returns (r: Option<Expr>)
      requires Valid()
      modifies this
      ensures Outcome(r, ParseIndexed(element, old(Rest())))
      decreases |Rest()|, 30, 0
    {
      var index :- ReadUpTo(WIn);
      var base :- ReadPrimary();
      return Some(if element then Element(index, base) else Item(index, base));
    }

    method ReadConvert() returns (r: Option<Expr>)
      requires Valid()
      modifies this
      ensures Outcome(r, ParseConvert(old(Rest())))
      decreases |Rest()|, 30, 0
    {
      var operand :- ReadPrimary();
      var _ :- Expect(Ident(WTo));
      var _ :- Expect(Ident(WType));
      var target :- ReadSpec();
      return Some(Cast(operand, target));
    }

    method ReadOffset() returns (r: Option<Expr>)
      requires Valid()
      modifies this
      ensures Outcome(r, ParseOffset(old(Rest())))
      decreases |Rest()|, 30, 0
    {
      var name :- ReadName();
      var _ :- Expect(Ident(WIn));
      var _ :- Expect(Ident(WType));
      var target :- ReadSpec();
      return Some(OffsetOf(name, target));
    }

    method ReadAtomic(operation: Option<Word>, before: Word) returns (r: Option<Expr>)
      requires Valid()
      modifies this
      ensures Outcome(r, ParseAtomic(operation, before, old(Rest())))
      decreases |Rest()|, 30, 0
    {
      var operand :- ReadUpTo(before);
      var name :- ReadName();
      return Some(if operation.Some? then AtomicRmw(operation.value, name, operand) else AtomicExchange(name, operand));
    }

    method ReadNext() returns (r: Option<Expr>)
      requires Valid()
      modifies this
      ensures Outcome(r, ParseNext(old(Rest())))
      decreases |Rest()|, 30, 0
    {
      var source: Option<Name> := None;
      var from := CheckWordAt(0, WFrom);
      if from {
        Advance();
        var name :- ReadName();
        source := Some(name);
      }
      var _ :- Expect(Ident(WAs));
      var target :- ReadSpec();
      return Some(VaArg(source, target));
    }

    // ----- lists of expressions -----

    method ReadList() returns (r: Option<Expr>)
      requires Valid()
      modifies this
      ensures Outcome(r, ParseList(old(Rest())))
      decreases |Rest()|, 30, 0
    {
      var done := CheckWordAt(0, WDone);
      if done { return None; }
      var items :- ReadItems();
      var _ :- Expect(Ident(WDone));
      return Some(ListOf(items));
    }

    method ReadItems() returns (r: Option<seq<Expr>>)
      requires Valid()
      modifies this
      ensures Outcome(r, ParseItems(old(Rest())))
      decreases |Rest()|, 23, 0
    {
      var items: seq<Expr> := [];
      var more := true;
      NothingRead(ParseItems(Rest()));
      while more
        invariant Valid() && |Rest()| <= |old(Rest())|
        invariant ParseItems(old(Rest())) == if more then Behind(items, ParseItems(Rest())) else Some(Got(items, Rest()))
        decreases |Rest()|
      {
        var item :- ReadExpr();
        more := CheckTwo(0, WFollowed, WBy);
        if more {
          Skip(2);
          OneMoreRead(items, item, ParseItems(Rest()));
        }
        items := items + [item];
      }
      return Some(items);
    }

    method ReadArgs() returns (r: Option<seq<Expr>>)
      requires Valid()
      modifies this
      ensures Outcome(r, ParseArgs(old(Rest())))
      decreases |Rest()|, 23, 0
    {
      var args: seq<Expr> := [];
      NothingRead(ParseArgs(Rest()));
      var done := CheckWordAt(0, WDone);
      while !done
        invariant Valid() && |Rest()| <= |old(Rest())| && done == WordAt(Rest(), 0, WDone)
        invariant ParseArgs(old(Rest())) == Behind(args, ParseArgs(Rest()))
        decreases |Rest()|
      {
        var arg :- ReadExpr();
        OneMoreRead(args, arg, ParseArgs(Rest()));
        args := args + [arg];
        done := CheckWordAt(0, WDone);
      }
      assert args + [] == args;
      Advance();
      return Some(args);
    }

    method ReadCallEnd() returns (r: Option<seq<Expr>>)
      requires Valid()
      modifies this
      ensures Outcome(r, ParseCallEnd(old(Rest())))
      decreases |Rest()|, 24, 0
    {
      var with := CheckWordAt(0, WWith);
      if with {
        Advance();
        r := ReadArgs();
      } else {
        var _ :- Expect(Ident(WDone));
        return Some([]);
      }
    }

    method ReadCall() returns (r: Option<Expr>)
      requires Valid()
      modifies this
      ensures Outcome(r, ParseCall(old(Rest())))
      decreases |Rest()|, 30, 0
    {
      var name :- ReadName();
      var args :- ReadCallEnd();
      return Some(Call(name, args));
    }

    method ReadCallThrough() returns (r: Option<Expr>)
      requires Valid()
      modifies this
      ensures Outcome(r, ParseCallThrough(old(Rest())))
      decreases |Rest()|, 30, 0
    {
      var callee :- ReadPrimary();
      var args :- ReadCallEnd();
      return Some(IndirectCall(callee, args));
    }

    // ----- compound values and aggregate blocks -----

    method ReadCompound() returns (r: Option<Expr>)
      requires Valid()
      modifies this
      ensures Outcome(r, ParseCompound(old(Rest())))
      decreases |Rest()|, 30, 0
    {
      hide ParseUpTo, ParseSpec, ParseAggregate, BlockAt;
      var _ :- Expect(Ident(WOf));
      var _ :- Expect(Ident(WType));
      var target :- ReadSpec();
      var _ :- Expect(Ident(WWith));
      var value := CheckWordAt(0, WValue);
      if value {
        Advance();
        var single :- ReadUpTo(WDone);
        return Some(Compound(target, Scalar(single)));
      }
      var listed := CheckBlock();
      if !listed { return None; }
      var block :- ReadAggregate();
      if block.Braces? {
        var _ :- Expect(Ident(WDone));
      }
      return Some(Compound(target, block));
    }

    method CheckBlock() returns (found: bool)
      requires Valid()
      ensures found == BlockAt(Rest())
    {
      var here := Peek(0);
      found := here == Ident(WEmpty) || here == Ident(WValues) || here == Ident(WMembers) || here == Ident(WElements);
    }

    method ReadAggregate() returns (r: Option<Aggregate>)
      requires Valid()
      modifies this
      ensures Outcome(r, ParseAggregate(old(Rest())))
      decreases |Rest()|, 25, 0
    {
      var braces := CheckTwo(0, WEmpty, WBraces);
      if braces {
        Skip(2);
        return Some(Braces);
      }
      var kind :- EntryKindAt(Rest());
      Advance();
      var done := CheckWordAt(0, WDone);
      if done { return None; }
      var entries :- ReadEntries(kind);
      var _ :- Expect(Ident(WDone));
      return Some(Listed(kind, entries));
    }

    method ReadEntries(kind: EntryKind) returns (r: Option<seq<Entry>>)
      requires Valid()
      modifies this
      ensures Outcome(r, ParseEntries(kind, old(Rest())))
      decreases |Rest()|, 24, 1
    {
      var entries: seq<Entry> := [];
      var more := true;
      NothingRead(ParseEntries(kind, Rest()));
      while more
        invariant Valid() && |Rest()| <= |old(Rest())|
        invariant ParseEntries(kind, old(Rest())) ==
                  if more then Behind(entries, ParseEntries(kind, Rest())) else Some(Got(entries, Rest()))
        decreases |Rest()|
      {
        var entry :- ReadEntry(kind);
        more := CheckTwo(0, WFollowed, WBy);
        if more {
          Skip(2);
          OneMoreRead(entries, entry, ParseEntries(kind, Rest()));
        }
        entries := entries + [entry];
      }
      return Some(entries);
    }

    method ReadEntry(kind: EntryKind) returns (r: Option<Entry>)
      requires Valid()
      modifies this
      ensures Outcome(r, ParseEntry(kind, old(Rest())))
      decreases |Rest()|, 24, 0
    {
      hide ParseContent;
      match kind
      case Positional =>
        var content :- ReadContent();
        return Some(Entry(NO_NAME, 0, content));
      case ByMember =>
        var name :- ReadName();
        var _ :- Expect(Ident(WAs));
        var content :- ReadContent();
        return Some(Entry(name, 0, content));
      case ByElement =>
        var _ :- Expect(Ident(WAt));
        var index :- ReadNumber();
        var _ :- Expect(Ident(WAs));
        var content :- ReadContent();
        return Some(Entry(NO_NAME, index, content));
    }

    method ReadNumber() returns (r: Option<Natural>)
      requires Valid()
      modifies this
      ensures Outcome(r, if NumAt(old(Rest()), 0) then Some(Got(old(Rest())[0].value, old(Rest())[1..])) else None)
    {
      var here := Peek(0);
      if !here.Num? { return None; }
      Advance();
      return Some(here.value);
    }

    method ReadContent() returns (r: Option<Content>)
      requires Valid()
      modifies this
      ensures Outcome(r, ParseContent(old(Rest())))
      decreases |Rest()|, 23, 0
    {
      var with := CheckWordAt(0, WWith);
      if with {
        Advance();
        var block :- ReadAggregate();
        return Some(Nested(block));
      }
      var e :- ReadExpr();
      return Some(Value(e));
    }

    // ----- selection by type -----

    method ReadSelect() returns (r: Option<Expr>)
      requires Valid()
      modifies this
      ensures Outcome(r, ParseSelect(old(Rest())))
      decreases |Rest()|, 30, 0
    {
      var control :- ReadUpTo(WWith);
      var none := AtChoicesEnd();
      if none { return None; }
      var choices :- ReadAssociations();
      var default_ :- ReadDefault();
      var _ :- Expect(Ident(WDone));
      return Some(Select(control, choices, default_));
    }

    method AtChoicesEnd() returns (end: bool)
      requires Valid()
      ensures end == (WordAt(Rest(), 0, WDone) || WordAt(Rest(), 0, WOtherwise))
    {
      var done := CheckWordAt(0, WDone);
      var otherwise := CheckWordAt(0, WOtherwise);
      end := done || otherwise;
    }

    method ReadAssociations() returns (r: Option<seq<Association>>)
      requires Valid()
      modifies this
      ensures Outcome(r, ParseAssociations(old(Rest())))
      decreases |Rest()|, 23, 0
    {
      hide ParseSpec, ParseExpr;
      var choices: seq<Association> := [];
      var more := true;
      NothingRead(ParseAssociations(Rest()));
      while more
        invariant Valid() && |Rest()| <= |old(Rest())|
        invariant ParseAssociations(old(Rest())) ==
                  if more then Behind(choices, ParseAssociations(Rest())) else Some(Got(choices, Rest()))
        decreases |Rest()|
      {
        var target :- ReadSpec();
        var _ :- Expect(Ident(WAs));
        var result :- ReadExpr();
        more := CheckTwo(0, WFollowed, WBy);
        if more {
          Skip(2);
          var end := AtChoicesEnd();
          more := !end;
          OneMoreRead(choices, Association(target, result), ParseAssociations(Rest()));
        }
        choices := choices + [Association(target, result)];
      }
      return Some(choices);
    }

    method ReadDefault() returns (r: Option<Default>)
      requires Valid()
      modifies this
      ensures Outcome(r, ParseDefault(old(Rest())))
      decreases |Rest()|, 23, 0
    {
      var otherwise := CheckWordAt(0, WOtherwise);
      if !otherwise { return Some(NoDefault); }
      Advance();
      var e :- ReadExpr();
      return Some(Otherwise(e));
    }

    // ----- types -----

    method ReadQualifiers() returns (q: Qualifiers)
      requires Valid()
      modifies this
      ensures Valid() && Got(q, Rest()) == ParseQualifiers(PLAIN, old(Rest()))
    {
      q := PLAIN;
      while true
        invariant Valid()
        invariant ParseQualifiers(q, Rest()) == ParseQualifiers(PLAIN, old(Rest()))
        decreases |Rest()|
      {
        var here := Peek(0);
        if here == Ident(WConstant) {
          q := q.(isConst := true);
        } else if here == Ident(WVolatile) {
          q := q.(isVolatile := true);
        } else if here == Ident(WRestricted) {
          q := q.(isRestrict := true);
        } else if here == Ident(WAtomic) {
          q := q.(isAtomic := true);
        } else {
          return;
        }
        Advance();
      }
    }

    method ReadSpec() returns (r: Option<Spec>)
      requires Valid()
      modifies this
      ensures Outcome(r, ParseSpec(old(Rest())))
      decreases |Rest()|, 22, 1
    {
      var q := ReadQualifiers();
      r := ReadBody(q);
    }

    method ReadBody(q: Qualifiers) returns (r: Option<Spec>)
      requires Valid()
      modifies this
      ensures Outcome(r, ParseBody(q, old(Rest())))
      decreases |Rest()|, 22, 0
    {
      var pointer := CheckTwo(0, WPointer, WTo);
      var array_ := CheckTwo(0, WArray, WOf);
      var taking := CheckTwo(0, WFunction, WTaking);
      var returning := CheckTwo(0, WFunction, WReturning);
      var typeOf := CheckTwo(0, WType, WOf);
      if pointer {
        Skip(2);
        var to :- ReadSpec();
        return Some(PointerTo(q, to));
      } else if array_ {
        Skip(2);
        r := ReadArray(q);
      } else if taking {
        Skip(2);
        r := ReadFunction(q);
      } else if returning {
        Skip(2);
        r := ReadResult(q, [], false);
      } else if typeOf {
        Skip(2);
        r := ReadTypeOf(q);
      } else {
        var leaf :- ParseLeaf(q, Rest());
        Skip(|Rest()| - |leaf.rest|);
        return Some(leaf.value);
      }
    }

    method ReadTypeOf(q: Qualifiers) returns (r: Option<Spec>)
      requires Valid()
      modifies this
      ensures Outcome(r, ParseTypeOf(q, old(Rest())))
      decreases |Rest()|, 31, 0
    {
      var unqualified := CheckWordAt(0, WUnqualified);
      if unqualified { Advance(); }
      var here := Peek(0);
      if here == OpenParen {
        Advance();
        var e :- ReadInner();
        return Some(TypeOfExpr(q, unqualified, e));
      }
      var name :- ReadName();
      return Some(TypeOfName(q, unqualified, name));
    }

    method ReadArray(q: Qualifiers) returns (r: Option<Spec>)
      requires Valid()
      modifies this
      ensures Outcome(r, ParseArray(q, old(Rest())))
      decreases |Rest()|, 31, 0
    {
      var element :- ReadSpec();
      var _ :- Expect(Ident(WWith));
      var _ :- Expect(Ident(WLength));
      var here := Peek(0);
      if here.Num? {
        if here.value == 0 { return None; }
        Advance();
        return Some(ArrayOf(q, element, here.value));
      }
      var length :- ReadExpr();
      return Some(VariableArray(q, element, length));
    }

    method ReadResult(q: Qualifiers, params: seq<Spec>, variadic: bool) returns (r: Option<Spec>)
      requires Valid()
      modifies this
      ensures Outcome(r, ParseResult(q, params, variadic, old(Rest())))
      decreases |Rest()|, 31, 0
    {
      var result :- ReadSpec();
      return Some(FunctionOf(q, params, variadic, result));
    }

    method ReadFunction(q: Qualifiers) returns (r: Option<Spec>)
      requires Valid()
      modifies this
      ensures Outcome(r, ParseFunction(q, old(Rest())))
      decreases |Rest()|, 32, 0
    {
      var none := CheckTwo(0, WNo, WParameters);
      if none {
        Skip(2);
        var _ :- Expect(Ident(WReturning));
        r := ReadResult(q, [], false);
      } else {
        var params :- ReadParams();
        var variadic := CheckVariadic();
        if variadic { Skip(3); }
        var _ :- Expect(Ident(WReturning));
        r := ReadResult(q, params, variadic);
      }
    }

    method CheckVariadic() returns (found: bool)
      requires Valid()
      ensures found == VariadicAt(Rest())
    {
      var first := CheckTwo(0, WAnd, WVariadic);
      var third := CheckWordAt(2, WParameters);
      found := first && third;
    }

    method ReadParams() returns (r: Option<seq<Spec>>)
      requires Valid()
      modifies this
      ensures Outcome(r, ParseParams(old(Rest())))
      decreases |Rest()|, 23, 0
    {
      var params: seq<Spec> := [];
      var more := true;
      NothingRead(ParseParams(Rest()));
      while more
        invariant Valid() && |Rest()| <= |old(Rest())|
        invariant ParseParams(old(Rest())) == if more then Behind(params, ParseParams(Rest())) else Some(Got(params, Rest()))
        decreases |Rest()|
      {
        var param :- ReadSpec();
        var and := CheckWordAt(0, WAnd);
        var variadic := CheckVariadic();
        more := and && !variadic;
        if more {
          Advance();
          OneMoreRead(params, param, ParseParams(Rest()));
        }
        params := params + [param];
      }
      return Some(params);
    }

    // ----- the ends of sentences -----

    method ReadText() returns (r: Option<string>)
      requires Valid()
      modifies this
      ensures Outcome(r, ExpectText(old(Rest())))
    {
      var here := Peek(0);
      if !here.Str? { return None; }
      Advance();
      return Some(here.text);
    }

    method ReadEnd(s: Sentence) returns (r: Option<Sentence>)
      requires Valid()
      modifies this
      ensures Outcome(r, Ended(s, old(Rest())))
    {
      var _ :- Expect(Dot);
      return Some(s);
    }

    method ReadEndingName() returns (r: Option<Name>)
      requires Valid()
      modifies this
      ensures Outcome(r, EndingName(old(Rest())))
    {
      var name :- ReadName();
      var _ :- Expect(Dot);
      return Some(name);
    }

    method ReadEndingExpr() returns (r: Option<Expr>)
      requires Valid()
      modifies this
      ensures Outcome(r, EndingExpr(old(Rest())))
    {
      var e :- ReadExpr();
      var _ :- Expect(Dot);
      return Some(e);
    }

    method ReadEndingText() returns (r: Option<string>)
      requires Valid()
      modifies this
      ensures Outcome(r, EndingText(old(Rest())))
    {
      var text :- ReadText();
      var _ :- Expect(Dot);
      return Some(text);
    }

    method ReadNameUpTo(w: Word) returns (r: Option<Name>)
      requires Valid()
      modifies this
      ensures Outcome(r, NameUpTo(w, old(Rest())))
    {
      var name :- ReadName();
      var _ :- Expect(Ident(w));
      return Some(name);
    }

    // ----- sentences without blocks -----

    method ReadSay() returns (r: Option<Sentence>)
      requires Valid()
      modifies this
      ensures Outcome(r, ParseSay(old(Rest())))
    {
      var items :- ReadItems();
      r := ReadEnd(Say(items));
    }

    method ReadSet() returns (r: Option<Sentence>)
      requires Valid()
      modifies this
      ensures Outcome(r, ParseSet(old(Rest())))
    {
      var through := CheckTwo(0, WValue, WAt);
      var element := CheckTwo(0, WElement, WAt);
      var member := CheckWordAt(0, WMember);
      if through {
        Skip(2);
        var pointer :- ReadUpTo(WTo);
        var value :- ReadEndingExpr();
        return Some(StoreThrough(pointer, value));
      } else if element {
        Skip(2);
        var index :- ReadUpTo(WIn);
        var base :- ReadUpTo(WTo);
        var value :- ReadEndingExpr();
        return Some(StoreElement(index, base, value));
      } else if member {
        Advance();
        var name :- ReadNameUpTo(WOf);
        var base :- ReadUpTo(WTo);
        var value :- ReadEndingExpr();
        return Some(StoreMember(name, base, value));
      }
      var name :- ReadNameUpTo(WTo);
      var value :- ReadEndingExpr();
      return Some(Set(name, value));
    }

    method ReadTraits() returns (r: Option<Traits>)
      requires Valid()
      modifies this
      ensures Outcome(r, ParseTraits(NO_TRAITS, old(Rest())))
    {
      var t := NO_TRAITS;
      while true
        invariant Valid() && |Rest()| <= |old(Rest())|
        invariant ParseTraits(t, Rest()) == ParseTraits(NO_TRAITS, old(Rest()))
        decreases |Rest()|
      {
        var with := CheckWordAt(0, WWith);
        if !with { return Some(t); }
        var alignment := CheckWordAt(1, WAlignment);
        var internal := CheckTwo(1, WInternal, WLinkage);
        var external := CheckTwo(1, WExternal, WLinkage);
        var static_ := CheckTwo(1, WStatic, WStorage);
        var deprecated := CheckWordAt(1, WDeprecated);
        var unused := CheckTwo(1, WMaybe, WUnused);
        var third := Peek(2);
        if alignment {
          if !third.Num? || third.value == 0 { return None; }
          t := t.(alignment := Some(third.value));
          Skip(3);
        } else if internal {
          t := t.(internal := true);
          Skip(3);
        } else if external {
          t := t.(external := true);
          Skip(3);
        } else if static_ {
          t := t.(static_ := true);
          Skip(3);
        } else if deprecated {
          t := if third.Str? then t.(deprecated := true, message := third.text) else t.(deprecated := true);
          Skip(if third.Str? then 3 else 2);
        } else if unused {
          t := t.(unused := true);
          Skip(3);
        } else {
          return Some(t);
        }
      }
    }

    method ReadStart() returns (r: Option<Start>)
      requires Valid()
      modifies this
      ensures Outcome(r, ParseStart(old(Rest())))
    {
      var with := CheckWordAt(0, WWith);
      if !with { return Some(Unset); }
      Advance();
      var value := CheckWordAt(0, WValue);
      if value {
        Advance();
        var e :- ReadExpr();
        return Some(Given(e));
      }
      var block :- ReadAggregate();
      return Some(Block(block));
    }

    method ReadDeclare() returns (r: Option<Sentence>)
      requires Valid()
      modifies this
      ensures Outcome(r, ParseDeclare(old(Rest())))
    {
      var name :- ReadName();
      var traits :- ReadTraits();
      var _ :- Expect(Ident(WAs));
      var thread := CheckTwo(0, WThread, WLocal);
      if thread { Skip(2); }
      var constexpr := CheckWordAt(0, WConstexpr);
      if constexpr { Advance(); }
      var type_ :- ReadSpec();
      var start :- ReadStart();
      r := ReadEnd(Declare(name, traits, thread, constexpr, type_, start));
    }

    method ReadRecord(kind: TagKind) returns (r: Option<Sentence>)
      requires Valid()
      modifies this
      ensures Outcome(r, ParseRecord(kind, old(Rest())))
    {
      var name :- ReadName();
      var _ :- Expect(Colon);
      var fields :- ReadFields(TagWord(kind));
      r := ReadEnd(Record(kind, name, fields));
    }

    method ReadFields(what: Word) returns (r: Option<seq<Field>>)
      requires Valid()
      modifies this
      ensures Outcome(r, ParseFields(what, [], old(Rest())))
    {
      var fields: seq<Field> := [];
      var end := CheckTwo(0, WEnd, what);
      while !end
        invariant Valid() && |Rest()| <= |old(Rest())| && end == TwoAt(Rest(), 0, WEnd, what)
        invariant ParseFields(what, fields, Rest()) == ParseFields(what, [], old(Rest()))
        decreases |Rest()|
      {
        var field :- ReadField();
        fields := fields + [field];
        end := CheckTwo(0, WEnd, what);
      }
      Skip(2);
      return Some(fields);
    }

    method ReadField() returns (r: Option<Field>)
      requires Valid()
      modifies this
      ensures Outcome(r, ParseField(old(Rest())))
    {
      var bit := CheckTwo(0, WBit, WField);
      var flexible := CheckTwo(0, WFlexible, WField);
      if bit {
        Skip(2);
        r := ReadBitField();
      } else if flexible {
        Skip(2);
        r := ReadNamedField(true);
      } else {
        var _ :- Expect(Ident(WField));
        r := ReadNamedField(false);
      }
    }

    method ReadNamedField(flexible: bool) returns (r: Option<Field>)
      requires Valid()
      modifies this
      ensures Outcome(r, ParseNamedField(flexible, old(Rest())))
    {
      var name :- ReadNameUpTo(WAs);
      var type_ :- ReadSpec();
      var _ :- Expect(Dot);
      return Some(Field(Some(name), type_, None, flexible));
    }

    method ReadBitField() returns (r: Option<Field>)
      requires Valid()
      modifies this
      ensures Outcome(r, ParseBitField(old(Rest())))
    {
      var name: Option<Name> := None;
      var unnamed := CheckWordAt(0, WAs);
      if !unnamed {
        var given :- ReadName();
        name := Some(given);
      }
      var _ :- Expect(Ident(WAs));
      var type_ :- ReadSpec();
      var _ :- Expect(Ident(WWith));
      var _ :- Expect(Ident(WWidth));
      var width :- ReadNumber();
      var _ :- Expect(Dot);
      return Some(Field(name, type_, Some(width), false));
    }

    method ReadEnumeration() returns (r: Option<Sentence>)
      requires Valid()
      modifies this
      ensures Outcome(r, ParseEnumeration(old(Rest())))
    {
      var name :- ReadName();
      var _ :- Expect(Colon);
      var constants :- ReadConstants();
      r := ReadEnd(Enumerate(name, constants));
    }

    method ReadConstants() returns (r: Option<seq<Constant>>)
      requires Valid()
      modifies this
      ensures Outcome(r, ParseConstants([], old(Rest())))
    {
      var constants: seq<Constant> := [];
      var end := CheckTwo(0, WEnd, WEnumeration);
      while !end
        invariant Valid() && |Rest()| <= |old(Rest())| && end == TwoAt(Rest(), 0, WEnd, WEnumeration)
        invariant ParseConstants(constants, Rest()) == ParseConstants([], old(Rest()))
        decreases |Rest()|
      {
        var constant :- ReadConstant();
        constants := constants + [constant];
        end := CheckTwo(0, WEnd, WEnumeration);
      }
      Skip(2);
      return Some(constants);
    }

    method ReadConstant() returns (r: Option<Constant>)
      requires Valid()
      modifies this
      ensures Outcome(r, ParseConstant(old(Rest())))
    {
      var _ :- Expect(Ident(WEnumerator));
      var name :- ReadName();
      var value :- ReadConstantValue();
      var _ :- Expect(Dot);
      return Some(Constant(name, value));
    }

    method ReadConstantValue() returns (r: Option<Option<int>>)
      requires Valid()
      modifies this
      ensures Outcome(r, ParseConstantValue(old(Rest())))
    {
      var given := CheckWordAt(0, WAs);
      if !given { return Some(None); }
      Advance();
      var negative := CheckWordAt(0, WMinus);
      if negative { Advance(); }
      var number :- ReadNumber();
      var value: int := number;
      return Some(Some(if negative then -value else value));
    }

    method ReadDefine() returns (r: Option<Sentence>)
      requires Valid()
      modifies this
      ensures Outcome(r, ParseDefine(old(Rest())))
    {
      var name :- ReadNameUpTo(WAs);
      var type_ :- ReadSpec();
      r := ReadEnd(Define(name, type_));
    }

    method ReadChange(change: Change) returns (r: Option<Sentence>)
      requires Valid()
      modifies this
      ensures Outcome(r, ParseChange(change, old(Rest())))
    {
      if change.Increasing? || change.Decreasing? {
        var name :- ReadNameUpTo(WBy);
        var value :- ReadEndingExpr();
        return Some(Changed(change, value, name));
      }
      var value :- ReadUpTo(if change.Subtracting? then WFrom else WTo);
      var name :- ReadEndingName();
      return Some(Changed(change, value, name));
    }

    method ReadReplace() returns (r: Option<Sentence>)
      requires Valid()
      modifies this
      ensures Outcome(r, ParseReplace(old(Rest())))
    {
      var _ :- Expect(Ident(WItem));
      var _ :- Expect(Ident(WAt));
      var index :- ReadUpTo(WIn);
      var name :- ReadNameUpTo(WWith);
      var value :- ReadEndingExpr();
      return Some(ReplaceItem(index, name, value));
    }

    method ReadRemove() returns (r: Option<Sentence>)
      requires Valid()
      modifies this
      ensures Outcome(r, ParseRemove(old(Rest())))
    {
      var _ :- Expect(Ident(WItem));
      var _ :- Expect(Ident(WAt));
      var index :- ReadUpTo(WFrom);
      var name :- ReadEndingName();
      return Some(RemoveItem(index, name));
    }

    method ReadCallSentence() returns (r: Option<Sentence>)
      requires Valid()
      modifies this
      ensures Outcome(r, ParseCallSentence(old(Rest())))
    {
      var through := CheckWordAt(0, WThrough);
      if through {
        Advance();
        var callee :- ReadPrimary();
        var args :- ReadCallEnd();
        r := ReadEnd(CallThrough(callee, args));
      } else {
        var name :- ReadName();
        var args :- ReadCallEnd();
        r := ReadEnd(CallName(name, args));
      }
    }

    method ReadReturn() returns (r: Option<Sentence>)
      requires Valid()
      modifies this
      ensures Outcome(r, ParseReturn(old(Rest())))
    {
      var here := Peek(0);
      if here == Dot {
        Advance();
        return Some(Return(None));
      }
      var e :- ReadEndingExpr();
      return Some(Return(Some(e)));
    }

    method ReadStaticAssert() returns (r: Option<Sentence>)
      requires Valid()
      modifies this
      ensures Outcome(r, ParseStaticAssert(old(Rest())))
    {
      var condition :- ReadExpr();
      var message := CheckTwo(0, WWith, WMessage);
      if message {
        Skip(2);
        var text :- ReadEndingText();
        return Some(StaticAssert(condition, Some(text)));
      }
      r := ReadEnd(StaticAssert(condition, None));
    }

    // ----- imports -----

    method SkipArticle()
      requires Valid()
      modifies this
      ensures Valid() && Rest() == PastArticle(old(Rest()))
    {
      var here := Peek(0);
      if here == Ident(WA) || here == Ident(WAn) || here == Ident(WThe) { Advance(); }
      var type_ := CheckWordAt(0, WType);
      if type_ { Advance(); }
    }

    method ReadHeaderName() returns (r: Option<string>)
      requires Valid()
      modifies this
      ensures Outcome(r, ParseHeaderName(old(Rest())))
    {
      var _ :- Expect(Ident(WFrom));
      var the := CheckWordAt(0, WThe);
      if the { Advance(); }
      var _ :- Expect(Ident(WHeader));
      r := ReadEndingText();
    }

    method ReadImport() returns (r: Option<Sentence>)
      requires Valid()
      modifies this
      ensures Outcome(r, ParseImport(old(Rest())))
    {
      var here := Peek(0);
      Advance();
      if here == Ident(WFunction) {
        r := ReadImportFunction();
      } else if here == Ident(WObject) {
        r := ReadImportObject(false);
      } else if here == Ident(WConstant) {
        r := ReadImportObject(true);
      } else if here == Ident(WHeader) || here == Ident(WLibrary) {
        var file :- ReadEndingText();
        return Some(ImportFile(here == Ident(WLibrary), file));
      } else {
        return None;
      }
    }

    method ReadImportObject(constant: bool) returns (r: Option<Sentence>)
      requires Valid()
      modifies this
      ensures Outcome(r, ParseImportObject(constant, old(Rest())))
    {
      var name :- ReadNameUpTo(WAs);
      SkipArticle();
      var type_ :- ReadSpec();
      var file :- ReadHeaderName();
      return Some(ImportObject(constant, name, type_, file));
    }

    method ReadImportFunction() returns (r: Option<Sentence>)
      requires Valid()
      modifies this
      ensures Outcome(r, ParseImportFunction(old(Rest())))
    {
      hide NameUpTo, ParseSignature, ParseSpec, PastArticle, ParseHeaderName;
      var name :- ReadNameUpTo(WTaking);
      var signature :- ReadSignature();
      var here := Peek(0);
      if here != Ident(WReturning) && here != Ident(WReturns) { return None; }
      Advance();
      SkipArticle();
      var type_ :- ReadSpec();
      var file :- ReadHeaderName();
      return Some(ImportFunction(name, signature.params, signature.variadic, type_, file));
    }

    method ReadSignature() returns (r: Option<Signature>)
      requires Valid()
      modifies this
      ensures Outcome(r, ParseSignature(old(Rest())))
    {
      var none := CheckWordAt(0, WNo);
      if none {
        Advance();
        var _ :- Expect(Ident(WParameters));
        return Some(Signature([], false));
      }
      var params: seq<Spec> := [];
      while true
        invariant Valid() && |Rest()| <= |old(Rest())|
        invariant ParseImportParams(params, Rest()) == ParseImportParams([], old(Rest()))
        decreases |Rest()|
      {
        SkipArticle();
        var param :- ReadSpec();
        params := params + [param];
        var and := CheckWordAt(0, WAnd);
        if !and { return Some(Signature(params, false)); }
        Advance();
        var variadic := CheckWordAt(0, WVariadic);
        if variadic {
          Advance();
          var _ :- Expect(Ident(WParameters));
          return Some(Signature(params, true));
        }
      }
    }

    // ----- blocks -----

    method CheckStop(stop: Stop) returns (found: bool)
      requires Valid()
      ensures found == StopsAt(stop, Rest())
    {
      found := StopsAt(stop, Rest());
    }

    /** The loop that reads a block up to the words that end it. */
    method ReadSentences(stop: Stop) returns (r: Option<seq<Sentence>>)
      requires Valid()
      modifies this
      ensures Outcome(r, ParseSentences(stop, [], old(Rest())))
      decreases |Rest()|, 53
    {
      var body: seq<Sentence> := [];
      var end := CheckStop(stop);
      while !end
        invariant Valid() && |Rest()| <= |old(Rest())| && end == StopsAt(stop, Rest())
        invariant ParseSentences(stop, body, Rest()) == ParseSentences(stop, [], old(Rest()))
        decreases |Rest()|
      {
        var here := Peek(0);
        if here == Eof { return None; }
        var s :- ReadSentence(false);
        body := body + [s];
        end := CheckStop(stop);
      }
      return Some(body);
    }

    method ReadBlock(what: Word, other: Word) returns (r: Option<seq<Sentence>>)
      requires Valid()
      modifies this
      ensures Outcome(r, ParseBlock(what, other, old(Rest())))
      decreases |Rest()|, 54
    {
      hide ParseSentences;
      var _ :- Expect(Colon);
      var body :- ReadSentences(EndOfEither(what, other));
      Skip(2);
      var _ :- Expect(Dot);
      return Some(body);
    }

    method ReadSentence(top: bool) returns (r: Option<Sentence>)
      requires Valid()
      modifies this
      ensures Outcome(r, ParseSentence(top, old(Rest())))
      decreases |Rest()|, 52
    {
      var here := Peek(0);
      if here == Comment {
        Advance();
        return Some(Remark);
      }
      var verb :- VerbAt(top, Rest());
      Skip(verb.width);
      r := ReadVerb(verb.it);
    }

    method ReadProgram() returns (r: Option<seq<Sentence>>)
      requires Valid()
      modifies this
      ensures Valid() && r == ParseProgram([], old(Rest()))
      ensures r.Some? ==> Rest() == []
    {
      hide ParseSentence;
      var program: seq<Sentence> := [];
      var here := Peek(0);
      while here != Eof
        invariant Valid() && (here == Eof <==> Rest() == [])
        invariant ParseProgram(program, Rest()) == ParseProgram([], old(Rest()))
        decreases |Rest()|
      {
        var s :- ReadSentence(true);
        program := program + [s];
        here := Peek(0);
      }
      return Some(program);
    }

    method ReadVerb(verb: Verb) returns (r: Option<Sentence>)
      requires Valid()
      modifies this
      ensures Outcome(r, ParseVerb(verb, old(Rest())))
      decreases |Rest()|, 56
    {
      match verb
      case Blockless(simple) => r := ReadSimple(simple);
      case RepeatVerb => r := ReadRepeat();
      case IfVerb(negated) => r := ReadIf(negated);
      case CompileVerb => r := ReadCompileIf();
      case WhileVerb(negated) => r := ReadWhile(negated);
      case DoVerb => r := ReadDoWhile();
      case ForEachVerb => r := ReadForEach();
      case ForVerb => r := ReadFor();
      case SwitchVerb => r := ReadSwitch();
      case ProcedureVerb => r := ReadProcedure();
    }

    method ReadSimple(verb: SimpleVerb) returns (r: Option<Sentence>)
      requires Valid()
      modifies this
      ensures Outcome(r, ParseSimple(verb, old(Rest())))
    {
      hide ParseSay, ParseSet, ParseDeclare, ParseRecord, ParseEnumeration, ParseDefine, ParseChange, ParseReplace,
           ParseRemove, ParseCallSentence, ParseReturn, ParseStaticAssert, ParseImport, EndingName, EndingExpr, Ended;
      match verb
      case SayVerb => r := ReadSay();
      case SetVerb => r := ReadSet();
      case DeclareVerb => r := ReadDeclare();
      case RecordVerb(kind) => r := ReadRecord(kind);
      case EnumerationVerb => r := ReadEnumeration();
      case DefineVerb => r := ReadDefine();
      case ChangeVerb(change) => r := ReadChange(change);
      case ReadVerb(asDecimal) =>
        var name :- ReadEndingName();
        return Some(Read(name, asDecimal));
      case ReplaceVerb => r := ReadReplace();
      case RemoveVerb => r := ReadRemove();
      case WarnVerb =>
        var text :- ReadEndingText();
        return Some(Warn(text));
      case BreakVerb => r := ReadEnd(Break);
      case ContinueVerb => r := ReadEnd(Continue);
      case GoVerb =>
        var _ :- Expect(Ident(WTo));
        var name :- ReadEndingName();
        return Some(GoTo(name));
      case LabelVerb =>
        var name :- ReadEndingName();
        return Some(Label(name));
      case CallVerb => r := ReadCallSentence();
      case ReturnVerb => r := ReadReturn();
      case StaticAssertVerb => r := ReadStaticAssert();
      case AssertVerb =>
        var e :- ReadEndingExpr();
        return Some(RuntimeAssert(e));
      case FenceVerb => r := ReadEnd(AtomicFence);
      case StartVerb =>
        var _ :- Expect(Ident(WAfter));
        var name :- ReadEndingName();
        return Some(StartVariadic(name));
      case CopyVerb =>
        var _ :- Expect(Ident(WTo));
        var name :- ReadEndingName();
        return Some(CopyVariadic(name));
      case FinishCopyVerb =>
        var name :- ReadEndingName();
        return Some(FinishCopy(name));
      case FinishVerb => r := ReadEnd(FinishVariadic);
      case ImportVerb => r := ReadImport();
    }

    method ReadRepeat() returns (r: Option<Sentence>)
      requires Valid()
      modifies this
      ensures Outcome(r, ParseRepeat(old(Rest())))
      decreases |Rest()|, 55
    {
      var count :- ReadExpr();
      var body :- ReadBlock(WRepeat, WRepeat);
      return Some(Repeat(count, body));
    }

    method ReadIf(negated: bool) returns (r: Option<Sentence>)
      requires Valid()
      modifies this
      ensures Outcome(r, ParseIf(negated, old(Rest())))
      decreases |Rest()|, 55
    {
      hide ParseUpTo, ParseSentences, ParseBlock, Ended, Condition;
      var condition :- ReadUpTo(WThen);
      var _ :- Expect(Colon);
      var yes :- ReadSentences(ElseOrEnd);
      var else_ := CheckWordAt(0, WElse);
      if else_ {
        Advance();
        var no :- ReadBlock(WIf, WUnless);
        return Some(If(Condition(negated, condition), yes, no));
      }
      Skip(2);
      r := ReadEnd(If(Condition(negated, condition), yes, []));
    }

    method ReadWhile(negated: bool) returns (r: Option<Sentence>)
      requires Valid()
      modifies this
      ensures Outcome(r, ParseWhile(negated, old(Rest())))
      decreases |Rest()|, 55
    {
      var condition :- ReadExpr();
      var body :- ReadBlock(WWhile, WUntil);
      return Some(While(Condition(negated, condition), body));
    }

    method ReadDoWhile() returns (r: Option<Sentence>)
      requires Valid()
      modifies this
      ensures Outcome(r, ParseDoWhile(old(Rest())))
      decreases |Rest()|, 55
    {
      hide ParseSentences, EndingExpr;
      var _ :- Expect(Colon);
      var body :- ReadSentences(EndOf(WDo));
      Skip(2);
      var _ :- Expect(Ident(WWhile));
      var condition :- ReadEndingExpr();
      return Some(DoWhile(body, condition));
    }

    method ReadForEach() returns (r: Option<Sentence>)
      requires Valid()
      modifies this
      ensures Outcome(r, ParseForEach(old(Rest())))
      decreases |Rest()|, 55
    {
      var name :- ReadNameUpTo(WIn);
      var list :- ReadExpr();
      var body :- ReadBlock(WFor, WFor);
      return Some(ForEach(name, list, body));
    }

    method ReadFor() returns (r: Option<Sentence>)
      requires Valid()
      modifies this
      ensures Outcome(r, ParseFor(old(Rest())))
      decreases |Rest()|, 55
    {
      hide NameUpTo, ParseExpr, ParseBlock;
      var name :- ReadNameUpTo(WFrom);
      var from :- ReadExpr();
      var down := CheckWordAt(0, WDown);
      if down { Advance(); }
      var _ :- Expect(Ident(WTo));
      var to :- ReadExpr();
      var body :- ReadBlock(WFor, WFor);
      return Some(For(name, from, to, down, body));
    }

    method ReadSwitch() returns (r: Option<Sentence>)
      requires Valid()
      modifies this
      ensures Outcome(r, ParseSwitch(old(Rest())))
      decreases |Rest()|, 55
    {
      var subject :- ReadExpr();
      var _ :- Expect(Colon);
      var clauses :- ReadClauses();
      if clauses == [] { return None; }
      r := ReadEnd(Switch(subject, clauses));
    }

    method ReadClauses() returns (r: Option<seq<Clause>>)
      requires Valid()
      modifies this
      ensures Outcome(r, ParseClauses([], old(Rest())))
      decreases |Rest()|, 52
    {
      var clauses: seq<Clause> := [];
      var end := CheckTwo(0, WEnd, WSwitch);
      while !end
        invariant Valid() && |Rest()| <= |old(Rest())| && end == TwoAt(Rest(), 0, WEnd, WSwitch)
        invariant ParseClauses(clauses, Rest()) == ParseClauses([], old(Rest()))
        decreases |Rest()|
      {
        var clause :- ReadClause();
        clauses := clauses + [clause];
        end := CheckTwo(0, WEnd, WSwitch);
      }
      Skip(2);
      return Some(clauses);
    }

    method ReadClause() returns (r: Option<Clause>)
      requires Valid()
      modifies this
      ensures Outcome(r, ParseClause(old(Rest())))
      decreases |Rest()|, 51
    {
      var value :- ReadClauseHead();
      var body :- ReadSentences(ClauseEnd);
      return Some(Clause(value, body));
    }

    method ReadClauseHead() returns (r: Option<Option<Expr>>)
      requires Valid()
      modifies this
      ensures Outcome(r, ParseClauseHead(old(Rest())))
    {
      var otherwise := CheckWordAt(0, WOtherwise);
      if otherwise {
        Advance();
        var _ :- Expect(Colon);
        return Some(None);
      }
      var _ :- Expect(Ident(WWhen));
      var e :- ReadExpr();
      var _ :- Expect(Colon);
      return Some(Some(e));
    }

    method ReadMacro() returns (r: Option<Name>)
      requires Valid()
      modifies this
      ensures Outcome(r, ParseMacro(old(Rest())))
    {
      var name :- ReadNameUpTo(WIs);
      var _ :- Expect(Ident(WDefined));
      var _ :- Expect(Colon);
      return Some(name);
    }

    method ReadCompileIf() returns (r: Option<Sentence>)
      requires Valid()
      modifies this
      ensures Outcome(r, ParseCompileIf(old(Rest())))
      decreases |Rest()|, 55
    {
      hide ParseMacro, ParseSentences, ParseBranches, ParseOtherwise, Ended;
      var macro :- ReadMacro();
      var yes :- ReadSentences(BranchEnd);
      var branches :- ReadBranches();
      var no :- ReadOtherwise();
      var _ :- Expect(Ident(WEnd));
      var _ :- Expect(Ident(WCompile));
      var _ :- Expect(Ident(WIf));
      r := ReadEnd(CompileIf(macro, yes, branches, no));
    }

    method ReadBranches() returns (r: Option<seq<Branch>>)
      requires Valid()
      modifies this
      ensures Outcome(r, ParseBranches([], old(Rest())))
      decreases |Rest()|, 55
    {
      hide ParseMacro, ParseSentences;
      var branches: seq<Branch> := [];
      var elif_ := CheckWordAt(0, WElif);
      while elif_
        invariant Valid() && |Rest()| <= |old(Rest())| && elif_ == WordAt(Rest(), 0, WElif)
        invariant ParseBranches(branches, Rest()) == ParseBranches([], old(Rest()))
        decreases |Rest()|
      {
        Advance();
        var macro :- ReadMacro();
        var body :- ReadSentences(BranchEnd);
        branches := branches + [Branch(macro, body)];
        elif_ := CheckWordAt(0, WElif);
      }
      return Some(branches);
    }

    method ReadOtherwise() returns (r: Option<seq<Sentence>>)
      requires Valid()
      modifies this
      ensures Outcome(r, ParseOtherwise(old(Rest())))
      decreases |Rest()|, 54
    {
      var otherwise := CheckWordAt(0, WOtherwise);
      if !otherwise { return Some([]); }
      Advance();
      var _ :- Expect(Colon);
      r := ReadSentences(CompileEnd);
    }

    // ----- procedures -----

    method ReadProcedure() returns (r: Option<Sentence>)
      requires Valid()
      modifies this
      ensures Outcome(r, ParseProcedure(old(Rest())))
      decreases |Rest()|, 55
    {
      hide ParseHeader, ParseReturns, ParseMarks, ParseBlock;
      var name :- ReadName();
      var header :- ReadHeader();
      var returns_ :- ReadReturns();
      if header.typed && returns_.None? { return None; }
      if header.untyped && returns_.Some? { return None; }
      var marks :- ReadMarks();
      var body :- ReadBlock(WProcedure, WProcedure);
      return Some(Procedure(name, header, returns_, marks, body));
    }

    method ReadHeader() returns (r: Option<Header>)
      requires Valid()
      modifies this
      ensures Outcome(r, ParseHeader(old(Rest())))
    {
      var h := NO_HEADER;
      var takes := CheckWordAt(0, WTakes);
      if !takes { return Some(h); }
      Advance();
      ghost var from := Rest();
      while true
        invariant Valid() && |Rest()| <= |from|
        invariant ParseProcedureParams(h, Rest()) == ParseProcedureParams(NO_HEADER, from)
        decreases |Rest()|
      {
        var here := Peek(0);
        if here == Colon || here == Ident(WReturns) { return Some(h); }
        var variadic := CheckVariadic();
        if variadic {
          Skip(3);
          return Some(h.(variadic := true));
        }
        var param :- ReadParam();
        h := Header(h.params + [param], h.typed || param.type_.Some?, h.untyped || param.type_.None?, false);
        if h.typed && h.untyped { return None; }
      }
    }

    method ReadParam() returns (r: Option<Param>)
      requires Valid()
      modifies this
      ensures Outcome(r, ParseParam(old(Rest())))
    {
      var name :- ReadName();
      var typed := CheckWordAt(0, WAs);
      if !typed { return Some(Param(name, None)); }
      Advance();
      var type_ :- ReadSpec();
      return Some(Param(name, Some(type_)));
    }

    method ReadReturns() returns (r: Option<Option<Spec>>)
      requires Valid()
      modifies this
      ensures Outcome(r, ParseReturns(old(Rest())))
    {
      var given := CheckWordAt(0, WReturns);
      if !given { return Some(None); }
      Advance();
      var type_ :- ReadSpec();
      return Some(Some(type_));
    }

    method ReadMarks() returns (r: Option<Marks>)
      requires Valid()
      modifies this
      ensures Outcome(r, ParseMarks(NO_MARKS, old(Rest())))
    {
      var m := NO_MARKS;
      while true
        invariant Valid() && |Rest()| <= |old(Rest())|
        invariant ParseMarks(m, Rest()) == ParseMarks(NO_MARKS, old(Rest()))
        decreases |Rest()|
      {
        var with := CheckWordAt(0, WWith);
        if !with { return Some(m); }
        var inline := CheckWordAt(1, WInline);
        var noReturn := CheckTwo(1, WNo, WReturn);
        var deprecated := CheckWordAt(1, WDeprecated);
        var unused := CheckTwo(1, WMaybe, WUnused);
        var third := Peek(2);
        if inline {
          m := m.(inline := true);
          Skip(2);
        } else if noReturn {
          m := m.(noReturn := true);
          Skip(3);
        } else if deprecated {
          m := if third.Str? then m.(deprecated := true, message := third.text) else m.(deprecated := true);
          Skip(if third.Str? then 3 else 2);
        } else if unused {
          m := m.(unused := true);
          Skip(3);
        } else {
          return None;
        }
      }
    }
  }
}
