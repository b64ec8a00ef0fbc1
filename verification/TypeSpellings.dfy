/** What the words of a type are read as: qualifiers, types without parts, and the forms of derived
    types around what their parts are read as. */
module TypeSpellings {
  import opened Options
  import opened Primitives
  import opened Types
  import opened Syntax
  import opened Grammar
  import opened Printer

  predicate IsSize(n: nat) { 0 < n <= LONG_MAX }

  /** Spelled with "integer" at the end, which "with exactly N bits" would continue. */
  predicate Bare(plain: Plainness) { plain.PInteger? || plain.PUnsignedInteger? }

  /** What the spelling of a plain type is read as. */
  function SimpleReading(q: Qualifiers, plain: Plainness, rest: Tokens): Option<Got<Spec>> {
    if !Bare(plain) || !ExactlyAt(rest, 0) then Some(Got(Simple(q, plain), rest))
    else if rest[2].value == 0 then None
    else Some(Got(FixedInteger(q, plain.PUnsignedInteger?, rest[2].value), rest[4..]))
  }

  // ----- how a type starts -----

  predicate IsQualifier(w: Word) { w == WConstant || w == WVolatile || w == WRestricted || w == WAtomic }

  /** Words that may stand around a type, or that would make a spelling another one. */
  predicate FollowsType(w: Word) {
    w == WNo || w == WVariadic || w == WAnd || w == WReturning || w == WWith || w == WDone || w == WOtherwise || w == WExactly
    || w == WThread || w == WConstexpr
  }

  predicate StartsSpec(ts: Tokens) {
    NameAt(ts, 0) && !FollowsType(ts[0].word)
  }

  predicate StartsBody(ts: Tokens) {
    StartsSpec(ts) && !IsQualifier(ts[0].word)
  }

  lemma SizedStarts(t: Spec, rest: Tokens)
    requires t.BitInteger? || t.FixedInteger? || t.StdintInteger?
    ensures StartsBody(BodyTo(t, rest)) && LeafWord(BodyTo(t, rest)[0].word)
  {
  }

  lemma SimpleStarts(plain: Plainness, rest: Tokens)
    ensures StartsBody(Front(PlainWords(plain), rest)) && LeafWord(PlainWords(plain)[0])
  {
  }

  lemma TypeOfStarts(t: Spec, rest: Tokens)
    requires t.TypeOfExpr? || t.TypeOfName?
    ensures StartsBody(BodyTo(t, rest))
  {
    hide Idents, Front, PrintTo;
  }

  // ----- qualifiers -----

  function Marked(q: Qualifiers, w: Word): Qualifiers {
    if w == WConstant then q.(isConst := true)
    else if w == WVolatile then q.(isVolatile := true)
    else if w == WRestricted then q.(isRestrict := true)
    else if w == WAtomic then q.(isAtomic := true)
    else q
  }

  function MarkedAll(q: Qualifiers, words: seq<Word>): Qualifiers
    decreases |words|
  {
    if words == [] then q else MarkedAll(Marked(q, words[0]), words[1..])
  }

  lemma {:induction false} MarksRead(q: Qualifiers, words: seq<Word>, body: Tokens)
    requires StartsBody(body) && forall k :: 0 <= k < |words| ==> IsQualifier(words[k])
    ensures ParseQualifiers(q, Front(words, body)) == Got(MarkedAll(q, words), body)
    decreases |words|
  {
    var ts := Front(words, body);
    if words == [] {
      assert ts == body;
    } else {
      assert ts[1..] == Front(words[1..], body);
      MarksRead(Marked(q, words[0]), words[1..], body);
    }
  }

  lemma MarksAreQualifiers(q: Qualifiers)
    ensures MarkedAll(PLAIN, QualifierWords(q)) == q
    ensures forall k :: 0 <= k < |QualifierWords(q)| ==> IsQualifier(QualifierWords(q)[k])
  {
    var a, b := if q.isConst then [WConstant] else [], if q.isVolatile then [WVolatile] else [];
    var c, d := if q.isRestrict then [WRestricted] else [], if q.isAtomic then [WAtomic] else [];
    MarkedJoin(PLAIN, a + b + c, d);
    MarkedJoin(PLAIN, a + b, c);
    MarkedJoin(PLAIN, a, b);
  }

  lemma {:induction false} MarkedJoin(q: Qualifiers, a: seq<Word>, b: seq<Word>)
    ensures MarkedAll(q, a + b) == MarkedAll(MarkedAll(q, a), b)
    decreases |a|
  {
    if a == [] {
      assert a + b == b;
    } else {
      assert (a + b)[1..] == a[1..] + b;
      MarkedJoin(Marked(q, a[0]), a[1..], b);
    }
  }

  lemma QualifiersRead(q: Qualifiers, body: Tokens)
    requires StartsBody(body)
    ensures ParseQualifiers(PLAIN, Front(QualifierWords(q), body)) == Got(q, body)
  {
    MarksAreQualifiers(q);
    MarksRead(PLAIN, QualifierWords(q), body);
  }

  // ----- types without parts -----

  /** No word of a derived type comes first. */
  predicate LeafWord(w: Word) {
    w != WPointer && w != WArray && w != WFunction && w != WType
  }

  lemma LeafBody(q: Qualifiers, ts: Tokens)
    requires NameAt(ts, 0) && LeafWord(ts[0].word)
    ensures ParseBody(q, ts) == ParseLeaf(q, ts)
  {
  }

  /** No word of a tagged or sized type comes first. */
  predicate PlainWord(w: Word) {
    && LeafWord(w) && w != WEnumeration && w != WUnion && w != WStructure && w != WLeast && w != WFast && w != WBit
    && w != WUnsigned
  }

  lemma PlainLeaf(q: Qualifiers, ts: Tokens)
    requires NameAt(ts, 0) && PlainWord(ts[0].word) && !(WordAt(ts, 0, WInteger) && ExactlyAt(ts, 1))
    ensures ParseLeaf(q, ts) == (match PlainAt(ts)
                                 case Some(s) => Used(Simple(q, s.it), ts, s.width)
                                 case None => Used(Alias(q, ts[0].word), ts, 1))
  {
  }

  lemma PlainFound(plain: Plainness, rest: Tokens)
    requires PlainWords(plain)[0] != WUnsigned
    ensures PlainAt(Front(PlainWords(plain), rest)) == Some(Sized(plain, |PlainWords(plain)|))
    ensures PlainWord(PlainWords(plain)[0])
  {
    if |PlainWords(plain)| == 1 {
      OneWordFound(plain, rest);
    } else if PlainWords(plain)[0] == WLong {
      LongFound(plain, rest);
    }
  }

  lemma OneWordFound(plain: Plainness, rest: Tokens)
    requires |PlainWords(plain)| == 1
    ensures PlainAt(Front(PlainWords(plain), rest)) == Some(Sized(plain, 1))
  {
  }

  lemma LongFound(plain: Plainness, rest: Tokens)
    requires PlainWords(plain)[0] == WLong
    ensures PlainAt(Front(PlainWords(plain), rest)) == Some(Sized(plain, |PlainWords(plain)|))
  {
  }

  lemma PlainReads(q: Qualifiers, plain: Plainness, rest: Tokens)
    requires PlainWords(plain)[0] != WUnsigned && !plain.PInteger?
    ensures ParseLeaf(q, Front(PlainWords(plain), rest)) == Some(Got(Simple(q, plain), rest))
  {
    var ts := Front(PlainWords(plain), rest);
    PlainFound(plain, rest);
    assert !WordAt(ts, 0, WInteger);
    PlainLeaf(q, ts);
  }

  lemma NothingPlain(tag: Word, rest: Tokens)
    requires tag.Named?
    ensures PlainAt(Front([tag], rest)) == None
  {
    assert Front([tag], rest)[0] == Ident(tag);
  }

  lemma AliasReads(q: Qualifiers, tag: Word, rest: Tokens)
    requires tag.Named?
    ensures ParseLeaf(q, Front([tag], rest)) == Some(Got(Alias(q, tag), rest))
  {
    NothingPlain(tag, rest);
    PlainLeaf(q, Front([tag], rest));
  }

  lemma TagReads(q: Qualifiers, kind: TagKind, tag: Word, rest: Tokens)
    ensures ParseLeaf(q, Front([TagWord(kind), tag], rest)) == Some(Got(Tagged(q, kind, tag), rest))
  {
  }

  lemma UnsignedLeaf(q: Qualifiers, ts: Tokens)
    requires WordAt(ts, 0, WUnsigned)
    ensures ParseLeaf(q, ts) == ParseUnsigned(q, ts)
  {
  }

  lemma UnsignedReads(q: Qualifiers, plain: Plainness, rest: Tokens)
    requires PlainWords(plain)[0] == WUnsigned && !plain.PUnsignedInteger?
    ensures ParseLeaf(q, Front(PlainWords(plain), rest)) == Some(Got(Simple(q, plain), rest))
  {
    UnsignedLeaf(q, Front(PlainWords(plain), rest));
    UnsignedForms(q, plain, rest);
  }

  lemma UnsignedForms(q: Qualifiers, plain: Plainness, rest: Tokens)
    requires PlainWords(plain)[0] == WUnsigned && !plain.PUnsignedInteger?
    ensures ParseUnsigned(q, Front(PlainWords(plain), rest)) == Some(Got(Simple(q, plain), rest))
  {
    var ts := Front(PlainWords(plain), rest);
    assert ts[1] == Ident(PlainWords(plain)[1]);
    if |PlainWords(plain)| > 2 { assert ts[2] == Ident(PlainWords(plain)[2]); }
  }

  lemma ExactlyBehind(words: seq<Word>, rest: Tokens)
    ensures ExactlyAt(Front(words, rest), |words|) <==> ExactlyAt(rest, 0)
    ensures ExactlyAt(rest, 0) ==>
              Front(words, rest)[|words| + 2] == rest[2] && Front(words, rest)[|words| + 4..] == rest[4..]
  {
    var ts := Front(words, rest);
    if ExactlyAt(ts, |words|) {
      assert ts[|words|] == rest[0] && ts[|words| + 1] == rest[1] && ts[|words| + 2] == rest[2] && ts[|words| + 3] == rest[3];
    }
  }

  lemma IntegerReads(q: Qualifiers, rest: Tokens)
    ensures ParseLeaf(q, Front([WInteger], rest)) == SimpleReading(q, PInteger, rest)
  {
    var ts := Front([WInteger], rest);
    ExactlyBehind([WInteger], rest);
    OneWordFound(PInteger, rest);
    if !ExactlyAt(ts, 1) { PlainLeaf(q, ts); }
  }

  lemma UnsignedIntegerReads(q: Qualifiers, rest: Tokens)
    ensures ParseLeaf(q, Front([WUnsigned, WInteger], rest)) == SimpleReading(q, PUnsignedInteger, rest)
  {
    ExactlyBehind([WUnsigned, WInteger], rest);
    UnsignedLeaf(q, Front([WUnsigned, WInteger], rest));
  }

  lemma SimpleReads(q: Qualifiers, plain: Plainness, rest: Tokens)
    ensures ParseLeaf(q, Front(PlainWords(plain), rest)) == SimpleReading(q, plain, rest)
  {
    if plain.PInteger? {
      IntegerReads(q, rest);
    } else if plain.PUnsignedInteger? {
      UnsignedIntegerReads(q, rest);
    } else if PlainWords(plain)[0] == WUnsigned {
      UnsignedReads(q, plain, rest);
    } else {
      PlainReads(q, plain, rest);
    }
  }

  lemma SizeBehind(words: seq<Word>, width: nat, rest: Tokens)
    requires IsSize(width)
    ensures var ts := Front(words, Size(width) + rest);
            && |ts| == |words| + 1 + |rest| && ts[|words|] == Num(width) && ts[|words| + 1..] == rest
            && forall k :: 0 <= k < |rest| ==> ts[|words| + 1 + k] == rest[k]
  {
    var ts := Front(words, Size(width) + rest);
    assert ts[|words|..] == Size(width) + rest;
  }

  lemma BitForm(q: Qualifiers, ts: Tokens)
    requires BitAt(ts, 0)
    ensures ParseLeaf(q, ts) == ParseBits(q, false, ts, 4)
  {
    hide AtLeastAt, ExactlyAt, PlainAt, ParseBits;
  }

  lemma UnsignedBitForm(q: Qualifiers, ts: Tokens)
    requires WordAt(ts, 0, WUnsigned) && BitAt(ts, 1)
    ensures ParseLeaf(q, ts) == ParseBits(q, true, ts, 5)
  {
    hide AtLeastAt, ExactlyAt, PlainAt, ParseBits;
    UnsignedLeaf(q, ts);
  }

  lemma BitReads(q: Qualifiers, isUnsigned: bool, width: nat, rest: Tokens)
    requires IsSize(width)
    ensures ParseLeaf(q, Front(BitWords(isUnsigned), Size(width) + rest)) == Some(Got(BitInteger(q, isUnsigned, width), rest))
  {
    hide ParseLeaf, Front, Idents;
    var words := BitWords(isUnsigned);
    var ts := Front(words, Size(width) + rest);
    SizeBehind(words, width, rest);
    if isUnsigned {
      assert words == [WUnsigned, WBit, WInteger, WWith, WWidth];
      UnsignedBitForm(q, ts);
    } else {
      assert words == [WBit, WInteger, WWith, WWidth];
      BitForm(q, ts);
    }
  }

  lemma BitsBehind(words: seq<Word>, width: nat, rest: Tokens)
    requires IsSize(width)
    ensures var ts := Front(words, Size(width) + Front([WBits], rest));
            && ts[|words|] == Num(width) && ts[|words| + 1] == Ident(WBits) && ts[|words| + 2..] == rest
            && |ts| == |words| + 2 + |rest|
  {
    SizeBehind(words, width, Front([WBits], rest));
    var ts := Front(words, Size(width) + Front([WBits], rest));
    assert ts[|words| + 1..][1..] == rest;
  }

  lemma FixedReads(q: Qualifiers, isUnsigned: bool, width: nat, rest: Tokens)
    requires IsSize(width)
    ensures ParseLeaf(q, Front(FixedWords(isUnsigned), Size(width) + Front([WBits], rest))) ==
            Some(Got(FixedInteger(q, isUnsigned, width), rest))
  {
    hide Front, Idents, ParseStdint, ParseBits, PlainAt;
    var words := FixedWords(isUnsigned);
    var ts := Front(words, Size(width) + Front([WBits], rest));
    BitsBehind(words, width, rest);
    if isUnsigned {
      assert words == [WUnsigned, WInteger, WWith, WExactly];
      UnsignedLeaf(q, ts);
      assert ExactlyAt(ts, 2);
    } else {
      assert words == [WInteger, WWith, WExactly];
      assert ExactlyAt(ts, 1);
    }
  }

  lemma StdintForm(q: Qualifiers, fast: bool, ts: Tokens)
    requires WordAt(ts, 0, if fast then WFast else WLeast) && AtLeastAt(ts, 1)
    ensures ParseLeaf(q, ts) == ParseStdint(q, false, fast, ts, 5)
  {
  }

  lemma UnsignedStdintForm(q: Qualifiers, fast: bool, ts: Tokens)
    requires WordAt(ts, 0, WUnsigned) && WordAt(ts, 1, if fast then WFast else WLeast) && AtLeastAt(ts, 2)
    ensures ParseLeaf(q, ts) == ParseStdint(q, true, fast, ts, 6)
  {
    UnsignedLeaf(q, ts);
  }

  lemma StdintReads(q: Qualifiers, isUnsigned: bool, fast: bool, width: nat, rest: Tokens)
    requires IsSize(width)
    ensures ParseLeaf(q, Front(StdintWords(isUnsigned, fast), Size(width) + Front([WBits], rest))) ==
            Some(Got(StdintInteger(q, isUnsigned, fast, width), rest))
  {
    var words, family := StdintWords(isUnsigned, fast), if fast then WFast else WLeast;
    var ts := Front(words, Size(width) + Front([WBits], rest));
    BitsBehind(words, width, rest);
    if isUnsigned {
      assert words == [WUnsigned, family, WInteger, WWith, WAt, WLeast];
      UnsignedStdintForm(q, fast, ts);
    } else {
      assert words == [family, WInteger, WWith, WAt, WLeast];
      StdintForm(q, fast, ts);
    }
  }

  // ----- derived types -----

  lemma TypeNameReads(q: Qualifiers, unqualified: bool, name: Name, rest: Tokens)
    requires unqualified || name != WUnqualified
    ensures ParseBody(q, Front(if unqualified then [WType, WOf, WUnqualified, name] else [WType, WOf, name], rest)) ==
            Some(Got(TypeOfName(q, unqualified, name), rest))
  {
    var words := if unqualified then [WUnqualified, name] else [name];
    var ts := Front(if unqualified then [WType, WOf, WUnqualified, name] else [WType, WOf, name], rest);
    assert ts[2..] == Front(words, rest);
    NameForm(q, unqualified, name, rest);
    TypeOfForm(q, ts);
  }

  lemma ParensText(q: Qualifiers, unqualified: bool, e: Expr, rest: Tokens)
    ensures var ts, inner := BodyTo(TypeOfExpr(q, unqualified, e), rest), [OpenParen] + PrintTo(e, [CloseParen] + rest);
            TwoAt(ts, 0, WType, WOf) && ts[2..] == if unqualified then Front([WUnqualified], inner) else inner
  {
    hide PrintTo, Front, Idents;
    BehindTypeOf([OpenParen] + PrintTo(e, [CloseParen] + rest));
  }

  lemma BehindTypeOf(inner: Tokens)
    ensures Front([WType, WOf, WUnqualified], inner)[2..] == Front([WUnqualified], inner)
    ensures Front([WType, WOf], inner)[2..] == inner
  {
  }

  lemma ParensForm(q: Qualifiers, unqualified: bool, inner: Tokens, e: Got<Expr>)
    requires ParseInner(inner) == Some(e)
    ensures ParseTypeOf(q, if unqualified then Front([WUnqualified], [OpenParen] + inner) else [OpenParen] + inner) ==
            Some(Got(TypeOfExpr(q, unqualified, e.value), e.rest))
  {
    hide ParseInner;
    assert ([OpenParen] + inner)[1..] == inner;
    assert Front([WUnqualified], [OpenParen] + inner)[1..] == [OpenParen] + inner;
  }

  lemma TypeOfForm(q: Qualifiers, ts: Tokens)
    requires TwoAt(ts, 0, WType, WOf)
    ensures ParseBody(q, ts) == ParseTypeOf(q, ts[2..])
  {
  }

  lemma NameForm(q: Qualifiers, unqualified: bool, name: Name, rest: Tokens)
    requires unqualified || name != WUnqualified
    ensures ParseTypeOf(q, Front(if unqualified then [WUnqualified, name] else [name], rest)) ==
            Some(Got(TypeOfName(q, unqualified, name), rest))
  {
    var ts := Front(if unqualified then [WUnqualified, name] else [name], rest);
    if unqualified { assert ts[1..][0] == Ident(name) && ts[1..][1..] == rest; }
  }

  lemma PointerForm(q: Qualifiers, ts: Tokens)
    ensures ParseBody(q, Front([WPointer, WTo], ts)) ==
            match ParseSpec(ts) case None => None case Some(p) => Some(Got(PointerTo(q, p.value), p.rest))
  {
    assert TwoAt(Front([WPointer, WTo], ts), 0, WPointer, WTo);
  }

  lemma ArrayForm(q: Qualifiers, ts: Tokens, element: Spec, bound: nat, rest: Tokens)
    requires IsSize(bound) && ParseSpec(ts) == Some(Got(element, Front([WWith, WLength], Size(bound) + rest)))
    ensures ParseBody(q, Front([WArray, WOf], ts)) == Some(Got(ArrayOf(q, element, bound), rest))
  {
    assert TwoAt(Front([WArray, WOf], ts), 0, WArray, WOf);
    var tail := Front([WWith, WLength], Size(bound) + rest);
    SizeBehind([WWith, WLength], bound, rest);
    assert tail[1..][1..] == Size(bound) + rest;
    assert (Size(bound) + rest)[1..] == rest;
  }

  lemma FunctionForm(q: Qualifiers, ts: Tokens)
    ensures ParseBody(q, Front([WFunction, WTaking], ts)) == ParseFunction(q, ts)
  {
    assert TwoAt(Front([WFunction, WTaking], ts), 0, WFunction, WTaking);
  }

  lemma NoParamsForm(q: Qualifiers, ts: Tokens)
    ensures ParseFunction(q, Front([WNo, WParameters, WReturning], ts)) == ParseResult(q, [], false, ts)
  {
    var all := Front([WNo, WParameters, WReturning], ts);
    assert all[2..][1..] == ts;
  }

  lemma ParamsForm(q: Qualifiers, ts: Tokens, params: seq<Spec>, result: Tokens)
    requires StartsSpec(ts) && ParseParams(ts) == Some(Got(params, Front([WReturning], result)))
    ensures ParseFunction(q, ts) == ParseResult(q, params, false, result)
  {
  }

  lemma MoreParams(ts: Tokens, first: Spec, others: Tokens)
    requires StartsSpec(others) && ParseSpec(ts) == Some(Got(first, Front([WAnd], others))) && ParseParams(others).Some?
    ensures ParseParams(ts) == Some(Got([first] + ParseParams(others).value.value, ParseParams(others).value.rest))
  {
    assert Front([WAnd], others)[1] == others[0];
  }
}
