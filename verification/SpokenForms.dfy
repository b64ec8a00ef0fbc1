/** The forms of sentences, expressions and types that the printer never writes: what the parser
    makes of them, word by word, whatever their parts and whatever follows. */
module SpokenForms {
  import opened Options
  import opened Primitives
  import opened Types
  import opened Syntax
  import opened Grammar
  import opened Sentences

  // ----- verbs -----

  /** A sentence that starts with a one-word verb. */
  lemma OneWordVerb(top: bool, w: Word, ts: Tokens)
    requires PlainVerb(w).Some?
    requires w !in {WStructure, WUnion, WEnumeration, WDefine, WAtomic, WImport}
    ensures ParseSentence(top, Front([w], ts)) == ParseVerb(PlainVerb(w).value, ts)
  {
    hide Idents, Front, ParseVerb, PlainVerb, LongVerb;
    var all := Front([w], ts);
    assert all[0] == Ident(w) && all[1..] == ts;
    assert TopVerb(all) == None;
    assert VerbAt(top, all) == Some(Sized(PlainVerb(w).value, 1));
  }

  /** Any of these words says the same as the first one of its kind, in front of any text. */
  lemma Synonyms(top: bool, ts: Tokens)
    ensures forall w :: w in {WPrint, WShow, WDisplay, WWrite, WOutput} ==>
              ParseSentence(top, Front([w], ts)) == ParseSentence(top, Front([WSay], ts))
    ensures forall w :: w in {WLet, WMake, WAssign, WPut} ==>
              ParseSentence(top, Front([w], ts)) == ParseSentence(top, Front([WSet], ts))
    ensures ParseSentence(top, Front([WCreate], ts)) == ParseSentence(top, Front([WDeclare], ts))
    ensures ParseSentence(top, Front([WSum], ts)) == ParseSentence(top, Front([WAdd], ts))
    ensures forall w :: w in {WDeduct, WTake} ==>
              ParseSentence(top, Front([w], ts)) == ParseSentence(top, Front([WSubtract], ts))
    ensures ParseSentence(top, Front([WPush], ts)) == ParseSentence(top, Front([WAppend], ts))
    ensures ParseSentence(top, Front([WWarn], ts)) == ParseSentence(top, Front([WWarning], ts))
    ensures ParseSentence(top, Front([WYield], ts)) == ParseSentence(top, Front([WReturn], ts))
  {
    hide Idents, Front, ParseVerb, ParseSentence;
    forall w, v | (v == WSay && w in {WPrint, WShow, WDisplay, WWrite, WOutput})
                  || (v == WSet && w in {WLet, WMake, WAssign, WPut})
                  || (v == WDeclare && w == WCreate) || (v == WAdd && w == WSum)
                  || (v == WSubtract && w in {WDeduct, WTake}) || (v == WAppend && w == WPush)
                  || (v == WWarning && w == WWarn) || (v == WReturn && w == WYield)
      ensures ParseSentence(top, Front([w], ts)) == ParseSentence(top, Front([v], ts))
    {
      SameVerb(v, w);
      OneWordVerb(top, w, ts);
      OneWordVerb(top, v, ts);
    }
  }

  lemma SameVerb(v: Word, w: Word)
    requires (v == WSay && w in {WPrint, WShow, WDisplay, WWrite, WOutput})
             || (v == WSet && w in {WLet, WMake, WAssign, WPut})
             || (v == WDeclare && w == WCreate) || (v == WAdd && w == WSum)
             || (v == WSubtract && w in {WDeduct, WTake}) || (v == WAppend && w == WPush)
             || (v == WWarning && w == WWarn) || (v == WReturn && w == WYield)
    ensures PlainVerb(w).Some? && PlainVerb(w) == PlainVerb(v)
  {
    hide ChangingVerb, ActingVerb, BlockVerb;
    if v == WSay || v == WWarning || v == WReturn {
      SameActing(v, w);
      ChangingWords(v);
      ChangingWords(w);
    } else {
      SameChanging(v, w);
    }
  }

  lemma SameActing(v: Word, w: Word)
    requires (v == WSay && w in {WPrint, WShow, WDisplay, WWrite, WOutput})
             || (v == WWarning && w == WWarn) || (v == WReturn && w == WYield)
    ensures ActingVerb(w).Some? && ActingVerb(w) == ActingVerb(v)
  {
  }

  lemma SameChanging(v: Word, w: Word)
    requires (v == WSet && w in {WLet, WMake, WAssign, WPut})
             || (v == WDeclare && w == WCreate) || (v == WAdd && w == WSum)
             || (v == WSubtract && w in {WDeduct, WTake}) || (v == WAppend && w == WPush)
    ensures ChangingVerb(w).Some? && ChangingVerb(w) == ChangingVerb(v)
  {
  }

  // ----- Unless and Until -----

  lemma ConditionVerbs()
    ensures PlainVerb(WUnless) == Some(IfVerb(true)) && PlainVerb(WIf) == Some(IfVerb(false))
    ensures PlainVerb(WUntil) == Some(WhileVerb(true)) && PlainVerb(WWhile) == Some(WhileVerb(false))
  {
    hide ChangingVerb, ActingVerb;
    forall w | w in {WUnless, WIf, WUntil, WWhile} ensures ChangingVerb(w).None? && ActingVerb(w).None? {
      ChangingWords(w);
      ActingWords(w);
    }
  }

  /** Unless is If on the negated condition, for every text. */
  lemma UnlessNegates(top: bool, ts: Tokens)
    ensures ParseSentence(top, Front([WUnless], ts)) ==
            match ParseSentence(top, Front([WIf], ts))
            case Some(Got(If(c, yes, no), rest)) => Some(Got(If(Unary(Not, c), yes, no), rest))
            case _ => None
  {
    hide Idents, Front, ParseSentence, ParseUpTo, ParseSentences, ParseBlock, ExpectToken;
    hide PlainVerb;
    ConditionVerbs();
    OneWordVerb(top, WUnless, ts);
    OneWordVerb(top, WIf, ts);
    assert ParseVerb(IfVerb(true), ts) == ParseIf(true, ts) && ParseVerb(IfVerb(false), ts) == ParseIf(false, ts);
  }

  /** Until is While on the negated condition, for every text. */
  lemma UntilNegates(top: bool, ts: Tokens)
    ensures ParseSentence(top, Front([WUntil], ts)) ==
            match ParseSentence(top, Front([WWhile], ts))
            case Some(Got(While(c, body), rest)) => Some(Got(While(Unary(Not, c), body), rest))
            case _ => None
  {
    hide Idents, Front, ParseSentence, ParseExpr, ParseBlock;
    hide PlainVerb;
    ConditionVerbs();
    OneWordVerb(top, WUntil, ts);
    OneWordVerb(top, WWhile, ts);
    assert ParseVerb(WhileVerb(true), ts) == ParseWhile(true, ts) && ParseVerb(WhileVerb(false), ts) == ParseWhile(false, ts);
  }

  // ----- increasing and decreasing -----

  /** "Increase x by e." adds, "Decrease x by e." subtracts. */
  lemma IncreaseReads(top: bool, w: Word, name: Name, value: Expr, ts: Tokens, rest: Tokens)
    requires w in {WIncrease, WRaise, WGrow, WDecrease, WReduce, WLower}
    requires ParseExpr(ts) == Some(Got(value, [Dot] + rest))
    ensures ParseSentence(top, Front([w], Front([name], Front([WBy], ts)))) ==
            Some(Got(if w in {WIncrease, WRaise, WGrow} then AddTo(value, name) else SubtractFrom(value, name), rest))
  {
    hide Idents, Front, ParseSentence, ParseExpr, PlainVerb;
    var parts := Front([name], Front([WBy], ts));
    var change := if w in {WIncrease, WRaise, WGrow} then Increasing else Decreasing;
    IncreaseVerbs(w);
    OneWordVerb(top, w, parts);
    assert ParseVerb(Blockless(ChangeVerb(change)), parts) == ParseChange(change, parts);
    NameBefore(name, WBy, ts);
    assert ([Dot] + rest)[1..] == rest;
  }

  lemma IncreaseVerbs(w: Word)
    requires w in {WIncrease, WRaise, WGrow, WDecrease, WReduce, WLower}
    ensures PlainVerb(w) == Some(Blockless(ChangeVerb(if w in {WIncrease, WRaise, WGrow} then Increasing else Decreasing)))
  {
    hide ActingVerb, BlockVerb;
  }

  // ----- assertions -----

  /** "Assert that e." is checked at translation time, "Assert e." at run time. */
  lemma AssertReads(top: bool, static_: bool, condition: Expr, ts: Tokens, rest: Tokens)
    requires ParseExpr(ts) == Some(Got(condition, [Dot] + rest)) && (static_ || !WordAt(ts, 0, WThat))
    ensures ParseSentence(top, Front(if static_ then [WAssert, WThat] else [WAssert], ts)) ==
            Some(Got(if static_ then StaticAssert(condition, None) else RuntimeAssert(condition), rest))
  {
    hide ParseExpr, ParseSentence, VerbAt;
    AssertVerbs(top, ts);
    AssertIs(top, static_, ts);
    assert ([Dot] + rest)[1..] == rest;
  }

  lemma AssertVerbs(top: bool, ts: Tokens)
    ensures VerbAt(top, Front([WAssert, WThat], ts)) == Some(Sized(Blockless(StaticAssertVerb), 2))
    ensures !WordAt(ts, 0, WThat) ==> VerbAt(top, Front([WAssert], ts)) == Some(Sized(Blockless(AssertVerb), 1))
  {
    hide PlainVerb;
    NoPlainVerb();
  }

  lemma AssertIs(top: bool, static_: bool, ts: Tokens)
    requires static_ || !WordAt(ts, 0, WThat)
    ensures ParseSentence(top, Front(if static_ then [WAssert, WThat] else [WAssert], ts)) ==
            ParseSimple(if static_ then StaticAssertVerb else AssertVerb, ts)
  {
    hide VerbAt, ParseSimple;
    AssertVerbs(top, ts);
    var all := Front(if static_ then [WAssert, WThat] else [WAssert], ts);
    assert all[0] == Ident(WAssert);
  }

  lemma NoPlainVerb()
    ensures PlainVerb(WAssert) == None
  {
  }

  lemma AssertWithMessageReads(top: bool, condition: Expr, text: string, ts: Tokens, rest: Tokens)
    requires ParseExpr(ts) == Some(Got(condition, Front([WWith, WMessage], [Str(text), Dot] + rest)))
    ensures ParseSentence(top, Front([WAssert, WThat], ts)) == Some(Got(StaticAssert(condition, Some(text)), rest))
  {
    hide ParseExpr, ParseSentence;
    AssertIs(top, true, ts);
    var end := [Str(text), Dot] + rest;
    assert Front([WWith, WMessage], end)[2..] == end;
    assert end[1..] == [Dot] + rest && ([Dot] + rest)[1..] == rest;
  }

  // ----- sentences of the top level -----

  /** "Define n as t.", at the top level only. */
  lemma DefineReads(name: Name, type_: Spec, ts: Tokens, rest: Tokens)
    requires ParseSpec(ts) == Some(Got(type_, [Dot] + rest))
    ensures ParseSentence(true, Front([WDefine], Front([name], Front([WAs], ts)))) == Some(Got(Define(name, type_), rest))
    ensures ParseSentence(false, Front([WDefine], Front([name], Front([WAs], ts)))) == None
  {
    hide ParseSpec, PlainVerb, Idents, Front;
    TopWords();
    var parts := Front([name], Front([WAs], ts));
    var all := Front([WDefine], parts);
    assert all[0] == Ident(WDefine) && all[1..] == parts;
    assert VerbAt(true, all) == Some(Sized(Blockless(DefineVerb), 1));
    assert VerbAt(false, all) == None;
    assert NameUpTo(WAs, parts) == Some(Got(name, ts));
    assert ([Dot] + rest)[1..] == rest;
  }

  lemma TopWords()
    ensures forall w :: w in {WDefine, WAtomic, WImport} ==> PlainVerb(w) == None
  {
    assert ChangingVerb(WDefine) == None;
    hide ChangingVerb, ActingVerb;
    forall w | w in {WDefine, WAtomic, WImport} ensures PlainVerb(w) == None {
      if w != WDefine { ChangingWords(w); }
      ActingWords(w);
    }
  }

  /** "Atomic fence." */
  lemma FenceReads(rest: Tokens)
    ensures ParseSentence(true, Front([WAtomic, WFence], [Dot] + rest)) == Some(Got(AtomicFence, rest))
    ensures ParseSentence(false, Front([WAtomic, WFence], [Dot] + rest)) == None
  {
    hide PlainVerb;
    TopWords();
    var all := Front([WAtomic, WFence], [Dot] + rest);
    assert VerbAt(true, all) == Some(Sized(Blockless(FenceVerb), 2));
    assert ([Dot] + rest)[1..] == rest;
    assert LongVerb(all) == None;
  }

  /** "Atomic store e to x." */
  lemma StoreReads(value: Expr, name: Name, ts: Tokens, rest: Tokens)
    requires ParseExpr(ts) == Some(Got(value, Front([WTo], Front([name], [Dot] + rest))))
    ensures ParseSentence(true, Front([WAtomic, WStore], ts)) == Some(Got(AtomicStore(value, name), rest))
    ensures ParseSentence(false, Front([WAtomic, WStore], ts)) == None
  {
    hide VerbAt, ParseExpr, ParseChange;
    StoreVerbs(ts);
    StoreIs(value, name, ts, rest);
    assert ParseVerb(Blockless(ChangeVerb(Storing)), ts) == ParseChange(Storing, ts);
  }

  lemma StoreVerbs(ts: Tokens)
    ensures var all := Front([WAtomic, WStore], ts);
            VerbAt(true, all) == Some(Sized(Blockless(ChangeVerb(Storing)), 2)) && VerbAt(false, all) == None
  {
    hide PlainVerb;
    TopWords();
    assert LongVerb(Front([WAtomic, WStore], ts)) == None;
  }

  lemma StoreIs(value: Expr, name: Name, ts: Tokens, rest: Tokens)
    requires ParseExpr(ts) == Some(Got(value, Front([WTo], Front([name], [Dot] + rest))))
    ensures ParseChange(Storing, ts) == Some(Got(AtomicStore(value, name), rest))
  {
    hide ParseExpr;
    NameDot(name, rest);
  }

  // ----- imports -----

  /** "Import" or "Import the" in front of the rest of an import. */
  function ImportWords(article: bool): seq<Word> {
    if article then [WImport, WThe, WLanguage] else [WImport, WLanguage]
  }

  lemma ImportStarts(article: bool, ts: Tokens)
    ensures ParseSentence(true, Front(ImportWords(article), ts)) == ParseImport(ts)
    ensures ParseSentence(false, Front(ImportWords(article), ts)) == None
  {
    hide PlainVerb, ParseImport;
    TopWords();
    var all := Front(ImportWords(article), ts);
    assert VerbAt(true, all) == Some(Sized(Blockless(ImportVerb), |ImportWords(article)|));
    assert LongVerb(all) == None;
  }

  /** "Import C header f." and "Import C library f." */
  lemma ImportFileReads(article: bool, library: bool, file: string, rest: Tokens)
    ensures ParseSentence(true, Front(ImportWords(article), Front([if library then WLibrary else WHeader], [Str(file), Dot] + rest))) ==
            Some(Got(ImportFile(library, file), rest))
  {
    var end := [Str(file), Dot] + rest;
    var parts := Front([if library then WLibrary else WHeader], end);
    ImportStarts(article, parts);
    hide ImportWords, ParseSentence, ParseSpec;
    assert parts[1..] == end && end[1..] == [Dot] + rest && ([Dot] + rest)[1..] == rest;
  }

  /** The words that may stand in front of an imported type. */
  predicate IsArticle(words: seq<Word>) {
    words in {[], [WA], [WAn], [WThe], [WType], [WA, WType], [WAn, WType], [WThe, WType]}
  }

  lemma ArticleOff(words: seq<Word>, ts: Tokens)
    requires IsArticle(words) && forall w :: w in {WA, WAn, WThe, WType} ==> !WordAt(ts, 0, w)
    ensures PastArticle(Front(words, ts)) == ts
  {
    var all := Front(words, ts);
    if words == [] { assert all == ts; }
    if |words| == 1 { assert all[1..] == ts; }
    if |words| == 2 { assert all[1..][1..] == ts; }
  }

  /** "from header f.", with or without an article. */
  function FromHeader(article: bool, file: string, rest: Tokens): Tokens {
    Front(if article then [WFrom, WThe, WHeader] else [WFrom, WHeader], [Str(file), Dot] + rest)
  }

  lemma FromHeaderReads(article: bool, file: string, rest: Tokens)
    ensures ParseHeaderName(FromHeader(article, file, rest)) == Some(Got(file, rest))
  {
    var end := [Str(file), Dot] + rest;
    assert end[1..] == [Dot] + rest && ([Dot] + rest)[1..] == rest;
    var all := FromHeader(article, file, rest);
    if article { assert all[1..][1..][1..] == end; } else { assert all[1..][1..] == end; }
  }

  /** "Import C object n as t from header f.", and "constant" for an object that is one. */
  lemma ImportObjectReads(article: bool, constant: bool, name: Name, words: seq<Word>, type_: Spec, ts: Tokens,
                          the: bool, file: string, rest: Tokens)
    requires IsArticle(words) && forall w :: w in {WA, WAn, WThe, WType} ==> !WordAt(ts, 0, w)
    requires ParseSpec(ts) == Some(Got(type_, FromHeader(the, file, rest)))
    ensures var parts := Front([name], Front([WAs], Front(words, ts)));
            ParseSentence(true, Front(ImportWords(article), Front([if constant then WConstant else WObject], parts))) ==
            Some(Got(ImportObject(constant, name, type_, file), rest))
  {
    hide ParseSpec, FromHeader, ImportWords, IsArticle, PastArticle, ParseHeaderName, Idents, Front, ParseSentence;
    var parts := Front([name], Front([WAs], Front(words, ts)));
    var all := Front([if constant then WConstant else WObject], parts);
    ImportStarts(article, all);
    assert all[0] == Ident(if constant then WConstant else WObject) && all[1..] == parts;
    assert NameUpTo(WAs, parts) == Some(Got(name, Front(words, ts)));
    ArticleOff(words, ts);
    FromHeaderReads(the, file, rest);
    assert ParseImport(all) == ParseImportObject(constant, parts);
  }

  /** The types of an imported function's parameters, one after another. */
  lemma ImportParamsRead(words: seq<Word>, param: Spec, sofar: seq<Spec>, ts: Tokens, more: Tokens)
    requires IsArticle(words) && forall w :: w in {WA, WAn, WThe, WType} ==> !WordAt(ts, 0, w)
    requires ParseSpec(ts) == Some(Got(param, more))
    ensures var all := Front(words, ts);
            && (!WordAt(more, 0, WAnd) ==> ParseImportParams(sofar, all) == Some(Got(Signature(sofar + [param], false), more)))
            && (VariadicAt(more) ==> ParseImportParams(sofar, all) == Some(Got(Signature(sofar + [param], true), more[3..])))
            && (WordAt(more, 0, WAnd) && !WordAt(more, 1, WVariadic) ==>
                  ParseImportParams(sofar, all) == ParseImportParams(sofar + [param], more[1..]))
  {
    hide ParseSpec, IsArticle, PastArticle;
    ArticleOff(words, ts);
    if VariadicAt(more) { assert more[2..][1..] == more[3..]; }
  }

  /** "Import C function n taking ... returning t from header f." */
  lemma ImportFunctionReads(article: bool, name: Name, none: bool, params: seq<Spec>, variadic: bool, returns_: bool,
                            words: seq<Word>, type_: Spec, ts: Tokens, us: Tokens, the: bool, file: string, rest: Tokens)
    requires IsArticle(words) && forall w :: w in {WA, WAn, WThe, WType} ==> !WordAt(us, 0, w)
    requires ParseSpec(us) == Some(Got(type_, FromHeader(the, file, rest)))
    requires var result := Front([if returns_ then WReturns else WReturning], Front(words, us));
             if none then params == [] && !variadic && ts == Front([WNo, WParameters], result)
             else !WordAt(ts, 0, WNo) && ParseImportParams([], ts) == Some(Got(Signature(params, variadic), result))
    ensures ParseSentence(true, Front(ImportWords(article), Front([WFunction], Front([name], Front([WTaking], ts))))) ==
            Some(Got(ImportFunction(name, params, variadic, type_, file), rest))
  {
    hide ParseSpec, FromHeader, ImportWords, IsArticle, PastArticle, ParseHeaderName, ParseSentence, ParseSignature, Idents, Front;
    var parts := Front([name], Front([WTaking], ts));
    var all := Front([WFunction], parts);
    ImportStarts(article, all);
    NameBefore(name, WTaking, ts);
    ArticleOff(words, us);
    FromHeaderReads(the, file, rest);
    SignatureReads(none, params, variadic, ts, Front([if returns_ then WReturns else WReturning], Front(words, us)));
    assert Front([if returns_ then WReturns else WReturning], Front(words, us))[1..] == Front(words, us);
    assert all[0] == Ident(WFunction) && all[1..] == parts;
    assert ParseImport(all) == ParseImportFunction(parts);
  }

  lemma SignatureReads(none: bool, params: seq<Spec>, variadic: bool, ts: Tokens, result: Tokens)
    requires if none then params == [] && !variadic && ts == Front([WNo, WParameters], result)
             else !WordAt(ts, 0, WNo) && ParseImportParams([], ts) == Some(Got(Signature(params, variadic), result))
    ensures ParseSignature(ts) == Some(Got(Signature(params, variadic), result))
  {
    hide ParseImportParams;
    if none { assert ts[1..][1..] == result; }
  }

  // ----- calls -----

  /** "Call through p with ... done." and "Call through p done." */
  lemma CallThroughReads(top: bool, callee: Expr, items: seq<Expr>, ts: Tokens, us: Tokens, rest: Tokens)
    requires ParsePrimary(ts) == Some(Got(callee, us))
    requires if WordAt(us, 0, WWith) then ParseArgs(us[1..]) == Some(Got(items, [Dot] + rest))
             else items == [] && us == Front([WDone], [Dot] + rest)
    ensures ParseSentence(top, Front([WCall, WThrough], ts)) == Some(Got(CallThrough(callee, items), rest))
  {
    CallIs(top, ts);
    hide *;
    ThroughIs(callee, items, ts, us, rest);
  }

  lemma CallIs(top: bool, ts: Tokens)
    ensures ParseSentence(top, Front([WCall, WThrough], ts)) == ParseCallSentence(Front([WThrough], ts))
  {
    hide ParsePrimary, ParseArgs, PlainVerb, ParseSentence, ParseCallSentence;
    var parts := Front([WThrough], ts);
    CallVerbIs();
    OneWordVerb(top, WCall, parts);
    assert Front([WCall, WThrough], ts) == Front([WCall], parts);
    assert ParseVerb(Blockless(CallVerb), parts) == ParseCallSentence(parts);
  }

  lemma ThroughIs(callee: Expr, items: seq<Expr>, ts: Tokens, us: Tokens, rest: Tokens)
    requires ParsePrimary(ts) == Some(Got(callee, us))
    requires if WordAt(us, 0, WWith) then ParseArgs(us[1..]) == Some(Got(items, [Dot] + rest))
             else items == [] && us == Front([WDone], [Dot] + rest)
    ensures ParseCallSentence(Front([WThrough], ts)) == Some(Got(CallThrough(callee, items), rest))
  {
    hide ParsePrimary, ParseArgs;
    assert Front([WThrough], ts)[1..] == ts;
    DotOff(rest);
  }

  lemma CallVerbIs()
    ensures PlainVerb(WCall) == Some(Blockless(CallVerb))
  {
  }

  // ----- declarations -----

  /** Storage phrases in front of others: of several alignments the last one counts. */
  function InFrontOf(first: Traits, t: Traits): Traits {
    t.(alignment := if t.alignment.Some? then t.alignment else first.alignment,
       internal := first.internal || t.internal, external := first.external || t.external,
       static_ := first.static_ || t.static_)
  }

  datatype Phrase = Aligned(n: nat) | Internal | External | Static | Deprecated | DeprecatedFor(text: string) | Unused

  function PhraseAt(ts: Tokens): (r: Option<Got<Phrase>>)
    ensures r.Some? ==> |r.value.rest| < |ts|
  {
    if !WordAt(ts, 0, WWith) then None
    else if WordAt(ts, 1, WAlignment) then
      if NumAt(ts, 2) && ts[2].value != 0 then Some(Got(Aligned(ts[2].value), ts[3..])) else None
    else if TwoAt(ts, 1, WInternal, WLinkage) then Some(Got(Internal, ts[3..]))
    else if TwoAt(ts, 1, WExternal, WLinkage) then Some(Got(External, ts[3..]))
    else if TwoAt(ts, 1, WStatic, WStorage) then Some(Got(Static, ts[3..]))
    else if WordAt(ts, 1, WDeprecated) then
      if StrAt(ts, 2) then Some(Got(DeprecatedFor(ts[2].text), ts[3..])) else Some(Got(Deprecated, ts[2..]))
    else if TwoAt(ts, 1, WMaybe, WUnused) then Some(Got(Unused, ts[3..]))
    else None
  }

  function Sets(t: Traits, phrase: Phrase): Traits {
    match phrase
    case Aligned(n) => t.(alignment := Some(n))
    case Internal => t.(internal := true)
    case External => t.(external := true)
    case Static => t.(static_ := true)
    case Deprecated => t.(deprecated := true)
    case DeprecatedFor(text) => t.(deprecated := true, message := text)
    case Unused => t.(unused := true)
  }

  lemma TraitsStep(t: Traits, ts: Tokens)
    ensures var next := PhraseAt(ts);
            ParseTraits(t, ts) ==
            if next.Some? then ParseTraits(Sets(t, next.value.value), next.value.rest)
            else if TwoAt(ts, 0, WWith, WAlignment) then None
            else Some(Got(t, ts))
  {
  }

  lemma SetsCommute(first: Traits, t: Traits, phrase: Phrase)
    ensures InFrontOf(first, Sets(t, phrase)) == Sets(InFrontOf(first, t), phrase)
  {
  }

  lemma {:induction false} PhrasesInFront(first: Traits, t: Traits, ts: Tokens)
    ensures ParseTraits(InFrontOf(first, t), ts) ==
            match ParseTraits(t, ts)
            case Some(Got(r, rest)) => Some(Got(InFrontOf(first, r), rest))
            case None => None
    decreases |ts|
  {
    hide ParseTraits, PhraseAt, InFrontOf, Sets, WordAt, TwoAt;
    TraitsStep(InFrontOf(first, t), ts);
    TraitsStep(t, ts);
    if PhraseAt(ts).Some? {
      var phrase := PhraseAt(ts).value;
      SetsCommute(first, t, phrase.value);
      PhrasesInFront(first, Sets(t, phrase.value), phrase.rest);
    }
  }

  /** What follows the name of a declaration, from its "as" on. */
  lemma DeclareIs(top: bool, name: Name, ts: Tokens)
    ensures ParseSentence(top, Front([WDeclare], Front([name], ts))) == ParseDeclare(Front([name], ts))
  {
    hide ParseDeclare, ParseSentence, Idents, Front, ActingVerb, BlockVerb;
    OneWordVerb(top, WDeclare, Front([name], ts));
  }

  /** The storage phrases that are not printed, and what each of them sets. */
  predicate StoragePhrase(words: Tokens, sets: Traits) {
    || (words == Idents([WWith, WInternal, WLinkage]) && sets == NO_TRAITS.(internal := true))
    || (words == Idents([WWith, WExternal, WLinkage]) && sets == NO_TRAITS.(external := true))
    || (words == Idents([WWith, WStatic, WStorage]) && sets == NO_TRAITS.(static_ := true))
    || (|words| == 3 && words[..2] == Idents([WWith, WAlignment]) && words[2].Num? && words[2].value > 0
        && sets == NO_TRAITS.(alignment := Some(words[2].value)))
  }

  lemma PhraseReads(words: Tokens, sets: Traits, ts: Tokens)
    requires StoragePhrase(words, sets)
    ensures ParseTraits(NO_TRAITS, words + ts) == ParseTraits(sets, ts) && InFrontOf(sets, NO_TRAITS) == sets
  {
    var all := words + ts;
    assert all[3..] == ts;
    assert all[0] == words[0] && all[1] == words[1] && all[2] == words[2];
    assert words[..2] == Idents([WWith, WAlignment]) ==> words[0] == Ident(WWith) && words[1] == Ident(WAlignment) by {
      assert words[..2][0] == words[0] && words[..2][1] == words[1];
    }
  }

  /** A storage phrase behind the name sets what it names and changes nothing else. */
  lemma StorageReads(top: bool, name: Name, words: Tokens, sets: Traits, ts: Tokens)
    requires StoragePhrase(words, sets)
    ensures ParseSentence(top, Front([WDeclare], Front([name], words + ts))) ==
            match ParseSentence(top, Front([WDeclare], Front([name], ts)))
            case Some(Got(Declare(x, t, thread, constexpr, type_, start), rest)) =>
              Some(Got(Declare(x, InFrontOf(sets, t), thread, constexpr, type_, start), rest))
            case _ => None
  {
    hide ParseSentence, ParseTraits, ParseDeclare, Idents, Front, StoragePhrase, InFrontOf, PlainVerb;
    DeclareIs(top, name, ts);
    DeclareIs(top, name, words + ts);
    PhraseReads(words, sets, ts);
    PhrasesInFront(sets, NO_TRAITS, ts);
    DeclareParts(name, ts);
    DeclareParts(name, words + ts);
    match ParseTraits(NO_TRAITS, ts)
    case Some(Got(traits, rest)) =>
      SameParts(name, traits, InFrontOf(sets, traits), rest);
    case None =>
  }

  /** What stands behind the phrases. */
  function AfterTraits(name: Name, traits: Traits, ts: Tokens): Option<Got<Sentence>> {
    var as_ :- ExpectWord(WAs, ts);
    var thread := TwoAt(as_, 0, WThread, WLocal);
    var after := Past(thread, 2, as_);
    var constexpr := WordAt(after, 0, WConstexpr);
    var type_ :- ParseSpec(Past(constexpr, 1, after));
    var start :- ParseStart(type_.rest);
    Ended(Declare(name, traits, thread, constexpr, type_.value, start.value), start.rest)
  }

  lemma DeclareParts(name: Name, ts: Tokens)
    ensures ParseDeclare(Front([name], ts)) ==
            match ParseTraits(NO_TRAITS, ts)
            case Some(Got(traits, rest)) => AfterTraits(name, traits, rest)
            case None => None
    ensures match ParseDeclare(Front([name], ts)) case Some(Got(s, _)) => s.Declare? case None => true
  {
    hide ParseTraits, Idents, Front, ParseSpec, ParseStart;
    NameOff(name, ts);
  }

  lemma SameParts(name: Name, t: Traits, u: Traits, ts: Tokens)
    ensures match AfterTraits(name, t, ts)
            case Some(Got(Declare(x, w, thread, constexpr, type_, start), rest)) =>
              w == t && AfterTraits(name, u, ts) == Some(Got(Declare(x, u, thread, constexpr, type_, start), rest))
            case _ => AfterTraits(name, u, ts) == None
  {
    hide ParseSpec, ParseStart;
  }

  /** No object is aligned to zero. */
  lemma ZeroAlignment(top: bool, name: Name, ts: Tokens)
    ensures ParseSentence(top, Front([WDeclare], Front([name], Front([WWith, WAlignment], [Num(0)] + ts)))) == None
  {
    hide ParseSentence, ParseDeclare, PlainVerb;
    var all := Front([WWith, WAlignment], [Num(0)] + ts);
    DeclareIs(top, name, all);
    DeclareParts(name, all);
    assert all[2] == Num(0);
    assert ParseTraits(NO_TRAITS, all) == None;
  }

  /** "as thread local" and "as constexpr" mark the declaration that is left without them. */
  lemma ThreadLocalReads(top: bool, name: Name, ts: Tokens)
    requires !TwoAt(ts, 0, WThread, WLocal)
    ensures ParseSentence(top, Front([WDeclare], Front([name], Front([WAs, WThread, WLocal], ts)))) ==
            match ParseSentence(top, Front([WDeclare], Front([name], Front([WAs], ts))))
            case Some(Got(Declare(x, t, _, constexpr, type_, start), rest)) =>
              Some(Got(Declare(x, t, true, constexpr, type_, start), rest))
            case _ => None
  {
    var plain, marked := Front([WAs], ts), Front([WAs, WThread, WLocal], ts);
    NoPhrase(plain);
    NoPhrase(marked);
    ThreadLocalParts(name, ts);
    hide ParseSentence, ParseDeclare, ParseTraits, AfterTraits, Front, Idents;
    DeclareIs(top, name, plain);
    DeclareIs(top, name, marked);
    DeclareParts(name, plain);
    DeclareParts(name, marked);
  }

  lemma ConstexprReads(top: bool, name: Name, ts: Tokens)
    requires !TwoAt(ts, 0, WThread, WLocal) && !WordAt(ts, 0, WConstexpr)
    ensures ParseSentence(top, Front([WDeclare], Front([name], Front([WAs, WConstexpr], ts)))) ==
            match ParseSentence(top, Front([WDeclare], Front([name], Front([WAs], ts))))
            case Some(Got(Declare(x, t, thread, _, type_, start), rest)) =>
              Some(Got(Declare(x, t, thread, true, type_, start), rest))
            case _ => None
  {
    var plain, marked := Front([WAs], ts), Front([WAs, WConstexpr], ts);
    NoPhrase(plain);
    NoPhrase(marked);
    ConstexprParts(name, ts);
    hide ParseSentence, ParseDeclare, ParseTraits, AfterTraits, Front, Idents;
    DeclareIs(top, name, plain);
    DeclareIs(top, name, marked);
    DeclareParts(name, plain);
    DeclareParts(name, marked);
  }

  lemma NoPhrase(ts: Tokens)
    requires !WordAt(ts, 0, WWith)
    ensures ParseTraits(NO_TRAITS, ts) == Some(Got(NO_TRAITS, ts))
  {
  }

  lemma ThreadLocalParts(name: Name, ts: Tokens)
    requires !TwoAt(ts, 0, WThread, WLocal)
    ensures AfterTraits(name, NO_TRAITS, Front([WAs, WThread, WLocal], ts)) ==
            match AfterTraits(name, NO_TRAITS, Front([WAs], ts))
            case Some(Got(Declare(x, t, _, constexpr, type_, start), rest)) =>
              Some(Got(Declare(x, t, true, constexpr, type_, start), rest))
            case _ => None
  {
    hide ParseSpec, ParseStart;
    assert Front([WAs], ts)[1..] == ts && Front([WAs, WThread, WLocal], ts)[1..][2..] == ts;
  }

  lemma ConstexprParts(name: Name, ts: Tokens)
    requires !TwoAt(ts, 0, WThread, WLocal) && !WordAt(ts, 0, WConstexpr)
    ensures AfterTraits(name, NO_TRAITS, Front([WAs, WConstexpr], ts)) ==
            match AfterTraits(name, NO_TRAITS, Front([WAs], ts))
            case Some(Got(Declare(x, t, thread, _, type_, start), rest)) =>
              Some(Got(Declare(x, t, thread, true, type_, start), rest))
            case _ => None
  {
    hide ParseSpec, ParseStart;
    assert Front([WAs], ts)[1..] == ts && Front([WAs, WConstexpr], ts)[1..][1..] == ts;
  }

  // ----- procedures -----

  /** What stands behind the header. */
  function AfterHeader(name: Name, h: Header, ts: Tokens): Option<Got<Sentence>> {
    var returns_ :- ParseReturns(ts);
    if h.typed && returns_.value.None? then None
    else if h.untyped && returns_.value.Some? then None
    else
      var marks :- ParseMarks(NO_MARKS, returns_.rest);
      var body :- ParseBlock(WProcedure, WProcedure, marks.rest);
      Some(Got(Procedure(name, h, returns_.value, marks.value, body.value), body.rest))
  }

  lemma ProcedureIs(top: bool, name: Name, ts: Tokens)
    ensures ParseSentence(top, Front([WProcedure], Front([name], ts))) ==
            match ParseHeader(ts)
            case Some(Got(h, rest)) => AfterHeader(name, h, rest)
            case None => None
  {
    hide ParseSentence, ParseHeader, ParseReturns, ParseMarks, ParseBlock, PlainVerb, Idents, Front;
    ProcedureVerbIs();
    OneWordVerb(top, WProcedure, Front([name], ts));
    NameOff(name, ts);
  }

  lemma SameBody(name: Name, h: Header, ts: Tokens)
    ensures AfterHeader(name, h.(variadic := true), ts) ==
            match AfterHeader(name, h, ts)
            case Some(Got(Procedure(x, g, returns_, marks, body), rest)) =>
              Some(Got(Procedure(x, g.(variadic := true), returns_, marks, body), rest))
            case _ => None
  {
    hide ParseReturns, ParseMarks, ParseBlock;
  }

  /** Variable arguments alone, which the printer does not put "takes" in front of. */
  lemma VariadicAloneReads(top: bool, name: Name, ts: Tokens)
    requires (ts != [] && ts[0] == Colon) || WordAt(ts, 0, WReturns)
    ensures ParseSentence(top, Front([WProcedure], Front([name], Front([WTakes, WAnd, WVariadic, WParameters], ts)))) ==
            match ParseSentence(top, Front([WProcedure], Front([name], ts)))
            case Some(Got(Procedure(x, h, returns_, marks, body), rest)) =>
              Some(Got(Procedure(x, h.(variadic := true), returns_, marks, body), rest))
            case _ => None
  {
    hide ParseSentence, AfterHeader;
    var takes := Front([WTakes, WAnd, WVariadic, WParameters], ts);
    ProcedureIs(top, name, ts);
    ProcedureIs(top, name, takes);
    HeadersAlone(ts);
    hide ParseHeader, Front;
    SameBody(name, NO_HEADER, ts);
  }

  lemma HeadersAlone(ts: Tokens)
    requires (ts != [] && ts[0] == Colon) || WordAt(ts, 0, WReturns)
    ensures ParseHeader(ts) == Some(Got(NO_HEADER, ts))
    ensures ParseHeader(Front([WTakes, WAnd, WVariadic, WParameters], ts)) == Some(Got(NO_HEADER.(variadic := true), ts))
  {
    hide ParseParam;
    var takes := Front([WTakes, WAnd, WVariadic, WParameters], ts);
    assert takes[1..] == Front([WAnd, WVariadic, WParameters], ts);
  }

  lemma ProcedureVerbIs()
    ensures PlainVerb(WProcedure) == Some(ProcedureVerb)
  {
    hide ChangingVerb, ActingVerb;
    ChangingWords(WProcedure);
    ActingWords(WProcedure);
  }

  // ----- forms that one primary completes -----

  /** "Square root of", "real part of" and their like name a function of the primary behind them. */
  lemma PartReads(words: seq<Word>, func: Name, ts: Tokens)
    requires || (words == [WSquare, WRoot, WOf] && func == WMath("sqrt"))
             || (words == [WReal, WPart, WOf] && func == WReal)
             || (words == [WImaginary, WPart, WOf] && func == WImaginary)
             || (words == [WAbsolute, WValue, WOf] && func == WMath("abs"))
             || (words == [WAtomic, WLoad, WOf] && func == ATOMIC_LOAD)
    ensures ParsePrimary(Front(words, ts)) ==
            match ParsePrimary(ts)
            case Some(Got(e, rest)) => Some(Got(Prefixed(Math(func), e), rest))
            case None => None
  {
    hide ParsePrimary, Idents, Front;
    var all := Front(words, ts);
    assert all[0] == Ident(words[0]) && all[1] == Ident(words[1]) && all[2] == Ident(words[2]);
    assert PrefixAt(all) == Some(Sized(Math(func), 3));
    PrimaryIs(all);
  }

  lemma PrimaryIs(ts: Tokens)
    ensures ParsePrimary(ts) ==
            match PrefixAt(ts)
            case Some(s) => (match ParsePrimary(ts[s.width..])
                             case Some(Got(e, rest)) => Some(Got(Prefixed(s.it, e), rest))
                             case None => None)
            case None =>
              match FormAt(ts)
              case Some(s) => ParseForm(s.it, ts[s.width..])
              case None => ParseAtom(ts)
  {
    hide PrefixAt, FormAt, ParseForm, ParseAtom;
  }

  /** A text that starts with the words of a form. */
  lemma FormIs(words: seq<Word>, form: Form, ts: Tokens)
    requires PrefixAt(Front(words, ts)) == None && FormAt(Front(words, ts)) == Some(Sized(form, |words|))
    ensures ParsePrimary(Front(words, ts)) == ParseForm(form, ts)
  {
    hide PrefixAt, FormAt, ParseForm, Idents;
    PrimaryIs(Front(words, ts));
  }

  // ----- forms with parts of their own -----

  /** "Evaluate a then b". */
  lemma EvaluateReads(first: Expr, last: Expr, ts: Tokens, us: Tokens, rest: Tokens)
    requires ParseExpr(ts) == Some(Got(first, Front([WThen], us))) && ParseExpr(us) == Some(Got(last, rest))
    ensures ParsePrimary(Front([WEvaluate], ts)) == Some(Got(Binary(Comma, first, last), rest))
  {
    hide ParseExpr, ParsePrimary;
    FormIs([WEvaluate], EvaluateForm, ts);
    assert ParseUpTo(WThen, ts) == Some(Got(first, us));
    assert ParseForm(EvaluateForm, ts) == ParseEvaluate(ts);
  }

  /** "Maximum value of type t" and "minimum value of type t". */
  lemma LimitReads(maximum: bool, target: Spec, ts: Tokens, rest: Tokens)
    requires ParseSpec(ts) == Some(Got(target, rest))
    ensures ParsePrimary(Front([if maximum then WMaximum else WMinimum, WValue, WOf, WType], ts)) ==
            Some(Got(LimitOfType(target, maximum), rest))
  {
    hide ParseSpec, ParsePrimary;
    FormIs([if maximum then WMaximum else WMinimum, WValue, WOf, WType], LimitForm(maximum), ts);
  }

  /** "Offset of member m in type t". */
  lemma OffsetReads(member: Name, target: Spec, ts: Tokens, rest: Tokens)
    requires ParseSpec(ts) == Some(Got(target, rest))
    ensures ParsePrimary(Front([WOffset, WOf, WMember], Front([member], Front([WIn, WType], ts)))) ==
            Some(Got(OffsetOf(member, target), rest))
  {
    hide ParseSpec, ParsePrimary;
    var in_ := Front([WIn, WType], ts);
    var name := Front([member], in_);
    FormIs([WOffset, WOf, WMember], OffsetForm, name);
    assert name[1..] == in_ && in_[1..][1..] == ts;
  }

  /** "Atomic exchange e with x". */
  lemma ExchangeReads(operand: Expr, name: Name, ts: Tokens, rest: Tokens)
    requires ParseExpr(ts) == Some(Got(operand, Front([WWith], Front([name], rest))))
    ensures ParsePrimary(Front([WAtomic, WExchange], ts)) == Some(Got(AtomicExchange(name, operand), rest))
  {
    hide ParseExpr, ParsePrimary;
    FormIs([WAtomic, WExchange], ExchangeForm, ts);
    NameOff(name, rest);
    assert ParseUpTo(WWith, ts) == Some(Got(operand, Front([name], rest)));
    assert ParseForm(ExchangeForm, ts) == ParseAtomic(None, WWith, ts);
  }

  /** "Atomic fetch add e to x", and for the other operations. */
  lemma FetchReads(operation: Word, operand: Expr, name: Name, ts: Tokens, rest: Tokens)
    requires operation in {WAdd, WSubtract, WAnd, WOr, WXor}
    requires ParseExpr(ts) == Some(Got(operand, Front([WTo], Front([name], rest))))
    ensures ParsePrimary(Front([WAtomic, WFetch, operation], ts)) == Some(Got(AtomicRmw(operation, name, operand), rest))
  {
    hide ParseExpr, ParsePrimary;
    FormIs([WAtomic, WFetch, operation], FetchForm(operation), ts);
    NameOff(name, rest);
    assert ParseUpTo(WTo, ts) == Some(Got(operand, Front([name], rest)));
    assert ParseForm(FetchForm(operation), ts) == ParseAtomic(Some(operation), WTo, ts);
  }

  /** "Call through p with ... done" and "call through p done". */
  lemma IndirectCallReads(callee: Expr, items: seq<Expr>, ts: Tokens, us: Tokens, rest: Tokens)
    requires ParsePrimary(ts) == Some(Got(callee, us))
    requires if WordAt(us, 0, WWith) then ParseArgs(us[1..]) == Some(Got(items, rest))
             else items == [] && us == Front([WDone], rest)
    ensures ParsePrimary(Front([WCall, WThrough], ts)) == Some(Got(IndirectCall(callee, items), rest))
  {
    hide ParsePrimary, ParseArgs;
    FormIs([WCall, WThrough], CallThroughForm, ts);
    assert ParseCallEnd(us) == Some(Got(items, rest));
    assert ParseForm(CallThroughForm, ts) == ParseCallThrough(ts);
  }

  // ----- atoms -----

  /** "Is lock free x". */
  lemma LockFreeReads(name: Name, rest: Tokens)
    ensures ParsePrimary(Front([WIs, WLock, WFree, name], rest)) == Some(Got(LockFree(name), rest))
  {
    hide ParsePrimary, PrefixAt, FormAt, ParseForm;
    var all := Front([WIs, WLock, WFree, name], rest);
    AtomStarts([WIs, WLock, WFree, name], rest);
    PrimaryIs(all);
  }

  lemma AtomStarts(words: seq<Word>, rest: Tokens)
    requires words != [] && words[0] in {WIs, WThe}
    ensures PrefixAt(Front(words, rest)) == None && FormAt(Front(words, rest)) == None
  {
    hide Idents, Front;
    assert Front(words, rest)[0] == Ident(words[0]);
  }

  /** "The character "c"" is its number, for exactly one character. */
  lemma CharacterReads(text: string, rest: Tokens)
    ensures ParsePrimary(Front([WThe, WCharacter], [Str(text)] + rest)) ==
            if |text| == 1 then Some(Got(IntLit(text[0] as int % 256), rest)) else None
  {
    hide ParsePrimary, PrefixAt, FormAt, ParseForm;
    var all := Front([WThe, WCharacter], [Str(text)] + rest);
    AtomStarts([WThe, WCharacter], [Str(text)] + rest);
    PrimaryIs(all);
    assert all[2] == Str(text) && all[3..] == rest;
  }

  // ----- other spellings -----

  const PRODUCT_LEVEL := 9

  /** "Modulo" is "mod", behind any operand. */
  lemma ModuloReads(lhs: Expr, ts: Tokens)
    ensures ParseOperators(PRODUCT_LEVEL, lhs, Front([WModulo], ts)) == ParseOperators(PRODUCT_LEVEL, lhs, Front([WMod], ts))
  {
    var modulo, mod := Front([WModulo], ts), Front([WMod], ts);
    assert OperatorAt(PRODUCT_LEVEL, modulo) == Some(Sized(Op(Mod), 1)) && OperatorAt(PRODUCT_LEVEL, mod) == Some(Sized(Op(Mod), 1));
    assert modulo[1..] == ts && mod[1..] == ts;
  }

  /** The list of a selection may end in "followed by". */
  lemma TrailingFollowedReads(target: Spec, result: Expr, ts: Tokens, us: Tokens, end: Tokens)
    requires ParseSpec(ts) == Some(Got(target, Front([WAs], us)))
    requires ParseExpr(us) == Some(Got(result, Front([WFollowed, WBy], end)))
    requires WordAt(end, 0, WDone) || WordAt(end, 0, WOtherwise)
    ensures ParseAssociations(ts) == Some(Got([Association(target, result)], end))
  {
    hide ParseSpec, ParseExpr;
    assert Front([WAs], us)[1..] == us;
    assert Front([WFollowed, WBy], end)[2..] == end;
  }

  // ----- function types -----

  lemma TakingStarts(ts: Tokens)
    ensures ParseSpec(Front([WFunction, WTaking], ts)) == ParseFunction(PLAIN, ts)
  {
    hide ParseFunction;
    var all := Front([WFunction, WTaking], ts);
    assert ParseQualifiers(PLAIN, all) == Got(PLAIN, all);
  }

  lemma ReturningStarts(ts: Tokens)
    ensures ParseSpec(Front([WFunction, WReturning], ts)) == ParseResult(PLAIN, [], false, ts)
  {
    hide ParseResult;
    var all := Front([WFunction, WReturning], ts);
    assert ParseQualifiers(PLAIN, all) == Got(PLAIN, all);
  }

  /** "Function returning r" takes no parameters. */
  lemma FunctionReturningReads(result: Spec, ts: Tokens, rest: Tokens)
    requires ParseSpec(ts) == Some(Got(result, rest))
    ensures ParseSpec(Front([WFunction, WReturning], ts)) == Some(Got(FunctionOf(PLAIN, [], false, result), rest))
  {
    hide ParseSpec;
    ReturningStarts(ts);
  }

  /** "Function taking t and variadic parameters returning r", and without variable ones. */
  lemma FunctionTakingReads(param: Spec, variadic: bool, result: Spec, ts: Tokens, us: Tokens, rest: Tokens)
    requires !WordAt(ts, 0, WNo)
    requires ParseSpec(ts) == Some(Got(param, Front(if variadic then [WAnd, WVariadic, WParameters, WReturning] else [WReturning], us)))
    requires ParseSpec(us) == Some(Got(result, rest))
    ensures ParseSpec(Front([WFunction, WTaking], ts)) == Some(Got(FunctionOf(PLAIN, [param], variadic, result), rest))
  {
    var end := Front(if variadic then [WAnd, WVariadic, WParameters, WReturning] else [WReturning], us);
    EndIsVariadic(variadic, us);
    ResultReads([param], variadic, result, us, rest);
    hide ParseSpec, ParseFunction, ParseParams, ResultOf, Front, Idents, VariadicAt;
    TakingStarts(ts);
    LastParam(param, ts, end);
    ManyParams(ts);
  }

  lemma LastParam(param: Spec, ts: Tokens, end: Tokens)
    requires ParseSpec(ts) == Some(Got(param, end)) && (WordAt(end, 0, WAnd) ==> VariadicAt(end))
    ensures ParseParams(ts) == Some(Got([param], end))
  {
    hide ParseSpec;
  }

  /** A further parameter goes in front of those behind it. */
  lemma FunctionTakingMore(param: Spec, ts: Tokens, us: Tokens)
    requires !WordAt(ts, 0, WNo) && !WordAt(us, 0, WNo) && !(WordAt(us, 0, WVariadic) && WordAt(us, 1, WParameters))
    requires ParseSpec(ts) == Some(Got(param, Front([WAnd], us)))
    ensures ParseSpec(Front([WFunction, WTaking], ts)) ==
            match ParseSpec(Front([WFunction, WTaking], us))
            case Some(Got(FunctionOf(q, params, variadic, result), rest)) =>
              Some(Got(FunctionOf(q, [param] + params, variadic, result), rest))
            case _ => None
  {
    AndIsNotVariadic(us);
    hide ParseSpec, ParseFunction, ParseParams, ResultOf, Front, Idents, VariadicAt;
    TakingStarts(ts);
    TakingStarts(us);
    OneMore(param, ts, us);
    ManyParams(ts);
    ManyParams(us);
    if ParseParams(us).Some? { ResultPrepends(param, ParseParams(us).value.value, ParseParams(us).value.rest); }
  }

  lemma AndIsNotVariadic(us: Tokens)
    requires !(WordAt(us, 0, WVariadic) && WordAt(us, 1, WParameters))
    ensures !VariadicAt(Front([WAnd], us))
  {
    assert Front([WAnd], us)[1..] == us;
    assert |us| > 1 ==> Front([WAnd], us)[1] == us[0] && Front([WAnd], us)[2] == us[1];
  }

  lemma OneMore(param: Spec, ts: Tokens, us: Tokens)
    requires ParseSpec(ts) == Some(Got(param, Front([WAnd], us))) && !VariadicAt(Front([WAnd], us))
    ensures ParseParams(ts) == match ParseParams(us)
                               case Some(Got(others, rest)) => Some(Got([param] + others, rest))
                               case None => None
  {
    hide ParseSpec;
    assert Front([WAnd], us)[1..] == us;
  }

  /** The result type, whatever the parameters in front of it. */
  function ResultOf(params: seq<Spec>, ts: Tokens): Option<Got<Spec>> {
    var last := VariadicAt(ts);
    var returning :- ExpectWord(WReturning, if last then ts[3..] else ts);
    var result :- ParseSpec(returning);
    Some(Got(FunctionOf(PLAIN, params, last, result.value), result.rest))
  }

  lemma ResultReads(params: seq<Spec>, variadic: bool, result: Spec, us: Tokens, rest: Tokens)
    requires ParseSpec(us) == Some(Got(result, rest))
    ensures ResultOf(params, Front(if variadic then [WAnd, WVariadic, WParameters, WReturning] else [WReturning], us)) ==
            Some(Got(FunctionOf(PLAIN, params, variadic, result), rest))
  {
    hide ParseSpec;
    var end := Front(if variadic then [WAnd, WVariadic, WParameters, WReturning] else [WReturning], us);
    EndIsVariadic(variadic, us);
    assert (if variadic then end[3..] else end) == Front([WReturning], us);
  }

  lemma EndIsVariadic(variadic: bool, us: Tokens)
    ensures var end := Front(if variadic then [WAnd, WVariadic, WParameters, WReturning] else [WReturning], us);
            VariadicAt(end) == variadic && WordAt(end, 0, WAnd) == variadic
  {
  }

  lemma ResultPrepends(param: Spec, params: seq<Spec>, ts: Tokens)
    ensures ResultOf([param] + params, ts) ==
            match ResultOf(params, ts)
            case Some(Got(FunctionOf(q, others, variadic, result), rest)) =>
              Some(Got(FunctionOf(q, [param] + others, variadic, result), rest))
            case _ => None
  {
    hide ParseSpec, VariadicAt;
  }

  lemma ManyParams(ts: Tokens)
    requires !WordAt(ts, 0, WNo)
    ensures ParseFunction(PLAIN, ts) == match ParseParams(ts)
                                        case Some(Got(params, rest)) => ResultOf(params, rest)
                                        case None => None
  {
    hide ParseSpec, ParseParams;
  }

  // ----- what is rejected -----

  /** A Switch needs a clause. */
  lemma EmptySwitchRejected(top: bool, subject: Expr, ts: Tokens, us: Tokens)
    requires ParseExpr(ts) == Some(Got(subject, [Colon] + Front([WEnd, WSwitch], us)))
    ensures ParseSentence(top, Front([WSwitch], ts)) == None
  {
    hide ParseSentence, ParseExpr, PlainVerb;
    SwitchVerbIs();
    OneWordVerb(top, WSwitch, ts);
    NoClauses(subject, ts, us);
  }

  lemma SwitchVerbIs()
    ensures PlainVerb(WSwitch) == Some(SwitchVerb)
  {
    hide ChangingVerb, ActingVerb;
    ChangingWords(WSwitch);
    ActingWords(WSwitch);
  }

  lemma NoClauses(subject: Expr, ts: Tokens, us: Tokens)
    requires ParseExpr(ts) == Some(Got(subject, [Colon] + Front([WEnd, WSwitch], us)))
    ensures ParseVerb(SwitchVerb, ts) == None
  {
    hide ParseExpr, ParseClause;
    var end := Front([WEnd, WSwitch], us);
    assert ([Colon] + end)[1..] == end;
    assert ParseClauses([], end) == Some(Got([], us));
  }

  /** Lists and aggregate blocks need an entry. */
  lemma EmptyListsRejected(kind: Word, ts: Tokens)
    requires kind in {WValues, WMembers, WElements}
    ensures ParsePrimary(Front([WList, WWith, WDone], ts)) == None
    ensures ParseAggregate(Front([kind, WDone], ts)) == None
  {
    hide ParsePrimary, ParseItems, ParseEntries;
    var done := Front([WDone], ts);
    assert Front([WList, WWith, WDone], ts) == Front([WList, WWith], done);
    FormIs([WList, WWith], ListForm, done);
    assert ParseForm(ListForm, done) == ParseList(done);
  }

  /** An array needs a length above zero. */
  lemma ZeroLengthRejected(element: Spec, ts: Tokens, us: Tokens)
    requires ParseSpec(ts) == Some(Got(element, Front([WWith, WLength], [Num(0)] + us)))
    ensures ParseSpec(Front([WArray, WOf], ts)) == None
  {
    hide ParseSpec, ParseExpr;
    var end := Front([WWith, WLength], [Num(0)] + us);
    assert end[1..][1..] == [Num(0)] + us;
    BodyIs(Front([WArray, WOf], ts));
    assert Front([WArray, WOf], ts)[2..] == ts;
    assert ParseBody(PLAIN, Front([WArray, WOf], ts)) == ParseArray(PLAIN, ts);
  }

  lemma BodyIs(ts: Tokens)
    requires forall w :: w in {WConstant, WVolatile, WRestricted, WAtomic} ==> !WordAt(ts, 0, w)
    ensures ParseSpec(ts) == ParseBody(PLAIN, ts)
  {
    hide ParseBody;
    assert ParseQualifiers(PLAIN, ts) == Got(PLAIN, ts);
  }

  predicate SizedWords(words: seq<Word>) {
    words in {[WInteger, WWith, WExactly], [WLeast, WInteger, WWith, WAt, WLeast], [WFast, WInteger, WWith, WAt, WLeast],
              [WBit, WInteger, WWith, WWidth]}
  }

  /** Sized integer types, signed or not, need bits. */
  lemma ZeroBitsRejected(isUnsigned: bool, words: seq<Word>, end: Tokens)
    requires SizedWords(words)
    requires end != [] && end[0] == Num(0) && (words[0] != WBit ==> WordAt(end, 1, WBits))
    ensures ParseSpec(Front(if isUnsigned then [WUnsigned] + words else words, end)) == None
  {
    hide Idents, ParseSpec, ParseLeaf;
    var spelled := if isUnsigned then [WUnsigned] + words else words;
    var all := Front(spelled, end);
    assert all[0] == Ident(spelled[0]);
    BodyIs(all);
    assert ParseBody(PLAIN, all) == ParseLeaf(PLAIN, all);
    if isUnsigned { ZeroUnsigned(words, end); } else { ZeroSigned(words, end); }
  }

  /** Where the number of bits is looked for, behind k words. */
  lemma SizeIsAt(words: seq<Word>, k: nat, ts: Tokens)
    requires SizedWords(words) && k + |words| < |ts| && ts[k + |words|] == Num(0)
    requires forall i :: 0 <= i < |words| ==> ts[k + i] == Ident(words[i])
    requires words[0] != WBit ==> WordAt(ts, k + |words| + 1, WBits)
    ensures words[0] == WInteger ==> ExactlyAt(ts, k + 1)
    ensures words[0] in {WLeast, WFast} ==> AtLeastAt(ts, k + 1)
    ensures words[0] == WBit ==> BitAt(ts, k) && NumAt(ts, k + 4)
    ensures words[0] != WBit ==> !BitAt(ts, k)
  {
    assert ts[k + 0] == Ident(words[0]) && ts[k + 1] == Ident(words[1]) && ts[k + 2] == Ident(words[2]);
    assert |words| > 3 ==> ts[k + 3] == Ident(words[3]);
    assert |words| > 4 ==> ts[k + 4] == Ident(words[4]);
  }

  lemma ZeroSigned(words: seq<Word>, end: Tokens)
    requires SizedWords(words)
    requires end != [] && end[0] == Num(0) && (words[0] != WBit ==> WordAt(end, 1, WBits))
    ensures ParseLeaf(PLAIN, Front(words, end)) == None
  {
    var all := Front(words, end);
    assert all[|words|] == end[0] && (|end| > 1 ==> all[|words| + 1] == end[1]);
    SizeIsAt(words, 0, all);
    hide Idents, Front, ExactlyAt, AtLeastAt, BitAt, PlainAt, ParseUnsigned;
  }

  lemma UnsignedLeaf(words: seq<Word>, end: Tokens)
    requires words != [] && words[0] == WUnsigned
    ensures var all := Front(words, end); WordAt(all, 0, WUnsigned) && ParseLeaf(PLAIN, all) == ParseUnsigned(PLAIN, all)
  {
    hide ParseUnsigned, Idents;
    assert Front(words, end)[0] == Ident(WUnsigned);
  }

  lemma ZeroUnsigned(words: seq<Word>, end: Tokens)
    requires SizedWords(words)
    requires end != [] && end[0] == Num(0) && (words[0] != WBit ==> WordAt(end, 1, WBits))
    ensures ParseLeaf(PLAIN, Front([WUnsigned] + words, end)) == None
  {
    var all := Front([WUnsigned] + words, end);
    assert all[|words| + 1] == end[0] && (|end| > 1 ==> all[|words| + 2] == end[1]);
    assert forall i :: 0 <= i < |words| ==> all[1 + i] == Ident(words[i]);
    SizeIsAt(words, 1, all);
    hide Idents, Front, ExactlyAt, AtLeastAt, BitAt, ParseLeaf, ParseUnsigned, SizedWords;
    UnsignedLeaf([WUnsigned] + words, end);
    assert all[1] == Ident(words[0]);
    UnsignedZero(words, all);
  }

  lemma UnsignedZero(words: seq<Word>, all: Tokens)
    requires SizedWords(words) && WordAt(all, 0, WUnsigned) && WordAt(all, 1, words[0])
    requires |words| + 2 <= |all| && all[|words| + 1] == Num(0)
    requires words[0] == WInteger ==> ExactlyAt(all, 2)
    requires words[0] in {WLeast, WFast} ==> AtLeastAt(all, 2)
    requires words[0] == WBit ==> BitAt(all, 1)
    ensures ParseUnsigned(PLAIN, all) == None
  {
    hide ExactlyAt, AtLeastAt, BitAt;
    assert |words| == (if words[0] == WInteger then 3 else if words[0] == WBit then 4 else 5);
  }

  /** "Member" is no variable. */
  lemma MemberAloneRejected(name: Name, ts: Tokens)
    requires !WordAt(ts, 0, WOf)
    ensures ParsePrimary(Front([WMember, name], ts)) == None
  {
    hide ParsePrimary, ParseForm;
    var all := Front([WMember, name], ts);
    assert ts != [] ==> all[2] == ts[0];
    PrimaryIs(all);
    assert PrefixAt(all) == None && FormAt(all) == None;
  }

  /** A procedure types all of its parameters and its result, or nothing. */
  lemma MixedTypesRejected(top: bool, name: Name, p: string, q: string, ts: Tokens)
    ensures ParseSentence(top, Front([WProcedure], Front([name], Front([WTakes, Named(p), Named(q), WAs], ts)))) == None
    ensures ParseSentence(top, Front([WProcedure], Front([name], Front([WTakes, Named(p), WReturns], ts)))) == None
  {
    hide ParseSentence, AfterHeader;
    ProcedureIs(top, name, Front([WTakes, Named(p), Named(q), WAs], ts));
    ProcedureIs(top, name, Front([WTakes, Named(p), WReturns], ts));
    MixedHeader(p, q, ts);
    UntypedHeader(p, ts);
    UntypedResult(name, Header([Param(Named(p), None)], false, true, false), ts);
  }

  lemma MixedHeader(p: string, q: string, ts: Tokens)
    ensures ParseHeader(Front([WTakes, Named(p), Named(q), WAs], ts)) == None
  {
    hide ParseSpec, Idents;
    var as_ := Front([WAs], ts);
    var second := Front([Named(q)], as_);
    var first := Front([Named(p)], second);
    assert Front([WTakes, Named(p), Named(q), WAs], ts)[1..] == first;
    assert ParseParam(first) == Some(Got(Param(Named(p), None), second));
    var after := Header([Param(Named(p), None)], false, true, false);
    assert NO_HEADER.params + [Param(Named(p), None)] == after.params;
    assert ParseProcedureParams(NO_HEADER, first) == ParseProcedureParams(after, second);
    assert ParseProcedureParams(after, second) == None;
  }

  lemma UntypedHeader(p: string, ts: Tokens)
    ensures ParseHeader(Front([WTakes, Named(p), WReturns], ts)) ==
            Some(Got(Header([Param(Named(p), None)], false, true, false), Front([WReturns], ts)))
  {
    hide ParseSpec, Idents;
    var end := Front([WReturns], ts);
    var first := Front([Named(p)], end);
    assert Front([WTakes, Named(p), WReturns], ts)[1..] == first;
    assert ParseParam(first) == Some(Got(Param(Named(p), None), end));
    var after := Header([Param(Named(p), None)], false, true, false);
    assert NO_HEADER.params + [Param(Named(p), None)] == after.params;
    assert ParseProcedureParams(NO_HEADER, first) == ParseProcedureParams(after, end);
    assert ParseProcedureParams(after, end) == Some(Got(after, end));
  }

  lemma UntypedResult(name: Name, h: Header, ts: Tokens)
    requires h.untyped
    ensures AfterHeader(name, h, Front([WReturns], ts)) == None
  {
    hide ParseSpec, ParseMarks, ParseBlock, Idents;
  }

  /** A typed parameter asks for a result type. */
  lemma TypedNeedsResult(top: bool, name: Name, p: string, type_: Spec, ts: Tokens, us: Tokens)
    requires ParseSpec(ts) == Some(Got(type_, [Colon] + us))
    ensures ParseSentence(top, Front([WProcedure], Front([name], Front([WTakes, Named(p), WAs], ts)))) == None
  {
    hide ParseSentence, ParseSpec, ParseMarks, ParseBlock, Idents, PlainVerb;
    var as_ := Front([WAs], ts);
    var first := Front([Named(p)], as_);
    ProcedureIs(top, name, Front([WTakes, Named(p), WAs], ts));
    assert Front([WTakes, Named(p), WAs], ts)[1..] == first;
    assert as_[1..] == ts && first[1..] == as_;
    assert ParseParam(first) == Some(Got(Param(Named(p), Some(type_)), [Colon] + us));
    var after := Header([Param(Named(p), Some(type_))], true, false, false);
    assert NO_HEADER.params + [Param(Named(p), Some(type_))] == after.params;
    assert ParseProcedureParams(NO_HEADER, first) == ParseProcedureParams(after, [Colon] + us);
    assert ParseProcedureParams(after, [Colon] + us) == Some(Got(after, [Colon] + us));
  }
}
