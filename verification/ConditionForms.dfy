/** What printed conditions and blocks are read as under Unless and Until, and how they may end. */
module ConditionForms {
  import opened Options
  import opened Primitives
  import opened Types
  import opened Syntax
  import opened Grammar
  import opened Printer
  import opened ExpressionRoundTrip
  import opened Sentences
  import opened SentencePrinter
  import opened SentenceRoundTrip
  import opened SpokenForms

  /** What a printed condition and printed blocks are read as under either verb, closed by
      either word. */
  lemma UnlessReads(top: bool, verb: Word, what: Word, condition: Expr, yes: seq<Sentence>, no: seq<Sentence>, rest: Tokens)
    requires verb in {WIf, WUnless} && what in {WIf, WUnless}
    requires Printable(condition) && PrintableBody(yes) && PrintableBody(no)
    ensures var end := Front([WEnd, what], [Dot] + rest);
            var text := PrintTo(condition, Front([WThen], [Colon] + SentencesTo(yes, ElseTo(no, end))));
            var read := if verb == WUnless then Unary(Not, Regrouped(condition)) else Regrouped(condition);
            ParseSentence(top, Front([verb], text)) == Some(Got(If(read, RegroupedBody(yes), RegroupedBody(no)), rest))
  {
    var end := Front([WEnd, what], [Dot] + rest);
    var text := PrintTo(condition, Front([WThen], [Colon] + SentencesTo(yes, ElseTo(no, end))));
    hide *;
    IfVerbIs(top, text);
    IfClosedBy(what, condition, yes, no, rest);
    if verb == WUnless { UnlessNegates(top, text); }
  }

  lemma IfVerbIs(top: bool, ts: Tokens)
    ensures ParseSentence(top, Front([WIf], ts)) == ParseVerb(IfVerb(false), ts)
    ensures ParseSentence(top, Front([WWhile], ts)) == ParseVerb(WhileVerb(false), ts)
  {
    hide PlainVerb, ParseVerb, ParseSentence, Front;
    ConditionVerbs();
    OneWordVerb(top, WIf, ts);
    OneWordVerb(top, WWhile, ts);
  }

  lemma IfClosedBy(what: Word, condition: Expr, yes: seq<Sentence>, no: seq<Sentence>, rest: Tokens)
    requires what in {WIf, WUnless}
    requires Printable(condition) && PrintableBody(yes) && PrintableBody(no)
    ensures var end := Front([WEnd, what], [Dot] + rest);
            var text := PrintTo(condition, Front([WThen], [Colon] + SentencesTo(yes, ElseTo(no, end))));
            ParseVerb(IfVerb(false), text) ==
            Some(Got(If(Regrouped(condition), RegroupedBody(yes), RegroupedBody(no)), rest))
  {
    hide ParseSentences, ParseBlock, ParseUpTo, PrintTo, SentencesTo, ElseTo, Regrouped, Printable, PrintableBody, Front, Idents, StopsAt;
    var end := Front([WEnd, what], [Dot] + rest);
    var tail := ElseTo(no, end);
    EndAt(what, [Dot] + rest);
    ElseStopsAt(what, no, end);
    SeparatorsAreStill(WThen, [Colon] + SentencesTo(yes, tail));
    ReadsUpTo(condition, WThen, [Colon] + SentencesTo(yes, tail));
    ColonOff(SentencesTo(yes, tail));
    SentencesRead(ElseOrEnd, [], yes, tail);
    assert [] + RegroupedBody(yes) == RegroupedBody(yes);
    DotOff(rest);
    if no != [] { ClosedByEither(WIf, WUnless, what, no, rest); }
  }

  lemma ElseStopsAt(what: Word, no: seq<Sentence>, end: Tokens)
    requires what in {WIf, WUnless} && TwoAt(end, 0, WEnd, what)
    ensures StopsAt(ElseOrEnd, ElseTo(no, end)) && WordAt(ElseTo(no, end), 0, WElse) == (no != [])
    ensures if no != [] then ElseTo(no, end)[1..] == [Colon] + SentencesTo(no, end) else ElseTo(no, end) == end
  {
    hide SentencesTo;
  }

  lemma ClosedByEither(one: Word, other: Word, what: Word, body: seq<Sentence>, rest: Tokens)
    requires what in {one, other} && PrintableBody(body)
    ensures ParseBlock(one, other, ClosedBlockTo(body, what, rest)) == Some(Got(RegroupedBody(body), rest))
  {
    hide ParseSentences, SentencesTo, PrintableSentence, Front, Idents;
    var end := Front([WEnd, what], [Dot] + rest);
    EndAt(what, [Dot] + rest);
    SentencesRead(EndOfEither(one, other), [], body, end);
    ColonOff(SentencesTo(body, end));
    assert [] + RegroupedBody(body) == RegroupedBody(body);
    DotOff(rest);
  }

  lemma UntilReads(top: bool, verb: Word, what: Word, condition: Expr, body: seq<Sentence>, rest: Tokens)
    requires verb in {WWhile, WUntil} && what in {WWhile, WUntil}
    requires Printable(condition) && PrintableBody(body)
    ensures var text := PrintTo(condition, [Colon] + SentencesTo(body, Front([WEnd, what], [Dot] + rest)));
            var read := if verb == WUntil then Unary(Not, Regrouped(condition)) else Regrouped(condition);
            ParseSentence(top, Front([verb], text)) == Some(Got(While(read, RegroupedBody(body)), rest))
  {
    hide *;
    var text := PrintTo(condition, [Colon] + SentencesTo(body, Front([WEnd, what], [Dot] + rest)));
    IfVerbIs(top, text);
    WhileClosedBy(what, condition, body, rest);
    if verb == WUntil { UntilNegates(top, text); }
  }

  lemma WhileClosedBy(what: Word, condition: Expr, body: seq<Sentence>, rest: Tokens)
    requires what in {WWhile, WUntil} && Printable(condition) && PrintableBody(body)
    ensures ParseVerb(WhileVerb(false), PrintTo(condition, [Colon] + SentencesTo(body, Front([WEnd, what], [Dot] + rest)))) ==
            Some(Got(While(Regrouped(condition), RegroupedBody(body)), rest))
  {
    hide ParseBlock, ParseExpr, PrintTo, SentencesTo, Regrouped, Printable, PrintableBody;
    ClosedByEither(WWhile, WUntil, what, body, rest);
    ExprColon(condition, SentencesTo(body, Front([WEnd, what], [Dot] + rest)));
  }
}
