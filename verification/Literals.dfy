/** String literals as the tokenizer reads them and the emitter writes them, and the search for
    a pair of parentheses around a whole C expression, which must skip them. */
module Literals {
  import opened Options

  datatype Scan = Scan(value: string, rest: string)

  // ----- writing -----

  function EscapedChar(c: char): string {
    if c == '\n' then ['\\', 'n'] else if c == '"' || c == '\\' then ['\\', c] else [c]
  }

  function Escaped(v: string): string {
    if v == "" then "" else EscapedChar(v[0]) + Escaped(v[1..])
  }

  function Quoted(v: string): string {
    ['"'] + Escaped(v) + ['"']
  }

  method EmitString(v: string) returns (text: string)
    ensures text == Quoted(v)
  {
    var escaped, k := "", 0;
    EscapeStart(v);
    while k < |v|
      invariant 0 <= k <= |v|
      invariant escaped + Escaped(v[k..]) == Escaped(v)
    {
      EscapeStep(escaped, v, k);
      var more := EmitChar(v[k]);
      escaped := escaped + more;
      k := k + 1;
    }
    EscapeEnd(escaped, v[k..]);
    return ['"'] + escaped + ['"'];
  }

  method EmitChar(c: char) returns (more: string)
    ensures more == EscapedChar(c)
  {
    more := "";
    if c == '"' || c == '\\' { more := more + ['\\']; }
    if c == '\n' { return more + ['\\', 'n']; }
    more := more + [c];
  }

  lemma EscapeStart(v: string)
    ensures "" + Escaped(v[0..]) == Escaped(v)
  {
    assert v[0..] == v;
  }

  lemma EscapeEnd(escaped: string, none: string)
    requires none == ""
    ensures escaped + Escaped(none) == escaped
  {
  }

  lemma EscapeStep(escaped: string, v: string, k: nat)
    requires k < |v|
    ensures escaped + Escaped(v[k..]) == (escaped + EscapedChar(v[k])) + Escaped(v[k + 1..])
  {
    assert v[k..][1..] == v[k + 1..];
  }

  // ----- reading -----

  /** What stands before the closing quote, escapes undone; None when there is none. */
  function Scanned(s: string): (r: Option<Scan>)
    ensures r.Some? ==> |r.value.value| + |r.value.rest| < |s|
  {
    if s == "" then None
    else if s[0] == '"' then Some(Scan("", s[1..]))
    else if s[0] == '\\' && |s| > 1 then Prepended(if s[1] == 'n' then '\n' else s[1], Scanned(s[2..]))
    else Prepended(s[0], Scanned(s[1..]))
  }

  function Prepended(c: char, r: Option<Scan>): Option<Scan> {
    match r
    case None => None
    case Some(scan) => Some(Scan([c] + scan.value, scan.rest))
  }

  function Newlines(s: string): nat {
    if s == "" then 0 else (if s[0] == '\n' then 1 else 0) + Newlines(s[1..])
  }

  /** Every line break counts once. */
  lemma {:induction false} NewlinesCount(s: string)
    ensures Newlines(s) == multiset(s)['\n']
  {
    if s != "" {
      NewlinesCount(s[1..]);
      assert s == [s[0]] + s[1..];
    }
  }

  class Tokenizer {
    const src: string
    var pos: nat
    var line: nat

    constructor (source: string)
      ensures src == source && pos == 0 && line == 1
    {
      src := source;
      pos := 0;
      line := 1;
    }

    method AdvanceChar() returns (c: char)
      requires pos < |src|
      modifies this
      ensures c == src[old(pos)] && pos == old(pos) + 1
      ensures line + Newlines(src[pos..]) == old(line) + Newlines(src[old(pos)..])
    {
      c := src[pos];
      assert src[pos..][1..] == src[pos + 1..];
      pos := pos + 1;
      if c == '\n' { line := line + 1; }
    }

    /** One character of a literal, an escape being one. */
    method ReadChar() returns (ch: char)
      requires pos < |src| && src[pos] != '"'
      modifies this
      ensures old(pos) < pos <= |src|
      ensures line + Newlines(src[pos..]) == old(line) + Newlines(src[old(pos)..])
      ensures Scanned(src[old(pos)..]) == Prepended(ch, Scanned(src[pos..]))
    {
      ghost var here := src[pos..];
      assert here[1..] == src[pos + 1..] && (|here| > 1 ==> here[2..] == src[pos + 2..]);
      ch := AdvanceChar();
      if ch == '\\' && pos < |src| {
        ch := AdvanceChar();
        if ch == 'n' { ch := '\n'; }
      }
    }

    /** Reads a string literal at the opening quote; lines are counted along. */
    method ReadString() returns (value: Option<string>)
      requires pos < |src| && src[pos] == '"'
      modifies this
      ensures pos <= |src|
      ensures line + Newlines(src[pos..]) == old(line) + Newlines(src[old(pos)..])
      ensures match Scanned(src[old(pos) + 1..])
              case None => value == None && pos == |src|
              case Some(scan) => value == Some(scan.value) && src[pos..] == scan.rest
    {
      var _ := AdvanceChar();
      var text := "";
      Together(Scanned(src[pos..]));
      while pos < |src| && src[pos] != '"'
        invariant old(pos) + 1 <= pos <= |src|
        invariant line + Newlines(src[pos..]) == old(line) + Newlines(src[old(pos)..])
        invariant Scanned(src[old(pos) + 1..]) == WithPrefix(text, Scanned(src[pos..]))
        decreases |src| - pos
      {
        var ch := ReadChar();
        OneMore(text, ch, Scanned(src[pos..]));
        text := text + [ch];
      }
      if pos == |src| { return None; }
      assert text + "" == text;
      assert src[pos..][1..] == src[pos + 1..];
      var _ := AdvanceChar();
      return Some(text);
    }
  }

  ghost function WithPrefix(text: string, r: Option<Scan>): Option<Scan> {
    match r
    case None => None
    case Some(scan) => Some(Scan(text + scan.value, scan.rest))
  }

  lemma Together(r: Option<Scan>)
    ensures WithPrefix("", r) == r
  {
    if r.Some? {
      assert "" + r.value.value == r.value.value;
    }
  }

  lemma OneMore(text: string, c: char, r: Option<Scan>)
    ensures WithPrefix(text + [c], r) == WithPrefix(text, Prepended(c, r))
  {
    if r.Some? {
      assert (text + [c]) + r.value.value == text + ([c] + r.value.value);
    }
  }

  // ----- round trips -----

  lemma ScanStep(c: char, more: string)
    ensures Scanned(EscapedChar(c) + more) == Prepended(c, Scanned(more))
  {
    var head := EscapedChar(c);
    assert (head + more)[|head|..] == more;
  }

  lemma ScanEnd(rest: string)
    ensures Scanned(['"'] + rest) == Some(Scan("", rest))
  {
    assert (['"'] + rest)[1..] == rest;
  }

  lemma Split(v: string, tail: string)
    requires v != ""
    ensures Escaped(v) + tail == EscapedChar(v[0]) + (Escaped(v[1..]) + tail)
  {
  }

  /** Whatever the string, the emitted literal reads back as it. */
  lemma {:induction false} EmittedStringReadsBack(v: string, rest: string)
    ensures Scanned(Escaped(v) + (['"'] + rest)) == Some(Scan(v, rest))
  {
    var tail := ['"'] + rest;
    if v == "" {
      assert Escaped(v) + tail == tail;
      ScanEnd(rest);
    } else {
      EmittedStringReadsBack(v[1..], rest);
      Split(v, tail);
      ScanStep(v[0], Escaped(v[1..]) + tail);
      assert v == [v[0]] + v[1..];
    }
  }

  // ----- what C makes of an emitted literal: ISO/IEC 9899:1999 sections 6.4.4.4 and 6.4.5 -----

  /** The character that a backslash and this letter stand for; numeric escapes are not emitted. */
  function SimpleEscape(letter: char): Option<char> {
    if letter == 'n' then Some('\n') else if letter == 't' then Some('\t') else if letter == 'r' then Some('\r')
    else if letter == '0' then Some('\0')
    else if letter == '"' || letter == '\'' || letter == '?' || letter == '\\' then Some(letter)
    else None
  }

  /** The string from behind the opening quote on, and what follows the closing one.  A line may
      not end inside a literal; trigraphs are left out. */
  function CString(s: string): Option<Scan> {
    if s == "" || s[0] == '\n' then None
    else if s[0] == '"' then Some(Scan("", s[1..]))
    else if s[0] != '\\' then Prepended(s[0], CString(s[1..]))
    else if |s| == 1 || SimpleEscape(s[1]).None? then None
    else Prepended(SimpleEscape(s[1]).value, CString(s[2..]))
  }

  lemma CStep(c: char, more: string)
    ensures CString(EscapedChar(c) + more) == Prepended(c, CString(more))
  {
    var head := EscapedChar(c);
    assert (head + more)[|head|..] == more;
    assert |head| == 2 ==> (head + more)[0] == head[0] && (head + more)[1] == head[1];
  }

  /** The emitted literal is one C string literal, and stands for exactly the string. */
  lemma {:induction false} EmittedStringIsC(v: string, rest: string)
    ensures CString(Escaped(v) + (['"'] + rest)) == Some(Scan(v, rest))
  {
    var tail := ['"'] + rest;
    if v == "" {
      assert Escaped(v) + tail == tail && tail[1..] == rest;
    } else {
      EmittedStringIsC(v[1..], rest);
      Split(v, tail);
      CStep(v[0], Escaped(v[1..]) + tail);
      assert v == [v[0]] + v[1..];
    }
  }

  predicate Plain(v: string) {
    forall k :: 0 <= k < |v| ==> v[k] != '"' && v[k] != '\\'
  }

  /** A quote ends the string there, a backslash uses up a character more than it stands for. */
  lemma SpecialIsLost(v: string, rest: string)
    requires v != "" && (v[0] == '"' || v[0] == '\\')
    ensures Scanned(v + (['"'] + rest)) != Some(Scan(v, rest))
  {
    var s := v + (['"'] + rest);
    if v[0] == '\\' {
      var r := Scanned(s[2..]);
      assert r.Some? ==> 1 + |r.value.value| + |r.value.rest| < |v| + |rest|;
    }
  }

  lemma OrdinaryStep(c: char, v: string, more: string, rest: string)
    requires c != '"' && c != '\\'
    ensures Scanned([c] + more) == Some(Scan([c] + v, rest)) <==> Scanned(more) == Some(Scan(v, rest))
  {
    assert ([c] + more)[1..] == more;
    var r := Scanned(more);
    if r.Some? && [c] + r.value.value == [c] + v {
      assert ([c] + r.value.value)[1..] == ([c] + v)[1..];
    }
  }

  /** The source printer writes strings as they are: they read back exactly when they hold no
      quote and no backslash. */
  lemma {:induction false} PrintedStringReadsBackIff(v: string, rest: string)
    ensures Scanned(v + (['"'] + rest)) == Some(Scan(v, rest)) <==> Plain(v)
  {
    var tail := ['"'] + rest;
    if v == "" {
      assert v + tail == tail;
      ScanEnd(rest);
    } else if v[0] == '"' || v[0] == '\\' {
      SpecialIsLost(v, rest);
    } else {
      PrintedStringReadsBackIff(v[1..], rest);
      assert v + tail == [v[0]] + (v[1..] + tail);
      OrdinaryStep(v[0], v[1..], v[1..] + tail, rest);
      assert v == [v[0]] + v[1..];
      assert Plain(v) <==> Plain(v[1..]);
    }
  }

  /** The string that the text of v between quotes is read as, when it ends at its own closing
      quote. */
  function Alone(v: string): Option<string> {
    match Scanned(v + ['"'])
    case None => None
    case Some(scan) => if scan.rest == "" then Some(scan.value) else None
  }

  lemma {:induction false} ScanExtends(s: string, more: string)
    requires Scanned(s).Some?
    ensures Scanned(s + more) == Some(Scan(Scanned(s).value.value, Scanned(s).value.rest + more))
  {
    if s[0] == '"' {
      assert (s + more)[1..] == s[1..] + more;
    } else if s[0] == '\\' && |s| > 1 {
      assert (s + more)[2..] == s[2..] + more;
      ScanExtends(s[2..], more);
    } else {
      assert (s + more)[1..] == s[1..] + more;
      ScanExtends(s[1..], more);
    }
  }

  /** Then it does so whatever follows. */
  lemma AloneAnywhere(v: string, more: string)
    requires Alone(v).Some?
    ensures Scanned(v + (['"'] + more)) == Some(Scan(Alone(v).value, more))
  {
    hide Scanned;
    ScanExtends(v + ['"'], more);
    assert (v + ['"']) + more == v + (['"'] + more);
    assert "" + more == more;
  }

  lemma AloneIff(v: string)
    ensures Alone(v) == Some(v) <==> Plain(v)
  {
    PrintedStringReadsBackIff(v, "");
    assert v + (['"'] + "") == v + ['"'];
  }

  function Backslashes(k: nat): (s: string)
    ensures |s| == k && forall i :: 0 <= i < k ==> s[i] == '\\'
  {
    seq(k, i => '\\')
  }

  lemma Tail(c: char, x: string, w: string)
    requires [c] + x == w
    ensures x == w[1..]
  {
  }

  /** After k backslashes too few, the text no longer catches up. */
  lemma {:induction false} FallsBehind(k: nat, d: string, more: string)
    requires k > 0
    ensures var r := Scanned(d + (['"'] + more)); r.Some? ==> r.value.value != Backslashes(k) + d
    decreases |d|
  {
    var s := d + (['"'] + more);
    var want := Backslashes(k) + d;
    assert want[0] == '\\';
    if |d| > 1 && d[0] == '\\' && d[1] == '\\' {
      assert s[2..] == d[2..] + (['"'] + more);
      assert want[1..] == Backslashes(k + 1) + d[2..];
      FallsBehind(k + 1, d[2..], more);
      var r := Scanned(s[2..]);
      if r.Some? && ['\\'] + r.value.value == want { Tail('\\', r.value.value, want); }
    }
  }

  /** Whatever is read from the printed text, and wherever it ends: it is the string itself only
      when that holds no quote and no backslash. */
  lemma {:induction false} ReadTextIff(v: string, more: string)
    ensures var r := Scanned(v + (['"'] + more)); r.Some? && r.value.value == v <==> Plain(v)
  {
    var s := v + (['"'] + more);
    if v == "" {
      ScanEnd(more);
    } else if v[0] == '\\' {
      if |v| > 1 && v[1] == '\\' {
        assert s[2..] == v[2..] + (['"'] + more);
        assert v[1..] == Backslashes(1) + v[2..];
        FallsBehind(1, v[2..], more);
        var r := Scanned(s[2..]);
        if r.Some? && ['\\'] + r.value.value == v { Tail('\\', r.value.value, v); }
      }
    } else if v[0] != '"' {
      assert s[1..] == v[1..] + (['"'] + more);
      ReadTextIff(v[1..], more);
      var r := Scanned(s[1..]);
      if r.Some? && [v[0]] + r.value.value == v { Tail(v[0], r.value.value, v); }
      assert v == [v[0]] + v[1..];
      assert Plain(v) <==> Plain(v[1..]);
    }
  }

  // ----- parentheses -----

  /** How much of s a literal opened by q takes, its closing quote included. */
  function LiteralLength(s: string, q: char): (n: nat)
    ensures n <= |s|
  {
    if s == "" then 0
    else if s[0] == q then 1
    else if s[0] == '\\' then if |s| > 1 then 2 + LiteralLength(s[2..], q) else 1
    else 1 + LiteralLength(s[1..], q)
  }

  function Blanks(n: nat): (s: string)
    ensures |s| == n
  {
    seq(n, _ => ' ')
  }

  predicate IsQuote(c: char) {
    c == '"' || c == '\''
  }

  /** The text with its string and character literals blanked out. */
  function Masked(text: string): (m: string)
    ensures |m| == |text|
    decreases |text|
  {
    if text == "" then ""
    else if IsQuote(text[0]) then
      var n := 1 + LiteralLength(text[1..], text[0]);
      Blanks(n) + Masked(text[n..])
    else [text[0]] + Masked(text[1..])
  }

  /** Whether depth first returns to zero at the last character. */
  function Closes(m: string, depth: int): bool {
    if m == "" then false
    else if m[0] == '(' then Closes(m[1..], depth + 1)
    else if m[0] == ')' then if depth == 1 then |m| == 1 else Closes(m[1..], depth - 1)
    else Closes(m[1..], depth)
  }

  method WrapsWholeExpression(text: string) returns (wraps: bool)
    ensures wraps == Closes(Masked(text), 0)
  {
    var depth, i := 0, 0;
    SearchEnds(text);
    while i < |text|
      invariant 0 <= i <= |text|
      invariant ClosesFrom(text, 0, 0) == ClosesFrom(text, i, depth)
      decreases |text| - i
    {
      SearchStep(text, i, depth);
      var c := text[i];
      if IsQuote(c) {
        i := SkipLiteral(text, i);
      } else {
        if c == '(' {
          depth := depth + 1;
        } else if c == ')' {
          depth := depth - 1;
          if depth == 0 { return i == |text| - 1; }
        }
        i := i + 1;
      }
    }
    return false;
  }

  /** The inner loop: where the literal that starts at `start` has ended. */
  method SkipLiteral(text: string, start: nat) returns (i: nat)
    requires start < |text|
    ensures i == start + 1 + LiteralLength(text[start + 1..], text[start])
  {
    var c := text[start];
    i := start + 1;
    while i < |text| && text[i] != c
      invariant start + 1 <= i
      invariant i <= |text| ==> LiteralLength(text[start + 1..], c) == i - start - 1 + LiteralLength(text[i..], c)
      invariant i > |text| ==> LiteralLength(text[start + 1..], c) == |text| - start - 1
      decreases |text| - i
    {
      ghost var s := text[i..];
      assert s[1..] == text[i + 1..] && (|s| > 1 ==> s[2..] == text[i + 2..]);
      if text[i] == '\\' { i := i + 1; }
      i := i + 1;
    }
    i := if i < |text| then i + 1 else |text|;
  }

  function ClosesFrom(text: string, i: nat, depth: int): bool
    requires i <= |text|
  {
    Closes(Masked(text[i..]), depth)
  }

  lemma SearchEnds(text: string)
    ensures ClosesFrom(text, 0, 0) == Closes(Masked(text), 0)
    ensures forall depth :: !ClosesFrom(text, |text|, depth)
  {
    assert text[0..] == text;
  }

  function DepthAfter(c: char, depth: int): int {
    if c == '(' then depth + 1 else if c == ')' then depth - 1 else depth
  }

  lemma SearchStep(text: string, i: nat, depth: int)
    requires i < |text|
    ensures IsQuote(text[i]) ==>
              ClosesFrom(text, i, depth) == ClosesFrom(text, i + 1 + LiteralLength(text[i + 1..], text[i]), depth)
    ensures !IsQuote(text[i]) ==>
              ClosesFrom(text, i, depth) ==
              (if text[i] == ')' && depth == 1 then i == |text| - 1
               else ClosesFrom(text, i + 1, DepthAfter(text[i], depth)))
  {
    var here := text[i..];
    assert here[1..] == text[i + 1..];
    if IsQuote(text[i]) {
      var n := 1 + LiteralLength(here[1..], text[i]);
      assert here[n..] == text[i + n..];
      BlanksDoNotCount(n, Masked(here[n..]), depth);
    } else {
      var m := Masked(here);
      assert m == [here[0]] + Masked(here[1..]) && m[1..] == Masked(here[1..]);
    }
  }

  lemma {:induction false} BlanksDoNotCount(n: nat, m: string, depth: int)
    ensures Closes(Blanks(n) + m, depth) == Closes(m, depth)
  {
    if n == 0 {
      assert Blanks(n) + m == m;
    } else {
      BlanksDoNotCount(n - 1, m, depth);
      assert (Blanks(n) + m)[1..] == Blanks(n - 1) + m;
    }
  }

  /** From depth k, no parenthesis closes more than is open, and all are closed at the end. */
  predicate Nested(s: string, k: nat) {
    if s == "" then k == 0
    else if s[0] == '(' then Nested(s[1..], k + 1)
    else if s[0] == ')' then k > 0 && Nested(s[1..], k - 1)
    else Nested(s[1..], k)
  }

  lemma {:induction false} ClosesIff(m: string, depth: nat)
    requires depth > 0
    ensures Closes(m, depth) <==> m != "" && m[|m| - 1] == ')' && Nested(m[..|m| - 1], depth - 1)
  {
    if |m| == 1 {
      assert m[1..] == "";
      assert m[..0] == "";
    } else if |m| > 1 {
      var rest := m[1..];
      assert rest[|rest| - 1] == m[|m| - 1];
      assert m[..|m| - 1][1..] == rest[..|rest| - 1];
      if m[0] == '(' {
        ClosesIff(rest, depth + 1);
      } else if m[0] == ')' {
        if depth > 1 { ClosesIff(rest, depth - 1); }
      } else {
        ClosesIff(rest, depth);
      }
    }
  }

  /** On text that starts with a parenthesis, the search answers yes exactly when the text is
      that parenthesis, properly nested text and its closing partner, literals aside. */
  lemma WrapsIff(text: string)
    requires text != "" && text[0] == '('
    ensures Closes(Masked(text), 0) <==>
              exists inner :: Masked(text) == ['('] + inner + [')'] && Nested(inner, 0)
  {
    var m := Masked(text);
    var rest := Masked(text[1..]);
    assert m == ['('] + rest && m[1..] == rest;
    ClosesIff(rest, 1);
    if Closes(m, 0) {
      assert rest == rest[..|rest| - 1] + [')'];
      assert m == ['('] + rest[..|rest| - 1] + [')'];
    }
    forall inner | m == ['('] + inner + [')'] && Nested(inner, 0) ensures Closes(m, 0) {
      assert rest == inner + [')'];
      assert rest[..|rest| - 1] == inner;
    }
  }

  /** An emitted string literal is skipped exactly, whatever the string. */
  lemma EmittedLiteralIsSkipped(v: string, rest: string)
    ensures Masked(Quoted(v) + rest) == Blanks(|Quoted(v)|) + Masked(rest)
  {
    var text := Quoted(v) + rest;
    assert text[1..] == Escaped(v) + (['"'] + rest);
    EscapedLength(v, rest);
    assert text[|Quoted(v)|..] == rest;
  }

  lemma {:induction false} EscapedLength(v: string, rest: string)
    ensures LiteralLength(Escaped(v) + (['"'] + rest), '"') == |Escaped(v)| + 1
  {
    var tail := ['"'] + rest;
    if v == "" {
      assert Escaped(v) + tail == tail;
    } else {
      EscapedLength(v[1..], rest);
      var head, more := EscapedChar(v[0]), Escaped(v[1..]) + tail;
      assert Escaped(v) + tail == head + more;
      assert (head + more)[|head|..] == more;
    }
  }
}
