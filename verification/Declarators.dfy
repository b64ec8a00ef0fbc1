/** C declarators as the emitter writes them, inside out, as token sequences. */
module Declarators {
  import opened Options
  import opened Types

  datatype Keyword =
    | KConst | KVolatile | KRestrict | KAtomic
    | KVoid | KBool | KChar | KSigned | KUnsigned | KShort | KInt | KLong
    | KFloat | KDouble | KComplex | KBitInt | KStruct | KUnion | KEnum | KNullptr

  /** `Tag` is a mangled structure, union or enumeration tag. */
  datatype Token =
    | Word(keyword: Keyword)
    | Name(name: string)
    | Tag(tag: string)
    | Number(value: nat)
    | Star | LParen | RParen | LBracket | RBracket | Comma | Ellipsis

  // ----- the emitter -----

  function If(b: bool, k: Keyword): seq<Token> {
    if b then [Word(k)] else []
  }

  function QualifierWords(q: Qualifiers): seq<Token> {
    If(q.isConst, KConst) + If(q.isVolatile, KVolatile) + If(q.isRestrict, KRestrict) + If(q.isAtomic, KAtomic)
  }

  function BaseWords(b: Base): seq<Token> {
    match b
    case Void => [Word(KVoid)]
    case Boolean => [Word(KBool)]
    case Character(sign) => If(sign.UnsignedChar?, KUnsigned) + If(sign.SignedChar?, KSigned) + [Word(KChar)]
    case Integer(rank, isUnsigned) =>
      If(isUnsigned, KUnsigned) +
      (match rank
       case Short => [Word(KShort)]
       case Int => [Word(KInt)]
       case Long => [Word(KLong)]
       case LongLong => [Word(KLong), Word(KLong)])
    case Floating(precision) =>
      (match precision
       case Float => [Word(KFloat)]
       case Double => [Word(KDouble)]
       case LongDouble => [Word(KLong), Word(KDouble)])
    case Complex => [Word(KDouble), Word(KComplex)]
    case BitInt(width, isUnsigned) =>
      If(isUnsigned, KUnsigned) + [Word(KBitInt), LParen, Number(width), RParen]
    case Structure(tag) => [Word(KStruct), Tag(tag)]
    case Union(tag) => [Word(KUnion), Tag(tag)]
    case Enumeration(tag) => [Word(KEnum), Tag(tag)]
    case Nullptr => [Word(KNullptr)]
  }

  /** `emitCBaseType`: a type that is not a plain one is spelled "long" behind its qualifiers. */
  function BaseType(t: Type): seq<Token> {
    match t
    case Plain(q, base) => QualifierWords(q) + BaseWords(base)
    case Pointer(q, _) => QualifierWords(q) + [Word(KLong)]
    case _ => [Word(KLong)]
  }

  function BoundText(bound: Option<nat>): seq<Token> {
    if bound.Some? then [Number(bound.value)] else []
  }

  function EmitDeclarator(t: Type, name: seq<Token>): seq<Token>
    decreases t, 0
  {
    match t
    case Function(result, params, variadic) =>
      BaseType(result) + name + [LParen] + EmitParams(params, variadic) + [RParen]
    case Array(element, bound) => EmitDeclarator(element, name + [LBracket] + BoundText(bound) + [RBracket])
    case Pointer(q, to) => EmitDeclarator(to, PointerName(q, to, name))
    case Plain(_, _) => BaseType(t) + name
  }

  /** A suffix binds tighter than the star, so a pointer to an array or function is grouped. */
  function PointerName(q: Qualifiers, to: Type, name: seq<Token>): seq<Token> {
    var part := [Star] + QualifierWords(q) + name;
    if to.Array? || to.Function? then [LParen] + part + [RParen] else part
  }

  function EmitParams(params: seq<Type>, variadic: bool): seq<Token>
    decreases params, 1
  {
    if params == [] then [Word(KVoid)] + (if variadic then [Ellipsis] else [])
    else EmitList(params) + (if variadic then [Comma, Ellipsis] else [])
  }

  function EmitList(params: seq<Type>): seq<Token>
    decreases params, 0
  {
    if params == [] then []
    else EmitDeclarator(params[0], []) + (if |params| == 1 then [] else [Comma] + EmitList(params[1..]))
  }

  const MARKER := "__ps_type_marker"

  /** Text before and after the first marker. */
  function WithoutMarker(text: seq<Token>): seq<Token> {
    if text == [] then []
    else if text[0] == Name(MARKER) then text[1..]
    else [text[0]] + WithoutMarker(text[1..])
  }

  /** `emitCType`: the declarator of a marker, with the marker removed. */
  function EmitType(t: Type): seq<Token> {
    WithoutMarker(EmitDeclarator(t, [Name(MARKER)]))
  }

  // ----- the declarator grammar (ISO/IEC 9899:1999 sections 6.7.5 and 6.7.6) -----

  datatype Declarator =
    | Identifier(id: string)
    | Nothing                                   // the place of the name in a type name
    | PointerTo(q: Qualifiers, inner: Declarator)
    | ArrayOf(inner: Declarator, bound: Option<nat>)
    | FunctionOf(inner: Declarator, params: seq<Type>, variadic: bool)

  /** What "T D" declares: the identifier and its type. */
  function Declares(d: Declarator, t: Type): (Option<string>, Type) {
    match d
    case Identifier(id) => (Some(id), t)
    case Nothing => (None, t)
    case PointerTo(q, inner) => Declares(inner, Pointer(q, t))
    case ArrayOf(inner, bound) => Declares(inner, Array(t, bound))
    case FunctionOf(inner, params, variadic) => Declares(inner, Function(t, params, variadic))
  }

  function At(toks: seq<Token>, i: nat): Option<Token> {
    if i < |toks| then Some(toks[i]) else None
  }

  predicate Starts(toks: seq<Token>, t: Token) {
    toks != [] && toks[0] == t
  }

  predicate StartsWithWord(toks: seq<Token>) {
    toks != [] && toks[0].Word?
  }

  function ReadQualifiers(toks: seq<Token>, q: Qualifiers): (r: (Qualifiers, seq<Token>))
    ensures |r.1| <= |toks|
    decreases |toks|
  {
    if Starts(toks, Word(KConst)) then ReadQualifiers(toks[1..], q.(isConst := true))
    else if Starts(toks, Word(KVolatile)) then ReadQualifiers(toks[1..], q.(isVolatile := true))
    else if Starts(toks, Word(KRestrict)) then ReadQualifiers(toks[1..], q.(isRestrict := true))
    else if Starts(toks, Word(KAtomic)) then ReadQualifiers(toks[1..], q.(isAtomic := true))
    else (q, toks)
  }

  function ReadBase(toks: seq<Token>): (r: Option<(Base, seq<Token>)>)
    ensures r.Some? ==> |r.value.1| < |toks|
  {
    if !StartsWithWord(toks) then None
    else
      var rest := toks[1..];
      match toks[0].keyword
      case KVoid => Some((Void, rest))
      case KBool => Some((Boolean, rest))
      case KChar => Some((Character(PlainChar), rest))
      case KSigned => if Starts(rest, Word(KChar)) then Some((Character(SignedChar), rest[1..])) else None
      case KUnsigned => if Starts(rest, Word(KChar)) then Some((Character(UnsignedChar), rest[1..]))
                        else ReadInteger(rest, true)
      case KFloat => Some((Floating(Float), rest))
      case KDouble => if Starts(rest, Word(KComplex)) then Some((Complex, rest[1..])) else Some((Floating(Double), rest))
      case KLong => if Starts(rest, Word(KDouble)) then Some((Floating(LongDouble), rest[1..])) else ReadInteger(toks, false)
      case KStruct => if rest != [] && rest[0].Tag? then Some((Structure(rest[0].tag), rest[1..])) else None
      case KUnion => if rest != [] && rest[0].Tag? then Some((Union(rest[0].tag), rest[1..])) else None
      case KEnum => if rest != [] && rest[0].Tag? then Some((Enumeration(rest[0].tag), rest[1..])) else None
      case KNullptr => Some((Nullptr, rest))
      case _ => ReadInteger(toks, false)
  }

  function ReadInteger(toks: seq<Token>, isUnsigned: bool): (r: Option<(Base, seq<Token>)>)
    ensures r.Some? ==> |r.value.1| < |toks|
  {
    if Starts(toks, Word(KShort)) then Some((Integer(Short, isUnsigned), toks[1..]))
    else if Starts(toks, Word(KInt)) then Some((Integer(Int, isUnsigned), toks[1..]))
    else if Starts(toks, Word(KLong)) then
      if Starts(toks[1..], Word(KLong)) then Some((Integer(LongLong, isUnsigned), toks[2..]))
      else Some((Integer(Long, isUnsigned), toks[1..]))
    else if Starts(toks, Word(KBitInt)) && |toks| >= 4 && toks[1] == LParen && toks[2].Number? && toks[3] == RParen then
      Some((BitInt(toks[2].value, isUnsigned), toks[4..]))
    else None
  }

  /** Specifiers and qualifiers followed by a declarator, which may lack the identifier. */
  function ReadDeclaration(toks: seq<Token>): (r: Option<((Option<string>, Type), seq<Token>)>)
    ensures r.Some? ==> |r.value.1| < |toks|
    decreases |toks|, 3
  {
    var (q, afterQualifiers) := ReadQualifiers(toks, PLAIN);
    var base := ReadBase(afterQualifiers);
    if base.None? then None
    else
      var d := ReadDeclarator(base.value.1);
      if d.None? then None
      else Some((Declares(d.value.0, Plain(q, base.value.0)), d.value.1))
  }

  function ReadDeclarator(toks: seq<Token>): (r: Option<(Declarator, seq<Token>)>)
    ensures r.Some? ==> |r.value.1| <= |toks|
    decreases |toks|, 2
  {
    if Starts(toks, Star) then
      var (q, rest) := ReadQualifiers(toks[1..], PLAIN);
      var d := ReadDeclarator(rest);
      if d.None? then None else Some((PointerTo(q, d.value.0), d.value.1))
    else ReadDirect(toks)
  }

  /** A parenthesis opens a grouped declarator unless a parameter list can follow it. */
  function ReadDirect(toks: seq<Token>): (r: Option<(Declarator, seq<Token>)>)
    ensures r.Some? ==> |r.value.1| <= |toks|
    decreases |toks|, 1
  {
    if toks != [] && toks[0].Name? then ReadSuffixes(Identifier(toks[0].name), toks[1..])
    else if Starts(toks, LParen) && !StartsWithWord(toks[1..]) && !Starts(toks[1..], RParen) then
      var d := ReadDeclarator(toks[1..]);
      if d.None? || !Starts(d.value.1, RParen) then None
      else ReadSuffixes(d.value.0, d.value.1[1..])
    else ReadSuffixes(Nothing, toks)
  }

  function ReadSuffixes(d: Declarator, toks: seq<Token>): (r: Option<(Declarator, seq<Token>)>)
    ensures r.Some? ==> |r.value.1| <= |toks|
    decreases |toks|, 0
  {
    if Starts(toks, LBracket) then
      if |toks| >= 3 && toks[1].Number? && toks[2] == RBracket then
        ReadSuffixes(ArrayOf(d, Some(toks[1].value)), toks[3..])
      else if |toks| >= 2 && toks[1] == RBracket then ReadSuffixes(ArrayOf(d, None), toks[2..])
      else None
    else if Starts(toks, LParen) then
      var p := ReadParams(toks[1..]);
      if p.None? then None
      else
        var (params, variadic, rest) := p.value;
        ReadSuffixes(FunctionOf(d, params, variadic), rest)
    else Some((d, toks))
  }

  function ReadParams(toks: seq<Token>): (r: Option<(seq<Type>, bool, seq<Token>)>)
    ensures r.Some? ==> |r.value.2| < |toks|
    decreases |toks|, 5
  {
    if |toks| >= 2 && toks[0] == Word(KVoid) && toks[1] == RParen then Some(([], false, toks[2..]))
    else ReadList(toks)
  }

  function ReadList(toks: seq<Token>): (r: Option<(seq<Type>, bool, seq<Token>)>)
    ensures r.Some? ==> |r.value.2| < |toks|
    decreases |toks|, 4
  {
    var first := ReadDeclaration(toks);
    if first.None? then None
    else
      var t, rest := first.value.0.1, first.value.1;
      if Starts(rest, RParen) then Some(([t], false, rest[1..]))
      else if Starts(rest, Comma) then
        if |rest| >= 3 && rest[1] == Ellipsis && rest[2] == RParen then Some(([t], true, rest[3..]))
        else
          var more := ReadList(rest[1..]);
          if more.None? then None
          else Some(([t] + more.value.0, more.value.1, more.value.2))
      else None
  }

  // ----- which types are spelled faithfully -----

  /** What the type grammar can build: "variadic" only after a parameter, and no function
      that returns a function. */
  predicate Spellable(t: Type) {
    match t
    case Plain(_, _) => true
    case Pointer(_, to) => Spellable(to)
    case Array(element, _) => Spellable(element)
    case Function(result, params, variadic) =>
      && !result.Function?
      && (variadic ==> params != [])
      && SpellableAll(params)
  }

  predicate SpellableAll(ts: seq<Type>) {
    ts == [] || (Spellable(ts[0]) && SpellableAll(ts[1..]))
  }

  const VOID := Type.Plain(PLAIN, Void)

  /** Functions return plain types, and no parameter list is a lone unqualified void. */
  predicate Faithful(t: Type) {
    match t
    case Plain(_, _) => true
    case Pointer(_, to) => Faithful(to)
    case Array(element, _) => Faithful(element)
    case Function(result, params, variadic) =>
      result.Plain? && (params == [VOID] ==> variadic) && FaithfulAll(params)
  }

  predicate FaithfulAll(ts: seq<Type>) {
    ts == [] || (Faithful(ts[0]) && FaithfulAll(ts[1..]))
  }

  /** The type that the emitted text really spells. */
  function Spelled(t: Type): Type {
    match t
    case Plain(_, _) => t
    case Pointer(q, to) => Pointer(q, Spelled(to))
    case Array(element, bound) => Array(Spelled(element), bound)
    case Function(result, params, variadic) =>
      var plainResult := match result
        case Plain(_, _) => result
        case Pointer(q, _) => Type.Plain(q, Integer(Long, false))
        case _ => Type.Plain(PLAIN, Integer(Long, false));
      var spelledParams := if params == [VOID] && !variadic then [] else SpelledAll(params);
      Function(plainResult, spelledParams, variadic)
  }

  function SpelledAll(ts: seq<Type>): (r: seq<Type>)
    ensures |r| == |ts|
  {
    if ts == [] then [] else [Spelled(ts[0])] + SpelledAll(ts[1..])
  }

  lemma {:induction false} SpelledIsFaithful(t: Type)
    requires Spellable(t)
    ensures Faithful(Spelled(t)) && Spellable(Spelled(t))
    ensures Spelled(t) == t <==> Faithful(t)
    decreases t, 0
  {
    match t
    case Plain(_, _) =>
    case Pointer(_, to) => SpelledIsFaithful(to);
    case Array(element, _) => SpelledIsFaithful(element);
    case Function(result, params, variadic) =>
      SpelledAllFaithful(params);
      if SpelledAll(params) == [VOID] {
        assert SpelledAll(params)[0] == VOID && params[1..] == [];
        SpelledVoid(params[0]);
        assert params == [params[0]];
      }
  }

  lemma SpelledVoid(t: Type)
    requires Spelled(t) == VOID
    ensures t == VOID
  {
  }

  lemma {:induction false} SpelledAllFaithful(ts: seq<Type>)
    requires SpellableAll(ts)
    ensures FaithfulAll(SpelledAll(ts)) && SpellableAll(SpelledAll(ts))
    ensures SpelledAll(ts) == ts <==> FaithfulAll(ts)
    decreases ts, 0
  {
    if ts != [] {
      SpelledIsFaithful(ts[0]);
      SpelledAllFaithful(ts[1..]);
      assert ts == [ts[0]] + ts[1..];
      assert SpelledAll(ts)[0] == Spelled(ts[0]) && SpelledAll(ts)[1..] == SpelledAll(ts[1..]);
    }
  }

  /** The emitter writes the same text for a type and for what that text spells. */
  lemma {:induction false} SameText(t: Type, name: seq<Token>)
    requires Spellable(t)
    ensures EmitDeclarator(Spelled(t), name) == EmitDeclarator(t, name)
    decreases t, 0
  {
    match t
    case Plain(_, _) =>
    case Pointer(q, to) => SameText(to, PointerName(q, to, name));
    case Array(element, bound) => SameText(element, name + [LBracket] + BoundText(bound) + [RBracket]);
    case Function(result, params, variadic) =>
      SameParams(params, variadic);
      assert BaseType(Spelled(t).result) == BaseType(result);
  }

  lemma {:induction false} SameParams(params: seq<Type>, variadic: bool)
    requires SpellableAll(params)
    ensures EmitParams(if params == [VOID] && !variadic then [] else SpelledAll(params), variadic) ==
            EmitParams(params, variadic)
    decreases params, 1
  {
    if params == [VOID] && !variadic {
      assert EmitList(params) == EmitDeclarator(VOID, []);
      assert EmitDeclarator(VOID, []) == [Word(KVoid)];
    } else {
      SameList(params);
    }
  }

  lemma {:induction false} SameList(ts: seq<Type>)
    requires SpellableAll(ts)
    ensures EmitList(SpelledAll(ts)) == EmitList(ts)
    decreases ts, 0
  {
    if ts != [] {
      SameText(ts[0], []);
      SameList(ts[1..]);
      assert SpelledAll(ts)[1..] == SpelledAll(ts[1..]);
    }
  }
}
