/** Reading back what the emitter writes gives the declared name and type. */
module DeclaratorRoundTrip {
  import opened Options
  import opened Types
  import opened Declarators

  lemma Assoc(a: seq<Token>, b: seq<Token>, c: seq<Token>)
    ensures (a + b) + c == a + (b + c)
  {
  }

  lemma HeadOf(a: seq<Token>, b: seq<Token>)
    ensures a != [] ==> (a + b)[0] == a[0]
  {
  }

  lemma Rest(t: Token, toks: seq<Token>)
    ensures ([t] + toks)[0] == t && ([t] + toks)[1..] == toks
  {
  }

  // ----- declarators as the grammar sees them -----

  /** The text of a declarator: a suffix on a pointer needs parentheses. */
  function Show(d: Declarator): seq<Token>
    decreases d, 0
  {
    match d
    case Identifier(id) => [Name(id)]
    case Nothing => []
    case PointerTo(q, inner) => [Star] + QualifierWords(q) + Show(inner)
    case ArrayOf(inner, bound) => Grouped(inner) + [LBracket] + BoundText(bound) + [RBracket]
    case FunctionOf(inner, params, variadic) => Grouped(inner) + [LParen] + EmitParams(params, variadic) + [RParen]
  }

  function Grouped(d: Declarator): seq<Token>
    decreases d, 1
  {
    if d.PointerTo? then [LParen] + Show(d) + [RParen] else Show(d)
  }

  /** The declarator that spells t around d, and the plain type it starts from. */
  function Around(t: Type, d: Declarator): Declarator
    requires Faithful(t)
  {
    match t
    case Plain(_, _) => d
    case Pointer(q, to) => Around(to, PointerTo(q, d))
    case Array(element, bound) => Around(element, ArrayOf(d, bound))
    case Function(_, params, variadic) => FunctionOf(d, params, variadic)
  }

  function Root(t: Type): Type
    requires Faithful(t)
    ensures Root(t).Plain?
  {
    match t
    case Plain(_, _) => t
    case Pointer(_, to) => Root(to)
    case Array(element, _) => Root(element)
    case Function(result, _, _) => result
  }

  lemma {:induction false} AroundDeclares(t: Type, d: Declarator)
    requires Faithful(t)
    ensures Declares(Around(t, d), Root(t)) == Declares(d, t)
  {
    match t
    case Plain(_, _) =>
    case Pointer(q, to) => AroundDeclares(to, PointerTo(q, d));
    case Array(element, bound) => AroundDeclares(element, ArrayOf(d, bound));
    case Function(_, _, _) =>
  }

  /** The emitter's accumulated name is the text of a declarator. */
  lemma {:induction false} EmitIsShow(t: Type, d: Declarator)
    requires Faithful(t)
    ensures EmitDeclarator(t, if t.Array? || t.Function? then Grouped(d) else Show(d)) ==
            BaseType(Root(t)) + Show(Around(t, d))
  {
    match t
    case Plain(_, _) =>
    case Pointer(q, to) => EmitIsShow(to, PointerTo(q, d));
    case Array(element, bound) => EmitIsShow(element, ArrayOf(d, bound));
    case Function(result, params, variadic) =>
      var base, name, list := BaseType(result), Grouped(d), EmitParams(params, variadic);
      Assoc(base, name, [LParen]);
      Assoc(base, name + [LParen], list);
      Assoc(base, name + [LParen] + list, [RParen]);
  }

  // ----- sizes, for the recursion through parameter lists -----

  function TypeSize(t: Type): nat {
    match t
    case Plain(_, _) => 1
    case Pointer(_, to) => 1 + TypeSize(to)
    case Array(element, _) => 1 + TypeSize(element)
    case Function(result, params, _) => 1 + TypesSize(params)
  }

  function TypesSize(ts: seq<Type>): nat {
    if ts == [] then 0 else 1 + TypeSize(ts[0]) + TypesSize(ts[1..])
  }

  function DeclaratorSize(d: Declarator): nat {
    match d
    case Identifier(_) => 0
    case Nothing => 0
    case PointerTo(_, inner) => 1 + DeclaratorSize(inner)
    case ArrayOf(inner, _) => 1 + DeclaratorSize(inner)
    case FunctionOf(inner, params, _) => 1 + DeclaratorSize(inner) + TypesSize(params)
  }

  lemma {:induction false} AroundSize(t: Type, d: Declarator)
    requires Faithful(t)
    ensures DeclaratorSize(Around(t, d)) <= TypeSize(t) + DeclaratorSize(d)
  {
    match t
    case Plain(_, _) =>
    case Pointer(q, to) => AroundSize(to, PointerTo(q, d));
    case Array(element, bound) => AroundSize(element, ArrayOf(d, bound));
    case Function(_, _, _) =>
  }

  /** The parameter types inside a declarator. */
  predicate WellSpelled(d: Declarator) {
    match d
    case Identifier(_) => true
    case Nothing => true
    case PointerTo(_, inner) => WellSpelled(inner)
    case ArrayOf(inner, _) => WellSpelled(inner)
    case FunctionOf(inner, params, variadic) =>
      && WellSpelled(inner)
      && (params == [VOID] ==> variadic)
      && (variadic ==> params != [])
      && FaithfulAll(params) && SpellableAll(params)
  }

  lemma {:induction false} AroundWellSpelled(t: Type, d: Declarator)
    requires Faithful(t) && Spellable(t) && WellSpelled(d)
    ensures WellSpelled(Around(t, d))
  {
    match t
    case Plain(_, _) =>
    case Pointer(q, to) => AroundWellSpelled(to, PointerTo(q, d));
    case Array(element, bound) => AroundWellSpelled(element, ArrayOf(d, bound));
    case Function(_, _, _) =>
  }

  // ----- reading specifiers -----

  lemma QualifiersRead(q: Qualifiers, rest: seq<Token>)
    requires !StartsWithQualifier(rest)
    ensures ReadQualifiers(QualifierWords(q) + rest, PLAIN) == (q, rest)
  {
    var a := If(q.isAtomic, KAtomic) + rest;
    var r := If(q.isRestrict, KRestrict) + a;
    var v := If(q.isVolatile, KVolatile) + r;
    QualifierText(q, rest);
    var q1 := With(PLAIN, KConst, q.isConst);
    var q2 := With(q1, KVolatile, q.isVolatile);
    var q3 := With(q2, KRestrict, q.isRestrict);
    QualifierRead(PLAIN, KConst, q.isConst, v);
    QualifierRead(q1, KVolatile, q.isVolatile, r);
    QualifierRead(q2, KRestrict, q.isRestrict, a);
    QualifierRead(q3, KAtomic, q.isAtomic, rest);
    NoQualifiers(With(q3, KAtomic, q.isAtomic), rest);
  }

  lemma QualifierText(q: Qualifiers, rest: seq<Token>)
    ensures QualifierWords(q) + rest ==
            If(q.isConst, KConst) + (If(q.isVolatile, KVolatile) + (If(q.isRestrict, KRestrict) + (If(q.isAtomic, KAtomic) + rest)))
  {
    Assoc4(If(q.isConst, KConst), If(q.isVolatile, KVolatile), If(q.isRestrict, KRestrict), If(q.isAtomic, KAtomic), rest);
  }

  lemma NoQualifiers(q: Qualifiers, rest: seq<Token>)
    requires !StartsWithQualifier(rest)
    ensures ReadQualifiers(rest, q) == (q, rest)
  {
  }

  predicate StartsWithQualifier(toks: seq<Token>) {
    StartsWithWord(toks) &&
    (toks[0].keyword.KConst? || toks[0].keyword.KVolatile? || toks[0].keyword.KRestrict? || toks[0].keyword.KAtomic?)
  }

  function With(q: Qualifiers, k: Keyword, b: bool): Qualifiers {
    if !b then q
    else
      match k
      case KConst => q.(isConst := true)
      case KVolatile => q.(isVolatile := true)
      case KRestrict => q.(isRestrict := true)
      case _ => q.(isAtomic := true)
  }

  lemma QualifierRead(q: Qualifiers, k: Keyword, b: bool, rest: seq<Token>)
    requires k.KConst? || k.KVolatile? || k.KRestrict? || k.KAtomic?
    ensures ReadQualifiers(If(b, k) + rest, q) == ReadQualifiers(rest, With(q, k, b))
  {
    if b {
      assert ([Word(k)] + rest)[1..] == rest;
    } else {
      assert [] + rest == rest;
    }
  }

  lemma BaseRead(b: Base, rest: seq<Token>)
    requires !StartsWithWord(rest)
    ensures ReadBase(BaseWords(b) + rest) == Some((b, rest))
    ensures !StartsWithQualifier(BaseWords(b) + rest) && StartsWithWord(BaseWords(b) + rest)
  {
    if b.Integer? {
      IntegerRead(b.rank, b.isUnsigned, rest);
    } else if b.BitInt? {
      BitIntRead(b.width, b.isUnsigned, rest);
    } else if b.Structure? || b.Union? || b.Enumeration? {
      TagRead(b, rest);
    } else if b.Character? {
      CharacterRead(b.sign, rest);
    } else if b.Floating? || b.Complex? {
      RealRead(b, rest);
    } else {
      assert (BaseWords(b) + rest)[1..] == rest;
    }
  }

  lemma CharacterRead(sign: CharSign, rest: seq<Token>)
    ensures ReadBase(BaseWords(Character(sign)) + rest) == Some((Character(sign), rest))
    ensures !StartsWithQualifier(BaseWords(Character(sign)) + rest) && StartsWithWord(BaseWords(Character(sign)) + rest)
  {
    var words := BaseWords(Character(sign));
    var toks := words + rest;
    if sign.PlainChar? {
      assert words == [Word(KChar)] && toks[1..] == rest;
    } else {
      assert words[1..] == [Word(KChar)] && toks[1..] == [Word(KChar)] + rest;
    }
  }

  lemma RealRead(b: Base, rest: seq<Token>)
    requires b.Floating? || b.Complex?
    requires !StartsWithWord(rest)
    ensures ReadBase(BaseWords(b) + rest) == Some((b, rest))
    ensures !StartsWithQualifier(BaseWords(b) + rest) && StartsWithWord(BaseWords(b) + rest)
  {
    var words := BaseWords(b);
    var toks := words + rest;
    assert toks[1..] == words[1..] + rest;
    if |words| == 2 {
      assert words[1..] == [words[1]];
    } else {
      assert words[1..] + rest == rest;
    }
  }

  lemma TagRead(b: Base, rest: seq<Token>)
    requires b.Structure? || b.Union? || b.Enumeration?
    ensures ReadBase(BaseWords(b) + rest) == Some((b, rest))
    ensures !StartsWithQualifier(BaseWords(b) + rest) && StartsWithWord(BaseWords(b) + rest)
  {
    assert (BaseWords(b) + rest)[1..] == [Tag(b.tag)] + rest;
  }

  lemma IntegerRead(rank: IntegerRank, isUnsigned: bool, rest: seq<Token>)
    requires !StartsWithWord(rest)
    ensures var toks := BaseWords(Integer(rank, isUnsigned)) + rest;
            && ReadBase(toks) == Some((Integer(rank, isUnsigned), rest))
            && !StartsWithQualifier(toks) && StartsWithWord(toks)
  {
    var words := BaseWords(Integer(rank, false));
    var core := words + rest;
    RankRead(rank, isUnsigned, rest);
    if isUnsigned {
      assert BaseWords(Integer(rank, true)) == [Word(KUnsigned)] + words;
      Assoc([Word(KUnsigned)], words, rest);
      Rest(Word(KUnsigned), core);
    }
  }

  lemma RankRead(rank: IntegerRank, isUnsigned: bool, rest: seq<Token>)
    requires !StartsWithWord(rest)
    ensures var core := BaseWords(Integer(rank, false)) + rest;
            && ReadInteger(core, isUnsigned) == Some((Integer(rank, isUnsigned), rest))
            && core != [] && core[0].Word?
            && (core[0].keyword.KShort? || core[0].keyword.KInt? || core[0].keyword.KLong?)
            && !Starts(core[1..], Word(KDouble))
  {
    match rank
    case LongLong =>
      var core := [Word(KLong), Word(KLong)] + rest;
      assert core[2..] == rest;
    case Short => Rest(Word(KShort), rest);
    case Int => Rest(Word(KInt), rest);
    case Long => Rest(Word(KLong), rest);
  }

  lemma BitIntCore(width: nat, isUnsigned: bool, rest: seq<Token>)
    ensures ReadInteger([Word(KBitInt), LParen, Number(width), RParen] + rest, isUnsigned) == Some((BitInt(width, isUnsigned), rest))
  {
    assert ([Word(KBitInt), LParen, Number(width), RParen] + rest)[4..] == rest;
  }

  lemma BitIntRead(width: nat, isUnsigned: bool, rest: seq<Token>)
    ensures var toks := BaseWords(BitInt(width, isUnsigned)) + rest;
            && ReadBase(toks) == Some((BitInt(width, isUnsigned), rest))
            && !StartsWithQualifier(toks) && StartsWithWord(toks)
  {
    var core := [Word(KBitInt), LParen, Number(width), RParen] + rest;
    BitIntCore(width, isUnsigned, rest);
    var toks := BaseWords(BitInt(width, isUnsigned)) + rest;
    if isUnsigned {
      assert toks == [Word(KUnsigned)] + core;
      assert toks[1..] == core;
    } else {
      assert toks == core;
    }
  }

  // ----- reading declarators -----

  /** What may follow a complete declarator. */
  predicate Ends(rest: seq<Token>) {
    rest == [] || rest[0] == RParen || rest[0] == Token.Comma
  }

  /** What may follow the place of an omitted name. */
  predicate FollowsNothing(rest: seq<Token>) {
    || Ends(rest)
    || rest[0] == LBracket
    || (rest[0] == LParen && StartsWithWord(rest[1..]))
  }

  /** The first token of a declarator's text tells its form. */
  lemma {:induction false} ShowHead(d: Declarator)
    ensures d == Nothing <==> Show(d) == []
    ensures d != Nothing ==> !Show(d)[0].Word? && Show(d)[0] != RParen && Show(d)[0] != Token.Comma
    ensures d != Nothing ==> (Show(d)[0] == Star <==> d.PointerTo?)
  {
    match d
    case ArrayOf(inner, _) => ShowHead(inner);
    case FunctionOf(inner, _, _) => ShowHead(inner);
    case _ =>
  }

  lemma {:induction false} ParamsStart(params: seq<Type>, variadic: bool)
    requires FaithfulAll(params)
    ensures StartsWithWord(EmitParams(params, variadic))
  {
    if params != [] {
      EmitStart(params[0]);
    }
  }

  lemma {:induction false} EmitStart(t: Type)
    requires Faithful(t)
    ensures StartsWithWord(EmitDeclarator(t, []))
  {
    EmitIsShow(t, Nothing);
    var root := Root(t);
    assert BaseType(root) != [] && BaseType(root)[0].Word?;
  }

  lemma {:induction false} SuffixesEnd(d: Declarator, rest: seq<Token>)
    requires Ends(rest)
    ensures ReadSuffixes(d, rest) == Some((d, rest))
  {
  }

  /** Reading the text of a declarator gives it back and stops where it ends. */
  lemma {:induction false} DeclaratorRead(d: Declarator, rest: seq<Token>)
    requires WellSpelled(d) && Ends(rest)
    ensures ReadDeclarator(Show(d) + rest) == Some((d, rest))
    decreases DeclaratorSize(d), 2
  {
    ShowHead(d);
    if d.PointerTo? {
      var inner := d.inner;
      var tail := Show(inner) + rest;
      Assoc([Star] + QualifierWords(d.q), Show(inner), rest);
      Assoc([Star], QualifierWords(d.q), tail);
      Rest(Star, QualifierWords(d.q) + tail);
      ShowHead(inner);
      QualifiersRead(d.q, tail);
      DeclaratorRead(inner, rest);
    } else {
      DirectRead(d, rest);
      SuffixesEnd(d, rest);
    }
  }

  /** A declarator that is not a pointer is read up to its last suffix. */
  lemma {:induction false} DirectRead(d: Declarator, rest: seq<Token>)
    requires WellSpelled(d) && !d.PointerTo? && FollowsNothing(rest)
    ensures ReadDirect(Show(d) + rest) == ReadSuffixes(d, rest)
    decreases DeclaratorSize(d), 1
  {
    match d
    case Identifier(id) => Rest(Name(id), rest);
    case Nothing => assert [] + rest == rest;
    case ArrayOf(inner, bound) =>
      ArrayText(inner, bound, rest);
      GroupedRead(inner, BoundSuffix(bound, rest));
      BoundRead(inner, bound, rest);
    case FunctionOf(inner, params, variadic) =>
      FunctionText(inner, params, variadic, rest);
      ParamsStart(params, variadic);
      var tail := ParamSuffix(params, variadic, rest);
      Rest(LParen, EmitParams(params, variadic) + ([RParen] + rest));
      GroupedRead(inner, tail);
      ParamsRead(params, variadic, rest);
  }

  function BoundSuffix(bound: Option<nat>, rest: seq<Token>): seq<Token> {
    [LBracket] + (BoundText(bound) + ([RBracket] + rest))
  }

  function ParamSuffix(params: seq<Type>, variadic: bool, rest: seq<Token>): seq<Token> {
    [LParen] + (EmitParams(params, variadic) + ([RParen] + rest))
  }

  lemma Assoc4(a: seq<Token>, b: seq<Token>, c: seq<Token>, d: seq<Token>, rest: seq<Token>)
    ensures (a + b + c + d) + rest == a + (b + (c + (d + rest)))
  {
    Assoc(a + b + c, d, rest);
    Assoc(a + b, c, d + rest);
    Assoc(a, b, c + (d + rest));
  }

  lemma ArrayText(inner: Declarator, bound: Option<nat>, rest: seq<Token>)
    ensures Show(ArrayOf(inner, bound)) + rest == Grouped(inner) + BoundSuffix(bound, rest)
  {
    Assoc4(Grouped(inner), [LBracket], BoundText(bound), [RBracket], rest);
  }

  lemma FunctionText(inner: Declarator, params: seq<Type>, variadic: bool, rest: seq<Token>)
    ensures Show(FunctionOf(inner, params, variadic)) + rest == Grouped(inner) + ParamSuffix(params, variadic, rest)
  {
    Assoc4(Grouped(inner), [LParen], EmitParams(params, variadic), [RParen], rest);
  }

  lemma BoundRead(inner: Declarator, bound: Option<nat>, rest: seq<Token>)
    ensures ReadSuffixes(inner, BoundSuffix(bound, rest)) == ReadSuffixes(ArrayOf(inner, bound), rest)
  {
    var toks := BoundSuffix(bound, rest);
    if bound.Some? {
      assert toks == [LBracket, Number(bound.value), RBracket] + rest;
      assert toks[3..] == rest;
    } else {
      assert toks == [LBracket, RBracket] + rest;
      assert toks[2..] == rest;
    }
  }

  lemma {:induction false} GroupedRead(d: Declarator, tail: seq<Token>)
    requires WellSpelled(d) && FollowsNothing(tail)
    ensures ReadDirect(Grouped(d) + tail) == ReadSuffixes(d, tail)
    decreases DeclaratorSize(d), 3
  {
    if d.PointerTo? {
      var inside := Show(d) + ([RParen] + tail);
      Assoc([LParen] + Show(d), [RParen], tail);
      Assoc([LParen], Show(d), [RParen] + tail);
      Rest(LParen, inside);
      ShowHead(d);
      DeclaratorRead(d, [RParen] + tail);
      Rest(RParen, tail);
    } else {
      DirectRead(d, tail);
    }
  }

  // ----- reading parameter lists -----

  lemma {:induction false} ParamsRead(params: seq<Type>, variadic: bool, rest: seq<Token>)
    requires FaithfulAll(params) && SpellableAll(params)
    requires (params == [VOID] ==> variadic) && (variadic ==> params != [])
    ensures ReadParams(EmitParams(params, variadic) + ([RParen] + rest)) == Some((params, variadic, rest))
    decreases TypesSize(params), 6
  {
    var toks := EmitParams(params, variadic) + ([RParen] + rest);
    if params == [] {
      assert toks == [Word(KVoid), RParen] + rest;
      assert toks[2..] == rest;
    } else {
      ListRead(params, variadic, rest);
      Assoc(EmitList(params), if variadic then [Token.Comma, Ellipsis] else [], [RParen] + rest);
      if |toks| >= 2 && toks[0] == Word(KVoid) && toks[1] == RParen {
        LoneVoid(params, variadic, rest);
      }
    }
  }

  /** Only a lone unqualified void is written "void" before the closing parenthesis. */
  lemma {:induction false} LoneVoid(params: seq<Type>, variadic: bool, rest: seq<Token>)
    requires FaithfulAll(params) && SpellableAll(params) && params != []
    requires var toks := EmitParams(params, variadic) + ([RParen] + rest);
             |toks| >= 2 && toks[0] == Word(KVoid) && toks[1] == RParen
    ensures params == [VOID] && !variadic
  {
    var t := params[0];
    var root, d := Root(t), Around(t, Nothing);
    var toks := EmitParams(params, variadic) + ([RParen] + rest);
    var tail := ParamsTail(params, variadic);
    EmitIsShow(t, Nothing);
    Assoc(EmitDeclarator(t, []), tail, [RParen] + rest);
    Assoc(BaseType(root), Show(d), tail + ([RParen] + rest));
    VoidFirst(root, Show(d) + (tail + ([RParen] + rest)));
    Rest(Word(KVoid), Show(d) + (tail + ([RParen] + rest)));
    assert toks[1..] == Show(d) + (tail + ([RParen] + rest));
    NothingBeforeParen(d, tail + ([RParen] + rest));
    AroundNothing(t);
    assert tail == [];
    assert params == [t];
  }

  /** What follows the first parameter's text. */
  lemma ParamsTail(params: seq<Type>, variadic: bool) returns (tail: seq<Token>)
    requires params != []
    ensures EmitParams(params, variadic) == EmitDeclarator(params[0], []) + tail
    ensures if |params| == 1 && !variadic then tail == [] else tail != [] && tail[0] == Token.Comma
  {
    var first := EmitDeclarator(params[0], []);
    var others := if |params| == 1 then [] else [Token.Comma] + EmitList(params[1..]);
    var dots := if variadic then [Token.Comma, Ellipsis] else [];
    assert EmitList(params) == first + others;
    Assoc(first, others, dots);
    tail := others + dots;
  }

  lemma VoidFirst(root: Type, more: seq<Token>)
    requires root.Plain? && Starts(BaseType(root) + more, Word(KVoid))
    ensures root == VOID && BaseType(root) == [Word(KVoid)]
  {
    QualifierHead(root.q);
    BaseHead(root.base);
    var words, base := QualifierWords(root.q), BaseWords(root.base);
    Assoc(words, base, more);
    HeadOf(words, base + more);
    HeadOf(base, more);
    assert words == [];
    assert words + (base + more) == base + more && words + base == base;
  }

  lemma QualifierHead(q: Qualifiers)
    ensures QualifierWords(q) == [] ==> q == PLAIN
    ensures QualifierWords(q) != [] ==> StartsWithQualifier(QualifierWords(q))
  {
    QualifierText(q, []);
    assert QualifierWords(q) + [] == QualifierWords(q);
    var a := If(q.isAtomic, KAtomic) + [];
    var r := If(q.isRestrict, KRestrict) + a;
    var v := If(q.isVolatile, KVolatile) + r;
    assert q.isAtomic ==> a[0] == Word(KAtomic);
    assert if q.isRestrict then r[0] == Word(KRestrict) else r == a;
    assert if q.isVolatile then v[0] == Word(KVolatile) else v == r;
    assert if q.isConst then QualifierWords(q)[0] == Word(KConst) else QualifierWords(q) == v;
  }

  lemma BaseHead(b: Base)
    ensures BaseWords(b) != [] && (BaseWords(b)[0] == Word(KVoid) ==> b == Void)
  {
  }

  lemma NothingBeforeParen(d: Declarator, more: seq<Token>)
    requires Starts(Show(d) + more, RParen)
    ensures d == Nothing
  {
    ShowHead(d);
  }

  lemma {:induction false} AroundNothing(t: Type)
    requires Faithful(t) && Around(t, Nothing) == Nothing
    ensures t.Plain?
  {
    match t
    case Plain(_, _) =>
    case Pointer(q, to) => AroundGrows(to, PointerTo(q, Nothing));
    case Array(element, bound) => AroundGrows(element, ArrayOf(Nothing, bound));
    case Function(_, _, _) =>
  }

  lemma {:induction false} AroundGrows(t: Type, d: Declarator)
    requires Faithful(t) && d != Nothing
    ensures Around(t, d) != Nothing
  {
    match t
    case Plain(_, _) =>
    case Pointer(q, to) => AroundGrows(to, PointerTo(q, d));
    case Array(element, bound) => AroundGrows(element, ArrayOf(d, bound));
    case Function(_, _, _) =>
  }

  lemma {:induction false} ListRead(params: seq<Type>, variadic: bool, rest: seq<Token>)
    requires FaithfulAll(params) && SpellableAll(params) && params != []
    ensures ReadList(EmitList(params) + ListEnd(variadic, rest)) == Some((params, variadic, rest))
    decreases TypesSize(params), 5
  {
    var end := ListEnd(variadic, rest);
    var t, others := params[0], params[1..];
    assert params == [t] + others;
    if |params| == 1 {
      assert params == [t];
      assert EmitList(params) == EmitDeclarator(t, []) + [];
      assert EmitList(params) == EmitDeclarator(t, []);
      DeclarationRead(t, Nothing, end);
      LastRead(t, variadic, rest, EmitDeclarator(t, []) + end);
    } else {
      var more := EmitList(others) + end;
      ListText(params, end);
      DeclarationRead(t, Nothing, [Token.Comma] + more);
      ListRead(others, variadic, rest);
      ListStart(others);
      assert more[0] == EmitList(others)[0];
      MoreRead(t, more, EmitDeclarator(t, []) + ([Token.Comma] + more));
    }
  }

  lemma ListText(params: seq<Type>, end: seq<Token>)
    requires |params| > 1
    ensures EmitList(params) + end ==
            EmitDeclarator(params[0], []) + ([Token.Comma] + (EmitList(params[1..]) + end))
  {
    var first, others := EmitDeclarator(params[0], []), EmitList(params[1..]);
    assert EmitList(params) == first + ([Token.Comma] + others);
    Assoc(first, [Token.Comma] + others, end);
    Assoc([Token.Comma], others, end);
  }

  lemma LastRead(t: Type, variadic: bool, rest: seq<Token>, toks: seq<Token>)
    requires ReadDeclaration(toks) == Some(((None, t), ListEnd(variadic, rest)))
    ensures ReadList(toks) == Some(([t], variadic, rest))
  {
    ListEndRead(variadic, rest);
  }

  lemma ListStart(params: seq<Type>)
    requires FaithfulAll(params) && params != []
    ensures StartsWithWord(EmitList(params))
  {
    EmitStart(params[0]);
  }

  /** A parameter followed by a comma and by something other than an ellipsis. */
  lemma MoreRead(t: Type, more: seq<Token>, toks: seq<Token>)
    requires ReadDeclaration(toks) == Some(((None, t), [Token.Comma] + more))
    requires StartsWithWord(more)
    ensures ReadList(toks) ==
            if ReadList(more).None? then None
            else Some(([t] + ReadList(more).value.0, ReadList(more).value.1, ReadList(more).value.2))
  {
    Rest(Token.Comma, more);
  }

  function ListEnd(variadic: bool, rest: seq<Token>): seq<Token> {
    (if variadic then [Token.Comma, Ellipsis] else []) + ([RParen] + rest)
  }

  lemma ListEndRead(variadic: bool, rest: seq<Token>)
    ensures var end := ListEnd(variadic, rest);
            Ends(end) && if variadic then |end| >= 3 && end[..3] == [Token.Comma, Ellipsis, RParen] && end[3..] == rest
                         else end[0] == RParen && end[1..] == rest
  {
    var end := ListEnd(variadic, rest);
    if variadic {
      assert end == [Token.Comma, Ellipsis, RParen] + rest;
    } else {
      assert end == [RParen] + rest;
    }
  }

  /** A declaration is read back as the name and the type it was written for. */
  lemma {:induction false} DeclarationRead(t: Type, d: Declarator, rest: seq<Token>)
    requires Faithful(t) && Spellable(t) && Ends(rest)
    requires d == Nothing || d.Identifier?
    ensures ReadDeclaration(EmitDeclarator(t, Show(d)) + rest) == Some((Declares(d, t), rest))
    decreases TypeSize(t), 4
  {
    var shown := Around(t, d);
    var root := Root(t);
    EmitIsShow(t, d);
    AroundDeclares(t, d);
    AroundWellSpelled(t, d);
    AroundSize(t, d);
    var tail := Show(shown) + rest;
    ShowHead(shown);
    BaseRead(root.base, tail);
    QualifiersRead(root.q, BaseWords(root.base) + tail);
    Assoc(BaseType(root), Show(shown), rest);
    Assoc(QualifierWords(root.q), BaseWords(root.base), tail);
    DeclaratorRead(shown, rest);
  }

  // ----- whole declarations and type names -----

  /** What the text of a whole declaration declares. */
  function Read(toks: seq<Token>): Option<(Option<string>, Type)> {
    var r := ReadDeclaration(toks);
    if r.Some? && r.value.1 == [] then Some(r.value.0) else None
  }

  /** The emitted declaration of x declares x with the type that t spells, for every t. */
  lemma DeclarationSpells(t: Type, x: string)
    requires Spellable(t)
    ensures Read(EmitDeclarator(t, [Name(x)])) == Some((Some(x), Spelled(t)))
  {
    SpelledIsFaithful(t);
    SameText(t, [Name(x)]);
    DeclarationRead(Spelled(t), Identifier(x), []);
    assert EmitDeclarator(t, [Name(x)]) + [] == EmitDeclarator(t, [Name(x)]);
  }

  /** Round trip: the text gives back x and t exactly when t's functions return plain types
      and no parameter list is a lone void. */
  lemma DeclarationRoundTrip(t: Type, x: string)
    requires Spellable(t)
    ensures Read(EmitDeclarator(t, [Name(x)])) == Some((Some(x), t)) <==> Faithful(t)
  {
    DeclarationSpells(t, x);
    SpelledIsFaithful(t);
  }

  // ----- type names: the marker is removed again -----

  predicate NoNames(text: seq<Token>) {
    forall i :: 0 <= i < |text| ==> !text[i].Name?
  }

  lemma MarkerRemoved(before: seq<Token>, after: seq<Token>)
    requires NoNames(before)
    ensures WithoutMarker(before + [Name(MARKER)] + after) == before + after
  {
    var text := before + [Name(MARKER)] + after;
    if before == [] {
      assert text[1..] == after;
    } else {
      assert text[1..] == before[1..] + [Name(MARKER)] + after;
      MarkerRemoved(before[1..], after);
      assert before + after == [before[0]] + (before[1..] + after);
    }
  }

  lemma NoNamesJoin(a: seq<Token>, b: seq<Token>)
    requires NoNames(a) && NoNames(b)
    ensures NoNames(a + b)
  {
  }

  lemma NoNamesInWords(t: Type)
    requires t.Plain?
    ensures NoNames(BaseType(t))
  {
    NoNamesInQualifiers(t.q);
    assert NoNames(BaseWords(t.base));
    NoNamesJoin(QualifierWords(t.q), BaseWords(t.base));
  }

  lemma NoNamesInQualifiers(q: Qualifiers)
    ensures NoNames(QualifierWords(q))
  {
    var c, v, r := If(q.isConst, KConst), If(q.isVolatile, KVolatile), If(q.isRestrict, KRestrict);
    NoNamesJoin(c, v);
    NoNamesJoin(c + v, r);
    NoNamesJoin(c + v + r, If(q.isAtomic, KAtomic));
  }

  /** The text around the name inside a declarator. */
  lemma {:induction false} SplitShow(d: Declarator) returns (before: seq<Token>, after: seq<Token>)
    requires HoldsMarker(d)
    ensures Show(d) == before + [Name(MARKER)] + after
    ensures Show(Unnamed(d)) == before + after
    ensures NoNames(before)
    decreases d, 0
  {
    match d
    case Identifier(_) => before, after := [], [];
    case PointerTo(q, inner) =>
      before, after := SplitShow(inner);
      before := PrependPointer(q, inner, before, after);
    case ArrayOf(inner, bound) =>
      before, after := SplitGrouped(inner);
      after := AppendSuffix(inner, before, after, [LBracket], BoundText(bound), [RBracket]);
    case FunctionOf(inner, params, variadic) =>
      before, after := SplitGrouped(inner);
      after := AppendSuffix(inner, before, after, [LParen], EmitParams(params, variadic), [RParen]);
  }

  lemma PrependPointer(q: Qualifiers, inner: Declarator, before: seq<Token>, after: seq<Token>)
      returns (longer: seq<Token>)
    requires Show(inner) == before + [Name(MARKER)] + after && Show(Unnamed(inner)) == before + after
    requires NoNames(before)
    ensures Show(PointerTo(q, inner)) == longer + [Name(MARKER)] + after
    ensures Show(PointerTo(q, Unnamed(inner))) == longer + after
    ensures NoNames(longer)
  {
    var prefix := [Star] + QualifierWords(q);
    longer := prefix + before;
    NoNamesInQualifiers(q);
    NoNamesJoin([Star], QualifierWords(q));
    NoNamesJoin(prefix, before);
    Assoc(prefix, before, [Name(MARKER)]);
    Assoc(prefix, before + [Name(MARKER)], after);
    Assoc(prefix, before, after);
  }

  lemma AppendSuffix(d: Declarator, before: seq<Token>, after: seq<Token>,
                     opening: seq<Token>, content: seq<Token>, closing: seq<Token>) returns (longer: seq<Token>)
    requires Grouped(d) == before + [Name(MARKER)] + after && Grouped(Unnamed(d)) == before + after
    ensures Grouped(d) + opening + content + closing == before + [Name(MARKER)] + longer
    ensures Grouped(Unnamed(d)) + opening + content + closing == before + longer
  {
    longer := after + opening + content + closing;
    Assoc4(before + [Name(MARKER)], after, opening, content, closing);
    Assoc4(before, after, opening, content, closing);
    Assoc(after, opening, content + closing);
    Assoc(after + opening, content, closing);
    Assoc(before + [Name(MARKER)] + after + opening, content, closing);
  }

  lemma {:induction false} SplitGrouped(d: Declarator) returns (before: seq<Token>, after: seq<Token>)
    requires HoldsMarker(d)
    ensures Grouped(d) == before + [Name(MARKER)] + after
    ensures Grouped(Unnamed(d)) == before + after
    ensures NoNames(before)
    decreases d, 1
  {
    before, after := SplitShow(d);
    if d.PointerTo? {
      before, after := [LParen] + before, after + [RParen];
    }
  }

  predicate HoldsMarker(d: Declarator) {
    match d
    case Identifier(id) => id == MARKER
    case Nothing => false
    case PointerTo(_, inner) => HoldsMarker(inner)
    case ArrayOf(inner, _) => HoldsMarker(inner)
    case FunctionOf(inner, _, _) => HoldsMarker(inner)
  }

  /** The same declarator with the name left out. */
  function Unnamed(d: Declarator): Declarator {
    match d
    case Identifier(_) => Nothing
    case Nothing => Nothing
    case PointerTo(q, inner) => PointerTo(q, Unnamed(inner))
    case ArrayOf(inner, bound) => ArrayOf(Unnamed(inner), bound)
    case FunctionOf(inner, params, variadic) => FunctionOf(Unnamed(inner), params, variadic)
  }

  lemma {:induction false} AroundMarker(t: Type, d: Declarator)
    requires Faithful(t) && HoldsMarker(d)
    ensures HoldsMarker(Around(t, d)) && Unnamed(Around(t, d)) == Around(t, Unnamed(d))
  {
    match t
    case Plain(_, _) =>
    case Pointer(q, to) => AroundMarker(to, PointerTo(q, d));
    case Array(element, bound) => AroundMarker(element, ArrayOf(d, bound));
    case Function(_, _, _) =>
  }

  /** The type name that `emitCType` makes of t spells what the declaration spells. */
  lemma TypeNameSpells(t: Type)
    requires Spellable(t)
    ensures Read(EmitType(t)) == Some((None, Spelled(t)))
  {
    var s := Spelled(t);
    SpelledIsFaithful(t);
    SameText(t, [Name(MARKER)]);
    var named, bare := Around(s, Identifier(MARKER)), Around(s, Nothing);
    EmitIsShow(s, Identifier(MARKER));
    EmitIsShow(s, Nothing);
    AroundMarker(s, Identifier(MARKER));
    var before, after := SplitShow(named);
    var base := BaseType(Root(s));
    NoNamesInWords(Root(s));
    NoNamesJoin(base, before);
    Assoc(base, before, [Name(MARKER)] + after);
    Assoc(before, [Name(MARKER)], after);
    Assoc(base + before, [Name(MARKER)], after);
    MarkerRemoved(base + before, after);
    Assoc(base, before, after);
    assert EmitType(t) == base + Show(bare);
    DeclarationRead(s, Nothing, []);
    assert EmitDeclarator(s, []) + [] == EmitDeclarator(s, []);
  }
}
