/** After any definitions in any order, by-value containment is well founded, and the flags and
    searches answer for what a record holds at any depth. */
module RecordTheorems {
  import opened Options
  import opened Types
  import opened Conversions
  import opened ConstSafety
  import opened Records
  import AggregateInit

  // ----- histories -----

  datatype Event = Record(d: Definition) | Enum(tag: string)

  function Initial(tags: set<RecordId>): Table {
    Table(map id | id in tags :: Info([], false, false, 0), {}, 0)
  }

  function After(m: DataModel, tb: Table, events: seq<Event>): Table
    requires m.Valid()
    decreases |events|
  {
    if events == [] then tb
    else
      match events[0]
      case Record(d) => After(m, Defined(m, tb, d), events[1..])
      case Enum(tag) => After(m, tb.(enums := tb.enums + {tag}), events[1..])
  }

  /** A member as the table keeps it. */
  ghost predicate MemberGrounded(tb: Table, isUnion: bool, f: Field, rank: nat) {
    && (f.flexible ==> !isUnion && f.name != "" && f.ty.Array? && IsCompleteObject(tb, f.ty.element)
                       && !ContainsFlexible(tb, f.ty.element))
    && (!f.flexible ==> IsCompleteObject(tb, f.ty) && (isUnion || !ContainsFlexible(tb, f.ty)))
    && (RecordIn(f.ty).Some? ==> Completed(tb, RecordIn(f.ty).value) && tb.records[RecordIn(f.ty).value].rank < rank)
  }

  ghost predicate InfoGrounded(tb: Table, isUnion: bool, info: Info) {
    && info.rank < tb.completed
    && (forall k :: 0 <= k < |info.fields| ==> MemberGrounded(tb, isUnion, info.fields[k], info.rank))
    && (info.hasFlexible <==>
          exists k :: 0 <= k < |info.fields| && (info.fields[k].flexible || (isUnion && ContainsFlexible(tb, info.fields[k].ty))))
    && (forall j, k :: 0 <= j < k < |info.fields| && info.fields[j].name == info.fields[k].name ==> info.fields[k].name == "")
    && (forall k :: 0 <= k < |info.fields| - 1 ==> !info.fields[k].flexible)
  }

  /** By-value members of a completed record are records completed before it. */
  ghost predicate Grounded(tb: Table) {
    forall id :: Completed(tb, id) ==> InfoGrounded(tb, id.isUnion, tb.records[id])
  }

  lemma {:induction false} CompleteHolds(tb: Table, t: Type)
    requires IsCompleteObject(tb, t)
    ensures RecordIn(t).Some? ==> Completed(tb, RecordIn(t).value)
  {
    if t.Array? { CompleteHolds(tb, t.element); }
  }

  /** What is asked of a type depends on the record in it alone. */
  lemma {:induction false} SameAnswers(tb: Table, later: Table, t: Type)
    requires tb.enums <= later.enums
    requires RecordIn(t).Some? ==>
               Completed(tb, RecordIn(t).value) && Completed(later, RecordIn(t).value)
               && tb.records[RecordIn(t).value] == later.records[RecordIn(t).value]
    ensures ContainsFlexible(tb, t) == ContainsFlexible(later, t)
    ensures IsCompleteObject(tb, t) ==> IsCompleteObject(later, t)
  {
    if t.Array? { SameAnswers(tb, later, t.element); }
  }

  /** Completed records stay as they are. */
  predicate Extends(tb: Table, later: Table) {
    && tb.enums <= later.enums && tb.completed <= later.completed
    && forall id :: id in tb.records && tb.records[id].complete ==> id in later.records && later.records[id] == tb.records[id]
  }

  lemma MemberStays(tb: Table, later: Table, isUnion: bool, f: Field, rank: nat)
    requires Extends(tb, later) && MemberGrounded(tb, isUnion, f, rank)
    ensures MemberGrounded(later, isUnion, f, rank)
    ensures ContainsFlexible(later, f.ty) == ContainsFlexible(tb, f.ty)
  {
    SameAnswers(tb, later, f.ty);
    if f.ty.Array? { SameAnswers(tb, later, f.ty.element); }
  }

  lemma InfoStays(tb: Table, later: Table, isUnion: bool, info: Info)
    requires Extends(tb, later) && InfoGrounded(tb, isUnion, info)
    ensures InfoGrounded(later, isUnion, info)
  {
    forall k | 0 <= k < |info.fields|
      ensures MemberGrounded(later, isUnion, info.fields[k], info.rank)
      ensures ContainsFlexible(later, info.fields[k].ty) == ContainsFlexible(tb, info.fields[k].ty)
    {
      MemberStays(tb, later, isUnion, info.fields[k], info.rank);
    }
  }

  lemma AcceptedMember(m: DataModel, tb: Table, d: Definition, k: nat)
    requires m.Valid() && Grounded(tb) && Accepted(m, tb, d) && k < |d.fields|
    ensures MemberGrounded(tb, d.id.isUnion, Kept(d.fields[k]), tb.completed)
    ensures !Kept(d.fields[k]).flexible && d.fields[k].bitWidth.Some? ==> !ContainsFlexible(tb, d.fields[k].ty)
  {
    var f := d.fields[k];
    assert MemberOk(m, tb, d.id.isUnion, f);
    CompleteHolds(tb, f.ty);
    var id := RecordIn(f.ty);
    if id.Some? { assert InfoGrounded(tb, id.value.isUnion, tb.records[id.value]); }
  }

  lemma NewInfoGrounded(m: DataModel, tb: Table, d: Definition)
    requires m.Valid() && Grounded(tb) && Accepted(m, tb, d)
    ensures InfoGrounded(tb.(completed := tb.completed + 1), d.id.isUnion,
                         Info(AllKept(d.fields), true, GivesFlexible(tb, d), tb.completed))
  {
    var next := tb.(completed := tb.completed + 1);
    var kept := AllKept(d.fields);
    forall k | 0 <= k < |kept|
      ensures MemberGrounded(next, d.id.isUnion, kept[k], tb.completed)
      ensures kept[k].flexible == d.fields[k].flexible
      ensures d.id.isUnion ==> ContainsFlexible(next, kept[k].ty) ==
                               (d.fields[k].bitWidth.None? && ContainsFlexible(tb, d.fields[k].ty))
    {
      AcceptedMember(m, tb, d, k);
      MemberStays(tb, next, d.id.isUnion, kept[k], tb.completed);
    }
  }

  lemma DefinedGrounded(m: DataModel, tb: Table, d: Definition)
    requires m.Valid() && Grounded(tb)
    ensures Grounded(Defined(m, tb, d)) && Extends(tb, Defined(m, tb, d))
  {
    var later := Defined(m, tb, d);
    if later != tb {
      NewInfoGrounded(m, tb, d);
      var next := tb.(completed := tb.completed + 1);
      assert Extends(next, later);
      forall id | Completed(later, id) ensures InfoGrounded(later, id.isUnion, later.records[id]) {
        if id == d.id {
          InfoStays(next, later, id.isUnion, later.records[id]);
        } else {
          assert Completed(tb, id);
          InfoStays(tb, later, id.isUnion, tb.records[id]);
        }
      }
    }
  }

  lemma {:induction false} HistoryGrounded(m: DataModel, tb: Table, events: seq<Event>)
    requires m.Valid() && Grounded(tb)
    ensures Grounded(After(m, tb, events))
    decreases |events|
  {
    if events != [] {
      match events[0]
      case Record(d) =>
        DefinedGrounded(m, tb, d);
        HistoryGrounded(m, Defined(m, tb, d), events[1..]);
      case Enum(tag) =>
        var later := tb.(enums := tb.enums + {tag});
        forall id | Completed(later, id) ensures InfoGrounded(later, id.isUnion, later.records[id]) {
          assert Completed(tb, id);
          InfoStays(tb, later, id.isUnion, tb.records[id]);
        }
        HistoryGrounded(m, later, events[1..]);
    }
  }

  /** Every table a program can build is grounded. */
  lemma EveryTableGrounded(m: DataModel, tags: set<RecordId>, events: seq<Event>)
    requires m.Valid()
    ensures Grounded(After(m, Initial(tags), events))
  {
    HistoryGrounded(m, Initial(tags), events);
  }

  // ----- what an object holds -----

  datatype Step = Index | Select(k: nat)

  /** The type of the part of a t that a path leads to. */
  function PartType(tb: Table, t: Type, path: seq<Step>): Option<Type>
    decreases |path|
  {
    if path == [] then Some(t)
    else if path[0].Index? then if t.Array? then PartType(tb, t.element, path[1..]) else None
    else
      var id := RecordNamed(t);
      if id.Some? && Completed(tb, id.value) && path[0].k < |tb.records[id.value].fields|
      then PartType(tb, tb.records[id.value].fields[path[0].k].ty, path[1..])
      else None
  }

  /** How deep a type can nest. */
  function Depth(tb: Table, t: Type): nat {
    var id := RecordIn(t);
    if id.Some? && Completed(tb, id.value) then tb.records[id.value].rank + 1 else 0
  }

  lemma MemberShallower(tb: Table, id: RecordId, k: nat)
    requires Grounded(tb) && Completed(tb, id) && k < |tb.records[id].fields|
    ensures Depth(tb, tb.records[id].fields[k].ty) <= tb.records[id].rank
  {
    assert InfoGrounded(tb, id.isUnion, tb.records[id]);
    assert MemberGrounded(tb, id.isUnion, tb.records[id].fields[k], tb.records[id].rank);
  }

  lemma {:induction false} PartsShallower(tb: Table, t: Type, path: seq<Step>)
    requires Grounded(tb) && PartType(tb, t, path).Some?
    ensures Depth(tb, PartType(tb, t, path).value) <= Depth(tb, t)
    ensures !t.Array? && path != [] ==> Depth(tb, PartType(tb, t, path).value) < Depth(tb, t)
    decreases |path|
  {
    if path != [] {
      if path[0].Index? {
        PartsShallower(tb, t.element, path[1..]);
      } else {
        var id := RecordNamed(t).value;
        MemberShallower(tb, id, path[0].k);
        PartsShallower(tb, tb.records[id].fields[path[0].k].ty, path[1..]);
      }
    }
  }

  /** No record holds itself by value. */
  lemma NothingHoldsItself(tb: Table, t: Type, path: seq<Step>, part: Type)
    requires Grounded(tb) && RecordNamed(t).Some? && path != [] && PartType(tb, t, path) == Some(part)
    ensures RecordIn(part) != RecordNamed(t)
  {
    PartsShallower(tb, t, path);
  }

  // ----- constant parts -----

  predicate HasConst(tb: Table, t: Type)
    requires Grounded(tb)
    decreases Depth(tb, t), 1, t
  {
    || TopQualifiers(t).isConst
    || (if t.Array? then HasConst(tb, t.element)
        else
          var id := RecordNamed(t);
          && id.Some? && Completed(tb, id.value)
          && exists k :: 0 <= k < |tb.records[id.value].fields| && ConstMember(tb, id.value, k))
  }

  predicate ConstMember(tb: Table, id: RecordId, k: nat)
    requires Grounded(tb) && Completed(tb, id) && k < |tb.records[id].fields|
    decreases tb.records[id].rank + 1, 0
  {
    MemberShallower(tb, id, k);
    HasConst(tb, tb.records[id].fields[k].ty)
  }

  /** A path to a constant part, when the search finds one. */
  lemma {:induction false} ConstPath(tb: Table, t: Type) returns (path: seq<Step>)
    requires Grounded(tb) && HasConst(tb, t)
    ensures PartType(tb, t, path).Some? && TopQualifiers(PartType(tb, t, path).value).isConst
    decreases Depth(tb, t), t
  {
    if TopQualifiers(t).isConst { return []; }
    var step, inner, rest;
    if t.Array? {
      step, inner := Index, t.element;
      rest := ConstPath(tb, inner);
    } else {
      var id := RecordNamed(t).value;
      var k :| 0 <= k < |tb.records[id].fields| && ConstMember(tb, id, k);
      MemberShallower(tb, id, k);
      step, inner := Select(k), tb.records[id].fields[k].ty;
      rest := ConstPath(tb, inner);
    }
    path := [step] + rest;
    assert path[1..] == rest;
  }

  lemma {:induction false} ConstFound(tb: Table, t: Type, path: seq<Step>)
    requires Grounded(tb) && PartType(tb, t, path).Some? && TopQualifiers(PartType(tb, t, path).value).isConst
    ensures HasConst(tb, t)
    decreases |path|
  {
    if path != [] {
      if path[0].Index? {
        ConstFound(tb, t.element, path[1..]);
      } else {
        var id := RecordNamed(t).value;
        ConstFound(tb, tb.records[id].fields[path[0].k].ty, path[1..]);
        assert ConstMember(tb, id, path[0].k);
      }
    }
  }

  ghost predicate LeadsToConst(tb: Table, t: Type, path: seq<Step>) {
    PartType(tb, t, path).Some? && TopQualifiers(PartType(tb, t, path).value).isConst
  }

  /** An aggregate is held unmodifiable exactly when some part of it, at any depth, is constant. */
  lemma HasConstIff(tb: Table, t: Type)
    requires Grounded(tb)
    ensures HasConst(tb, t) <==> exists path :: LeadsToConst(tb, t, path)
  {
    if HasConst(tb, t) {
      var path := ConstPath(tb, t);
      assert LeadsToConst(tb, t, path);
    }
    forall path | LeadsToConst(tb, t, path) ensures HasConst(tb, t) {
      ConstFound(tb, t, path);
    }
  }

  predicate IsModifiableObject(tb: Table, t: Type)
    requires Grounded(tb)
  {
    if t.Array? || TopQualifiers(t).isConst then false
    else if RecordNamed(t).Some? then !HasConst(tb, t)
    else !IsVoid(t) && !t.Function?
  }

  /** A structure or union may be assigned exactly when nothing it holds is constant. */
  lemma ModifiableRecordIff(tb: Table, t: Type)
    requires Grounded(tb) && RecordNamed(t).Some?
    ensures IsModifiableObject(tb, t) <==> !exists path :: LeadsToConst(tb, t, path)
  {
    HasConstIff(tb, t);
  }

  // ----- flexible members -----

  /** The last step of the path selects a flexible member. */
  ghost predicate LeadsToFlexible(tb: Table, t: Type, path: seq<Step>)
    decreases |path|
  {
    path != [] &&
    if path[0].Index? then t.Array? && LeadsToFlexible(tb, t.element, path[1..])
    else
      var id := RecordNamed(t);
      && id.Some? && Completed(tb, id.value) && path[0].k < |tb.records[id.value].fields|
      && var f := tb.records[id.value].fields[path[0].k];
         if |path| == 1 then f.flexible else LeadsToFlexible(tb, f.ty, path[1..])
  }

  lemma {:induction false} FlexiblePath(tb: Table, t: Type) returns (path: seq<Step>)
    requires Grounded(tb) && ContainsFlexible(tb, t)
    ensures LeadsToFlexible(tb, t, path)
    decreases Depth(tb, t), t
  {
    if t.Array? {
      var rest := FlexiblePath(tb, t.element);
      path := [Index] + rest;
      assert path[1..] == rest;
    } else {
      var id := RecordNamed(t).value;
      var info := tb.records[id];
      assert InfoGrounded(tb, id.isUnion, info);
      var k :| 0 <= k < |info.fields| && (info.fields[k].flexible || (id.isUnion && ContainsFlexible(tb, info.fields[k].ty)));
      if info.fields[k].flexible {
        path := [Select(k)];
      } else {
        MemberShallower(tb, id, k);
        var rest := FlexiblePath(tb, info.fields[k].ty);
        path := [Select(k)] + rest;
        assert path[1..] == rest;
      }
    }
  }

  lemma {:induction false} FlexibleFound(tb: Table, t: Type, path: seq<Step>)
    requires Grounded(tb) && LeadsToFlexible(tb, t, path)
    ensures ContainsFlexible(tb, t)
    decreases |path|
  {
    if path[0].Index? {
      FlexibleFound(tb, t.element, path[1..]);
    } else {
      var id, k := RecordNamed(t).value, path[0].k;
      var info := tb.records[id];
      assert InfoGrounded(tb, id.isUnion, info);
      assert MemberGrounded(tb, id.isUnion, info.fields[k], info.rank);
      if |path| > 1 {
        FlexibleFound(tb, info.fields[k].ty, path[1..]);
      }
    }
  }

  ghost predicate HoldsFlexible(tb: Table, t: Type) {
    exists path :: LeadsToFlexible(tb, t, path)
  }

  /** The flag kept per record answers for flexible members at any depth. */
  lemma ContainsFlexibleIff(tb: Table, t: Type)
    requires Grounded(tb)
    ensures ContainsFlexible(tb, t) <==> HoldsFlexible(tb, t)
  {
    if ContainsFlexible(tb, t) {
      var path := FlexiblePath(tb, t);
    }
    if HoldsFlexible(tb, t) {
      var path :| LeadsToFlexible(tb, t, path);
      FlexibleFound(tb, t, path);
    }
  }

  /** On the way to a flexible member, every structure is the one that declares it: no array
      element and no structure member contains a flexible member. */
  lemma {:induction false} OnlyUnionsOnTheWay(tb: Table, t: Type, path: seq<Step>)
    requires Grounded(tb) && LeadsToFlexible(tb, t, path) && IsCompleteObject(tb, t)
    ensures path[0].Select? && RecordNamed(t).Some?
    ensures |path| > 1 ==> RecordNamed(t).value.isUnion
    decreases |path|
  {
    if path[0].Index? {
      FlexibleFound(tb, t.element, path[1..]);
    } else if |path| > 1 {
      var id, k := RecordNamed(t).value, path[0].k;
      var info := tb.records[id];
      assert InfoGrounded(tb, id.isUnion, info);
      assert MemberGrounded(tb, id.isUnion, info.fields[k], info.rank);
      FlexibleFound(tb, info.fields[k].ty, path[1..]);
    }
  }

  // ----- types as trees -----

  /** The type with its structure tags resolved; a union counts as one scalar. */
  function Tree(tb: Table, t: Type): AggregateInit.Ty
    requires Grounded(tb)
    decreases Depth(tb, t), 1, t
  {
    if t.Array? then AggregateInit.ArrayOf(Tree(tb, t.element), if t.bound.Some? then t.bound.value else 0)
    else
      var id := RecordNamed(t);
      if id.Some? && !id.value.isUnion && Completed(tb, id.value) then
        AggregateInit.Struct(seq(|tb.records[id.value].fields|,
          k requires 0 <= k < |tb.records[id.value].fields| => TreeField(tb, id.value, k)))
      else AggregateInit.Scalar
  }

  function TreeField(tb: Table, id: RecordId, k: nat): AggregateInit.Field
    requires Grounded(tb) && Completed(tb, id) && k < |tb.records[id].fields|
    decreases tb.records[id].rank + 1, 0
  {
    MemberShallower(tb, id, k);
    var f := tb.records[id].fields[k];
    AggregateInit.Field(f.name, Tree(tb, f.ty), f.flexible)
  }

  /** The initializer theorems apply to every type of every table. */
  lemma {:induction false} TreesWellFormed(tb: Table, t: Type)
    requires Grounded(tb)
    ensures AggregateInit.WellFormed(Tree(tb, t))
    decreases Depth(tb, t), t
  {
    if t.Array? {
      TreesWellFormed(tb, t.element);
    } else {
      var id := RecordNamed(t);
      if id.Some? && !id.value.isUnion && Completed(tb, id.value) {
        var info := tb.records[id.value];
        assert InfoGrounded(tb, false, info);
        forall k | 0 <= k < |info.fields| ensures AggregateInit.WellFormed(Tree(tb, info.fields[k].ty)) {
          MemberShallower(tb, id.value, k);
          TreesWellFormed(tb, info.fields[k].ty);
        }
      }
    }
  }
}
