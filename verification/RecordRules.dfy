/** When a definition is accepted, told by what its members hold: every value of a bit-field's
    width, a layout of their own, and no flexible member where none can lie. */
module RecordRules {
  import opened Options
  import opened Types
  import opened Constants
  import opened Conversions
  import opened ConstSafety
  import opened Records
  import opened RecordTheorems

  // ----- bit-fields -----

  predicate Unsigned(m: DataModel, b: Base) {
    match b
    case Boolean => true
    case Character(sign) => sign.UnsignedChar? || (sign.PlainChar? && !m.plainSigned)
    case Integer(_, isUnsigned) => isUnsigned
    case _ => false
  }

  /** Every number of w bits, with the sign of the type, is a value of the type. */
  ghost predicate WidthFits(m: DataModel, b: Base, w: nat)
    requires m.Valid()
  {
    w == 0 || forall v :: InWidth(w, Unsigned(m, b), v) ==> Holds(m, b, v)
  }

  /** The limit on a width is the largest one that fits. */
  lemma LimitIsExact(m: DataModel, t: Type, w: nat)
    requires m.Valid() && t.Plain? && IsInteger(t.base)
    ensures BitLimit(m, t).Some? && (w <= BitLimit(m, t).value <==> WidthFits(m, t.base, w))
  {
    if w > 0 {
      var limit := BitLimit(m, t).value;
      RangesNest(w, limit, Unsigned(m, t.base));
      assert Pow2(1) == 2 && Pow2(0) == 1;
      assert forall v :: InWidth(limit, Unsigned(m, t.base), v) <==> Holds(m, t.base, v);
    }
  }

  lemma RangesNest(w: nat, limit: nat, isUnsigned: bool)
    requires w > 0 && limit > 0
    ensures w <= limit <==> forall v :: InWidth(w, isUnsigned, v) ==> InWidth(limit, isUnsigned, v)
  {
    if w <= limit {
      Pow2Monotone(w, limit);
      Pow2Monotone(w - 1, limit - 1);
    } else {
      Pow2Monotone(limit, w);
      Pow2Monotone(limit - 1, w - 1);
      var top := if isUnsigned then UnsignedMax(w) else SignedMax(w);
      assert InWidth(w, isUnsigned, top) && !InWidth(limit, isUnsigned, top);
    }
  }

  /** A bit-field holds only values its type holds. */
  ghost predicate BitFieldFits(m: DataModel, tb: Table, f: Field)
    requires m.Valid() && f.bitWidth.Some?
  {
    && f.ty.Plain? && IsInteger(f.ty.base) && !f.ty.q.isAtomic
    && (f.ty.base.Enumeration? ==> f.ty.base.tag in tb.enums)
    && WidthFits(m, f.ty.base, f.bitWidth.value)
    && (f.name != "" ==> f.bitWidth.value > 0)
  }

  lemma BitFieldIff(m: DataModel, tb: Table, f: Field)
    requires m.Valid() && f.bitWidth.Some?
    ensures ValidBitField(m, tb, f) <==> BitFieldFits(m, tb, f)
  {
    if f.ty.Plain? && IsInteger(f.ty.base) {
      LimitIsExact(m, f.ty, f.bitWidth.value);
    }
  }

  ghost predicate BitFieldsFit(m: DataModel, tb: Table)
    requires m.Valid()
  {
    forall id, k :: Completed(tb, id) && 0 <= k < |tb.records[id].fields| && tb.records[id].fields[k].bitWidth.Some?
      ==> BitFieldFits(m, tb, tb.records[id].fields[k])
  }

  lemma {:induction false} HistoryBitFields(m: DataModel, tb: Table, events: seq<Event>)
    requires m.Valid() && BitFieldsFit(m, tb)
    ensures BitFieldsFit(m, After(m, tb, events))
    decreases |events|
  {
    if events != [] {
      match events[0]
      case Record(d) =>
        var later := Defined(m, tb, d);
        if later != tb {
          forall k | 0 <= k < |d.fields| && Kept(d.fields[k]).bitWidth.Some?
            ensures BitFieldFits(m, tb, Kept(d.fields[k]))
          {
            assert MemberOk(m, tb, d.id.isUnion, d.fields[k]);
            BitFieldIff(m, tb, d.fields[k]);
          }
          assert later.records[d.id].fields == AllKept(d.fields);
        }
        HistoryBitFields(m, later, events[1..]);
      case Enum(tag) => HistoryBitFields(m, tb.(enums := tb.enums + {tag}), events[1..]);
    }
  }

  /** After any history, what fits the width of a kept bit-field is a value of its type. */
  lemma EveryBitFieldFits(m: DataModel, tags: set<RecordId>, events: seq<Event>)
    requires m.Valid()
    ensures BitFieldsFit(m, After(m, Initial(tags), events))
  {
    HistoryBitFields(m, Initial(tags), events);
  }

  // ----- layouts -----

  /** The type of the elements k dimensions in. */
  function Inner(t: Type, k: nat): Option<Type> {
    if k == 0 then Some(t) else if t.Array? then Inner(t.element, k - 1) else None
  }

  /** What this dimension of the type needs by itself. */
  ghost predicate DimensionOk(tb: Table, t: Type) {
    && !t.Function? && !(t.Plain? && t.base.Void?)
    && (t.Array? ==> t.bound.Some? && !HoldsFlexible(tb, t.element))
    && (RecordNamed(t).Some? ==> Completed(tb, RecordNamed(t).value))
    && (t.Plain? && t.base.Enumeration? ==> t.base.tag in tb.enums)
  }

  ghost predicate HasLayout(tb: Table, t: Type) {
    forall k: nat :: Inner(t, k).Some? ==> DimensionOk(tb, Inner(t, k).value)
  }

  /** A type is complete exactly when its size is settled in every dimension. */
  lemma {:induction false} CompleteIff(tb: Table, t: Type)
    requires Grounded(tb)
    ensures IsCompleteObject(tb, t) <==> HasLayout(tb, t)
  {
    assert Inner(t, 0) == Some(t);
    if t.Array? {
      CompleteIff(tb, t.element);
      ContainsFlexibleIff(tb, t.element);
      assert forall k: nat :: Inner(t, k + 1) == Inner(t.element, k);
      if HasLayout(tb, t) {
        forall k: nat | Inner(t.element, k).Some? ensures DimensionOk(tb, Inner(t.element, k).value) {
          assert Inner(t, k + 1).Some?;
        }
      }
      if DimensionOk(tb, t) && HasLayout(tb, t.element) {
        forall k: nat | Inner(t, k).Some? ensures DimensionOk(tb, Inner(t, k).value) {
          if k > 0 { assert Inner(t, k - 1 + 1) == Inner(t.element, k - 1); }
        }
      }
    } else {
      assert forall k: nat :: k > 0 ==> Inner(t, k) == None;
      assert HasLayout(tb, t) <==> DimensionOk(tb, t);
    }
  }

  // ----- definitions -----

  ghost predicate MemberStands(m: DataModel, tb: Table, d: Definition, k: nat)
    requires m.Valid() && k < |d.fields|
  {
    var f := d.fields[k];
    if f.flexible then
      && !d.id.isUnion && f.name != "" && k == |d.fields| - 1
      && (exists j :: 0 <= j < k && d.fields[j].name != "")
      && HasLayout(tb, f.ty) && !HoldsFlexible(tb, f.ty)
    else if f.bitWidth.Some? then BitFieldFits(m, tb, f)
    else HasLayout(tb, f.ty) && (d.id.isUnion || !HoldsFlexible(tb, f.ty))
  }

  lemma {:induction false} SomeNamed(fields: seq<Field>)
    ensures NamedCount(fields) > 0 <==> exists k :: 0 <= k < |fields| && fields[k].name != ""
  {
    if fields != [] {
      SomeNamed(fields[..|fields| - 1]);
    }
  }

  lemma MemberIff(m: DataModel, tb: Table, d: Definition, k: nat)
    requires m.Valid() && Grounded(tb) && k < |d.fields|
    ensures MemberStands(m, tb, d, k) <==>
            && MemberOk(m, tb, d.id.isUnion, d.fields[k])
            && (d.fields[k].flexible ==> k == |d.fields| - 1 && NamedCount(d.fields) >= 2)
  {
    var f := d.fields[k];
    CompleteIff(tb, f.ty);
    ContainsFlexibleIff(tb, f.ty);
    if f.flexible {
      if k == |d.fields| - 1 { SomeNamed(d.fields[..k]); }
    } else if f.bitWidth.Some? {
      BitFieldIff(m, tb, f);
    }
  }

  /** A definition is accepted exactly when it has members, each of them stands where it is,
      and no two named ones share a name. */
  lemma AcceptedIff(m: DataModel, tb: Table, d: Definition)
    requires m.Valid() && Grounded(tb)
    ensures Accepted(m, tb, d) <==>
            && d.fields != []
            && (forall k :: 0 <= k < |d.fields| ==> MemberStands(m, tb, d, k))
            && (forall j, k :: 0 <= j < k < |d.fields| && d.fields[j].name == d.fields[k].name ==> d.fields[j].name == "")
  {
    forall k | 0 <= k < |d.fields|
      ensures MemberStands(m, tb, d, k) <==>
              && MemberOk(m, tb, d.id.isUnion, d.fields[k])
              && (d.fields[k].flexible ==> k == |d.fields| - 1 && NamedCount(d.fields) >= 2)
    {
      MemberIff(m, tb, d, k);
    }
  }

  /** An accepted definition completes its record with the members as they are kept and changes
      no other; a rejected one, or a second one of the same tag, changes nothing. */
  lemma DefineCompletes(m: DataModel, tb: Table, d: Definition)
    requires m.Valid() && Grounded(tb) && d.id in tb.records
    ensures var later := Defined(m, tb, d);
            && (forall id :: id != d.id ==> (id in later.records <==> id in tb.records)
                                            && (id in tb.records ==> later.records[id] == tb.records[id]))
            && (Accepted(m, tb, d) ==> Completed(later, d.id))
            && (Accepted(m, tb, d) && !Completed(tb, d.id) ==>
                  && |later.records[d.id].fields| == |d.fields|
                  && forall k :: 0 <= k < |d.fields| && !d.fields[k].flexible ==> later.records[d.id].fields[k] == d.fields[k])
            && (!Accepted(m, tb, d) || Completed(tb, d.id) ==> later == tb)
  {
  }
}
