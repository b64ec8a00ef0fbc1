/** When an aggregate initializer is accepted, told by the slots its entries designate. */
module InitializerRules {
  import opened Options
  import opened AggregateInit
  import opened AggregateTheorems

  /** How many of the first k fields positional entries initialize. */
  function Before(fields: seq<Field>, k: nat): nat
    requires k <= |fields|
  {
    if k == 0 then 0 else Before(fields, k - 1) + if fields[k - 1].name != "" && !fields[k - 1].flexible then 1 else 0
  }

  /** Entry j is for slot k: the j-th element or positionable field, the field of its name, or
      the element of its number.  No entry is for a flexible or an unnamed field. */
  predicate Designates(ty: Ty, block: Block, j: nat, k: nat)
    requires !block.Empty? && j < |block.entries|
  {
    match block
    case Positional(_) =>
      || (ty.ArrayOf? && j == k < ty.bound)
      || (ty.Struct? && k < |ty.fields| && ty.fields[k].name != "" && !ty.fields[k].flexible && Before(ty.fields, k) == j)
    case Members(entries) =>
      ty.Struct? && k < |ty.fields| && ty.fields[k].name == entries[j].memberName != "" && !ty.fields[k].flexible
    case Elements(entries) => ty.ArrayOf? && entries[j].elementIndex == k < ty.bound
  }

  /** Listed values need a type with slots, members a structure and elements an array. */
  predicate KindFits(ty: Ty, block: Block) {
    match block
    case Empty => true
    case Positional(_) => !ty.Scalar?
    case Members(_) => ty.Struct?
    case Elements(_) => ty.ArrayOf?
  }

  /** Every entry is for a slot it fits into, and no two are for the same slot. */
  ghost predicate Initializes(ty: Ty, block: Block)
    decreases block, 2
  {
    block.Empty? ||
    (&& KindFits(ty, block)
     && (forall j :: 0 <= j < |block.entries| ==> Placed(ty, block, j))
     && (forall i, j, k: nat :: 0 <= i < j < |block.entries| && Designates(ty, block, i, k) ==> !Designates(ty, block, j, k)))
  }

  ghost predicate Placed(ty: Ty, block: Block, j: nat)
    requires !block.Empty? && j < |block.entries|
    decreases block, 1
  {
    exists k: nat :: Takes(ty, block, j, k)
  }

  /** Entry j is for slot k and fits into it: an expression into what is no array, a nested block
      into what it initializes in turn. */
  ghost predicate Takes(ty: Ty, block: Block, j: nat, k: nat)
    requires !block.Empty? && j < |block.entries|
    decreases block, 0
  {
    && k < Slots(ty) && Designates(ty, block, j, k)
    && match block.entries[j].content
       case Value(_) => !SlotTy(ty, k).ArrayOf?
       case Nested(inner) => assert inner < block.entries[j] < block; Initializes(SlotTy(ty, k), inner)
  }

  // ----- positions -----

  lemma {:induction false} PositionsAre(fields: seq<Field>, start: nat)
    requires start <= |fields|
    ensures var ks := Positions(fields, start);
            && (forall i :: 0 <= i < |ks| ==> Before(fields, ks[i]) == Before(fields, start) + i)
            && |ks| == Before(fields, |fields|) - Before(fields, start)
    decreases |fields| - start
  {
    if start < |fields| { PositionsAre(fields, start + 1); }
  }

  lemma {:induction false} BeforeGrows(fields: seq<Field>, a: nat, b: nat)
    requires a <= b <= |fields|
    ensures Before(fields, a) <= Before(fields, b)
    ensures a < b && Positionable(fields[a]) ==> Before(fields, a) < Before(fields, b)
    decreases b
  {
    if a < b { BeforeGrows(fields, a, b - 1); }
  }

  /** The j-th position is the positionable field with j of them before it. */
  lemma PositionIff(fields: seq<Field>, j: nat, k: nat)
    ensures (j < |Positions(fields, 0)| && Positions(fields, 0)[j] == k) <==>
            (k < |fields| && Positionable(fields[k]) && Before(fields, k) == j)
  {
    PositionsAre(fields, 0);
    var ks := Positions(fields, 0);
    if k < |fields| && Positionable(fields[k]) && Before(fields, k) == j {
      BeforeGrows(fields, k, |fields|);
      var p := ks[j];
      if p < k { BeforeGrows(fields, p, k); }
      if k < p { BeforeGrows(fields, k, p); }
    }
  }

  // ----- the rule -----

  /** The slot found for an entry is the one it designates, flexible members aside. */
  lemma TargetIff(ty: Ty, block: Block, j: nat, k: nat)
    requires WellFormed(ty) && !block.Empty? && j < |block.entries|
    ensures Designates(ty, block, j, k) <==>
            && Target(ty, block, j) == Some(k)
            && (block.Members? ==> !ty.fields[k].flexible)
  {
    match block
    case Positional(_) => if ty.Struct? { PositionIff(ty.fields, j, k); }
    case Members(entries) =>
      if ty.Struct? && k < |ty.fields| && ty.fields[k].name == entries[j].memberName && ty.fields[k].name != "" {
        FieldIndexUnique(ty.fields, k);
      }
      if ty.Struct? { NoUnnamed(ty.fields, entries[j].memberName); }
    case Elements(_) =>
  }

  lemma {:induction false} NoUnnamed(fields: seq<Field>, name: string)
    ensures name == "" ==> FieldIndex(fields, name).None?
  {
    if fields != [] { NoUnnamed(fields[1..], name); }
  }

  lemma DesignatedIsTarget(ty: Ty, block: Block)
    requires WellFormed(ty) && !block.Empty?
    ensures forall j, k: nat :: 0 <= j < |block.entries| ==>
              (Designates(ty, block, j, k) <==> Target(ty, block, j) == Some(k) && (block.Members? ==> !ty.fields[k].flexible))
  {
    forall j, k: nat | 0 <= j < |block.entries|
      ensures Designates(ty, block, j, k) <==> Target(ty, block, j) == Some(k) && (block.Members? ==> !ty.fields[k].flexible)
    {
      TargetIff(ty, block, j, k);
    }
  }

  lemma {:induction false} TakesIff(ty: Ty, block: Block, j: nat, k: nat)
    requires WellFormed(ty) && !block.Empty? && j < |block.entries|
    ensures Takes(ty, block, j, k) <==>
            k < Slots(ty) && Designates(ty, block, j, k) && AcceptsEntry(SlotTy(ty, k), block.entries[j])
    decreases block, 0
  {
    assert block.entries[j] < block;
    if k < Slots(ty) && block.entries[j].content.Nested? { AcceptsIff(SlotTy(ty, k), block.entries[j].content.block); }
  }

  /** An initializer is accepted exactly when its entries are for different slots they fit into. */
  lemma {:induction false} AcceptsIff(ty: Ty, block: Block)
    requires WellFormed(ty)
    ensures Accepts(ty, block) <==> Initializes(ty, block)
    decreases block, 1
  {
    if !block.Empty? {
      DesignatedIsTarget(ty, block);
      forall j, k: nat | 0 <= j < |block.entries|
        ensures Takes(ty, block, j, k) <==>
                k < Slots(ty) && Designates(ty, block, j, k) && AcceptsEntry(SlotTy(ty, k), block.entries[j])
      {
        TakesIff(ty, block, j, k);
      }
      if Accepts(ty, block) { AcceptedInitializes(ty, block); }
      if Initializes(ty, block) { InitializesAccepted(ty, block); }
    }
  }

  /** What nested blocks and designators mean for the entries of one block. */
  ghost predicate EntriesAgree(ty: Ty, block: Block)
    requires !block.Empty?
  {
    && (forall j, k: nat :: 0 <= j < |block.entries| ==>
          (Takes(ty, block, j, k) <==>
             k < Slots(ty) && Designates(ty, block, j, k) && AcceptsEntry(SlotTy(ty, k), block.entries[j])))
    && (forall j, k: nat :: 0 <= j < |block.entries| ==>
          (Designates(ty, block, j, k) <==> Target(ty, block, j) == Some(k) && (block.Members? ==> !ty.fields[k].flexible)))
  }

  lemma NotFlexible(ty: Ty, block: Block, j: nat)
    requires block.Members? && Countable(ty, block) && j < |block.entries| && Target(ty, block, j).Some?
    ensures !ty.fields[Target(ty, block, j).value].flexible
  {
    assert Target(ty, block, j) == FieldIndex(ty.fields, block.entries[j].memberName);
  }

  lemma AcceptedInitializes(ty: Ty, block: Block)
    requires !block.Empty? && EntriesAgree(ty, block) && Accepts(ty, block)
    ensures Initializes(ty, block)
  {
    forall j | 0 <= j < |block.entries| ensures Placed(ty, block, j) {
      var k := Target(ty, block, j).value;
      if block.Members? { NotFlexible(ty, block, j); }
      assert Designates(ty, block, j, k);
      assert Takes(ty, block, j, k);
    }
    forall i, j, k: nat | 0 <= i < j < |block.entries| && Designates(ty, block, i, k)
      ensures !Designates(ty, block, j, k)
    {
      TargetsDiffer(ty, block, i, j);
    }
  }

  /** The slot an entry takes is the one found for it. */
  lemma FoundSlot(ty: Ty, block: Block, j: nat)
    requires !block.Empty? && EntriesAgree(ty, block) && Initializes(ty, block) && j < |block.entries|
    ensures var k := Target(ty, block, j);
            k.Some? && Takes(ty, block, j, k.value) && Designates(ty, block, j, k.value)
  {
    hide Target, Designates, Takes, AcceptsEntry, SlotTy;
    assert Placed(ty, block, j);
    var k: nat :| Takes(ty, block, j, k);
  }

  lemma InitializesAccepted(ty: Ty, block: Block)
    requires !block.Empty? && EntriesAgree(ty, block) && Initializes(ty, block)
    ensures Accepts(ty, block)
  {
    forall j | 0 <= j < |block.entries|
      ensures Target(ty, block, j).Some? && Designates(ty, block, j, Target(ty, block, j).value)
      ensures AcceptsEntry(SlotTy(ty, Target(ty, block, j).value), block.entries[j])
    {
      FoundSlot(ty, block, j);
    }
    forall i, j | 0 <= i < j < |block.entries| ensures Target(ty, block, i) != Target(ty, block, j) {
      assert !Designates(ty, block, j, Target(ty, block, i).value);
    }
    InitializesCounts(ty, block);
  }

  lemma InitializesCounts(ty: Ty, block: Block)
    requires !block.Empty? && KindFits(ty, block)
    requires forall j :: 0 <= j < |block.entries| ==>
               Target(ty, block, j).Some? && (block.Members? ==> !ty.fields[Target(ty, block, j).value].flexible)
    requires forall i, j :: 0 <= i < j < |block.entries| ==> Target(ty, block, i) != Target(ty, block, j)
    ensures Countable(ty, block)
  {
    match block
    case Positional(entries) => if entries != [] { assert Target(ty, block, |entries| - 1).Some?; }
    case Members(entries) =>
      forall i, j | 0 <= i < j < |entries| ensures entries[i].memberName != entries[j].memberName {
        assert Target(ty, block, i) != Target(ty, block, j);
      }
      forall j | 0 <= j < |entries|
        ensures var k := FieldIndex(ty.fields, entries[j].memberName); k.Some? ==> !ty.fields[k.value].flexible
      {
        assert Target(ty, block, j) == FieldIndex(ty.fields, entries[j].memberName);
      }
    case Elements(entries) =>
      forall i, j | 0 <= i < j < |entries| ensures entries[i].elementIndex != entries[j].elementIndex {
        assert Target(ty, block, i) != Target(ty, block, j);
      }
  }
}
