/** Both lowerings of an accepted initializer build the object it describes. */
module AggregateTheorems {
  import opened Options
  import opened AggregateInit

  // ----- targets -----

  lemma {:induction false} FieldIndexUnique(fields: seq<Field>, k: nat)
    requires k < |fields| && fields[k].name != ""
    requires forall j :: 0 <= j < |fields| && j != k ==> fields[j].name != fields[k].name
    ensures FieldIndex(fields, fields[k].name) == Some(k)
  {
    if k > 0 {
      FieldIndexUnique(fields[1..], k - 1);
    }
  }

  /** The step written for an entry leads to the entry's slot. */
  lemma StepLeads(ty: Ty, block: Block, j: nat)
    requires WellFormed(ty) && !block.Empty? && j < |block.entries| && Target(ty, block, j).Some?
    ensures StepOf(ty, block, j).Some?
    ensures Resolve(ty, StepOf(ty, block, j).value) == Target(ty, block, j)
    ensures EntryTy(ty, block, j) == SlotTy(ty, Target(ty, block, j).value)
  {
    if block.Positional? && ty.Struct? {
      FieldIndexUnique(ty.fields, Positions(ty.fields, 0)[j]);
    }
  }

  lemma TargetsDiffer(ty: Ty, block: Block, i: nat, j: nat)
    requires Countable(ty, block) && !block.Empty? && i < j < |block.entries|
    requires Target(ty, block, i).Some? && Target(ty, block, j).Some?
    ensures Target(ty, block, i) != Target(ty, block, j)
  {
  }

  lemma EntryForTarget(ty: Ty, block: Block, j: nat)
    requires Accepts(ty, block) && !block.Empty? && j < |block.entries|
    ensures EntryFor(ty, block, Target(ty, block, j).value, 0) == Some(j)
  {
    var i := EntryFor(ty, block, Target(ty, block, j).value, 0);
    if i.None? {
      assert false;
    } else if i.value < j {
      TargetsDiffer(ty, block, i.value, j);
    } else if j < i.value {
      TargetsDiffer(ty, block, j, i.value);
    }
  }

  // ----- the object when j entries are done -----

  function PartialSlot(ty: Ty, block: Block, meaning: Meaning, j: nat, k: nat): Object
    requires !block.Empty? && k < Slots(ty)
  {
    match EntryFor(ty, block, k, 0)
    case None => Zero(SlotTy(ty, k))
    case Some(i) => if i < j then DescribedEntry(SlotTy(ty, k), block.entries[i], meaning) else Zero(SlotTy(ty, k))
  }

  function Partial(ty: Ty, block: Block, meaning: Meaning, j: nat): Object
    requires !block.Empty?
  {
    Node(seq(Slots(ty), k requires 0 <= k < Slots(ty) => PartialSlot(ty, block, meaning, j, k)))
  }

  lemma PartialEnds(ty: Ty, block: Block, meaning: Meaning)
    requires !block.Empty? && !ty.Scalar?
    ensures Partial(ty, block, meaning, 0) == Zero(ty)
    ensures Partial(ty, block, meaning, |block.entries|) == Described(ty, block, meaning)
  {
    assert Partial(ty, block, meaning, 0).parts == Zero(ty).parts;
    assert Partial(ty, block, meaning, |block.entries|).parts == Described(ty, block, meaning).parts;
  }

  lemma PartialStep(ty: Ty, block: Block, meaning: Meaning, j: nat)
    requires Accepts(ty, block) && !block.Empty? && j < |block.entries|
    ensures var k, obj := Target(ty, block, j).value, Partial(ty, block, meaning, j);
            && obj.parts[k] == Zero(SlotTy(ty, k))
            && Partial(ty, block, meaning, j + 1)
               == Node(obj.parts[k := DescribedEntry(SlotTy(ty, k), block.entries[j], meaning)])
  {
    var k, obj := Target(ty, block, j).value, Partial(ty, block, meaning, j);
    EntryForTarget(ty, block, j);
    var next := Partial(ty, block, meaning, j + 1);
    forall n | 0 <= n < Slots(ty) && n != k ensures next.parts[n] == obj.parts[n] {
      SlotUntouched(ty, block, meaning, j, n);
    }
    assert next.parts == obj.parts[k := DescribedEntry(SlotTy(ty, k), block.entries[j], meaning)];
  }

  lemma SlotUntouched(ty: Ty, block: Block, meaning: Meaning, j: nat, n: nat)
    requires !block.Empty? && j < |block.entries| && n < Slots(ty) && Target(ty, block, j) != Some(n)
    ensures PartialSlot(ty, block, meaning, j + 1, n) == PartialSlot(ty, block, meaning, j, n)
  {
    assert EntryFor(ty, block, n, 0) != Some(j);
  }

  lemma EntryAccepted(ty: Ty, block: Block, j: nat)
    requires WellFormed(ty) && Accepts(ty, block) && !block.Empty? && j < |block.entries|
    ensures Target(ty, block, j).Some?
    ensures var slot := SlotTy(ty, Target(ty, block, j).value);
            WellFormed(slot) && AcceptsEntry(slot, block.entries[j])
  {
  }

  // ----- stores -----

  lemma {:induction false} RunAppend(ty: Ty, obj: Option<Object>, a: seq<Store>, b: seq<Store>, meaning: Meaning)
    ensures Run(ty, obj, a + b, meaning) == Run(ty, Run(ty, obj, a, meaning), b, meaning)
    decreases |a|
  {
    if a == [] {
      assert a + b == b;
    } else if obj.Some? {
      assert (a + b)[0] == a[0] && (a + b)[1..] == a[1..] + b;
      RunAppend(ty, Write(ty, obj.value, a[0].path, a[0].expr, meaning), a[1..], b, meaning);
    }
  }

  /** Stores under one step act on the part it leads to. */
  lemma {:induction false} RunPrefixed(ty: Ty, obj: Object, step: Step, k: nat, stores: seq<Store>, meaning: Meaning)
    requires Resolve(ty, step) == Some(k) && obj.Node? && k < |obj.parts|
    ensures Run(ty, Some(obj), Prefixed([step], stores), meaning) ==
            match Run(SlotTy(ty, k), Some(obj.parts[k]), stores, meaning)
            case None => None
            case Some(part) => Some(Node(obj.parts[k := part]))
    decreases |stores|
  {
    if stores == [] {
      assert obj.parts[k := obj.parts[k]] == obj.parts;
    } else {
      var path := [step] + stores[0].path;
      assert path[1..] == stores[0].path;
      var part := Write(SlotTy(ty, k), obj.parts[k], stores[0].path, stores[0].expr, meaning);
      if part.Some? {
        var next := Node(obj.parts[k := part.value]);
        RunPrefixed(ty, next, step, k, stores[1..], meaning);
        var end := Run(SlotTy(ty, k), part, stores[1..], meaning);
        if end.Some? {
          assert next.parts[k := end.value] == obj.parts[k := end.value];
        }
      }
    }
  }

  /** Running the stores on a zeroed object builds the object described. */
  lemma {:induction false} StoresBuild(ty: Ty, block: Block, meaning: Meaning)
    requires WellFormed(ty) && Accepts(ty, block)
    ensures Run(ty, Some(Zero(ty)), Stores(ty, block), meaning) == Some(Described(ty, block, meaning))
    decreases block, 2, 0
  {
    if !block.Empty? {
      PartialEnds(ty, block, meaning);
      StoresFromBuild(ty, block, meaning, 0);
    }
  }

  lemma {:induction false} StoresFromBuild(ty: Ty, block: Block, meaning: Meaning, j: nat)
    requires WellFormed(ty) && Accepts(ty, block) && !block.Empty? && j <= |block.entries|
    ensures Run(ty, Some(Partial(ty, block, meaning, j)), StoresFrom(ty, block, j), meaning) ==
            Some(Partial(ty, block, meaning, |block.entries|))
    decreases block, 1, |block.entries| - j
  {
    if j < |block.entries| {
      EntryBuilds(ty, block, meaning, j);
      RunAppend(ty, Some(Partial(ty, block, meaning, j)), EntryStores(ty, block, j), StoresFrom(ty, block, j + 1), meaning);
      StoresFromBuild(ty, block, meaning, j + 1);
    }
  }

  lemma {:induction false} EntryBuilds(ty: Ty, block: Block, meaning: Meaning, j: nat)
    requires WellFormed(ty) && Accepts(ty, block) && !block.Empty? && j < |block.entries|
    ensures Run(ty, Some(Partial(ty, block, meaning, j)), EntryStores(ty, block, j), meaning) ==
            Some(Partial(ty, block, meaning, j + 1))
    decreases block, 0, 0
  {
    EntryAccepted(ty, block, j);
    StepLeads(ty, block, j);
    PartialStep(ty, block, meaning, j);
    var k, obj, step := Target(ty, block, j).value, Partial(ty, block, meaning, j), StepOf(ty, block, j).value;
    assert block.entries[j] < block;
    match block.entries[j].content {
      case Nested(inner) =>
        StoresBuild(SlotTy(ty, k), inner, meaning);
        RunPrefixed(ty, obj, step, k, Stores(SlotTy(ty, k), inner), meaning);
      case Value(expr) =>
        assert [step][1..] == [];
        assert Write(ty, obj, [step], expr, meaning) == Some(Node(obj.parts[k := meaning(expr, SlotTy(ty, k))]));
    }
  }

  // ----- braces -----

  lemma {:induction false} ZeroBracesZero(ty: Ty)
    ensures ZeroFirst(ty, Zero(ty)) == Zero(ty)
    decreases ty
  {
    var k := NextSlot(ty, 0);
    if !ty.Scalar? && k < Slots(ty) {
      ZeroBracesZero(SlotTy(ty, k));
      assert Zero(ty).parts[k := Zero(SlotTy(ty, k))] == Zero(ty).parts;
    }
  }

  lemma {:induction false} CursorFollows(ty: Ty, cursor: nat)
    requires ty.Struct? && cursor <= |ty.fields|
    ensures var k := NextSlot(ty, cursor);
            Positions(ty.fields, cursor) == if k < |ty.fields| then [k] + Positions(ty.fields, k + 1) else []
    decreases |ty.fields| - cursor
  {
    if cursor < |ty.fields| && !Positionable(ty.fields[cursor]) {
      CursorFollows(ty, cursor + 1);
    }
  }

  /** The cursor stands where the next entry without a designator goes. */
  predicate CursorAt(ty: Ty, block: Block, j: nat, cursor: nat) {
    && cursor <= Slots(ty)
    && (block.Positional? && ty.ArrayOf? ==> cursor == j)
    && (block.Positional? && ty.Struct? ==>
          j <= |Positions(ty.fields, 0)| && Positions(ty.fields, cursor) == Positions(ty.fields, 0)[j..])
  }

  lemma CursorStep(ty: Ty, block: Block, j: nat, cursor: nat)
    requires !block.Empty? && j < |block.entries| && Countable(ty, block) && CursorAt(ty, block, j, cursor)
    requires Target(ty, block, j).Some?
    ensures block.Positional? ==> NextSlot(ty, cursor) == Target(ty, block, j).value
    ensures CursorAt(ty, block, j + 1, Target(ty, block, j).value + 1)
  {
    if block.Positional? && ty.Struct? {
      PositionStep(ty, j, cursor);
    }
  }

  lemma PositionStep(ty: Ty, j: nat, cursor: nat)
    requires ty.Struct? && cursor <= |ty.fields| && j < |Positions(ty.fields, 0)|
    requires Positions(ty.fields, cursor) == Positions(ty.fields, 0)[j..]
    ensures var k := Positions(ty.fields, 0)[j];
            NextSlot(ty, cursor) == k && Positions(ty.fields, k + 1) == Positions(ty.fields, 0)[j + 1..]
  {
    var all := Positions(ty.fields, 0);
    var next := NextSlot(ty, cursor);
    CursorFollows(ty, cursor);
    assert all[j..][0] == all[j] && all[j..][1..] == all[j + 1..];
    assert ([next] + Positions(ty.fields, next + 1))[1..] == Positions(ty.fields, next + 1);
  }

  lemma CursorStart(ty: Ty, block: Block)
    ensures CursorAt(ty, block, 0, 0)
  {
    if ty.Struct? {
      assert Positions(ty.fields, 0)[0..] == Positions(ty.fields, 0);
    }
  }

  lemma FillFirst(ty: Ty, item: Item, rest: seq<Item>, cursor: nat, obj: Object, meaning: Meaning, k: nat)
    requires cursor <= Slots(ty) && SlotFor(ty, item.designator, cursor) == Some(k)
    requires PlaceItem(ty, item, k, obj, meaning).Some?
    ensures Fill(ty, [item] + rest, cursor, obj, meaning) ==
            Fill(ty, rest, k + 1, PlaceItem(ty, item, k, obj, meaning).value, meaning)
  {
    var items := [item] + rest;
    assert items[0] == item && items[1..] == rest;
  }

  /** The C meaning of the braces is the object described. */
  lemma {:induction false} BracesBuild(ty: Ty, block: Block, meaning: Meaning)
    requires WellFormed(ty) && Accepts(ty, block)
    ensures Initialized(ty, BracesOf(ty, block), meaning) == Some(Described(ty, block, meaning))
    decreases block, 2, 0
  {
    if block.Empty? {
      ZeroBracesZero(ty);
    } else {
      PartialEnds(ty, block, meaning);
      CursorStart(ty, block);
      FillBuilds(ty, block, meaning, 0, 0);
    }
  }

  lemma {:induction false} FillBuilds(ty: Ty, block: Block, meaning: Meaning, j: nat, cursor: nat)
    requires WellFormed(ty) && Accepts(ty, block) && !block.Empty? && j <= |block.entries|
    requires CursorAt(ty, block, j, cursor)
    ensures Fill(ty, ItemsFrom(ty, block, j), cursor, Partial(ty, block, meaning, j), meaning) ==
            Some(Partial(ty, block, meaning, |block.entries|))
    decreases block, 1, |block.entries| - j
  {
    if j == |block.entries| {
      FillEnd(ty, block, meaning, cursor);
    } else {
      hide Fill, Partial, ItemsFrom;
      EntryAccepted(ty, block, j);
      StepLeads(ty, block, j);
      ItemBuilds(ty, block, meaning, j);
      FillStep(ty, block, meaning, j, cursor);
      FillBuilds(ty, block, meaning, j + 1, Target(ty, block, j).value + 1);
    }
  }

  lemma FillEnd(ty: Ty, block: Block, meaning: Meaning, cursor: nat)
    requires WellFormed(ty) && Accepts(ty, block) && !block.Empty? && CursorAt(ty, block, |block.entries|, cursor)
    ensures var all := Partial(ty, block, meaning, |block.entries|);
            Fill(ty, ItemsFrom(ty, block, |block.entries|), cursor, all, meaning) == Some(all)
  {
    hide Partial, Accepts;
  }

  lemma FillStep(ty: Ty, block: Block, meaning: Meaning, j: nat, cursor: nat)
    requires Accepts(ty, block) && !block.Empty? && j < |block.entries| && CursorAt(ty, block, j, cursor)
    requires ItemIsEntry(ty, block, meaning, j) && Resolve(ty, StepOf(ty, block, j).value) == Target(ty, block, j)
    ensures CursorAt(ty, block, j + 1, Target(ty, block, j).value + 1)
    ensures Fill(ty, ItemsFrom(ty, block, j), cursor, Partial(ty, block, meaning, j), meaning) ==
            Fill(ty, ItemsFrom(ty, block, j + 1), Target(ty, block, j).value + 1, Partial(ty, block, meaning, j + 1), meaning)
  {
    var k, item := Target(ty, block, j).value, EntryItems(ty, block, j)[0];
    CursorStep(ty, block, j, cursor);
    PartialStep(ty, block, meaning, j);
    assert EntryItems(ty, block, j) == [item];
    assert SlotFor(ty, item.designator, cursor) == Some(k);
    FillFirst(ty, item, ItemsFrom(ty, block, j + 1), cursor, Partial(ty, block, meaning, j), meaning, k);
  }

  /** Entry j becomes one item that means what the entry describes. */
  predicate ItemIsEntry(ty: Ty, block: Block, meaning: Meaning, j: nat)
    requires !block.Empty? && j < |block.entries| && Target(ty, block, j).Some?
  {
    var slot, items := SlotTy(ty, Target(ty, block, j).value), EntryItems(ty, block, j);
    && StepOf(ty, block, j).Some?
    && |items| == 1
    && items[0].designator == (if block.Positional? then None else StepOf(ty, block, j))
    && Initialized(slot, items[0].init, meaning) == Some(DescribedEntry(slot, block.entries[j], meaning))
  }

  lemma {:induction false} ItemBuilds(ty: Ty, block: Block, meaning: Meaning, j: nat)
    requires WellFormed(ty) && Accepts(ty, block) && !block.Empty? && j < |block.entries|
    requires StepOf(ty, block, j).Some? && Target(ty, block, j).Some?
    requires EntryTy(ty, block, j) == SlotTy(ty, Target(ty, block, j).value)
    ensures ItemIsEntry(ty, block, meaning, j)
    decreases block, 0, 0
  {
    EntryAccepted(ty, block, j);
    assert block.entries[j] < block;
    match block.entries[j].content {
      case Nested(inner) => BracesBuild(SlotTy(ty, Target(ty, block, j).value), inner, meaning);
      case Value(_) =>
    }
  }

  /** The two lowerings agree. */
  lemma LoweringsAgree(ty: Ty, block: Block, meaning: Meaning)
    requires WellFormed(ty) && Accepts(ty, block)
    ensures Run(ty, Some(Zero(ty)), Stores(ty, block), meaning) == Initialized(ty, BracesOf(ty, block), meaning)
    ensures Initialized(ty, BracesOf(ty, block), meaning) == Some(Described(ty, block, meaning))
  {
    StoresBuild(ty, block, meaning);
    BracesBuild(ty, block, meaning);
  }

  // ----- the order of the stores does not matter -----

  /** Two paths part at some step. */
  predicate Diverge(p: seq<Step>, q: seq<Step>)
    decreases |p|
  {
    p != [] && q != [] && (p[0] != q[0] || Diverge(p[1..], q[1..]))
  }

  predicate AllDiverge(stores: seq<Store>) {
    forall i, j :: 0 <= i < j < |stores| ==> Diverge(stores[i].path, stores[j].path)
  }

  lemma {:induction false} DivergeSymmetric(p: seq<Step>, q: seq<Step>)
    requires Diverge(p, q)
    ensures Diverge(q, p)
    decreases |p|
  {
    if p[0] == q[0] {
      DivergeSymmetric(p[1..], q[1..]);
    }
  }

  lemma StepsDiffer(ty: Ty, a: Step, b: Step)
    requires a != b && Resolve(ty, a).Some? && Resolve(ty, b).Some?
    ensures Resolve(ty, a) != Resolve(ty, b)
  {
  }

  function WriteStore(ty: Ty, obj: Option<Object>, s: Store, meaning: Meaning): Option<Object> {
    if obj.None? then None else Write(ty, obj.value, s.path, s.expr, meaning)
  }

  lemma {:induction false} WritesCommute(ty: Ty, obj: Object, s: Store, t: Store, meaning: Meaning)
    requires Diverge(s.path, t.path)
    ensures WriteStore(ty, Write(ty, obj, s.path, s.expr, meaning), t, meaning) ==
            WriteStore(ty, Write(ty, obj, t.path, t.expr, meaning), s, meaning)
    decreases |s.path|
  {
    var a, b := Resolve(ty, s.path[0]), Resolve(ty, t.path[0]);
    if a.Some? && b.Some? && obj.Node? && a.value < |obj.parts| && b.value < |obj.parts| {
      if s.path[0] == t.path[0] {
        WritesCommute(SlotTy(ty, a.value), obj.parts[a.value], Store(s.path[1..], s.expr), Store(t.path[1..], t.expr), meaning);
        SameSlot(ty, obj, a.value, s, t, meaning);
        SameSlot(ty, obj, a.value, t, s, meaning);
      } else {
        StepsDiffer(ty, s.path[0], t.path[0]);
        OtherSlot(ty, obj, a.value, b.value, s, t, meaning);
      }
    }
  }

  lemma SameSlot(ty: Ty, obj: Object, k: nat, s: Store, t: Store, meaning: Meaning)
    requires s.path != [] && t.path != [] && obj.Node? && k < |obj.parts|
    requires Resolve(ty, s.path[0]) == Some(k) && Resolve(ty, t.path[0]) == Some(k)
    ensures WriteStore(ty, Write(ty, obj, s.path, s.expr, meaning), t, meaning) ==
            match WriteStore(SlotTy(ty, k), Write(SlotTy(ty, k), obj.parts[k], s.path[1..], s.expr, meaning),
                             Store(t.path[1..], t.expr), meaning)
            case None => None
            case Some(part) => Some(Node(obj.parts[k := part]))
  {
    var first := Write(SlotTy(ty, k), obj.parts[k], s.path[1..], s.expr, meaning);
    if first.Some? {
      var second := Write(SlotTy(ty, k), first.value, t.path[1..], t.expr, meaning);
      if second.Some? {
        assert obj.parts[k := first.value][k := second.value] == obj.parts[k := second.value];
      }
    }
  }

  lemma OtherSlot(ty: Ty, obj: Object, k: nat, n: nat, s: Store, t: Store, meaning: Meaning)
    requires s.path != [] && t.path != [] && obj.Node? && k < |obj.parts| && n < |obj.parts| && k != n
    requires Resolve(ty, s.path[0]) == Some(k) && Resolve(ty, t.path[0]) == Some(n)
    ensures WriteStore(ty, Write(ty, obj, s.path, s.expr, meaning), t, meaning) ==
            WriteStore(ty, Write(ty, obj, t.path, t.expr, meaning), s, meaning)
  {
    var first := Write(SlotTy(ty, k), obj.parts[k], s.path[1..], s.expr, meaning);
    var second := Write(SlotTy(ty, n), obj.parts[n], t.path[1..], t.expr, meaning);
    if first.Some? && second.Some? {
      assert obj.parts[k := first.value][n := second.value] == obj.parts[n := second.value][k := first.value];
    }
  }

  /** A store that diverges from those before it can run first. */
  lemma {:induction false} MoveFirst(ty: Ty, obj: Option<Object>, before: seq<Store>, s: Store, meaning: Meaning)
    requires forall i :: 0 <= i < |before| ==> Diverge(before[i].path, s.path)
    ensures Run(ty, obj, before + [s], meaning) == Run(ty, obj, [s] + before, meaning)
    decreases |before|
  {
    if before == [] {
      assert before + [s] == [s] + before;
    } else if obj.Some? {
      var b := before[0];
      WritesCommute(ty, obj.value, b, s, meaning);
      MoveFirst(ty, WriteStore(ty, obj, b, meaning), before[1..], s, meaning);
      assert before + [s] == [b] + (before[1..] + [s]);
      assert [s] + before == [s] + ([b] + before[1..]);
      RunFirst(ty, obj, b, before[1..] + [s], meaning);
      RunFirst(ty, WriteStore(ty, obj, b, meaning), s, before[1..], meaning);
      RunFirst(ty, obj, s, [b] + before[1..], meaning);
      RunFirst(ty, WriteStore(ty, obj, s, meaning), b, before[1..], meaning);
    }
  }

  lemma RunFirst(ty: Ty, obj: Option<Object>, s: Store, rest: seq<Store>, meaning: Meaning)
    ensures Run(ty, obj, [s] + rest, meaning) == Run(ty, WriteStore(ty, obj, s, meaning), rest, meaning)
  {
    assert ([s] + rest)[1..] == rest;
  }

  lemma Pull(stores: seq<Store>, i: nat)
    requires AllDiverge(stores) && i < |stores|
    ensures var before, s, after := stores[..i], stores[i], stores[i + 1..];
            && stores == (before + [s]) + after
            && multiset(stores) == multiset{s} + multiset(before + after)
            && AllDiverge(before + after)
            && forall n :: 0 <= n < |before| ==> Diverge(before[n].path, s.path)
  {
    var before, s, after := stores[..i], stores[i], stores[i + 1..];
    assert stores == (before + [s]) + after;
    forall m, n | 0 <= m < n < |before + after| ensures Diverge((before + after)[m].path, (before + after)[n].path) {
      var a, b := if m < i then m else m + 1, if n < i then n else n + 1;
      assert (before + after)[m] == stores[a] && (before + after)[n] == stores[b];
    }
  }

  lemma {:induction false} AnyOrder(ty: Ty, obj: Option<Object>, stores: seq<Store>, other: seq<Store>, meaning: Meaning)
    requires AllDiverge(stores) && multiset(stores) == multiset(other)
    ensures Run(ty, obj, stores, meaning) == Run(ty, obj, other, meaning)
    decreases |other|
  {
    if other == [] {
      assert |multiset(stores)| == |stores|;
    } else {
      var i := HeadIndex(stores, other);
      Pull(stores, i);
      PullRuns(ty, obj, stores, i, meaning);
      AnyOrder(ty, WriteStore(ty, obj, other[0], meaning), stores[..i] + stores[i + 1..], other[1..], meaning);
      assert other == [other[0]] + other[1..];
      RunFirst(ty, obj, other[0], other[1..], meaning);
    }
  }

  lemma HeadIndex(stores: seq<Store>, other: seq<Store>) returns (i: nat)
    requires other != [] && multiset(stores) == multiset(other)
    ensures i < |stores| && stores[i] == other[0]
    ensures multiset(stores[..i] + stores[i + 1..]) == multiset(other[1..])
  {
    assert other[0] in multiset(other);
    i :| 0 <= i < |stores| && stores[i] == other[0];
    var without, rest, head := stores[..i] + stores[i + 1..], other[1..], multiset{other[0]};
    assert stores == (stores[..i] + [stores[i]]) + stores[i + 1..];
    assert multiset(stores) == multiset(without) + head;
    assert other == [other[0]] + rest;
    assert multiset(other) == multiset(rest) + head;
    assert multiset(without) == (multiset(without) + head) - head;
    assert multiset(rest) == (multiset(rest) + head) - head;
  }

  lemma PullRuns(ty: Ty, obj: Option<Object>, stores: seq<Store>, i: nat, meaning: Meaning)
    requires AllDiverge(stores) && i < |stores|
    ensures Run(ty, obj, stores, meaning) ==
            Run(ty, WriteStore(ty, obj, stores[i], meaning), stores[..i] + stores[i + 1..], meaning)
  {
    var before, s, after := stores[..i], stores[i], stores[i + 1..];
    Pull(stores, i);
    RunAppend(ty, obj, before + [s], after, meaning);
    MoveFirst(ty, obj, before, s, meaning);
    RunFirst(ty, obj, s, before, meaning);
    RunAppend(ty, WriteStore(ty, obj, s, meaning), before, after, meaning);
  }

  lemma {:induction false} StoresDiverge(ty: Ty, block: Block)
    requires WellFormed(ty) && Accepts(ty, block)
    ensures AllDiverge(Stores(ty, block))
    decreases block, 2, 0
  {
    if !block.Empty? {
      StoresFromDiverge(ty, block, 0);
    }
  }

  /** The paths of an entry's stores start with its step. */
  predicate StartWithEntry(ty: Ty, block: Block, j: nat, stores: seq<Store>)
    requires !block.Empty? && j <= |block.entries|
  {
    forall i :: 0 <= i < |stores| ==>
      stores[i].path != [] && exists n :: j <= n < |block.entries| && StepOf(ty, block, n) == Some(stores[i].path[0])
  }

  lemma {:induction false} StoresFromDiverge(ty: Ty, block: Block, j: nat)
    requires WellFormed(ty) && Accepts(ty, block) && !block.Empty? && j <= |block.entries|
    ensures AllDiverge(StoresFrom(ty, block, j)) && StartWithEntry(ty, block, j, StoresFrom(ty, block, j))
    decreases block, 1, |block.entries| - j
  {
    if j < |block.entries| {
      EntryAccepted(ty, block, j);
      StepLeads(ty, block, j);
      EntryStoresDiverge(ty, block, j);
      StoresFromDiverge(ty, block, j + 1);
      var mine, rest := EntryStores(ty, block, j), StoresFrom(ty, block, j + 1);
      forall i, n | 0 <= i < |mine| && 0 <= n < |rest| ensures Diverge(mine[i].path, rest[n].path) {
        var m :| j + 1 <= m < |block.entries| && StepOf(ty, block, m) == Some(rest[n].path[0]);
        EntryAccepted(ty, block, m);
        StepLeads(ty, block, m);
        TargetsDiffer(ty, block, j, m);
      }
    }
  }

  lemma {:induction false} EntryStoresDiverge(ty: Ty, block: Block, j: nat)
    requires WellFormed(ty) && Accepts(ty, block) && !block.Empty? && j < |block.entries|
    requires StepOf(ty, block, j).Some?
    ensures AllDiverge(EntryStores(ty, block, j))
    ensures forall i :: 0 <= i < |EntryStores(ty, block, j)| ==>
              var path := EntryStores(ty, block, j)[i].path; path != [] && path[0] == StepOf(ty, block, j).value
    decreases block, 0, 0
  {
    EntryAccepted(ty, block, j);
    StepLeads(ty, block, j);
    assert block.entries[j] < block;
    match block.entries[j].content {
      case Value(_) =>
      case Nested(inner) =>
        var stores := Stores(EntryTy(ty, block, j), inner);
        StoresDiverge(EntryTy(ty, block, j), inner);
        var step := StepOf(ty, block, j).value;
        forall a, b | 0 <= a < b < |stores| ensures Diverge([step] + stores[a].path, [step] + stores[b].path) {
          assert ([step] + stores[a].path)[1..] == stores[a].path;
          assert ([step] + stores[b].path)[1..] == stores[b].path;
        }
    }
  }

  /** In whatever order the stores run, the object described results. */
  lemma StoreOrderIsIrrelevant(ty: Ty, block: Block, stores: seq<Store>, meaning: Meaning)
    requires WellFormed(ty) && Accepts(ty, block) && multiset(stores) == multiset(Stores(ty, block))
    ensures Run(ty, Some(Zero(ty)), stores, meaning) == Some(Described(ty, block, meaning))
  {
    StoresDiverge(ty, block);
    AnyOrder(ty, Some(Zero(ty)), Stores(ty, block), stores, meaning);
    StoresBuild(ty, block, meaning);
  }
}
