/** Completing structures and unions in source order, and the questions asked of them. */
module Records {
  import opened Options
  import opened Types
  import opened Conversions
  import opened ConstSafety

  datatype RecordId = RecordId(isUnion: bool, tag: string)

  /** A flexible member is written with its element type and kept with an array type. */
  datatype Field = Field(name: string, ty: Type, bitWidth: Option<nat>, flexible: bool)

  /** `rank` numbers the completions; the program does not keep it. */
  datatype Info = Info(fields: seq<Field>, complete: bool, hasFlexible: bool, rank: nat)

  /** Every tag of the program is in the table, incomplete until its definition is accepted. */
  datatype Table = Table(records: map<RecordId, Info>, enums: set<string>, completed: nat)

  datatype Definition = Definition(id: RecordId, fields: seq<Field>)

  function RecordNamed(t: Type): Option<RecordId> {
    if t.Plain? && t.base.Structure? then Some(RecordId(false, t.base.tag))
    else if t.Plain? && t.base.Union? then Some(RecordId(true, t.base.tag))
    else None
  }

  /** The record an object of type t holds by value, inside arrays or not. */
  function RecordIn(t: Type): Option<RecordId> {
    if t.Array? then RecordIn(t.element) else RecordNamed(t)
  }

  predicate Completed(tb: Table, id: RecordId) {
    id in tb.records && tb.records[id].complete
  }

  predicate IsCompleteObject(tb: Table, t: Type) {
    match t
    case Function(_, _, _) => false
    case Pointer(_, _) => true
    case Array(element, bound) => bound.Some? && IsCompleteObject(tb, element) && !ContainsFlexible(tb, element)
    case Plain(_, base) =>
      match base
      case Void => false
      case Structure(tag) => Completed(tb, RecordId(false, tag))
      case Union(tag) => Completed(tb, RecordId(true, tag))
      case Enumeration(tag) => tag in tb.enums
      case _ => true
  }

  predicate ContainsFlexible(tb: Table, t: Type) {
    if t.Array? then ContainsFlexible(tb, t.element)
    else
      var id := RecordNamed(t);
      id.Some? && Completed(tb, id.value) && tb.records[id.value].hasFlexible
  }

  // ----- checking a definition -----

  function BitLimit(m: DataModel, t: Type): Option<nat>
    requires m.Valid()
  {
    if !t.Plain? then None
    else
      match t.base
      case Boolean => Some(1)
      case Enumeration(_) => Some(m.intBits)
      case Character(_) => Some(m.charBits)
      case Integer(rank, _) => Some(Width(m, rank))
      case _ => None
  }

  predicate ValidBitField(m: DataModel, tb: Table, f: Field)
    requires m.Valid() && f.bitWidth.Some?
  {
    var limit := BitLimit(m, f.ty);
    && !TopQualifiers(f.ty).isAtomic
    && (f.ty.Plain? && f.ty.base.Enumeration? ==> f.ty.base.tag in tb.enums)
    && limit.Some? && f.bitWidth.value <= limit.value
    && (f.name != "" ==> f.bitWidth.value > 0)
  }

  predicate MemberOk(m: DataModel, tb: Table, isUnion: bool, f: Field)
    requires m.Valid()
  {
    if f.flexible then !isUnion && f.name != "" && IsCompleteObject(tb, f.ty) && !ContainsFlexible(tb, f.ty)
    else if f.bitWidth.Some? then ValidBitField(m, tb, f)
    else IsCompleteObject(tb, f.ty) && (isUnion || !ContainsFlexible(tb, f.ty))
  }

  function NamedCount(fields: seq<Field>): nat {
    if fields == [] then 0
    else NamedCount(fields[..|fields| - 1]) + if fields[|fields| - 1].name != "" then 1 else 0
  }

  predicate Accepted(m: DataModel, tb: Table, d: Definition)
    requires m.Valid()
  {
    && d.fields != []
    && (forall k :: 0 <= k < |d.fields| ==> MemberOk(m, tb, d.id.isUnion, d.fields[k]))
    && (forall j, k :: 0 <= j < k < |d.fields| && d.fields[j].name == d.fields[k].name ==> d.fields[k].name == "")
    && (forall k :: 0 <= k < |d.fields| - 1 ==> !d.fields[k].flexible)
    && (d.fields[|d.fields| - 1].flexible ==> NamedCount(d.fields) >= 2)
  }

  function Kept(f: Field): Field {
    if f.flexible then f.(ty := Array(f.ty, None), bitWidth := None) else f
  }

  function AllKept(fields: seq<Field>): (r: seq<Field>)
    ensures |r| == |fields| && forall k :: 0 <= k < |r| ==> r[k] == Kept(fields[k])
  {
    seq(|fields|, k requires 0 <= k < |fields| => Kept(fields[k]))
  }

  /** The flag of a completed record. */
  predicate GivesFlexible(tb: Table, d: Definition) {
    if d.id.isUnion then
      exists k :: 0 <= k < |d.fields| && d.fields[k].bitWidth.None? && ContainsFlexible(tb, d.fields[k].ty)
    else exists k :: 0 <= k < |d.fields| && d.fields[k].flexible
  }

  function Defined(m: DataModel, tb: Table, d: Definition): Table
    requires m.Valid()
  {
    if d.id !in tb.records || tb.records[d.id].complete || !Accepted(m, tb, d) then tb
    else
      tb.(records := tb.records[d.id := Info(AllKept(d.fields), true, GivesFlexible(tb, d), tb.completed)],
          completed := tb.completed + 1)
  }

  class RecordChecker {
    const model: DataModel
    var table: Table

    constructor (m: DataModel, tags: set<RecordId>)
      ensures model == m && table == Table(map id | id in tags :: Info([], false, false, 0), {}, 0)
    {
      model := m;
      table := Table(map id | id in tags :: Info([], false, false, 0), {}, 0);
    }

    /** A definition of a tag that is incomplete so far; `valid` is false when it is rejected. */
    method Define(d: Definition) returns (valid: bool)
      requires model.Valid() && d.id in table.records && !table.records[d.id].complete
      modifies this
      ensures valid == Accepted(model, old(table), d)
      ensures table == Defined(model, old(table), d)
    {
      var kept: seq<Field> := [];
      var names: set<string> := {};
      var hasFlexible, namedMembers := false, 0;
      valid := true;
      for i := 0 to |d.fields|
        invariant Scan(kept, names, hasFlexible, namedMembers, valid) == ScanTo(model, table, d, i)
        invariant table == old(table)
      {
        var f := d.fields[i];
        var ok := CheckMember(d, i);
        valid := valid && f.name !in names && ok;
        if f.name != "" {
          namedMembers := namedMembers + 1;
          names := names + {f.name};
        }
        if f.flexible || (d.id.isUnion && f.bitWidth.None? && ContainsFlexible(table, f.ty)) {
          hasFlexible := true;
        }
        kept := kept + [Kept(f)];
      }
      ScanEnds(model, table, d);
      if d.fields == [] { valid := false; }
      if !d.id.isUnion && hasFlexible && namedMembers < 2 { valid := false; }
      if valid {
        table := table.(records := table.records[d.id := Info(kept, true, hasFlexible, table.completed)],
                        completed := table.completed + 1);
      }
    }

    method CheckMember(d: Definition, i: nat) returns (ok: bool)
      requires model.Valid() && i < |d.fields|
      ensures ok == FieldOk(model, table, d, i)
    {
      var f := d.fields[i];
      if f.flexible {
        ok := !d.id.isUnion && f.name != "" && i + 1 == |d.fields|;
        if !IsCompleteObject(table, f.ty) || ContainsFlexible(table, f.ty) { ok := false; }
      } else if f.bitWidth.Some? {
        ok := ValidBitField(model, table, f);
      } else if IsVoid(f.ty) || f.ty.Function? {
        ok := false;
      } else {
        ok := IsCompleteObject(table, f.ty) && (d.id.isUnion || !ContainsFlexible(table, f.ty));
      }
    }
  }

  predicate FieldOk(m: DataModel, tb: Table, d: Definition, i: nat)
    requires m.Valid() && i < |d.fields|
  {
    MemberOk(m, tb, d.id.isUnion, d.fields[i]) && (d.fields[i].flexible ==> i + 1 == |d.fields|)
  }

  /** The variables of the loop over the members. */
  datatype Scan = Scan(kept: seq<Field>, names: set<string>, hasFlexible: bool, named: nat, valid: bool)

  function ScanTo(m: DataModel, tb: Table, d: Definition, n: nat): Scan
    requires m.Valid() && n <= |d.fields|
  {
    if n == 0 then Scan([], {}, false, 0, true)
    else
      var s, f := ScanTo(m, tb, d, n - 1), d.fields[n - 1];
      Scan(s.kept + [Kept(f)],
           if f.name != "" then s.names + {f.name} else s.names,
           s.hasFlexible || f.flexible || (d.id.isUnion && f.bitWidth.None? && ContainsFlexible(tb, f.ty)),
           if f.name != "" then s.named + 1 else s.named,
           s.valid && f.name !in s.names && FieldOk(m, tb, d, n - 1))
  }

  predicate NameBefore(d: Definition, n: nat, x: string)
    requires n <= |d.fields|
  {
    exists k :: 0 <= k < n && d.fields[k].name == x
  }

  lemma {:induction false} ScanNames(m: DataModel, tb: Table, d: Definition, n: nat)
    requires m.Valid() && n <= |d.fields|
    ensures forall x :: x in ScanTo(m, tb, d, n).names <==> x != "" && NameBefore(d, n, x)
  {
    if n > 0 {
      ScanNames(m, tb, d, n - 1);
      forall x ensures NameBefore(d, n, x) <==> NameBefore(d, n - 1, x) || x == d.fields[n - 1].name {
        if x == d.fields[n - 1].name { assert d.fields[n - 1].name == x; }
      }
    }
  }

  lemma {:induction false} ScanKept(m: DataModel, tb: Table, d: Definition, n: nat)
    requires m.Valid() && n <= |d.fields|
    ensures ScanTo(m, tb, d, n).kept == AllKept(d.fields)[..n]
    ensures ScanTo(m, tb, d, n).named == NamedCount(d.fields[..n])
  {
    if n > 0 {
      ScanKept(m, tb, d, n - 1);
      assert AllKept(d.fields)[..n] == AllKept(d.fields)[..n - 1] + [Kept(d.fields[n - 1])];
      assert d.fields[..n][..n - 1] == d.fields[..n - 1];
    }
  }

  predicate BringsFlexible(tb: Table, d: Definition, k: nat)
    requires k < |d.fields|
  {
    d.fields[k].flexible || (d.id.isUnion && d.fields[k].bitWidth.None? && ContainsFlexible(tb, d.fields[k].ty))
  }

  lemma {:induction false} ScanFlexible(m: DataModel, tb: Table, d: Definition, n: nat)
    requires m.Valid() && n <= |d.fields|
    ensures ScanTo(m, tb, d, n).hasFlexible <==> exists k :: 0 <= k < n && BringsFlexible(tb, d, k)
  {
    if n > 0 {
      ScanFlexible(m, tb, d, n - 1);
      assert ScanTo(m, tb, d, n).hasFlexible <==> ScanTo(m, tb, d, n - 1).hasFlexible || BringsFlexible(tb, d, n - 1);
    }
  }

  predicate FieldsOk(m: DataModel, tb: Table, d: Definition, n: nat)
    requires m.Valid() && n <= |d.fields|
  {
    forall k :: 0 <= k < n ==> FieldOk(m, tb, d, k) && (d.fields[k].name == "" || !NameBefore(d, k, d.fields[k].name))
  }

  lemma {:induction false} ScanValid(m: DataModel, tb: Table, d: Definition, n: nat)
    requires m.Valid() && n <= |d.fields|
    ensures ScanTo(m, tb, d, n).valid <==> FieldsOk(m, tb, d, n)
  {
    if n > 0 {
      ScanValid(m, tb, d, n - 1);
      ScanNames(m, tb, d, n - 1);
      var k := n - 1;
      assert FieldsOk(m, tb, d, n) <==>
          FieldsOk(m, tb, d, k) && FieldOk(m, tb, d, k) && (d.fields[k].name == "" || !NameBefore(d, k, d.fields[k].name));
    }
  }

  lemma ScanEnds(m: DataModel, tb: Table, d: Definition)
    requires m.Valid()
    ensures var s := ScanTo(m, tb, d, |d.fields|);
            && s.kept == AllKept(d.fields)
            && (Accepted(m, tb, d) <==> s.valid && d.fields != [] && (d.id.isUnion || !s.hasFlexible || s.named >= 2))
            && (s.valid ==> s.hasFlexible == GivesFlexible(tb, d))
  {
    var n := |d.fields|;
    ScanKept(m, tb, d, n);
    ScanFlexible(m, tb, d, n);
    ScanValid(m, tb, d, n);
    assert d.fields[..n] == d.fields && AllKept(d.fields)[..n] == AllKept(d.fields);
    AcceptedByFields(m, tb, d);
    if FieldsOk(m, tb, d, n) {
      FlagAgrees(m, tb, d);
    }
  }

  lemma FlagAgrees(m: DataModel, tb: Table, d: Definition)
    requires m.Valid() && FieldsOk(m, tb, d, |d.fields|)
    ensures GivesFlexible(tb, d) <==> exists k :: 0 <= k < |d.fields| && BringsFlexible(tb, d, k)
    ensures !d.id.isUnion && d.fields != [] ==> GivesFlexible(tb, d) == d.fields[|d.fields| - 1].flexible
    ensures d.id.isUnion && d.fields != [] ==> !d.fields[|d.fields| - 1].flexible
  {
    forall k | 0 <= k < |d.fields|
      ensures d.fields[k].flexible ==> !d.id.isUnion && k == |d.fields| - 1
    {
      assert FieldOk(m, tb, d, k);
    }
    if GivesFlexible(tb, d) && !d.id.isUnion {
      var k :| 0 <= k < |d.fields| && d.fields[k].flexible;
      assert BringsFlexible(tb, d, k);
    } else if GivesFlexible(tb, d) {
      var k :| 0 <= k < |d.fields| && d.fields[k].bitWidth.None? && ContainsFlexible(tb, d.fields[k].ty);
      assert BringsFlexible(tb, d, k);
    }
  }

  lemma AcceptedByFields(m: DataModel, tb: Table, d: Definition)
    requires m.Valid()
    ensures Accepted(m, tb, d) <==>
              && d.fields != [] && FieldsOk(m, tb, d, |d.fields|)
              && (d.fields[|d.fields| - 1].flexible ==> NamedCount(d.fields) >= 2)
  {
    if Accepted(m, tb, d) {
      forall k | 0 <= k < |d.fields|
        ensures FieldOk(m, tb, d, k) && (d.fields[k].name == "" || !NameBefore(d, k, d.fields[k].name))
      {
        assert MemberOk(m, tb, d.id.isUnion, d.fields[k]);
      }
    }
    if d.fields != [] && FieldsOk(m, tb, d, |d.fields|) {
      forall k | 0 <= k < |d.fields|
        ensures MemberOk(m, tb, d.id.isUnion, d.fields[k]) && (k < |d.fields| - 1 ==> !d.fields[k].flexible)
      {
        assert FieldOk(m, tb, d, k);
      }
      forall j, k | 0 <= j < k < |d.fields| && d.fields[j].name == d.fields[k].name ensures d.fields[k].name == "" {
        assert NameBefore(d, k, d.fields[k].name);
      }
    }
  }
}
