/** The two lowerings of an aggregate initializer: assignments to a zeroed object, and a C
    brace initializer.  Structure tags are resolved, so types are trees. */
module AggregateInit {
  import opened Options

  datatype Ty =
    | Scalar
    | ArrayOf(element: Ty, bound: nat)
    | Struct(fields: seq<Field>)

  /** An unnamed field is a bit-field that only aligns. */
  datatype Field = Field(name: string, ty: Ty, flexible: bool)

  datatype Block =
    | Empty
    | Positional(entries: seq<Entry>)
    | Members(entries: seq<Entry>)
    | Elements(entries: seq<Entry>)

  datatype Entry = Entry(memberName: string, elementIndex: nat, content: Content)

  /** An entry is an expression without effects or a nested block. */
  datatype Content = Value(expr: nat) | Nested(block: Block)

  datatype Object = Cell(v: int) | Node(parts: seq<Object>)

  // ----- slots: array elements or structure members -----

  function Slots(ty: Ty): nat {
    match ty
    case Scalar => 0
    case ArrayOf(_, bound) => bound
    case Struct(fields) => |fields|
  }

  function SlotTy(ty: Ty, k: nat): (slot: Ty)
    requires k < Slots(ty)
    ensures slot < ty
  {
    if ty.ArrayOf? then ty.element else ty.fields[k].ty
  }

  function Zero(ty: Ty): Object
    decreases ty
  {
    if ty.Scalar? then Cell(0)
    else Node(seq(Slots(ty), k requires 0 <= k < Slots(ty) => Zero(SlotTy(ty, k))))
  }

  /** The first field of that name. */
  function FieldIndex(fields: seq<Field>, name: string): (k: Option<nat>)
    ensures k.Some? ==> k.value < |fields| && fields[k.value].name == name
  {
    if fields == [] then None
    else if fields[0].name == name && name != "" then Some(0)
    else
      match FieldIndex(fields[1..], name)
      case Some(k) => Some(k + 1)
      case None => None
  }

  predicate Positionable(f: Field) {
    f.name != "" && !f.flexible
  }

  /** Where the fields that positional entries initialize are, from position `start` on. */
  function Positions(fields: seq<Field>, start: nat): (ks: seq<nat>)
    ensures forall i :: 0 <= i < |ks| ==> start <= ks[i] < |fields| && Positionable(fields[ks[i]])
    ensures forall i, j :: 0 <= i < j < |ks| ==> ks[i] < ks[j]
    decreases |fields| - start
  {
    if start >= |fields| then []
    else if Positionable(fields[start]) then [start] + Positions(fields, start + 1)
    else Positions(fields, start + 1)
  }

  /** A structure the checker completes: member names differ and only the last is flexible. */
  predicate WellFormed(ty: Ty) {
    match ty
    case Scalar => true
    case ArrayOf(element, _) => WellFormed(element)
    case Struct(fields) =>
      && (forall k :: 0 <= k < |fields| ==> WellFormed(fields[k].ty))
      && (forall j, k :: 0 <= j < k < |fields| && fields[j].name == fields[k].name ==> fields[j].name == "")
      && (forall k :: 0 <= k < |fields| - 1 ==> !fields[k].flexible)
  }

  /** The slot that entry j initializes. */
  function Target(ty: Ty, block: Block, j: nat): (slot: Option<nat>)
    requires block.Empty? || j < |block.entries|
    ensures slot.Some? ==> slot.value < Slots(ty)
  {
    match block
    case Empty => None
    case Positional(_) =>
      if ty.ArrayOf? then if j < ty.bound then Some(j) else None
      else if ty.Struct? && j < |Positions(ty.fields, 0)| then Some(Positions(ty.fields, 0)[j])
      else None
    case Members(entries) => if ty.Struct? then FieldIndex(ty.fields, entries[j].memberName) else None
    case Elements(entries) =>
      if ty.ArrayOf? && entries[j].elementIndex < ty.bound then Some(entries[j].elementIndex) else None
  }

  // ----- the checker -----

  /** Assignability of the entry's expression is not looked at: it rejects more. */
  predicate Accepts(ty: Ty, block: Block)
    decreases block
  {
    block.Empty? ||
    (&& Countable(ty, block)
     && forall j :: 0 <= j < |block.entries| ==>
          && Target(ty, block, j).Some?
          && AcceptsEntry(SlotTy(ty, Target(ty, block, j).value), block.entries[j]))
  }

  predicate AcceptsEntry(slot: Ty, entry: Entry)
    decreases entry
  {
    match entry.content
    case Value(_) => !slot.ArrayOf?
    case Nested(block) => Accepts(slot, block)
  }

  /** The kind of block fits the type, entries are not too many, and designators do not repeat. */
  predicate Countable(ty: Ty, block: Block) {
    match block
    case Empty => true
    case Positional(entries) =>
      if ty.ArrayOf? then |entries| <= ty.bound else ty.Struct? && |entries| <= |Positions(ty.fields, 0)|
    case Members(entries) =>
      && ty.Struct?
      && (forall i, j :: 0 <= i < j < |entries| ==> entries[i].memberName != entries[j].memberName)
      && (forall j :: 0 <= j < |entries| ==>
            var k := FieldIndex(ty.fields, entries[j].memberName);
            k.Some? ==> !ty.fields[k.value].flexible)
    case Elements(entries) =>
      && ty.ArrayOf?
      && (forall i, j :: 0 <= i < j < |entries| ==> entries[i].elementIndex != entries[j].elementIndex)
  }

  // ----- what the initializer describes: named slots set, all others zero -----

  /** What an expression gives when assigned to an object of a type. */
  type Meaning = (nat, Ty) -> Object

  function EntryFor(ty: Ty, block: Block, k: nat, from: nat): (j: Option<nat>)
    requires !block.Empty? && from <= |block.entries|
    ensures j.Some? ==> from <= j.value < |block.entries| && Target(ty, block, j.value) == Some(k)
    ensures j.None? ==> forall i :: from <= i < |block.entries| ==> Target(ty, block, i) != Some(k)
    decreases |block.entries| - from
  {
    if from == |block.entries| then None
    else if Target(ty, block, from) == Some(k) then Some(from)
    else EntryFor(ty, block, k, from + 1)
  }

  function Described(ty: Ty, block: Block, meaning: Meaning): Object
    decreases block
  {
    if block.Empty? || ty.Scalar? then Zero(ty)
    else
      Node(seq(Slots(ty), k requires 0 <= k < Slots(ty) =>
        match EntryFor(ty, block, k, 0)
        case None => Zero(SlotTy(ty, k))
        case Some(j) =>
          assert block.entries[j] < block;
          DescribedEntry(SlotTy(ty, k), block.entries[j], meaning)))
  }

  function DescribedEntry(slot: Ty, entry: Entry, meaning: Meaning): Object
    decreases entry
  {
    match entry.content
    case Value(expr) => meaning(expr, slot)
    case Nested(block) => Described(slot, block, meaning)
  }

  // ----- first lowering: stores -----

  datatype Step = At(i: nat) | Dot(name: string)

  datatype Store = Store(path: seq<Step>, expr: nat)

  function StepOf(ty: Ty, block: Block, j: nat): Option<Step>
    requires !block.Empty? && j < |block.entries|
  {
    match block
    case Positional(_) =>
      if ty.ArrayOf? then Some(At(j))
      else if ty.Struct? && j < |Positions(ty.fields, 0)| then Some(Dot(ty.fields[Positions(ty.fields, 0)[j]].name))
      else None
    case Members(entries) =>
      if ty.Struct? && FieldIndex(ty.fields, entries[j].memberName).Some? then Some(Dot(entries[j].memberName)) else None
    case Elements(entries) => if ty.ArrayOf? then Some(At(entries[j].elementIndex)) else None
  }

  /** The type of what entry j is stored into. */
  function EntryTy(ty: Ty, block: Block, j: nat): (slot: Ty)
    requires !block.Empty? && j < |block.entries| && StepOf(ty, block, j).Some?
  {
    if ty.ArrayOf? then ty.element
    else if block.Members? then ty.fields[FieldIndex(ty.fields, block.entries[j].memberName).value].ty
    else ty.fields[Positions(ty.fields, 0)[j]].ty
  }

  function Prefixed(path: seq<Step>, stores: seq<Store>): (r: seq<Store>)
    ensures |r| == |stores|
    ensures forall i :: 0 <= i < |r| ==> r[i] == Store(path + stores[i].path, stores[i].expr)
  {
    if stores == [] then [] else [Store(path + stores[0].path, stores[0].expr)] + Prefixed(path, stores[1..])
  }

  /** The stores for the entries from j on, with paths from the object being initialized. */
  function StoresFrom(ty: Ty, block: Block, j: nat): seq<Store>
    requires block.Empty? || j <= |block.entries|
    decreases block, if block.Empty? then 0 else |block.entries| - j + 1
  {
    if block.Empty? || j == |block.entries| then []
    else EntryStores(ty, block, j) + StoresFrom(ty, block, j + 1)
  }

  function EntryStores(ty: Ty, block: Block, j: nat): seq<Store>
    requires !block.Empty? && j < |block.entries|
    decreases block, 0
  {
    match StepOf(ty, block, j)
    case None => []
    case Some(step) =>
      assert block.entries[j] < block;
      match block.entries[j].content
      case Value(expr) => [Store([step], expr)]
      case Nested(inner) => Prefixed([step], StoresFrom(EntryTy(ty, block, j), inner, 0))
  }

  function Stores(ty: Ty, block: Block): seq<Store> {
    StoresFrom(ty, block, 0)
  }

  class StoreEmitter {
    var out: seq<Store>

    constructor ()
      ensures out == []
    {
      out := [];
    }

    method Emit(path: seq<Step>, ty: Ty, block: Block)
      modifies this
      ensures out == old(out) + Prefixed(path, Stores(ty, block))
      decreases block, 1
    {
      if block.Empty? { return; }
      var j := 0;
      while j < |block.entries|
        invariant j <= |block.entries|
        invariant out + Prefixed(path, StoresFrom(ty, block, j)) == old(out) + Prefixed(path, Stores(ty, block))
      {
        EmissionStep(path, ty, block, j, out);
        EmitEntry(path, ty, block, j);
        j := j + 1;
      }
    }

    method EmitEntry(path: seq<Step>, ty: Ty, block: Block, j: nat)
      requires !block.Empty? && j < |block.entries|
      modifies this
      ensures out == old(out) + Prefixed(path, EntryStores(ty, block, j))
      decreases block, 0
    {
      var step := StepOf(ty, block, j);
      if step.None? { return; }
      assert block.entries[j] < block;
      match block.entries[j].content {
        case Value(expr) => out := out + [Store(path + [step.value], expr)];
        case Nested(inner) =>
          PrefixedTwice(path, step.value, Stores(EntryTy(ty, block, j), inner));
          Emit(path + [step.value], EntryTy(ty, block, j), inner);
      }
    }
  }

  lemma PrefixedAppend(path: seq<Step>, a: seq<Store>, b: seq<Store>)
    ensures Prefixed(path, a + b) == Prefixed(path, a) + Prefixed(path, b)
  {
  }

  lemma EmissionStep(path: seq<Step>, ty: Ty, block: Block, j: nat, out: seq<Store>)
    requires !block.Empty? && j < |block.entries|
    ensures out + Prefixed(path, StoresFrom(ty, block, j)) ==
            (out + Prefixed(path, EntryStores(ty, block, j))) + Prefixed(path, StoresFrom(ty, block, j + 1))
  {
    PrefixedAppend(path, EntryStores(ty, block, j), StoresFrom(ty, block, j + 1));
  }

  lemma PrefixedTwice(path: seq<Step>, step: Step, stores: seq<Store>)
    ensures Prefixed(path, Prefixed([step], stores)) == Prefixed(path + [step], stores)
  {
    forall i | 0 <= i < |stores| ensures path + ([step] + stores[i].path) == (path + [step]) + stores[i].path {}
  }

  // ----- what stores do to an object -----

  function Resolve(ty: Ty, step: Step): (k: Option<nat>)
    ensures k.Some? ==> k.value < Slots(ty)
  {
    match step
    case At(i) => if ty.ArrayOf? && i < ty.bound then Some(i) else None
    case Dot(name) => if ty.Struct? then FieldIndex(ty.fields, name) else None
  }

  /** One assignment; None when the path does not lead to a part of the object. */
  function Write(ty: Ty, obj: Object, path: seq<Step>, expr: nat, meaning: Meaning): Option<Object>
    decreases |path|
  {
    if path == [] then Some(meaning(expr, ty))
    else
      match Resolve(ty, path[0])
      case None => None
      case Some(k) =>
        if !obj.Node? || k >= |obj.parts| then None
        else
          match Write(SlotTy(ty, k), obj.parts[k], path[1..], expr, meaning)
          case None => None
          case Some(part) => Some(Node(obj.parts[k := part]))
  }

  function Run(ty: Ty, obj: Option<Object>, stores: seq<Store>, meaning: Meaning): Option<Object>
    decreases |stores|
  {
    if obj.None? || stores == [] then obj
    else Run(ty, Write(ty, obj.value, stores[0].path, stores[0].expr, meaning), stores[1..], meaning)
  }

  // ----- second lowering: braces -----

  datatype Init = Expression(expr: nat) | ZeroBraces | Braces(items: seq<Item>)

  datatype Item = Item(designator: Option<Step>, init: Init)

  function BracesOf(ty: Ty, block: Block): Init
    decreases block, |if block.Empty? then [] else block.entries| + 2
  {
    if block.Empty? then ZeroBraces else Braces(ItemsFrom(ty, block, 0))
  }

  function ItemsFrom(ty: Ty, block: Block, j: nat): seq<Item>
    requires !block.Empty? && j <= |block.entries|
    decreases block, |block.entries| - j + 1
  {
    if j == |block.entries| then [] else EntryItems(ty, block, j) + ItemsFrom(ty, block, j + 1)
  }

  function EntryItems(ty: Ty, block: Block, j: nat): seq<Item>
    requires !block.Empty? && j < |block.entries|
    decreases block, 0
  {
    match StepOf(ty, block, j)
    case None => []
    case Some(step) =>
      assert block.entries[j] < block;
      [Item(if block.Positional? then None else Some(step),
            match block.entries[j].content
            case Value(expr) => Expression(expr)
            case Nested(inner) => BracesOf(EntryTy(ty, block, j), inner))]
  }

  method EmitBraces(ty: Ty, block: Block) returns (init: Init)
    ensures init == BracesOf(ty, block)
    decreases block, 1
  {
    if block.Empty? { return ZeroBraces; }
    var items, j := [], 0;
    while j < |block.entries|
      invariant j <= |block.entries|
      invariant items + ItemsFrom(ty, block, j) == ItemsFrom(ty, block, 0)
    {
      var more := EmitItem(ty, block, j);
      items := items + more;
      j := j + 1;
    }
    return Braces(items);
  }

  method EmitItem(ty: Ty, block: Block, j: nat) returns (items: seq<Item>)
    requires !block.Empty? && j < |block.entries|
    ensures items == EntryItems(ty, block, j)
    decreases block, 0
  {
    var step := StepOf(ty, block, j);
    if step.None? { return []; }
    assert block.entries[j] < block;
    var content;
    match block.entries[j].content {
      case Value(expr) => content := Expression(expr);
      case Nested(inner) => content := EmitBraces(EntryTy(ty, block, j), inner);
    }
    return [Item(if block.Positional? then None else step, content)];
  }

  // ----- what braces mean: ISO/IEC 9899:1999 section 6.7.8 -----

  /** The next member or element an entry without a designator initializes (paragraph 17). */
  function NextSlot(ty: Ty, cursor: nat): (k: nat)
    requires cursor <= Slots(ty)
    ensures cursor <= k <= Slots(ty)
    decreases Slots(ty) - cursor
  {
    if ty.Struct? && cursor < |ty.fields| && !Positionable(ty.fields[cursor]) then NextSlot(ty, cursor + 1)
    else cursor
  }

  /** `{0}`: without inner braces the zero goes to the first scalar (paragraph 20); the rest of
      the object is zero as well (paragraph 21). */
  function ZeroFirst(ty: Ty, obj: Object): Object {
    if ty.Scalar? then Cell(0)
    else
      var k := NextSlot(ty, 0);
      if k < Slots(ty) && obj.Node? && k < |obj.parts|
      then Node(obj.parts[k := ZeroFirst(SlotTy(ty, k), obj.parts[k])])
      else obj
  }

  function Initialized(ty: Ty, init: Init, meaning: Meaning): Option<Object>
    decreases init
  {
    match init
    case Expression(expr) => if ty.ArrayOf? then None else Some(meaning(expr, ty))
    case ZeroBraces => Some(ZeroFirst(ty, Zero(ty)))
    case Braces(items) => if ty.Scalar? then None else Fill(ty, items, 0, Zero(ty), meaning)
  }

  /** An item goes to its designator, or else to the cursor. */
  function SlotFor(ty: Ty, designator: Option<Step>, cursor: nat): (k: Option<nat>)
    requires cursor <= Slots(ty)
    ensures k.Some? ==> k.value < Slots(ty)
  {
    match designator
    case Some(step) => Resolve(ty, step)
    case None => if NextSlot(ty, cursor) < Slots(ty) then Some(NextSlot(ty, cursor)) else None
  }

  /** Items in list order, the cursor moving past each (paragraphs 17 to 19). */
  function Fill(ty: Ty, items: seq<Item>, cursor: nat, obj: Object, meaning: Meaning): Option<Object>
    requires cursor <= Slots(ty)
    decreases items
  {
    if items == [] then Some(obj)
    else
      match SlotFor(ty, items[0].designator, cursor)
      case None => None
      case Some(k) =>
        match PlaceItem(ty, items[0], k, obj, meaning)
        case None => None
        case Some(next) => Fill(ty, items[1..], k + 1, next, meaning)
  }

  function PlaceItem(ty: Ty, item: Item, k: nat, obj: Object, meaning: Meaning): Option<Object>
    requires k < Slots(ty)
    decreases item
  {
    if !obj.Node? || k >= |obj.parts| then None
    else
      match Initialized(SlotTy(ty, k), item.init, meaning)
      case None => None
      case Some(part) => Some(Node(obj.parts[k := part]))
  }
}
