/** The runtime's lists: a growable buffer per list, reached through handles that may alias. */
module Lists {
  import opened Options

  /** A boxed value.  A list value is a pointer into the memory of lists. */
  datatype PsValue =
    | Number(i: int)
    | Decimal(d: real)
    | Text(s: string)
    | ListRef(handle: nat)

  /** One list as its users see it, with the room it has and the items that growing it moved. */
  datatype Buffer = Buffer(items: seq<PsValue>, capacity: nat, moved: nat)

  type World = seq<Buffer>

  // ----- what each operation does to one list -----

  function Filled(items: seq<PsValue>): Buffer {
    Buffer(items, if |items| > 4 then |items| else 4, 0)
  }

  function Appended(b: Buffer, item: PsValue): Buffer {
    if |b.items| == b.capacity then
      Buffer(b.items + [item], if b.capacity > 0 then b.capacity * 2 else 4, b.moved + |b.items|)
    else b.(items := b.items + [item])
  }

  function Replaced(b: Buffer, k: nat, item: PsValue): Buffer
    requires k < |b.items|
  {
    b.(items := b.items[k := item])
  }

  function Removed(b: Buffer, k: nat): Buffer
    requires k < |b.items|
  {
    b.(items := b.items[..k] + b.items[k + 1..])
  }

  // ----- the same on a memory of lists; None is a runtime error -----

  function ItemsOf(w: World, list: PsValue): Option<seq<PsValue>> {
    if list.ListRef? && list.handle < |w| then Some(w[list.handle].items) else None
  }

  /** Positions count from one. */
  function Position(w: World, list: PsValue, index: PsValue): Option<nat> {
    match ItemsOf(w, list)
    case Some(items) =>
      if index.Number? && 1 <= index.i <= |items| then Some(index.i - 1) else None
    case None => None
  }

  function AppendIn(w: World, list: PsValue, item: PsValue): Option<World> {
    if ItemsOf(w, list).Some? then Some(w[list.handle := Appended(w[list.handle], item)]) else None
  }

  function GetIn(w: World, list: PsValue, index: PsValue): Option<PsValue> {
    match Position(w, list, index)
    case Some(k) => Some(w[list.handle].items[k])
    case None => None
  }

  function SetIn(w: World, list: PsValue, index: PsValue, item: PsValue): Option<World> {
    match Position(w, list, index)
    case Some(k) => Some(w[list.handle := Replaced(w[list.handle], k, item)])
    case None => None
  }

  function RemoveIn(w: World, list: PsValue, index: PsValue): Option<World> {
    match Position(w, list, index)
    case Some(k) => Some(w[list.handle := Removed(w[list.handle], k)])
    case None => None
  }

  // ----- the laws of a one-based sequence -----

  /** Reading answers for exactly the numbers from one to the length of a list there is. */
  lemma GetAnswers(w: World, list: PsValue, at: PsValue)
    ensures GetIn(w, list, at).Some? <==>
            list.ListRef? && list.handle < |w| && at.Number? && 1 <= at.i <= |w[list.handle].items|
    ensures GetIn(w, list, at).Some? ==> GetIn(w, list, at).value == w[list.handle].items[at.i - 1]
  {
  }

  /** A new list has the given items and room for at least four; the old lists keep theirs. */
  lemma GetAfterFilled(w: World, items: seq<PsValue>, list: PsValue, at: PsValue)
    ensures Filled(items).capacity >= 4 && Filled(items).capacity >= |items|
    ensures GetIn(w + [Filled(items)], list, at) ==
            if list != ListRef(|w|) then GetIn(w, list, at)
            else if at.Number? && 1 <= at.i <= |items| then Some(items[at.i - 1])
            else None
  {
  }

  /** Setting changes what is read at that position of that list and nothing else. */
  lemma GetAfterSet(w: World, list: PsValue, index: PsValue, item: PsValue, other: PsValue, at: PsValue)
    ensures SetIn(w, list, index, item).Some? <==> GetIn(w, list, index).Some?
    ensures match SetIn(w, list, index, item)
            case Some(after) =>
              GetIn(after, other, at) == if other == list && at == index then Some(item) else GetIn(w, other, at)
            case None => true
  {
  }

  /** Appending adds one position, behind all others. */
  lemma GetAfterAppend(w: World, list: PsValue, item: PsValue, other: PsValue, at: PsValue)
    ensures AppendIn(w, list, item).Some? <==> list.ListRef? && list.handle < |w|
    ensures match AppendIn(w, list, item)
            case Some(after) =>
              GetIn(after, other, at) ==
              if other == list && at == Number(|w[list.handle].items| + 1) then Some(item) else GetIn(w, other, at)
            case None => true
  {
  }

  /** Removing moves every later item down by one position. */
  lemma GetAfterRemove(w: World, list: PsValue, index: PsValue, other: PsValue, at: PsValue)
    ensures RemoveIn(w, list, index).Some? <==> GetIn(w, list, index).Some?
    ensures match RemoveIn(w, list, index)
            case Some(after) =>
              GetIn(after, other, at) ==
              if other == list && at.Number? && at.i >= index.i then GetIn(w, list, Number(at.i + 1))
              else GetIn(w, other, at)
            case None => true
  {
    if RemoveIn(w, list, index).Some? && other == list && at.Number? {
      var b, k := w[list.handle], index.i - 1;
      assert |Removed(b, k).items| == |b.items| - 1;
    }
  }

  lemma SameAt(w: World, v: World, list: PsValue, i: nat)
    requires ItemsOf(w, list).Some? && ItemsOf(v, list).Some?
    requires GetIn(w, list, Number(i + 1)) == GetIn(v, list, Number(i + 1))
    ensures var a, b := ItemsOf(w, list).value, ItemsOf(v, list).value;
            (i < |a| <==> i < |b|) && (i < |a| ==> a[i] == b[i])
  {
  }

  /** Reading at every position decides the items. */
  lemma ReadingDecides(w: World, v: World, list: PsValue)
    requires ItemsOf(w, list).Some? && ItemsOf(v, list).Some?
    requires forall at :: GetIn(w, list, at) == GetIn(v, list, at)
    ensures ItemsOf(w, list) == ItemsOf(v, list)
  {
    var a, b := ItemsOf(w, list).value, ItemsOf(v, list).value;
    SameAt(w, v, list, |a|);
    SameAt(w, v, list, |b|);
    forall i | 0 <= i < |a| ensures i < |b| && a[i] == b[i] { SameAt(w, v, list, i); }
    assert a == b;
  }

  // ----- the buffers -----

  class PsList {
    var items: array<PsValue>
    var length: nat
    var capacity: nat
    ghost var moved: nat

    ghost predicate Valid()
      reads this
    {
      length <= capacity == items.Length
    }

    ghost function State(): Buffer
      requires Valid()
      reads this, items
    {
      Buffer(items[..length], capacity, moved)
    }

    constructor (source: seq<PsValue>)
      ensures Valid() && fresh(items)
      ensures State() == Filled(source)
    {
      length := |source|;
      capacity := if |source| > 4 then |source| else 4;
      moved := 0;
      var buffer := new PsValue[if |source| > 4 then |source| else 4];
      items := buffer;
      new;
      forall k | 0 <= k < |source| { buffer[k] := source[k]; }
    }

    method Append(item: PsValue)
      requires Valid()
      modifies this, items
      ensures Valid() && (items == old(items) || fresh(items))
      ensures State() == Appended(old(State()), item)
    {
      if length == capacity {
        var room := if capacity > 0 then capacity * 2 else 4;
        var bigger := new PsValue[room];
        forall k | 0 <= k < length { bigger[k] := items[k]; }
        moved := moved + length;
        items := bigger;
        capacity := room;
      }
      items[length] := item;
      length := length + 1;
    }

    method Replace(k: nat, item: PsValue)
      requires Valid() && k < length
      modifies items
      ensures State() == Replaced(old(State()), k, item)
    {
      items[k] := item;
    }

    method Remove(k: nat)
      requires Valid() && k < length
      modifies this`length, items
      ensures Valid()
      ensures State() == Removed(old(State()), k)
    {
      if k + 1 < length {
        forall j | k <= j < length - 1 { items[j] := items[j + 1]; }
      }
      length := length - 1;
    }
  }

  // ----- every list of a program -----

  class Memory {
    var lists: seq<PsList>

    /** Two lists never share a buffer. */
    ghost predicate Valid()
      reads this, lists
    {
      && (forall h :: 0 <= h < |lists| ==> lists[h].Valid())
      && (forall g, h :: 0 <= g < h < |lists| ==> lists[g] != lists[h] && lists[g].items != lists[h].items)
    }

    ghost function Buffers(): set<object>
      reads this, lists
    {
      set h | 0 <= h < |lists| :: lists[h].items
    }

    ghost function Contents(): (w: World)
      requires Valid()
      reads this, lists, Buffers()
      ensures |w| == |lists|
    {
      seq(|lists|, h requires 0 <= h < |lists| reads this, lists, Buffers() requires Valid() => lists[h].State())
    }

    constructor ()
      ensures Valid() && Contents() == []
    {
      lists := [];
    }

    method ListFrom(items: seq<PsValue>) returns (list: PsValue)
      requires Valid()
      modifies this
      ensures Valid() && list == ListRef(|old(lists)|)
      ensures Contents() == old(Contents()) + [Filled(items)]
    {
      var l := new PsList(items);
      list := ListRef(|lists|);
      lists := lists + [l];
    }

    method ListIndex(list: PsValue, index: PsValue) returns (k: Option<nat>)
      requires Valid()
      ensures k == Position(Contents(), list, index)
    {
      if !list.ListRef? || list.handle >= |lists| { return None; }
      if !index.Number? { return None; }
      if index.i < 1 || index.i > lists[list.handle].length { return None; }
      return Some(index.i - 1);
    }

    method ListCopy(list: PsValue) returns (copy: Option<PsValue>)
      requires Valid()
      modifies this
      ensures Valid()
      ensures match ItemsOf(old(Contents()), list)
              case Some(items) =>
                copy == Some(ListRef(|old(lists)|)) && Contents() == old(Contents()) + [Filled(items)]
              case None => copy == None && Contents() == old(Contents())
    {
      if !list.ListRef? || list.handle >= |lists| { return None; }
      var l := lists[list.handle];
      var v := ListFrom(l.items[..l.length]);
      return Some(v);
    }

    method Append(list: PsValue, item: PsValue) returns (ok: bool)
      requires Valid()
      modifies this, lists, Buffers()
      ensures Valid() && lists == old(lists)
      ensures match AppendIn(old(Contents()), list, item)
              case Some(w) => ok && Contents() == w
              case None => !ok && Contents() == old(Contents())
    {
      if !list.ListRef? || list.handle >= |lists| { return false; }
      lists[list.handle].Append(item);
      return true;
    }

    method Get(list: PsValue, index: PsValue) returns (item: Option<PsValue>)
      requires Valid()
      ensures item == GetIn(Contents(), list, index)
    {
      var k := ListIndex(list, index);
      if k.None? { return None; }
      return Some(lists[list.handle].items[k.value]);
    }

    method Set(list: PsValue, index: PsValue, item: PsValue) returns (ok: bool)
      requires Valid()
      modifies lists, Buffers()
      ensures Valid() && lists == old(lists)
      ensures match SetIn(old(Contents()), list, index, item)
              case Some(w) => ok && Contents() == w
              case None => !ok && Contents() == old(Contents())
    {
      var k := ListIndex(list, index);
      if k.None? { return false; }
      lists[list.handle].Replace(k.value, item);
      return true;
    }

    method Remove(list: PsValue, index: PsValue) returns (ok: bool)
      requires Valid()
      modifies lists, Buffers()
      ensures Valid() && lists == old(lists)
      ensures match RemoveIn(old(Contents()), list, index)
              case Some(w) => ok && Contents() == w
              case None => !ok && Contents() == old(Contents())
    {
      var k := ListIndex(list, index);
      if k.None? { return false; }
      lists[list.handle].Remove(k.value);
      return true;
    }
  }
}
