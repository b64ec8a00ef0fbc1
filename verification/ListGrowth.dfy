/** Amortised cost of growing a list by doubling. */
module ListGrowth {
  import opened Options
  import opened Lists

  datatype Change =
    | Append(item: PsValue)
    | Replace(k: nat, item: PsValue)
    | Remove(k: nat)

  /** The changes one after another; None when a position is out of range. */
  function After(b: Buffer, changes: seq<Change>): Option<Buffer>
    decreases |changes|
  {
    if changes == [] then Some(b)
    else
      match changes[0]
      case Append(item) => After(Appended(b, item), changes[1..])
      case Replace(k, item) => if k < |b.items| then After(Replaced(b, k, item), changes[1..]) else None
      case Remove(k) => if k < |b.items| then After(Removed(b, k), changes[1..]) else None
  }

  function Appends(changes: seq<Change>): nat {
    if changes == [] then 0 else (if changes[0].Append? then 1 else 0) + Appends(changes[1..])
  }

  /** Every doubling moves as many items as the room it adds, and needs that many to be there. */
  predicate Grown(b: Buffer, start: nat, most: nat) {
    && |b.items| <= b.capacity
    && |b.items| <= most
    && b.capacity == start + b.moved
    && (b.moved > 0 ==> b.capacity + 2 <= 2 * most)
  }

  lemma {:induction false} GrowthSteps(b: Buffer, changes: seq<Change>, start: nat, most: nat)
    requires Grown(b, start, most) && start > 0
    ensures var r := After(b, changes); r.Some? ==> Grown(r.value, start, most + Appends(changes))
    decreases |changes|
  {
    if changes != [] {
      match changes[0]
      case Append(item) => GrowthSteps(Appended(b, item), changes[1..], start, most + 1);
      case Replace(k, item) =>
        if k < |b.items| { GrowthSteps(Replaced(b, k, item), changes[1..], start, most); }
      case Remove(k) =>
        if k < |b.items| { GrowthSteps(Removed(b, k), changes[1..], start, most); }
    }
  }

  /** From a list of `count` items, growth moves exactly the room gained, which is at most
      twice the items there and appended; the room stays within the same bound. */
  lemma AmortisedGrowth(items: seq<PsValue>, changes: seq<Change>)
    ensures var r, n, first := After(Filled(items), changes), |items| + Appends(changes), Filled(items).capacity;
            r.Some? ==>
              && |r.value.items| <= r.value.capacity
              && r.value.moved == r.value.capacity - first
              && r.value.moved <= 2 * n
              && r.value.capacity <= (if 2 * n > 4 then 2 * n else 4)
  {
    GrowthSteps(Filled(items), changes, Filled(items).capacity, |items|);
  }
}
