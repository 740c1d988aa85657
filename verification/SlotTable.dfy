/** The router's slot state: one allocator per decode node, created on first use, and who was sent where. */
module SlotTable {
  import opened Basics
  import opened Messages
  import opened Slots

  type Table = map<Id, NodeSlotAllocator>

  /** Creates the allocators of the nodes in ns that have none. */
  function Initialised(t: Table, max: int, ns: set<Id>): Table {
    map n | n in t.Keys + ns :: if n in t then t[n] else Fresh(max)
  }

  function WithFreeSlot(t: Table, ns: set<Id>): set<Id> {
    set n | n in ns && n in t && HasFreeSlot(t[n])
  }

  function AllocateOn(t: Table, max: int, n: Id, r: Id): (Option<int>, Table) {
    var t' := Initialised(t, max, {n});
    var (slot, a) := Allocate(t'[n], r);
    (slot, t'[n := a])
  }

  function ReleaseOn(t: Table, n: Id, r: Id): (bool, Table) {
    if n !in t then (false, t) else
      var (freed, a) := Release(t[n], r);
      (freed, t[n := a])
  }

  /** free_slot: forget where r was sent and return its slot there. */
  function FreeSlotOf(t: Table, owner: map<Id, Id>, r: Id): (Table, map<Id, Id>) {
    if r !in owner then (t, owner) else (ReleaseOn(t, owner[r], r).1, owner - {r})
  }

  // ---- What every one of these steps keeps ----

  ghost predicate AllPartitioned(t: Table, max: int) {
    forall n :: n in t ==> Partitioned(t[n]) && t[n].maxSlots == max
  }

  lemma InitialisedKeepsPartition(t: Table, max: int, ns: set<Id>)
    requires AllPartitioned(t, max)
    ensures AllPartitioned(Initialised(t, max, ns), max)
  {
    FreshIsPartitioned(max);
  }

  lemma AllocateOnKeepsPartition(t: Table, max: int, n: Id, r: Id)
    requires AllPartitioned(t, max)
    ensures AllPartitioned(AllocateOn(t, max, n, r).1, max)
  {
    InitialisedKeepsPartition(t, max, {n});
    AllocateKeepsPartition(Initialised(t, max, {n})[n], r);
  }

  lemma FreeKeepsPartition(t: Table, owner: map<Id, Id>, max: int, r: Id)
    requires AllPartitioned(t, max)
    ensures AllPartitioned(FreeSlotOf(t, owner, r).0, max)
  {
    if r in owner && owner[r] in t {
      ReleaseKeepsPartition(t[owner[r]], r);
    }
  }

  /** Which requests hold a slot on n; a node without an allocator yet has none. */
  function HoldersOn(t: Table, n: Id): set<Id> {
    if n in t then t[n].requestToSlot.Keys else {}
  }

  function FreeOn(t: Table, max: int, n: Id): seq<int> {
    if n in t then t[n].freeSlots else Fresh(max).freeSlots
  }

  /** Every held slot is recorded for its holder, on every node. */
  ghost predicate AllInverse(t: Table) {
    forall n :: n in t ==> MutuallyInverse(t[n])
  }

  /** Who holds a slot changed on n only, and there by `joined` coming and `left` going. */
  ghost predicate HoldersChanged(t: Table, t': Table, n: Id, joined: set<Id>, left: set<Id>) {
    forall m :: HoldersOn(t', m) == if m == n then HoldersOn(t, m) + joined - left else HoldersOn(t, m)
  }

  /** Nobody who held a slot before and after was moved to another one. */
  ghost predicate SlotsKept(t: Table, t': Table) {
    forall m, q :: q in HoldersOn(t, m) && q in HoldersOn(t', m) ==> t'[m].requestToSlot[q] == t[m].requestToSlot[q]
  }

  lemma InitialisedChangesNothing(t: Table, max: int, ns: set<Id>)
    requires AllInverse(t)
    ensures AllInverse(Initialised(t, max, ns)) && SlotsKept(t, Initialised(t, max, ns))
    ensures forall n :: HoldersOn(Initialised(t, max, ns), n) == HoldersOn(t, n)
    ensures forall n :: FreeOn(Initialised(t, max, ns), max, n) == FreeOn(t, max, n)
  {
    FreshIsPartitioned(max);
  }

  lemma StoreEffect(t: Table, max: int, n: Id, a: NodeSlotAllocator, joined: set<Id>, t': Table)
    requires AllInverse(t) && MutuallyInverse(a) && t' == Initialised(t, max, {n})[n := a]
    requires a.requestToSlot.Keys == HoldersOn(t, n) + joined
    requires forall q :: q in HoldersOn(t, n) ==> a.requestToSlot[q] == t[n].requestToSlot[q]
    ensures AllInverse(t') && HoldersChanged(t, t', n, joined, {}) && SlotsKept(t, t')
  {
    InitialisedChangesNothing(t, max, {n});
  }

  /** An allocation succeeds iff a slot is free, and then r is the one new holder, on n only. */
  lemma AllocateOnEffect(t: Table, max: int, n: Id, r: Id, slot: Option<int>, t': Table)
    requires AllPartitioned(t, max) && AllInverse(t) && r !in HoldersOn(t, n)
    requires (slot, t') == AllocateOn(t, max, n, r)
    ensures AllInverse(t') && (slot.Some? <==> FreeOn(t, max, n) != [])
    ensures HoldersChanged(t, t', n, if slot.Some? then {r} else {}, {})
    ensures n in t' && SlotsKept(t, t') && (slot.Some? ==> t'[n].requestToSlot[r] == slot.value)
  {
    var t0 := Initialised(t, max, {n});
    assert AllInverse(t0) by { InitialisedChangesNothing(t, max, {n}); }
    assert Partitioned(t0[n]) by { InitialisedKeepsPartition(t, max, {n}); }
    AllocateEffect(t0[n], r, slot, t'[n]);
    StoreEffect(t, max, n, t'[n], if slot.Some? then {r} else {}, t');
  }

  /** Freeing takes r off the node it was sent to and off no other. */
  lemma FreeEffect(t: Table, owner: map<Id, Id>, r: Id, t': Table)
    requires AllInverse(t) && r in owner
    requires t' == FreeSlotOf(t, owner, r).0
    ensures AllInverse(t') && t'.Keys == t.Keys
    ensures HoldersChanged(t, t', owner[r], {}, {r}) && SlotsKept(t, t')
  {
    if owner[r] in t {
      ReleaseKeepsInverse(t[owner[r]], r);
    }
  }
}
