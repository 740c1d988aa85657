/** The memory slots of one decode node: a FIFO free queue and the two maps that say who holds what. */
module Slots {
  import opened Basics
  import opened Messages

  datatype NodeSlotAllocator = Allocator(
    maxSlots: int, freeSlots: seq<int>, requestToSlot: map<Id, int>, slotToRequest: map<int, Id>)

  function Fresh(maxSlots: int): NodeSlotAllocator {
    Allocator(maxSlots, seq(if maxSlots < 0 then 0 else maxSlots, i => i), map[], map[])
  }

  /** The constructor: the queue is filled slot by slot. */
  method NewAllocator(maxSlots: int) returns (a: NodeSlotAllocator)
    ensures |a.freeSlots| == if maxSlots < 0 then 0 else maxSlots
    ensures forall i :: 0 <= i < |a.freeSlots| ==> a.freeSlots[i] == i
    ensures a.maxSlots == maxSlots && a.requestToSlot == map[] && a.slotToRequest == map[]
    ensures a == Fresh(maxSlots)
  {
    var queue := [];
    for i := 0 to if maxSlots < 0 then 0 else maxSlots
      invariant queue == seq(i, j => j)
    {
      queue := queue + [i];
    }
    a := Allocator(maxSlots, queue, map[], map[]);
  }

  predicate HasFreeSlot(a: NodeSlotAllocator) {
    a.freeSlots != []
  }

  function AvailableSlots(a: NodeSlotAllocator): int {
    |a.freeSlots|
  }

  function UsedSlots(a: NodeSlotAllocator): int {
    a.maxSlots - |a.freeSlots|
  }

  /** Hands the slot at the front of the queue to r. */
  function Allocate(a: NodeSlotAllocator, r: Id): (Option<int>, NodeSlotAllocator) {
    if a.freeSlots == [] then (None, a) else
      var slot := a.freeSlots[0];
      (Some(slot), a.(freeSlots := a.freeSlots[1..],
                      requestToSlot := a.requestToSlot[r := slot],
                      slotToRequest := a.slotToRequest[slot := r]))
  }

  /** Returns the slot that r is recorded for to the back of the queue. */
  function Release(a: NodeSlotAllocator, r: Id): (bool, NodeSlotAllocator) {
    if r !in a.requestToSlot then (false, a) else
      var slot := a.requestToSlot[r];
      (true, a.(freeSlots := a.freeSlots + [slot],
                requestToSlot := a.requestToSlot - {r},
                slotToRequest := a.slotToRequest - {slot}))
  }

  // ---- Invariants ----

  /** Free slots and held slots partition 0..maxSlots-1, and a recorded slot is held by its request. */
  ghost predicate Partitioned(a: NodeSlotAllocator) {
    && NoDuplicates(a.freeSlots)
    && (forall s :: s in a.freeSlots ==> s !in a.slotToRequest)
    && (forall s :: 0 <= s < a.maxSlots <==> s in a.freeSlots || s in a.slotToRequest)
    && (forall r :: r in a.requestToSlot ==>
          a.requestToSlot[r] in a.slotToRequest && a.slotToRequest[a.requestToSlot[r]] == r)
  }

  /** The two maps are inverse to each other: nothing is held that no request is recorded for. */
  ghost predicate MutuallyInverse(a: NodeSlotAllocator) {
    && (forall r :: r in a.requestToSlot ==>
          a.requestToSlot[r] in a.slotToRequest && a.slotToRequest[a.requestToSlot[r]] == r)
    && (forall s :: s in a.slotToRequest ==>
          a.slotToRequest[s] in a.requestToSlot && a.requestToSlot[a.slotToRequest[s]] == s)
  }

  lemma FreshIsPartitioned(maxSlots: int)
    ensures Partitioned(Fresh(maxSlots)) && MutuallyInverse(Fresh(maxSlots))
  {
    var a := Fresh(maxSlots);
    forall s ensures 0 <= s < maxSlots <==> s in a.freeSlots {
      if 0 <= s < maxSlots { assert a.freeSlots[s] == s; }
    }
  }

  /** No assumption on request ids: even an id that already holds a slot keeps the partition. */
  lemma AllocateKeepsPartition(a: NodeSlotAllocator, r: Id)
    requires Partitioned(a)
    ensures Partitioned(Allocate(a, r).1)
  {
    if a.freeSlots != [] {
      var slot, a' := a.freeSlots[0], Allocate(a, r).1;
      assert a.freeSlots == [slot] + a'.freeSlots;
      forall s ensures 0 <= s < a.maxSlots <==> s in a'.freeSlots || s in a'.slotToRequest {
        assert s in a.freeSlots <==> s == slot || s in a'.freeSlots;
      }
    }
  }

  lemma ReleaseKeepsPartition(a: NodeSlotAllocator, r: Id)
    requires Partitioned(a)
    ensures Partitioned(Release(a, r).1)
  {
    if r in a.requestToSlot {
      var slot, a' := a.requestToSlot[r], Release(a, r).1;
      assert forall s :: s in a'.freeSlots <==> s in a.freeSlots || s == slot;
    }
  }

  /** Allocation keeps the maps inverse exactly when the request holds no slot here yet. */
  lemma InverseIffNotHolding(a: NodeSlotAllocator, r: Id)
    requires Partitioned(a) && MutuallyInverse(a) && HasFreeSlot(a)
    ensures MutuallyInverse(Allocate(a, r).1) <==> r !in a.requestToSlot
  {
    var slot, a' := a.freeSlots[0], Allocate(a, r).1;
    assert slot in a.freeSlots;
    if r in a.requestToSlot {
      var earlier := a.requestToSlot[r];
      assert earlier in a'.slotToRequest && a'.slotToRequest[earlier] == r;
    }
  }

  /** A request that holds nothing becomes the one new holder, if there is a free slot. */
  lemma AllocateEffect(a: NodeSlotAllocator, r: Id, slot: Option<int>, a': NodeSlotAllocator)
    requires Partitioned(a) && MutuallyInverse(a) && r !in a.requestToSlot && (slot, a') == Allocate(a, r)
    ensures MutuallyInverse(a') && (slot.Some? <==> HasFreeSlot(a))
    ensures a'.requestToSlot == if slot.Some? then a.requestToSlot[r := slot.value] else a.requestToSlot
  {
    if HasFreeSlot(a) {
      InverseIffNotHolding(a, r);
    }
  }

  lemma ReleaseKeepsInverse(a: NodeSlotAllocator, r: Id)
    requires MutuallyInverse(a)
    ensures MutuallyInverse(Release(a, r).1)
  {
  }

  lemma {:induction false} RangeSize(n: nat, s: set<int>)
    requires forall x :: x in s <==> 0 <= x < n
    ensures |s| == n
  {
    if n == 0 {
      assert forall x :: x !in s;
    } else {
      RangeSize(n - 1, s - {n - 1});
      assert n - 1 in s && |s - {n - 1}| == |s| - 1;
    }
  }

  lemma {:induction false} NoDuplicatesSize(q: seq<int>, s: set<int>)
    requires NoDuplicates(q) && forall x :: x in s <==> x in q
    ensures |s| == |q|
  {
    if q == [] {
      assert forall x :: x !in s;
    } else {
      var last := |q| - 1;
      assert q == q[..last] + [q[last]];
      NoDuplicatesSize(q[..last], s - {q[last]});
      assert q[last] in s && |s - {q[last]}| == |s| - 1;
    }
  }

  lemma SizesAddUp(q: seq<int>, held: set<int>, n: nat)
    requires NoDuplicates(q) && forall x :: x in q ==> x !in held
    requires forall x :: 0 <= x < n <==> x in q || x in held
    ensures |q| + |held| == n
  {
    var free := set s | s in q;
    NoDuplicatesSize(q, free);
    assert forall x :: x in free + held <==> x in q || x in held;
    RangeSize(n, free + held);
    assert free !! held;
  }

  /** Used slots are counted by the held map, and by the recorded requests when the maps agree. */
  lemma UsedIsHeld(a: NodeSlotAllocator)
    requires Partitioned(a)
    ensures AvailableSlots(a) + |a.slotToRequest| == if a.maxSlots < 0 then 0 else a.maxSlots
    ensures a.maxSlots >= 0 ==> UsedSlots(a) == |a.slotToRequest|
    ensures MutuallyInverse(a) ==> |a.requestToSlot| == |a.slotToRequest|
  {
    SizesAddUp(a.freeSlots, a.slotToRequest.Keys, if a.maxSlots < 0 then 0 else a.maxSlots);
    if MutuallyInverse(a) {
      SameSize(a.requestToSlot, a.slotToRequest);
    }
  }

  lemma {:induction false} SameSize<X, Y>(m: map<X, Y>, n: map<Y, X>)
    requires forall x :: x in m ==> m[x] in n && n[m[x]] == x
    requires forall y :: y in n ==> n[y] in m && m[n[y]] == y
    ensures |m| == |n|
    decreases |m|
  {
    if m.Keys == {} {
      assert forall y :: y in n.Keys ==> n[y] in m.Keys;
      assert n.Keys == {};
    } else {
      var x :| x in m;
      SameSize(m - {x}, n - {m[x]});
      assert |m - {x}| == |m| - 1 by { assert (m - {x}).Keys == m.Keys - {x}; }
      assert |n - {m[x]}| == |n| - 1 by { assert (n - {m[x]}).Keys == n.Keys - {m[x]}; }
    }
  }

  // ---- A slot that is held but recorded for nobody never comes back ----

  ghost predicate Leaked(a: NodeSlotAllocator, s: int) {
    s in a.slotToRequest && forall r :: r in a.requestToSlot ==> a.requestToSlot[r] != s
  }

  /** Giving a slot to a request that already holds one leaks the earlier slot. */
  lemma SecondSlotLeaksFirst(a: NodeSlotAllocator, r: Id)
    requires Partitioned(a) && r in a.requestToSlot && HasFreeSlot(a)
    ensures Leaked(Allocate(a, r).1, a.requestToSlot[r])
  {
    assert a.freeSlots[0] in a.freeSlots;
  }

  // ---- Runs of one allocator ----

  datatype Op = Take(r: Id) | Return(r: Id)

  function Apply(a: NodeSlotAllocator, op: Op): NodeSlotAllocator {
    match op
    case Take(r) => Allocate(a, r).1
    case Return(r) => Release(a, r).1
  }

  function After(a: NodeSlotAllocator, ops: seq<Op>): NodeSlotAllocator
    decreases |ops|
  {
    if ops == [] then a else After(Apply(a, ops[0]), ops[1..])
  }

  /** The slots a run hands out, in order. */
  function Handed(a: NodeSlotAllocator, ops: seq<Op>): seq<int>
    decreases |ops|
  {
    if ops == [] then [] else
      (if ops[0].Take? && Allocate(a, ops[0].r).0.Some? then [Allocate(a, ops[0].r).0.value] else [])
      + Handed(Apply(a, ops[0]), ops[1..])
  }

  /** The slots a run takes back, in order. */
  function Returned(a: NodeSlotAllocator, ops: seq<Op>): seq<int>
    decreases |ops|
  {
    if ops == [] then [] else
      (if ops[0].Return? && ops[0].r in a.requestToSlot then [a.requestToSlot[ops[0].r]] else [])
      + Returned(Apply(a, ops[0]), ops[1..])
  }

  lemma {:induction false} RunsCompose(a: NodeSlotAllocator, ops: seq<Op>, more: seq<Op>)
    ensures After(a, ops + more) == After(After(a, ops), more)
    ensures Handed(a, ops + more) == Handed(a, ops) + Handed(After(a, ops), more)
    decreases |ops|
  {
    if ops == [] {
      assert ops + more == more;
    } else {
      assert (ops + more)[0] == ops[0] && (ops + more)[1..] == ops[1..] + more;
      RunsCompose(Apply(a, ops[0]), ops[1..], more);
    }
  }

  lemma {:induction false} ReturnsCompose(a: NodeSlotAllocator, ops: seq<Op>, more: seq<Op>)
    ensures Returned(a, ops + more) == Returned(a, ops) + Returned(After(a, ops), more)
    decreases |ops|
  {
    if ops == [] {
      assert ops + more == more;
    } else {
      assert (ops + more)[0] == ops[0] && (ops + more)[1..] == ops[1..] + more;
      ReturnsCompose(Apply(a, ops[0]), ops[1..], more);
    }
  }

  lemma {:induction false} LeakIsPermanent(a: NodeSlotAllocator, ops: seq<Op>, s: int)
    requires Partitioned(a) && Leaked(a, s)
    ensures Leaked(After(a, ops), s) && s !in Handed(a, ops) && s !in After(a, ops).freeSlots
    decreases |ops|
  {
    if ops == [] {
    } else {
      var a' := Apply(a, ops[0]);
      match ops[0] {
        case Take(r) =>
          AllocateKeepsPartition(a, r);
          if a.freeSlots != [] { assert a.freeSlots[0] in a.freeSlots; }
        case Return(r) => ReleaseKeepsPartition(a, r);
      }
      LeakIsPermanent(a', ops[1..], s);
    }
  }

  lemma HeadMoves<T>(x: T, out: seq<T>, left: seq<T>, queue: seq<T>, back: seq<T>)
    requires out + left == queue + back
    ensures ([x] + out) + left == ([x] + queue) + back
  {
    AppendAssociates([x], out, left);
    AppendAssociates([x], queue, back);
  }

  /** Slots leave the queue in the order they stood in it or came back to it. */
  lemma {:induction false} QueueIsFifo(a: NodeSlotAllocator, ops: seq<Op>)
    ensures Handed(a, ops) + After(a, ops).freeSlots == a.freeSlots + Returned(a, ops)
    decreases |ops|
  {
    if ops == [] {
    } else {
      var a', rest := Apply(a, ops[0]), ops[1..];
      QueueIsFifo(a', rest);
      if ops[0].Take? && a.freeSlots != [] {
        assert a.freeSlots == [a.freeSlots[0]] + a'.freeSlots;
        assert Returned(a, ops) == Returned(a', rest);
        HeadMoves(a.freeSlots[0], Handed(a', rest), After(a', rest).freeSlots, a'.freeSlots, Returned(a', rest));
      } else if ops[0].Return? && ops[0].r in a.requestToSlot {
        assert Handed(a, ops) == Handed(a', rest);
        AppendAssociates(a.freeSlots, [a.requestToSlot[ops[0].r]], Returned(a', rest));
      } else {
        assert Handed(a, ops) == Handed(a', rest) && Returned(a, ops) == Returned(a', rest);
      }
    }
  }

  /** A slot just freed is handed out again only after every slot that was free before it. */
  lemma FreedSlotWaitsItsTurn(a: NodeSlotAllocator, r: Id, ops: seq<Op>, j: nat)
    requires Partitioned(a) && r in a.requestToSlot
    requires var a' := Release(a, r).1; j < |Handed(a', ops)| && Handed(a', ops)[j] == a.requestToSlot[r]
    ensures var a' := Release(a, r).1; a.freeSlots <= Handed(a', ops)[..j]
  {
    var a' := Release(a, r).1;
    var handed := Handed(a', ops);
    QueueIsFifo(a', ops);
    var line := handed + After(a', ops).freeSlots;
    assert line == a.freeSlots + ([a.requestToSlot[r]] + Returned(a', ops));
    assert forall i :: 0 <= i < |a.freeSlots| ==> line[i] == a.freeSlots[i] && a.freeSlots[i] in a.freeSlots;
    assert a.requestToSlot[r] !in a.freeSlots && line[j] == a.requestToSlot[r];
  }
}
