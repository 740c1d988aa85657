/** Slots and load counters over whole runs of the orchestrator's handlers, each handler one step. */
module Orchestrator {
  import opened Basics
  import opened Messages
  import opened RequestRouting
  import opened Slots
  import opened SlotTable

  /** The router's books. */
  datatype Ledger = Ledger(slots: Table, owner: map<Id, Id>, loads: map<Id, int>)

  datatype Assignment = Assignment(prefill: Id, decode: Id)

  /** A request routed to p and d whose two nodes both have a socket. */
  function Accept(s: Ledger, max: int, decodes: set<Id>, r: Id, p: Id, d: Id): Ledger {
    Ledger(AllocateOn(Initialised(s.slots, max, decodes), max, d, r).1, s.owner[r := d],
           Incremented(Incremented(s.loads, p), d))
  }

  /** A request routed to d for which a socket is missing: its slot goes back and no load was counted. */
  function Bounce(s: Ledger, max: int, decodes: set<Id>, r: Id, d: Id): Ledger {
    var (slots, owner) :=
      FreeSlotOf(AllocateOn(Initialised(s.slots, max, decodes), max, d, r).1, s.owner[r := d], r);
    Ledger(slots, owner, s.loads)
  }

  /** Completion, failure, and a prefill that ends when the decode node's socket is gone. */
  function Finish(s: Ledger, r: Id, a: Assignment): Ledger {
    var (slots, owner) := FreeSlotOf(s.slots, s.owner, r);
    Ledger(slots, owner, Decremented(Decremented(s.loads, a.prefill), a.decode))
  }

  datatype Step =
    | Accepted(decodes: set<Id>, r: Id, a: Assignment)
    | Bounced(decodes: set<Id>, r: Id, d: Id)
    | TurnedAway(decodes: set<Id>)
    | Finished(r: Id)

  /** The books together with the accepted requests that have not finished and the slots their two nodes were told. */
  datatype State = State(books: Ledger, active: map<Id, Assignment>, told: map<Id, Option<int>>)

  const START := State(Ledger(map[], map[], map[]), map[], map[])

  /** Requests are taken under ids not in use, on nodes the router may choose, and finish once. */
  ghost predicate Possible(s: State, max: int, step: Step) {
    match step
    case Accepted(decodes, r, a) => r !in s.active && a.decode in CanServe(s.books.slots, max, decodes)
    case Bounced(decodes, r, d) => r !in s.active && d in CanServe(s.books.slots, max, decodes)
    case TurnedAway(_) => true
    case Finished(r) => r in s.active
  }

  function Next(s: State, max: int, step: Step): State {
    match step
    case Accepted(decodes, r, a) =>
      State(Accept(s.books, max, decodes, r, a.prefill, a.decode), s.active[r := a],
            s.told[r := AllocateOn(Initialised(s.books.slots, max, decodes), max, a.decode, r).0])
    case Bounced(decodes, r, d) => s.(books := Bounce(s.books, max, decodes, r, d))
    case TurnedAway(decodes) => s.(books := s.books.(slots := Initialised(s.books.slots, max, decodes)))
    case Finished(r) =>
      if r in s.active then State(Finish(s.books, r, s.active[r]), s.active - {r}, s.told - {r}) else s
  }

  function Run(max: int, steps: seq<Step>): State {
    if steps == [] then START else Next(Run(max, steps[..|steps| - 1]), max, steps[|steps| - 1])
  }

  ghost predicate Proper(max: int, steps: seq<Step>)
    decreases |steps|
  {
    steps == [] ||
    (Proper(max, steps[..|steps| - 1]) && Possible(Run(max, steps[..|steps| - 1]), max, steps[|steps| - 1]))
  }

  // ---- What the books must say ----

  function DecodingOn(active: map<Id, Assignment>, n: Id): set<Id> {
    set r | r in active && active[r].decode == n
  }

  function PrefillingOn(active: map<Id, Assignment>, n: Id): set<Id> {
    set r | r in active && active[r].prefill == n
  }

  /** A slot on n is held by r exactly when r is accepted, unfinished and decoding on n. */
  ghost predicate SlotsMatch(t: Table, owner: map<Id, Id>, active: map<Id, Assignment>) {
    && (forall n :: HoldersOn(t, n) == DecodingOn(active, n))
    && owner.Keys == active.Keys
    && (forall r :: r in active ==> owner[r] == active[r].decode)
  }

  /** A node's load is the number of unfinished requests assigned to it. */
  ghost predicate LoadsMatch(loads: map<Id, int>, active: map<Id, Assignment>) {
    forall n :: LoadOf(loads, n) == |PrefillingOn(active, n)| + |DecodingOn(active, n)|
  }

  ghost predicate Conserved(s: State, max: int) {
    && AllPartitioned(s.books.slots, max) && AllInverse(s.books.slots)
    && SlotsMatch(s.books.slots, s.books.owner, s.active)
    && LoadsMatch(s.books.loads, s.active)
  }

  lemma DecodingGrows(active: map<Id, Assignment>, r: Id, a: Assignment, n: Id)
    requires r !in active
    ensures DecodingOn(active[r := a], n) == DecodingOn(active, n) + if a.decode == n then {r} else {}
  {
  }

  lemma PrefillingGrows(active: map<Id, Assignment>, r: Id, a: Assignment, n: Id)
    requires r !in active
    ensures PrefillingOn(active[r := a], n) == PrefillingOn(active, n) + if a.prefill == n then {r} else {}
  {
  }

  lemma JoinCounts(active: map<Id, Assignment>, r: Id, a: Assignment, n: Id)
    requires r !in active
    ensures |DecodingOn(active[r := a], n)| == |DecodingOn(active, n)| + if a.decode == n then 1 else 0
    ensures |PrefillingOn(active[r := a], n)| == |PrefillingOn(active, n)| + if a.prefill == n then 1 else 0
  {
    DecodingGrows(active, r, a, n);
    PrefillingGrows(active, r, a, n);
    assert r !in DecodingOn(active, n) && r !in PrefillingOn(active, n);
  }

  lemma LeaveCounts(active: map<Id, Assignment>, r: Id, n: Id)
    requires r in active
    ensures DecodingOn(active - {r}, n) == DecodingOn(active, n) - {r}
    ensures |DecodingOn(active - {r}, n)| == |DecodingOn(active, n)| - if active[r].decode == n then 1 else 0
    ensures |PrefillingOn(active - {r}, n)| == |PrefillingOn(active, n)| - if active[r].prefill == n then 1 else 0
  {
    assert DecodingOn(active - {r}, n) == DecodingOn(active, n) - {r};
    assert PrefillingOn(active - {r}, n) == PrefillingOn(active, n) - {r};
    if active[r].decode == n { assert r in DecodingOn(active, n); }
    if active[r].prefill == n { assert r in PrefillingOn(active, n); }
  }

  lemma JoinKeepsLoads(loads: map<Id, int>, active: map<Id, Assignment>, r: Id, a: Assignment)
    requires LoadsMatch(loads, active) && r !in active
    ensures LoadsMatch(Incremented(Incremented(loads, a.prefill), a.decode), active[r := a])
  {
    var loads' := Incremented(Incremented(loads, a.prefill), a.decode);
    forall n ensures LoadOf(loads', n) == |PrefillingOn(active[r := a], n)| + |DecodingOn(active[r := a], n)| {
      JoinCounts(active, r, a, n);
    }
  }

  /** Finishing an unfinished request never meets a counter at zero. */
  lemma ClampIsIdle(loads: map<Id, int>, active: map<Id, Assignment>, r: Id)
    requires LoadsMatch(loads, active) && r in active
    ensures var a := active[r]; a.prefill in loads && loads[a.prefill] > 0
    ensures var a := active[r]; var once := Decremented(loads, a.prefill); a.decode in once && once[a.decode] > 0
  {
    var a := active[r];
    LeaveCounts(active, r, a.prefill);
    LeaveCounts(active, r, a.decode);
  }

  lemma LeaveKeepsLoads(loads: map<Id, int>, active: map<Id, Assignment>, r: Id)
    requires LoadsMatch(loads, active) && r in active
    ensures LoadsMatch(Decremented(Decremented(loads, active[r].prefill), active[r].decode), active - {r})
  {
    var a := active[r];
    ClampIsIdle(loads, active, r);
    var loads' := Decremented(Decremented(loads, a.prefill), a.decode);
    forall n ensures LoadOf(loads', n) == |PrefillingOn(active - {r}, n)| + |DecodingOn(active - {r}, n)| {
      LeaveCounts(active, r, n);
    }
  }

  // ---- Steps ----

  /** An allocator where d can serve hands out a slot, and r is the one new holder. */
  lemma AllocationSucceeds(t: Table, max: int, decodes: set<Id>, d: Id, r: Id) returns (t0: Table, t1: Table)
    requires AllPartitioned(t, max) && AllInverse(t) && d in CanServe(t, max, decodes) && r !in HoldersOn(t, d)
    ensures t0 == Initialised(t, max, decodes) && t1 == AllocateOn(t0, max, d, r).1
    ensures AllPartitioned(t1, max) && AllInverse(t1) && HoldersChanged(t, t1, d, {r}, {})
    ensures SlotsKept(t, t1) && AllocateOn(t0, max, d, r).0 == Some(t1[d].requestToSlot[r])
  {
    t0 := Initialised(t, max, decodes);
    var (slot, t1') := AllocateOn(t0, max, d, r);
    t1 := t1';
    InitialisedKeepsPartition(t, max, decodes);
    InitialisedChangesNothing(t, max, decodes);
    AllocateOnKeepsPartition(t0, max, d, r);
    AllocateOnEffect(t0, max, d, r, slot, t1);
  }

  lemma JoinKeepsSlots(t: Table, owner: map<Id, Id>, active: map<Id, Assignment>, r: Id, a: Assignment, t': Table)
    requires SlotsMatch(t, owner, active) && r !in active && HoldersChanged(t, t', a.decode, {r}, {})
    ensures SlotsMatch(t', owner[r := a.decode], active[r := a])
  {
    forall n ensures HoldersOn(t', n) == DecodingOn(active[r := a], n) {
      DecodingGrows(active, r, a, n);
    }
  }

  lemma LeaveKeepsSlots(t: Table, owner: map<Id, Id>, active: map<Id, Assignment>, r: Id, t': Table)
    requires SlotsMatch(t, owner, active) && r in active && HoldersChanged(t, t', active[r].decode, {}, {r})
    ensures SlotsMatch(t', owner - {r}, active - {r})
  {
    forall n ensures HoldersOn(t', n) == DecodingOn(active - {r}, n) {
      LeaveCounts(active, r, n);
    }
  }

  lemma AcceptKeeps(s: State, max: int, decodes: set<Id>, r: Id, a: Assignment)
    requires Conserved(s, max) && Possible(s, max, Accepted(decodes, r, a))
    ensures Conserved(Next(s, max, Accepted(decodes, r, a)), max)
  {
    var t0, t1 := AllocationSucceeds(s.books.slots, max, decodes, a.decode, r);
    assert LoadsMatch(Incremented(Incremented(s.books.loads, a.prefill), a.decode), s.active[r := a]) by {
      JoinKeepsLoads(s.books.loads, s.active, r, a);
    }
    JoinKeepsSlots(s.books.slots, s.books.owner, s.active, r, a, t1);
  }

  lemma TakenAndGivenBack(t: Table, t1: Table, t2: Table, d: Id, r: Id)
    requires HoldersChanged(t, t1, d, {r}, {}) && HoldersChanged(t1, t2, d, {}, {r}) && r !in HoldersOn(t, d)
    ensures forall n :: HoldersOn(t2, n) == HoldersOn(t, n)
  {
  }

  lemma FreeAgain(t1: Table, owner: map<Id, Id>, max: int, d: Id, r: Id, t2: Table)
    requires AllPartitioned(t1, max) && AllInverse(t1) && r !in owner
    requires t2 == FreeSlotOf(t1, owner[r := d], r).0
    ensures AllPartitioned(t2, max) && AllInverse(t2) && HoldersChanged(t1, t2, d, {}, {r}) && SlotsKept(t1, t2)
    ensures FreeSlotOf(t1, owner[r := d], r).1 == owner
  {
    FreeKeepsPartition(t1, owner[r := d], max, r);
    FreeEffect(t1, owner[r := d], r, t2);
    assert owner[r := d] - {r} == owner;
  }

  /** The early failure gives back what it took: same holders, same owners, same loads. */
  lemma BounceRestores(s: State, max: int, decodes: set<Id>, r: Id, d: Id, b: Ledger)
    requires Conserved(s, max) && Possible(s, max, Bounced(decodes, r, d)) && b == Bounce(s.books, max, decodes, r, d)
    ensures b.owner == s.books.owner && b.loads == s.books.loads
    ensures AllPartitioned(b.slots, max) && AllInverse(b.slots)
    ensures forall n :: HoldersOn(b.slots, n) == HoldersOn(s.books.slots, n)
  {
    var t0, t1 := AllocationSucceeds(s.books.slots, max, decodes, d, r);
    FreeAgain(t1, s.books.owner, max, d, r, b.slots);
    TakenAndGivenBack(s.books.slots, t1, b.slots, d, r);
  }

  lemma FinishKeeps(s: State, max: int, r: Id)
    requires Conserved(s, max) && r in s.active
    ensures Conserved(Next(s, max, Finished(r)), max)
  {
    var t' := FreeSlotOf(s.books.slots, s.books.owner, r).0;
    FreeKeepsPartition(s.books.slots, s.books.owner, max, r);
    FreeEffect(s.books.slots, s.books.owner, r, t');
    LeaveKeepsSlots(s.books.slots, s.books.owner, s.active, r, t');
    assert LoadsMatch(Finish(s.books, r, s.active[r]).loads, s.active - {r}) by {
      LeaveKeepsLoads(s.books.loads, s.active, r);
    }
  }

  lemma {:induction false} ConservedOnEveryRun(max: int, steps: seq<Step>)
    requires Proper(max, steps)
    ensures Conserved(Run(max, steps), max)
    decreases |steps|
  {
    if steps == [] {
    } else {
      var s := Run(max, steps[..|steps| - 1]);
      ConservedOnEveryRun(max, steps[..|steps| - 1]);
      match steps[|steps| - 1] {
        case Accepted(decodes, r, a) => AcceptKeeps(s, max, decodes, r, a);
        case Bounced(decodes, r, d) => BounceRestores(s, max, decodes, r, d, Bounce(s.books, max, decodes, r, d));
        case TurnedAway(decodes) =>
          InitialisedKeepsPartition(s.books.slots, max, decodes);
          InitialisedChangesNothing(s.books.slots, max, decodes);
        case Finished(r) => FinishKeeps(s, max, r);
      }
    }
  }

  /** On every run, a request that finishes finds both of its nodes counted above zero. */
  lemma ClampNeverFires(max: int, steps: seq<Step>, r: Id)
    requires Proper(max, steps) && r in Run(max, steps).active
    ensures var (loads, a) := (Run(max, steps).books.loads, Run(max, steps).active[r]);
      LoadOf(loads, a.prefill) > 0 && LoadOf(Decremented(loads, a.prefill), a.decode) > 0
  {
    ConservedOnEveryRun(max, steps);
    ClampIsIdle(Run(max, steps).books.loads, Run(max, steps).active, r);
  }

  /** A finish for a request that is not active leaves the loads right exactly when both counters were at zero. */
  lemma StrayFinishHarmlessIffIdle(s: State, max: int, r: Id, a: Assignment)
    requires Conserved(s, max) && r !in s.active
    ensures Finish(s.books, r, a).slots == s.books.slots && Finish(s.books, r, a).owner == s.books.owner
    ensures LoadsMatch(Finish(s.books, r, a).loads, s.active)
      <==> LoadOf(s.books.loads, a.prefill) == 0 && LoadOf(s.books.loads, a.decode) == 0
  {
    var loads, loads' := s.books.loads, Finish(s.books, r, a).loads;
    assert forall n :: LoadOf(loads, n) >= 0;
    assert LoadOf(loads', a.prefill) == LoadOf(loads, a.prefill) <==> LoadOf(loads, a.prefill) == 0;
    if LoadOf(loads, a.prefill) == 0 {
      assert LoadOf(loads', a.decode) == LoadOf(loads, a.decode) <==> LoadOf(loads, a.decode) == 0;
    }
  }

  // ---- The slot that the two nodes of a request were told ----

  /** What was told for a request is the slot the tables record for it on its decode node. */
  ghost predicate ToldRight(t: Table, active: map<Id, Assignment>, told: map<Id, Option<int>>) {
    && told.Keys == active.Keys
    && forall q :: q in active ==>
         q in HoldersOn(t, active[q].decode) && told[q] == Some(t[active[q].decode].requestToSlot[q])
  }

  lemma KeptStaysTold(t: Table, t': Table, active: map<Id, Assignment>, told: map<Id, Option<int>>)
    requires ToldRight(t, active, told) && SlotsKept(t, t')
    requires forall q :: q in active ==> q in HoldersOn(t', active[q].decode)
    ensures ToldRight(t', active, told)
  {
  }

  lemma OneMoreTold(t: Table, active: map<Id, Assignment>, told: map<Id, Option<int>>, r: Id, a: Assignment)
    requires ToldRight(t, active, told) && r in HoldersOn(t, a.decode)
    ensures ToldRight(t, active[r := a], told[r := Some(t[a.decode].requestToSlot[r])])
  {
  }

  lemma JoinStaysTold(t: Table, t': Table, active: map<Id, Assignment>, told: map<Id, Option<int>>, r: Id, d: Id)
    requires ToldRight(t, active, told) && SlotsKept(t, t') && HoldersChanged(t, t', d, {r}, {})
    ensures ToldRight(t', active, told) && r in HoldersOn(t', d)
  {
    KeptStaysTold(t, t', active, told);
  }

  lemma LeaveStaysTold(t: Table, t': Table, active: map<Id, Assignment>, told: map<Id, Option<int>>, r: Id, d: Id)
    requires ToldRight(t, active, told) && SlotsKept(t, t') && HoldersChanged(t, t', d, {}, {r}) && r !in active
    ensures ToldRight(t', active, told)
  {
    KeptStaysTold(t, t', active, told);
  }

  lemma OneFewerTold(t: Table, active: map<Id, Assignment>, told: map<Id, Option<int>>, r: Id)
    requires ToldRight(t, active, told)
    ensures ToldRight(t, active - {r}, told - {r})
  {
  }

  lemma AcceptTells(s: State, max: int, decodes: set<Id>, r: Id, a: Assignment)
    requires Conserved(s, max) && Possible(s, max, Accepted(decodes, r, a))
    requires ToldRight(s.books.slots, s.active, s.told)
    ensures var s' := Next(s, max, Accepted(decodes, r, a)); ToldRight(s'.books.slots, s'.active, s'.told)
  {
    var t0, t1 := AllocationSucceeds(s.books.slots, max, decodes, a.decode, r);
    JoinStaysTold(s.books.slots, t1, s.active, s.told, r, a.decode);
    OneMoreTold(t1, s.active, s.told, r, a);
  }

  lemma BounceTells(s: State, max: int, decodes: set<Id>, r: Id, d: Id, t2: Table)
    requires Conserved(s, max) && Possible(s, max, Bounced(decodes, r, d))
    requires ToldRight(s.books.slots, s.active, s.told) && t2 == Bounce(s.books, max, decodes, r, d).slots
    ensures ToldRight(t2, s.active, s.told)
  {
    var t0, t1 := AllocationSucceeds(s.books.slots, max, decodes, d, r);
    FreeAgain(t1, s.books.owner, max, d, r, t2);
    JoinStaysTold(s.books.slots, t1, s.active, s.told, r, d);
    LeaveStaysTold(t1, t2, s.active, s.told, r, d);
  }

  lemma FinishTells(s: State, max: int, r: Id, t': Table)
    requires Conserved(s, max) && r in s.active && t' == Finish(s.books, r, s.active[r]).slots
    requires ToldRight(s.books.slots, s.active, s.told)
    ensures ToldRight(t', s.active - {r}, s.told - {r})
  {
    FreeEffect(s.books.slots, s.books.owner, r, t');
    OneFewerTold(s.books.slots, s.active, s.told, r);
    LeaveStaysTold(s.books.slots, t', s.active - {r}, s.told - {r}, r, s.active[r].decode);
  }

  /** On every run: from acceptance to finish, the tables keep the request in the slot its nodes were told. */
  lemma {:induction false} ToldOnEveryRun(max: int, steps: seq<Step>)
    requires Proper(max, steps)
    ensures var s := Run(max, steps); ToldRight(s.books.slots, s.active, s.told)
    decreases |steps|
  {
    if steps == [] {
    } else {
      var s := Run(max, steps[..|steps| - 1]);
      ToldOnEveryRun(max, steps[..|steps| - 1]);
      ConservedOnEveryRun(max, steps[..|steps| - 1]);
      match steps[|steps| - 1] {
        case Accepted(decodes, r, a) => AcceptTells(s, max, decodes, r, a);
        case Bounced(decodes, r, d) => BounceTells(s, max, decodes, r, d, Bounce(s.books, max, decodes, r, d).slots);
        case TurnedAway(decodes) =>
          InitialisedChangesNothing(s.books.slots, max, decodes);
          KeptStaysTold(s.books.slots, Initialised(s.books.slots, max, decodes), s.active, s.told);
        case Finished(r) => FinishTells(s, max, r, Finish(s.books, r, s.active[r]).slots);
      }
    }
  }

  /** Two accepted and unfinished requests on one decode node were never told the same slot. */
  lemma NeverToldTheSameSlot(max: int, steps: seq<Step>, r: Id, q: Id)
    requires Proper(max, steps) && r != q
    requires var active := Run(max, steps).active; r in active && q in active && active[r].decode == active[q].decode
    ensures var told := Run(max, steps).told; r in told && q in told && told[r].Some? && told[q].Some?
    ensures var told := Run(max, steps).told; told[r] != told[q] && 0 <= told[r].value < max
  {
    var s := Run(max, steps);
    ToldOnEveryRun(max, steps);
    ConservedOnEveryRun(max, steps);
    var a := s.books.slots[s.active[r].decode];
    assert Partitioned(a) && a.maxSlots == max;
  }
}
