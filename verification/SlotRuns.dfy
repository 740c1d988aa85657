/** Any number of workers sharing the slot table, one step for each region the source runs under the slot lock. */
module SlotRuns {
  import opened Basics
  import opened Messages
  import opened Slots
  import opened SlotTable

  /** A worker inside select_nodes_and_allocate_slot: between filter and allocate, or between allocate and record. */
  datatype Job = Choosing(r: Id, candidates: set<Id>) | Holding(r: Id, node: Id, slot: int)

  datatype State = State(nodes: Table, owner: map<Id, Id>, jobs: map<nat, Job>)

  datatype Step =
    | Filter(w: nat, r: Id, healthy: set<Id>)
    | Abandon(w: nat)
    | Grab(w: nat, n: Id)
    | Record(w: nat)
    | Free(r: Id)

  const START := State(map[], map[], map[])

  function FilterStep(s: State, max: int, w: nat, r: Id, healthy: set<Id>): State {
    var nodes := Initialised(s.nodes, max, healthy);
    var open := WithFreeSlot(nodes, healthy);
    if open == {} then s.(nodes := nodes) else s.(nodes := nodes, jobs := s.jobs[w := Choosing(r, open)])
  }

  /** The free slot seen by the filter may be gone by now: then the request is turned away. */
  function GrabStep(s: State, max: int, w: nat, n: Id): State
    requires w in s.jobs
  {
    var r := s.jobs[w].r;
    var (slot, nodes) := AllocateOn(s.nodes, max, n, r);
    s.(nodes := nodes, jobs := if slot.Some? then s.jobs[w := Holding(r, n, slot.value)] else s.jobs - {w})
  }

  function FreeStep(s: State, r: Id): State {
    var (nodes, owner) := FreeSlotOf(s.nodes, s.owner, r);
    s.(nodes := nodes, owner := owner)
  }

  /** A step that is not possible in s leaves s as it is. */
  function Next(s: State, max: int, step: Step): State {
    match step
    case Filter(w, r, healthy) => if w in s.jobs then s else FilterStep(s, max, w, r, healthy)
    case Abandon(w) => if w in s.jobs && s.jobs[w].Choosing? then s.(jobs := s.jobs - {w}) else s
    case Grab(w, n) =>
      if w in s.jobs && s.jobs[w].Choosing? && n in s.jobs[w].candidates then GrabStep(s, max, w, n) else s
    case Record(w) =>
      if w in s.jobs && s.jobs[w].Holding? then
        s.(owner := s.owner[s.jobs[w].r := s.jobs[w].node], jobs := s.jobs - {w})
      else s
    case Free(r) => FreeStep(s, r)
  }

  function Run(max: int, steps: seq<Step>): State {
    if steps == [] then START else Next(Run(max, steps[..|steps| - 1]), max, steps[|steps| - 1])
  }

  lemma RunOneMore(max: int, steps: seq<Step>, step: Step)
    ensures Run(max, steps + [step]) == Next(Run(max, steps), max, step)
  {
    assert (steps + [step])[..|steps|] == steps;
  }

  /** The three steps of one worker, with nothing in between: what the source does when no other worker is about. */
  lemma UndisturbedServes(s: State, max: int, w: nat, r: Id, healthy: set<Id>, d: Id)
    requires w !in s.jobs
    ensures var (filtered, nodes) := (Next(s, max, Filter(w, r, healthy)), Initialised(s.nodes, max, healthy));
      if d in healthy && FreeOn(s.nodes, max, d) != [] then
        Next(Next(filtered, max, Grab(w, d)), max, Record(w))
          == State(AllocateOn(nodes, max, d, r).1, s.owner[r := d], s.jobs)
      else
        Next(filtered, max, Grab(w, d)) == filtered
    ensures (forall n :: n in healthy ==> FreeOn(s.nodes, max, n) == []) ==>
      Next(s, max, Filter(w, r, healthy)) == s.(nodes := Initialised(s.nodes, max, healthy))
  {
    var nodes := Initialised(s.nodes, max, healthy);
    assert forall n :: n in healthy ==> nodes[n].freeSlots == FreeOn(s.nodes, max, n);
    if d in healthy && FreeOn(s.nodes, max, d) != [] {
      var open := WithFreeSlot(nodes, healthy);
      assert d in open;
      assert Next(s, max, Filter(w, r, healthy)) == s.(nodes := nodes, jobs := s.jobs[w := Choosing(r, open)]);
      var slot := AllocateOn(nodes, max, d, r).0;
      assert s.jobs[w := Choosing(r, open)][w := Holding(r, d, slot.value)] - {w} == s.jobs;
    }
  }

  // ---- On every run, whatever the request ids ----

  lemma {:induction false} PartitionOnEveryRun(max: int, steps: seq<Step>)
    ensures AllPartitioned(Run(max, steps).nodes, max)
  {
    if steps == [] {
    } else {
      var s := Run(max, steps[..|steps| - 1]);
      PartitionOnEveryRun(max, steps[..|steps| - 1]);
      match steps[|steps| - 1] {
        case Filter(w, r, healthy) => InitialisedKeepsPartition(s.nodes, max, healthy);
        case Abandon(w) =>
        case Grab(w, n) => if w in s.jobs { AllocateOnKeepsPartition(s.nodes, max, n, s.jobs[w].r); }
        case Record(w) =>
        case Free(r) => FreeKeepsPartition(s.nodes, s.owner, max, r);
      }
    }
  }

  // ---- On every run that starts no request under an id still in use ----

  ghost predicate InUse(s: State, r: Id) {
    r in s.owner || exists w :: w in s.jobs && s.jobs[w].r == r
  }

  ghost predicate Distinct(max: int, steps: seq<Step>)
    decreases |steps|
  {
    steps == [] ||
    (var before, last := steps[..|steps| - 1], steps[|steps| - 1];
     Distinct(max, before) && (last.Filter? ==> !InUse(Run(max, before), last.r)))
  }

  function RecordedOn(owner: map<Id, Id>, n: Id): set<Id> {
    set r | r in owner && owner[r] == n
  }

  function WorkersOn(jobs: map<nat, Job>, n: Id): set<nat> {
    set w | w in jobs && jobs[w].Holding? && jobs[w].node == n
  }

  function WorkedOn(jobs: map<nat, Job>, n: Id): set<Id> {
    set w | w in WorkersOn(jobs, n) :: jobs[w].r
  }

  ghost predicate JobsApart(owner: map<Id, Id>, jobs: map<nat, Job>) {
    && (forall w, v :: w in jobs && v in jobs && jobs[w].r == jobs[v].r ==> w == v)
    && (forall w :: w in jobs ==> jobs[w].r !in owner)
  }

  /** The holders on a node are the requests recorded for it and those a worker is about to record. */
  ghost predicate ExplainedOn(s: State, n: Id) {
    HoldersOn(s.nodes, n) == RecordedOn(s.owner, n) + WorkedOn(s.jobs, n)
  }

  ghost predicate HoldersExplained(s: State) {
    forall n :: ExplainedOn(s, n)
  }

  /** What a worker was handed is what the table says it holds. */
  ghost predicate JobsHold(s: State) {
    forall w :: w in s.jobs && s.jobs[w].Holding? ==> JobHolds(s.nodes, s.jobs[w])
  }

  ghost predicate JobHolds(t: Table, job: Job)
    requires job.Holding?
  {
    job.r in HoldersOn(t, job.node) && t[job.node].requestToSlot[job.r] == job.slot
  }

  ghost predicate Consistent(s: State) {
    AllInverse(s.nodes) && JobsApart(s.owner, s.jobs) && HoldersExplained(s) && JobsHold(s)
  }

  lemma WorkStarts(jobs: map<nat, Job>, w: nat, job: Job, n: Id)
    requires w in jobs ==> jobs[w].Choosing?
    ensures WorkedOn(jobs[w := job], n) == WorkedOn(jobs, n) + if job.Holding? && job.node == n then {job.r} else {}
  {
    var jobs' := jobs[w := job];
    assert WorkersOn(jobs', n) == WorkersOn(jobs, n) + if job.Holding? && job.node == n then {w} else {};
    forall r | r in WorkedOn(jobs, n) ensures r in WorkedOn(jobs', n) {
      var v :| v in WorkersOn(jobs, n) && jobs[v].r == r;
      assert v in WorkersOn(jobs', n) && jobs'[v].r == r;
    }
    if job.Holding? && job.node == n {
      assert w in WorkersOn(jobs', n) && jobs'[w].r == job.r;
    }
  }

  lemma WorkEnds(owner: map<Id, Id>, jobs: map<nat, Job>, w: nat, n: Id)
    requires JobsApart(owner, jobs) && w in jobs
    ensures WorkedOn(jobs - {w}, n) == WorkedOn(jobs, n) - {jobs[w].r}
  {
    var jobs' := jobs - {w};
    assert WorkersOn(jobs', n) == WorkersOn(jobs, n) - {w};
    forall r | r in WorkedOn(jobs, n) - {jobs[w].r} ensures r in WorkedOn(jobs', n) {
      var v :| v in WorkersOn(jobs, n) && jobs[v].r == r;
      assert v in WorkersOn(jobs', n) && jobs'[v].r == r;
    }
  }

  lemma NotWorkedUnlessHolding(owner: map<Id, Id>, jobs: map<nat, Job>, w: nat, n: Id)
    requires JobsApart(owner, jobs) && w in jobs
    ensures jobs[w].r in WorkedOn(jobs, n) <==> jobs[w].Holding? && jobs[w].node == n
  {
    if jobs[w].Holding? && jobs[w].node == n {
      assert w in WorkersOn(jobs, n);
    }
  }

  lemma FilterKeeps(s: State, max: int, w: nat, r: Id, healthy: set<Id>)
    requires Consistent(s) && w !in s.jobs && !InUse(s, r)
    ensures Consistent(FilterStep(s, max, w, r, healthy))
  {
    InitialisedChangesNothing(s.nodes, max, healthy);
    FilterBookkeeping(s, w, r, FilterStep(s, max, w, r, healthy));
  }

  lemma FilterBookkeeping(s: State, w: nat, r: Id, s': State)
    requires Consistent(s) && w !in s.jobs && !InUse(s, r)
    requires AllInverse(s'.nodes) && SlotsKept(s.nodes, s'.nodes)
    requires forall n :: HoldersOn(s'.nodes, n) == HoldersOn(s.nodes, n)
    requires s'.owner == s.owner
    requires s'.jobs == s.jobs || exists candidates :: s'.jobs == s.jobs[w := Choosing(r, candidates)]
    ensures Consistent(s')
  {
    forall n ensures ExplainedOn(s', n) {
      assert ExplainedOn(s, n);
      if w in s'.jobs { WorkStarts(s.jobs, w, s'.jobs[w], n); }
    }
  }

  lemma AbandonKeeps(s: State, max: int, w: nat)
    requires Consistent(s) && w in s.jobs && s.jobs[w].Choosing?
    ensures Consistent(s.(jobs := s.jobs - {w}))
  {
    forall n ensures ExplainedOn(s.(jobs := s.jobs - {w}), n) {
      assert ExplainedOn(s, n);
      WorkEnds(s.owner, s.jobs, w, n);
      NotWorkedUnlessHolding(s.owner, s.jobs, w, n);
    }
  }

  lemma GrabKeeps(s: State, max: int, w: nat, n: Id)
    requires Consistent(s) && AllPartitioned(s.nodes, max) && w in s.jobs && s.jobs[w].Choosing?
    ensures Consistent(GrabStep(s, max, w, n))
  {
    var r := s.jobs[w].r;
    var (slot, nodes) := AllocateOn(s.nodes, max, n, r);
    NotWorkedUnlessHolding(s.owner, s.jobs, w, n);
    assert r !in HoldersOn(s.nodes, n) by { assert ExplainedOn(s, n); }
    AllocateOnEffect(s.nodes, max, n, r, slot, nodes);
    GrabBookkeeping(s, w, n, slot, nodes);
  }

  lemma GrabBookkeeping(s: State, w: nat, n: Id, slot: Option<int>, nodes: Table)
    requires Consistent(s) && w in s.jobs && s.jobs[w].Choosing?
    requires AllInverse(nodes) && SlotsKept(s.nodes, nodes)
    requires HoldersChanged(s.nodes, nodes, n, if slot.Some? then {s.jobs[w].r} else {}, {})
    requires slot.Some? ==> JobHolds(nodes, Holding(s.jobs[w].r, n, slot.value))
    ensures Consistent(State(nodes, s.owner,
      if slot.Some? then s.jobs[w := Holding(s.jobs[w].r, n, slot.value)] else s.jobs - {w}))
  {
    var s' := State(nodes, s.owner,
      if slot.Some? then s.jobs[w := Holding(s.jobs[w].r, n, slot.value)] else s.jobs - {w});
    forall m ensures ExplainedOn(s', m) {
      assert ExplainedOn(s, m);
      if slot.Some? {
        WorkStarts(s.jobs, w, Holding(s.jobs[w].r, n, slot.value), m);
      } else {
        WorkEnds(s.owner, s.jobs, w, m);
        NotWorkedUnlessHolding(s.owner, s.jobs, w, m);
      }
    }
  }

  lemma RecordKeeps(s: State, w: nat)
    requires Consistent(s) && w in s.jobs && s.jobs[w].Holding?
    ensures Consistent(s.(owner := s.owner[s.jobs[w].r := s.jobs[w].node], jobs := s.jobs - {w}))
  {
    var s' := s.(owner := s.owner[s.jobs[w].r := s.jobs[w].node], jobs := s.jobs - {w});
    forall n ensures ExplainedOn(s', n) {
      assert ExplainedOn(s, n);
      WorkEnds(s.owner, s.jobs, w, n);
      NotWorkedUnlessHolding(s.owner, s.jobs, w, n);
    }
  }

  lemma FreeKeeps(s: State, r: Id)
    requires Consistent(s) && r in s.owner
    ensures Consistent(FreeStep(s, r))
  {
    var s' := FreeStep(s, r);
    FreeEffect(s.nodes, s.owner, r, s'.nodes);
    forall n ensures ExplainedOn(s', n) {
      assert ExplainedOn(s, n);
      assert r !in WorkedOn(s.jobs, n);
    }
  }

  lemma {:induction false} ConsistentOnEveryRun(max: int, steps: seq<Step>)
    requires Distinct(max, steps)
    ensures Consistent(Run(max, steps))
    decreases |steps|
  {
    if steps == [] {
    } else {
      var s := Run(max, steps[..|steps| - 1]);
      ConsistentOnEveryRun(max, steps[..|steps| - 1]);
      PartitionOnEveryRun(max, steps[..|steps| - 1]);
      NextKeeps(s, max, steps[|steps| - 1]);
    }
  }

  lemma NextKeeps(s: State, max: int, step: Step)
    requires Consistent(s) && AllPartitioned(s.nodes, max)
    requires step.Filter? ==> !InUse(s, step.r)
    ensures Consistent(Next(s, max, step))
  {
    match step {
      case Filter(w, r, healthy) => if w !in s.jobs { FilterKeeps(s, max, w, r, healthy); }
      case Abandon(w) => if w in s.jobs && s.jobs[w].Choosing? { AbandonKeeps(s, max, w); }
      case Grab(w, n) => if w in s.jobs && s.jobs[w].Choosing? { GrabKeeps(s, max, w, n); }
      case Record(w) => if w in s.jobs && s.jobs[w].Holding? { RecordKeeps(s, w); }
      case Free(r) => if r in s.owner { FreeKeeps(s, r); }
    }
  }

  // ---- Where every slot is ----

  lemma {:induction false} WorkersCounted(owner: map<Id, Id>, jobs: map<nat, Job>, n: Id)
    requires JobsApart(owner, jobs)
    ensures |WorkedOn(jobs, n)| == |WorkersOn(jobs, n)|
    decreases |jobs|
  {
    if WorkersOn(jobs, n) == {} {
      assert WorkedOn(jobs, n) == {};
    } else {
      var w :| w in WorkersOn(jobs, n);
      WorkEnds(owner, jobs, w, n);
      assert (jobs - {w}).Keys == jobs.Keys - {w};
      assert WorkersOn(jobs - {w}, n) == WorkersOn(jobs, n) - {w};
      assert jobs[w].r in WorkedOn(jobs, n);
      WorkersCounted(owner, jobs - {w}, n);
    }
  }

  /** Every slot is free, or of one recorded request, or of one worker between allocate and record. */
  lemma EverySlotAccountedFor(max: int, steps: seq<Step>, n: Id)
    requires Distinct(max, steps) && n in Run(max, steps).nodes
    ensures var s := Run(max, steps);
      AvailableSlots(s.nodes[n]) + |RecordedOn(s.owner, n)| + |WorkersOn(s.jobs, n)| == if max < 0 then 0 else max
    ensures var s := Run(max, steps);
      max >= 0 ==> UsedSlots(s.nodes[n]) == |RecordedOn(s.owner, n)| + |WorkersOn(s.jobs, n)|
  {
    var s := Run(max, steps);
    ConsistentOnEveryRun(max, steps);
    PartitionOnEveryRun(max, steps);
    UsedIsHeld(s.nodes[n]);
    WorkersCounted(s.owner, s.jobs, n);
    assert s.nodes[n].requestToSlot.Keys == RecordedOn(s.owner, n) + WorkedOn(s.jobs, n) by {
      assert ExplainedOn(s, n);
    }
    assert RecordedOn(s.owner, n) !! WorkedOn(s.jobs, n);
  }

  /** Two requests on one node, recorded or still with their workers, never share a slot, whatever the request ids. */
  lemma SlotsAreExclusive(max: int, steps: seq<Step>, n: Id, r: Id, q: Id)
    requires r != q
    requires var s := Run(max, steps); r in HoldersOn(s.nodes, n) && q in HoldersOn(s.nodes, n)
    ensures var a := Run(max, steps).nodes[n]; a.requestToSlot[r] != a.requestToSlot[q]
    ensures var a := Run(max, steps).nodes[n]; 0 <= a.requestToSlot[r] < max && a.requestToSlot[r] !in a.freeSlots
  {
    PartitionOnEveryRun(max, steps);
  }

  // ---- First freed, first reused, on every run ----

  predicate Grabs(s: State, step: Step, n: Id) {
    step.Grab? && step.n == n && step.w in s.jobs && s.jobs[step.w].Choosing? && n in s.jobs[step.w].candidates
  }

  /** What a step asks of the allocator of n. */
  function OpOn(s: State, step: Step, n: Id): seq<Op> {
    if Grabs(s, step, n) then [Take(s.jobs[step.w].r)]
    else if step.Free? && step.r in s.owner && s.owner[step.r] == n then [Return(step.r)]
    else []
  }

  /** The slot of n that a step hands to its worker. */
  function GrantOn(s: State, max: int, step: Step, n: Id): seq<int> {
    if Grabs(s, step, n) && AllocateOn(s.nodes, max, n, s.jobs[step.w].r).0.Some?
    then [AllocateOn(s.nodes, max, n, s.jobs[step.w].r).0.value]
    else []
  }

  /** The slot of n that a step gives back. */
  function GivenBackOn(s: State, step: Step, n: Id): seq<int> {
    if step.Free? && step.r in s.owner && s.owner[step.r] == n && step.r in HoldersOn(s.nodes, n)
    then [s.nodes[n].requestToSlot[step.r]]
    else []
  }

  function OpsOn(max: int, before: seq<Step>, more: seq<Step>, n: Id): seq<Op>
    decreases |more|
  {
    if more == [] then [] else
      var start, last := more[..|more| - 1], more[|more| - 1];
      OpsOn(max, before, start, n) + OpOn(Run(max, before + start), last, n)
  }

  /** The slots of n handed out during more, in order. */
  function GrantsOn(max: int, before: seq<Step>, more: seq<Step>, n: Id): seq<int>
    decreases |more|
  {
    if more == [] then [] else
      var start, last := more[..|more| - 1], more[|more| - 1];
      GrantsOn(max, before, start, n) + GrantOn(Run(max, before + start), max, last, n)
  }

  /** The slots of n given back during more, in order. */
  function GivenBack(max: int, before: seq<Step>, more: seq<Step>, n: Id): seq<int>
    decreases |more|
  {
    if more == [] then [] else
      var start, last := more[..|more| - 1], more[|more| - 1];
      GivenBack(max, before, start, n) + GivenBackOn(Run(max, before + start), last, n)
  }

  /** The allocator of n; before its first use, the one it will be created as. */
  function AllocatorOf(t: Table, max: int, n: Id): NodeSlotAllocator {
    if n in t then t[n] else Fresh(max)
  }

  lemma NextOnOneNode(s: State, max: int, step: Step, n: Id)
    ensures AllocatorOf(Next(s, max, step).nodes, max, n) == After(AllocatorOf(s.nodes, max, n), OpOn(s, step, n))
    ensures GrantOn(s, max, step, n) == Handed(AllocatorOf(s.nodes, max, n), OpOn(s, step, n))
    ensures GivenBackOn(s, step, n) == Returned(AllocatorOf(s.nodes, max, n), OpOn(s, step, n))
  {
  }

  /** Whatever else goes on, the allocator of n sees just its own operations. */
  lemma {:induction false} NodeFollowsItsOps(max: int, before: seq<Step>, more: seq<Step>, n: Id)
    ensures var (a, ops) := (AllocatorOf(Run(max, before).nodes, max, n), OpsOn(max, before, more, n));
      AllocatorOf(Run(max, before + more).nodes, max, n) == After(a, ops)
      && GrantsOn(max, before, more, n) == Handed(a, ops)
      && GivenBack(max, before, more, n) == Returned(a, ops)
    decreases |more|
  {
    if more == [] {
      assert before + more == before;
    } else {
      var start, last := more[..|more| - 1], more[|more| - 1];
      var a := AllocatorOf(Run(max, before).nodes, max, n);
      assert before + more == (before + start) + [last];
      NodeFollowsItsOps(max, before, start, n);
      RunOneMore(max, before + start, last);
      NextOnOneNode(Run(max, before + start), max, last, n);
      RunsCompose(a, OpsOn(max, before, start, n), OpOn(Run(max, before + start), last, n));
      ReturnsCompose(a, OpsOn(max, before, start, n), OpOn(Run(max, before + start), last, n));
    }
  }

  /**
   * Every slot handed out on n, from the start of any run: the first ones are 0, 1, and so on up to max - 1, and from
   * then on they are the slots given back, first come first served.
   */
  lemma EveryGrantIs(max: int, steps: seq<Step>, n: Id, k: nat)
    requires k < |GrantsOn(max, [], steps, n)|
    ensures k < max ==> GrantsOn(max, [], steps, n)[k] == k
    ensures k >= max ==> var j := k - if max < 0 then 0 else max;
      j < |GivenBack(max, [], steps, n)| && GrantsOn(max, [], steps, n)[k] == GivenBack(max, [], steps, n)[j]
  {
    var a, ops := AllocatorOf(Run(max, []).nodes, max, n), OpsOn(max, [], steps, n);
    NodeFollowsItsOps(max, [], steps, n);
    QueueIsFifo(a, ops);
    assert (Handed(a, ops) + After(a, ops).freeSlots)[k] == Handed(a, ops)[k];
  }

  /** After r is freed, its slot goes out again only when every slot that was free before has gone out. */
  lemma FifoOnEveryRun(max: int, before: seq<Step>, r: Id, more: seq<Step>, n: Id, j: nat)
    requires var s := Run(max, before); r in s.owner && s.owner[r] == n && r in HoldersOn(s.nodes, n)
    requires j < |GrantsOn(max, before + [Free(r)], more, n)|
    requires GrantsOn(max, before + [Free(r)], more, n)[j] == Run(max, before).nodes[n].requestToSlot[r]
    ensures Run(max, before).nodes[n].freeSlots <= GrantsOn(max, before + [Free(r)], more, n)[..j]
  {
    var a, ops := Run(max, before).nodes[n], OpsOn(max, before + [Free(r)], more, n);
    assert Partitioned(a) by { PartitionOnEveryRun(max, before); }
    var freed := Run(max, before + [Free(r)]);
    assert n in freed.nodes && freed.nodes[n] == Release(a, r).1 by { RunOneMore(max, before, Free(r)); }
    assert GrantsOn(max, before + [Free(r)], more, n) == Handed(Release(a, r).1, ops) by {
      NodeFollowsItsOps(max, before + [Free(r)], more, n);
    }
    FreedSlotWaitsItsTurn(a, r, ops, j);
  }

  // ---- The free slot that the filter saw ----

  /**
   * A worker still choosing at the end of more is granted a slot of n exactly when the slots free at before, with those
   * returned since, outnumber the slots handed out since. The filter's own look at the queue plays no part.
   */
  lemma GrabGrantedIff(max: int, before: seq<Step>, more: seq<Step>, w: nat, n: Id)
    requires Grabs(Run(max, before + more), Grab(w, n), n)
    ensures var free := |FreeOn(Run(max, before).nodes, max, n)|;
      GrantOn(Run(max, before + more), max, Grab(w, n), n) != []
      <==> free + |GivenBack(max, before, more, n)| > |GrantsOn(max, before, more, n)|
  {
    var a, ops := AllocatorOf(Run(max, before).nodes, max, n), OpsOn(max, before, more, n);
    NodeFollowsItsOps(max, before, more, n);
    QueueIsFifo(a, ops);
    assert |Handed(a, ops)| + |After(a, ops).freeSlots| == |a.freeSlots| + |Returned(a, ops)|;
    GrantIffFree(Run(max, before + more), max, Grab(w, n), n);
  }

  lemma GrantIffFree(s: State, max: int, step: Step, n: Id)
    requires Grabs(s, step, n)
    ensures GrantOn(s, max, step, n) != [] <==> FreeOn(s.nodes, max, n) != []
  {
  }

  // Two workers see the one free slot of a node.

  function Seen(r: Id, q: Id, n: Id): seq<Step> {
    [Filter(0, r, {n})] + [Filter(1, q, {n})]
  }

  function BothChoosing(r: Id, q: Id, n: Id): State {
    State(map[n := Fresh(1)], map[], map[0 := Choosing(r, {n}), 1 := Choosing(q, {n})])
  }

  lemma FilterSeesFree(s: State, w: nat, r: Id, n: Id)
    requires w !in s.jobs && s.nodes == map[n := Fresh(1)]
    ensures Next(s, 1, Filter(w, r, {n})) == s.(jobs := s.jobs[w := Choosing(r, {n})])
  {
    assert Fresh(1).freeSlots == [0];
    assert Initialised(s.nodes, 1, {n}) == s.nodes && WithFreeSlot(s.nodes, {n}) == {n};
  }

  lemma BothSeeIt(r: Id, q: Id, n: Id)
    requires r != q
    ensures Distinct(1, Seen(r, q, n)) && Run(1, Seen(r, q, n)) == BothChoosing(r, q, n)
  {
    var first, one := [Filter(0, r, {n})], map[n := Fresh(1)];
    assert first[..0] == [] && Seen(r, q, n)[..1] == first;
    assert Initialised(map[], 1, {n}) == one;
    FilterSeesFree(State(one, map[], map[]), 0, r, n);
    assert Run(1, first) == State(one, map[], map[0 := Choosing(r, {n})]);
    assert Distinct(1, first) && !InUse(Run(1, first), q);
    FilterSeesFree(Run(1, first), 1, q, n);
    assert Run(1, Seen(r, q, n)) == Next(Run(1, first), 1, Filter(1, q, {n}));
  }

  lemma FirstTakesIt(r: Id, q: Id, n: Id, a: NodeSlotAllocator)
    requires r != q && a == Allocate(Fresh(1), r).1
    ensures Next(BothChoosing(r, q, n), 1, Grab(0, n))
      == State(map[n := a], map[], map[0 := Holding(r, n, 0), 1 := Choosing(q, {n})])
  {
    var one := map[n := Fresh(1)];
    assert Fresh(1).freeSlots == [0];
    assert Initialised(one, 1, {n}) == one && one[n := a] == map[n := a];
  }

  /** The second worker to allocate is turned away, although its filter saw the slot. */
  lemma FreeSlotCanBeGone(r: Id, q: Id, n: Id)
    requires r != q
    ensures Distinct(1, Seen(r, q, n) + [Grab(0, n)] + [Grab(1, n)])
    ensures Run(1, Seen(r, q, n)) == BothChoosing(r, q, n)
    ensures var s := Run(1, Seen(r, q, n) + [Grab(0, n)] + [Grab(1, n)]); 1 !in s.jobs && q !in HoldersOn(s.nodes, n)
  {
    var seen, a := Seen(r, q, n), Allocate(Fresh(1), r).1;
    BothSeeIt(r, q, n);
    FirstTakesIt(r, q, n, a);
    RunOneMore(1, seen, Grab(0, n));
    RunOneMore(1, seen + [Grab(0, n)], Grab(1, n));
    assert (seen + [Grab(0, n)])[..2] == seen && (seen + [Grab(0, n)] + [Grab(1, n)])[..3] == seen + [Grab(0, n)];
    var taken := map[n := a];
    assert Initialised(taken, 1, {n}) == taken && a.freeSlots == [] && a.requestToSlot == map[r := 0];
  }

  // ---- Why an id must not be used again while it is in use ----

  /** One worker serves r on n from start to finish. */
  function Served(steps: seq<Step>, r: Id, n: Id): seq<Step> {
    ((steps + [Filter(0, r, {n})]) + [Grab(0, n)]) + [Record(0)]
  }

  lemma ServedEffect(max: int, steps: seq<Step>, r: Id, n: Id)
    requires var s := Run(max, steps); s.jobs == map[] && n in s.nodes && HasFreeSlot(s.nodes[n])
    ensures var s := Run(max, steps);
      Run(max, Served(steps, r, n)) == State(s.nodes[n := Allocate(s.nodes[n], r).1], s.owner[r := n], map[])
  {
    var s := Run(max, steps);
    var (slot, a) := Allocate(s.nodes[n], r);
    assert Initialised(s.nodes, max, {n}) == s.nodes;
    var filtered := steps + [Filter(0, r, {n})];
    RunOneMore(max, steps, Filter(0, r, {n}));
    RunOneMore(max, filtered, Grab(0, n));
    RunOneMore(max, filtered + [Grab(0, n)], Record(0));
    assert WithFreeSlot(s.nodes, {n}) == {n};
    assert s.jobs[0 := Choosing(r, {n})] == map[0 := Choosing(r, {n})];
    assert Run(max, filtered) == State(s.nodes, s.owner, map[0 := Choosing(r, {n})]);
    assert Run(max, filtered + [Grab(0, n)]) == State(s.nodes[n := a], s.owner, map[0 := Holding(r, n, slot.value)]);
    assert map[0 := Holding(r, n, slot.value)] - {0} == map[];
  }

  /** Serving r again where it holds a slot: freeing r gives back one of its two slots; the other is lost for good. */
  lemma ReusedIdLosesASlot(max: int, steps: seq<Step>, r: Id, n: Id, ops: seq<Op>)
    requires var s := Run(max, steps); s.jobs == map[] && n in s.nodes && HasFreeSlot(s.nodes[n])
    requires r in HoldersOn(Run(max, steps).nodes, n)
    ensures var s := Run(max, Served(steps, r, n) + [Free(r)]);
      r !in s.owner && n in s.nodes && r !in HoldersOn(s.nodes, n)
    ensures var lost := Run(max, steps).nodes[n].requestToSlot[r];
      0 <= lost < max && lost !in After(Run(max, Served(steps, r, n) + [Free(r)]).nodes[n], ops).freeSlots
  {
    var s := Run(max, steps);
    var a := s.nodes[n];
    var lost := a.requestToSlot[r];
    PartitionOnEveryRun(max, steps);
    ServedEffect(max, steps, r, n);
    RunOneMore(max, Served(steps, r, n), Free(r));
    SecondSlotLeaksFirst(a, r);
    AllocateKeepsPartition(a, r);
    LeakIsPermanent(Allocate(a, r).1, [Return(r)] + ops, lost);
    assert ([Return(r)] + ops)[1..] == ops;
  }
}
