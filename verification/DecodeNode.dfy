/** Runs of a decode node: layers arrive, the last one triggers decoding, each handler one step. */
module DecodeRuns {
  import opened Basics
  import opened LayerTracker
  import opened Memory
  import opened Messages

  /** The event queue holds the poll loop's own triggers among the messages from the network. */
  datatype Item = Trigger(r: Id) | Network

  /** fired and seen only record history: the triggers pushed, and the ids ever accepted. */
  datatype Node = Node(tracker: Tracker, queue: seq<Item>, decoding: set<Id>, fired: seq<Id>, seen: set<Id>)

  const START := Node(EMPTY, [], {}, [], {})

  datatype Setup = Setup(layout: MemoryLayout, numLayers: int, capacity: nat)

  datatype Step =
    | Prepare(r: Id, prefill: Id, slot: int)
    | Arrive(imm: uint32, fenceOk: bool)
    | Receive
    | Pop
    | FinishDecode(r: Id, ok: bool)
    | Cleanup(r: Id)

  predicate Accepts(s: Node, c: Setup, slot: int) {
    c.layout.HasSlot(slot) && !InUse(s.tracker, slot) && c.numLayers >= 0
  }

  function PrepareStep(s: Node, c: Setup, r: Id, prefill: Id, slot: int): Node {
    if Accepts(s, c, slot) then
      s.(tracker := AfterUpdate(AfterAdd(s.tracker, c.layout, r, prefill, slot, c.numLayers), r, WAITING_FOR_KV),
         seen := s.seen + {r})
    else s
  }

  function Pushed(queue: seq<Item>, capacity: nat, item: Item): seq<Item> {
    if |queue| >= capacity then queue else queue + [item]
  }

  /** One receive completion: a trigger needs the last layer, a fence that succeeded, and room in the queue. */
  function ArriveStep(s: Node, c: Setup, imm: uint32, fenceOk: bool): Node {
    var (seqNum, layer) := DecodeLayerId(imm);
    var r := Resolved(s.tracker, seqNum);
    if r == [] then s else
      var (allDone, tracker) := AfterMark(s.tracker, r, layer);
      if allDone && fenceOk
      then s.(tracker := tracker, queue := Pushed(s.queue, c.capacity, Trigger(r)), fired := s.fired + [r])
      else s.(tracker := tracker)
  }

  function PopStep(s: Node): Node {
    if s.queue == [] then s
    else if s.queue[0].Trigger? && s.queue[0].r in s.tracker.requests then
      s.(queue := s.queue[1..], tracker := AfterUpdate(s.tracker, s.queue[0].r, DECODING),
         decoding := s.decoding + {s.queue[0].r})
    else s.(queue := s.queue[1..])
  }

  /** The decode call has returned; a failed request stays tracked. */
  function FinishStep(s: Node, r: Id, ok: bool): Node {
    if r !in s.decoding then s else
      s.(tracker := AfterUpdate(s.tracker, r, if ok then COMPLETED else FAILED), decoding := s.decoding - {r})
  }

  function CleanupStep(s: Node, r: Id): Node {
    if r in s.tracker.requests && s.tracker.requests[r].state == COMPLETED
    then s.(tracker := AfterRemove(s.tracker, r))
    else s
  }

  function Next(s: Node, c: Setup, step: Step): Node {
    match step
    case Prepare(r, prefill, slot) => PrepareStep(s, c, r, prefill, slot)
    case Arrive(imm, fenceOk) => ArriveStep(s, c, imm, fenceOk)
    case Receive => s.(queue := Pushed(s.queue, c.capacity, Network))
    case Pop => PopStep(s)
    case FinishDecode(r, ok) => FinishStep(s, r, ok)
    case Cleanup(r) => CleanupStep(s, r)
  }

  function Run(c: Setup, steps: seq<Step>): Node {
    if steps == [] then START else Next(Run(c, steps[..|steps| - 1]), c, steps[|steps| - 1])
  }

  ghost predicate FreshIds(c: Setup, steps: seq<Step>)
    decreases |steps|
  {
    steps == [] ||
    (var before, last := steps[..|steps| - 1], steps[|steps| - 1];
     FreshIds(c, before) && (last.Prepare? ==> last.r !in Run(c, before).seen))
  }

  // ---- One request's state ----

  function Rank(state: State): nat {
    match state
    case ASSIGNED => 0
    case WAITING_FOR_PREFILL => 1
    case WAITING_FOR_KV => 2
    case RECEIVING_KV => 3
    case READY_FOR_DECODE => 4
    case DECODING => 5
    case COMPLETED => 6
    case FAILED => 6
  }

  /** The state says how far the layers have come: none, some, or all of at least one. */
  ghost predicate StateRight(q: Request) {
    match q.state
    case ASSIGNED => false
    case WAITING_FOR_PREFILL => false
    case WAITING_FOR_KV => Flagged(q) == {}
    case RECEIVING_KV => Flagged(q) != {} && !AllFlagged(q)
    case _ => Flagged(q) != {} && AllFlagged(q)
  }

  ghost predicate Good(q: Request) {
    Counted(q) && StateRight(q)
  }

  lemma MarkKeepsGood(q: Request, layer: int)
    requires Good(q)
    ensures var (answer, q') := Marked(q, layer); Good(q') && Rank(q.state) <= Rank(q'.state)
    ensures var (answer, q') := Marked(q, layer); MarkMoves(q.state, answer, q'.state)
  {
    var q' := Marked(q, layer).1;
    MarkedIsCounted(q, layer);
    FullIffAllFlagged(q);
    FullIffAllFlagged(q');
    if 0 <= layer < |q.layers| && !q.layers[layer].received {
      assert layer in Flagged(q');
      assert Flagged(q) != {} ==> |Flagged(q)| >= 1;
    }
  }

  // ---- The invariant ----

  type States = map<Id, State>

  function StatesIn(requests: map<Id, Request>): States {
    map r | r in requests :: requests[r].state
  }

  function StatesOf(t: Tracker): States {
    StatesIn(t.requests)
  }

  ghost predicate AllGood(requests: map<Id, Request>) {
    forall r :: r in requests ==> Good(requests[r])
  }

  /** A queued trigger is for a request that is ready, and no two are for the same one. */
  ghost predicate QueueRight(queue: seq<Item>, st: States) {
    && (forall i :: 0 <= i < |queue| && queue[i].Trigger? ==> queue[i].r in st && st[queue[i].r] == READY_FOR_DECODE)
    && (forall i, j :: 0 <= i < j < |queue| && queue[i].Trigger? ==> queue[i] != queue[j])
  }

  ghost predicate DecodingRight(decoding: set<Id>, st: States) {
    forall r :: r in decoding <==> r in st && st[r] == DECODING
  }

  ghost predicate FiredRight(fired: seq<Id>, seen: set<Id>, st: States) {
    && NoDuplicates(fired)
    && st.Keys <= seen
    && forall r :: r in fired ==> r in seen && (r in st ==> Rank(st[r]) >= 4)
  }

  ghost predicate ViewRight(queue: seq<Item>, decoding: set<Id>, fired: seq<Id>, seen: set<Id>, st: States) {
    QueueRight(queue, st) && DecodingRight(decoding, st) && FiredRight(fired, seen, st)
  }

  ghost predicate Invariant(s: Node) {
    AllGood(s.tracker.requests) && ViewRight(s.queue, s.decoding, s.fired, s.seen, StatesOf(s.tracker))
  }

  /** Requests move forward only, and one that has gone does not come back. */
  ghost predicate Forward(seen: set<Id>, st: States, seen': set<Id>, st': States) {
    seen <= seen' && forall r :: r in seen && r in st' ==> r in st && Rank(st[r]) <= Rank(st'[r])
  }

  ghost predicate StepsForward(s: Node, s': Node) {
    Forward(s.seen, StatesOf(s.tracker), s'.seen, StatesOf(s'.tracker))
  }

  // ---- Steps, seen through the states alone ----

  lemma ViewPrepared(queue: seq<Item>, decoding: set<Id>, fired: seq<Id>, seen: set<Id>, st: States, r: Id)
    requires ViewRight(queue, decoding, fired, seen, st) && r !in seen
    ensures ViewRight(queue, decoding, fired, seen + {r}, st[r := WAITING_FOR_KV])
    ensures Forward(seen, st, seen + {r}, st[r := WAITING_FOR_KV])
  {
  }

  ghost predicate MarkMoves(x: State, answer: bool, x': State) {
    && Rank(x) <= Rank(x')
    && if answer then Rank(x) < 4 && x' == READY_FOR_DECODE else x' == x || Rank(x') < 4
  }

  lemma ViewMarked(queue: seq<Item>, decoding: set<Id>, fired: seq<Id>, seen: set<Id>, st: States, r: Id,
    answer: bool, x: State)
    requires ViewRight(queue, decoding, fired, seen, st) && r in st && MarkMoves(st[r], answer, x)
    ensures ViewRight(queue, decoding, fired, seen, st[r := x]) && Forward(seen, st, seen, st[r := x])
    ensures answer ==> r !in fired && Trigger(r) !in queue
  {
  }

  lemma ViewPushed(queue: seq<Item>, capacity: nat, decoding: set<Id>, fired: seq<Id>, seen: set<Id>, st: States, r: Id)
    requires ViewRight(queue, decoding, fired, seen, st) && r in st && st[r] == READY_FOR_DECODE
    requires r !in fired && Trigger(r) !in queue
    ensures ViewRight(Pushed(queue, capacity, Trigger(r)), decoding, fired + [r], seen, st)
  {
  }

  lemma ViewPopped(queue: seq<Item>, decoding: set<Id>, fired: seq<Id>, seen: set<Id>, st: States)
    requires ViewRight(queue, decoding, fired, seen, st) && queue != []
    ensures if queue[0].Trigger?
      then queue[0].r in st && Rank(st[queue[0].r]) >= 4 && Forward(seen, st, seen, st[queue[0].r := DECODING])
        && ViewRight(queue[1..], decoding + {queue[0].r}, fired, seen, st[queue[0].r := DECODING])
      else ViewRight(queue[1..], decoding, fired, seen, st)
  {
    assert forall i :: 0 <= i < |queue[1..]| ==> queue[1..][i] == queue[i + 1];
  }

  lemma ViewFinished(queue: seq<Item>, decoding: set<Id>, fired: seq<Id>, seen: set<Id>, st: States, r: Id, x: State)
    requires ViewRight(queue, decoding, fired, seen, st) && r in decoding && Rank(x) == 6
    ensures r in st && st[r] == DECODING && ViewRight(queue, decoding - {r}, fired, seen, st[r := x])
    ensures Forward(seen, st, seen, st[r := x])
  {
  }

  lemma ViewRemoved(queue: seq<Item>, decoding: set<Id>, fired: seq<Id>, seen: set<Id>, st: States, r: Id)
    requires ViewRight(queue, decoding, fired, seen, st) && r in st && st[r] == COMPLETED
    ensures ViewRight(queue, decoding, fired, seen, st - {r}) && Forward(seen, st, seen, st - {r})
  {
  }

  // ---- Steps ----

  lemma OneReplaced(requests: map<Id, Request>, r: Id, q: Request)
    requires AllGood(requests - {r}) && Good(q)
    ensures AllGood(requests[r := q]) && StatesIn(requests[r := q]) == StatesIn(requests)[r := q.state]
  {
    var others, all := requests - {r}, requests[r := q];
    assert forall x :: x in all.Keys ==> x == r || x in others.Keys;
  }

  lemma OneRemoved(requests: map<Id, Request>, r: Id)
    requires AllGood(requests)
    ensures AllGood(requests - {r}) && StatesIn(requests - {r}) == StatesIn(requests) - {r}
  {
  }

  lemma SetState(t: Tracker, r: Id, state: State)
    requires AllGood(t.requests) && r in t.requests && StateRight(t.requests[r].(state := state))
    ensures AllGood(AfterUpdate(t, r, state).requests) && StatesOf(AfterUpdate(t, r, state)) == StatesOf(t)[r := state]
  {
    var q := t.requests[r].(state := state);
    assert Flagged(q) == Flagged(t.requests[r]);
    OneRemoved(t.requests, r);
    OneReplaced(t.requests, r, q);
  }

  lemma PrepareKeeps(s: Node, c: Setup, r: Id, prefill: Id, slot: int)
    requires Invariant(s) && r !in s.seen
    ensures var s' := PrepareStep(s, c, r, prefill, slot); Invariant(s') && StepsForward(s, s')
  {
    if Accepts(s, c, slot) {
      assert r !in StatesOf(s.tracker);
      PreparedTracker(s.tracker, c, r, prefill, slot, PrepareStep(s, c, r, prefill, slot).tracker);
      ViewPrepared(s.queue, s.decoding, s.fired, s.seen, StatesOf(s.tracker), r);
    }
  }

  lemma WaitingIsGood(c: Setup, r: Id, prefill: Id, slot: nat)
    requires c.numLayers >= 0
    ensures Good(NewRequest(c.layout, r, prefill, slot, c.numLayers).(state := WAITING_FOR_KV))
  {
    var q := NewRequest(c.layout, r, prefill, slot, c.numLayers);
    NewRequestIsCounted(c.layout, r, prefill, slot, c.numLayers);
    assert Flagged(q.(state := WAITING_FOR_KV)) == Flagged(q);
  }

  lemma PreparedTracker(t: Tracker, c: Setup, r: Id, prefill: Id, slot: int, t': Tracker)
    requires AllGood(t.requests) && r !in t.requests
    requires c.layout.HasSlot(slot) && !InUse(t, slot) && c.numLayers >= 0
    requires t' == AfterUpdate(AfterAdd(t, c.layout, r, prefill, slot, c.numLayers), r, WAITING_FOR_KV)
    ensures AllGood(t'.requests) && StatesOf(t') == StatesOf(t)[r := WAITING_FOR_KV]
  {
    var q0 := NewRequest(c.layout, r, prefill, slot, c.numLayers);
    var q := q0.(state := WAITING_FOR_KV);
    var t0 := Stored(t, q0);
    WaitingIsGood(c, r, prefill, slot);
    assert t' == t0.(requests := t0.requests[r := q]);
    assert t0.requests[r := q] == t.requests[r := q] && t.requests - {r} == t.requests;
    OneReplaced(t.requests, r, q);
  }

  lemma MarkedTracker(t: Tracker, r: Id, layer: int, answer: bool, t': Tracker) returns (x: State)
    requires AllGood(t.requests) && r in t.requests && (answer, t') == AfterMark(t, r, layer)
    ensures AllGood(t'.requests) && StatesOf(t') == StatesOf(t)[r := x] && MarkMoves(StatesOf(t)[r], answer, x)
  {
    var q' := t'.requests[r];
    x := q'.state;
    MarkKeepsGood(t.requests[r], layer);
    OneRemoved(t.requests, r);
    OneReplaced(t.requests, r, q');
  }

  lemma ArriveKeeps(s: Node, c: Setup, imm: uint32, fenceOk: bool)
    requires Invariant(s)
    ensures var s' := ArriveStep(s, c, imm, fenceOk); Invariant(s') && StepsForward(s, s')
  {
    var (seqNum, layer) := DecodeLayerId(imm);
    var r := Resolved(s.tracker, seqNum);
    if r != [] && r in s.tracker.requests {
      var st := StatesOf(s.tracker);
      var (answer, t') := AfterMark(s.tracker, r, layer);
      var x := MarkedTracker(s.tracker, r, layer, answer, t');
      ViewMarked(s.queue, s.decoding, s.fired, s.seen, st, r, answer, x);
      if answer && fenceOk {
        ViewPushed(s.queue, c.capacity, s.decoding, s.fired, s.seen, st[r := x], r);
      }
    }
  }

  lemma PopKeeps(s: Node)
    requires Invariant(s)
    ensures Invariant(PopStep(s)) && StepsForward(s, PopStep(s))
  {
    if s.queue != [] {
      ViewPopped(s.queue, s.decoding, s.fired, s.seen, StatesOf(s.tracker));
      if s.queue[0].Trigger? {
        LaterStateIsRight(s.tracker.requests[s.queue[0].r], DECODING);
        SetState(s.tracker, s.queue[0].r, DECODING);
      }
    }
  }

  lemma FinishKeeps(s: Node, r: Id, ok: bool)
    requires Invariant(s)
    ensures Invariant(FinishStep(s, r, ok)) && StepsForward(s, FinishStep(s, r, ok))
  {
    if r in s.decoding {
      FinishAs(s, r, if ok then COMPLETED else FAILED, FinishStep(s, r, ok));
    }
  }

  lemma FinishAs(s: Node, r: Id, x: State, s': Node)
    requires Invariant(s) && r in s.decoding && Rank(x) == 6
    requires s' == s.(tracker := AfterUpdate(s.tracker, r, x), decoding := s.decoding - {r})
    ensures Invariant(s') && StepsForward(s, s')
  {
    ViewFinished(s.queue, s.decoding, s.fired, s.seen, StatesOf(s.tracker), r, x);
    LaterStateIsRight(s.tracker.requests[r], x);
    SetState(s.tracker, r, x);
  }

  lemma LaterStateIsRight(q: Request, x: State)
    requires Good(q) && Rank(q.state) >= 4 && Rank(x) >= 4
    ensures StateRight(q.(state := x))
  {
    assert Flagged(q.(state := x)) == Flagged(q);
  }

  lemma CleanupKeeps(s: Node, r: Id)
    requires Invariant(s)
    ensures Invariant(CleanupStep(s, r)) && StepsForward(s, CleanupStep(s, r))
  {
    if r in s.tracker.requests && s.tracker.requests[r].state == COMPLETED {
      RemovedTracker(s.tracker, r);
      ViewRemoved(s.queue, s.decoding, s.fired, s.seen, StatesOf(s.tracker), r);
    }
  }

  lemma RemovedTracker(t: Tracker, r: Id)
    requires AllGood(t.requests) && r in t.requests
    ensures AllGood(AfterRemove(t, r).requests) && StatesOf(AfterRemove(t, r)) == StatesOf(t) - {r}
  {
    OneRemoved(t.requests, r);
  }

  lemma NextKeeps(s: Node, c: Setup, step: Step)
    requires Invariant(s) && (step.Prepare? ==> step.r !in s.seen)
    ensures Invariant(Next(s, c, step)) && StepsForward(s, Next(s, c, step))
  {
    match step {
      case Prepare(r, prefill, slot) => PrepareKeeps(s, c, r, prefill, slot);
      case Arrive(imm, fenceOk) => ArriveKeeps(s, c, imm, fenceOk);
      case Receive =>
      case Pop => PopKeeps(s);
      case FinishDecode(r, ok) => FinishKeeps(s, r, ok);
      case Cleanup(r) => CleanupKeeps(s, r);
    }
  }

  lemma {:induction false} InvariantOnEveryRun(c: Setup, steps: seq<Step>)
    requires FreshIds(c, steps)
    ensures Invariant(Run(c, steps))
    decreases |steps|
  {
    if steps == [] {
    } else {
      InvariantOnEveryRun(c, steps[..|steps| - 1]);
      NextKeeps(Run(c, steps[..|steps| - 1]), c, steps[|steps| - 1]);
    }
  }

  // ---- What every run keeps ----

  ghost predicate AllLaidOut(t: Tracker, c: Setup) {
    forall r :: r in t.requests ==> LaidOut(t.requests[r], c.layout, c.numLayers)
  }

  lemma StepLaysOut(s: Node, c: Setup, step: Step)
    requires AllLaidOut(s.tracker, c)
    ensures AllLaidOut(Next(s, c, step).tracker, c)
  {
    if step.Arrive? {
      var r := Resolved(s.tracker, DecodeLayerId(step.imm).0);
      if r in s.tracker.requests {
        assert LaidOut(s.tracker.requests[r], c.layout, c.numLayers);
        assert LaidOut(Marked(s.tracker.requests[r], DecodeLayerId(step.imm).1).1, c.layout, c.numLayers);
      }
    }
  }

  /** On every run, whatever the ids, a tracked request has exactly the layers of the model, each in its place. */
  lemma {:induction false} LaidOutOnEveryRun(c: Setup, steps: seq<Step>)
    ensures AllLaidOut(Run(c, steps).tracker, c)
    decreases |steps|
  {
    if steps == [] {
    } else {
      LaidOutOnEveryRun(c, steps[..|steps| - 1]);
      StepLaysOut(Run(c, steps[..|steps| - 1]), c, steps[|steps| - 1]);
    }
  }

  /** Decoding, and everything after it, is reached only with every layer of the model flagged, and at least one. */
  lemma DecodingOnlyWhenComplete(c: Setup, steps: seq<Step>, r: Id)
    requires FreshIds(c, steps)
    requires r in Run(c, steps).tracker.requests && Rank(Run(c, steps).tracker.requests[r].state) >= Rank(DECODING)
    ensures var q := Run(c, steps).tracker.requests[r];
      |q.layers| == c.numLayers >= 1 && q.layersReceived == c.numLayers
      && forall i :: 0 <= i < c.numLayers ==> q.layers[i].layerId == i && q.layers[i].received
  {
    InvariantOnEveryRun(c, steps);
    LaidOutOnEveryRun(c, steps);
    var q := Run(c, steps).tracker.requests[r];
    assert Good(q) && LaidOut(q, c.layout, c.numLayers);
    FullIffAllFlagged(q);
  }

  /** At most one trigger is pushed for a request, and at most one waits in the queue. */
  lemma OneTriggerEach(c: Setup, steps: seq<Step>)
    requires FreshIds(c, steps)
    ensures NoDuplicates(Run(c, steps).fired)
    ensures var queue := Run(c, steps).queue;
      forall i, j :: 0 <= i < j < |queue| && queue[i].Trigger? ==> queue[i] != queue[j]
  {
    InvariantOnEveryRun(c, steps);
  }

  lemma OneMore(c: Setup, before: seq<Step>, more: seq<Step>)
    requires more != [] && FreshIds(c, before + more)
    ensures var sofar := before + more[..|more| - 1];
      FreshIds(c, sofar) && Run(c, before + more) == Next(Run(c, sofar), c, more[|more| - 1])
      && (more[|more| - 1].Prepare? ==> more[|more| - 1].r !in Run(c, sofar).seen)
  {
    assert (before + more)[..|before + more| - 1] == before + more[..|more| - 1];
  }

  /** From any point of a run to any later one, a request still tracked has not moved back. */
  lemma {:induction false} StatesMoveForward(c: Setup, before: seq<Step>, more: seq<Step>)
    requires FreshIds(c, before + more)
    ensures StepsForward(Run(c, before), Run(c, before + more))
    decreases |more|
  {
    if more == [] {
      assert before + more == before;
    } else {
      var sofar := before + more[..|more| - 1];
      OneMore(c, before, more);
      StatesMoveForward(c, before, more[..|more| - 1]);
      InvariantOnEveryRun(c, sofar);
      NextKeeps(Run(c, sofar), c, more[|more| - 1]);
    }
  }

  // ---- The slot of a request whose decode has ended ----

  lemma StepKeepsSlotsApart(s: Node, c: Setup, step: Step)
    requires SlotsDiffer(s.tracker)
    ensures SlotsDiffer(Next(s, c, step).tracker)
  {
    if step.Arrive? {
      var r, layer := Resolved(s.tracker, DecodeLayerId(step.imm).0), DecodeLayerId(step.imm).1;
      if r in s.tracker.requests {
        assert Marked(s.tracker.requests[r], layer).1.slotId == s.tracker.requests[r].slotId;
      }
    }
  }

  lemma {:induction false} SlotsApartOnEveryRun(c: Setup, steps: seq<Step>)
    ensures SlotsDiffer(Run(c, steps).tracker)
    decreases |steps|
  {
    if steps == [] {
    } else {
      SlotsApartOnEveryRun(c, steps[..|steps| - 1]);
      StepKeepsSlotsApart(Run(c, steps[..|steps| - 1]), c, steps[|steps| - 1]);
    }
  }

  /** r is tracked as completed or failed, in the given slot. */
  ghost predicate EndedIn(s: Node, r: Id, ok: bool, slot: int) {
    r in s.seen && r in s.tracker.requests && s.tracker.requests[r].state == (if ok then COMPLETED else FAILED)
    && s.tracker.requests[r].slotId == slot
  }

  lemma FinishEnds(s: Node, r: Id, ok: bool)
    requires r in s.decoding && r in s.tracker.requests && r in s.seen
    ensures EndedIn(FinishStep(s, r, ok), r, ok, s.tracker.requests[r].slotId)
    ensures !ok ==> CleanupStep(FinishStep(s, r, ok), r) == FinishStep(s, r, ok)
  {
  }

  lemma DecodedLeaves(s: Node, r: Id, slot: int, t: Tracker)
    requires SlotsDiffer(s.tracker) && r in s.decoding && r in s.tracker.requests
    requires slot == s.tracker.requests[r].slotId && t == CleanupStep(FinishStep(s, r, true), r).tracker
    ensures !InUse(t, slot)
  {
    assert t.requests == s.tracker.requests - {r};
  }

  lemma DecodingIsTracked(c: Setup, steps: seq<Step>, r: Id)
    requires FreshIds(c, steps) && r in Run(c, steps).decoding
    ensures r in Run(c, steps).tracker.requests && r in Run(c, steps).seen
  {
    InvariantOnEveryRun(c, steps);
    assert r in StatesOf(Run(c, steps).tracker);
  }

  lemma TrackedFits(c: Setup, steps: seq<Step>, r: Id)
    requires r in Run(c, steps).tracker.requests
    ensures c.layout.HasSlot(Run(c, steps).tracker.requests[r].slotId) && c.numLayers >= 0
  {
    LaidOutOnEveryRun(c, steps);
    assert LaidOut(Run(c, steps).tracker.requests[r], c.layout, c.numLayers);
  }

  lemma FinishThenCleanup(c: Setup, steps: seq<Step>, r: Id, ok: bool)
    ensures Run(c, (steps + [FinishDecode(r, ok)]) + [Cleanup(r)]) == CleanupStep(FinishStep(Run(c, steps), r, ok), r)
  {
    var finished := steps + [FinishDecode(r, ok)];
    assert finished[..|steps|] == steps && (finished + [Cleanup(r)])[..|finished|] == finished;
  }

  /** When a decode has ended, its slot can be prepared again if and only if the decode succeeded. */
  lemma SlotComesBackIffDecoded(c: Setup, steps: seq<Step>, r: Id, ok: bool)
    requires FreshIds(c, steps) && r in Run(c, steps).decoding
    ensures r in Run(c, steps).tracker.requests
    ensures Accepts(Run(c, (steps + [FinishDecode(r, ok)]) + [Cleanup(r)]), c, Run(c, steps).tracker.requests[r].slotId)
      <==> ok
  {
    var s := Run(c, steps);
    DecodingIsTracked(c, steps, r);
    TrackedFits(c, steps, r);
    FinishThenCleanup(c, steps, r, ok);
    if ok {
      SlotsApartOnEveryRun(c, steps);
      DecodedLeaves(s, r, s.tracker.requests[r].slotId, CleanupStep(FinishStep(s, r, true), r).tracker);
    } else {
      FinishEnds(s, r, false);
    }
  }

  lemma EndedThroughArrival(s: Node, c: Setup, imm: uint32, fenceOk: bool, r: Id, ok: bool, slot: int)
    requires Invariant(s) && EndedIn(s, r, ok, slot)
    ensures EndedIn(ArriveStep(s, c, imm, fenceOk), r, ok, slot)
  {
    assert Good(s.tracker.requests[r]);
  }

  lemma EndedStays(s: Node, c: Setup, step: Step, r: Id, ok: bool, slot: int)
    requires Invariant(s) && EndedIn(s, r, ok, slot) && (step.Prepare? ==> step.r !in s.seen)
    requires ok ==> step != Cleanup(r)
    ensures EndedIn(Next(s, c, step), r, ok, slot)
  {
    assert StatesOf(s.tracker)[r] == if ok then COMPLETED else FAILED;
    match step {
      case Arrive(imm, fenceOk) => EndedThroughArrival(s, c, imm, fenceOk, r, ok, slot);
      case Prepare(_, _, _) =>
      case Receive =>
      case Pop =>
      case FinishDecode(_, _) =>
      case Cleanup(_) =>
    }
  }

  lemma {:induction false} EndedUntilCleanup(c: Setup, before: seq<Step>, more: seq<Step>, r: Id, ok: bool, slot: int)
    requires FreshIds(c, before + more) && EndedIn(Run(c, before), r, ok, slot) && (ok ==> Cleanup(r) !in more)
    ensures EndedIn(Run(c, before + more), r, ok, slot)
    decreases |more|
  {
    if more == [] {
      assert before + more == before;
    } else {
      var sofar, last := before + more[..|more| - 1], more[|more| - 1];
      assert last in more;
      OneMore(c, before, more);
      EndedUntilCleanup(c, before, more[..|more| - 1], r, ok, slot);
      InvariantOnEveryRun(c, sofar);
      EndedStays(Run(c, sofar), c, last, r, ok, slot);
    }
  }

  /**
   * However a run goes on, the slot of a decode that has ended is refused to every request until its clean-up, which
   * comes after the orchestrator has been told of the completion; a failed decode has none, so its slot is lost.
   */
  lemma SlotRefusedUntilCleanup(c: Setup, before: seq<Step>, r: Id, ok: bool, more: seq<Step>)
    requires FreshIds(c, before) && r in Run(c, before).decoding
    requires FreshIds(c, (before + [FinishDecode(r, ok)]) + more)
    ensures r in Run(c, before).tracker.requests
    ensures Accepts(Run(c, (before + [FinishDecode(r, ok)]) + more), c, Run(c, before).tracker.requests[r].slotId) ==>
      ok && Cleanup(r) in more
  {
    var s, ended := Run(c, before), before + [FinishDecode(r, ok)];
    assert ended[..|before|] == before;
    DecodingIsTracked(c, before, r);
    FinishEnds(s, r, ok);
    if !ok || Cleanup(r) !in more {
      EndedUntilCleanup(c, ended, more, r, ok, s.tracker.requests[r].slotId);
    }
  }

  // ---- A trigger that is lost ----

  /** Ready, with no trigger in the queue and no decode under way. */
  ghost predicate Stuck(s: Node, r: Id) {
    r in s.tracker.requests && s.tracker.requests[r].state == READY_FOR_DECODE && Trigger(r) !in s.queue && r in s.seen
  }

  lemma StuckThroughArrival(s: Node, c: Setup, imm: uint32, fenceOk: bool, r: Id)
    requires Invariant(s) && Stuck(s, r)
    ensures Stuck(ArriveStep(s, c, imm, fenceOk), r)
  {
    var x := Resolved(s.tracker, DecodeLayerId(imm).0);
    if x != [] && x in s.tracker.requests {
      MarkKeepsGood(s.tracker.requests[x], DecodeLayerId(imm).1);
    }
  }

  lemma StuckStays(s: Node, c: Setup, step: Step, r: Id)
    requires Invariant(s) && (step.Prepare? ==> step.r !in s.seen)
    requires Stuck(s, r)
    ensures Stuck(Next(s, c, step), r)
  {
    match step {
      case Arrive(imm, fenceOk) => StuckThroughArrival(s, c, imm, fenceOk, r);
      case Prepare(_, _, _) =>
      case Receive =>
      case Pop =>
      case FinishDecode(_, _) =>
      case Cleanup(_) =>
    }
  }

  lemma {:induction false} StuckForGood(c: Setup, before: seq<Step>, more: seq<Step>, r: Id)
    requires FreshIds(c, before + more) && Stuck(Run(c, before), r)
    ensures Stuck(Run(c, before + more), r)
    decreases |more|
  {
    if more == [] {
      assert before + more == before;
    } else {
      var sofar := before + more[..|more| - 1];
      OneMore(c, before, more);
      StuckForGood(c, before, more[..|more| - 1], r);
      InvariantOnEveryRun(c, sofar);
      StuckStays(Run(c, sofar), c, more[|more| - 1], r);
    }
  }

  lemma StuckIsIdle(s: Node, r: Id)
    requires Invariant(s) && Stuck(s, r)
    ensures r !in s.decoding
  {
    assert StatesOf(s.tracker)[r] != DECODING;
  }

  /** The arrival with this immediate is the one that completes r. */
  predicate Completes(s: Node, imm: uint32, r: Id) {
    var (seqNum, layer) := DecodeLayerId(imm);
    r != [] && r == Resolved(s.tracker, seqNum) && AfterMark(s.tracker, r, layer).0
  }

  /** The completing arrival leaves r stuck exactly when the fence fails or the queue is full. */
  lemma StuckIffTriggerLost(s: Node, c: Setup, imm: uint32, fenceOk: bool, r: Id)
    requires Invariant(s) && Completes(s, imm, r)
    ensures Stuck(ArriveStep(s, c, imm, fenceOk), r) <==> !fenceOk || |s.queue| >= c.capacity
    ensures fenceOk && |s.queue| < c.capacity ==> ArriveStep(s, c, imm, fenceOk).queue == s.queue + [Trigger(r)]
  {
    var st := StatesOf(s.tracker);
    var (answer, t') := AfterMark(s.tracker, r, DecodeLayerId(imm).1);
    var x := MarkedTracker(s.tracker, r, DecodeLayerId(imm).1, answer, t');
    ViewMarked(s.queue, s.decoding, s.fired, s.seen, st, r, answer, x);
    assert StatesOf(t')[r] == READY_FOR_DECODE;
  }

  lemma FreshWithPop(c: Setup, steps: seq<Step>)
    requires FreshIds(c, steps)
    ensures FreshIds(c, steps + [Pop]) && Run(c, steps + [Pop]) == PopStep(Run(c, steps))
  {
    assert (steps + [Pop])[..|steps|] == steps;
  }

  lemma FrontIsDecoded(s: Node, r: Id)
    requires Invariant(s) && s.queue != [] && s.queue[0] == Trigger(r)
    ensures r in PopStep(s).decoding
  {
    assert r in StatesOf(s.tracker);
  }

  /** A queued trigger starts its decode once workers have taken what stands before it. */
  lemma {:induction false} QueuedIsDecoded(c: Setup, steps: seq<Step>, k: nat, r: Id) returns (more: seq<Step>)
    requires FreshIds(c, steps) && k < |Run(c, steps).queue| && Run(c, steps).queue[k] == Trigger(r)
    ensures FreshIds(c, steps + more) && r in Run(c, steps + more).decoding
    decreases k
  {
    FreshWithPop(c, steps);
    if k == 0 {
      more := [Pop];
      InvariantOnEveryRun(c, steps);
      FrontIsDecoded(Run(c, steps), r);
    } else {
      assert PopStep(Run(c, steps)).queue == Run(c, steps).queue[1..];
      var later := QueuedIsDecoded(c, steps + [Pop], k - 1, r);
      more := [Pop] + later;
      assert steps + more == (steps + [Pop]) + later;
    }
  }

  ghost predicate DecodeStarts(c: Setup, steps: seq<Step>, r: Id) {
    exists more :: FreshIds(c, steps + more) && r in Run(c, steps + more).decoding
  }

  /**
   * Once the last layer of r has arrived, its decode can still be started by some continuation exactly when the fence
   * succeeded and the queue had room: there is no second trigger.
   */
  lemma DecodeStartsIffTriggered(c: Setup, before: seq<Step>, imm: uint32, fenceOk: bool, r: Id)
    requires FreshIds(c, before) && Completes(Run(c, before), imm, r)
    ensures DecodeStarts(c, before + [Arrive(imm, fenceOk)], r) <==> fenceOk && |Run(c, before).queue| < c.capacity
  {
    var s, steps := Run(c, before), before + [Arrive(imm, fenceOk)];
    assert steps[..|before|] == before;
    InvariantOnEveryRun(c, before);
    StuckIffTriggerLost(s, c, imm, fenceOk, r);
    if fenceOk && |s.queue| < c.capacity {
      var more := QueuedIsDecoded(c, steps, |s.queue|, r);
    } else {
      forall more | FreshIds(c, steps + more) ensures r !in Run(c, steps + more).decoding {
        StuckForGood(c, steps, more, r);
        InvariantOnEveryRun(c, steps + more);
        StuckIsIdle(Run(c, steps + more), r);
      }
    }
  }

  /** After a failed fence or a full queue at its last layer, a request stays ready for ever, whatever follows. */
  lemma LostTriggerIsFinal(c: Setup, before: seq<Step>, imm: uint32, fenceOk: bool, more: seq<Step>, r: Id)
    requires FreshIds(c, (before + [Arrive(imm, fenceOk)]) + more) && FreshIds(c, before)
    requires Completes(Run(c, before), imm, r) && (!fenceOk || |Run(c, before).queue| >= c.capacity)
    ensures Stuck(Run(c, (before + [Arrive(imm, fenceOk)]) + more), r)
  {
    var steps := before + [Arrive(imm, fenceOk)];
    assert steps[..|before|] == before;
    InvariantOnEveryRun(c, before);
    StuckIffTriggerLost(Run(c, before), c, imm, fenceOk, r);
    StuckForGood(c, steps, more, r);
  }

  /** Both ways of losing it happen: one layer, slot 0, and a fence that fails or another event in a queue of one. */
  lemma TriggersAreLost(layout: MemoryLayout, r: Id, prefill: Id)
    requires layout.maxConcurrentRequests > 0 && r != []
    ensures var (c, steps) := (Setup(layout, 1, 1), [Prepare(r, prefill, 0), Arrive(0, false)]);
      FreshIds(c, steps) && Stuck(Run(c, steps), r)
    ensures var (c, steps) := (Setup(layout, 1, 1), [Prepare(r, prefill, 0), Receive, Arrive(0, true)]);
      FreshIds(c, steps) && Stuck(Run(c, steps), r)
  {
    var c, prepare := Setup(layout, 1, 1), Prepare(r, prefill, 0);
    var prepared, crowded := PrepareStep(START, c, r, prefill, 0), [prepare, Receive];
    assert [prepare][..0] == [] && [prepare, Arrive(0, false)][..1] == [prepare];
    assert crowded[..1] == [prepare] && [prepare, Receive, Arrive(0, true)][..2] == crowded;
    InvariantOnEveryRun(c, [prepare]);
    InvariantOnEveryRun(c, crowded);
    OneLayerCompletes(layout, r, prefill);
    StuckIffTriggerLost(prepared, c, 0, false, r);
    StuckIffTriggerLost(Run(c, crowded), c, 0, true, r);
  }

  lemma OneLayerCompletes(layout: MemoryLayout, r: Id, prefill: Id)
    requires layout.maxConcurrentRequests > 0 && r != []
    ensures Completes(PrepareStep(START, Setup(layout, 1, 1), r, prefill, 0), 0, r)
  {
  }
}
