/** The decode node's poll loop and handlers, working on the tracker and the event queue in place. */
module NodeClass {
  import opened Basics
  import opened DecodeRuns
  import opened LayerTracker
  import opened Messages
  import opened TrackerClass

  /** A receive completion: its immediate, and whether the device fence after it would succeed. */
  datatype Completion = Completion(imm: uint32, fenceOk: bool)

  function ArriveAll(s: Node, c: Setup, wcs: seq<Completion>): Node {
    if wcs == [] then s else
      var last := wcs[|wcs| - 1];
      ArriveStep(ArriveAll(s, c, wcs[..|wcs| - 1]), c, last.imm, last.fenceOk)
  }

  class DecodeNode {
    const setup: Setup
    const tracker: RequestTrackerLayer
    var queue: seq<Item>
    var decoding: set<Id>
    ghost var fired: seq<Id>
    ghost var seen: set<Id>

    constructor (setup: Setup)
      ensures this.setup == setup && fresh(tracker) && Valid() && State() == START
    {
      this.setup := setup;
      tracker := new RequestTrackerLayer(setup.layout);
      queue, decoding, fired, seen := [], {}, [], {};
    }

    ghost predicate Valid() {
      tracker.layout == setup.layout
    }

    ghost function State(): Node
      reads this, tracker
    {
      Node(tracker.Contents(), queue, decoding, fired, seen)
    }

    method Push(item: Item)
      modifies this`queue
      ensures queue == Pushed(old(queue), setup.capacity, item)
    {
      if |queue| >= setup.capacity { return; }
      queue := queue + [item];
    }

    /** One round of the poll loop over the completions it was given, in order. */
    method ProcessCompletions(wcs: seq<Completion>)
      requires Valid()
      modifies this`queue, this`fired, tracker
      ensures State() == ArriveAll(old(State()), setup, wcs)
    {
      for i := 0 to |wcs|
        invariant decoding == old(decoding) && seen == old(seen)
        invariant State() == ArriveAll(old(State()), setup, wcs[..i])
      {
        assert wcs[..i + 1][..i] == wcs[..i];
        var (seqNum, layer) := DecodeLayerId(wcs[i].imm);
        var r := tracker.ResolveSeqNum(seqNum);
        if r != [] {
          var allDone := tracker.MarkLayerReceived(r, layer);
          if allDone && wcs[i].fenceOk {
            Push(Trigger(r));
            fired := fired + [r];
          }
        }
      }
      assert wcs[..|wcs|] == wcs;
    }

    /** An exception from the tracker leaves before the state is set. */
    method HandlePrepareDecodeSlot(r: Id, prefill: Id, slot: int) returns (result: AddResult)
      requires Valid()
      modifies this`seen, tracker
      ensures State() == PrepareStep(old(State()), setup, r, prefill, slot)
      ensures result.Added?
        <==> setup.layout.HasSlot(slot) && !InUse(old(tracker.Contents()), slot) && setup.numLayers >= 0
      ensures result.Added? ==>
        var q := tracker.requests[r];
        && r in tracker.requests && tracker.requests - {r} == old(tracker.requests) - {r}
        && q.state == WAITING_FOR_KV && q.prefillNodeId == prefill && q.slotId == slot && r in seen
        && |q.layers| == setup.numLayers && forall i :: 0 <= i < setup.numLayers ==> !q.layers[i].received
      ensures !result.Added? ==> State() == old(State())
    {
      result := tracker.AddRequest(r, prefill, slot, setup.numLayers);
      if result.Added? {
        var _ := tracker.UpdateState(r, WAITING_FOR_KV);
        seen := seen + {r};
      }
    }

    /** A worker takes the next event; a trigger for an unknown request is dropped. */
    method BeginNext() returns (started: Option<Id>)
      modifies this`queue, this`decoding, tracker
      ensures State() == PopStep(old(State()))
      ensures started.Some? ==> started.value in decoding
      ensures old(queue) == [] ==> started == None && State() == old(State())
      ensures old(queue) != [] ==> queue == old(queue)[1..]
      ensures started.Some? <==> old(queue) != [] && old(queue)[0].Trigger? && old(queue)[0].r in old(tracker.requests)
      ensures started.None? ==> tracker.requests == old(tracker.requests) && decoding == old(decoding)
      ensures started.Some? ==>
        var r := started.value;
        && old(queue)[0] == Trigger(r) && decoding == old(decoding) + {r}
        && tracker.requests == old(tracker.requests)[r := old(tracker.requests)[r].(state := DECODING)]
    {
      started := None;
      if queue == [] { return; }
      var item := queue[0];
      queue := queue[1..];
      if item.Trigger? {
        var info := tracker.GetRequest(item.r);
        if info.None? { return; }
        var _ := tracker.UpdateState(item.r, DECODING);
        decoding := decoding + {item.r};
        started := Some(item.r);
      }
    }

    /** The decode call came back: a failed request is left tracked, a completed one is removed. */
    method FinishDecode(r: Id, ok: bool)
      requires r in decoding && r in tracker.requests
      modifies this`decoding, tracker
      ensures State() == var s := FinishStep(old(State()), r, ok); if ok then CleanupStep(s, r) else s
      ensures decoding == old(decoding) - {r} && tracker.requests - {r} == old(tracker.requests) - {r}
      ensures ok ==> r !in tracker.requests
      ensures ok && SlotsDiffer(old(tracker.Contents())) ==> !InUse(tracker.Contents(), old(tracker.requests)[r].slotId)
      ensures !ok ==> r in tracker.requests && tracker.requests[r] == old(tracker.requests)[r].(state := FAILED)
    {
      decoding := decoding - {r};
      if !ok {
        var _ := tracker.UpdateState(r, FAILED);
        return;
      }
      var _ := tracker.UpdateState(r, COMPLETED);
      tracker.RemoveRequest(r);
    }
  }
}
