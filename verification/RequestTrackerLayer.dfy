/** The tracker as the decode node runs it: three maps updated in place. */
module TrackerClass {
  import opened Basics
  import opened LayerTracker
  import opened Memory
  import opened Messages

  class RequestTrackerLayer {
    const layout: MemoryLayout
    var requests: map<Id, Request>
    var requestToSeq: map<Id, uint16>
    var seqToRequest: map<uint16, Id>

    constructor (layout: MemoryLayout)
      ensures this.layout == layout && Contents() == EMPTY
    {
      this.layout := layout;
      requests, requestToSeq, seqToRequest := map[], map[], map[];
    }

    function Contents(): Tracker
      reads this
    {
      Tracker(requests, requestToSeq, seqToRequest)
    }

    /** Refuses a slot outside the layout, then one in use, then a negative layer count; nothing is stored then. */
    method AddRequest(r: Id, prefill: Id, slot: int, numLayers: int) returns (result: AddResult)
      modifies this
      ensures Contents() == AfterAdd(old(Contents()), layout, r, prefill, slot, numLayers)
      ensures result.InvalidSlot? <==> !layout.HasSlot(slot)
      ensures result.SlotInUse? <==> layout.HasSlot(slot) && InUse(old(Contents()), slot)
      ensures result.SlotInUse? ==> result.holder in requests && requests[result.holder].slotId == slot
      ensures result.InvalidLayerCount? <==> layout.HasSlot(slot) && !InUse(old(Contents()), slot) && numLayers < 0
      ensures result.Added? ==> result.seqNum == slot % TWO_16
      ensures result.Added? ==>
        var q := requests[r];
        && r in requests && requests - {r} == old(requests) - {r}
        && q.requestId == r && q.prefillNodeId == prefill && q.slotId == slot && q.seqNum == slot % TWO_16
        && q.baseOffset == layout.SlotBaseOffset(slot) && q.layersReceived == 0 && q.state == ASSIGNED
        && |q.layers| == numLayers && forall i :: 0 <= i < numLayers ==>
          q.layers[i] == Layer(i, layout.LayerOffset(slot, i), layout.layerSizeBytes, false)
      ensures result.Added? ==> requestToSeq == old(requestToSeq)[r := slot % TWO_16]
      ensures result.Added? ==> seqToRequest == old(seqToRequest)[slot % TWO_16 := r]
      ensures !result.Added? ==> Contents() == old(Contents())
    {
      if slot < 0 || slot >= layout.maxConcurrentRequests {
        return InvalidSlot;
      }
      var rest := requests.Keys;
      while rest != {}
        invariant rest <= requests.Keys && Contents() == old(Contents())
        invariant forall id :: id in requests.Keys - rest ==> requests[id].slotId != slot
      {
        var id :| id in rest;
        if requests[id].slotId == slot {
          return SlotInUse(id);
        }
        rest := rest - {id};
      }
      assert !InUse(Contents(), slot);
      if numLayers < 0 {
        return InvalidLayerCount;
      }
      var layers := [];
      for i := 0 to numLayers
        invariant Contents() == old(Contents())
        invariant |layers| == i && layers == NewLayers(layout, slot, numLayers)[..i]
      {
        layers := layers + [Layer(i, layout.LayerOffset(slot, i), layout.layerSizeBytes, false)];
      }
      assert layers == NewLayers(layout, slot, numLayers);
      var seqNum := slot % TWO_16;
      var info := Request(r, prefill, seqNum, slot, layout.SlotBaseOffset(slot), layers, 0, ASSIGNED);
      assert info == NewRequest(layout, r, prefill, slot, numLayers);
      requests := requests[r := info];
      requestToSeq := requestToSeq[r := seqNum];
      seqToRequest := seqToRequest[seqNum := r];
      result := Added(seqNum);
    }

    method UpdateState(r: Id, state: State) returns (known: bool)
      modifies this`requests
      ensures Contents() == AfterUpdate(old(Contents()), r, state)
      ensures known <==> r in old(requests)
      ensures requests == if known then old(requests)[r := old(requests)[r].(state := state)] else old(requests)
    {
      if r !in requests { return false; }
      requests := requests[r := requests[r].(state := state)];
      known := true;
    }

    method MarkLayerReceived(r: Id, layer: int) returns (allReceived: bool)
      modifies this`requests
      ensures (allReceived, Contents()) == AfterMark(old(Contents()), r, layer)
      ensures requests.Keys == old(requests).Keys && requests - {r} == old(requests) - {r}
      ensures r in requests ==>
        var (was, now) := (old(requests)[r], requests[r]);
        if 0 <= layer < |was.layers| && !was.layers[layer].received then
          && now.layers == was.layers[layer := was.layers[layer].(received := true)]
          && now == was.(layers := now.layers, layersReceived := was.layersReceived + 1, state := now.state)
          && (allReceived <==> now.layersReceived == |now.layers|)
          && now.state == (if allReceived then READY_FOR_DECODE
                          else if was.layersReceived == 0 then RECEIVING_KV else was.state)
        else now == was && !allReceived
    {
      if r !in requests { return false; }
      var info := requests[r];
      if layer < 0 || layer >= |info.layers| {
        assert requests[r := info] == requests;
        return false;
      }
      if info.layers[layer].received {
        assert requests[r := info] == requests;
        return false;
      }
      info := info.(layers := info.layers[layer := info.layers[layer].(received := true)]);
      info := info.(layersReceived := info.layersReceived + 1);
      if info.layersReceived == 1 {
        info := info.(state := RECEIVING_KV);
      }
      allReceived := info.layersReceived == |info.layers|;
      if allReceived {
        info := info.(state := READY_FOR_DECODE);
      }
      requests := requests[r := info];
    }

    method RemoveRequest(r: Id)
      modifies this
      ensures Contents() == AfterRemove(old(Contents()), r)
      ensures requests == old(requests) - {r}
      ensures r in old(requests) ==> requestToSeq == old(requestToSeq) - {r}
      ensures r in old(requests) ==> seqToRequest == old(seqToRequest) - {old(requests)[r].seqNum}
    {
      if r !in requests { return; }
      var seqNum := requests[r].seqNum;
      requests := requests - {r};
      requestToSeq := requestToSeq - {r};
      seqToRequest := seqToRequest - {seqNum};
    }

    method ResolveSeqNum(seqNum: uint16) returns (r: Id)
      ensures r == Resolved(Contents(), seqNum)
      ensures if seqNum in seqToRequest then r == seqToRequest[seqNum] else r == []
    {
      r := if seqNum in seqToRequest then seqToRequest[seqNum] else [];
    }

    method GetRequest(r: Id) returns (info: Option<Request>)
      ensures info == if r in requests then Some(requests[r]) else None
    {
      info := if r in requests then Some(requests[r]) else None;
    }
  }
}
