/** Decode-node bookkeeping: which request holds a slot, which of its layers have arrived, and when decode may start. */
module LayerTracker {
  import opened Basics
  import opened Memory
  import opened Messages
  import opened Slots

  datatype State =
    | ASSIGNED | WAITING_FOR_PREFILL | WAITING_FOR_KV | RECEIVING_KV | READY_FOR_DECODE | DECODING | COMPLETED | FAILED

  datatype Layer = Layer(layerId: int, offset: uint64, size: uint64, received: bool)

  /** num_layers is the length of layers, which never changes. */
  datatype Request = Request(
    requestId: Id, prefillNodeId: Id, seqNum: uint16, slotId: int, baseOffset: uint64,
    layers: seq<Layer>, layersReceived: int, state: State)

  datatype Tracker = Tracker(
    requests: map<Id, Request>, requestToSeq: map<Id, uint16>, seqToRequest: map<uint16, Id>)

  const EMPTY := Tracker(map[], map[], map[])

  /** The three exceptions add_request can leave by; the last is the vector's refusal of a negative size. */
  datatype AddResult = Added(seqNum: uint16) | InvalidSlot | SlotInUse(holder: Id) | InvalidLayerCount

  // ---- Immediates, in host order ----

  /** (seq << 16) | layer */
  function EncodeLayerId(seqNum: uint16, layer: uint16): (imm: uint32)
    ensures imm / TWO_16 == seqNum && imm % TWO_16 == layer
  {
    seqNum * TWO_16 + layer
  }

  /** imm >> 16 and imm & 0xFFFF */
  function DecodeLayerId(imm: uint32): (uint16, uint16) {
    (imm / TWO_16, imm % TWO_16)
  }

  /** The connector's encoder: out-of-range arguments are cut to 16 bits. */
  function EncodeImmData(requestSeq: int, layer: int): (imm: uint32)
    ensures imm / TWO_16 == requestSeq % TWO_16 && imm % TWO_16 == layer % TWO_16
  {
    var s := if requestSeq < 0 || requestSeq > 0xFFFF then requestSeq % TWO_16 else requestSeq;
    var l := if layer < 0 || layer > 0xFFFF then layer % TWO_16 else layer;
    s * TWO_16 + l
  }

  lemma ShiftOrIsSum(s: bv32, l: bv32)
    requires s <= 0xFFFF && l <= 0xFFFF
    ensures (s << 16) | l == s * 0x1_0000 + l
    ensures ((s << 16) | l) >> 16 == s && ((s << 16) | l) & 0xFFFF == l
  {
  }

  // ---- One request ----

  function NewLayers(layout: MemoryLayout, slot: int, numLayers: nat): seq<Layer> {
    seq(numLayers, i => Layer(i, layout.LayerOffset(slot, i), layout.layerSizeBytes, false))
  }

  function NewRequest(layout: MemoryLayout, r: Id, prefill: Id, slot: nat, numLayers: nat): Request {
    Request(r, prefill, slot % TWO_16, slot, layout.SlotBaseOffset(slot),
            NewLayers(layout, slot, numLayers), 0, ASSIGNED)
  }

  /** A layer counts once; the first to count and the last move the state. */
  function Marked(q: Request, layer: int): (bool, Request) {
    if !(0 <= layer < |q.layers|) || q.layers[layer].received then (false, q) else
      var count := q.layersReceived + 1;
      var layers := q.layers[layer := q.layers[layer].(received := true)];
      (count == |q.layers|,
       q.(layers := layers, layersReceived := count,
          state := if count == |q.layers| then READY_FOR_DECODE else if count == 1 then RECEIVING_KV else q.state))
  }

  function Flagged(q: Request): set<int> {
    set i | 0 <= i < |q.layers| && q.layers[i].received
  }

  ghost predicate Counted(q: Request) {
    q.layersReceived == |Flagged(q)|
  }

  predicate AllFlagged(q: Request) {
    forall i :: 0 <= i < |q.layers| ==> q.layers[i].received
  }

  lemma FullIffAllFlagged(q: Request)
    requires Counted(q)
    ensures q.layersReceived <= |q.layers|
    ensures q.layersReceived == |q.layers| <==> AllFlagged(q)
  {
    var missing := set i | 0 <= i < |q.layers| && !q.layers[i].received;
    RangeSize(|q.layers|, Flagged(q) + missing);
    assert Flagged(q) !! missing;
    assert missing == {} <==> AllFlagged(q) by {
      assert forall i :: 0 <= i < |q.layers| ==> q.layers[i].received || i in missing;
    }
  }

  /** Whatever arrives, the count is the number of flags, a set flag stays, and the last missing one answers true. */
  lemma MarkedIsCounted(q: Request, layer: int)
    requires Counted(q)
    ensures var q' := Marked(q, layer).1; Counted(q') && |q'.layers| == |q.layers|
    ensures var q' := Marked(q, layer).1; Flagged(q') == Flagged(q) + if 0 <= layer < |q.layers| then {layer} else {}
    ensures var (answer, q') := Marked(q, layer); answer <==> !AllFlagged(q) && AllFlagged(q')
  {
    var q' := Marked(q, layer).1;
    assert Flagged(q') == Flagged(q) + if 0 <= layer < |q.layers| then {layer} else {};
    FullIffAllFlagged(q);
    FullIffAllFlagged(q');
  }

  // ---- Any sequence of arrivals: repeated, reordered, out of range ----

  function MarkedAll(q: Request, arrivals: seq<int>): (q': Request)
    ensures |q'.layers| == |q.layers|
  {
    if arrivals == [] then q else Marked(MarkedAll(q, arrivals[..|arrivals| - 1]), arrivals[|arrivals| - 1]).1
  }

  /** What mark_layer_received answers to the k-th arrival. */
  function Answer(q: Request, arrivals: seq<int>, k: nat): bool
    requires k < |arrivals|
  {
    Marked(MarkedAll(q, arrivals[..k]), arrivals[k]).0
  }

  ghost predicate Covers(arrivals: seq<int>, n: int) {
    forall l :: 0 <= l < n ==> l in arrivals
  }

  /** Over any arrivals, the flags set are the layers that arrived and the count is their number. */
  lemma {:induction false} FlagsAreArrivals(q: Request, arrivals: seq<int>)
    requires Counted(q) && Flagged(q) == {}
    ensures Counted(MarkedAll(q, arrivals))
    ensures forall l :: l in Flagged(MarkedAll(q, arrivals)) <==> 0 <= l < |q.layers| && l in arrivals
  {
    if arrivals == [] {
    } else {
      var start, last := arrivals[..|arrivals| - 1], arrivals[|arrivals| - 1];
      FlagsAreArrivals(q, start);
      MarkedIsCounted(MarkedAll(q, start), last);
      assert arrivals == start + [last];
    }
  }

  /** The answer is true exactly at the arrival that completes the set of layers. */
  lemma FiresWhenLastArrives(q: Request, arrivals: seq<int>, k: nat)
    requires Counted(q) && Flagged(q) == {} && k < |arrivals|
    ensures Answer(q, arrivals, k) <==> Covers(arrivals[..k + 1], |q.layers|) && !Covers(arrivals[..k], |q.layers|)
  {
    assert arrivals[..k + 1][..k] == arrivals[..k];
    MarkedIsCounted(MarkedAll(q, arrivals[..k]), arrivals[k]) by { FlagsAreArrivals(q, arrivals[..k]); }
    AllFlaggedIffCovered(q, arrivals[..k]);
    AllFlaggedIffCovered(q, arrivals[..k + 1]);
  }

  lemma AllFlaggedIffCovered(q: Request, arrivals: seq<int>)
    requires Counted(q) && Flagged(q) == {}
    ensures AllFlagged(MarkedAll(q, arrivals)) <==> Covers(arrivals, |q.layers|)
  {
    var q' := MarkedAll(q, arrivals);
    FlagsAreArrivals(q, arrivals);
    forall i | 0 <= i < |q'.layers| ensures q'.layers[i].received <==> i in arrivals {
      assert i in Flagged(q') <==> i in arrivals;
    }
  }

  lemma CoversMore(arrivals: seq<int>, n: int, j: nat, k: nat)
    requires j <= k <= |arrivals| && Covers(arrivals[..j], n)
    ensures Covers(arrivals[..k], n)
  {
    forall l | 0 <= l < n ensures l in arrivals[..k] {
      assert l in arrivals[..j];
      var i :| 0 <= i < j && arrivals[..j][i] == l;
      assert arrivals[..k][i] == l;
    }
  }

  /** It is true at most once. */
  lemma FiresAtMostOnce(q: Request, arrivals: seq<int>, j: nat, k: nat)
    requires Counted(q) && Flagged(q) == {} && j < |arrivals| && k < |arrivals|
    requires Answer(q, arrivals, j) && Answer(q, arrivals, k)
    ensures j == k
  {
    FiresWhenLastArrives(q, arrivals, j);
    FiresWhenLastArrives(q, arrivals, k);
    if j < k {
      CoversMore(arrivals, |q.layers|, j + 1, k);
    } else if k < j {
      CoversMore(arrivals, |q.layers|, k + 1, j);
    }
  }

  /** It is true for some arrival exactly when the arrivals cover all layers and there is a layer. */
  lemma FiresIffCovered(q: Request, arrivals: seq<int>)
    requires Counted(q) && Flagged(q) == {}
    ensures (exists k :: 0 <= k < |arrivals| && Answer(q, arrivals, k))
      <==> |q.layers| >= 1 && Covers(arrivals, |q.layers|)
  {
    var n := |q.layers|;
    assert arrivals[..|arrivals|] == arrivals;
    if k :| 0 <= k < |arrivals| && Answer(q, arrivals, k) {
      FiresWhenLastArrives(q, arrivals, k);
      CoversMore(arrivals, n, k + 1, |arrivals|);
    } else if n >= 1 && Covers(arrivals, n) {
      assert 0 in arrivals && |arrivals| > 0;
      var k := FirstCovering(arrivals, n, |arrivals|);
      FiresWhenLastArrives(q, arrivals, k);
      assert Answer(q, arrivals, k);
    }
  }

  lemma {:induction false} FirstCovering(arrivals: seq<int>, n: int, m: nat) returns (k: nat)
    requires n >= 1 && 0 < m <= |arrivals| && Covers(arrivals[..m], n)
    ensures k < m && Covers(arrivals[..k + 1], n) && !Covers(arrivals[..k], n)
  {
    if Covers(arrivals[..m - 1], n) {
      assert 0 in arrivals[..m - 1];
      k := FirstCovering(arrivals, n, m - 1);
    } else {
      k := m - 1;
    }
  }

  // ---- The three maps ----

  predicate InUse(t: Tracker, slot: int) {
    exists r :: r in t.requests && t.requests[r].slotId == slot
  }

  function Stored(t: Tracker, q: Request): Tracker {
    Tracker(t.requests[q.requestId := q], t.requestToSeq[q.requestId := q.seqNum],
            t.seqToRequest[q.seqNum := q.requestId])
  }

  /** An exception leaves the tracker as it was. */
  function AfterAdd(t: Tracker, layout: MemoryLayout, r: Id, prefill: Id, slot: int, numLayers: int): Tracker {
    if layout.HasSlot(slot) && !InUse(t, slot) && numLayers >= 0
    then Stored(t, NewRequest(layout, r, prefill, slot, numLayers))
    else t
  }

  function AfterUpdate(t: Tracker, r: Id, state: State): Tracker {
    if r in t.requests then t.(requests := t.requests[r := t.requests[r].(state := state)]) else t
  }

  function AfterMark(t: Tracker, r: Id, layer: int): (bool, Tracker) {
    if r !in t.requests then (false, t) else
      var (answer, q) := Marked(t.requests[r], layer);
      (answer, t.(requests := t.requests[r := q]))
  }

  function AfterRemove(t: Tracker, r: Id): Tracker {
    if r !in t.requests then t else
      Tracker(t.requests - {r}, t.requestToSeq - {r}, t.seqToRequest - {t.requests[r].seqNum})
  }

  /** An unknown sequence number resolves to the empty id. */
  function Resolved(t: Tracker, seqNum: uint16): Id {
    if seqNum in t.seqToRequest then t.seqToRequest[seqNum] else []
  }

  /** Requests, their sequence numbers and their slots correspond one to one, with sequence number equal to slot. */
  ghost predicate Bijective(t: Tracker) {
    && t.requestToSeq.Keys == t.requests.Keys
    && (forall r :: r in t.requests ==>
          && t.requests[r].requestId == r && t.requests[r].seqNum == t.requests[r].slotId == t.requestToSeq[r]
          && t.requests[r].seqNum in t.seqToRequest && t.seqToRequest[t.requests[r].seqNum] == r)
    && (forall s :: s in t.seqToRequest ==>
          t.seqToRequest[s] in t.requests && t.requests[t.seqToRequest[s]].seqNum == s)
  }

  ghost predicate AllCounted(t: Tracker) {
    forall r :: r in t.requests ==> Counted(t.requests[r])
  }

  lemma NewRequestIsCounted(layout: MemoryLayout, r: Id, prefill: Id, slot: nat, numLayers: nat)
    ensures Counted(NewRequest(layout, r, prefill, slot, numLayers))
    ensures Flagged(NewRequest(layout, r, prefill, slot, numLayers)) == {}
  {
    assert Flagged(NewRequest(layout, r, prefill, slot, numLayers)) == {};
  }

  /** An accepted request keeps the correspondence exactly when its id is new and its slot fits in 16 bits. */
  lemma AddKeepsBijectionIff(t: Tracker, layout: MemoryLayout, r: Id, prefill: Id, slot: nat, numLayers: nat)
    requires Bijective(t) && layout.HasSlot(slot) && !InUse(t, slot)
    ensures Bijective(AfterAdd(t, layout, r, prefill, slot, numLayers)) <==> r !in t.requests && slot < TWO_16
  {
    StoreKeepsBijectionIff(t, NewRequest(layout, r, prefill, slot, numLayers));
  }

  lemma StoreKeepsBijectionIff(t: Tracker, q: Request)
    requires Bijective(t) && !InUse(t, q.slotId) && q.slotId >= 0 && q.seqNum == q.slotId % TWO_16
    ensures Bijective(Stored(t, q)) <==> q.requestId !in t.requests && q.slotId < TWO_16
  {
    var r, t' := q.requestId, Stored(t, q);
    assert t'.requests[r] == q;
    if q.slotId < TWO_16 {
      if r in t.requests {
        var earlier := t.requests[r].seqNum;
        assert earlier != q.seqNum;
        assert earlier in t'.seqToRequest && t'.seqToRequest[earlier] == r;
      } else {
        assert q.seqNum !in t.seqToRequest;
      }
    }
  }

  /** With more slots than sequence numbers, two live requests can share one: the first is then unreachable. */
  lemma SlotsThatCollide(t: Tracker, layout: MemoryLayout, r: Id, q: Id, prefill: Id, slot: nat, other: nat,
    numLayers: nat)
    requires r != q && slot != other && slot % TWO_16 == other % TWO_16
    requires layout.HasSlot(slot) && layout.HasSlot(other) && !InUse(t, slot) && !InUse(t, other)
    ensures var t1 := AfterAdd(t, layout, r, prefill, slot, numLayers);
      var t2 := AfterAdd(t1, layout, q, prefill, other, numLayers);
      r in t2.requests && q in t2.requests && Resolved(t2, t2.requests[r].seqNum) == q
  {
    var t1 := AfterAdd(t, layout, r, prefill, slot, numLayers);
    assert !InUse(t1, other) by {
      forall x | x in t1.requests ensures t1.requests[x].slotId != other {
        if x != r { assert x in t.requests; }
      }
    }
  }

  lemma RemoveKeepsBijection(t: Tracker, r: Id)
    requires Bijective(t)
    ensures Bijective(AfterRemove(t, r)) && r !in AfterRemove(t, r).requests
  {
  }

  lemma ReplaceKeepsBijection(t: Tracker, r: Id, q: Request)
    requires Bijective(t) && r in t.requests
    requires q.requestId == r && q.seqNum == t.requests[r].seqNum && q.slotId == t.requests[r].slotId
    ensures Bijective(t.(requests := t.requests[r := q]))
  {
  }

  lemma UpdateKeepsBijection(t: Tracker, r: Id, state: State)
    requires Bijective(t) && AllCounted(t)
    ensures Bijective(AfterUpdate(t, r, state)) && AllCounted(AfterUpdate(t, r, state))
  {
    if r in t.requests {
      assert Flagged(t.requests[r].(state := state)) == Flagged(t.requests[r]);
      ReplaceKeepsBijection(t, r, t.requests[r].(state := state));
    }
  }

  lemma MarkKeepsBijection(t: Tracker, r: Id, layer: int)
    requires Bijective(t) && AllCounted(t)
    ensures Bijective(AfterMark(t, r, layer).1) && AllCounted(AfterMark(t, r, layer).1)
  {
    if r in t.requests {
      MarkedIsCounted(t.requests[r], layer);
      ReplaceKeepsBijection(t, r, Marked(t.requests[r], layer).1);
    }
  }

  /** What a prefill node sends for a slot and layer comes back as the request in that slot and that layer. */
  lemma ImmediateResolves(t: Tracker, r: Id, layer: int)
    requires Bijective(t) && r in t.requests && 0 <= layer < TWO_16
    ensures var imm := EncodeImmData(t.requests[r].slotId, layer);
      imm == EncodeLayerId(t.requests[r].seqNum, layer)
      && DecodeLayerId(imm) == (t.requests[r].seqNum, layer)
      && Resolved(t, DecodeLayerId(imm).0) == r
  {
  }

  /** And the immediate alone determines sequence number and layer. */
  lemma DecodeInvertsEncode(imm: uint32)
    ensures var (s, l) := DecodeLayerId(imm); EncodeLayerId(s, l) == imm
  {
  }

  // ---- Every reachable tracker ----

  datatype Op =
    | Add(r: Id, prefill: Id, slot: int, numLayers: int)
    | Update(r: Id, state: State)
    | Mark(r: Id, layer: int)
    | Remove(r: Id)

  function Apply(t: Tracker, layout: MemoryLayout, op: Op): Tracker {
    match op
    case Add(r, prefill, slot, numLayers) => AfterAdd(t, layout, r, prefill, slot, numLayers)
    case Update(r, state) => AfterUpdate(t, r, state)
    case Mark(r, layer) => AfterMark(t, r, layer).1
    case Remove(r) => AfterRemove(t, r)
  }

  function Run(layout: MemoryLayout, ops: seq<Op>): Tracker {
    if ops == [] then EMPTY else Apply(Run(layout, ops[..|ops| - 1]), layout, ops[|ops| - 1])
  }

  /** No request is added under the id of one still tracked. */
  ghost predicate FreshIds(layout: MemoryLayout, ops: seq<Op>)
    decreases |ops|
  {
    ops == [] ||
    (var before, last := ops[..|ops| - 1], ops[|ops| - 1];
     FreshIds(layout, before) && (last.Add? ==> last.r !in Run(layout, before).requests))
  }

  lemma {:induction false} BijectiveOnEveryRun(layout: MemoryLayout, ops: seq<Op>)
    requires FreshIds(layout, ops) && layout.maxConcurrentRequests <= TWO_16
    ensures Bijective(Run(layout, ops)) && AllCounted(Run(layout, ops))
    decreases |ops|
  {
    if ops == [] {
    } else {
      var t := Run(layout, ops[..|ops| - 1]);
      BijectiveOnEveryRun(layout, ops[..|ops| - 1]);
      match ops[|ops| - 1] {
        case Add(r, prefill, slot, numLayers) =>
          if layout.HasSlot(slot) && !InUse(t, slot) && numLayers >= 0 {
            AddKeepsBijectionIff(t, layout, r, prefill, slot, numLayers);
            NewRequestIsCounted(layout, r, prefill, slot, numLayers);
          }
        case Update(r, state) => UpdateKeepsBijection(t, r, state);
        case Mark(r, layer) => MarkKeepsBijection(t, r, layer);
        case Remove(r) => RemoveKeepsBijection(t, r);
      }
    }
  }

  // ---- The bytes of live requests ----

  /** A request's recorded offsets are those of the layout for its slot. */
  ghost predicate Placed(q: Request, layout: MemoryLayout) {
    && layout.HasSlot(q.slotId) && q.baseOffset == layout.SlotBaseOffset(q.slotId)
    && forall i :: 0 <= i < |q.layers| ==> q.layers[i].offset == layout.LayerOffset(q.slotId, i)
  }

  /** A request tracks n layers, entry i for layer i, each of the layout's layer size and where the layout puts it. */
  ghost predicate LaidOut(q: Request, layout: MemoryLayout, n: int) {
    |q.layers| == n && Placed(q, layout)
    && forall i :: 0 <= i < n ==> q.layers[i].layerId == i && q.layers[i].size == layout.layerSizeBytes
  }

  lemma {:induction false} PlacedOnEveryRun(layout: MemoryLayout, ops: seq<Op>, r: Id)
    requires r in Run(layout, ops).requests
    ensures Placed(Run(layout, ops).requests[r], layout)
    decreases |ops|
  {
    var t, last := Run(layout, ops[..|ops| - 1]), ops[|ops| - 1];
    if r in t.requests {
      PlacedOnEveryRun(layout, ops[..|ops| - 1], r);
    }
    match last {
      case Add(_, _, _, _) =>
      case Update(_, _) =>
      case Mark(x, layer) => if x == r { assert r in t.requests; }
      case Remove(_) =>
    }
  }

  ghost predicate LiveLayer(t: Tracker, layout: MemoryLayout, r: Id, i: int) {
    r in t.requests && 0 <= i < |t.requests[r].layers| <= layout.numLayers
  }

  ghost predicate SlotsDiffer(t: Tracker) {
    forall r, q :: r in t.requests && q in t.requests && t.requests[r].slotId == t.requests[q].slotId ==> r == q
  }

  /** No two live requests are in one slot: a slot in use is refused, whatever the ids and however many the slots. */
  lemma {:induction false} SlotsDifferOnEveryRun(layout: MemoryLayout, ops: seq<Op>)
    ensures SlotsDiffer(Run(layout, ops))
    decreases |ops|
  {
    if ops == [] {
    } else {
      var t := Run(layout, ops[..|ops| - 1]);
      SlotsDifferOnEveryRun(layout, ops[..|ops| - 1]);
      match ops[|ops| - 1] {
        case Add(_, _, _, _) =>
        case Update(_, _) =>
        case Mark(r, layer) =>
          if r in t.requests { assert Marked(t.requests[r], layer).1.slotId == t.requests[r].slotId; }
        case Remove(_) =>
      }
    }
  }

  /** On every run two requests live at once share no byte: neither their layers nor anything between them. */
  lemma LiveRequestsApart(layout: MemoryLayout, ops: seq<Op>, r: Id, q: Id, i: int, j: int)
    requires FitsBuffer(layout)
    requires r != q && LiveLayer(Run(layout, ops), layout, r, i) && LiveLayer(Run(layout, ops), layout, q, j)
    ensures var live := Run(layout, ops).requests;
      Apart(live[r].layers[i].offset, live[q].layers[j].offset, layout.layerSizeBytes)
      && live[r].layers[i].offset + layout.layerSizeBytes <= layout.bufferSizeBytes
      && Apart(live[r].baseOffset, live[q].baseOffset, layout.numLayers * layout.layerSizeBytes)
  {
    var live := Run(layout, ops).requests;
    SlotsDifferOnEveryRun(layout, ops);
    PlacedOnEveryRun(layout, ops, r);
    PlacedOnEveryRun(layout, ops, q);
    RangesAreDisjoint(layout, live[r].slotId, i, live[q].slotId, j);
    SlotsAreDisjoint(layout, live[r].slotId, live[q].slotId);
    OffsetsDoNotWrap(layout, live[r].slotId, i);
  }

  /** So a node that passed its startup check isolates its live requests, if its required size did not wrap. */
  lemma CheckedNodeKeepsRequestsApart(c: NodeConfig, ops: seq<Op>, r: Id, q: Id, i: int, j: int)
    requires c.StartupCheck() && NeededMb(c) < TWO_64
    requires c.layerSizeMb * MIB < TWO_64 && c.kvBufferMb * MIB < TWO_64
    requires r != q
    requires LiveLayer(Run(c.Layout(), ops), c.Layout(), r, i) && LiveLayer(Run(c.Layout(), ops), c.Layout(), q, j)
    ensures var (layout, live) := (c.Layout(), Run(c.Layout(), ops).requests);
      Apart(live[r].layers[i].offset, live[q].layers[j].offset, layout.layerSizeBytes)
      && live[r].layers[i].offset + layout.layerSizeBytes <= layout.bufferSizeBytes
      && Apart(live[r].baseOffset, live[q].baseOffset, layout.numLayers * layout.layerSizeBytes)
  {
    PlacedOnEveryRun(c.Layout(), ops, r);
    CheckedLayoutFits(c);
    LiveRequestsApart(c.Layout(), ops, r, q, i, j);
  }
}
