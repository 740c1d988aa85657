/** Which field stands at which byte: every layout written out in the order sent, down to words and strings. */
module ByteLayout {
  import opened Basics
  import opened WireFormat
  import opened Messages
  import opened MessageWriter

  /** A word of n bytes has its most significant byte first, and byte i counts 256^(n - 1 - i). */
  lemma {:induction false} MostSignificantFirst(x: nat, n: nat, i: nat)
    requires i < n
    ensures ToBigEndian(x, n)[i] == x / Power256(n - 1 - i) % 256
  {
    if i < n - 1 {
      MostSignificantFirst(x / 256, n - 1, i);
      QuotientOfQuotient(x, Power256(n - 2 - i));
    }
  }

  lemma QuotientOfQuotient(x: nat, p: nat)
    requires p > 0
    ensures x / 256 / p == x / (256 * p)
  {
    var q, r := x / 256, x % 256;
    var t, u := q / p, q % p;
    assert q == p * t + u;
    assert x == t * (256 * p) + (256 * u + r);
    QuotientIs(t, 256 * p, 256 * u + r);
  }

  lemma QuotientIs(t: nat, n: nat, j: nat)
    requires j < n
    ensures (t * n + j) / n == t
  {
    var x := t * n + j;
    assert x == (x / n) * n + x % n;
    MulCancel(t, x / n + 1, n);
    MulCancel(x / n, t + 1, n);
  }

  /** A string is its length in four bytes, then its bytes. */
  function Prefixed(b: Bytes): Bytes {
    ToBigEndian(|b|, 4) + b
  }

  function Flattened(bs: seq<Bytes>): Bytes {
    if bs == [] then [] else bs[0] + Flattened(bs[1..])
  }

  // ---- Records of two to five fields ----

  lemma TwoFields(s: Schema, a: Value, b: Value)
    requires s.Record? && |s.fields| == 2
    ensures Encode(s, Parts([a, b])) == Encode(s.fields[0], a) + Encode(s.fields[1], b)
  {
    var xs := [a, b];
    assert EncodeParts(s, xs, 2) == [];
    assert EncodeParts(s, xs, 1) == Encode(s.fields[1], b);
  }

  lemma ThreeFields(s: Schema, a: Value, b: Value, c: Value)
    requires s.Record? && |s.fields| == 3
    ensures Encode(s, Parts([a, b, c])) == Encode(s.fields[0], a) + Encode(s.fields[1], b) + Encode(s.fields[2], c)
  {
    var xs := [a, b, c];
    assert EncodeParts(s, xs, 3) == [];
    assert EncodeParts(s, xs, 2) == Encode(s.fields[2], c);
    assert EncodeParts(s, xs, 1) == Encode(s.fields[1], b) + EncodeParts(s, xs, 2);
  }

  lemma FourFields(s: Schema, a: Value, b: Value, c: Value, d: Value)
    requires s.Record? && |s.fields| == 4
    ensures Encode(s, Parts([a, b, c, d]))
         == Encode(s.fields[0], a) + Encode(s.fields[1], b) + Encode(s.fields[2], c) + Encode(s.fields[3], d)
  {
    var xs := [a, b, c, d];
    assert EncodeParts(s, xs, 4) == [];
    assert EncodeParts(s, xs, 3) == Encode(s.fields[3], d);
    assert EncodeParts(s, xs, 2) == Encode(s.fields[2], c) + EncodeParts(s, xs, 3);
    assert EncodeParts(s, xs, 1) == Encode(s.fields[1], b) + EncodeParts(s, xs, 2);
  }

  lemma {:induction false} ElementsInOrder(e: Schema, xs: seq<Value>, bs: seq<Bytes>, i: nat)
    requires i <= |xs| == |bs| && forall j :: 0 <= j < |xs| ==> Encode(e, xs[j]) == bs[j]
    ensures EncodeParts(List(e), xs, i) == Flattened(bs[i..])
    decreases |xs| - i
  {
    if i < |xs| {
      ElementsInOrder(e, xs, bs, i + 1);
      assert bs[i..][1..] == bs[i + 1..];
    }
  }

  lemma CountedElements(e: Schema, xs: seq<Value>, bs: seq<Bytes>)
    requires |xs| == |bs| && forall j :: 0 <= j < |xs| ==> Encode(e, xs[j]) == bs[j]
    ensures Encode(List(e), Parts(xs)) == ToBigEndian(|bs|, 4) + Flattened(bs)
  {
    ElementsInOrder(e, xs, bs, 0);
    assert bs[0..] == bs;
  }

  // ---- Queue-pair entries and nodes ----

  lemma EndpointBytes(qpNum: uint32, lid: uint16, gid: Gid, psn: uint32)
    ensures Encode(ENDPOINT, EndpointValue(qpNum, lid, gid, psn))
         == ToBigEndian(qpNum, 4) + ToBigEndian(lid, 2) + gid + ToBigEndian(psn, 4)
  {
    FourFields(ENDPOINT, Num(qpNum), Num(lid), Text(gid), Num(psn));
  }

  /** A queue-pair entry: whose it is, its local side, its remote side, and where the peer's memory is. */
  lemma PeerLayout(q: PeerInfo)
    ensures PeerBytes(q)
         == Prefixed(q.peerNodeId)
            + (ToBigEndian(q.localQpNum, 4) + ToBigEndian(q.localLid, 2) + q.localGid + ToBigEndian(q.localPsn, 4))
            + (ToBigEndian(q.remoteQpNum, 4) + ToBigEndian(q.remoteLid, 2) + q.remoteGid + ToBigEndian(q.remotePsn, 4))
            + ToBigEndian(q.remoteRkey, 8) + ToBigEndian(q.remoteAddr, 8)
  {
    var near := EndpointValue(q.localQpNum, q.localLid, q.localGid, q.localPsn);
    var far := EndpointValue(q.remoteQpNum, q.remoteLid, q.remoteGid, q.remotePsn);
    FiveFields(PEER_INFO, Text(q.peerNodeId), near, far, Num(q.remoteRkey), Num(q.remoteAddr));
    EndpointBytes(q.localQpNum, q.localLid, q.localGid, q.localPsn);
    EndpointBytes(q.remoteQpNum, q.remoteLid, q.remoteGid, q.remotePsn);
  }

  lemma ServiceBytes(n: NodeInfo)
    ensures Encode(SERVICE, ServiceValue(n))
         == ToBigEndian(n.tcpPort, 2) + ToBigEndian(n.vllmPort, 2) + [if n.isHealthy then 1 else 0]
  {
    ThreeFields(SERVICE, Num(n.tcpPort), Num(n.vllmPort), Truth(n.isHealthy));
  }

  lemma IdentityBytes(n: NodeInfo)
    ensures Encode(IDENTITY, IdentityValue(n))
         == Prefixed(n.nodeId) + ToBigEndian(n.role, 1) + Prefixed(n.ipAddress)
            + (ToBigEndian(n.tcpPort, 2) + ToBigEndian(n.vllmPort, 2) + [if n.isHealthy then 1 else 0])
  {
    FourFields(IDENTITY, Text(n.nodeId), Num(n.role), Text(n.ipAddress), ServiceValue(n));
    ServiceBytes(n);
  }

  lemma GpuBytes(n: NodeInfo)
    ensures Encode(GPU, GpuValue(n))
         == ToBigEndian(n.gpuId % TWO_32, 4) + Prefixed(n.gpuName)
            + ToBigEndian(n.gpuNuma % TWO_32, 4) + ToBigEndian(n.gpuMemBytes, 8)
  {
    FourFields(GPU, Num(ToUnsigned(n.gpuId)), Text(n.gpuName), Num(ToUnsigned(n.gpuNuma)), Num(n.gpuMemBytes));
  }

  lemma HcaBytes(n: NodeInfo)
    ensures Encode(HCA, HcaValue(n))
         == Prefixed(n.ibDevName) + ToBigEndian(n.ibPort % TWO_32, 4)
            + ToBigEndian(n.ibNuma % TWO_32, 4) + ToBigEndian(n.ibSpeedGbps, 8)
  {
    FourFields(HCA, Text(n.ibDevName), Num(ToUnsigned(n.ibPort)), Num(ToUnsigned(n.ibNuma)), Num(n.ibSpeedGbps));
  }

  lemma RegionBytes(n: NodeInfo)
    ensures Encode(REGION, RegionValue(n))
         == ToBigEndian(n.gpuBaseAddr, 8) + ToBigEndian(n.lkey, 8) + ToBigEndian(n.rkey, 8)
            + ToBigEndian(n.memoryPoolSize, 8)
  {
    FourFields(REGION, Num(n.gpuBaseAddr), Num(n.lkey), Num(n.rkey), Num(n.memoryPoolSize));
  }

  function EachPeer(qs: seq<PeerInfo>): (bs: seq<Bytes>)
    ensures |bs| == |qs| && forall i :: 0 <= i < |qs| ==> bs[i] == PeerBytes(qs[i])
  {
    seq(|qs|, i requires 0 <= i < |qs| => PeerBytes(qs[i]))
  }

  lemma PeersBytes(qs: seq<PeerInfo>)
    ensures Encode(List(PEER_INFO), PeerValues(qs)) == ToBigEndian(|qs|, 4) + Flattened(EachPeer(qs))
  {
    CountedElements(PEER_INFO, PeerValues(qs).parts, EachPeer(qs));
  }

  /** A node: who and where it is, its GPU, its adapter, its registered memory, then its counted queue-pair entries. */
  lemma NodeLayout(n: NodeInfo)
    ensures NodeBytes(n)
         == (Prefixed(n.nodeId) + ToBigEndian(n.role, 1) + Prefixed(n.ipAddress)
             + (ToBigEndian(n.tcpPort, 2) + ToBigEndian(n.vllmPort, 2) + [if n.isHealthy then 1 else 0]))
            + (ToBigEndian(n.gpuId % TWO_32, 4) + Prefixed(n.gpuName)
               + ToBigEndian(n.gpuNuma % TWO_32, 4) + ToBigEndian(n.gpuMemBytes, 8))
            + (Prefixed(n.ibDevName) + ToBigEndian(n.ibPort % TWO_32, 4)
               + ToBigEndian(n.ibNuma % TWO_32, 4) + ToBigEndian(n.ibSpeedGbps, 8))
            + (ToBigEndian(n.gpuBaseAddr, 8) + ToBigEndian(n.lkey, 8) + ToBigEndian(n.rkey, 8)
               + ToBigEndian(n.memoryPoolSize, 8))
            + (ToBigEndian(|n.qmaps|, 4) + Flattened(EachPeer(n.qmaps)))
  {
    FiveFields(NODE_INFO, IdentityValue(n), GpuValue(n), HcaValue(n), RegionValue(n), PeerValues(n.qmaps));
    IdentityBytes(n);
    GpuBytes(n);
    HcaBytes(n);
    RegionBytes(n);
    PeersBytes(n.qmaps);
  }

  // ---- Requests and messages ----

  lemma RoutingBytes(r: RequestInfo)
    ensures Encode(ROUTING, RoutingValue(r))
         == Prefixed(r.requestId) + Prefixed(r.prompt) + ToBigEndian(r.maxTokens % TWO_32, 4)
            + Prefixed(r.prefillNodeId) + Prefixed(r.decodeNodeId)
  {
    FiveFields(ROUTING, Text(r.requestId), Text(r.prompt), Num(ToUnsigned(r.maxTokens)), Text(r.prefillNodeId),
      Text(r.decodeNodeId));
  }

  lemma SlotBytes(r: RequestInfo)
    ensures Encode(SLOT, SlotValue(r)) == ToBigEndian(r.slotId % TWO_32, 4) + ToBigEndian(r.slotBaseOffset, 8)
  {
    TwoFields(SLOT, Num(ToUnsigned(r.slotId)), Num(r.slotBaseOffset));
  }

  lemma TimesBytes(r: RequestInfo)
    ensures Encode(TIMES, TimesValue(r))
         == ToBigEndian(r.created, 8) + ToBigEndian(r.prefillStart, 8) + ToBigEndian(r.prefillDone, 8)
            + ToBigEndian(r.decodeStart, 8) + ToBigEndian(r.decodeDone, 8)
  {
    FiveFields(TIMES, Num(r.created), Num(r.prefillStart), Num(r.prefillDone), Num(r.decodeStart), Num(r.decodeDone));
  }

  /** A request: what is asked and of which nodes, its slot and offset, and its times. */
  lemma RequestLayout(r: RequestInfo)
    ensures RequestBytes(r)
         == (Prefixed(r.requestId) + Prefixed(r.prompt) + ToBigEndian(r.maxTokens % TWO_32, 4)
             + Prefixed(r.prefillNodeId) + Prefixed(r.decodeNodeId))
            + (ToBigEndian(r.slotId % TWO_32, 4) + ToBigEndian(r.slotBaseOffset, 8))
            + (ToBigEndian(r.created, 8) + ToBigEndian(r.prefillStart, 8) + ToBigEndian(r.prefillDone, 8)
               + ToBigEndian(r.decodeStart, 8) + ToBigEndian(r.decodeDone, 8))
  {
    ThreeFields(REQUEST_INFO, RoutingValue(r), SlotValue(r), TimesValue(r));
    RoutingBytes(r);
    SlotBytes(r);
    TimesBytes(r);
  }

  lemma HeaderBytes(m: Message)
    ensures Encode(HEADER, HeaderValue(m))
         == ToBigEndian(m.kind, 1) + ToBigEndian(m.status, 1) + ToBigEndian(m.transactionId, 8)
            + ToBigEndian(m.timestamp, 8) + Prefixed(m.sourceNodeId)
  {
    FiveFields(HEADER, Num(m.kind), Num(m.status), Num(m.transactionId), Num(m.timestamp), Text(m.sourceNodeId));
  }

  lemma TrailerBytes(m: Message)
    ensures Encode(TRAILER, TrailerValue(m))
         == Prefixed(m.errorMessage) + ToBigEndian(m.numLayers, 4) + ToBigEndian(m.numTokens, 4)
            + Prefixed(m.responseText)
  {
    FourFields(TRAILER, Text(m.errorMessage), Num(m.numLayers), Num(m.numTokens), Text(m.responseText));
  }

  function EachNode(ns: seq<NodeInfo>): (bs: seq<Bytes>)
    ensures |bs| == |ns| && forall i :: 0 <= i < |ns| ==> bs[i] == NodeBytes(ns[i])
  {
    seq(|ns|, i requires 0 <= i < |ns| => NodeBytes(ns[i]))
  }

  lemma MembersBytes(ns: seq<NodeInfo>)
    ensures Encode(List(NODE_INFO), NodeValues(ns)) == ToBigEndian(|ns|, 4) + Flattened(EachNode(ns))
  {
    CountedElements(NODE_INFO, NodeValues(ns).parts, EachNode(ns));
  }

  /** A message: type, status, transaction, time and source; its request; its node; its counted members; the rest. */
  lemma MessageLayout(m: Message)
    ensures Serialized(m)
         == (ToBigEndian(m.kind, 1) + ToBigEndian(m.status, 1) + ToBigEndian(m.transactionId, 8)
             + ToBigEndian(m.timestamp, 8) + Prefixed(m.sourceNodeId))
            + RequestBytes(m.request)
            + NodeBytes(m.node)
            + (ToBigEndian(|m.members|, 4) + Flattened(EachNode(m.members)))
            + (Prefixed(m.errorMessage) + ToBigEndian(m.numLayers, 4) + ToBigEndian(m.numTokens, 4)
               + Prefixed(m.responseText))
  {
    FiveFields(MESSAGE, HeaderValue(m), RequestValue(m.request), NodeValue(m.node), NodeValues(m.members),
      TrailerValue(m));
    HeaderBytes(m);
    MembersBytes(m.members);
    TrailerBytes(m);
  }
}
