/** The control-plane messages and their wire layout, field by field in the order sent. */
module Messages {
  import opened Basics
  import opened WireFormat

  type Id = Bytes
  type Gid = b: Bytes | |b| == 16 witness seq(16, _ => 0)

  // Enumerators travel as one byte and a decoded byte is not range-checked, so they are bytes here.
  const PREFILL: byte := 1
  const DECODE: byte := 2

  datatype PeerInfo = PeerInfo(
    peerNodeId: Id,
    localQpNum: uint32, localLid: uint16, localGid: Gid, localPsn: uint32,
    remoteQpNum: uint32, remoteLid: uint16, remoteGid: Gid, remotePsn: uint32,
    remoteRkey: uint64, remoteAddr: uint64)

  datatype NodeInfo = NodeInfo(
    nodeId: Id, role: byte, ipAddress: Bytes, tcpPort: uint16, vllmPort: uint16, isHealthy: bool,
    gpuId: int32, gpuName: Bytes, gpuNuma: int32, gpuMemBytes: uint64,
    ibDevName: Bytes, ibPort: int32, ibNuma: int32, ibSpeedGbps: uint64,
    gpuBaseAddr: uint64, lkey: uint64, rkey: uint64, memoryPoolSize: uint64,
    qmaps: seq<PeerInfo>)

  datatype RequestInfo = RequestInfo(
    requestId: Id, prompt: Bytes, maxTokens: int32, prefillNodeId: Id, decodeNodeId: Id,
    slotId: int32, slotBaseOffset: uint64,
    created: uint64, prefillStart: uint64, prefillDone: uint64, decodeStart: uint64, decodeDone: uint64)

  datatype Message = Message(
    kind: byte, status: byte, transactionId: uint64, timestamp: uint64, sourceNodeId: Id,
    request: RequestInfo, node: NodeInfo, members: seq<NodeInfo>,
    errorMessage: Bytes, numLayers: uint32, numTokens: uint32, responseText: Bytes)

  // ---- Layout ----

  const U8 := UInt(1)
  const U16 := UInt(2)
  const U32 := UInt(4)
  const U64 := UInt(8)

  // Runs of related fields are records of their own: nesting adds no bytes.

  const ENDPOINT := Record([U32, U16, Raw(16), U32])            // QP number, LID, GID, PSN
  const PEER_INFO := Record([Str, ENDPOINT, ENDPOINT, U64, U64])

  const SERVICE := Record([U16, U16, Flag])                     // two ports, health
  const IDENTITY := Record([Str, U8, Str, SERVICE])             // id, role, address
  const GPU := Record([U32, Str, U32, U64])                     // device, name, NUMA node, memory
  const HCA := Record([Str, U32, U32, U64])                     // device, port, NUMA node, speed
  const REGION := Record([U64, U64, U64, U64])                  // base address, lkey, rkey, size
  const NODE_INFO := Record([IDENTITY, GPU, HCA, REGION, List(PEER_INFO)])

  const ROUTING := Record([Str, Str, U32, Str, Str])            // id, prompt, token limit, two nodes
  const SLOT := Record([U32, U64])                              // slot, base offset
  const TIMES := Record([U64, U64, U64, U64, U64])
  const REQUEST_INFO := Record([ROUTING, SLOT, TIMES])

  const HEADER := Record([U8, U8, U64, U64, Str])               // type, status, transaction, time, source
  const TRAILER := Record([Str, U32, U32, Str])                 // error, layers, tokens, response
  const MESSAGE := Record([HEADER, REQUEST_INFO, NODE_INFO, List(NODE_INFO), TRAILER])

  function EndpointValue(qpNum: uint32, lid: uint16, gid: Gid, psn: uint32): Value {
    Parts([Num(qpNum), Num(lid), Text(gid), Num(psn)])
  }

  function PeerValue(q: PeerInfo): Value {
    Parts([Text(q.peerNodeId),
      EndpointValue(q.localQpNum, q.localLid, q.localGid, q.localPsn),
      EndpointValue(q.remoteQpNum, q.remoteLid, q.remoteGid, q.remotePsn),
      Num(q.remoteRkey), Num(q.remoteAddr)])
  }

  function PeerValues(qs: seq<PeerInfo>): Value {
    Parts(seq(|qs|, i requires 0 <= i < |qs| => PeerValue(qs[i])))
  }

  function ServiceValue(n: NodeInfo): Value {
    Parts([Num(n.tcpPort), Num(n.vllmPort), Truth(n.isHealthy)])
  }

  function IdentityValue(n: NodeInfo): Value {
    Parts([Text(n.nodeId), Num(n.role), Text(n.ipAddress), ServiceValue(n)])
  }

  function GpuValue(n: NodeInfo): Value {
    Parts([Num(ToUnsigned(n.gpuId)), Text(n.gpuName), Num(ToUnsigned(n.gpuNuma)), Num(n.gpuMemBytes)])
  }

  function HcaValue(n: NodeInfo): Value {
    Parts([Text(n.ibDevName), Num(ToUnsigned(n.ibPort)), Num(ToUnsigned(n.ibNuma)), Num(n.ibSpeedGbps)])
  }

  function RegionValue(n: NodeInfo): Value {
    Parts([Num(n.gpuBaseAddr), Num(n.lkey), Num(n.rkey), Num(n.memoryPoolSize)])
  }

  function NodeValue(n: NodeInfo): Value {
    Parts([IdentityValue(n), GpuValue(n), HcaValue(n), RegionValue(n), PeerValues(n.qmaps)])
  }

  function NodeValues(ns: seq<NodeInfo>): Value {
    Parts(seq(|ns|, i requires 0 <= i < |ns| => NodeValue(ns[i])))
  }

  function RoutingValue(r: RequestInfo): Value {
    Parts([Text(r.requestId), Text(r.prompt), Num(ToUnsigned(r.maxTokens)),
      Text(r.prefillNodeId), Text(r.decodeNodeId)])
  }

  function SlotValue(r: RequestInfo): Value {
    Parts([Num(ToUnsigned(r.slotId)), Num(r.slotBaseOffset)])
  }

  function TimesValue(r: RequestInfo): Value {
    Parts([Num(r.created), Num(r.prefillStart), Num(r.prefillDone), Num(r.decodeStart), Num(r.decodeDone)])
  }

  function RequestValue(r: RequestInfo): Value {
    Parts([RoutingValue(r), SlotValue(r), TimesValue(r)])
  }

  function HeaderValue(m: Message): Value {
    Parts([Num(m.kind), Num(m.status), Num(m.transactionId), Num(m.timestamp), Text(m.sourceNodeId)])
  }

  function TrailerValue(m: Message): Value {
    Parts([Text(m.errorMessage), Num(m.numLayers), Num(m.numTokens), Text(m.responseText)])
  }

  function MessageValue(m: Message): Value {
    Parts([HeaderValue(m), RequestValue(m.request), NodeValue(m.node), NodeValues(m.members), TrailerValue(m)])
  }

  // ---- Back from values ----

  lemma WordWidths()
    ensures Power256(1) == 256 && Power256(2) == TWO_16 && Power256(4) == TWO_32 && Power256(8) == TWO_64
  {
    assert Power256(1) == 256;
    assert Power256(2) == 256 * Power256(1);
    FourBytesAreAWord();
    EightBytesAreALongWord();
  }

  lemma EndpointIsShaped(qpNum: uint32, lid: uint16, gid: Gid, psn: uint32)
    ensures Shaped(ENDPOINT, EndpointValue(qpNum, lid, gid, psn))
  {
    WordWidths();
  }

  lemma PeerValueIsShaped(q: PeerInfo)
    ensures Shaped(PEER_INFO, PeerValue(q))
  {
    WordWidths();
    EndpointIsShaped(q.localQpNum, q.localLid, q.localGid, q.localPsn);
    EndpointIsShaped(q.remoteQpNum, q.remoteLid, q.remoteGid, q.remotePsn);
  }

  lemma NodeValueIsShaped(n: NodeInfo)
    ensures Shaped(NODE_INFO, NodeValue(n))
  {
    WordWidths();
    assert Shaped(SERVICE, ServiceValue(n));
    assert Shaped(IDENTITY, IdentityValue(n));
    assert Shaped(GPU, GpuValue(n));
    assert Shaped(HCA, HcaValue(n));
    assert Shaped(REGION, RegionValue(n));
    forall q { PeerValueIsShaped(q); }
  }

  lemma RequestValueIsShaped(r: RequestInfo)
    ensures Shaped(REQUEST_INFO, RequestValue(r))
  {
    WordWidths();
    assert Shaped(ROUTING, RoutingValue(r));
    assert Shaped(SLOT, SlotValue(r));
    assert Shaped(TIMES, TimesValue(r));
  }

  lemma MessageValueIsShaped(m: Message)
    ensures Shaped(MESSAGE, MessageValue(m))
  {
    WordWidths();
    assert Shaped(HEADER, HeaderValue(m));
    assert Shaped(TRAILER, TrailerValue(m));
    RequestValueIsShaped(m.request);
    forall n { NodeValueIsShaped(n); }
  }

  /** The parts of a shaped record, each of its own shape. */
  lemma PartsShaped(s: Schema, v: Value)
    requires s.Record? && Shaped(s, v)
    ensures v.Parts? && |v.parts| == |s.fields|
    ensures forall i :: 0 <= i < |s.fields| ==> Shaped(s.fields[i], v.parts[i])
  {
    forall i | 0 <= i < |s.fields| ensures Shaped(s.fields[i], v.parts[i]) {
      assert Shaped(PartOf(s, i), v.parts[i]);
    }
  }

  function PeerOf(v: Value): (q: PeerInfo)
    requires Shaped(PEER_INFO, v)
    ensures PeerValue(q) == v
  {
    WordWidths();
    PartsShaped(PEER_INFO, v);
    var p := v.parts;
    PartsShaped(ENDPOINT, p[1]);
    PartsShaped(ENDPOINT, p[2]);
    var l, r := p[1].parts, p[2].parts;
    var q := PeerInfo(p[0].bytes, l[0].n, l[1].n, l[2].bytes, l[3].n,
                      r[0].n, r[1].n, r[2].bytes, r[3].n, p[3].n, p[4].n);
    assert PeerValue(q).parts[1].parts == l && PeerValue(q).parts[2].parts == r;
    assert PeerValue(q).parts == p;
    q
  }

  function PeersOf(v: Value): (qs: seq<PeerInfo>)
    requires Shaped(List(PEER_INFO), v)
    ensures PeerValues(qs) == v
  {
    var qs := seq(|v.parts|, i requires 0 <= i < |v.parts| => PeerOf(v.parts[i]));
    assert PeerValues(qs).parts == v.parts;
    qs
  }

  lemma FiveParts(s: Schema, v: Value)
    requires s.Record? && |s.fields| == 5 && Shaped(s, v)
    ensures v.Parts? && |v.parts| == 5
    ensures Shaped(s.fields[0], v.parts[0]) && Shaped(s.fields[1], v.parts[1]) && Shaped(s.fields[2], v.parts[2])
    ensures Shaped(s.fields[3], v.parts[3]) && Shaped(s.fields[4], v.parts[4])
    ensures v == Parts([v.parts[0], v.parts[1], v.parts[2], v.parts[3], v.parts[4]])
  {
    PartsShaped(s, v);
  }

  predicate IsWord(v: Value, bound: nat) {
    v.Num? && v.n < bound
  }

  lemma IdentityParts(v: Value)
    requires Shaped(IDENTITY, v)
    ensures v.Parts? && |v.parts| == 4
    ensures v.parts[0].Text? && IsWord(v.parts[1], 0x100) && v.parts[2].Text?
    ensures var w := v.parts[3];
      w.Parts? && |w.parts| == 3 && IsWord(w.parts[0], TWO_16) && IsWord(w.parts[1], TWO_16) && w.parts[2].Truth?
  {
    WordWidths();
    PartsShaped(IDENTITY, v);
    PartsShaped(SERVICE, v.parts[3]);
  }

  lemma GpuParts(v: Value)
    requires Shaped(GPU, v)
    ensures v.Parts? && |v.parts| == 4
    ensures IsWord(v.parts[0], TWO_32) && v.parts[1].Text? && IsWord(v.parts[2], TWO_32) && IsWord(v.parts[3], TWO_64)
  {
    WordWidths();
    PartsShaped(GPU, v);
  }

  lemma HcaParts(v: Value)
    requires Shaped(HCA, v)
    ensures v.Parts? && |v.parts| == 4
    ensures v.parts[0].Text? && IsWord(v.parts[1], TWO_32) && IsWord(v.parts[2], TWO_32) && IsWord(v.parts[3], TWO_64)
  {
    WordWidths();
    PartsShaped(HCA, v);
  }

  lemma RegionParts(v: Value)
    requires Shaped(REGION, v)
    ensures v.Parts? && |v.parts| == 4
    ensures forall i :: 0 <= i < 4 ==> IsWord(v.parts[i], TWO_64)
  {
    WordWidths();
    PartsShaped(REGION, v);
  }

  lemma HeaderParts(v: Value)
    requires Shaped(HEADER, v)
    ensures v.Parts? && |v.parts| == 5
    ensures IsWord(v.parts[0], 0x100) && IsWord(v.parts[1], 0x100)
    ensures IsWord(v.parts[2], TWO_64) && IsWord(v.parts[3], TWO_64) && v.parts[4].Text?
  {
    WordWidths();
    PartsShaped(HEADER, v);
  }

  lemma TrailerParts(v: Value)
    requires Shaped(TRAILER, v)
    ensures v.Parts? && |v.parts| == 4
    ensures v.parts[0].Text? && IsWord(v.parts[1], TWO_32) && IsWord(v.parts[2], TWO_32) && v.parts[3].Text?
  {
    WordWidths();
    PartsShaped(TRAILER, v);
  }

  /** A node with the given runs of fields. */
  function AssembleNode(identity: Value, gpu: Value, hca: Value, region: Value, qmaps: seq<PeerInfo>): (n: NodeInfo)
    requires Shaped(IDENTITY, identity) && Shaped(GPU, gpu) && Shaped(HCA, hca) && Shaped(REGION, region)
    ensures IdentityValue(n) == identity && GpuValue(n) == gpu && HcaValue(n) == hca && RegionValue(n) == region
    ensures n.qmaps == qmaps
  {
    IdentityParts(identity); GpuParts(gpu); HcaParts(hca); RegionParts(region);
    var i, g, h, r := identity.parts, gpu.parts, hca.parts, region.parts;
    var w := i[3].parts;
    var n := NodeInfo(i[0].bytes, i[1].n, i[2].bytes, w[0].n, w[1].n, w[2].b,
                      ToSigned(g[0].n), g[1].bytes, ToSigned(g[2].n), g[3].n,
                      h[0].bytes, ToSigned(h[1].n), ToSigned(h[2].n), h[3].n,
                      r[0].n, r[1].n, r[2].n, r[3].n, qmaps);
    assert ServiceValue(n).parts == w;
    assert IdentityValue(n).parts == i && GpuValue(n).parts == g;
    assert HcaValue(n).parts == h && RegionValue(n).parts == r;
    n
  }

  function NodeOf(v: Value): (n: NodeInfo)
    requires Shaped(NODE_INFO, v)
    ensures NodeValue(n) == v
  {
    FiveParts(NODE_INFO, v);
    var p := v.parts;
    AssembleNode(p[0], p[1], p[2], p[3], PeersOf(p[4]))
  }

  function NodesOf(v: Value): (ns: seq<NodeInfo>)
    requires Shaped(List(NODE_INFO), v)
    ensures NodeValues(ns) == v
  {
    var ns := seq(|v.parts|, i requires 0 <= i < |v.parts| => NodeOf(v.parts[i]));
    assert NodeValues(ns).parts == v.parts;
    ns
  }

  function RequestOf(v: Value): (r: RequestInfo)
    requires Shaped(REQUEST_INFO, v)
    ensures RequestValue(r) == v
  {
    WordWidths();
    PartsShaped(REQUEST_INFO, v);
    var p := v.parts;
    PartsShaped(ROUTING, p[0]); PartsShaped(SLOT, p[1]); PartsShaped(TIMES, p[2]);
    var a, s, t := p[0].parts, p[1].parts, p[2].parts;
    var r := RequestInfo(a[0].bytes, a[1].bytes, ToSigned(a[2].n), a[3].bytes, a[4].bytes,
                         ToSigned(s[0].n), s[1].n, t[0].n, t[1].n, t[2].n, t[3].n, t[4].n);
    assert RoutingValue(r).parts == a && SlotValue(r).parts == s && TimesValue(r).parts == t;
    assert RequestValue(r).parts == p;
    r
  }

  function AssembleMessage(header: Value, request: RequestInfo, node: NodeInfo, members: seq<NodeInfo>, trailer: Value)
    : (m: Message)
    requires Shaped(HEADER, header) && Shaped(TRAILER, trailer)
    ensures HeaderValue(m) == header && TrailerValue(m) == trailer
    ensures m.request == request && m.node == node && m.members == members
  {
    HeaderParts(header); TrailerParts(trailer);
    var h, t := header.parts, trailer.parts;
    var m := Message(h[0].n, h[1].n, h[2].n, h[3].n, h[4].bytes, request, node, members,
                     t[0].bytes, t[1].n, t[2].n, t[3].bytes);
    assert HeaderValue(m).parts == h && TrailerValue(m).parts == t;
    m
  }

  function MessageOf(v: Value): (m: Message)
    requires Shaped(MESSAGE, v)
    ensures MessageValue(m) == v
  {
    FiveParts(MESSAGE, v);
    var p := v.parts;
    AssembleMessage(p[0], RequestOf(p[1]), NodeOf(p[2]), NodesOf(p[3]), p[4])
  }

  // Different messages have different values, so every field is carried.

  lemma PeerValueIsInjective(q: PeerInfo, q': PeerInfo)
    requires PeerValue(q) == PeerValue(q')
    ensures q == q'
  {
    var p, p' := PeerValue(q).parts, PeerValue(q').parts;
    assert p[0] == p'[0] && p[1] == p'[1] && p[2] == p'[2] && p[3] == p'[3] && p[4] == p'[4];
    assert p[1].parts == p'[1].parts && p[2].parts == p'[2].parts;
  }

  lemma PeerValuesIsInjective(qs: seq<PeerInfo>, qs': seq<PeerInfo>)
    requires PeerValues(qs) == PeerValues(qs')
    ensures qs == qs'
  {
    assert |PeerValues(qs).parts| == |PeerValues(qs').parts|;
    forall i | 0 <= i < |qs| ensures qs[i] == qs'[i] {
      assert PeerValues(qs).parts[i] == PeerValues(qs').parts[i];
      PeerValueIsInjective(qs[i], qs'[i]);
    }
  }

  lemma NodeValueIsInjective(n: NodeInfo, n': NodeInfo)
    requires NodeValue(n) == NodeValue(n')
    ensures n == n'
  {
    var p, p' := NodeValue(n).parts, NodeValue(n').parts;
    assert p[0] == p'[0] && p[1] == p'[1] && p[2] == p'[2] && p[3] == p'[3] && p[4] == p'[4];
    assert IdentityValue(n).parts == IdentityValue(n').parts;
    assert ServiceValue(n) == IdentityValue(n).parts[3] == IdentityValue(n').parts[3] == ServiceValue(n');
    assert ServiceValue(n).parts == ServiceValue(n').parts;
    assert GpuValue(n).parts == GpuValue(n').parts;
    assert HcaValue(n).parts == HcaValue(n').parts;
    assert RegionValue(n).parts == RegionValue(n').parts;
    PeerValuesIsInjective(n.qmaps, n'.qmaps);
  }

  lemma RequestValueIsInjective(r: RequestInfo, r': RequestInfo)
    requires RequestValue(r) == RequestValue(r')
    ensures r == r'
  {
    var p, p' := RequestValue(r).parts, RequestValue(r').parts;
    assert p[0] == p'[0] && p[1] == p'[1] && p[2] == p'[2];
    assert RoutingValue(r).parts == RoutingValue(r').parts;
    assert SlotValue(r).parts == SlotValue(r').parts;
    assert TimesValue(r).parts == TimesValue(r').parts;
  }

  lemma MessageValueIsInjective(m: Message, m': Message)
    requires MessageValue(m) == MessageValue(m')
    ensures m == m'
  {
    var p, p' := MessageValue(m).parts, MessageValue(m').parts;
    assert p[0] == p'[0] && p[1] == p'[1] && p[2] == p'[2] && p[3] == p'[3] && p[4] == p'[4];
    assert HeaderValue(m).parts == HeaderValue(m').parts && TrailerValue(m).parts == TrailerValue(m').parts;
    RequestValueIsInjective(m.request, m'.request);
    NodeValueIsInjective(m.node, m'.node);
    assert |NodeValues(m.members).parts| == |NodeValues(m'.members).parts|;
    forall i | 0 <= i < |m.members| ensures m.members[i] == m'.members[i] {
      assert NodeValues(m.members).parts[i] == NodeValues(m'.members).parts[i];
      NodeValueIsInjective(m.members[i], m'.members[i]);
    }
  }

  // ---- Whole messages ----

  function PeerBytes(q: PeerInfo): Bytes {
    Encode(PEER_INFO, PeerValue(q))
  }

  function NodeBytes(n: NodeInfo): Bytes {
    Encode(NODE_INFO, NodeValue(n))
  }

  function RequestBytes(r: RequestInfo): Bytes {
    Encode(REQUEST_INFO, RequestValue(r))
  }

  function Serialized(m: Message): Bytes {
    Encode(MESSAGE, MessageValue(m))
  }

  /** Every string and list of m, at any depth, is shorter than 2^32. */
  predicate Fits(m: Message) {
    MessageValueIsShaped(m);
    Sized(MESSAGE, MessageValue(m))
  }

  function Decoded(b: Bytes): Option<(Message, Bytes)> {
    match Parse(MESSAGE, b)
    case None => None
    case Some((v, rest)) =>
      ParsedIsWellFormed(MESSAGE, b);
      Some((MessageOf(v), rest))
  }

  /** Bytes left over after a message are ignored. */
  function Deserialized(b: Bytes): Option<Message> {
    match Decoded(b)
    case None => None
    case Some((m, _)) => Some(m)
  }

  /** Decoding is the inverse of encoding exactly on the messages whose lengths fit their prefixes. */
  lemma RoundTrip(m: Message, rest: Bytes)
    ensures Decoded(Serialized(m) + rest) == Some((m, rest)) <==> Fits(m)
  {
    MessageValueIsShaped(m);
    RoundTripIffSized(MESSAGE, MessageValue(m), rest);
    if Fits(m) {
      MessageValueIsInjective(m, MessageOf(MessageValue(m)));
    }
  }

  lemma SerializedIsInjective(m: Message, m': Message)
    requires Fits(m) && Fits(m') && Serialized(m) == Serialized(m')
    ensures m == m'
  {
    MessageValueIsShaped(m);
    MessageValueIsShaped(m');
    EncodeIsInjective(MESSAGE, MessageValue(m), MessageValue(m'));
    MessageValueIsInjective(m, m');
  }

  lemma TruncatedMessageRejected(m: Message, k: nat)
    requires Fits(m) && k < |Serialized(m)|
    ensures Deserialized(Serialized(m)[..k]).None?
  {
    MessageValueIsShaped(m);
    StrictPrefixRejected(MESSAGE, MessageValue(m), k);
  }

  /** True at the is_healthy bytes of the serialised m and nowhere else. */
  function HealthBytes(m: Message): (mask: seq<bool>)
    ensures |mask| == |Serialized(m)|
  {
    MessageValueIsShaped(m);
    FlagMask(MESSAGE, MessageValue(m))
  }

  /** Whatever bytes decode, decoding consumed the serialised form of its result, health bytes
      apart: those come out as 0 or 1. */
  lemma DecodingIsCanonical(b: Bytes)
    requires Decoded(b).Some?
    ensures var (m, rest) := Decoded(b).value;
      Fits(m) && Consumed(Serialized(m), HealthBytes(m), b, rest)
  {
    ParsedIsWellFormed(MESSAGE, b);
    ParseIsCanonical(MESSAGE, b);
  }

  /** Exactly which bytes decode to m: those that begin with its serialised form, health bytes apart, if it fits. */
  lemma DecodesIff(b: Bytes, m: Message, rest: Bytes)
    ensures Decoded(b) == Some((m, rest)) <==> Fits(m) && Consumed(Serialized(m), HealthBytes(m), b, rest)
  {
    MessageValueIsShaped(m);
    ParsesIffNormalised(MESSAGE, b, MessageValue(m), rest);
    if Fits(m) && Consumed(Serialized(m), HealthBytes(m), b, rest) {
      MessageValueIsInjective(m, MessageOf(MessageValue(m)));
    }
  }

  /** Whatever follows a message is ignored: only how the bytes begin decides. */
  lemma DeserializesIff(b: Bytes, m: Message)
    ensures Deserialized(b) == Some(m) <==>
      var size := |Serialized(m)|;
      Fits(m) && size <= |b| && Consumed(Serialized(m), HealthBytes(m), b, b[size..])
  {
    var size := |Serialized(m)|;
    if size <= |b| {
      DecodesIff(b, m, b[size..]);
    }
    if Deserialized(b) == Some(m) {
      DecodesIff(b, m, Decoded(b).value.1);
    }
  }

  lemma NodeLayoutIsNeverEmpty()
    ensures NeverEmpty(NODE_INFO) && ListsOfNonEmpty(NODE_INFO)
  {
    assert NeverEmpty(IDENTITY) && NeverEmpty(PEER_INFO);
    assert ListsOfNonEmpty(ENDPOINT);
    assert ListsOfNonEmpty(PEER_INFO);
    assert ListsOfNonEmpty(SERVICE);
    assert ListsOfNonEmpty(IDENTITY) && ListsOfNonEmpty(GPU) && ListsOfNonEmpty(HCA) && ListsOfNonEmpty(REGION);
  }

  lemma RequestLayoutHasNoLists()
    ensures ListsOfNonEmpty(REQUEST_INFO)
  {
    assert ListsOfNonEmpty(ROUTING) && ListsOfNonEmpty(SLOT) && ListsOfNonEmpty(TIMES);
  }

  lemma LayoutIsNeverEmpty()
    ensures NeverEmpty(MESSAGE) && ListsOfNonEmpty(MESSAGE)
  {
    NodeLayoutIsNeverEmpty();
    RequestLayoutHasNoLists();
    assert NeverEmpty(HEADER) && ListsOfNonEmpty(HEADER) && ListsOfNonEmpty(TRAILER);
  }

  lemma ShortMessageFits(m: Message)
    requires |Serialized(m)| < TWO_32
    ensures Fits(m) && |Serialized(m)| > 0
  {
    MessageValueIsShaped(m);
    LayoutIsNeverEmpty();
    ShortIsSized(MESSAGE, MessageValue(m));
    EncodingNotEmpty(MESSAGE, MessageValue(m));
  }
}
