/** The write half of the codec: helpers that append to one byte vector, proved to append the
    encoding that the wire grammar prescribes. */
module MessageWriter {
  import opened Basics
  import opened WireFormat
  import opened Messages

  // ---- Words, most significant byte first ----

  function NetworkOrder(v: uint32): Bytes {
    [v / 0x100_0000, v / 0x1_0000 % 0x100, v / 0x100 % 0x100, v % 0x100]
  }

  lemma FourBytes(v: uint32)
    ensures ToBigEndian(v, 4) == NetworkOrder(v)
  {
    LowFourBytes(v);
    assert v % TWO_32 == v;
  }

  /** Four bytes carry the low 32 bits, whatever stands above them. */
  lemma LowFourBytes(v: nat)
    ensures ToBigEndian(v, 4) == NetworkOrder(v % TWO_32)
  {
    var v1 := v / 0x100;
    var v2 := v1 / 0x100;
    var v3 := v2 / 0x100;
    assert ToBigEndian(v3, 1) == ToBigEndian(v3 / 0x100, 0) + [v3 % 0x100];
    assert ToBigEndian(v2, 2) == ToBigEndian(v3, 1) + [v2 % 0x100];
    assert ToBigEndian(v1, 3) == ToBigEndian(v2, 2) + [v1 % 0x100];
    assert ToBigEndian(v, 4) == ToBigEndian(v1, 3) + [v % 0x100];
    ByteByByte(v, v % TWO_32);
  }

  lemma ByteByByte(v: nat, low: uint32)
    requires low == v % TWO_32
    ensures low / 0x100_0000 == v / 0x100 / 0x100 / 0x100 % 0x100
    ensures low / 0x1_0000 % 0x100 == v / 0x100 / 0x100 % 0x100
    ensures low / 0x100 % 0x100 == v / 0x100 % 0x100
    ensures low % 0x100 == v % 0x100
  {
    var v1, d0 := Split(v);
    var v2, d1 := Split(v1);
    var v3, d2 := Split(v2);
    var v4, d3 := Split(v3);
    LowWord(v, v4, FromDigits(d3, d2, d1, d0));
    Digits(d3, d2, d1, d0);
  }

  lemma Split(v: nat) returns (high: nat, low: byte)
    ensures high == v / 0x100 && low == v % 0x100 && v == 0x100 * high + low
  {
    high, low := v / 0x100, v % 0x100;
  }

  lemma LowWord(v: nat, high: nat, low: nat)
    requires v == TWO_32 * high + low && low < TWO_32
    ensures v % TWO_32 == low
  {
  }

  function FromDigits(d3: nat, d2: nat, d1: nat, d0: nat): nat {
    0x100_0000 * d3 + 0x1_0000 * d2 + 0x100 * d1 + d0
  }

  lemma Digits(d3: byte, d2: byte, d1: byte, d0: byte)
    ensures var x := FromDigits(d3, d2, d1, d0);
      x < TWO_32 && x / 0x100_0000 == d3 && x / 0x1_0000 % 0x100 == d2 && x / 0x100 % 0x100 == d1 && x % 0x100 == d0
  {
    var x := FromDigits(d3, d2, d1, d0);
    assert x / 0x100 == 0x1_0000 * d3 + 0x100 * d2 + d1;
    assert x / 0x1_0000 == 0x100 * d3 + d2;
    assert x / 0x100_0000 == d3;
  }

  lemma EightBytes(v: uint64)
    ensures ToBigEndian(v, 8) == NetworkOrder(v / TWO_32) + NetworkOrder(v % TWO_32)
  {
    var v1 := v / 0x100;
    var v2 := v1 / 0x100;
    var v3 := v2 / 0x100;
    LastByte(v, 7);
    LastByte(v1, 6);
    LastByte(v2, 5);
    LastByte(v3, 4);
    ByteByByte(v, v % TWO_32);
    FourthQuotient(v);
    FourBytes(v / TWO_32);
    var high := ToBigEndian(v / TWO_32, 4);
    assert ToBigEndian(v, 8) == high + [v3 % 0x100] + [v2 % 0x100] + [v1 % 0x100] + [v % 0x100];
  }

  lemma FourthQuotient(v: nat)
    ensures v / 0x100 / 0x100 / 0x100 / 0x100 == v / TWO_32
  {
  }

  lemma LastByte(v: nat, n: nat)
    ensures ToBigEndian(v, n + 1) == ToBigEndian(v / 0x100, n) + [v % 0x100]
  {
  }

  class ByteBuffer {
    var bytes: Bytes

    constructor ()
      ensures bytes == []
    {
      bytes := [];
    }

    method WriteUint8(v: byte)
      modifies this
      ensures bytes == old(bytes) + ToBigEndian(v, 1)
    {
      bytes := bytes + [v];
    }

    method WriteUint16(v: uint16)
      modifies this
      ensures bytes == old(bytes) + ToBigEndian(v, 2)
    {
      LastByte(v, 1);
      bytes := bytes + [v / 0x100];
      bytes := bytes + [v % 0x100];
    }

    method WriteUint32(v: uint32)
      modifies this
      ensures bytes == old(bytes) + ToBigEndian(v, 4)
    {
      FourBytes(v);
      bytes := bytes + NetworkOrder(v);
    }

    method WriteUint64(v: uint64)
      modifies this
      ensures bytes == old(bytes) + ToBigEndian(v, 8)
    {
      EightBytes(v);
      FourBytes(v / TWO_32);
      FourBytes(v % TWO_32);
      AppendAssociates(bytes, NetworkOrder(v / TWO_32), NetworkOrder(v % TWO_32));
      WriteUint32(v / TWO_32);
      WriteUint32(v % TWO_32);
    }

    /** A count is cast to 32 bits before it is written. */
    method WriteCount(n: nat)
      modifies this
      ensures bytes == old(bytes) + ToBigEndian(n, 4)
    {
      LowFourBytes(n);
      FourBytes(n % TWO_32);
      WriteUint32(n % TWO_32);
    }

    /** The length prefix is the low 32 bits of the length; the contents are written whole. */
    method WriteString(s: Bytes)
      modifies this
      ensures bytes == old(bytes) + Encode(Str, Text(s))
    {
      WriteCount(|s|);
      bytes := bytes + s;
    }

    // Part i of a larger layout: what is still to come shrinks by one part, the goal stays.

    method WordField(v: nat, width: nat, ghost s: Schema, ghost xs: seq<Value>, ghost i: nat, ghost goal: Bytes)
      requires HasParts(s, |xs|) && i < |xs| && PartOf(s, i) == UInt(width) && xs[i] == Num(v)
      requires (width == 1 && v < 0x100) || (width == 2 && v < TWO_16) || (width == 4 && v < TWO_32)
        || (width == 8 && v < TWO_64)
      requires goal == bytes + EncodeParts(s, xs, i)
      modifies this
      ensures goal == bytes + EncodeParts(s, xs, i + 1)
    {
      AppendAssociates(bytes, ToBigEndian(v, width), EncodeParts(s, xs, i + 1));
      match width {
        case 1 => WriteUint8(v);
        case 2 => WriteUint16(v);
        case 4 => WriteUint32(v);
        case _ => WriteUint64(v);
      }
    }

    method StringField(b: Bytes, ghost s: Schema, ghost xs: seq<Value>, ghost i: nat, ghost goal: Bytes)
      requires HasParts(s, |xs|) && i < |xs| && PartOf(s, i) == Str && xs[i] == Text(b)
      requires goal == bytes + EncodeParts(s, xs, i)
      modifies this
      ensures goal == bytes + EncodeParts(s, xs, i + 1)
    {
      AppendAssociates(bytes, Encode(Str, Text(b)), EncodeParts(s, xs, i + 1));
      WriteString(b);
    }

    method RawField(b: Bytes, ghost s: Schema, ghost xs: seq<Value>, ghost i: nat, ghost goal: Bytes)
      requires HasParts(s, |xs|) && i < |xs| && PartOf(s, i) == Raw(|b|) && xs[i] == Text(b)
      requires goal == bytes + EncodeParts(s, xs, i)
      modifies this
      ensures goal == bytes + EncodeParts(s, xs, i + 1)
    {
      AppendAssociates(bytes, b, EncodeParts(s, xs, i + 1));
      bytes := bytes + b;
    }

    method WriteEndpoint(qpNum: uint32, lid: uint16, gid: Gid, psn: uint32)
      modifies this
      ensures bytes == old(bytes) + Encode(ENDPOINT, EndpointValue(qpNum, lid, gid, psn))
    {
      ghost var goal := bytes + Encode(ENDPOINT, EndpointValue(qpNum, lid, gid, psn));
      ghost var xs := EndpointValue(qpNum, lid, gid, psn).parts;
      WordField(qpNum, 4, ENDPOINT, xs, 0, goal);
      WordField(lid, 2, ENDPOINT, xs, 1, goal);
      RawField(gid, ENDPOINT, xs, 2, goal);
      WordField(psn, 4, ENDPOINT, xs, 3, goal);
    }

    method WritePeerInfo(q: PeerInfo)
      modifies this
      ensures bytes == old(bytes) + PeerBytes(q)
    {
      ghost var goal := bytes + PeerBytes(q);
      ghost var xs := PeerValue(q).parts;
      StringField(q.peerNodeId, PEER_INFO, xs, 0, goal);
      PartFits(PEER_INFO, xs, 1, bytes);
      WriteEndpoint(q.localQpNum, q.localLid, q.localGid, q.localPsn);
      PartFits(PEER_INFO, xs, 2, bytes);
      WriteEndpoint(q.remoteQpNum, q.remoteLid, q.remoteGid, q.remotePsn);
      WordField(q.remoteRkey, 8, PEER_INFO, xs, 3, goal);
      WordField(q.remoteAddr, 8, PEER_INFO, xs, 4, goal);
    }

    method WriteFlag(b: bool)
      modifies this
      ensures bytes == old(bytes) + Encode(Flag, Truth(b))
    {
      WriteUint8(if b then 1 else 0);
    }

    method WriteService(n: NodeInfo)
      modifies this
      ensures bytes == old(bytes) + Encode(SERVICE, ServiceValue(n))
    {
      ghost var goal := bytes + Encode(SERVICE, ServiceValue(n));
      ghost var xs := ServiceValue(n).parts;
      WordField(n.tcpPort, 2, SERVICE, xs, 0, goal);
      WordField(n.vllmPort, 2, SERVICE, xs, 1, goal);
      PartFits(SERVICE, xs, 2, bytes);
      WriteFlag(n.isHealthy);
    }

    method WriteIdentity(n: NodeInfo)
      modifies this
      ensures bytes == old(bytes) + Encode(IDENTITY, IdentityValue(n))
    {
      ghost var goal := bytes + Encode(IDENTITY, IdentityValue(n));
      ghost var xs := IdentityValue(n).parts;
      StringField(n.nodeId, IDENTITY, xs, 0, goal);
      WordField(n.role, 1, IDENTITY, xs, 1, goal);
      StringField(n.ipAddress, IDENTITY, xs, 2, goal);
      PartFits(IDENTITY, xs, 3, bytes);
      WriteService(n);
    }

    method WriteGpu(n: NodeInfo)
      modifies this
      ensures bytes == old(bytes) + Encode(GPU, GpuValue(n))
    {
      ghost var goal := bytes + Encode(GPU, GpuValue(n));
      ghost var xs := GpuValue(n).parts;
      WordField(ToUnsigned(n.gpuId), 4, GPU, xs, 0, goal);
      StringField(n.gpuName, GPU, xs, 1, goal);
      WordField(ToUnsigned(n.gpuNuma), 4, GPU, xs, 2, goal);
      WordField(n.gpuMemBytes, 8, GPU, xs, 3, goal);
    }

    method WriteHca(n: NodeInfo)
      modifies this
      ensures bytes == old(bytes) + Encode(HCA, HcaValue(n))
    {
      ghost var goal := bytes + Encode(HCA, HcaValue(n));
      ghost var xs := HcaValue(n).parts;
      StringField(n.ibDevName, HCA, xs, 0, goal);
      WordField(ToUnsigned(n.ibPort), 4, HCA, xs, 1, goal);
      WordField(ToUnsigned(n.ibNuma), 4, HCA, xs, 2, goal);
      WordField(n.ibSpeedGbps, 8, HCA, xs, 3, goal);
    }

    method WriteRegion(n: NodeInfo)
      modifies this
      ensures bytes == old(bytes) + Encode(REGION, RegionValue(n))
    {
      ghost var goal := bytes + Encode(REGION, RegionValue(n));
      ghost var xs := RegionValue(n).parts;
      WordField(n.gpuBaseAddr, 8, REGION, xs, 0, goal);
      WordField(n.lkey, 8, REGION, xs, 1, goal);
      WordField(n.rkey, 8, REGION, xs, 2, goal);
      WordField(n.memoryPoolSize, 8, REGION, xs, 3, goal);
    }

    method WriteNodeInfo(n: NodeInfo)
      modifies this
      ensures bytes == old(bytes) + NodeBytes(n)
    {
      WriteIdentity(n);
      WriteGpu(n);
      WriteHca(n);
      WriteRegion(n);
      WriteQmaps(n.qmaps);
      FiveFields(NODE_INFO, IdentityValue(n), GpuValue(n), HcaValue(n), RegionValue(n), PeerValues(n.qmaps));
    }

    method WriteQmaps(qs: seq<PeerInfo>)
      modifies this
      ensures bytes == old(bytes) + Encode(List(PEER_INFO), PeerValues(qs))
    {
      ghost var xs := PeerValues(qs).parts;
      WriteCount(|qs|);
      ghost var start := bytes;
      for i := 0 to |qs|
        invariant bytes + EncodeParts(List(PEER_INFO), xs, i) == start + EncodeParts(List(PEER_INFO), xs, 0)
      {
        PartFits(List(PEER_INFO), xs, i, bytes);
        WritePeerInfo(qs[i]);
      }
      AppendAssociates(old(bytes), ToBigEndian(|qs|, 4), EncodeParts(List(PEER_INFO), xs, 0));
    }

    method WriteRouting(r: RequestInfo)
      modifies this
      ensures bytes == old(bytes) + Encode(ROUTING, RoutingValue(r))
    {
      ghost var goal := bytes + Encode(ROUTING, RoutingValue(r));
      ghost var xs := RoutingValue(r).parts;
      StringField(r.requestId, ROUTING, xs, 0, goal);
      StringField(r.prompt, ROUTING, xs, 1, goal);
      WordField(ToUnsigned(r.maxTokens), 4, ROUTING, xs, 2, goal);
      StringField(r.prefillNodeId, ROUTING, xs, 3, goal);
      StringField(r.decodeNodeId, ROUTING, xs, 4, goal);
    }

    method WriteSlot(r: RequestInfo)
      modifies this
      ensures bytes == old(bytes) + Encode(SLOT, SlotValue(r))
    {
      ghost var goal := bytes + Encode(SLOT, SlotValue(r));
      ghost var xs := SlotValue(r).parts;
      WordField(ToUnsigned(r.slotId), 4, SLOT, xs, 0, goal);
      WordField(r.slotBaseOffset, 8, SLOT, xs, 1, goal);
    }

    method WriteTimes(r: RequestInfo)
      modifies this
      ensures bytes == old(bytes) + Encode(TIMES, TimesValue(r))
    {
      ghost var goal := bytes + Encode(TIMES, TimesValue(r));
      ghost var xs := TimesValue(r).parts;
      WordField(r.created, 8, TIMES, xs, 0, goal);
      WordField(r.prefillStart, 8, TIMES, xs, 1, goal);
      WordField(r.prefillDone, 8, TIMES, xs, 2, goal);
      WordField(r.decodeStart, 8, TIMES, xs, 3, goal);
      WordField(r.decodeDone, 8, TIMES, xs, 4, goal);
    }

    method WriteRequestInfo(r: RequestInfo)
      modifies this
      ensures bytes == old(bytes) + RequestBytes(r)
    {
      ghost var xs := RequestValue(r).parts;
      PartFits(REQUEST_INFO, xs, 0, bytes);
      WriteRouting(r);
      PartFits(REQUEST_INFO, xs, 1, bytes);
      WriteSlot(r);
      PartFits(REQUEST_INFO, xs, 2, bytes);
      WriteTimes(r);
    }

    method WriteHeader(m: Message)
      modifies this
      ensures bytes == old(bytes) + Encode(HEADER, HeaderValue(m))
    {
      ghost var goal := bytes + Encode(HEADER, HeaderValue(m));
      ghost var xs := HeaderValue(m).parts;
      WordField(m.kind, 1, HEADER, xs, 0, goal);
      WordField(m.status, 1, HEADER, xs, 1, goal);
      WordField(m.transactionId, 8, HEADER, xs, 2, goal);
      WordField(m.timestamp, 8, HEADER, xs, 3, goal);
      StringField(m.sourceNodeId, HEADER, xs, 4, goal);
    }

    method WriteTrailer(m: Message)
      modifies this
      ensures bytes == old(bytes) + Encode(TRAILER, TrailerValue(m))
    {
      ghost var goal := bytes + Encode(TRAILER, TrailerValue(m));
      ghost var xs := TrailerValue(m).parts;
      StringField(m.errorMessage, TRAILER, xs, 0, goal);
      WordField(m.numLayers, 4, TRAILER, xs, 1, goal);
      WordField(m.numTokens, 4, TRAILER, xs, 2, goal);
      StringField(m.responseText, TRAILER, xs, 3, goal);
    }

    method WriteMembers(ns: seq<NodeInfo>)
      modifies this
      ensures bytes == old(bytes) + Encode(List(NODE_INFO), NodeValues(ns))
    {
      ghost var xs := NodeValues(ns).parts;
      WriteCount(|ns|);
      ghost var start := bytes;
      for i := 0 to |ns|
        invariant bytes + EncodeParts(List(NODE_INFO), xs, i) == start + EncodeParts(List(NODE_INFO), xs, 0)
      {
        PartFits(List(NODE_INFO), xs, i, bytes);
        WriteNodeInfo(ns[i]);
      }
      AppendAssociates(old(bytes), ToBigEndian(|ns|, 4), EncodeParts(List(NODE_INFO), xs, 0));
    }
  }

  /** Room for part i: appending its encoding leaves the parts after it to write. */
  lemma PartFits(s: Schema, xs: seq<Value>, i: nat, b: Bytes)
    requires HasParts(s, |xs|) && i < |xs|
    ensures b + EncodeParts(s, xs, i) == (b + Encode(PartOf(s, i), xs[i])) + EncodeParts(s, xs, i + 1)
  {
    AppendAssociates(b, Encode(PartOf(s, i), xs[i]), EncodeParts(s, xs, i + 1));
  }

  /** A record of five fields is their encodings in order. */
  lemma FiveFields(s: Schema, a: Value, b: Value, c: Value, d: Value, e: Value)
    requires s.Record? && |s.fields| == 5
    ensures Encode(s, Parts([a, b, c, d, e]))
         == Encode(s.fields[0], a) + Encode(s.fields[1], b) + Encode(s.fields[2], c)
            + Encode(s.fields[3], d) + Encode(s.fields[4], e)
  {
    var xs := [a, b, c, d, e];
    assert EncodeParts(s, xs, 5) == [];
    assert EncodeParts(s, xs, 4) == Encode(s.fields[4], e);
    assert EncodeParts(s, xs, 3) == Encode(s.fields[3], d) + EncodeParts(s, xs, 4);
    assert EncodeParts(s, xs, 2) == Encode(s.fields[2], c) + EncodeParts(s, xs, 3);
    assert EncodeParts(s, xs, 1) == Encode(s.fields[1], b) + EncodeParts(s, xs, 2);
  }

  /** A string of 2^32 bytes has the length prefix of an empty one. */
  lemma HugeString(text: Bytes)
    requires |text| == TWO_32
    ensures Encode(Str, Text(text)) == Encode(Str, Text([])) + text
  {
    FourBytesAreAWord();
    SameLowSameBytes(TWO_32, 0, 4);
  }

  lemma LastPart(s: Schema, xs: seq<Value>)
    requires HasParts(s, |xs|) && xs != []
    ensures EncodeParts(s, xs, |xs| - 1) == Encode(PartOf(s, |xs| - 1), xs[|xs| - 1])
  {
    assert EncodeParts(s, xs, |xs|) == [];
  }

  lemma HugeLast(xs: seq<Value>, ys: seq<Value>, text: Bytes)
    requires |xs| == |ys| == 4 && xs[0] == ys[0] && xs[1] == ys[1] && xs[2] == ys[2]
    requires xs[3] == Text(text) && ys[3] == Text([]) && |text| == TWO_32
    ensures EncodeParts(TRAILER, xs, 0) == EncodeParts(TRAILER, ys, 0) + text
  {
    LastPart(TRAILER, xs);
    LastPart(TRAILER, ys);
    HugeString(text);
    TailGrows(TRAILER, xs, ys, 2, text);
    TailGrows(TRAILER, xs, ys, 1, text);
    TailGrows(TRAILER, xs, ys, 0, text);
  }

  lemma HugeTrailer(m: Message, short: Message)
    requires |m.responseText| == TWO_32 && short == m.(responseText := [])
    ensures Encode(TRAILER, TrailerValue(m)) == Encode(TRAILER, TrailerValue(short)) + m.responseText
  {
    HugeLast(TrailerValue(m).parts, TrailerValue(short).parts, m.responseText);
  }

  lemma TailGrows(s: Schema, xs: seq<Value>, ys: seq<Value>, i: nat, tail: Bytes)
    requires HasParts(s, |xs|) && |ys| == |xs| && i < |xs| && xs[i] == ys[i]
    requires EncodeParts(s, xs, i + 1) == EncodeParts(s, ys, i + 1) + tail
    ensures EncodeParts(s, xs, i) == EncodeParts(s, ys, i) + tail
  {
    AppendAssociates(Encode(PartOf(s, i), ys[i]), EncodeParts(s, ys, i + 1), tail);
  }

  /** A response text of 2^32 bytes, the last field, has the length prefix of an empty one. */
  lemma HugeResponse(m: Message, short: Message)
    requires |m.responseText| == TWO_32 && short == m.(responseText := [])
    ensures Serialized(m) == Serialized(short) + m.responseText
  {
    var h, r, n, ns := HeaderValue(m), RequestValue(m.request), NodeValue(m.node), NodeValues(m.members);
    assert HeaderValue(short) == h;
    HugeTrailer(m, short);
    FiveFields(MESSAGE, h, r, n, ns, TrailerValue(m));
    FiveFields(MESSAGE, h, r, n, ns, TrailerValue(short));
    AppendAssociates(Encode(HEADER, h) + Encode(REQUEST_INFO, r) + Encode(NODE_INFO, n) + Encode(List(NODE_INFO), ns),
      Encode(TRAILER, TrailerValue(short)), m.responseText);
  }

  /** So the fit is needed: cut off before such a text, the message decodes as one without it. */
  lemma HugeResponseTruncates(m: Message, short: Message)
    requires |m.responseText| == TWO_32 && short == m.(responseText := []) && |Serialized(short)| < TWO_32
    ensures |Serialized(short)| < |Serialized(m)| && Deserialized(Serialized(m)[..|Serialized(short)|]) == Some(short)
  {
    HugeResponse(m, short);
    ShortMessageFits(short);
    RoundTrip(short, []);
    assert Serialized(short) + [] == Serialized(short) == Serialized(m)[..|Serialized(short)|];
  }

  method SerializeMessage(m: Message) returns (bytes: Bytes)
    ensures bytes == Serialized(m)
  {
    var buf := new ByteBuffer();
    buf.WriteHeader(m);
    buf.WriteRequestInfo(m.request);
    buf.WriteNodeInfo(m.node);
    buf.WriteMembers(m.members);
    buf.WriteTrailer(m);
    bytes := buf.bytes;
    FiveFields(MESSAGE, HeaderValue(m), RequestValue(m.request), NodeValue(m.node), NodeValues(m.members),
      TrailerValue(m));
  }
}
