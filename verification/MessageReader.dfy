/** The read half of the codec: helpers that move one cursor over a byte range and fill fields,
    proved to accept exactly what the wire grammar parses and to leave the cursor where it does. */
module MessageReader {
  import opened Basics
  import opened WireFormat
  import opened Messages

  /** A read of s from the bytes before: it fails exactly when the grammar does, and on success
      yields the grammar's value and leaves the grammar's rest. */
  ghost predicate Reads(s: Schema, before: Bytes, ok: bool, v: Value, after: Bytes) {
    match Parse(s, before)
    case None => !ok
    case Some((x, rest)) => ok && v == x && after == rest
  }

  // ---- Words ----

  function Word16(b0: int, b1: int): int {
    0x100 * b0 + b1
  }

  function Word32(b: Bytes): uint32
    requires |b| == 4
  {
    Word16(Word16(Word16(b[0], b[1]), b[2]), b[3])
  }

  lemma TwoBytesRead(b: Bytes)
    requires |b| == 2
    ensures FromBigEndian(b) == Word16(b[0], b[1])
  {
    assert b[..1] == [b[0]];
  }

  lemma FourBytesRead(b: Bytes)
    requires |b| == 4
    ensures FromBigEndian(b) == Word32(b)
  {
    TwoBytesRead(b[..2]);
    assert b[..3][..2] == b[..2];
  }

  lemma EightBytesRead(b: Bytes)
    requires |b| == 8
    ensures FromBigEndian(b) == TWO_32 * FromBigEndian(b[..4]) + FromBigEndian(b[4..])
  {
    FourBytesRead(b[4..]);
    assert b[..7][..6] == b[..6] && b[..6][..5] == b[..5] && b[..5][..4] == b[..4];
    assert FromBigEndian(b[..5]) == 0x100 * FromBigEndian(b[..4]) + b[4];
    assert FromBigEndian(b[..6]) == 0x100 * FromBigEndian(b[..5]) + b[5];
    assert FromBigEndian(b[..7]) == 0x100 * FromBigEndian(b[..6]) + b[6];
  }

  // ---- Records and lists, read part by part ----

  /** A read of parts i.. of a group whose values are vs, as Reads is for one schema. */
  ghost predicate ReadsFrom(s: Schema, i: nat, vs: seq<Value>, before: Bytes, ok: bool, after: Bytes)
    requires HasParts(s, |vs|) && i <= |vs|
  {
    match ParseParts(s, i, |vs|, before)
    case None => !ok
    case Some((xs, rest)) => ok && xs == vs[i..] && after == rest
  }

  /** Part i is read first; the parts after it are attempted only if that succeeds. */
  lemma PartThenRest(s: Schema, i: nat, vs: seq<Value>, before: Bytes, k: bool, middle: Bytes, ok: bool, after: Bytes)
    requires HasParts(s, |vs|) && i < |vs|
    requires Reads(PartOf(s, i), before, k, vs[i], middle)
    requires if k then ReadsFrom(s, i + 1, vs, middle, ok, after) else !ok
    ensures ReadsFrom(s, i, vs, before, ok, after)
  {
    assert vs[i..] == [vs[i]] + vs[i + 1..];
  }

  lemma ThreePartsThenRest(s: Schema, i: nat, vs: seq<Value>, b0: Bytes, k0: bool, b1: Bytes, k1: bool, b2: Bytes,
                           k2: bool, b3: Bytes, ok: bool, after: Bytes)
    requires HasParts(s, |vs|) && i + 3 <= |vs|
    requires Reads(PartOf(s, i), b0, k0, vs[i], b1)
    requires if k0 then Reads(PartOf(s, i + 1), b1, k1, vs[i + 1], b2) else !k1
    requires if k1 then Reads(PartOf(s, i + 2), b2, k2, vs[i + 2], b3) else !k2
    requires if k2 then ReadsFrom(s, i + 3, vs, b3, ok, after) else !ok
    ensures ReadsFrom(s, i, vs, b0, ok, after)
  {
    if k1 { PartThenRest(s, i + 2, vs, b2, k2, b3, ok, after); }
    if k0 { PartThenRest(s, i + 1, vs, b1, k1, b2, ok, after); }
    PartThenRest(s, i, vs, b0, k0, b1, ok, after);
  }

  lemma TwoRead(s: Schema, b0: Bytes,
    v0: Value, k0: bool, b1: Bytes,
    v1: Value, k1: bool, b2: Bytes)
    requires s.Record? && |s.fields| == 2
    requires Reads(PartOf(s, 0), b0, k0, v0, b1)
    requires if k0 then Reads(PartOf(s, 1), b1, k1, v1, b2) else !k1
    ensures Reads(s, b0, k1, Parts([v0, v1]), b2)
  {
    var vs := [v0, v1];
    if k0 { PartThenRest(s, 1, vs, b1, k1, b2, k1, b2); }
    PartThenRest(s, 0, vs, b0, k0, b1, k1, b2);
  }

  lemma ThreeRead(s: Schema, b0: Bytes,
    v0: Value, k0: bool, b1: Bytes,
    v1: Value, k1: bool, b2: Bytes,
    v2: Value, k2: bool, b3: Bytes)
    requires s.Record? && |s.fields| == 3
    requires Reads(PartOf(s, 0), b0, k0, v0, b1)
    requires if k0 then Reads(PartOf(s, 1), b1, k1, v1, b2) else !k1
    requires if k1 then Reads(PartOf(s, 2), b2, k2, v2, b3) else !k2
    ensures Reads(s, b0, k2, Parts([v0, v1, v2]), b3)
  {
    var vs := [v0, v1, v2];
    ThreePartsThenRest(s, 0, vs, b0, k0, b1, k1, b2, k2, b3, k2, b3);
  }

  lemma FourRead(s: Schema, b0: Bytes,
    v0: Value, k0: bool, b1: Bytes,
    v1: Value, k1: bool, b2: Bytes,
    v2: Value, k2: bool, b3: Bytes,
    v3: Value, k3: bool, b4: Bytes)
    requires s.Record? && |s.fields| == 4
    requires Reads(PartOf(s, 0), b0, k0, v0, b1)
    requires if k0 then Reads(PartOf(s, 1), b1, k1, v1, b2) else !k1
    requires if k1 then Reads(PartOf(s, 2), b2, k2, v2, b3) else !k2
    requires if k2 then Reads(PartOf(s, 3), b3, k3, v3, b4) else !k3
    ensures Reads(s, b0, k3, Parts([v0, v1, v2, v3]), b4)
  {
    var vs := [v0, v1, v2, v3];
    if k0 { ThreePartsThenRest(s, 1, vs, b1, k1, b2, k2, b3, k3, b4, k3, b4); }
    PartThenRest(s, 0, vs, b0, k0, b1, k3, b4);
  }

  lemma FiveRead(s: Schema, b0: Bytes,
    v0: Value, k0: bool, b1: Bytes,
    v1: Value, k1: bool, b2: Bytes,
    v2: Value, k2: bool, b3: Bytes,
    v3: Value, k3: bool, b4: Bytes,
    v4: Value, k4: bool, b5: Bytes)
    requires s.Record? && |s.fields| == 5
    requires Reads(PartOf(s, 0), b0, k0, v0, b1)
    requires if k0 then Reads(PartOf(s, 1), b1, k1, v1, b2) else !k1
    requires if k1 then Reads(PartOf(s, 2), b2, k2, v2, b3) else !k2
    requires if k2 then Reads(PartOf(s, 3), b3, k3, v3, b4) else !k3
    requires if k3 then Reads(PartOf(s, 4), b4, k4, v4, b5) else !k4
    ensures Reads(s, b0, k4, Parts([v0, v1, v2, v3, v4]), b5)
  {
    var vs := [v0, v1, v2, v3, v4];
    if k1 { ThreePartsThenRest(s, 2, vs, b2, k2, b3, k3, b4, k4, b5, k4, b5); }
    if k0 { PartThenRest(s, 1, vs, b1, k1, b2, k4, b5); }
    PartThenRest(s, 0, vs, b0, k0, b1, k4, b5);
  }

  /** The elements already read of a list of n, and what a whole read of it depends on. */
  ghost predicate ListSoFar(e: Schema, n: nat, start: Bytes, seen: seq<Value>, rest: Bytes) {
    && |seen| <= n
    && match ParseParts(List(e), |seen|, n, rest)
       case None => ParseParts(List(e), 0, n, start).None?
       case Some((xs, end)) => ParseParts(List(e), 0, n, start) == Some((seen + xs, end))
  }

  lemma ListStarts(e: Schema, n: nat, start: Bytes)
    ensures ListSoFar(e, n, start, [], start)
  {
    var r := ParseParts(List(e), 0, n, start);
    assert r.Some? ==> [] + r.value.0 == r.value.0;
  }

  lemma ListGrows(e: Schema, n: nat, start: Bytes, seen: seq<Value>, rest: Bytes, ok: bool, v: Value, rest': Bytes)
    requires ListSoFar(e, n, start, seen, rest) && |seen| < n && Reads(e, rest, ok, v, rest')
    ensures if ok then ListSoFar(e, n, start, seen + [v], rest') else ParseParts(List(e), 0, n, start).None?
  {
    var r := ParseParts(List(e), |seen| + 1, n, rest');
    if ok && r.Some? {
      assert seen + ([v] + r.value.0) == (seen + [v]) + r.value.0;
    }
  }

  const NO_GID: Gid := seq(16, _ => 0)
  const NO_NODE := NodeInfo([], 0, [], 0, 0, false, 0, [], 0, 0, [], 0, 0, 0, 0, 0, 0, 0, [])
  const NO_REQUEST := RequestInfo([], [], 0, [], [], -1, 0, 0, 0, 0, 0, 0)

  class Cursor {
    const data: Bytes
    var p: nat

    ghost predicate Valid()
      reads this
    {
      p <= |data|
    }

    /** The bytes from the cursor to the end. */
    ghost function Rest(): Bytes
      requires Valid()
      reads this
    {
      data[p..]
    }

    constructor (data: Bytes)
      ensures Valid() && Rest() == data
    {
      this.data := data;
      p := 0;
    }

    method ReadUint8() returns (ok: bool, v: byte)
      requires Valid()
      modifies this`p
      ensures Valid() && Reads(U8, old(Rest()), ok, Num(v), Rest())
    {
      ghost var b := Rest();
      if p + 1 > |data| {
        return false, 0;
      }
      v := data[p];
      p := p + 1;
      ok := true;
      assert b[..1] == [v] && b[1..] == Rest();
    }

    method ReadUint16() returns (ok: bool, v: uint16)
      requires Valid()
      modifies this`p
      ensures Valid() && Reads(U16, old(Rest()), ok, Num(v), Rest())
    {
      ghost var b := Rest();
      if p + 2 > |data| {
        return false, 0;
      }
      v := Word16(data[p], data[p + 1]);
      p := p + 2;
      ok := true;
      TwoBytesRead(b[..2]);
      assert b[2..] == Rest();
    }

    method ReadUint32() returns (ok: bool, v: uint32)
      requires Valid()
      modifies this`p
      ensures Valid() && Reads(U32, old(Rest()), ok, Num(v), Rest())
    {
      ghost var b := Rest();
      if p + 4 > |data| {
        return false, 0;
      }
      v := Word32(data[p..p + 4]);
      p := p + 4;
      ok := true;
      FourBytesRead(b[..4]);
      assert b[4..] == Rest();
    }

    method ReadUint64() returns (ok: bool, v: uint64)
      requires Valid()
      modifies this`p
      ensures Valid() && Reads(U64, old(Rest()), ok, Num(v), Rest())
    {
      ghost var b := Rest();
      if p + 8 > |data| {
        return false, 0;
      }
      var hi: uint32 := Word32(data[p..p + 4]);
      var lo: uint32 := Word32(data[p + 4..p + 8]);
      v := TWO_32 * hi + lo;
      p := p + 8;
      ok := true;
      FourBytesRead(b[..8][..4]);
      FourBytesRead(b[..8][4..]);
      EightBytesRead(b[..8]);
      assert b[8..] == Rest();
    }

    /** A signed field: read as a word, then reinterpreted. */
    method ReadInt() returns (ok: bool, v: int32)
      requires Valid()
      modifies this`p
      ensures Valid() && Reads(U32, old(Rest()), ok, Num(ToUnsigned(v)), Rest())
    {
      var u;
      ok, u := ReadUint32();
      v := ToSigned(u);
    }

    method ReadFlag() returns (ok: bool, v: bool)
      requires Valid()
      modifies this`p
      ensures Valid() && Reads(Flag, old(Rest()), ok, Truth(v), Rest())
    {
      ghost var b := Rest();
      var healthy;
      ok, healthy := ReadUint8();
      v := healthy != 0;
      assert ok ==> FromBigEndian(b[..1]) == b[0];
    }

    method ReadGid() returns (ok: bool, g: Gid)
      requires Valid()
      modifies this`p
      ensures Valid() && Reads(Raw(16), old(Rest()), ok, Text(g), Rest())
    {
      ghost var b := Rest();
      if |data| - p < 16 {
        return false, NO_GID;
      }
      g := data[p..p + 16];
      p := p + 16;
      ok := true;
      assert b[..16] == g && b[16..] == Rest();
    }

    method ReadString() returns (ok: bool, s: Bytes)
      requires Valid()
      modifies this`p
      ensures Valid() && Reads(Str, old(Rest()), ok, Text(s), Rest())
    {
      ghost var b := Rest();
      var length;
      ok, length := ReadUint32();
      if !ok || length > |data| - p {
        return false, [];
      }
      s := data[p..p + length];
      p := p + length;
      assert b[4..4 + length] == s && b[4 + length..] == Rest();
    }

    method ReadEndpoint() returns (ok: bool,
      qpNum: uint32, lid: uint16, gid: Gid, psn: uint32)
      requires Valid()
      modifies this`p
      ensures Valid() && Reads(ENDPOINT, old(Rest()), ok, Parts([Num(qpNum), Num(lid), Text(gid), Num(psn)]), Rest())
    {
      qpNum, lid, gid, psn := 0, 0, NO_GID, 0;
      ghost var b0 := Rest();
      ok, qpNum := ReadUint32();
      ghost var k0, b1 := ok, Rest();
      if ok { ok, lid := ReadUint16(); }
      ghost var k1, b2 := ok, Rest();
      if ok { ok, gid := ReadGid(); }
      ghost var k2, b3 := ok, Rest();
      if ok { ok, psn := ReadUint32(); }
      FourRead(ENDPOINT, b0,
        Num(qpNum), k0, b1,
        Num(lid), k1, b2,
        Text(gid), k2, b3,
        Num(psn), ok, Rest());
    }

    method ReadPeerInfo() returns (ok: bool, q: PeerInfo)
      requires Valid()
      modifies this`p
      ensures Valid() && Reads(PEER_INFO, old(Rest()), ok, PeerValue(q), Rest())
    {
      var peerNodeId: Bytes := [];
      var localQpNum: uint32, localLid: uint16, localGid: Gid, localPsn: uint32 := 0, 0, NO_GID, 0;
      var remoteQpNum: uint32, remoteLid: uint16, remoteGid: Gid, remotePsn: uint32 := 0, 0, NO_GID, 0;
      var remoteRkey: uint64 := 0;
      var remoteAddr: uint64 := 0;
      ghost var b0 := Rest();
      ok, peerNodeId := ReadString();
      ghost var k0, b1 := ok, Rest();
      if ok { ok, localQpNum, localLid, localGid, localPsn := ReadEndpoint(); }
      ghost var k1, b2 := ok, Rest();
      if ok { ok, remoteQpNum, remoteLid, remoteGid, remotePsn := ReadEndpoint(); }
      ghost var k2, b3 := ok, Rest();
      if ok { ok, remoteRkey := ReadUint64(); }
      ghost var k3, b4 := ok, Rest();
      if ok { ok, remoteAddr := ReadUint64(); }
      FiveRead(PEER_INFO, b0,
        Text(peerNodeId), k0, b1,
        EndpointValue(localQpNum, localLid, localGid, localPsn), k1, b2,
        EndpointValue(remoteQpNum, remoteLid, remoteGid, remotePsn), k2, b3,
        Num(remoteRkey), k3, b4,
        Num(remoteAddr), ok, Rest());
      q := PeerInfo(peerNodeId, localQpNum, localLid, localGid, localPsn,
                    remoteQpNum, remoteLid, remoteGid, remotePsn, remoteRkey, remoteAddr);
    }

    method ReadQmaps() returns (ok: bool, qs: seq<PeerInfo>)
      requires Valid()
      modifies this`p
      ensures Valid() && Reads(List(PEER_INFO), old(Rest()), ok, PeerValues(qs), Rest())
    {
      qs := [];
      var count;
      ok, count := ReadUint32();
      if !ok { return; }
      ghost var start := Rest();
      ListStarts(PEER_INFO, count, start);
      while |qs| < count
        invariant Valid() && ok
        invariant ListSoFar(PEER_INFO, count, start, PeerValues(qs).parts, Rest())
      {
        ghost var rest := Rest();
        var q;
        ok, q := ReadPeerInfo();
        ListGrows(PEER_INFO, count, start, PeerValues(qs).parts, rest, ok, PeerValue(q), Rest());
        if !ok { return; }
        assert PeerValues(qs + [q]).parts == PeerValues(qs).parts + [PeerValue(q)];
        qs := qs + [q];
      }
    }

    method ReadService() returns (ok: bool, tcpPort: uint16, vllmPort: uint16, isHealthy: bool)
      requires Valid()
      modifies this`p
      ensures Valid() && Reads(SERVICE, old(Rest()), ok, Parts([Num(tcpPort), Num(vllmPort), Truth(isHealthy)]), Rest())
    {
      tcpPort, vllmPort, isHealthy := 0, 0, false;
      ghost var b0 := Rest();
      ok, tcpPort := ReadUint16();
      ghost var k0, b1 := ok, Rest();
      if ok { ok, vllmPort := ReadUint16(); }
      ghost var k1, b2 := ok, Rest();
      if ok { ok, isHealthy := ReadFlag(); }
      ThreeRead(SERVICE, b0,
        Num(tcpPort), k0, b1,
        Num(vllmPort), k1, b2,
        Truth(isHealthy), ok, Rest());
    }

    method ReadIdentity() returns (ok: bool,
      nodeId: Bytes, role: byte, ipAddress: Bytes, tcpPort: uint16, vllmPort: uint16, isHealthy: bool)
      requires Valid()
      modifies this`p
      ensures Valid()
      ensures Reads(IDENTITY, old(Rest()), ok, Parts([Text(nodeId), Num(role), Text(ipAddress),
        Parts([Num(tcpPort), Num(vllmPort), Truth(isHealthy)])]), Rest())
    {
      nodeId, role, ipAddress, tcpPort, vllmPort, isHealthy := [], 0, [], 0, 0, false;
      ghost var b0 := Rest();
      ok, nodeId := ReadString();
      ghost var k0, b1 := ok, Rest();
      if ok { ok, role := ReadUint8(); }
      ghost var k1, b2 := ok, Rest();
      if ok { ok, ipAddress := ReadString(); }
      ghost var k2, b3 := ok, Rest();
      if ok { ok, tcpPort, vllmPort, isHealthy := ReadService(); }
      FourRead(IDENTITY, b0,
        Text(nodeId), k0, b1,
        Num(role), k1, b2,
        Text(ipAddress), k2, b3,
        Parts([Num(tcpPort), Num(vllmPort), Truth(isHealthy)]), ok, Rest());
    }

    method ReadGpu() returns (ok: bool,
      gpuId: int32, gpuName: Bytes, gpuNuma: int32, gpuMemBytes: uint64)
      requires Valid()
      modifies this`p
      ensures Valid() && Reads(GPU, old(Rest()), ok,
        Parts([Num(ToUnsigned(gpuId)), Text(gpuName), Num(ToUnsigned(gpuNuma)), Num(gpuMemBytes)]), Rest())
    {
      gpuId, gpuName, gpuNuma, gpuMemBytes := 0, [], 0, 0;
      ghost var b0 := Rest();
      ok, gpuId := ReadInt();
      ghost var k0, b1 := ok, Rest();
      if ok { ok, gpuName := ReadString(); }
      ghost var k1, b2 := ok, Rest();
      if ok { ok, gpuNuma := ReadInt(); }
      ghost var k2, b3 := ok, Rest();
      if ok { ok, gpuMemBytes := ReadUint64(); }
      FourRead(GPU, b0,
        Num(ToUnsigned(gpuId)), k0, b1,
        Text(gpuName), k1, b2,
        Num(ToUnsigned(gpuNuma)), k2, b3,
        Num(gpuMemBytes), ok, Rest());
    }

    method ReadHca() returns (ok: bool,
      ibDevName: Bytes, ibPort: int32, ibNuma: int32, ibSpeedGbps: uint64)
      requires Valid()
      modifies this`p
      ensures Valid() && Reads(HCA, old(Rest()), ok,
        Parts([Text(ibDevName), Num(ToUnsigned(ibPort)), Num(ToUnsigned(ibNuma)), Num(ibSpeedGbps)]), Rest())
    {
      ibDevName, ibPort, ibNuma, ibSpeedGbps := [], 0, 0, 0;
      ghost var b0 := Rest();
      ok, ibDevName := ReadString();
      ghost var k0, b1 := ok, Rest();
      if ok { ok, ibPort := ReadInt(); }
      ghost var k1, b2 := ok, Rest();
      if ok { ok, ibNuma := ReadInt(); }
      ghost var k2, b3 := ok, Rest();
      if ok { ok, ibSpeedGbps := ReadUint64(); }
      FourRead(HCA, b0,
        Text(ibDevName), k0, b1,
        Num(ToUnsigned(ibPort)), k1, b2,
        Num(ToUnsigned(ibNuma)), k2, b3,
        Num(ibSpeedGbps), ok, Rest());
    }

    method ReadRegion() returns (ok: bool,
      gpuBaseAddr: uint64, lkey: uint64, rkey: uint64, memoryPoolSize: uint64)
      requires Valid()
      modifies this`p
      ensures Valid() && Reads(REGION, old(Rest()), ok,
        Parts([Num(gpuBaseAddr), Num(lkey), Num(rkey), Num(memoryPoolSize)]), Rest())
    {
      gpuBaseAddr, lkey, rkey, memoryPoolSize := 0, 0, 0, 0;
      ghost var b0 := Rest();
      ok, gpuBaseAddr := ReadUint64();
      ghost var k0, b1 := ok, Rest();
      if ok { ok, lkey := ReadUint64(); }
      ghost var k1, b2 := ok, Rest();
      if ok { ok, rkey := ReadUint64(); }
      ghost var k2, b3 := ok, Rest();
      if ok { ok, memoryPoolSize := ReadUint64(); }
      FourRead(REGION, b0,
        Num(gpuBaseAddr), k0, b1,
        Num(lkey), k1, b2,
        Num(rkey), k2, b3,
        Num(memoryPoolSize), ok, Rest());
    }

    method ReadNodeInfo() returns (ok: bool, n: NodeInfo)
      requires Valid()
      modifies this`p
      ensures Valid() && Reads(NODE_INFO, old(Rest()), ok, NodeValue(n), Rest())
    {
      var nodeId: Bytes, role: byte, ipAddress: Bytes := [], 0, [];
      var tcpPort: uint16, vllmPort: uint16, isHealthy: bool := 0, 0, false;
      var gpuId: int32, gpuName: Bytes, gpuNuma: int32, gpuMemBytes: uint64 := 0, [], 0, 0;
      var ibDevName: Bytes, ibPort: int32, ibNuma: int32, ibSpeedGbps: uint64 := [], 0, 0, 0;
      var gpuBaseAddr: uint64, lkey: uint64, rkey: uint64, memoryPoolSize: uint64 := 0, 0, 0, 0;
      var qmaps: seq<PeerInfo> := [];
      ghost var b0 := Rest();
      ok, nodeId, role, ipAddress, tcpPort, vllmPort, isHealthy := ReadIdentity();
      ghost var k0, b1 := ok, Rest();
      if ok { ok, gpuId, gpuName, gpuNuma, gpuMemBytes := ReadGpu(); }
      ghost var k1, b2 := ok, Rest();
      if ok { ok, ibDevName, ibPort, ibNuma, ibSpeedGbps := ReadHca(); }
      ghost var k2, b3 := ok, Rest();
      if ok { ok, gpuBaseAddr, lkey, rkey, memoryPoolSize := ReadRegion(); }
      ghost var k3, b4 := ok, Rest();
      if ok { ok, qmaps := ReadQmaps(); }
      FiveRead(NODE_INFO, b0,
        Parts([Text(nodeId), Num(role), Text(ipAddress),
          Parts([Num(tcpPort), Num(vllmPort), Truth(isHealthy)])]), k0, b1,
        Parts([Num(ToUnsigned(gpuId)), Text(gpuName), Num(ToUnsigned(gpuNuma)), Num(gpuMemBytes)]), k1, b2,
        Parts([Text(ibDevName), Num(ToUnsigned(ibPort)), Num(ToUnsigned(ibNuma)), Num(ibSpeedGbps)]), k2, b3,
        Parts([Num(gpuBaseAddr), Num(lkey), Num(rkey), Num(memoryPoolSize)]), k3, b4,
        PeerValues(qmaps), ok, Rest());
      n := NodeInfo(
        nodeId, role, ipAddress, tcpPort, vllmPort, isHealthy, gpuId, gpuName, gpuNuma, gpuMemBytes,
        ibDevName, ibPort, ibNuma, ibSpeedGbps, gpuBaseAddr, lkey, rkey, memoryPoolSize, qmaps);
    }

    method ReadMembers() returns (ok: bool, ns: seq<NodeInfo>)
      requires Valid()
      modifies this`p
      ensures Valid() && Reads(List(NODE_INFO), old(Rest()), ok, NodeValues(ns), Rest())
    {
      ns := [];
      var count;
      ok, count := ReadUint32();
      if !ok { return; }
      ghost var start := Rest();
      ListStarts(NODE_INFO, count, start);
      while |ns| < count
        invariant Valid() && ok
        invariant ListSoFar(NODE_INFO, count, start, NodeValues(ns).parts, Rest())
      {
        ghost var rest := Rest();
        var n;
        ok, n := ReadNodeInfo();
        ListGrows(NODE_INFO, count, start, NodeValues(ns).parts, rest, ok, NodeValue(n), Rest());
        if !ok { return; }
        assert NodeValues(ns + [n]).parts == NodeValues(ns).parts + [NodeValue(n)];
        ns := ns + [n];
      }
    }

    method ReadRouting() returns (ok: bool,
      requestId: Bytes, prompt: Bytes, maxTokens: int32, prefillNodeId: Bytes, decodeNodeId: Bytes)
      requires Valid()
      modifies this`p
      ensures Valid() && Reads(ROUTING, old(Rest()), ok,
        Parts([Text(requestId), Text(prompt), Num(ToUnsigned(maxTokens)), Text(prefillNodeId), Text(decodeNodeId)]),
        Rest())
    {
      requestId, prompt, maxTokens, prefillNodeId, decodeNodeId := [], [], 0, [], [];
      ghost var b0 := Rest();
      ok, requestId := ReadString();
      ghost var k0, b1 := ok, Rest();
      if ok { ok, prompt := ReadString(); }
      ghost var k1, b2 := ok, Rest();
      if ok { ok, maxTokens := ReadInt(); }
      ghost var k2, b3 := ok, Rest();
      if ok { ok, prefillNodeId := ReadString(); }
      ghost var k3, b4 := ok, Rest();
      if ok { ok, decodeNodeId := ReadString(); }
      FiveRead(ROUTING, b0,
        Text(requestId), k0, b1,
        Text(prompt), k1, b2,
        Num(ToUnsigned(maxTokens)), k2, b3,
        Text(prefillNodeId), k3, b4,
        Text(decodeNodeId), ok, Rest());
    }

    method ReadSlot() returns (ok: bool,
      slotId: int32, slotBaseOffset: uint64)
      requires Valid()
      modifies this`p
      ensures Valid() && Reads(SLOT, old(Rest()), ok, Parts([Num(ToUnsigned(slotId)), Num(slotBaseOffset)]), Rest())
    {
      slotId, slotBaseOffset := 0, 0;
      ghost var b0 := Rest();
      ok, slotId := ReadInt();
      ghost var k0, b1 := ok, Rest();
      if ok { ok, slotBaseOffset := ReadUint64(); }
      TwoRead(SLOT, b0,
        Num(ToUnsigned(slotId)), k0, b1,
        Num(slotBaseOffset), ok, Rest());
    }

    method ReadTimes() returns (ok: bool,
      created: uint64, prefillStart: uint64, prefillDone: uint64, decodeStart: uint64, decodeDone: uint64)
      requires Valid()
      modifies this`p
      ensures Valid() && Reads(TIMES, old(Rest()), ok,
        Parts([Num(created), Num(prefillStart), Num(prefillDone), Num(decodeStart), Num(decodeDone)]), Rest())
    {
      created, prefillStart, prefillDone, decodeStart, decodeDone := 0, 0, 0, 0, 0;
      ghost var b0 := Rest();
      ok, created := ReadUint64();
      ghost var k0, b1 := ok, Rest();
      if ok { ok, prefillStart := ReadUint64(); }
      ghost var k1, b2 := ok, Rest();
      if ok { ok, prefillDone := ReadUint64(); }
      ghost var k2, b3 := ok, Rest();
      if ok { ok, decodeStart := ReadUint64(); }
      ghost var k3, b4 := ok, Rest();
      if ok { ok, decodeDone := ReadUint64(); }
      FiveRead(TIMES, b0,
        Num(created), k0, b1,
        Num(prefillStart), k1, b2,
        Num(prefillDone), k2, b3,
        Num(decodeStart), k3, b4,
        Num(decodeDone), ok, Rest());
    }

    method ReadRequestInfo() returns (ok: bool, r: RequestInfo)
      requires Valid()
      modifies this`p
      ensures Valid() && Reads(REQUEST_INFO, old(Rest()), ok, RequestValue(r), Rest())
    {
      var requestId: Bytes, prompt: Bytes, maxTokens: int32 := [], [], 0;
      var prefillNodeId: Bytes, decodeNodeId: Bytes := [], [];
      var slotId: int32, slotBaseOffset: uint64 := 0, 0;
      var created: uint64, prefillStart: uint64, prefillDone: uint64, decodeStart: uint64,
          decodeDone: uint64 := 0, 0, 0, 0, 0;
      ghost var b0 := Rest();
      ok, requestId, prompt, maxTokens, prefillNodeId, decodeNodeId := ReadRouting();
      ghost var k0, b1 := ok, Rest();
      if ok { ok, slotId, slotBaseOffset := ReadSlot(); }
      ghost var k1, b2 := ok, Rest();
      if ok { ok, created, prefillStart, prefillDone, decodeStart, decodeDone := ReadTimes(); }
      ThreeRead(REQUEST_INFO, b0,
        Parts([Text(requestId), Text(prompt), Num(ToUnsigned(maxTokens)), Text(prefillNodeId), Text(decodeNodeId)]),
        k0, b1,
        Parts([Num(ToUnsigned(slotId)), Num(slotBaseOffset)]), k1, b2,
        Parts([Num(created), Num(prefillStart), Num(prefillDone), Num(decodeStart), Num(decodeDone)]), ok, Rest());
      r := RequestInfo(
        requestId, prompt, maxTokens, prefillNodeId, decodeNodeId, slotId, slotBaseOffset, created,
        prefillStart, prefillDone, decodeStart, decodeDone);
    }

    method ReadHeader() returns (ok: bool,
      kind: byte, status: byte, transactionId: uint64, timestamp: uint64, sourceNodeId: Bytes)
      requires Valid()
      modifies this`p
      ensures Valid() && Reads(HEADER, old(Rest()), ok,
        Parts([Num(kind), Num(status), Num(transactionId), Num(timestamp), Text(sourceNodeId)]), Rest())
    {
      kind, status, transactionId, timestamp, sourceNodeId := 0, 0, 0, 0, [];
      ghost var b0 := Rest();
      ok, kind := ReadUint8();
      ghost var k0, b1 := ok, Rest();
      if ok { ok, status := ReadUint8(); }
      ghost var k1, b2 := ok, Rest();
      if ok { ok, transactionId := ReadUint64(); }
      ghost var k2, b3 := ok, Rest();
      if ok { ok, timestamp := ReadUint64(); }
      ghost var k3, b4 := ok, Rest();
      if ok { ok, sourceNodeId := ReadString(); }
      FiveRead(HEADER, b0,
        Num(kind), k0, b1,
        Num(status), k1, b2,
        Num(transactionId), k2, b3,
        Num(timestamp), k3, b4,
        Text(sourceNodeId), ok, Rest());
    }

    method ReadTrailer() returns (ok: bool,
      errorMessage: Bytes, numLayers: uint32, numTokens: uint32, responseText: Bytes)
      requires Valid()
      modifies this`p
      ensures Valid() && Reads(TRAILER, old(Rest()), ok,
        Parts([Text(errorMessage), Num(numLayers), Num(numTokens), Text(responseText)]), Rest())
    {
      errorMessage, numLayers, numTokens, responseText := [], 0, 0, [];
      ghost var b0 := Rest();
      ok, errorMessage := ReadString();
      ghost var k0, b1 := ok, Rest();
      if ok { ok, numLayers := ReadUint32(); }
      ghost var k1, b2 := ok, Rest();
      if ok { ok, numTokens := ReadUint32(); }
      ghost var k2, b3 := ok, Rest();
      if ok { ok, responseText := ReadString(); }
      FourRead(TRAILER, b0,
        Text(errorMessage), k0, b1,
        Num(numLayers), k1, b2,
        Num(numTokens), k2, b3,
        Text(responseText), ok, Rest());
    }

    method ReadMessage() returns (ok: bool, m: Message)
      requires Valid()
      modifies this`p
      ensures Valid() && Reads(MESSAGE, old(Rest()), ok, MessageValue(m), Rest())
    {
      var kind: byte, status: byte, transactionId: uint64, timestamp: uint64, sourceNodeId: Bytes := 0, 0, 0, 0, [];
      var request: RequestInfo := NO_REQUEST;
      var node: NodeInfo := NO_NODE;
      var members: seq<NodeInfo> := [];
      var errorMessage: Bytes, numLayers: uint32, numTokens: uint32, responseText: Bytes := [], 0, 0, [];
      ghost var b0 := Rest();
      ok, kind, status, transactionId, timestamp, sourceNodeId := ReadHeader();
      ghost var k0, b1 := ok, Rest();
      if ok { ok, request := ReadRequestInfo(); }
      ghost var k1, b2 := ok, Rest();
      if ok { ok, node := ReadNodeInfo(); }
      ghost var k2, b3 := ok, Rest();
      if ok { ok, members := ReadMembers(); }
      ghost var k3, b4 := ok, Rest();
      if ok { ok, errorMessage, numLayers, numTokens, responseText := ReadTrailer(); }
      FiveRead(MESSAGE, b0,
        Parts([Num(kind), Num(status), Num(transactionId), Num(timestamp), Text(sourceNodeId)]), k0, b1,
        RequestValue(request), k1, b2,
        NodeValue(node), k2, b3,
        NodeValues(members), k3, b4,
        Parts([Text(errorMessage), Num(numLayers), Num(numTokens), Text(responseText)]), ok, Rest());
      m := Message(kind, status, transactionId, timestamp, sourceNodeId,
        request, node, members, errorMessage, numLayers, numTokens, responseText);
    }
  }

  /** Bytes after the message are tolerated; nothing is returned for bytes that do not parse. */
  method DeserializeMessage(data: Bytes) returns (m: Option<Message>)
    ensures m == Deserialized(data)
  {
    if data == [] {
      NothingParses();
      return None;
    }
    var cursor := new Cursor(data);
    var ok, msg := cursor.ReadMessage();
    if !ok {
      return None;
    }
    MessageValueIsShaped(msg);
    MessageValueIsInjective(msg, MessageOf(MessageValue(msg)));
    m := Some(msg);
  }

  lemma NothingParses()
    ensures Parse(MESSAGE, []).None?
  {
    assert Parse(U8, []).None?;
    assert ParseParts(HEADER, 0, 5, []).None?;
    assert Parse(HEADER, []).None?;
    assert ParseParts(MESSAGE, 0, 5, []).None?;
  }
}
