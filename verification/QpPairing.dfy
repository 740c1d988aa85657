/** Filling the queue-pair table from the broadcast, and connecting: both ends of a pair must point at each other. */
module QpPairing {
  import opened Basics
  import opened Messages

  /** The peer's entry that was made for us: the first one, if any. */
  function EntryFor(qmaps: seq<PeerInfo>, id: Id): Option<PeerInfo> {
    if qmaps == [] then None
    else if qmaps[0].peerNodeId == id then Some(qmaps[0])
    else EntryFor(qmaps[1..], id)
  }

  /** The peer's local side becomes our remote side. */
  function FilledWith(q: PeerInfo, theirs: PeerInfo, peer: NodeInfo): PeerInfo {
    q.(remoteQpNum := theirs.localQpNum, remoteLid := theirs.localLid, remoteGid := theirs.localGid,
       remotePsn := theirs.localPsn, remoteRkey := peer.rkey, remoteAddr := peer.gpuBaseAddr)
  }

  predicate Concerns(self: Id, q: PeerInfo, peer: NodeInfo) {
    peer.nodeId != self && q.peerNodeId == peer.nodeId
  }

  /** What stops the exchange: the peer made no entry for us, or one with QP number 0. */
  predicate Unusable(self: Id, peer: NodeInfo) {
    EntryFor(peer.qmaps, self).None? || EntryFor(peer.qmaps, self).value.localQpNum == 0
  }

  function FilledFrom(self: Id, q: PeerInfo, peer: NodeInfo): PeerInfo {
    if Concerns(self, q, peer) && EntryFor(peer.qmaps, self).Some?
    then FilledWith(q, EntryFor(peer.qmaps, self).value, peer)
    else q
  }

  /** One entry after the whole broadcast. */
  function Filled(self: Id, q: PeerInfo, members: seq<NodeInfo>): PeerInfo {
    if members == [] then q else
      FilledFrom(self, Filled(self, q, members[..|members| - 1]), members[|members| - 1])
  }

  predicate SameLocal(q: PeerInfo, p: PeerInfo) {
    && q.peerNodeId == p.peerNodeId
    && q.localQpNum == p.localQpNum && q.localLid == p.localLid && q.localGid == p.localGid && q.localPsn == p.localPsn
  }

  /** The broadcast concerns some entry of the table through a peer it cannot be filled from. */
  ghost predicate Fails(self: Id, qmaps: seq<PeerInfo>, members: seq<NodeInfo>) {
    exists k, i ::
      0 <= k < |members| && 0 <= i < |qmaps| && Concerns(self, qmaps[i], members[k]) && Unusable(self, members[k])
  }

  /** The table of self after the whole broadcast, entry by entry. */
  ghost predicate Exchanged(self: Id, own: seq<PeerInfo>, members: seq<NodeInfo>, qmaps: seq<PeerInfo>) {
    |qmaps| == |own| && forall i :: 0 <= i < |qmaps| ==> qmaps[i] == Filled(self, own[i], members)
  }

  lemma {:induction false} EntryForIsFirst(qmaps: seq<PeerInfo>, id: Id, k: nat)
    requires k <= |qmaps| && forall i :: 0 <= i < k ==> qmaps[i].peerNodeId != id
    requires k < |qmaps| ==> qmaps[k].peerNodeId == id
    ensures EntryFor(qmaps, id) == if k < |qmaps| then Some(qmaps[k]) else None
  {
    if k > 0 {
      EntryForIsFirst(qmaps[1..], id, k - 1);
    }
  }

  lemma {:induction false} FilledKeepsLocal(self: Id, q: PeerInfo, members: seq<NodeInfo>)
    ensures SameLocal(q, Filled(self, q, members))
  {
    if members == [] {
    } else {
      FilledKeepsLocal(self, q, members[..|members| - 1]);
    }
  }

  /** Position i is the first entry for id. */
  ghost predicate FirstEntry(qmaps: seq<PeerInfo>, id: Id, i: int) {
    0 <= i < |qmaps| && qmaps[i].peerNodeId == id && forall j :: 0 <= j < i ==> qmaps[j].peerNodeId != id
  }

  lemma FirstEntryOf(qmaps: seq<PeerInfo>, id: Id, i: nat) returns (k: nat)
    requires i < |qmaps| && qmaps[i].peerNodeId == id
    ensures FirstEntry(qmaps, id, k) && k <= i
  {
    k := 0;
    while qmaps[k].peerNodeId != id
      invariant k <= i && forall j :: 0 <= j < k ==> qmaps[j].peerNodeId != id
      decreases i - k
    {
      k := k + 1;
    }
  }

  /** The first entry the peer made for id, if it made one, has a QP number. */
  ghost predicate HasUsable(peer: NodeInfo, id: Id) {
    exists j :: FirstEntry(peer.qmaps, id, j) && peer.qmaps[j].localQpNum != 0
  }

  lemma UsableIff(self: Id, peer: NodeInfo)
    ensures HasUsable(peer, self) <==> !Unusable(self, peer)
  {
    if i :| 0 <= i < |peer.qmaps| && peer.qmaps[i].peerNodeId == self {
      var j := FirstEntryOf(peer.qmaps, self, i);
      EntryForIsFirst(peer.qmaps, self, j);
    } else {
      EntryForIsFirst(peer.qmaps, self, |peer.qmaps|);
    }
  }

  /** Every peer that an entry of the table is for can be used. */
  ghost predicate AllUsable(self: Id, qmaps: seq<PeerInfo>, members: seq<NodeInfo>) {
    forall k, i ::
      0 <= k < |members| && 0 <= i < |qmaps| && members[k].nodeId != self && qmaps[i].peerNodeId == members[k].nodeId
      ==> HasUsable(members[k], self)
  }

  lemma AllUsableIff(self: Id, qmaps: seq<PeerInfo>, members: seq<NodeInfo>)
    ensures AllUsable(self, qmaps, members) <==> !Fails(self, qmaps, members)
  {
    forall k | 0 <= k < |members| ensures HasUsable(members[k], self) <==> !Unusable(self, members[k]) {
      UsableIff(self, members[k]);
    }
  }

  class QpTable {
    const self: Id
    var qmaps: seq<PeerInfo>

    constructor (self: Id, qmaps: seq<PeerInfo>)
      ensures this.self == self && this.qmaps == qmaps
    {
      this.self, this.qmaps := self, qmaps;
    }

    /** The search of the peer's table for the entry made for us. */
    method FindOurs(theirs: seq<PeerInfo>) returns (entry: Option<PeerInfo>)
      ensures entry == EntryFor(theirs, self)
    {
      for i := 0 to |theirs|
        invariant forall j :: 0 <= j < i ==> theirs[j].peerNodeId != self
      {
        if theirs[i].peerNodeId == self {
          EntryForIsFirst(theirs, self, i);
          return Some(theirs[i]);
        }
      }
      EntryForIsFirst(theirs, self, |theirs|);
      entry := None;
    }

    /** Fills the entries that concern one peer; stops at the first it cannot fill. */
    method FillFromPeer(peer: NodeInfo) returns (ok: bool)
      requires peer.nodeId != self
      modifies this`qmaps
      ensures |qmaps| == |old(qmaps)|
      ensures ok <==> forall i :: 0 <= i < |qmaps| && Concerns(self, old(qmaps)[i], peer) ==> !Unusable(self, peer)
      ensures ok ==> forall i :: 0 <= i < |qmaps| ==> qmaps[i] == FilledFrom(self, old(qmaps)[i], peer)
      ensures forall i :: 0 <= i < |qmaps| ==> SameLocal(old(qmaps)[i], qmaps[i])
    {
      for i := 0 to |qmaps|
        invariant |qmaps| == |old(qmaps)|
        invariant forall j :: i <= j < |qmaps| ==> qmaps[j] == old(qmaps)[j]
        invariant forall j :: 0 <= j < i ==> qmaps[j] == FilledFrom(self, old(qmaps)[j], peer)
        invariant forall j :: 0 <= j < i && Concerns(self, old(qmaps)[j], peer) ==> !Unusable(self, peer)
      {
        if qmaps[i].peerNodeId == peer.nodeId {
          assert Concerns(self, old(qmaps)[i], peer);
          var entry := FindOurs(peer.qmaps);
          if entry.None? { return false; }
          qmaps := qmaps[i := FilledWith(qmaps[i], entry.value, peer)];
          if qmaps[i].remoteQpNum == 0 { return false; }
        }
      }
      ok := true;
    }

    /** Fills from one member after another; stops at the first it cannot use. */
    method FillFromAll(members: seq<NodeInfo>) returns (ok: bool)
      modifies this`qmaps
      ensures |qmaps| == |old(qmaps)|
      ensures ok <==> !Fails(self, old(qmaps), members)
      ensures ok ==> Exchanged(self, old(qmaps), members, qmaps)
      ensures forall i :: 0 <= i < |qmaps| ==> SameLocal(old(qmaps)[i], qmaps[i])
    {
      for k := 0 to |members|
        invariant |qmaps| == |old(qmaps)|
        invariant forall i :: 0 <= i < |qmaps| ==> qmaps[i] == Filled(self, old(qmaps)[i], members[..k])
        invariant forall i :: 0 <= i < |qmaps| ==> SameLocal(old(qmaps)[i], qmaps[i])
        invariant !Fails(self, old(qmaps), members[..k])
      {
        assert members[..k + 1][..k] == members[..k];
        if members[k].nodeId == self { continue; }
        ok := FillFromPeer(members[k]);
        if !ok { return; }
      }
      assert members[..|members|] == members;
      ok := true;
    }

    /**
     * The exchange succeeds exactly when every peer that an entry is for made a first entry for us, with a QP number;
     * local sides survive it either way.
     */
    method HandleBroadcastMemberInfo(members: seq<NodeInfo>) returns (ok: bool)
      modifies this`qmaps
      ensures |qmaps| == |old(qmaps)|
      ensures ok <==> AllUsable(self, old(qmaps), members)
      ensures ok ==> Exchanged(self, old(qmaps), members, qmaps)
      ensures forall i :: 0 <= i < |qmaps| ==> SameLocal(old(qmaps)[i], qmaps[i])
    {
      AllUsableIff(self, qmaps, members);
      ok := FillFromAll(members);
    }
  }

  // ---- Both ends ----

  ghost predicate UniqueIds(members: seq<NodeInfo>) {
    forall i, j :: 0 <= i < j < |members| ==> members[i].nodeId != members[j].nodeId
  }

  ghost predicate OnlyEntry(qmaps: seq<PeerInfo>, id: Id, i: int) {
    0 <= i < |qmaps| && forall j :: 0 <= j < |qmaps| ==> (qmaps[j].peerNodeId == id <==> j == i)
  }

  /** q's remote side is p's local side on the given node. */
  predicate PointsAt(q: PeerInfo, p: PeerInfo, node: NodeInfo) {
    && q.remoteQpNum == p.localQpNum && q.remoteLid == p.localLid
    && q.remoteGid == p.localGid && q.remotePsn == p.localPsn
    && q.remoteRkey == node.rkey && q.remoteAddr == node.gpuBaseAddr
  }

  /** Only the peer's own message fills an entry, wherever it stands in the list. */
  lemma {:induction false} FilledByItsPeer(self: Id, q: PeerInfo, members: seq<NodeInfo>, b: nat)
    requires UniqueIds(members) && b < |members| && Concerns(self, q, members[b])
    ensures Filled(self, q, members) == FilledFrom(self, q, members[b])
  {
    var before, last := members[..|members| - 1], members[|members| - 1];
    if b == |members| - 1 {
      FilledByNobody(self, q, before);
    } else {
      FilledByItsPeer(self, q, before, b);
    }
  }

  lemma {:induction false} FilledByNobody(self: Id, q: PeerInfo, members: seq<NodeInfo>)
    requires forall k :: 0 <= k < |members| ==> !Concerns(self, q, members[k])
    ensures Filled(self, q, members) == q
  {
    if members == [] {
    } else {
      FilledByNobody(self, q, members[..|members| - 1]);
    }
  }

  /** After the broadcast, each entry for a peer points at the entry that peer made first for us, wherever it stands. */
  lemma PointsAtFirst(members: seq<NodeInfo>, a: nat, b: nat, i: nat, j: nat)
    requires UniqueIds(members) && a < |members| && b < |members| && a != b
    requires i < |members[a].qmaps| && members[a].qmaps[i].peerNodeId == members[b].nodeId
    requires FirstEntry(members[b].qmaps, members[a].nodeId, j)
    ensures PointsAt(Filled(members[a].nodeId, members[a].qmaps[i], members), members[b].qmaps[j], members[b])
  {
    var self, q := members[a].nodeId, members[a].qmaps[i];
    assert self != members[b].nodeId;
    FilledByItsPeer(self, q, members, b);
    EntryForIsFirst(members[b].qmaps, self, j);
  }

  /**
   * Symmetric pairing: nodes that process the same broadcast, with one entry for each other, end up pointing at each
   * other, and neither's local side has changed.
   */
  lemma PairIsSymmetric(members: seq<NodeInfo>, a: nat, b: nat, i: nat, j: nat)
    requires UniqueIds(members) && a < |members| && b < |members| && a != b
    requires OnlyEntry(members[a].qmaps, members[b].nodeId, i) && OnlyEntry(members[b].qmaps, members[a].nodeId, j)
    ensures var p := Filled(members[a].nodeId, members[a].qmaps[i], members);
      var q := Filled(members[b].nodeId, members[b].qmaps[j], members);
      PointsAt(p, q, members[b]) && PointsAt(q, p, members[a])
      && SameLocal(p, members[a].qmaps[i]) && SameLocal(q, members[b].qmaps[j])
  {
    PointsAtFirst(members, a, b, i, j);
    PointsAtFirst(members, b, a, j, i);
    FilledKeepsLocal(members[a].nodeId, members[a].qmaps[i], members);
    FilledKeepsLocal(members[b].nodeId, members[b].qmaps[j], members);
  }

  ghost predicate DistinctQps(qmaps: seq<PeerInfo>) {
    forall i, j :: 0 <= i < j < |qmaps| ==> qmaps[i].localQpNum != qmaps[j].localQpNum
  }

  /** With several entries for one peer, two entries point at each other exactly when each is its table's first. */
  lemma PairedIffBothFirst(members: seq<NodeInfo>, a: nat, b: nat, i: nat, j: nat)
    requires UniqueIds(members) && a < |members| && b < |members| && a != b
    requires DistinctQps(members[a].qmaps) && DistinctQps(members[b].qmaps)
    requires i < |members[a].qmaps| && members[a].qmaps[i].peerNodeId == members[b].nodeId
    requires j < |members[b].qmaps| && members[b].qmaps[j].peerNodeId == members[a].nodeId
    ensures var p := Filled(members[a].nodeId, members[a].qmaps[i], members);
      var q := Filled(members[b].nodeId, members[b].qmaps[j], members);
      (PointsAt(p, q, members[b]) && PointsAt(q, p, members[a]))
      <==> FirstEntry(members[a].qmaps, members[b].nodeId, i) && FirstEntry(members[b].qmaps, members[a].nodeId, j)
  {
    var i0 := FirstEntryOf(members[a].qmaps, members[b].nodeId, i);
    var j0 := FirstEntryOf(members[b].qmaps, members[a].nodeId, j);
    PointsAtFirst(members, a, b, i, j0);
    PointsAtFirst(members, b, a, j, i0);
    FilledKeepsLocal(members[a].nodeId, members[a].qmaps[i], members);
    FilledKeepsLocal(members[b].nodeId, members[b].qmaps[j], members);
  }

  // ---- INIT, RTR, RTS ----

  /**
   * The attributes that the two transitions set from the table (section 10.3.1 of the InfiniBand Architecture
   * Specification, Volume 1).
   */
  datatype Qp =
    | Init
    | Rtr(destQpNum: uint32, rqPsn: uint32, dlid: uint16, dgid: Gid)
    | Rts(destQpNum: uint32, rqPsn: uint32, dlid: uint16, dgid: Gid, sqPsn: uint32)

  function Connected(q: PeerInfo): Qp {
    Rts(q.remoteQpNum, q.remotePsn, q.remoteLid, q.remoteGid, q.localPsn)
  }

  /** There is an entry for the peer and its remote side has been filled. */
  predicate Connectable(qmaps: seq<PeerInfo>, peer: Id) {
    EntryFor(qmaps, peer).Some? && EntryFor(qmaps, peer).value.remoteQpNum != 0
  }

  /** Every queue pair is in RTS with the attributes of its entry. */
  ghost predicate AllConnected(peerQps: map<Id, Qp>, qmaps: seq<PeerInfo>) {
    forall id :: id in peerQps ==> EntryFor(qmaps, id).Some? && peerQps[id] == Connected(EntryFor(qmaps, id).value)
  }

  class RdmaEngine {
    const table: QpTable
    var peerQps: map<Id, Qp>

    constructor (table: QpTable, peers: set<Id>)
      ensures this.table == table && peerQps == map id | id in peers :: Init
    {
      this.table := table;
      peerQps := map id | id in peers :: Init;
    }

    method FindPeerInfo(peer: Id) returns (info: Option<PeerInfo>)
      ensures info == EntryFor(table.qmaps, peer)
    {
      for i := 0 to |table.qmaps|
        invariant forall j :: 0 <= j < i ==> table.qmaps[j].peerNodeId != peer
      {
        if table.qmaps[i].peerNodeId == peer {
          EntryForIsFirst(table.qmaps, peer, i);
          return Some(table.qmaps[i]);
        }
      }
      EntryForIsFirst(table.qmaps, peer, |table.qmaps|);
      info := None;
    }

    /** rtrOk and rtsOk: whether the verbs layer accepts the two transitions. */
    method ConnectQpToPeer(peer: Id, rtrOk: bool, rtsOk: bool) returns (ok: bool)
      requires peer in peerQps
      modifies this`peerQps
      ensures forall id :: id in old(peerQps) && id != peer ==> id in peerQps && peerQps[id] == old(peerQps)[id]
      ensures peerQps.Keys == old(peerQps).Keys
      ensures ok <==> Connectable(table.qmaps, peer) && rtrOk && rtsOk
      ensures ok ==> peerQps[peer] == Connected(EntryFor(table.qmaps, peer).value)
      ensures !Connectable(table.qmaps, peer) || !rtrOk ==> peerQps == old(peerQps)
      ensures Connectable(table.qmaps, peer) && rtrOk && !rtsOk ==>
        var q := EntryFor(table.qmaps, peer).value;
        peerQps[peer] == Rtr(q.remoteQpNum, q.remotePsn, q.remoteLid, q.remoteGid)
    {
      var info := FindPeerInfo(peer);
      if info.None? || info.value.remoteQpNum == 0 { return false; }
      var q := info.value;
      if !rtrOk { return false; }
      peerQps := peerQps[peer := Rtr(q.remoteQpNum, q.remotePsn, q.remoteLid, q.remoteGid)];
      if !rtsOk { return false; }
      peerQps := peerQps[peer := Rts(q.remoteQpNum, q.remotePsn, q.remoteLid, q.remoteGid, q.localPsn)];
      ok := true;
    }

    /** Success means every queue pair is in RTS with the attributes of its table entry. */
    method ConnectAllQps(rtrOk: set<Id>, rtsOk: set<Id>) returns (ok: bool)
      modifies this`peerQps
      ensures peerQps.Keys == old(peerQps).Keys
      ensures ok <==> forall id :: id in peerQps ==>
        Connectable(table.qmaps, id) && id in rtrOk && id in rtsOk
      ensures ok ==> AllConnected(peerQps, table.qmaps)
    {
      var rest := peerQps.Keys;
      while rest != {}
        invariant peerQps.Keys == old(peerQps).Keys && rest <= peerQps.Keys
        invariant forall id :: id in peerQps.Keys - rest ==>
          Connectable(table.qmaps, id) && id in rtrOk && id in rtsOk
          && peerQps[id] == Connected(EntryFor(table.qmaps, id).value)
      {
        var id :| id in rest;
        ok := ConnectQpToPeer(id, id in rtrOk, id in rtsOk);
        if !ok { return; }
        rest := rest - {id};
      }
      ok := true;
    }
  }

  predicate EndsAgree(x: Qp, y: Qp, p: PeerInfo, q: PeerInfo) {
    && x.Rts? && y.Rts? && x.rqPsn == y.sqPsn && y.rqPsn == x.sqPsn
    && x.destQpNum == q.localQpNum && y.destQpNum == p.localQpNum
    && x.dlid == q.localLid && y.dlid == p.localLid && x.dgid == q.localGid && y.dgid == p.localGid
  }

  /** Two filled entries connect to ends that agree: packet numbers match and each addresses the other. */
  lemma ConnectedEndsAgree(members: seq<NodeInfo>, a: nat, b: nat, i: nat, j: nat)
    requires UniqueIds(members) && a < |members| && b < |members| && a != b
    requires OnlyEntry(members[a].qmaps, members[b].nodeId, i) && OnlyEntry(members[b].qmaps, members[a].nodeId, j)
    ensures EndsAgree(Connected(Filled(members[a].nodeId, members[a].qmaps[i], members)),
                      Connected(Filled(members[b].nodeId, members[b].qmaps[j], members)),
                      members[a].qmaps[i], members[b].qmaps[j])
  {
    PairIsSymmetric(members, a, b, i, j);
  }

  /** The entry that find_peer_info returns in the filled table is the one entry for that peer. */
  lemma OnlyEntryIsFound(self: Id, own: seq<PeerInfo>, members: seq<NodeInfo>, qmaps: seq<PeerInfo>, peer: Id, i: nat)
    requires Exchanged(self, own, members, qmaps) && OnlyEntry(own, peer, i)
    ensures EntryFor(qmaps, peer) == Some(Filled(self, own[i], members))
  {
    forall k | 0 <= k < |qmaps| ensures qmaps[k].peerNodeId == own[k].peerNodeId {
      FilledKeepsLocal(self, own[k], members);
    }
    EntryForIsFirst(qmaps, peer, i);
  }

  /**
   * When both nodes have handled the broadcast and connected all their queue pairs, the queue pair each holds for the
   * other agrees with the other's.
   */
  lemma EnginesAgree(members: seq<NodeInfo>, a: nat, b: nat, i: nat, j: nat,
    qmapsA: seq<PeerInfo>, qpsA: map<Id, Qp>, qmapsB: seq<PeerInfo>, qpsB: map<Id, Qp>)
    requires UniqueIds(members) && a < |members| && b < |members| && a != b
    requires OnlyEntry(members[a].qmaps, members[b].nodeId, i) && OnlyEntry(members[b].qmaps, members[a].nodeId, j)
    requires Exchanged(members[a].nodeId, members[a].qmaps, members, qmapsA) && AllConnected(qpsA, qmapsA)
    requires Exchanged(members[b].nodeId, members[b].qmaps, members, qmapsB) && AllConnected(qpsB, qmapsB)
    requires members[b].nodeId in qpsA && members[a].nodeId in qpsB
    ensures EndsAgree(qpsA[members[b].nodeId], qpsB[members[a].nodeId], members[a].qmaps[i], members[b].qmaps[j])
  {
    OnlyEntryIsFound(members[a].nodeId, members[a].qmaps, members, qmapsA, members[b].nodeId, i);
    OnlyEntryIsFound(members[b].nodeId, members[b].qmaps, members, qmapsB, members[a].nodeId, j);
    ConnectedEndsAgree(members, a, b, i, j);
  }
}
