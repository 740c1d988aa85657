/** Cluster start: nodes register, the full membership is broadcast, nodes report ready, the orchestrator runs. */
module Bootstrap {
  import opened Basics
  import opened Messages
  import opened Registry

  // ---- The protocol, nodes included ----

  /**
   * sent: nodes with a broadcast on its way; heard: those that handled it; linked: those of them whose queue pairs all
   * connected; reported: those whose report is on its way.
   */
  datatype Cluster = Cluster(
    registered: set<Id>, ready: set<Id>,
    sent: set<Id>, heard: set<Id>, linked: set<Id>, reported: set<Id>, running: bool)

  const START := Cluster({}, {}, {}, {}, {}, {}, false)

  datatype Step =
    | Register(n: Id)
    | Hear(n: Id, exchanged: bool, connected: bool)
    | Ready(n: Id)

  /** Each node registers once, handles a broadcast it was sent, and its one report arrives once. */
  predicate Possible(c: Cluster, step: Step) {
    match step
    case Register(n) => n !in c.registered
    case Hear(n, _, _) => n in c.sent
    case Ready(n) => n in c.reported
  }

  /**
   * A node whose exchange fails leaves by an exception, before it would report; one whose queue pairs fail to connect
   * only logs that, and reports.
   */
  function Next(c: Cluster, expected: int, step: Step): Cluster {
    match step
    case Register(n) =>
      var registered := c.registered + {n};
      c.(registered := registered, sent := if |registered| == expected then registered else c.sent)
    case Hear(n, exchanged, connected) =>
      if !exchanged then c.(sent := c.sent - {n}) else
        c.(sent := c.sent - {n}, heard := c.heard + {n}, reported := c.reported + {n},
           linked := if connected then c.linked + {n} else c.linked)
    case Ready(n) =>
      var ready := if n in c.registered then c.ready + {n} else c.ready;
      c.(ready := ready, reported := c.reported - {n},
         running := c.running || (n in c.registered && |ready| == |c.registered|))
  }

  // ---- The orchestrator's side, in place ----

  class RdmaExchangeTracker {
    const expectedPrefill: int
    const expectedDecode: int
    var registeredNodes: set<Id>
    var registeredPrefill: set<Id>
    var registeredDecode: set<Id>
    var readyNodes: set<Id>

    constructor (expectedPrefill: int, expectedDecode: int)
      ensures this.expectedPrefill == expectedPrefill && this.expectedDecode == expectedDecode
      ensures registeredNodes == {} && registeredPrefill == {} && registeredDecode == {} && readyNodes == {}
    {
      this.expectedPrefill, this.expectedDecode := expectedPrefill, expectedDecode;
      registeredNodes, registeredPrefill, registeredDecode, readyNodes := {}, {}, {}, {};
    }

    /** A node registers once: registering again would wait for a lock this call holds. */
    method RegisterNode(n: Id, role: byte) returns (all: bool)
      requires n !in registeredNodes
      modifies this
      ensures registeredNodes == old(registeredNodes) + {n} && readyNodes == old(readyNodes)
      ensures registeredPrefill == if role == PREFILL then old(registeredPrefill) + {n} else old(registeredPrefill)
      ensures registeredDecode == if role == DECODE then old(registeredDecode) + {n} else old(registeredDecode)
      ensures all <==> |registeredPrefill| == expectedPrefill && |registeredDecode| == expectedDecode
    {
      registeredNodes := registeredNodes + {n};
      if role == PREFILL {
        registeredPrefill := registeredPrefill + {n};
      } else if role == DECODE {
        registeredDecode := registeredDecode + {n};
      }
      all := |registeredPrefill| == expectedPrefill && |registeredDecode| == expectedDecode;
    }

    /** A report from a stranger is ignored; a second report would wait for a lock this call holds. */
    method MarkNodeReady(n: Id) returns (allReady: bool)
      requires n !in readyNodes
      modifies this`readyNodes
      ensures readyNodes == old(readyNodes) + if n in registeredNodes then {n} else {}
      ensures allReady <==> n in registeredNodes && |readyNodes| == |registeredNodes|
    {
      if n !in registeredNodes { return false; }
      readyNodes := readyNodes + {n};
      allReady := |readyNodes| == |registeredNodes|;
    }
  }

  datatype Broadcast = Broadcast(fd: int, members: seq<NodeInfo>)

  /** One message for each listed node that has a socket. */
  function Broadcasts(list: seq<NodeInfo>, nodesFd: map<Id, int>, members: seq<NodeInfo>): seq<Broadcast> {
    if list == [] then [] else
      var last := list[|list| - 1].nodeId;
      Broadcasts(list[..|list| - 1], nodesFd, members)
      + if last in nodesFd then [Broadcast(nodesFd[last], members)] else []
  }

  lemma {:induction false} EveryNodeIsSent(list: seq<NodeInfo>, nodesFd: map<Id, int>, members: seq<NodeInfo>)
    requires forall i :: 0 <= i < |list| ==> list[i].nodeId in nodesFd
    ensures |Broadcasts(list, nodesFd, members)| == |list|
    ensures forall i :: 0 <= i < |list| ==>
      Broadcasts(list, nodesFd, members)[i] == Broadcast(nodesFd[list[i].nodeId], members)
  {
    if list == [] {
    } else {
      EveryNodeIsSent(list[..|list| - 1], nodesFd, members);
    }
  }

  /** Each member with a socket is sent the whole list. */
  lemma EveryMemberIsReached(list: seq<NodeInfo>, nodes: map<Id, NodeInfo>, nodesFd: map<Id, int>, n: Id)
    requires Lists(list, nodes, nodes.Keys) && nodes.Keys <= nodesFd.Keys && n in nodes
    ensures |Broadcasts(list, nodesFd, list)| == |list|
    ensures Broadcast(nodesFd[n], list) in Broadcasts(list, nodesFd, list)
  {
    EveryNodeIsSent(list, nodesFd, list);
    var i :| 0 <= i < |list| && list[i].nodeId == n;
    assert Broadcasts(list, nodesFd, list)[i] == Broadcast(nodesFd[n], list);
  }

  class OrchestratorBootstrap {
    const registry: NodeRegistry
    const exchange: RdmaExchangeTracker
    const expectedPrefill: int
    const expectedDecode: int
    var outbox: seq<Broadcast>
    var running: bool

    constructor (registry: NodeRegistry, exchange: RdmaExchangeTracker)
      requires registry.nodes == map[] && exchange.registeredNodes == {}
      ensures this.registry == registry && this.exchange == exchange && outbox == [] && !running && Valid()
      ensures expectedPrefill == exchange.expectedPrefill && expectedDecode == exchange.expectedDecode
    {
      this.registry, this.exchange := registry, exchange;
      expectedPrefill, expectedDecode := exchange.expectedPrefill, exchange.expectedDecode;
      outbox, running := [], false;
    }

    /** Registry, socket table and exchange tracker know the same nodes. */
    ghost predicate Valid()
      reads this, registry, exchange
    {
      && registry.Valid()
      && registry.nodes.Keys == exchange.registeredNodes
      && registry.nodes.Keys <= registry.nodesFd.Keys
    }

    /** The orchestrator's part of the protocol state. */
    ghost function Side(): Cluster
      reads this, exchange
    {
      Cluster(exchange.registeredNodes, exchange.readyNodes, {}, {}, {}, {}, running)
    }

    ghost function Expected(): int {
      expectedPrefill + expectedDecode
    }

    method BroadcastMembers(all: seq<NodeInfo>)
      modifies this`outbox
      ensures outbox == old(outbox) + Broadcasts(all, registry.nodesFd, all)
    {
      for i := 0 to |all|
        invariant outbox == old(outbox) + Broadcasts(all[..i], registry.nodesFd, all)
      {
        assert all[..i + 1][..i] == all[..i];
        var nodeFd := registry.GetNodeFd(all[i].nodeId);
        if nodeFd.Some? {
          outbox := outbox + [Broadcast(nodeFd.value, all)];
        }
      }
      assert all[..|all|] == all;
    }

    method RecordNode(fd: int, node: NodeInfo)
      requires Valid() && node.nodeId !in exchange.registeredNodes
      modifies registry, exchange
      ensures Valid()
      ensures registry.nodes == old(registry.nodes)[node.nodeId := node]
      ensures registry.nodesFd == old(registry.nodesFd)[node.nodeId := fd]
      ensures Side() == Next(old(Side()), Expected(), Register(node.nodeId)).(sent := {})
      ensures Next(old(Side()), Expected(), Register(node.nodeId)).sent
        == if |registry.nodes.Keys| == Expected() then registry.nodes.Keys else {}
    {
      registry.AddNode(node);
      registry.AddNodeFd(node.nodeId, fd);
      var _ := exchange.RegisterNode(node.nodeId, node.role);
    }

    method BroadcastIfComplete() returns (ghost members: seq<NodeInfo>)
      requires registry.Valid()
      modifies this`outbox
      ensures Lists(members, registry.nodes, registry.nodes.Keys)
      ensures outbox == if |registry.nodes.Keys| == Expected()
        then old(outbox) + Broadcasts(members, registry.nodesFd, members)
        else old(outbox)
    {
      var total := registry.GetTotalRegisteredNodes();
      var all := registry.GetAllNodes();
      members := all;
      if total == expectedPrefill + expectedDecode {
        BroadcastMembers(all);
      }
    }

    /** The registration that makes the total the expected one sends every node the whole membership; no other sends. */
    method HandleProcessRdmaRegistration(fd: int, node: NodeInfo) returns (ghost members: seq<NodeInfo>)
      requires Valid() && node.nodeId !in exchange.registeredNodes
      modifies this`outbox, registry, exchange
      ensures Valid()
      ensures registry.nodes == old(registry.nodes)[node.nodeId := node]
      ensures registry.nodesFd == old(registry.nodesFd)[node.nodeId := fd]
      ensures Side() == Next(old(Side()), Expected(), Register(node.nodeId)).(sent := {})
      ensures Lists(members, registry.nodes, registry.nodes.Keys)
      ensures Next(old(Side()), Expected(), Register(node.nodeId)).sent
        == if |registry.nodes.Keys| == Expected() then registry.nodes.Keys else {}
      ensures outbox == if |registry.nodes.Keys| == Expected()
        then old(outbox) + Broadcasts(members, registry.nodesFd, members)
        else old(outbox)
    {
      RecordNode(fd, node);
      members := BroadcastIfComplete();
    }

    method HandleReady(n: Id)
      requires Valid() && n !in exchange.readyNodes
      modifies this`running, exchange`readyNodes
      ensures Valid()
      ensures Side() == Next(old(Side()), Expected(), Ready(n))
    {
      var allReady := exchange.MarkNodeReady(n);
      if allReady {
        running := true;
      }
    }
  }
}
