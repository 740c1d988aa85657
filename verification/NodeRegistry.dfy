/** The orchestrator's registry of nodes and of the sockets that reach them. */
module Registry {
  import opened Basics
  import opened Messages

  /** The ids of the healthy nodes in a role. */
  function HealthyIn(nodes: map<Id, NodeInfo>, role: byte): set<Id> {
    set id | id in nodes && nodes[id].role == role && nodes[id].isHealthy
  }

  /** list holds the nodes whose ids are in ids, each once, in whatever order the hash map yields them. */
  ghost predicate Lists(list: seq<NodeInfo>, nodes: map<Id, NodeInfo>, ids: set<Id>) {
    && (forall i :: 0 <= i < |list| ==>
          list[i].nodeId in ids && list[i].nodeId in nodes && list[i] == nodes[list[i].nodeId])
    && (forall i, j :: 0 <= i < j < |list| ==> list[i].nodeId != list[j].nodeId)
    && (forall id :: id in ids ==> exists i :: 0 <= i < |list| && list[i].nodeId == id)
  }

  lemma ListExtended(list: seq<NodeInfo>, nodes: map<Id, NodeInfo>, ids: set<Id>, id: Id)
    requires Lists(list, nodes, ids) && id in nodes && nodes[id].nodeId == id && id !in ids
    ensures Lists(list + [nodes[id]], nodes, ids + {id})
  {
    var longer := list + [nodes[id]];
    assert longer[|list|].nodeId == id;
    forall x | x in ids ensures exists i :: 0 <= i < |longer| && longer[i].nodeId == x {
      var i :| 0 <= i < |list| && list[i].nodeId == x;
      assert longer[i].nodeId == x;
    }
  }

  lemma ListedIff(list: seq<NodeInfo>, nodes: map<Id, NodeInfo>, ids: set<Id>)
    requires Lists(list, nodes, ids)
    ensures forall n: NodeInfo :: n in list <==> n.nodeId in ids && n.nodeId in nodes && nodes[n.nodeId] == n
  {
    forall n: NodeInfo | n.nodeId in ids && n.nodeId in nodes && nodes[n.nodeId] == n ensures n in list {
      var i :| 0 <= i < |list| && list[i].nodeId == n.nodeId;
      assert list[i] == n;
    }
  }

  lemma NoneListed(nodes: map<Id, NodeInfo>, ids: set<Id>)
    requires Lists([], nodes, ids)
    ensures ids == {}
  {
  }

  class NodeRegistry {
    var nodes: map<Id, NodeInfo>
    var nodesFd: map<Id, int>

    constructor ()
      ensures nodes == map[] && nodesFd == map[]
    {
      nodes, nodesFd := map[], map[];
    }

    ghost predicate Valid()
      reads this
    {
      forall id :: id in nodes ==> nodes[id].nodeId == id
    }

    method AddNode(node: NodeInfo)
      requires Valid()
      modifies this`nodes
      ensures Valid() && nodes == old(nodes)[node.nodeId := node]
    {
      nodes := nodes[node.nodeId := node];
    }

    method AddNodeFd(nodeId: Id, fd: int)
      modifies this`nodesFd
      ensures nodesFd == old(nodesFd)[nodeId := fd]
    {
      nodesFd := nodesFd[nodeId := fd];
    }

    method GetNodeFd(nodeId: Id) returns (fd: Option<int>)
      ensures fd.Some? <==> nodeId in nodesFd
      ensures fd.Some? ==> fd.value == nodesFd[nodeId]
    {
      fd := if nodeId in nodesFd then Some(nodesFd[nodeId]) else None;
    }

    method GetTotalRegisteredNodes() returns (n: nat)
      ensures n == |nodes.Keys|
    {
      n := |nodes|;
    }

    method GetAllNodes() returns (all: seq<NodeInfo>)
      requires Valid()
      ensures Lists(all, nodes, nodes.Keys)
      ensures forall n: NodeInfo :: n in all <==> n.nodeId in nodes && nodes[n.nodeId] == n
    {
      all := [];
      var rest := nodes.Keys;
      while rest != {}
        invariant rest <= nodes.Keys && Lists(all, nodes, nodes.Keys - rest)
      {
        var id :| id in rest;
        ListExtended(all, nodes, nodes.Keys - rest, id);
        assert nodes.Keys - (rest - {id}) == (nodes.Keys - rest) + {id};
        all := all + [nodes[id]];
        rest := rest - {id};
      }
      assert nodes.Keys - rest == nodes.Keys;
      ListedIff(all, nodes, nodes.Keys);
    }

    method GetHealthyNodes(role: byte) returns (healthy: seq<NodeInfo>)
      requires Valid()
      ensures Lists(healthy, nodes, HealthyIn(nodes, role))
      ensures forall n: NodeInfo :: n in healthy <==>
        n.nodeId in nodes && nodes[n.nodeId] == n && n.role == role && n.isHealthy
    {
      healthy := [];
      var rest := nodes.Keys;
      while rest != {}
        invariant rest <= nodes.Keys && Lists(healthy, nodes, HealthyIn(nodes, role) - rest)
      {
        var id :| id in rest;
        if nodes[id].role == role && nodes[id].isHealthy {
          ListExtended(healthy, nodes, HealthyIn(nodes, role) - rest, id);
          assert HealthyIn(nodes, role) - (rest - {id}) == (HealthyIn(nodes, role) - rest) + {id};
          healthy := healthy + [nodes[id]];
        } else {
          assert HealthyIn(nodes, role) - (rest - {id}) == HealthyIn(nodes, role) - rest;
        }
        rest := rest - {id};
      }
      assert HealthyIn(nodes, role) - rest == HealthyIn(nodes, role);
      ListedIff(healthy, nodes, HealthyIn(nodes, role));
    }
  }
}
