/** Which prefill and decode node serve a request, and in which slot. */
module RequestRouting {
  import opened Basics
  import opened Memory
  import opened Messages
  import opened Registry
  import opened Slots
  import opened SlotTable

  const INT_MAX := 0x7fff_ffff

  datatype RoutingPolicy = ROUND_ROBIN | LEAST_LOADED | RANDOM

  datatype RoutingResult = RoutingResult(prefill: NodeInfo, decode: NodeInfo, slotId: int, slotBaseOffset: uint64)

  /** A node never counted has no load. */
  function LoadOf(loads: map<Id, int>, n: Id): int {
    if n in loads then loads[n] else 0
  }

  /** Least-loaded search starts below INT_MAX, so a node at INT_MAX is never its choice. */
  predicate Eligible(policy: RoutingPolicy, loads: map<Id, int>, n: Id) {
    policy == LEAST_LOADED ==> LoadOf(loads, n) < INT_MAX
  }

  function Incremented(loads: map<Id, int>, n: Id): map<Id, int> {
    loads[n := LoadOf(loads, n) + 1]
  }

  /** The count stops at zero, and a node never counted stays so. */
  function Decremented(loads: map<Id, int>, n: Id): map<Id, int> {
    if n in loads && loads[n] > 0 then loads[n := loads[n] - 1] else loads
  }

  /** What a policy makes of a list: nothing iff no node is eligible, and under LEAST_LOADED a least-loaded one. */
  ghost predicate ChosenFrom(policy: RoutingPolicy, loads: map<Id, int>, ids: set<Id>, chosen: Option<NodeInfo>) {
    && (chosen.Some? <==> exists id :: id in ids && Eligible(policy, loads, id))
    && (chosen.Some? ==> chosen.value.nodeId in ids && Eligible(policy, loads, chosen.value.nodeId))
    && (chosen.Some? && policy == LEAST_LOADED ==>
          forall id :: id in ids ==> LoadOf(loads, chosen.value.nodeId) <= LoadOf(loads, id))
  }

  lemma ChoiceFor(index: nat, n: nat, j: nat) returns (k: nat)
    requires j < n
    ensures k < n && (index + k) % n == j
  {
    var q, r := index / n, index % n;
    assert index == q * n + r;
    if r <= j {
      k := j - r;
      RemainderIs(q, n, j);
    } else {
      k := j - r + n;
      MulAdd(q, 1, n);
      RemainderIs(q + 1, n, j);
    }
  }

  /** Round robin over an unchanged list of n nodes reaches every position within n choices, until the index wraps. */
  lemma RoundRobinReachesAll(index: uint64, n: nat, j: nat) returns (k: nat)
    requires j < n && index + n <= TWO_64
    ensures k < n && AsSize(index + k) % n == j
  {
    k := ChoiceFor(index, n, j);
    NoWrap(index + k);
  }

  ghost function IdsOf(nodes: seq<NodeInfo>): set<Id> {
    set i | 0 <= i < |nodes| :: nodes[i].nodeId
  }

  lemma IdsGrow(list: seq<NodeInfo>, nodes: map<Id, NodeInfo>, ids: set<Id>, i: nat)
    requires Lists(list, nodes, ids) && i < |list|
    ensures list[i].nodeId !in IdsOf(list[..i])
    ensures IdsOf(list[..i + 1]) == IdsOf(list[..i]) + {list[i].nodeId}
  {
    forall id | id in IdsOf(list[..i]) + {list[i].nodeId} ensures id in IdsOf(list[..i + 1]) {
      var k :| 0 <= k <= i && list[k].nodeId == id;
      assert list[..i + 1][k].nodeId == id;
    }
  }

  lemma IdsOfList(list: seq<NodeInfo>, nodes: map<Id, NodeInfo>, ids: set<Id>)
    requires Lists(list, nodes, ids)
    ensures IdsOf(list[..|list|]) == ids
  {
    assert list[..|list|] == list;
  }

  lemma FilterOneMore(t0: Table, max: int, seen: set<Id>, n: Id, t: Table, t': Table)
    requires t == Initialised(t0, max, seen) && n !in seen && t' == Initialised(t, max, {n})
    ensures t' == Initialised(t0, max, seen + {n})
    ensures WithFreeSlot(t', seen + {n}) == WithFreeSlot(t, seen) + if HasFreeSlot(t'[n]) then {n} else {}
  {
  }

  /** The nodes among ids with a free slot; a node without an allocator yet has all of its slots. */
  ghost function CanServe(t: Table, max: int, ids: set<Id>): set<Id> {
    set d | d in ids && FreeOn(t, max, d) != []
  }

  lemma FreeAfterInitialising(t: Table, max: int, ids: set<Id>)
    ensures WithFreeSlot(Initialised(t, max, ids), ids) == CanServe(t, max, ids)
    ensures forall d :: d in ids ==> FreeOn(t, max, d) == Initialised(t, max, ids)[d].freeSlots
  {
  }

  ghost predicate SomeEligible(policy: RoutingPolicy, loads: map<Id, int>, ids: set<Id>) {
    exists id :: id in ids && Eligible(policy, loads, id)
  }

  ghost predicate BestOf(policy: RoutingPolicy, loads: map<Id, int>, ids: set<Id>, id: Id) {
    id in ids && (policy == LEAST_LOADED ==> forall x :: x in ids ==> LoadOf(loads, id) <= LoadOf(loads, x))
  }

  /** Whether the request is routed, to which nodes, and to which slot and offset. */
  ghost predicate RoutedRight(policy: RoutingPolicy, loads: map<Id, int>, config: SlotConfig, nodes: map<Id, NodeInfo>,
    prefills: set<Id>, decodes: set<Id>, t: Table, routing: Option<RoutingResult>) {
    && (routing.Some? <==> SomeEligible(policy, loads, prefills) && SomeEligible(policy, loads, decodes))
    && (routing.Some? ==>
          var (p, d) := (routing.value.prefill, routing.value.decode);
          BestOf(policy, loads, prefills, p.nodeId) && BestOf(policy, loads, decodes, d.nodeId)
          && p.nodeId in nodes && p == nodes[p.nodeId] && d.nodeId in nodes && d == nodes[d.nodeId]
          && FreeOn(t, config.maxSlotsPerNode, d.nodeId) != []
          && routing.value.slotId == FreeOn(t, config.maxSlotsPerNode, d.nodeId)[0]
          && routing.value.slotBaseOffset == config.SlotBaseOffset(routing.value.slotId))
  }

  lemma RoutedTo(policy: RoutingPolicy, loads: map<Id, int>, config: SlotConfig, nodes: map<Id, NodeInfo>,
    prefills: set<Id>, decodes: set<Id>, t: Table, result: RoutingResult)
    requires ChosenFrom(policy, loads, prefills, Some(result.prefill))
    requires ChosenFrom(policy, loads, decodes, Some(result.decode))
    requires result.prefill.nodeId in nodes && result.prefill == nodes[result.prefill.nodeId]
    requires result.decode.nodeId in nodes && result.decode == nodes[result.decode.nodeId]
    requires FreeOn(t, config.maxSlotsPerNode, result.decode.nodeId) != []
    requires result.slotId == FreeOn(t, config.maxSlotsPerNode, result.decode.nodeId)[0]
    requires result.slotBaseOffset == config.SlotBaseOffset(result.slotId)
    ensures RoutedRight(policy, loads, config, nodes, prefills, decodes, t, Some(result))
  {
  }

  lemma RoutedNowhere(policy: RoutingPolicy, loads: map<Id, int>, config: SlotConfig, nodes: map<Id, NodeInfo>,
    prefills: set<Id>, decodes: set<Id>, t: Table)
    requires ChosenFrom(policy, loads, prefills, None) || ChosenFrom(policy, loads, decodes, None)
    ensures RoutedRight(policy, loads, config, nodes, prefills, decodes, t, None)
  {
  }

  /** A routed request takes one slot of its decode node; one turned away takes none. */
  ghost predicate SlotsAfter(t: Table, owner: map<Id, Id>, max: int, decodes: set<Id>, r: Id,
    routing: Option<RoutingResult>, t': Table, owner': map<Id, Id>) {
    if routing.Some? then
      && t' == AllocateOn(Initialised(t, max, decodes), max, routing.value.decode.nodeId, r).1
      && owner' == owner[r := routing.value.decode.nodeId]
    else
      (t' == t || t' == Initialised(t, max, decodes)) && owner' == owner
  }

  /** The tables record r on the node it was sent to, and there in the slot it was told. */
  ghost predicate RecordedAs(owner: map<Id, Id>, t: Table, r: Id, d: Id, slot: int) {
    && r in owner && owner[r] == d
    && r in HoldersOn(t, d) && t[d].requestToSlot[r] == slot
  }

  class RequestRouter {
    const registry: NodeRegistry
    const config: SlotConfig
    var policy: RoutingPolicy
    var nodeLoads: map<Id, int>
    var prefillIndex: uint64
    var decodeIndex: uint64
    var decodeNodeSlots: Table
    var requestToDecodeNode: map<Id, Id>

    constructor (registry: NodeRegistry, policy: RoutingPolicy, config: SlotConfig)
      ensures this.registry == registry && this.config == config && this.policy == policy
      ensures nodeLoads == map[] && decodeNodeSlots == map[] && requestToDecodeNode == map[]
      ensures prefillIndex == 0 && decodeIndex == 0
    {
      this.registry, this.config, this.policy := registry, config, policy;
      nodeLoads, decodeNodeSlots, requestToDecodeNode := map[], map[], map[];
      prefillIndex, decodeIndex := 0, 0;
    }

    // ---- Load tracking ----

    method IncrementNodeLoad(n: Id)
      modifies this`nodeLoads
      ensures nodeLoads == Incremented(old(nodeLoads), n)
    {
      if n !in nodeLoads {
        nodeLoads := nodeLoads[n := 0];
      }
      nodeLoads := nodeLoads[n := nodeLoads[n] + 1];
    }

    method DecrementNodeLoad(n: Id)
      modifies this`nodeLoads
      ensures nodeLoads == Decremented(old(nodeLoads), n)
    {
      if n !in nodeLoads { return; }
      if nodeLoads[n] > 0 {
        nodeLoads := nodeLoads[n := nodeLoads[n] - 1];
      }
    }

    // ---- Selection ----

    /** Running minimum from INT_MAX with a strict comparison: the first of the least-loaded nodes. */
    method SelectLeastLoaded(nodes: seq<NodeInfo>) returns (best: Option<NodeInfo>)
      ensures best.None? <==> forall i :: 0 <= i < |nodes| ==> LoadOf(nodeLoads, nodes[i].nodeId) >= INT_MAX
      ensures best.Some? ==> exists k ::
        && 0 <= k < |nodes| && nodes[k] == best.value && LoadOf(nodeLoads, nodes[k].nodeId) < INT_MAX
        && (forall i :: 0 <= i < k ==> LoadOf(nodeLoads, nodes[k].nodeId) < LoadOf(nodeLoads, nodes[i].nodeId))
        && (forall i :: k <= i < |nodes| ==> LoadOf(nodeLoads, nodes[k].nodeId) <= LoadOf(nodeLoads, nodes[i].nodeId))
    {
      best := None;
      var minLoad := INT_MAX;
      ghost var k := 0;
      for j := 0 to |nodes|
        invariant forall i :: 0 <= i < j ==> minLoad <= LoadOf(nodeLoads, nodes[i].nodeId)
        invariant best.None? ==> minLoad == INT_MAX
        invariant best.Some? ==> 0 <= k < j && best.value == nodes[k]
        invariant best.Some? ==> minLoad == LoadOf(nodeLoads, nodes[k].nodeId) < INT_MAX
        invariant best.Some? ==> forall i :: 0 <= i < k ==> minLoad < LoadOf(nodeLoads, nodes[i].nodeId)
      {
        var load := 0;
        if nodes[j].nodeId in nodeLoads {
          load := nodeLoads[nodes[j].nodeId];
        }
        if load < minLoad {
          minLoad, best, k := load, Some(nodes[j]), j;
        }
      }
    }

    /** The shared index moves on by one, modulo 2^64, with every choice made through it. */
    method SelectRoundRobin(nodes: seq<NodeInfo>, index: uint64) returns (chosen: Option<NodeInfo>, next: uint64)
      ensures nodes == [] ==> chosen == None && next == index
      ensures nodes != [] ==> chosen == Some(nodes[index % |nodes|]) && next == AsSize(index + 1)
    {
      if nodes == [] { return None, index; }
      chosen, next := Some(nodes[index % |nodes|]), AsSize(index + 1);
    }

    /** draw stands for the random generator. */
    method SelectBy(nodes: seq<NodeInfo>, index: uint64, draw: nat, ghost ids: set<Id>)
      returns (chosen: Option<NodeInfo>, next: uint64)
      requires Lists(nodes, registry.nodes, ids)
      ensures ChosenFrom(policy, nodeLoads, ids, chosen)
      ensures chosen.Some? ==> chosen.value in nodes
      ensures policy == ROUND_ROBIN && nodes != [] ==> chosen == Some(nodes[index % |nodes|])
      ensures next == if policy == ROUND_ROBIN && chosen.Some? then AsSize(index + 1) else index
    {
      chosen, next := None, index;
      match policy {
        case ROUND_ROBIN => chosen, next := SelectRoundRobin(nodes, index);
        case LEAST_LOADED =>
          chosen := SelectLeastLoaded(nodes);
          forall id | id in ids ensures exists i :: 0 <= i < |nodes| && nodes[i].nodeId == id {}
        case RANDOM => if nodes != [] { chosen := Some(nodes[draw % |nodes|]); }
      }
      if nodes != [] { assert nodes[0].nodeId in ids; }
    }

    method SelectPrefillNode(draw: nat) returns (chosen: Option<NodeInfo>)
      requires registry.Valid()
      modifies this`prefillIndex
      ensures ChosenFrom(policy, nodeLoads, HealthyIn(registry.nodes, PREFILL), chosen)
      ensures prefillIndex
        == if policy == ROUND_ROBIN && chosen.Some? then AsSize(old(prefillIndex) + 1) else old(prefillIndex)
      ensures chosen.Some? ==> chosen.value == registry.nodes[chosen.value.nodeId]
      ensures chosen.Some? ==> chosen.value.role == PREFILL && chosen.value.isHealthy
    {
      var healthy := registry.GetHealthyNodes(PREFILL);
      if healthy == [] {
        NoneListed(registry.nodes, HealthyIn(registry.nodes, PREFILL));
        return None;
      }
      var next;
      chosen, next := SelectBy(healthy, prefillIndex, draw, HealthyIn(registry.nodes, PREFILL));
      prefillIndex := next;
    }

    method InitializeNodeSlots(n: Id)
      modifies this`decodeNodeSlots
      ensures decodeNodeSlots == Initialised(old(decodeNodeSlots), config.maxSlotsPerNode, {n})
    {
      if n !in decodeNodeSlots {
        var a := NewAllocator(config.maxSlotsPerNode);
        decodeNodeSlots := decodeNodeSlots[n := a];
      }
    }

    /** Under the slot lock: creates missing allocators and keeps the nodes with a free slot. */
    method FilterBySlots(healthy: seq<NodeInfo>, ghost ids: set<Id>) returns (nodesWithSlots: seq<NodeInfo>)
      requires Lists(healthy, registry.nodes, ids)
      modifies this`decodeNodeSlots
      ensures decodeNodeSlots == Initialised(old(decodeNodeSlots), config.maxSlotsPerNode, ids)
      ensures Lists(nodesWithSlots, registry.nodes, WithFreeSlot(decodeNodeSlots, ids))
    {
      nodesWithSlots := [];
      ghost var seen := {};
      assert decodeNodeSlots == Initialised(decodeNodeSlots, config.maxSlotsPerNode, {});
      for i := 0 to |healthy|
        invariant seen == IdsOf(healthy[..i])
        invariant decodeNodeSlots == Initialised(old(decodeNodeSlots), config.maxSlotsPerNode, seen)
        invariant Lists(nodesWithSlots, registry.nodes, WithFreeSlot(decodeNodeSlots, seen))
      {
        var n := healthy[i].nodeId;
        ghost var before, free := decodeNodeSlots, WithFreeSlot(decodeNodeSlots, seen);
        IdsGrow(healthy, registry.nodes, ids, i);
        InitializeNodeSlots(n);
        FilterOneMore(old(decodeNodeSlots), config.maxSlotsPerNode, seen, n, before, decodeNodeSlots);
        if HasFreeSlot(decodeNodeSlots[n]) {
          ListExtended(nodesWithSlots, registry.nodes, free, n);
          nodesWithSlots := nodesWithSlots + [healthy[i]];
        }
        seen := seen + {n};
      }
      IdsOfList(healthy, registry.nodes, ids);
    }

    method DecodeNodesWithSlots() returns (nodesWithSlots: seq<NodeInfo>)
      requires registry.Valid()
      modifies this`decodeNodeSlots
      ensures decodeNodeSlots
        == Initialised(old(decodeNodeSlots), config.maxSlotsPerNode, HealthyIn(registry.nodes, DECODE))
      ensures Lists(nodesWithSlots, registry.nodes, WithFreeSlot(decodeNodeSlots, HealthyIn(registry.nodes, DECODE)))
    {
      var healthy := registry.GetHealthyNodes(DECODE);
      if healthy == [] {
        NoneListed(registry.nodes, HealthyIn(registry.nodes, DECODE));
        assert decodeNodeSlots == Initialised(decodeNodeSlots, config.maxSlotsPerNode, {});
        return [];
      }
      nodesWithSlots := FilterBySlots(healthy, HealthyIn(registry.nodes, DECODE));
    }

    method SelectDecodeNodeWithSlot(draw: nat) returns (chosen: Option<NodeInfo>)
      requires registry.Valid()
      modifies this`decodeIndex, this`decodeNodeSlots
      ensures decodeNodeSlots
        == Initialised(old(decodeNodeSlots), config.maxSlotsPerNode, HealthyIn(registry.nodes, DECODE))
      ensures ChosenFrom(policy, nodeLoads, WithFreeSlot(decodeNodeSlots, HealthyIn(registry.nodes, DECODE)), chosen)
      ensures decodeIndex
        == if policy == ROUND_ROBIN && chosen.Some? then AsSize(old(decodeIndex) + 1) else old(decodeIndex)
      ensures chosen.Some? ==> chosen.value.nodeId in registry.nodes
      ensures chosen.Some? ==> chosen.value == registry.nodes[chosen.value.nodeId]
      ensures chosen.Some? ==> chosen.value.role == DECODE && chosen.value.isHealthy
    {
      var nodesWithSlots := DecodeNodesWithSlots();
      ghost var ids := WithFreeSlot(decodeNodeSlots, HealthyIn(registry.nodes, DECODE));
      if nodesWithSlots == [] {
        NoneListed(registry.nodes, ids);
        return None;
      }
      var next;
      chosen, next := SelectBy(nodesWithSlots, decodeIndex, draw, ids);
      decodeIndex := next;
    }

    // ---- Slots ----

    method AllocateSlotForNode(n: Id, r: Id) returns (slot: Option<int>)
      modifies this`decodeNodeSlots
      ensures slot == var free := FreeOn(old(decodeNodeSlots), config.maxSlotsPerNode, n);
        if free == [] then None else Some(free[0])
      ensures slot.Some? ==> r in HoldersOn(decodeNodeSlots, n) && decodeNodeSlots[n].requestToSlot[r] == slot.value
      ensures (slot, decodeNodeSlots) == AllocateOn(old(decodeNodeSlots), config.maxSlotsPerNode, n, r)
    {
      InitializeNodeSlots(n);
      var a := decodeNodeSlots[n];
      if !HasFreeSlot(a) {
        assert decodeNodeSlots[n := a] == decodeNodeSlots;
        return None;
      }
      var slotId := a.freeSlots[0];
      a := a.(freeSlots := a.freeSlots[1..]);
      a := a.(requestToSlot := a.requestToSlot[r := slotId]);
      a := a.(slotToRequest := a.slotToRequest[slotId := r]);
      decodeNodeSlots := decodeNodeSlots[n := a];
      slot := Some(slotId);
    }

    method FreeSlotForNode(n: Id, r: Id) returns (freed: bool)
      modifies this`decodeNodeSlots
      ensures freed <==> r in HoldersOn(old(decodeNodeSlots), n)
      ensures (freed, decodeNodeSlots) == ReleaseOn(old(decodeNodeSlots), n, r)
    {
      if n !in decodeNodeSlots { return false; }
      var a := decodeNodeSlots[n];
      if r !in a.requestToSlot {
        assert decodeNodeSlots[n := a] == decodeNodeSlots;
        return false;
      }
      var slotId := a.requestToSlot[r];
      a := a.(freeSlots := a.freeSlots + [slotId]);
      a := a.(requestToSlot := a.requestToSlot - {r});
      a := a.(slotToRequest := a.slotToRequest - {slotId});
      decodeNodeSlots := decodeNodeSlots[n := a];
      freed := true;
    }

    method FreeSlot(r: Id)
      modifies this`decodeNodeSlots, this`requestToDecodeNode
      ensures (decodeNodeSlots, requestToDecodeNode) == FreeSlotOf(old(decodeNodeSlots), old(requestToDecodeNode), r)
    {
      if r !in requestToDecodeNode { return; }
      var n := requestToDecodeNode[r];
      requestToDecodeNode := requestToDecodeNode - {r};
      var _ := FreeSlotForNode(n, r);
    }

    /**
     * Without interference: a request is routed iff some healthy prefill node and some healthy decode node with a
     * free slot are eligible, and it gets the slot at the front of the chosen decode node's queue.
     */
    method SelectNodesAndAllocateSlot(r: Id, prefillDraw: nat, decodeDraw: nat) returns (routing: Option<RoutingResult>)
      requires registry.Valid()
      modifies this`prefillIndex, this`decodeIndex, this`decodeNodeSlots, this`requestToDecodeNode
      ensures routing.Some? ==>
        RecordedAs(requestToDecodeNode, decodeNodeSlots, r, routing.value.decode.nodeId, routing.value.slotId)
      ensures routing.Some? ==> routing.value.prefill.role == PREFILL && routing.value.prefill.isHealthy
      ensures routing.Some? ==> routing.value.decode.role == DECODE && routing.value.decode.isHealthy
      ensures var prefills, decodes := HealthyIn(registry.nodes, PREFILL), HealthyIn(registry.nodes, DECODE);
        RoutedRight(policy, nodeLoads, config, registry.nodes, prefills,
          CanServe(old(decodeNodeSlots), config.maxSlotsPerNode, decodes), old(decodeNodeSlots), routing)
      ensures var prefills, decodes := HealthyIn(registry.nodes, PREFILL), HealthyIn(registry.nodes, DECODE);
        SlotsAfter(old(decodeNodeSlots), old(requestToDecodeNode), config.maxSlotsPerNode, decodes, r, routing,
          decodeNodeSlots, requestToDecodeNode)
    {
      ghost var prefills, decodes := HealthyIn(registry.nodes, PREFILL), HealthyIn(registry.nodes, DECODE);
      ghost var t, ready := decodeNodeSlots, CanServe(decodeNodeSlots, config.maxSlotsPerNode, decodes);
      var prefill := SelectPrefillNode(prefillDraw);
      if prefill == None {
        RoutedNowhere(policy, nodeLoads, config, registry.nodes, prefills, ready, t);
        return None;
      }
      var decode := SelectDecodeNodeWithSlot(decodeDraw);
      FreeAfterInitialising(t, config.maxSlotsPerNode, decodes);
      if decode == None {
        RoutedNowhere(policy, nodeLoads, config, registry.nodes, prefills, ready, t);
        return None;
      }
      var slot := AllocateSlotForNode(decode.value.nodeId, r);
      if slot == None { return None; }
      var requestSizeBytes := AsSize(config.RequestSizeMb() * MIB);
      var slotBaseOffset := AsSize(AsSize(slot.value) * requestSizeBytes);
      requestToDecodeNode := requestToDecodeNode[r := decode.value.nodeId];
      routing := Some(RoutingResult(prefill.value, decode.value, slot.value, slotBaseOffset));
      RoutedTo(policy, nodeLoads, config, registry.nodes, prefills, ready, t, routing.value);
    }
  }
}
