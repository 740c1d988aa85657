/** The orchestrator's request handlers: what each does to the router's books and whom it writes to. */
module OrchestratorWorker {
  import opened Basics
  import opened Messages
  import opened Orchestrator
  import opened Registry
  import opened RequestRouting
  import opened SlotTable

  /** The fields of a request that the handlers fill in and pass on. */
  datatype Ticket = Ticket(r: Id, a: Assignment, slotId: int, slotBaseOffset: uint64)

  datatype Outgoing =
    | AtCapacity
    | PrepareDecodeSlot(ticket: Ticket)
    | AssignRequest(ticket: Ticket)
    | PrefillComplete(ticket: Ticket)
    | ClientResponse(ticket: Ticket, text: Bytes)
    | RequestFailed(ticket: Ticket)

  datatype RequestStatus = PENDING | DECODING | COMPLETED | FAILED

  datatype Tracked = Tracked(ticket: Ticket, status: RequestStatus, clientFd: int)

  function TicketOf(r: Id, routing: RoutingResult): Ticket {
    Ticket(r, Assignment(routing.prefill.nodeId, routing.decode.nodeId), routing.slotId, routing.slotBaseOffset)
  }

  function WithStatus(requests: map<Id, Tracked>, r: Id, status: RequestStatus): map<Id, Tracked> {
    if r in requests then requests[r := requests[r].(status := status)] else requests
  }

  /** Each of the two nodes counts one more request, two if they are one node. */
  ghost predicate CountedOnce(loads: map<Id, int>, p: Id, d: Id, loads': map<Id, int>) {
    forall n :: LoadOf(loads', n) == LoadOf(loads, n) + (if n == p then 1 else 0) + if n == d then 1 else 0
  }

  class WorkerOrchestrator {
    const registry: NodeRegistry
    const router: RequestRouter
    var requests: map<Id, Tracked>
    var outbox: seq<(int, Outgoing)>

    constructor (registry: NodeRegistry, router: RequestRouter)
      ensures this.registry == registry && this.router == router && requests == map[] && outbox == []
    {
      this.registry, this.router := registry, router;
      requests, outbox := map[], [];
    }

    ghost predicate Valid()
      reads this, registry, router
    {
      router.registry == registry && registry.Valid()
    }

    ghost function Books(): Ledger
      reads router
    {
      Ledger(router.decodeNodeSlots, router.requestToDecodeNode, router.nodeLoads)
    }

    method TrackRequest(ticket: Ticket, clientFd: int)
      modifies this`requests
      ensures requests == old(requests)[ticket.r := Tracked(ticket, PENDING, clientFd)]
    {
      requests := requests[ticket.r := Tracked(ticket, PENDING, clientFd)];
    }

    method UpdateStatus(r: Id, status: RequestStatus)
      modifies this`requests
      ensures requests == WithStatus(old(requests), r, status)
      ensures requests.Keys == old(requests).Keys
      ensures forall q :: q in requests ==>
        requests[q] == if q == r then old(requests)[q].(status := status) else old(requests)[q]
    {
      if r in requests {
        requests := requests[r := requests[r].(status := status)];
      }
    }

    method Send(fd: int, message: Outgoing)
      modifies this`outbox
      ensures outbox == old(outbox) + [(fd, message)]
    {
      outbox := outbox + [(fd, message)];
    }

    /** The answer reaches the client a request came from, if it is tracked. */
    method AnswerClient(r: Id, answer: Outgoing)
      modifies this`outbox
      ensures outbox == old(outbox) + if r in requests then [(requests[r].clientFd, answer)] else []
    {
      if r in requests {
        Send(requests[r].clientFd, answer);
      } else {
        assert outbox + [] == outbox;
      }
    }

    ghost predicate BothReachable(a: Assignment)
      reads registry
    {
      a.prefill in registry.nodesFd && a.decode in registry.nodesFd
    }

    ghost function SentTo(ticket: Ticket): seq<(int, Outgoing)>
      reads registry
    {
      if ticket.a.decode !in registry.nodesFd then []
      else if ticket.a.prefill !in registry.nodesFd then
        [(registry.nodesFd[ticket.a.decode], PrepareDecodeSlot(ticket))]
      else [(registry.nodesFd[ticket.a.decode], PrepareDecodeSlot(ticket)),
            (registry.nodesFd[ticket.a.prefill], AssignRequest(ticket))]
    }

    /** The slot is given back when a socket is missing; loads are counted only when neither is. */
    ghost function BooksAfterDispatch(s: Ledger, r: Id, a: Assignment): Ledger
      reads registry
    {
      if BothReachable(a) then s.(loads := Incremented(Incremented(s.loads, a.prefill), a.decode))
      else Ledger(FreeSlotOf(s.slots, s.owner, r).0, FreeSlotOf(s.slots, s.owner, r).1, s.loads)
    }

    method Dispatch(ticket: Ticket)
      modifies this`outbox, router`nodeLoads, router`decodeNodeSlots, router`requestToDecodeNode
      ensures Books() == BooksAfterDispatch(old(Books()), ticket.r, ticket.a)
      ensures outbox == old(outbox) + SentTo(ticket)
      ensures if ticket.a.decode in registry.nodesFd && ticket.a.prefill in registry.nodesFd
        then CountedOnce(old(router.nodeLoads), ticket.a.prefill, ticket.a.decode, router.nodeLoads)
        else ticket.r !in router.requestToDecodeNode && router.nodeLoads == old(router.nodeLoads)
    {
      var decodeFd := registry.GetNodeFd(ticket.a.decode);
      if decodeFd == None {
        router.FreeSlot(ticket.r);
        return;
      }
      Send(decodeFd.value, PrepareDecodeSlot(ticket));
      var prefillFd := registry.GetNodeFd(ticket.a.prefill);
      if prefillFd == None {
        router.FreeSlot(ticket.r);
        return;
      }
      Send(prefillFd.value, AssignRequest(ticket));
      router.IncrementNodeLoad(ticket.a.prefill);
      router.IncrementNodeLoad(ticket.a.decode);
    }

    ghost function Decodes(): set<Id>
      reads registry
    {
      HealthyIn(registry.nodes, DECODE)
    }

    /** One of the orchestrator's steps: accepted, bounced for a missing socket, or turned away. */
    ghost predicate TookStep(s: Ledger, r: Id, routing: Option<RoutingResult>, s': Ledger)
      reads registry
    {
      var max := router.config.maxSlotsPerNode;
      if routing.None? then
        s' == s || s' == s.(slots := Initialised(s.slots, max, Decodes()))
      else
        var a := TicketOf(r, routing.value).a;
        s' == if BothReachable(a) then Accept(s, max, Decodes(), r, a.prefill, a.decode)
              else Bounce(s, max, Decodes(), r, a.decode)
    }

    /** A bounced client is tracked but gets no answer. */
    method HandleClientRequest(clientFd: int, r: Id, prefillDraw: nat, decodeDraw: nat)
      returns (ghost routing: Option<RoutingResult>)
      requires Valid()
      modifies this, router`prefillIndex, router`decodeIndex, router`nodeLoads
      modifies router`decodeNodeSlots, router`requestToDecodeNode
      ensures RoutedRight(router.policy, old(router.nodeLoads), router.config, registry.nodes,
        HealthyIn(registry.nodes, PREFILL),
        CanServe(old(router.decodeNodeSlots), router.config.maxSlotsPerNode, Decodes()),
        old(router.decodeNodeSlots), routing)
      ensures TookStep(old(Books()), r, routing, Books())
      ensures routing.None? ==> requests == old(requests) && outbox == old(outbox) + [(clientFd, AtCapacity)]
      ensures routing.Some? ==> requests == old(requests)[r := Tracked(TicketOf(r, routing.value), PENDING, clientFd)]
      ensures routing.Some? ==>
        var (p, d, t) := (routing.value.prefill.nodeId, routing.value.decode.nodeId, requests[r].ticket);
        && t.r == r && t.a == Assignment(p, d) && t.slotBaseOffset == router.config.SlotBaseOffset(t.slotId)
        && FreeOn(old(router.decodeNodeSlots), router.config.maxSlotsPerNode, d) != []
        && t.slotId == FreeOn(old(router.decodeNodeSlots), router.config.maxSlotsPerNode, d)[0]
      ensures routing.Some? ==>
        var (max, d) := (router.config.maxSlotsPerNode, routing.value.decode.nodeId);
        AllocateOn(Initialised(old(router.decodeNodeSlots), max, Decodes()), max, d, r).0
          == Some(requests[r].ticket.slotId)
      ensures routing.Some? ==>
        var (p, d, t) := (routing.value.prefill.nodeId, routing.value.decode.nodeId, requests[r].ticket);
        if d !in registry.nodesFd then outbox == old(outbox)
        else if p !in registry.nodesFd then outbox == old(outbox) + [(registry.nodesFd[d], PrepareDecodeSlot(t))]
        else
          && outbox == old(outbox)
            + [(registry.nodesFd[d], PrepareDecodeSlot(t)), (registry.nodesFd[p], AssignRequest(t))]
          && RecordedAs(router.requestToDecodeNode, router.decodeNodeSlots, r, d, t.slotId)
      ensures routing.Some? ==>
        var (p, d) := (routing.value.prefill.nodeId, routing.value.decode.nodeId);
        if d in registry.nodesFd && p in registry.nodesFd
        then CountedOnce(old(router.nodeLoads), p, d, router.nodeLoads)
        else r !in router.requestToDecodeNode && router.nodeLoads == old(router.nodeLoads)
    {
      routing := None;
      var result := router.SelectNodesAndAllocateSlot(r, prefillDraw, decodeDraw);
      routing := result;
      if result == None {
        Send(clientFd, AtCapacity);
        return;
      }
      TrackRequest(TicketOf(r, result.value), clientFd);
      Dispatch(TicketOf(r, result.value));
    }

    /** Ends a request: the books take the finishing step and the tracked client gets the answer. */
    method FinishRequest(ticket: Ticket, status: RequestStatus, answer: Outgoing)
      modifies this, router
      ensures router.policy == old(router.policy)
      ensures Books() == Finish(old(Books()), ticket.r, ticket.a)
      ensures requests == WithStatus(old(requests), ticket.r, status)
      ensures ticket.r in requests ==> requests[ticket.r].status == status
      ensures outbox == old(outbox)
        + if ticket.r in old(requests) then [(old(requests)[ticket.r].clientFd, answer)] else []
    {
      UpdateStatus(ticket.r, status);
      router.FreeSlot(ticket.r);
      router.DecrementNodeLoad(ticket.a.prefill);
      router.DecrementNodeLoad(ticket.a.decode);
      AnswerClient(ticket.r, answer);
    }

    /** With the decode node reachable nothing is freed; otherwise the request ends here as failed. */
    method HandlePrefillCompleteOrchestrator(ticket: Ticket)
      requires Valid()
      modifies this, router
      ensures Valid()
      ensures ticket.a.decode in registry.nodesFd ==> Books() == old(Books())
      ensures ticket.a.decode !in registry.nodesFd ==> Books() == Finish(old(Books()), ticket.r, ticket.a)
      ensures requests
        == WithStatus(old(requests), ticket.r, if ticket.a.decode in registry.nodesFd then DECODING else FAILED)
      ensures outbox == old(outbox) + if ticket.a.decode in registry.nodesFd
        then [(registry.nodesFd[ticket.a.decode], PrefillComplete(ticket))]
        else if ticket.r in old(requests) then [(old(requests)[ticket.r].clientFd, RequestFailed(ticket))] else []
    {
      UpdateStatus(ticket.r, DECODING);
      var decodeFd := registry.GetNodeFd(ticket.a.decode);
      if decodeFd != None {
        Send(decodeFd.value, PrefillComplete(ticket));
      } else {
        FinishRequest(ticket, FAILED, RequestFailed(ticket));
      }
    }

    method HandleDecodeComplete(ticket: Ticket, text: Bytes)
      modifies this, router
      ensures Books() == Finish(old(Books()), ticket.r, ticket.a)
      ensures requests == WithStatus(old(requests), ticket.r, COMPLETED)
      ensures ticket.r in requests ==> requests[ticket.r].status == COMPLETED
      ensures outbox == old(outbox)
        + if ticket.r in old(requests) then [(old(requests)[ticket.r].clientFd, ClientResponse(ticket, text))] else []
    {
      FinishRequest(ticket, COMPLETED, ClientResponse(ticket, text));
    }

    method HandleRequestFailed(ticket: Ticket)
      modifies this, router
      ensures Books() == Finish(old(Books()), ticket.r, ticket.a)
      ensures requests == WithStatus(old(requests), ticket.r, FAILED)
      ensures ticket.r in requests ==> requests[ticket.r].status == FAILED
      ensures outbox == old(outbox)
        + if ticket.r in old(requests) then [(old(requests)[ticket.r].clientFd, RequestFailed(ticket))] else []
    {
      FinishRequest(ticket, FAILED, RequestFailed(ticket));
    }
  }
}
