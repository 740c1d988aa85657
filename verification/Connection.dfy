/** The two queues a connection joins: its byte buffers, and the bounded event queue that the
    framer fills. Kernel results are inputs: the outcomes of send, the chunks that recv returns. */
module Connection {
  import opened Basics
  import opened WireFormat
  import opened Messages
  import opened MessageWriter
  import opened MessageReader
  import opened Framing

  // ---- Bounded event queue ----

  datatype Event = Event(fd: int, message: Message)

  /** Pushes in order; an event that finds the queue full is dropped. */
  function PushAll(capacity: nat, queue: seq<Event>, events: seq<Event>): seq<Event>
    decreases |events|
  {
    if events == [] then queue else
      PushAll(capacity, if |queue| < capacity then queue + [events[0]] else queue, events[1..])
  }

  /** A burst is cut off at capacity: the oldest events enter, in order, and the newest are lost. */
  lemma {:induction false} PushAllKeepsOldest(capacity: nat, queue: seq<Event>, events: seq<Event>)
    requires |queue| <= capacity
    ensures var room := capacity - |queue|;
      PushAll(capacity, queue, events) == queue + events[..if |events| <= room then |events| else room]
    decreases |events|
  {
    if events != [] {
      if |queue| < capacity {
        PushAllKeepsOldest(capacity, queue + [events[0]], events[1..]);
      } else {
        PushAllKeepsOldest(capacity, queue, events[1..]);
      }
    }
  }

  lemma {:induction false} PushAllAppends(capacity: nat, queue: seq<Event>, es: seq<Event>, fs: seq<Event>)
    ensures PushAll(capacity, queue, es + fs) == PushAll(capacity, PushAll(capacity, queue, es), fs)
    decreases |es|
  {
    if es == [] {
      assert es + fs == fs;
    } else {
      assert (es + fs)[1..] == es[1..] + fs;
      PushAllAppends(capacity, if |queue| < capacity then queue + [es[0]] else queue, es[1..], fs);
    }
  }

  class EventQueue {
    const capacity: nat
    var queue: seq<Event>
    var stopped: bool

    constructor (capacity: nat)
      ensures this.capacity == capacity && queue == [] && !stopped
    {
      this.capacity := capacity;
      queue, stopped := [], false;
    }

    method Push(e: Event) returns (ok: bool)
      modifies this`queue
      ensures ok <==> |old(queue)| < capacity
      ensures queue == if ok then old(queue) + [e] else old(queue)
      ensures queue == PushAll(capacity, old(queue), [e])
    {
      if |queue| >= capacity {
        return false;
      }
      queue := queue + [e];
      return true;
    }

    /** The wait has ended: an event is there or the queue was stopped. */
    method WaitAndPop() returns (e: Option<Event>)
      requires queue != [] || stopped
      modifies this`queue
      ensures old(queue) == [] ==> e == None && queue == []
      ensures old(queue) != [] ==> e == Some(old(queue)[0]) && queue == old(queue)[1..]
    {
      if stopped && queue == [] {
        return None;
      }
      e := Some(queue[0]);
      queue := queue[1..];
    }
  }

  function Events(fd: int, ms: seq<Message>): (es: seq<Event>)
    ensures |es| == |ms| && forall i :: 0 <= i < |ms| ==> es[i] == Event(fd, ms[i])
  {
    seq(|ms|, i requires 0 <= i < |ms| => Event(fd, ms[i]))
  }

  /** The queue after payloads are delivered one by one; a payload that yields nothing is skipped. */
  function Delivered(f: Bytes -> seq<Message>, capacity: nat, queue: seq<Event>, fd: int, payloads: seq<Bytes>)
    : seq<Event>
  {
    if payloads == [] then queue else
      var last := |payloads| - 1;
      PushAll(capacity, Delivered(f, capacity, queue, fd, payloads[..last]), Events(fd, f(payloads[last])))
  }

  /** Delivering payloads is pushing all the messages they yield. */
  lemma {:induction false} DeliveredIsOneBurst(
    f: Bytes -> seq<Message>, capacity: nat, queue: seq<Event>, fd: int, payloads: seq<Bytes>)
    ensures Delivered(f, capacity, queue, fd, payloads) == PushAll(capacity, queue, Events(fd, Collect(f, payloads)))
  {
    if payloads != [] {
      var last := |payloads| - 1;
      var before, more := Collect(f, payloads[..last]), f(payloads[last]);
      DeliveredIsOneBurst(f, capacity, queue, fd, payloads[..last]);
      PushAllAppends(capacity, queue, Events(fd, before), Events(fd, more));
      assert Events(fd, before + more) == Events(fd, before) + Events(fd, more);
    }
  }

  // ---- Sending ----

  /** One result of send: some bytes taken, no room now, or a broken connection. */
  datatype SendOutcome = Accepted(n: nat) | WouldBlock | Failed

  /** How many of size bytes a run of sends takes, and whether the connection broke. Taking zero
      bytes means trying again; a run that ends without a verdict ends as would-block. */
  function SendRun(size: nat, outcomes: seq<SendOutcome>): (r: (nat, bool))
    ensures r.0 <= size
  {
    if size == 0 || outcomes == [] then (0, false) else
      match outcomes[0]
      case Accepted(n) =>
        var taken := if n < size then n else size;
        var (more, broke) := SendRun(size - taken, outcomes[1..]);
        (taken + more, broke)
      case WouldBlock => (0, false)
      case Failed => (0, true)
  }

  /** The bytes that a run of sends would accept, given no end of bytes to send. */
  function Sum(outcomes: seq<SendOutcome>): nat {
    if outcomes == [] then 0 else
      (if outcomes[0].Accepted? then outcomes[0].n else 0) + Sum(outcomes[1..])
  }

  /** The first k sends all accept, and between them size bytes or more. */
  predicate Enough(size: nat, outcomes: seq<SendOutcome>, k: int) {
    0 <= k <= |outcomes| && (forall i :: 0 <= i < k ==> outcomes[i].Accepted?) && Sum(outcomes[..k]) >= size
  }

  /** The first k sends all accept, and between them fewer than size bytes. */
  predicate Short(size: nat, outcomes: seq<SendOutcome>, k: int) {
    0 <= k <= |outcomes| && (forall i :: 0 <= i < k ==> outcomes[i].Accepted?) && Sum(outcomes[..k]) < size
  }

  /** What a run of sends does, by the sends that accept before the first that does not. */
  lemma {:induction false} SendRunIs(size: nat, outcomes: seq<SendOutcome>, k: nat)
    ensures Enough(size, outcomes, k) ==> SendRun(size, outcomes) == (size, false)
    ensures Short(size, outcomes, k) && (k == |outcomes| || outcomes[k].WouldBlock?) ==>
      SendRun(size, outcomes) == (Sum(outcomes[..k]), false)
    ensures Short(size, outcomes, k) && k < |outcomes| && outcomes[k].Failed? ==>
      SendRun(size, outcomes) == (Sum(outcomes[..k]), true)
    decreases k
  {
    if 0 < k <= |outcomes| && outcomes[0].Accepted? {
      var n := outcomes[0].n;
      assert outcomes[1..][..k - 1] == outcomes[..k][1..];
      SendRunIs(size - if n < size then n else size, outcomes[1..], k - 1);
    }
  }

  // ---- Receiving ----

  /** How the reads of one readiness event end: nothing more for now, or the connection is gone. */
  datatype ReadEnd = NoMoreNow | PeerClosed | ReadFailed

  class ConnectionState {
    const fd: int
    var present: bool             // still in the connection table
    var inputBuffer: Bytes
    var expectedPayloadLength: nat
    var readingHeader: bool
    var outputBuffer: Bytes

    constructor (fd: int)
      ensures this.fd == fd && present && outputBuffer == [] && View() == FRESH
    {
      this.fd := fd;
      present := true;
      inputBuffer, expectedPayloadLength, readingHeader := [], 0, true;
      outputBuffer := [];
    }

    /** The receiving side as the framing model sees it. */
    ghost function View(): Conn
      reads this
    {
      if present then Open(inputBuffer, readingHeader, expectedPayloadLength) else Closed
    }

    method Remove()
      modifies this`present
      ensures !present
    {
      present := false;
    }

    /** A payload that does not decode is skipped; a message that finds the queue full is lost. */
    method Deliver(payload: Bytes, events: EventQueue)
      modifies events`queue
      ensures Deserialized(payload).None? || |old(events.queue)| >= events.capacity ==>
        events.queue == old(events.queue)
      ensures Deserialized(payload).Some? && |old(events.queue)| < events.capacity ==>
        events.queue == old(events.queue) + [Event(fd, Deserialized(payload).value)]
      ensures events.queue == PushAll(events.capacity, old(events.queue), Events(fd, DecodeOne(payload)))
    {
      var message := DeserializeMessage(payload);
      if message.Some? {
        var pushed := events.Push(Event(fd, message.value));
        assert Events(fd, [message.value]) == [Event(fd, message.value)];
      }
    }

    /** Phase one, if it is due: true when a payload length is known afterwards. */
    method TakeHeader() returns (go: bool)
      requires present && WellFormed(View())
      modifies this`inputBuffer, this`expectedPayloadLength, this`readingHeader, this`present
      ensures go ==> present && !readingHeader && WellFormed(View()) && Drain(View()) == Drain(old(View()))
      ensures go ==> |inputBuffer| <= |old(inputBuffer)|
      ensures !go ==> Drain(old(View())) == ([], View())
    {
      if !readingHeader {
        return true;
      }
      if |inputBuffer| < 4 {
        return false;
      }
      FourBytesRead(inputBuffer[..4]);
      var length := Word32(inputBuffer[..4]);
      if length == 0 || length > MAX_MESSAGE_SIZE {
        Remove();
        return false;
      }
      expectedPayloadLength := length;
      readingHeader := false;
      inputBuffer := inputBuffer[4..];
      return true;
    }

    /** Phase two: the payload, if all of it is there; the next round then starts at a header. */
    method TakePayload() returns (payload: Option<Bytes>)
      requires present && !readingHeader && WellFormed(View())
      modifies this`inputBuffer, this`expectedPayloadLength, this`readingHeader
      ensures present && WellFormed(View()) && |inputBuffer| <= |old(inputBuffer)|
      ensures payload.None? ==> Drain(old(View())) == ([], View())
      ensures payload.Some? ==> |inputBuffer| < |old(inputBuffer)|
      ensures payload.Some? ==> Drain(old(View())) == ([payload.value] + Drain(View()).0, Drain(View()).1)
    {
      if |inputBuffer| < expectedPayloadLength {
        return None;
      }
      payload := Some(inputBuffer[..expectedPayloadLength]);
      inputBuffer := inputBuffer[expectedPayloadLength..];
      readingHeader := true;
      expectedPayloadLength := 0;
    }

    method ParseMessages(events: EventQueue)
      requires present && WellFormed(View())
      modifies this`inputBuffer, this`expectedPayloadLength, this`readingHeader, this`present, events`queue
      ensures var (payloads, after) := Drain(old(View()));
        && View() == after
        && events.queue == Delivered(DecodeOne, events.capacity, old(events.queue), fd, payloads)
    {
      ghost var payloads: seq<Bytes> := [];
      ghost var result := Drain(View());
      assert payloads + result.0 == result.0;
      while true
        invariant present && WellFormed(View())
        invariant result == (payloads + Drain(View()).0, Drain(View()).1)
        invariant events.queue == Delivered(DecodeOne, events.capacity, old(events.queue), fd, payloads)
        decreases |inputBuffer|
      {
        assert payloads + [] == payloads;
        var go := TakeHeader();
        if !go {
          return;
        }
        var payload := TakePayload();
        if payload.None? {
          return;
        }
        AppendAssociates(payloads, [payload.value], Drain(View()).0);
        assert (payloads + [payload.value])[..|payloads|] == payloads;
        payloads := payloads + [payload.value];
        Deliver(payload.value, events);
      }
    }

    /** Chunks are buffered as they come and parsed once the reads end for now; if they end with
        the connection gone, everything buffered goes with it. */
    method HandleRead(chunks: seq<Bytes>, end: ReadEnd, events: EventQueue)
      requires present && WellFormed(View())
      modifies this`inputBuffer, this`expectedPayloadLength, this`readingHeader, this`present, events`queue
      ensures end == NoMoreNow ==>
        var (payloads, after) := Feed(old(View()), Concat(chunks));
        && View() == after
        && events.queue == PushAll(events.capacity, old(events.queue), Events(fd, DecodeAll(payloads)))
      ensures end != NoMoreNow ==> View() == Closed && events.queue == old(events.queue)
    {
      assert inputBuffer + Concat([]) == inputBuffer;
      for i := 0 to |chunks|
        invariant present && readingHeader == old(readingHeader) && expectedPayloadLength == old(expectedPayloadLength)
        invariant inputBuffer == old(inputBuffer) + Concat(chunks[..i])
        invariant events.queue == old(events.queue)
      {
        assert chunks[..i + 1][..i] == chunks[..i];
        AppendAssociates(old(inputBuffer), Concat(chunks[..i]), chunks[i]);
        inputBuffer := inputBuffer + chunks[i];
      }
      assert chunks[..|chunks|] == chunks;
      if end != NoMoreNow {
        Remove();
        return;
      }
      DeliveredIsOneBurst(DecodeOne, events.capacity, events.queue, fd, Feed(old(View()), Concat(chunks)).0);
      ParseMessages(events);
    }

    method EnqueueResponse(response: Message)
      modifies this`outputBuffer
      ensures outputBuffer == old(outputBuffer) + if present then Frame(Serialized(response)) else []
    {
      var payload := SerializeMessage(response);
      LowFourBytes(|payload|);
      var serialized := NetworkOrder(|payload| % TWO_32);
      serialized := serialized + payload;
      if !present {
        return;
      }
      outputBuffer := outputBuffer + serialized;
    }

    /** The send loop, by the run of its sends. */
    method SendBuffered(outcomes: seq<SendOutcome>) returns (onWire: Bytes)
      requires present
      modifies this`outputBuffer, this`present
      ensures onWire == old(outputBuffer)[..SendRun(|old(outputBuffer)|, outcomes).0]
      ensures present <==> !SendRun(|old(outputBuffer)|, outcomes).1
      ensures present ==> outputBuffer == old(outputBuffer)[|onWire|..]
    {
      onWire := [];
      if outputBuffer == [] {
        return;
      }
      var data := outputBuffer;
      outputBuffer := [];
      var total, next := 0, 0;
      while total < |data|
        invariant 0 <= total <= |data| && 0 <= next <= |outcomes|
        invariant present && outputBuffer == [] && onWire == data[..total]
        invariant var (all, rest) := (SendRun(|data|, outcomes), SendRun(|data| - total, outcomes[next..]));
          all == (total + rest.0, rest.1)
        decreases |outcomes| - next
      {
        var outcome := if next < |outcomes| then outcomes[next] else WouldBlock;
        match outcome {
          case Accepted(n) =>
            var sent := if n < |data| - total then n else |data| - total;
            assert outcomes[next..][1..] == outcomes[next + 1..];
            onWire := onWire + data[total..total + sent];
            total := total + sent;
            next := next + 1;
          case WouldBlock =>
            outputBuffer := data[total..] + outputBuffer;
            return;
          case Failed =>
            Remove();
            return;
        }
      }
    }

    /**
     * Drains the output buffer through the sends. Take the sends that accept, up to any point: if they accept the whole
     * buffer, all of it is on the wire; if they do not and the next would block, exactly what they accept is, and the
     * rest is put back; if the next breaks the connection, exactly that much is and the connection is removed.
     */
    method HandleWrite(outcomes: seq<SendOutcome>) returns (onWire: Bytes)
      requires present
      modifies this`outputBuffer, this`present
      ensures forall k :: Enough(|old(outputBuffer)|, outcomes, k) ==>
        present && onWire == old(outputBuffer) && outputBuffer == []
      ensures forall k :: Short(|old(outputBuffer)|, outcomes, k) && (k == |outcomes| || outcomes[k].WouldBlock?) ==>
        present && onWire == old(outputBuffer)[..Sum(outcomes[..k])]
        && outputBuffer == old(outputBuffer)[Sum(outcomes[..k])..]
      ensures forall k :: Short(|old(outputBuffer)|, outcomes, k) && k < |outcomes| && outcomes[k].Failed? ==>
        !present && onWire == old(outputBuffer)[..Sum(outcomes[..k])]
      ensures onWire == old(outputBuffer)[..SendRun(|old(outputBuffer)|, outcomes).0]
      ensures present <==> !SendRun(|old(outputBuffer)|, outcomes).1
      ensures present ==> onWire + outputBuffer == old(outputBuffer)
    {
      ghost var size := |outputBuffer|;
      onWire := SendBuffered(outcomes);
      forall k: nat {
        SendRunIs(size, outcomes, k);
      }
    }
  }
}
