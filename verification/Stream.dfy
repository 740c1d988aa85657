/** One direction of a TCP connection end to end: messages enqueued on one side, sends and reads of
    any size in any order, messages decoded on the other. */
module Stream {
  import opened Basics
  import opened WireFormat
  import opened Messages
  import opened Framing
  import opened Connection
  import opened MessageWriter

  /** The link between two nodes. The wire holds bytes sent and not yet read, in order. The last
      four fields are history: what was enqueued, read and decoded, and whether the link ever broke. */
  datatype Link = Link(
    senderUp: bool, output: Bytes, wire: Bytes, receiver: Conn,
    sent: seq<Message>, read: Bytes, decoded: seq<Message>, lost: bool)

  datatype Step =
    | Enqueue(m: Message)
    | Write(outcomes: seq<SendOutcome>)
    | Read(chunks: seq<nat>)          // sizes of the chunks that recv returns before it would block
    | DropReceiver                    // recv reports end of stream or an error, or the socket hangs up

  const IDLE := Link(true, [], [], FRESH, [], [], [], false)

  /** Bytes cut into chunks of the given sizes; a chunk never exceeds what is there. */
  function Cut(b: Bytes, sizes: seq<nat>): (r: (seq<Bytes>, Bytes))
    ensures Concat(r.0) + r.1 == b
    decreases |sizes|
  {
    if sizes == [] then
      assert Concat([]) + b == b;
      ([], b)
    else
      var last := |sizes| - 1;
      var (chunks, rest) := Cut(b, sizes[..last]);
      var k := if sizes[last] < |rest| then sizes[last] else |rest|;
      assert (chunks + [rest[..k]])[..|chunks|] == chunks;
      assert rest[..k] + rest[k..] == rest;
      AppendAssociates(Concat(chunks), rest[..k], rest[k..]);
      (chunks + [rest[..k]], rest[k..])
  }

  /** One step, as HandleRead, HandleWrite and EnqueueResponse perform it. */
  function Next(s: Link, step: Step): Link
    requires WellFormed(s.receiver)
  {
    match step
    case Enqueue(m) =>
      if s.senderUp then s.(output := s.output + Frame(Serialized(m)), sent := s.sent + [m]) else s
    case Write(outcomes) =>
      if !s.senderUp then s else
        var (n, broke) := SendRun(|s.output|, outcomes);
        s.(wire := s.wire + s.output[..n],
           output := if broke then [] else s.output[n..],
           senderUp := !broke, lost := s.lost || broke)
    case Read(sizes) =>
      if s.receiver.Closed? then s else
        var (chunks, rest) := Cut(s.wire, sizes);
        var (payloads, receiver) := Feed(s.receiver, Concat(chunks));
        s.(wire := rest, receiver := receiver, read := s.read + Concat(chunks),
           decoded := s.decoded + DecodeAll(payloads))
    case DropReceiver => s.(receiver := Closed, lost := true)
  }

  function Run(steps: seq<Step>): (s: Link)
    ensures WellFormed(s.receiver)
    decreases |steps|
  {
    if steps == [] then IDLE else Next(Run(steps[..|steps| - 1]), steps[|steps| - 1])
  }

  /** All bytes enqueued: the frames of the messages in order. */
  function StreamOf(ms: seq<Message>): Bytes {
    Frames(SerializeAll(ms))
  }

  /** Bytes are conserved and in order, and the receiver is where reading them in one go would be. */
  ghost predicate Consistent(s: Link) {
    && WellFormed(s.receiver)
    && (!s.lost ==> s.senderUp)
    && s.read + s.wire <= StreamOf(s.sent)
    && (s.senderUp ==> s.read + s.wire + s.output == StreamOf(s.sent))
    && s.decoded == DecodeAll(Feed(FRESH, s.read).0)
    && (s.receiver.Closed? || s.receiver == Feed(FRESH, s.read).1)
    && (!s.lost ==> s.receiver == Feed(FRESH, s.read).1)
  }

  lemma EnqueueExtends(ms: seq<Message>, m: Message)
    ensures StreamOf(ms + [m]) == StreamOf(ms) + Frame(Serialized(m))
  {
    assert SerializeAll(ms + [m]) == SerializeAll(ms) + [Serialized(m)];
    FramesAppend(SerializeAll(ms), [Serialized(m)]);
    OneFrame(Serialized(m));
  }

  lemma EnqueueKeeps(s: Link, m: Message)
    requires Consistent(s)
    ensures Consistent(Next(s, Enqueue(m)))
  {
    EnqueueExtends(s.sent, m);
    AppendAssociates(s.read + s.wire, s.output, Frame(Serialized(m)));
  }

  lemma WriteKeeps(s: Link, outcomes: seq<SendOutcome>)
    requires Consistent(s)
    ensures Consistent(Next(s, Write(outcomes)))
  {
    var (n, broke) := SendRun(|s.output|, outcomes);
    assert s.output[..n] + s.output[n..] == s.output;
    AppendAssociates(s.read, s.wire, s.output[..n]);
    AppendAssociates(s.read + s.wire, s.output[..n], s.output[n..]);
  }

  lemma ReadKeeps(s: Link, sizes: seq<nat>)
    requires Consistent(s)
    ensures Consistent(Next(s, Read(sizes)))
  {
    if s.receiver.Open? {
      var (chunks, rest) := Cut(s.wire, sizes);
      var b := Concat(chunks);
      FeedInTwo(FRESH, s.read, b);
      DecodeAllAppends(Feed(FRESH, s.read).0, Feed(s.receiver, b).0);
      AppendAssociates(s.read, b, rest);
    }
  }

  lemma DropKeeps(s: Link)
    requires Consistent(s)
    ensures Consistent(Next(s, DropReceiver))
  {
  }

  lemma IdleIsConsistent()
    ensures Consistent(IDLE)
  {
    assert SerializeAll([]) == [];
    assert FRESH.buffer + [] == FRESH.buffer;
  }

  lemma {:induction false} RunIsConsistent(steps: seq<Step>)
    ensures Consistent(Run(steps))
    decreases |steps|
  {
    if steps == [] {
      IdleIsConsistent();
    } else {
      var before := steps[..|steps| - 1];
      RunIsConsistent(before);
      match steps[|steps| - 1]
      case Enqueue(m) => EnqueueKeeps(Run(before), m);
      case Write(outcomes) => WriteKeeps(Run(before), outcomes);
      case Read(sizes) => ReadKeeps(Run(before), sizes);
      case DropReceiver => DropKeeps(Run(before));
    }
  }

  /** The messages before the first whose serialised form does not fit a frame. */
  function Deliverable(ms: seq<Message>): (r: seq<Message>)
    ensures r <= ms
  {
    ms[..|Leading(SerializeAll(ms))|]
  }

  lemma DeliverableIsLeading(ms: seq<Message>)
    ensures SerializeAll(Deliverable(ms)) == Leading(SerializeAll(ms))
    ensures Deliverable(ms) == ms <==> forall m :: m in ms ==> |Serialized(m)| <= MAX_MESSAGE_SIZE
  {
    var ps := SerializeAll(ms);
    assert SerializeAll(Deliverable(ms)) == ps[..|Leading(ps)|];
    assert Deliverable(ms) == ms <==> Leading(ps) == ps;
    FitsIsAcceptable(ms, ps);
  }

  lemma FitsIsAcceptable(ms: seq<Message>, ps: seq<Bytes>)
    requires |ps| == |ms| && forall i :: 0 <= i < |ms| ==> ps[i] == Serialized(ms[i])
    ensures (forall p :: p in ps ==> Acceptable(p)) <==> (forall m :: m in ms ==> |Serialized(m)| <= MAX_MESSAGE_SIZE)
  {
    forall i | 0 <= i < |ms| ensures Acceptable(ps[i]) <==> |Serialized(ms[i])| <= MAX_MESSAGE_SIZE {
      if |Serialized(ms[i])| <= MAX_MESSAGE_SIZE {
        ShortMessageFits(ms[i]);
      }
    }
    assert forall i :: 0 <= i < |ms| ==> ps[i] in ps && ms[i] in ms;
  }

  lemma DeliverableIsShort(ms: seq<Message>)
    ensures forall m :: m in Deliverable(ms) ==> |Serialized(m)| <= MAX_MESSAGE_SIZE
  {
    var ps := SerializeAll(ms);
    forall i | 0 <= i < |Leading(ps)| ensures |Serialized(ms[i])| <= MAX_MESSAGE_SIZE {
      assert Leading(ps)[i] == ps[i] && Leading(ps)[i] in Leading(ps);
    }
  }

  /** The first message over 16 MiB, if any, has a length field that shows it; below 2^32 bytes each one's does. */
  predicate CutShowsIn(ms: seq<Message>) {
    CutShows(SerializeAll(ms))
  }

  /** Reading the whole stream in one go. */
  lemma WholeStream(ms: seq<Message>)
    requires CutShowsIn(ms)
    ensures DecodeAll(Feed(FRESH, StreamOf(ms)).0) == Deliverable(ms)
  {
    assert FRESH.buffer + StreamOf(ms) == StreamOf(ms);
    FramesDrain(SerializeAll(ms));
    DeliverableIsLeading(ms);
    DeliverableIsShort(ms);
    SerializedDecode(Deliverable(ms));
  }

  /** Safety: after any steps at all, broken connections included, the messages decoded are a
      prefix of the messages enqueued, and none was sent after the first oversized one. */
  lemma DecodedIsPrefixOfSent(steps: seq<Step>)
    requires CutShowsIn(Run(steps).sent)
    ensures Run(steps).decoded <= Deliverable(Run(steps).sent) <= Run(steps).sent
  {
    var s := Run(steps);
    RunIsConsistent(steps);
    PrefixDecodes(s.read, StreamOf(s.sent));
    WholeStream(s.sent);
  }

  lemma PrefixDecodes(a: Bytes, b: Bytes)
    requires a <= b
    ensures DecodeAll(Feed(FRESH, a).0) <= DecodeAll(Feed(FRESH, b).0)
  {
    var rest := b[|a|..];
    assert b == a + rest;
    FeedInTwo(FRESH, a, rest);
    DecodeAllAppends(Feed(FRESH, a).0, Feed(Feed(FRESH, a).1, rest).0);
  }

  /** Everything enqueued has been read, or the framer has closed the connection, on a link that
      never broke. */
  predicate Settled(s: Link) {
    !s.lost && (s.receiver.Closed? || (s.output == [] && s.wire == []))
  }

  /** Completeness: once settled, exactly the messages before the first oversized one have been
      decoded. */
  lemma SettledIsDelivered(steps: seq<Step>)
    requires CutShowsIn(Run(steps).sent)
    requires Settled(Run(steps))
    ensures Run(steps).decoded == Deliverable(Run(steps).sent)
  {
    var s := Run(steps);
    RunIsConsistent(steps);
    WholeStream(s.sent);
    if s.receiver.Closed? {
      ClosedIsFinal(s.read, StreamOf(s.sent));
    } else {
      assert s.read + [] + [] == s.read;
    }
  }

  lemma ClosedIsFinal(a: Bytes, b: Bytes)
    requires a <= b && Feed(FRESH, a).1 == Closed
    ensures Feed(FRESH, b) == Feed(FRESH, a)
  {
    var rest := b[|a|..];
    assert b == a + rest;
    FeedInTwo(FRESH, a, rest);
    assert Feed(FRESH, a).0 + [] == Feed(FRESH, a).0;
  }

  lemma {:induction false} CollectAll<A, B>(f: A -> seq<B>, s: seq<A>, ok: B -> bool)
    requires forall x, y :: x in s && y in f(x) ==> ok(y)
    ensures forall y :: y in Collect(f, s) ==> ok(y)
  {
    if s != [] {
      CollectAll(f, s[..|s| - 1], ok);
    }
  }

  lemma DecodedAreShort(payloads: seq<Bytes>)
    requires forall p :: p in payloads ==> Acceptable(p)
    ensures forall m :: m in DecodeAll(payloads) ==> |Serialized(m)| <= MAX_MESSAGE_SIZE
  {
    forall p, m | p in payloads && m in DecodeOne(p) ensures |Serialized(m)| <= MAX_MESSAGE_SIZE {
      DecodedIsShorter(p);
    }
    CollectAll(DecodeOne, payloads, (m: Message) => |Serialized(m)| <= MAX_MESSAGE_SIZE);
  }

  /** Exactly when everything arrives: once settled, the messages decoded are the messages enqueued
      if and only if every one of them fits a frame. */
  lemma AllDeliveredIffAllFit(steps: seq<Step>)
    requires Settled(Run(steps))
    ensures Run(steps).decoded == Run(steps).sent
       <==> forall m :: m in Run(steps).sent ==> |Serialized(m)| <= MAX_MESSAGE_SIZE
  {
    var s := Run(steps);
    if forall m :: m in s.sent ==> |Serialized(m)| <= MAX_MESSAGE_SIZE {
      DeliverableIsLeading(s.sent);
      SettledIsDelivered(steps);
    }
    if s.decoded == s.sent {
      RunIsConsistent(steps);
      DrainedIsAcceptable(Arrived(FRESH, s.read));
      DecodedAreShort(Feed(FRESH, s.read).0);
    }
  }

  // ---- Everything sent can still arrive ----

  /** One send that takes the whole output buffer, and one read that takes the whole wire. */
  function Flush(steps: seq<Step>): seq<Step> {
    (steps + [Write([Accepted(|Run(steps).output|)])]) + [Read([|Run(steps).wire| + |Run(steps).output|])]
  }

  lemma WholeBufferSent(s: Link, n: nat)
    requires WellFormed(s.receiver) && s.senderUp && n == |s.output|
    ensures Next(s, Write([Accepted(n)])) == s.(wire := s.wire + s.output, output := [])
  {
    assert [Accepted(n)][1..] == [];
    assert SendRun(n, [Accepted(n)]) == (n, false);
    assert s.output[..n] == s.output && s.output[n..] == [];
  }

  lemma WholeWireRead(s: Link, n: nat)
    requires WellFormed(s.receiver) && n == |s.wire|
    ensures var s' := Next(s, Read([n])); s'.lost == s.lost && s'.sent == s.sent && s'.output == s.output
    ensures var s' := Next(s, Read([n])); s'.receiver.Closed? || s'.wire == []
  {
    assert [n][..0] == [] && Cut(s.wire, []) == ([], s.wire);
  }

  lemma TwoMore(steps: seq<Step>, a: Step, b: Step)
    ensures Run((steps + [a]) + [b]) == Next(Next(Run(steps), a), b)
  {
    OneMore(steps, a);
    OneMore(steps + [a], b);
  }

  lemma LinkCanSettle(s: Link)
    requires WellFormed(s.receiver) && s.senderUp && !s.lost
    ensures var s' := Next(Next(s, Write([Accepted(|s.output|)])), Read([|s.wire| + |s.output|]));
      Settled(s') && s'.sent == s.sent
  {
    WholeBufferSent(s, |s.output|);
    WholeWireRead(s.(wire := s.wire + s.output, output := []), |s.wire| + |s.output|);
  }

  /** Progress: from any point of a run whose link has not broken, two more steps settle it, enqueuing nothing. */
  lemma CanAlwaysSettle(steps: seq<Step>)
    requires !Run(steps).lost
    ensures Settled(Run(Flush(steps))) && Run(Flush(steps)).sent == Run(steps).sent
  {
    assert Run(steps).senderUp by { RunIsConsistent(steps); }
    TwoMore(steps, Write([Accepted(|Run(steps).output|)]), Read([|Run(steps).wire| + |Run(steps).output|]));
    LinkCanSettle(Run(steps));
  }

  /** So if every message enqueued so far fits a frame, all of them can still be decoded, in order. */
  lemma AllCanArrive(steps: seq<Step>)
    requires !Run(steps).lost && forall m :: m in Run(steps).sent ==> |Serialized(m)| <= MAX_MESSAGE_SIZE
    ensures Run(Flush(steps)).decoded == Run(steps).sent
  {
    CanAlwaysSettle(steps);
    AllDeliveredIffAllFit(Flush(steps));
  }

  // ---- Why the length field must show an oversized message ----

  /** Messages below 2^32 bytes, whatever their number, meet the condition. */
  lemma ShortMessagesShow(ms: seq<Message>)
    requires forall m :: m in ms ==> |Serialized(m)| < TWO_32
    ensures CutShowsIn(ms)
  {
    forall p | p in SerializeAll(ms) ensures 0 < |p| < TWO_32 {
      var i :| 0 <= i < |ms| && SerializeAll(ms)[i] == p;
      assert ms[i] in ms;
      ShortMessageFits(ms[i]);
    }
    ShortCutShows(SerializeAll(ms));
  }

  function MisreadSteps(m: Message, n: nat): seq<Step> {
    [] + [Enqueue(m)] + [Write([Accepted(n)])] + [Read([n])]
  }

  lemma FirstEnqueued(m: Message, b: Bytes)
    requires b == Frame(Serialized(m))
    ensures Next(IDLE, Enqueue(m)) == IDLE.(output := b, sent := [m])
  {
    assert [] + b == b && [] + [m] == [m];
  }

  lemma SomeSent(s: Link, n: nat)
    requires WellFormed(s.receiver) && s.senderUp && s.wire == [] && 0 < n <= |s.output|
    ensures Next(s, Write([Accepted(n)])) == s.(wire := s.output[..n], output := s.output[n..])
  {
    assert [Accepted(n)][1..] == [];
    assert SendRun(|s.output|, [Accepted(n)]) == (n, false);
    assert [] + s.output[..n] == s.output[..n];
  }

  lemma AllRead(s: Link)
    requires WellFormed(s.receiver) && s.receiver.Open? && s.read == []
    ensures var s' := Next(s, Read([|s.wire|])); s'.read == s.wire && s'.sent == s.sent
  {
    var n, wire := |s.wire|, s.wire;
    assert [n][..0] == [] && Cut(wire, []) == ([], wire);
    assert wire[..n] == wire && Cut(wire, [n]).0 == [wire];
    var chunks: seq<Bytes> := [wire];
    assert chunks[..0] == [] && Concat(chunks) == [] + wire == wire;
  }

  lemma OneMore(steps: seq<Step>, step: Step)
    ensures Run(steps + [step]) == Next(Run(steps), step)
  {
    assert (steps + [step])[..|steps|] == steps;
  }

  /** One message enqueued, its first n bytes sent and read. */
  lemma FirstBytesRead(m: Message, n: nat, b: Bytes)
    requires b == Frame(Serialized(m)) && 0 < n <= |b|
    ensures Run(MisreadSteps(m, n)).sent == [m] && Run(MisreadSteps(m, n)).read == b[..n]
  {
    OneMore([], Enqueue(m));
    OneMore([] + [Enqueue(m)], Write([Accepted(n)]));
    OneMore([] + [Enqueue(m)] + [Write([Accepted(n)])], Read([n]));
    FirstEnqueued(m, b);
    SomeSent(IDLE.(output := b, sent := [m]), n);
    AllRead(IDLE.(output := b[n..], sent := [m], wire := b[..n]));
  }

  /**
   * A response text of 2^32 bytes has length prefix 0 and frame length 2^32 too small: the receiver decodes the message
   * without its text, which was never enqueued.
   */
  lemma HugeResponseIsMisread(m: Message, short: Message)
    requires |m.responseText| == TWO_32 && short == m.(responseText := [])
    requires |Serialized(short)| <= MAX_MESSAGE_SIZE
    ensures var s := Run(MisreadSteps(m, 4 + |Serialized(short)|)); s.sent == [m] && s.decoded == [short] && short != m
  {
    var n, steps := 4 + |Serialized(short)|, MisreadSteps(m, 4 + |Serialized(short)|);
    assert Serialized(m) == Serialized(short) + m.responseText by { HugeResponse(m, short); }
    HugeFrame(Serialized(short), m.responseText);
    FirstBytesRead(m, n, Frame(Serialized(m)));
    assert Run(steps).decoded == DecodeAll(Feed(FRESH, Frame(Serialized(short))).0) by { RunIsConsistent(steps); }
    FrameDecodes(short);
  }

  lemma FrameDecodes(m: Message)
    requires |Serialized(m)| <= MAX_MESSAGE_SIZE
    ensures DecodeAll(Feed(FRESH, Frame(Serialized(m))).0) == [m]
  {
    ShortMessagesShow([m]);
    WholeStream([m]);
    DeliverableIsLeading([m]);
    assert SerializeAll([m]) == [Serialized(m)];
    OneFrame(Serialized(m));
  }

  lemma HugeFrame(payload: Bytes, text: Bytes)
    requires |text| == TWO_32
    ensures |Frame(payload + text)| >= 4 + |payload| && Frame(payload + text)[..4 + |payload|] == Frame(payload)
  {
    FourBytesAreAWord();
    SameLowSameBytes(|payload| + TWO_32, |payload|, 4);
  }
}
