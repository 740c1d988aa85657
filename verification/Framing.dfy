/** Length-prefixed framing of a byte stream: what the incremental framer extracts from any bytes,
    however they are cut into reads. */
module Framing {
  import opened Basics
  import opened WireFormat
  import opened Messages

  const MAX_MESSAGE_SIZE := 16 * 1024 * 1024

  /** The receiving side of one connection; Closed once it has been removed. */
  datatype Conn =
    | Open(buffer: Bytes, readingHeader: bool, expected: nat)
    | Closed

  const FRESH := Open([], true, 0)

  /** Not reading a header implies a payload length that passed the sanity check. */
  predicate WellFormed(c: Conn) {
    c.Open? && !c.readingHeader ==> 1 <= c.expected <= MAX_MESSAGE_SIZE
  }

  /** Extracts every payload that is complete in the buffer; each round consumes a byte or stops. */
  function Drain(c: Conn): (r: (seq<Bytes>, Conn))
    requires WellFormed(c)
    ensures WellFormed(r.1)
    decreases if c.Open? then |c.buffer| else 0
  {
    if c.Closed? then ([], c)
    else if c.readingHeader then
      if |c.buffer| < 4 then ([], c) else
        var length := FromBigEndian(c.buffer[..4]);
        if length == 0 || length > MAX_MESSAGE_SIZE then ([], Closed)
        else Drain(Open(c.buffer[4..], false, length))
    else if |c.buffer| < c.expected then ([], c)
    else
      var (payloads, c') := Drain(Open(c.buffer[c.expected..], true, 0));
      ([c.buffer[..c.expected]] + payloads, c')
  }

  function Arrived(c: Conn, b: Bytes): Conn {
    if c.Open? then c.(buffer := c.buffer + b) else c
  }

  /** One read of b: the payloads it completes and the connection afterwards. */
  function Feed(c: Conn, b: Bytes): (r: (seq<Bytes>, Conn))
    requires WellFormed(c)
    ensures WellFormed(r.1)
  {
    Drain(Arrived(c, b))
  }

  /** Nothing can be extracted before more bytes arrive. */
  predicate Stalled(c: Conn) {
    c.Closed? || |c.buffer| < if c.readingHeader then 4 else c.expected
  }

  /** One round of the framer: a header, or a payload. */
  function Round(c: Conn): (r: (seq<Bytes>, Conn))
    requires WellFormed(c) && !Stalled(c)
    ensures WellFormed(r.1) && (r.1.Open? ==> |r.1.buffer| < |c.buffer|)
  {
    if c.readingHeader then
      var length := FromBigEndian(c.buffer[..4]);
      ([], if length == 0 || length > MAX_MESSAGE_SIZE then Closed else Open(c.buffer[4..], false, length))
    else ([c.buffer[..c.expected]], Open(c.buffer[c.expected..], true, 0))
  }

  lemma DrainRound(c: Conn)
    requires WellFormed(c) && !Stalled(c)
    ensures var (out, next) := Round(c); Drain(c) == (out + Drain(next).0, Drain(next).1)
  {
    assert c.readingHeader ==> Round(c).0 + Drain(Round(c).1).0 == Drain(Round(c).1).0;
  }

  lemma RoundIgnoresMore(c: Conn, b: Bytes)
    requires WellFormed(c) && !Stalled(c)
    ensures !Stalled(Arrived(c, b)) && Round(Arrived(c, b)) == (Round(c).0, Arrived(Round(c).1, b))
  {
    var k := if c.readingHeader then 4 else c.expected;
    assert (c.buffer + b)[..k] == c.buffer[..k] && (c.buffer + b)[k..] == c.buffer[k..] + b;
  }

  lemma {:induction false} DrainThenMore(c: Conn, b: Bytes)
    requires WellFormed(c)
    ensures var (first, c') := Drain(c);
      var (second, c'') := Feed(c', b);
      Drain(Arrived(c, b)) == (first + second, c'')
    decreases if c.Open? then |c.buffer| + 1 else 0
  {
    if Stalled(c) {
      assert [] + Feed(c, b).0 == Feed(c, b).0;
    } else {
      var (out, next) := Round(c);
      RoundIgnoresMore(c, b);
      DrainRound(c);
      DrainRound(Arrived(c, b));
      DrainThenMore(next, b);
      AppendAssociates(out, Drain(next).0, Feed(Drain(next).1, b).0);
    }
  }

  /** Where a read is cut makes no difference: payloads, residual state and closing all agree. */
  lemma FeedInTwo(c: Conn, a: Bytes, b: Bytes)
    requires WellFormed(c)
    ensures var (first, c') := Feed(c, a);
      var (second, c'') := Feed(c', b);
      Feed(c, a + b) == (first + second, c'')
  {
    DrainThenMore(Arrived(c, a), b);
    if c.Open? {
      AppendAssociates(c.buffer, a, b);
    }
  }

  function Concat(chunks: seq<Bytes>): Bytes {
    if chunks == [] then [] else Concat(chunks[..|chunks| - 1]) + chunks[|chunks| - 1]
  }

  function FeedAll(c: Conn, chunks: seq<Bytes>): (r: (seq<Bytes>, Conn))
    requires WellFormed(c)
    ensures WellFormed(r.1)
    decreases |chunks|
  {
    if chunks == [] then ([], c) else
      var (first, c') := FeedAll(c, chunks[..|chunks| - 1]);
      var (second, c'') := Feed(c', chunks[|chunks| - 1]);
      (first + second, c'')
  }

  /** A connection with nothing left to extract, as every completed read leaves it. */
  predicate Settled(c: Conn)
    requires WellFormed(c)
  {
    Drain(c) == ([], c)
  }

  lemma {:induction false} DrainSettles(c: Conn)
    requires WellFormed(c)
    ensures Settled(Drain(c).1)
    decreases if c.Open? then |c.buffer| else 0
  {
    if c.Open? && c.readingHeader && |c.buffer| >= 4 {
      var length := FromBigEndian(c.buffer[..4]);
      if 1 <= length <= MAX_MESSAGE_SIZE {
        DrainSettles(Open(c.buffer[4..], false, length));
      }
    } else if c.Open? && !c.readingHeader && |c.buffer| >= c.expected {
      DrainSettles(Open(c.buffer[c.expected..], true, 0));
    }
  }

  /** Any cutting of the same bytes, well formed or not, gives the same result as one read. */
  lemma {:induction false} ChunkingDoesNotMatter(c: Conn, chunks: seq<Bytes>)
    requires WellFormed(c) && Settled(c)
    ensures FeedAll(c, chunks) == Feed(c, Concat(chunks))
    decreases |chunks|
  {
    if chunks == [] {
      assert Arrived(c, []) == c by {
        if c.Open? { assert c.buffer + [] == c.buffer; }
      }
    } else {
      var last := |chunks| - 1;
      ChunkingDoesNotMatter(c, chunks[..last]);
      FeedInTwo(c, Concat(chunks[..last]), chunks[last]);
    }
  }

  // ---- Frames ----

  /** The frame of a payload; its length field is the low 32 bits of the length. */
  function Frame(payload: Bytes): Bytes {
    ToBigEndian(|payload|, 4) + payload
  }

  function Frames(payloads: seq<Bytes>): Bytes {
    if payloads == [] then [] else Frame(payloads[0]) + Frames(payloads[1..])
  }

  lemma OneFrame(p: Bytes)
    ensures Frames([p]) == Frame(p)
  {
    assert [p][1..] == [] && Frame(p) + [] == Frame(p);
  }

  lemma {:induction false} FramesAppend(ps: seq<Bytes>, qs: seq<Bytes>)
    ensures Frames(ps + qs) == Frames(ps) + Frames(qs)
  {
    if ps == [] {
      assert [] + qs == qs;
      assert Frames([]) + Frames(qs) == Frames(qs);
    } else {
      FramesAppend(ps[1..], qs);
      assert (ps + qs)[1..] == ps[1..] + qs && (ps + qs)[0] == ps[0];
      AppendAssociates(Frame(ps[0]), Frames(ps[1..]), Frames(qs));
    }
  }

  predicate Acceptable(payload: Bytes) {
    1 <= |payload| <= MAX_MESSAGE_SIZE
  }

  /** The payloads before the first one that is empty or too long. */
  function Leading(payloads: seq<Bytes>): (r: seq<Bytes>)
    ensures r <= payloads
    ensures r == payloads <==> forall p :: p in payloads ==> Acceptable(p)
    ensures forall p :: p in r ==> Acceptable(p)
  {
    if payloads == [] || !Acceptable(payloads[0]) then [] else [payloads[0]] + Leading(payloads[1..])
  }

  /** A length field that the framer takes for the length of a payload. */
  predicate TakenForLength(n: nat) {
    1 <= n <= MAX_MESSAGE_SIZE
  }

  /** The first unacceptable payload, if any, has a length field that shows it: the low 32 bits are no length either. */
  predicate CutShows(payloads: seq<Bytes>) {
    var k := |Leading(payloads)|;
    k < |payloads| ==> !TakenForLength(|payloads[k]| % TWO_32)
  }

  lemma {:induction false} LeadingStops(payloads: seq<Bytes>)
    requires |Leading(payloads)| < |payloads|
    ensures !Acceptable(payloads[|Leading(payloads)|])
  {
    if Acceptable(payloads[0]) {
      LeadingStops(payloads[1..]);
    }
  }

  /** Below 2^32 bytes the length field is the length. */
  lemma ShortCutShows(payloads: seq<Bytes>)
    requires forall p :: p in payloads ==> 0 < |p| < TWO_32
    ensures CutShows(payloads)
  {
    if |Leading(payloads)| < |payloads| {
      LeadingStops(payloads);
      assert payloads[|Leading(payloads)|] in payloads;
    }
  }

  lemma HeaderTaken(p: Bytes, more: Bytes, b: Bytes)
    requires b == Frame(p) + more
    ensures |b| >= 4 && FromBigEndian(b[..4]) == |p| % TWO_32 && b[4..] == p + more
  {
    FourBytesAreAWord();
    BigEndianKeepsLow(|p|, 4);
    assert b[..4] == ToBigEndian(|p|, 4) && b[4..] == p + more;
  }

  lemma AcceptableDrains(p: Bytes, more: Bytes, b: Bytes)
    requires Acceptable(p) && b == Frame(p) + more
    ensures Drain(Open(b, true, 0)) == ([p] + Drain(Open(more, true, 0)).0, Drain(Open(more, true, 0)).1)
  {
    HeaderTaken(p, more, b);
    assert (p + more)[..|p|] == p && (p + more)[|p|..] == more;
    assert Drain(Open(b, true, 0)) == Drain(Open(p + more, false, |p|));
  }

  lemma RefusedCloses(p: Bytes, more: Bytes, b: Bytes)
    requires !TakenForLength(|p| % TWO_32) && b == Frame(p) + more
    ensures Drain(Open(b, true, 0)) == ([], Closed)
  {
    HeaderTaken(p, more, b);
  }

  /**
   * A fresh framer given whole frames: the payloads come out one for one up to the first unacceptable one, whose
   * header closes the connection.
   */
  lemma {:induction false} FramesDrain(payloads: seq<Bytes>)
    requires CutShows(payloads)
    ensures Drain(Open(Frames(payloads), true, 0))
      == (Leading(payloads), if Leading(payloads) == payloads then FRESH else Closed)
  {
    if payloads == [] {
    } else {
      var p, rest := payloads[0], payloads[1..];
      if Acceptable(p) {
        AcceptableDrains(p, Frames(rest), Frames(payloads));
        CutShowsLater(payloads);
        FramesDrain(rest);
      } else {
        RefusedCloses(p, Frames(rest), Frames(payloads));
      }
    }
  }

  lemma CutShowsLater(payloads: seq<Bytes>)
    requires payloads != [] && Acceptable(payloads[0])
    ensures Leading(payloads) == [payloads[0]] + Leading(payloads[1..])
    ensures CutShows(payloads) ==> CutShows(payloads[1..])
    ensures Leading(payloads) == payloads <==> Leading(payloads[1..]) == payloads[1..]
  {
    assert payloads == [payloads[0]] + payloads[1..];
  }

  /** Payloads handed on are of acceptable length, whatever bytes came in. */
  lemma {:induction false} DrainedIsAcceptable(c: Conn)
    requires WellFormed(c)
    ensures forall p :: p in Drain(c).0 ==> Acceptable(p)
    decreases if c.Open? then |c.buffer| else 0
  {
    if c.Open? && c.readingHeader && |c.buffer| >= 4 {
      var length := FromBigEndian(c.buffer[..4]);
      if 1 <= length <= MAX_MESSAGE_SIZE {
        DrainedIsAcceptable(Open(c.buffer[4..], false, length));
      }
    } else if c.Open? && !c.readingHeader && |c.buffer| >= c.expected {
      DrainedIsAcceptable(Open(c.buffer[c.expected..], true, 0));
    }
  }

  // ---- Messages in frames ----

  /** The elements that f yields, in order. */
  function Collect<A, B>(f: A -> seq<B>, s: seq<A>): seq<B> {
    if s == [] then [] else Collect(f, s[..|s| - 1]) + f(s[|s| - 1])
  }

  lemma {:induction false} CollectAppends<A, B>(f: A -> seq<B>, s: seq<A>, t: seq<A>)
    ensures Collect(f, s + t) == Collect(f, s) + Collect(f, t)
    decreases |t|
  {
    if t == [] {
      assert s + t == s;
    } else {
      var last := |t| - 1;
      CollectAppends(f, s, t[..last]);
      assert (s + t)[..|s| + last] == s + t[..last] && (s + t)[|s| + last] == t[last];
      AppendAssociates(Collect(f, s), Collect(f, t[..last]), f(t[last]));
    }
  }

  function DecodeOne(payload: Bytes): seq<Message> {
    match Deserialized(payload)
    case None => []
    case Some(m) => [m]
  }

  /** The messages that a list of payloads yields; a payload that does not decode is skipped. */
  function DecodeAll(payloads: seq<Bytes>): seq<Message> {
    Collect(DecodeOne, payloads)
  }

  lemma DecodeAllAppends(ps: seq<Bytes>, qs: seq<Bytes>)
    ensures DecodeAll(ps + qs) == DecodeAll(ps) + DecodeAll(qs)
  {
    CollectAppends(DecodeOne, ps, qs);
  }

  lemma {:induction false} CollectInverse<A, B>(f: A -> seq<B>, s: seq<A>, t: seq<B>)
    requires |s| == |t| && forall i :: 0 <= i < |s| ==> f(s[i]) == [t[i]]
    ensures Collect(f, s) == t
  {
    if s != [] {
      var last := |s| - 1;
      CollectInverse(f, s[..last], t[..last]);
      assert t == t[..last] + [t[last]];
    }
  }

  function SerializeAll(ms: seq<Message>): (ps: seq<Bytes>)
    ensures |ps| == |ms| && forall i :: 0 <= i < |ms| ==> ps[i] == Serialized(ms[i])
  {
    seq(|ms|, i requires 0 <= i < |ms| => Serialized(ms[i]))
  }

  lemma SerializedDecode(ms: seq<Message>)
    requires forall m :: m in ms ==> |Serialized(m)| < TWO_32
    ensures DecodeAll(SerializeAll(ms)) == ms
  {
    forall i | 0 <= i < |ms| ensures DecodeOne(SerializeAll(ms)[i]) == [ms[i]] {
      SerializedDecodes(ms[i]);
    }
    CollectInverse(DecodeOne, SerializeAll(ms), ms);
  }

  lemma SerializedDecodes(m: Message)
    requires |Serialized(m)| < TWO_32
    ensures Deserialized(Serialized(m)) == Some(m)
  {
    ShortMessageFits(m);
    RoundTrip(m, []);
    assert Serialized(m) + [] == Serialized(m);
  }

  /** A message decoded from a payload is no longer than the payload. */
  lemma DecodedIsShorter(payload: Bytes)
    requires Deserialized(payload).Some?
    ensures |Serialized(Deserialized(payload).value)| <= |payload|
  {
    DecodingIsCanonical(payload);
  }
}
