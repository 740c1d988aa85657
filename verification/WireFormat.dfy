/** The wire grammar. A Schema is a shape of bytes, a Value is what one parse of it yields.
    Encode and Parse are given once, for every schema; the message layouts of the source are
    schemas, so everything proved here holds for requests, nodes, QP entries and messages. */
module WireFormat {
  import opened Basics

  datatype Schema =
    | UInt(width: nat)                      // big-endian unsigned word of width bytes
    | Flag                                  // one byte: zero is false, anything else is true
    | Raw(size: nat)                        // exactly size bytes
    | Str                                   // 4-byte length, then that many bytes
    | Record(fields: seq<Schema>)           // the fields one after another
    | List(element: Schema)                 // 4-byte count, then that many elements

  datatype Value =
    | Num(n: nat)
    | Truth(b: bool)
    | Text(bytes: Bytes)
    | Parts(parts: seq<Value>)

  function Power256(n: nat): (p: nat)
    ensures p > 0
  {
    if n == 0 then 1 else 256 * Power256(n - 1)
  }

  /** The low n bytes of x, most significant first: larger values lose their high bytes. */
  function ToBigEndian(x: nat, n: nat): (b: Bytes)
    ensures |b| == n
  {
    if n == 0 then [] else ToBigEndian(x / 256, n - 1) + [x % 256]
  }

  function FromBigEndian(b: Bytes): (x: nat)
    ensures x < Power256(|b|)
  {
    if b == [] then 0 else 256 * FromBigEndian(b[..|b| - 1]) + b[|b| - 1]
  }

  /** What is lost above n bytes is what the division by 256^n takes. */
  lemma {:induction false} BigEndianKeepsLow(x: nat, n: nat)
    ensures FromBigEndian(ToBigEndian(x, n)) == x % Power256(n)
  {
    if n == 0 {
    } else {
      BigEndianKeepsLow(x / 256, n - 1);
      assert ToBigEndian(x, n)[..n - 1] == ToBigEndian(x / 256, n - 1);
      LastDigit(x, Power256(n - 1));
    }
  }

  lemma LastDigit(x: nat, p: nat)
    requires p > 0
    ensures x % (256 * p) == 256 * (x / 256 % p) + x % 256
  {
    var q, r := x / 256, x % 256;
    var t, u := q / p, q % p;
    assert q == p * t + u;
    assert x == t * (256 * p) + (256 * u + r);
    RemainderIs(t, 256 * p, 256 * u + r);
  }

  lemma BigEndianDecodes(x: nat, n: nat)
    requires x < Power256(n)
    ensures FromBigEndian(ToBigEndian(x, n)) == x
  {
    BigEndianKeepsLow(x, n);
  }

  lemma {:induction false} BigEndianEncodes(b: Bytes)
    ensures ToBigEndian(FromBigEndian(b), |b|) == b
  {
    if b != [] {
      BigEndianEncodes(b[..|b| - 1]);
    }
  }

  lemma SameLowSameBytes(x: nat, y: nat, n: nat)
    requires x % Power256(n) == y % Power256(n)
    ensures ToBigEndian(x, n) == ToBigEndian(y, n)
  {
    BigEndianKeepsLow(x, n);
    BigEndianKeepsLow(y, n);
    BigEndianEncodes(ToBigEndian(x, n));
    BigEndianEncodes(ToBigEndian(y, n));
  }

  lemma FourBytesAreAWord()
    ensures Power256(4) == TWO_32
  {
    assert Power256(1) == 256;
    assert Power256(2) == 256 * 256;
    assert Power256(3) == 256 * 256 * 256;
  }

  lemma EightBytesAreALongWord()
    ensures Power256(8) == TWO_64
  {
    FourBytesAreAWord();
    assert Power256(5) == 256 * TWO_32;
    assert Power256(6) == 256 * 256 * TWO_32;
    assert Power256(7) == 256 * 256 * 256 * TWO_32;
  }

  /** The schema of part i of a record or list. */
  function PartOf(s: Schema, i: nat): Schema
    requires s.List? || (s.Record? && i < |s.fields|)
  {
    if s.List? then s.element else s.fields[i]
  }

  /** A record or list of n parts. */
  predicate HasParts(s: Schema, n: nat) {
    s.List? || (s.Record? && n == |s.fields|)
  }

  /** v has the shape of s and its numbers fit the widths, as the typed fields of a message do. */
  predicate Shaped(s: Schema, v: Value) {
    match s
    case UInt(width) => v.Num? && v.n < Power256(width)
    case Flag => v.Truth?
    case Raw(size) => v.Text? && |v.bytes| == size
    case Str => v.Text?
    case _ => v.Parts? && HasParts(s, |v.parts|) && forall i :: 0 <= i < |v.parts| ==> Shaped(PartOf(s, i), v.parts[i])
  }

  /** Every string and list in v is shorter than 2^32, so that its length prefix is exact. */
  predicate Sized(s: Schema, v: Value)
    requires Shaped(s, v)
  {
    match s
    case Str => |v.bytes| < TWO_32
    case Record(_) => forall i :: 0 <= i < |v.parts| ==> Sized(PartOf(s, i), v.parts[i])
    case List(_) => |v.parts| < TWO_32 && forall i :: 0 <= i < |v.parts| ==> Sized(PartOf(s, i), v.parts[i])
    case _ => true
  }

  /** xs are the parts of a record or list of schema s. */
  ghost predicate ShapedParts(s: Schema, xs: seq<Value>) {
    HasParts(s, |xs|) && forall i :: 0 <= i < |xs| ==> Shaped(PartOf(s, i), xs[i])
  }

  /** The bytes of v under s; none for a value of another shape. */
  function Encode(s: Schema, v: Value): Bytes
    decreases s, 3, 0
  {
    match (s, v)
    case (UInt(width), Num(n)) => ToBigEndian(n, width)
    case (Flag, Truth(b)) => [if b then 1 else 0]
    case (Raw(_), Text(bytes)) => bytes
    case (Str, Text(bytes)) => ToBigEndian(|bytes|, 4) + bytes
    case (Record(_), Parts(xs)) => if HasParts(s, |xs|) then EncodeParts(s, xs, 0) else []
    case (List(_), Parts(xs)) => ToBigEndian(|xs|, 4) + EncodeParts(s, xs, 0)
    case _ => []
  }

  /** The parts of a group from number i on. */
  function EncodeParts(s: Schema, xs: seq<Value>, i: nat): Bytes
    requires HasParts(s, |xs|) && i <= |xs|
    decreases s, 1, |xs| - i
  {
    if i == |xs| then [] else Encode(PartOf(s, i), xs[i]) + EncodeParts(s, xs, i + 1)
  }

  /** Reads one s off the front of b; the pair is the value and the bytes left over. */
  function Parse(s: Schema, b: Bytes): Option<(Value, Bytes)>
    decreases s, 3, 0
  {
    match s
    case UInt(width) => if |b| < width then None else Some((Num(FromBigEndian(b[..width])), b[width..]))
    case Flag => if |b| < 1 then None else Some((Truth(b[0] != 0), b[1..]))
    case Raw(size) => if |b| < size then None else Some((Text(b[..size]), b[size..]))
    case Str =>
      if |b| < 4 then None else
        var length := FromBigEndian(b[..4]);
        if length > |b| - 4 then None else Some((Text(b[4..4 + length]), b[4 + length..]))
    case Record(fields) => Grouped(ParseParts(s, 0, |fields|, b))
    case List(_) => if |b| < 4 then None else Grouped(ParseParts(s, 0, FromBigEndian(b[..4]), b[4..]))
  }

  function Grouped(r: Option<(seq<Value>, Bytes)>): Option<(Value, Bytes)> {
    if r.None? then None else Some((Parts(r.value.0), r.value.1))
  }

  /** Reads parts i..n of a group. */
  function ParseParts(s: Schema, i: nat, n: nat, b: Bytes): Option<(seq<Value>, Bytes)>
    requires HasParts(s, n) && i <= n
    decreases s, 1, n - i
  {
    if i == n then Some(([], b)) else
      match Parse(PartOf(s, i), b)
      case None => None
      case Some((x, rest)) =>
        match ParseParts(s, i + 1, n, rest)
        case None => None
        case Some((xs, rest')) => Some(([x] + xs, rest'))
  }

  // ---- Round trip ----

  lemma {:induction false} ParseAfterEncode(s: Schema, v: Value, rest: Bytes)
    requires Shaped(s, v) && Sized(s, v)
    ensures Parse(s, Encode(s, v) + rest) == Some((v, rest))
    decreases s, 3, 0
  {
    if s.Record? {
      ParsePartsAfterEncode(s, v.parts, 0, rest);
    } else if s.List? {
      var b := Encode(s, v) + rest;
      LengthDecodes(|v.parts|);
      ParsePartsAfterEncode(s, v.parts, 0, rest);
      assert b[..4] == ToBigEndian(|v.parts|, 4);
      assert b[4..] == EncodeParts(s, v.parts, 0) + rest;
    } else {
      LeafAfterEncode(s, v, rest);
    }
  }

  lemma LeafAfterEncode(s: Schema, v: Value, rest: Bytes)
    requires !s.Record? && !s.List? && Shaped(s, v) && Sized(s, v)
    ensures Parse(s, Encode(s, v) + rest) == Some((v, rest))
  {
    var b := Encode(s, v) + rest;
    match s
    case UInt(width) =>
      BigEndianDecodes(v.n, width);
      assert b[..width] == ToBigEndian(v.n, width) && b[width..] == rest;
    case Flag =>
      assert b[1..] == rest;
    case Raw(size) =>
      assert b[..size] == v.bytes && b[size..] == rest;
    case Str =>
      LengthDecodes(|v.bytes|);
      assert b[..4] == ToBigEndian(|v.bytes|, 4);
      assert b[4..4 + |v.bytes|] == v.bytes && b[4 + |v.bytes|..] == rest;
    case _ =>
  }

  lemma {:induction false} ParsePartsAfterEncode(s: Schema, xs: seq<Value>, i: nat, rest: Bytes)
    requires ShapedParts(s, xs) && i <= |xs|
    requires forall j :: 0 <= j < |xs| ==> Sized(PartOf(s, j), xs[j])
    ensures ParseParts(s, i, |xs|, EncodeParts(s, xs, i) + rest) == Some((xs[i..], rest))
    decreases s, 1, |xs| - i
  {
    if i == |xs| {
      assert EncodeParts(s, xs, i) + rest == rest;
    } else {
      ParseAfterEncode(PartOf(s, i), xs[i], EncodeParts(s, xs, i + 1) + rest);
      ParsePartsAfterEncode(s, xs, i + 1, rest);
      AppendAssociates(Encode(PartOf(s, i), xs[i]), EncodeParts(s, xs, i + 1), rest);
      assert [xs[i]] + xs[i + 1..] == xs[i..];
    }
  }

  lemma LengthDecodes(n: nat)
    requires n < TWO_32
    ensures FromBigEndian(ToBigEndian(n, 4)) == n
  {
    FourBytesAreAWord();
    BigEndianDecodes(n, 4);
  }

  /** A value that a parse returns is well formed, so an oversized value is never returned. */
  lemma {:induction false} ParsedIsWellFormed(s: Schema, b: Bytes)
    requires Parse(s, b).Some?
    ensures Shaped(s, Parse(s, b).value.0) && Sized(s, Parse(s, b).value.0)
    decreases s, 3, 0
  {
    match s
    case UInt(_) =>
    case Flag =>
    case Raw(_) =>
    case Str =>
      FourBytesAreAWord();
    case Record(fields) =>
      ParsedPartsAreWellFormed(s, 0, |fields|, b);
    case List(_) =>
      FourBytesAreAWord();
      ParsedPartsAreWellFormed(s, 0, FromBigEndian(b[..4]), b[4..]);
  }

  lemma {:induction false} ParsedPartsAreWellFormed(s: Schema, i: nat, n: nat, b: Bytes)
    requires HasParts(s, n) && i <= n && ParseParts(s, i, n, b).Some?
    ensures |ParseParts(s, i, n, b).value.0| == n - i
    ensures forall j :: 0 <= j < n - i ==>
      var x := ParseParts(s, i, n, b).value.0[j]; Shaped(PartOf(s, i + j), x) && Sized(PartOf(s, i + j), x)
    decreases s, 1, n - i
  {
    if i < n {
      var (x, rest) := Parse(PartOf(s, i), b).value;
      ParsedIsWellFormed(PartOf(s, i), b);
      ParsedPartsAreWellFormed(s, i + 1, n, rest);
      var xs := ParseParts(s, i + 1, n, rest).value.0;
      forall j | 0 <= j < n - i
        ensures Shaped(PartOf(s, i + j), ([x] + xs)[j]) && Sized(PartOf(s, i + j), ([x] + xs)[j])
      {
        if j > 0 {
          assert ([x] + xs)[j] == xs[j - 1] && i + 1 + (j - 1) == i + j;
        }
      }
    }
  }

  /** Round trip, with the exact condition under which it holds. */
  lemma RoundTripIffSized(s: Schema, v: Value, rest: Bytes)
    requires Shaped(s, v)
    ensures Parse(s, Encode(s, v) + rest) == Some((v, rest)) <==> Sized(s, v)
  {
    if Sized(s, v) {
      ParseAfterEncode(s, v, rest);
    } else if Parse(s, Encode(s, v) + rest) == Some((v, rest)) {
      ParsedIsWellFormed(s, Encode(s, v) + rest);
    }
  }

  // ---- More input does not change a parse that succeeded ----

  lemma {:induction false} ParseExtends(s: Schema, b: Bytes, more: Bytes)
    requires Parse(s, b).Some?
    ensures Parse(s, b + more) == Some((Parse(s, b).value.0, Parse(s, b).value.1 + more))
    decreases s, 3, 0
  {
    if s.Record? {
      ParsePartsExtends(s, 0, |s.fields|, b, more);
    } else if s.List? {
      assert (b + more)[..4] == b[..4] && (b + more)[4..] == b[4..] + more;
      ParsePartsExtends(s, 0, FromBigEndian(b[..4]), b[4..], more);
    } else {
      LeafExtends(s, b, more);
    }
  }

  lemma LeafExtends(s: Schema, b: Bytes, more: Bytes)
    requires !s.Record? && !s.List? && Parse(s, b).Some?
    ensures Parse(s, b + more) == Some((Parse(s, b).value.0, Parse(s, b).value.1 + more))
  {
    match s
    case UInt(width) =>
      CutOfAppend(b, more, 0, width);
    case Flag =>
      CutOfAppend(b, more, 0, 1);
    case Raw(size) =>
      CutOfAppend(b, more, 0, size);
    case Str =>
      CutOfAppend(b, more, 0, 4);
      CutOfAppend(b, more, 4, 4 + FromBigEndian(b[..4]));
    case _ =>
  }

  lemma CutOfAppend(b: Bytes, more: Bytes, lo: nat, hi: nat)
    requires lo <= hi <= |b|
    ensures (b + more)[lo..hi] == b[lo..hi]
    ensures lo == 0 ==> (b + more)[..hi] == b[..hi]
    ensures (b + more)[hi..] == b[hi..] + more
    ensures hi > 0 ==> (b + more)[0] == b[0]
  {
  }

  lemma {:induction false} ParsePartsExtends(s: Schema, i: nat, n: nat, b: Bytes, more: Bytes)
    requires HasParts(s, n) && i <= n && ParseParts(s, i, n, b).Some?
    ensures ParseParts(s, i, n, b + more)
         == Some((ParseParts(s, i, n, b).value.0, ParseParts(s, i, n, b).value.1 + more))
    decreases s, 1, n - i
  {
    if i < n {
      ParseExtends(PartOf(s, i), b, more);
      ParsePartsExtends(s, i + 1, n, Parse(PartOf(s, i), b).value.1, more);
    }
  }

  /** Truncation is always noticed. */
  lemma StrictPrefixRejected(s: Schema, v: Value, k: nat)
    requires Shaped(s, v) && Sized(s, v) && k < |Encode(s, v)|
    ensures Parse(s, Encode(s, v)[..k]).None?
  {
    var whole := Encode(s, v);
    if Parse(s, whole[..k]).Some? {
      ParseExtends(s, whole[..k], whole[k..]);
      assert whole[..k] + whole[k..] == whole == whole + [];
      ParseAfterEncode(s, v, []);
    }
  }

  lemma EncodeIsInjective(s: Schema, v: Value, w: Value)
    requires Shaped(s, v) && Sized(s, v) && Shaped(s, w) && Sized(s, w)
    requires Encode(s, v) == Encode(s, w)
    ensures v == w
  {
    ParseAfterEncode(s, v, []);
    ParseAfterEncode(s, w, []);
  }

  // ---- Re-encoding what was parsed ----

  function Clear(n: nat): seq<bool> {
    seq(n, _ => false)
  }

  /** True at the flag bytes of an encoding of v and nowhere else. */
  function FlagMask(s: Schema, v: Value): (mask: seq<bool>)
    requires Shaped(s, v)
    ensures |mask| == |Encode(s, v)|
    decreases s, 3, 0
  {
    match s
    case UInt(width) => Clear(width)
    case Flag => [true]
    case Raw(size) => Clear(size)
    case Str => Clear(4 + |v.bytes|)
    case Record(_) => FlagMaskParts(s, v.parts, 0)
    case List(_) => Clear(4) + FlagMaskParts(s, v.parts, 0)
  }

  function FlagMaskParts(s: Schema, xs: seq<Value>, i: nat): (mask: seq<bool>)
    requires ShapedParts(s, xs) && i <= |xs|
    ensures |mask| == |EncodeParts(s, xs, i)|
    decreases s, 1, |xs| - i
  {
    if i == |xs| then [] else FlagMask(PartOf(s, i), xs[i]) + FlagMaskParts(s, xs, i + 1)
  }

  /** b with every masked byte replaced by 0 or 1, by whether it was zero. */
  function Normalise(b: Bytes, mask: seq<bool>): (r: Bytes)
    requires |b| == |mask|
    ensures |r| == |b|
    ensures forall i :: 0 <= i < |b| ==> r[i] == if mask[i] && b[i] != 0 then 1 else b[i]
  {
    seq(|b|, i requires 0 <= i < |b| => if mask[i] && b[i] != 0 then 1 else b[i])
  }

  /** b is exactly |code| bytes that normalise to code, then rest. */
  ghost predicate Consumed(code: Bytes, mask: seq<bool>, b: Bytes, rest: Bytes)
    requires |mask| == |code|
  {
    && |b| == |code| + |rest|
    && b[|code|..] == rest
    && code == Normalise(b[..|code|], mask)
  }

  lemma ConsumedInTwo(c: Bytes, m: seq<bool>, d: Bytes, n: seq<bool>, b: Bytes, middle: Bytes, rest: Bytes)
    requires |m| == |c| && |n| == |d|
    requires Consumed(c, m, b, middle) && Consumed(d, n, middle, rest)
    ensures Consumed(c + d, m + n, b, rest)
  {
    assert b[..|c + d|] == b[..|c|] + middle[..|d|];
  }

  /** Canonical decoding: the bytes a parse consumed are the encoding of its result, except that
      an encoding writes every flag as 0 or 1. */
  lemma {:induction false} ParseIsCanonical(s: Schema, b: Bytes)
    requires Parse(s, b).Some?
    ensures Shaped(s, Parse(s, b).value.0)
    ensures var (v, rest) := Parse(s, b).value; Consumed(Encode(s, v), FlagMask(s, v), b, rest)
    decreases s, 3, 0
  {
    ParsedIsWellFormed(s, b);
    if s.Record? {
      ParsePartsIsCanonical(s, 0, Parse(s, b).value.0.parts, b);
    } else if s.List? {
      ParsedCount(s, b);
      ParsePartsIsCanonical(s, 0, Parse(s, b).value.0.parts, b[4..]);
      CountedPartsConsumed(s, Parse(s, b).value.0.parts, b, Parse(s, b).value.1);
    } else {
      LeafIsCanonical(s, b);
    }
  }

  lemma LeafIsCanonical(s: Schema, b: Bytes)
    requires !s.Record? && !s.List? && Parse(s, b).Some?
    ensures Shaped(s, Parse(s, b).value.0)
    ensures var (v, rest) := Parse(s, b).value; Consumed(Encode(s, v), FlagMask(s, v), b, rest)
  {
    match s
    case UInt(width) =>
      BigEndianEncodes(b[..width]);
    case Str =>
      StringIsCanonical(b);
    case _ =>
  }

  lemma ParsedCount(s: Schema, b: Bytes)
    requires s.List? && Parse(s, b).Some?
    ensures |Parse(s, b).value.0.parts| == FromBigEndian(b[..4])
  {
    ParsedPartsAreWellFormed(s, 0, FromBigEndian(b[..4]), b[4..]);
  }

  lemma StringIsCanonical(b: Bytes)
    requires Parse(Str, b).Some?
    ensures var (v, rest) := Parse(Str, b).value; Consumed(Encode(Str, v), FlagMask(Str, v), b, rest)
  {
    var length := FromBigEndian(b[..4]);
    BigEndianEncodes(b[..4]);
    assert b[..4 + length] == b[..4] + b[4..4 + length];
  }

  lemma CountedPartsConsumed(s: Schema, xs: seq<Value>, b: Bytes, rest: Bytes)
    requires s.List? && ShapedParts(s, xs) && |b| >= 4 && |xs| == FromBigEndian(b[..4])
    requires Consumed(EncodeParts(s, xs, 0), FlagMaskParts(s, xs, 0), b[4..], rest)
    ensures Consumed(Encode(s, Parts(xs)), FlagMask(s, Parts(xs)), b, rest)
  {
    var count := b[..4];
    BigEndianEncodes(count);
    assert Normalise(count, Clear(4)) == count;
    ConsumedInTwo(count, Clear(4), EncodeParts(s, xs, 0), FlagMaskParts(s, xs, 0), b, b[4..], rest);
  }

  lemma {:induction false} ParsePartsIsCanonical(s: Schema, i: nat, xs: seq<Value>, b: Bytes)
    requires ShapedParts(s, xs) && i <= |xs|
    requires ParseParts(s, i, |xs|, b).Some? && ParseParts(s, i, |xs|, b).value.0 == xs[i..]
    ensures Consumed(EncodeParts(s, xs, i), FlagMaskParts(s, xs, i), b, ParseParts(s, i, |xs|, b).value.1)
    decreases s, 1, |xs| - i
  {
    if i < |xs| {
      var e := PartOf(s, i);
      var (x, middle) := Parse(e, b).value;
      var (later, rest) := ParseParts(s, i + 1, |xs|, middle).value;
      assert xs[i..] == [x] + later;
      assert xs[i] == x && xs[i + 1..] == xs[i..][1..] == later;
      ParseIsCanonical(e, b);
      ParsePartsIsCanonical(s, i + 1, xs, middle);
      ConsumedInTwo(Encode(e, x), FlagMask(e, x), EncodeParts(s, xs, i + 1), FlagMaskParts(s, xs, i + 1),
        b, middle, rest);
    }
  }

  lemma NormaliseIs(b: Bytes, mask: seq<bool>, code: Bytes)
    requires |b| == |mask| == |code|
    requires forall i :: 0 <= i < |b| ==> code[i] == if mask[i] && b[i] != 0 then 1 else b[i]
    ensures code == Normalise(b, mask)
  {
  }

  lemma ConsumedApart(c: Bytes, m: seq<bool>, d: Bytes, n: seq<bool>, b: Bytes, rest: Bytes)
    requires |m| == |c| && |n| == |d| && Consumed(c + d, m + n, b, rest)
    ensures Consumed(c, m, b, b[|c|..]) && Consumed(d, n, b[|c|..], rest)
  {
    var e, mask, front, later := c + d, m + n, b[..|c| + |d|], b[|c|..];
    forall i | 0 <= i < |c| ensures c[i] == if m[i] && b[i] != 0 then 1 else b[i] {
      assert e[i] == c[i] && mask[i] == m[i] && front[i] == b[i];
    }
    forall i | 0 <= i < |d| ensures d[i] == if n[i] && later[i] != 0 then 1 else later[i] {
      assert e[|c| + i] == d[i] && mask[|c| + i] == n[i] && front[|c| + i] == later[i];
    }
    NormaliseIs(b[..|c|], m, c);
    NormaliseIs(later[..|d|], n, d);
    assert later[|d|..] == rest;
  }

  lemma ClearIsExact(code: Bytes, b: Bytes, rest: Bytes)
    requires Consumed(code, Clear(|code|), b, rest)
    ensures b[..|code|] == code && b == code + rest
  {
  }

  /** The converse: bytes that normalise to the encoding of a value parse to that value. */
  lemma {:induction false} NormalisedParses(s: Schema, v: Value, b: Bytes, rest: Bytes)
    requires Shaped(s, v) && Sized(s, v) && Consumed(Encode(s, v), FlagMask(s, v), b, rest)
    ensures Parse(s, b) == Some((v, rest))
    decreases s, 3, 0
  {
    if s.Record? {
      NormalisedPartsParse(s, v.parts, 0, b, rest);
      assert v.parts[0..] == v.parts;
    } else if s.List? {
      var count := ToBigEndian(|v.parts|, 4);
      ConsumedApart(count, Clear(4), EncodeParts(s, v.parts, 0), FlagMaskParts(s, v.parts, 0), b, rest);
      ClearIsExact(count, b, b[4..]);
      LengthDecodes(|v.parts|);
      NormalisedPartsParse(s, v.parts, 0, b[4..], rest);
      assert v.parts[0..] == v.parts;
    } else if s.Flag? {
    } else {
      ClearIsExact(Encode(s, v), b, rest);
      LeafAfterEncode(s, v, rest);
    }
  }

  lemma FirstPartConsumed(s: Schema, xs: seq<Value>, i: nat, b: Bytes, rest: Bytes)
    requires ShapedParts(s, xs) && i < |xs| && Consumed(EncodeParts(s, xs, i), FlagMaskParts(s, xs, i), b, rest)
    ensures var code := Encode(PartOf(s, i), xs[i]);
      |code| <= |b| && Consumed(code, FlagMask(PartOf(s, i), xs[i]), b, b[|code|..])
      && Consumed(EncodeParts(s, xs, i + 1), FlagMaskParts(s, xs, i + 1), b[|code|..], rest)
  {
    ConsumedApart(Encode(PartOf(s, i), xs[i]), FlagMask(PartOf(s, i), xs[i]),
      EncodeParts(s, xs, i + 1), FlagMaskParts(s, xs, i + 1), b, rest);
  }

  lemma OneMorePart(s: Schema, i: nat, n: nat, b: Bytes, x: Value, middle: Bytes, xs: seq<Value>, rest: Bytes)
    requires HasParts(s, n) && i < n
    requires Parse(PartOf(s, i), b) == Some((x, middle)) && ParseParts(s, i + 1, n, middle) == Some((xs, rest))
    ensures ParseParts(s, i, n, b) == Some(([x] + xs, rest))
  {
  }

  lemma {:induction false} NormalisedPartsParse(s: Schema, xs: seq<Value>, i: nat, b: Bytes, rest: Bytes)
    requires ShapedParts(s, xs) && i <= |xs| && forall j :: 0 <= j < |xs| ==> Sized(PartOf(s, j), xs[j])
    requires Consumed(EncodeParts(s, xs, i), FlagMaskParts(s, xs, i), b, rest)
    ensures ParseParts(s, i, |xs|, b) == Some((xs[i..], rest))
    decreases s, 1, |xs| - i
  {
    if i == |xs| {
      assert b == b[0..] == rest && xs[i..] == [];
    } else {
      var e := PartOf(s, i);
      var code := Encode(e, xs[i]);
      assert |code| <= |b| && Parse(e, b) == Some((xs[i], b[|code|..])) by {
        FirstPartConsumed(s, xs, i, b, rest);
        NormalisedParses(e, xs[i], b, b[|code|..]);
      }
      assert ParseParts(s, i + 1, |xs|, b[|code|..]) == Some((xs[i + 1..], rest)) by {
        FirstPartConsumed(s, xs, i, b, rest);
        NormalisedPartsParse(s, xs, i + 1, b[|code|..], rest);
      }
      OneMorePart(s, i, |xs|, b, xs[i], b[|code|..], xs[i + 1..], rest);
      assert [xs[i]] + xs[i + 1..] == xs[i..];
    }
  }

  /** Exactly which bytes parse, and to what: those that begin with a sized encoding, flag bytes apart. */
  lemma ParsesIffNormalised(s: Schema, b: Bytes, v: Value, rest: Bytes)
    ensures Parse(s, b) == Some((v, rest))
      <==> Shaped(s, v) && Sized(s, v) && Consumed(Encode(s, v), FlagMask(s, v), b, rest)
  {
    if Parse(s, b) == Some((v, rest)) {
      ParsedIsWellFormed(s, b);
      ParseIsCanonical(s, b);
    } else if Shaped(s, v) && Sized(s, v) && Consumed(Encode(s, v), FlagMask(s, v), b, rest) {
      NormalisedParses(s, v, b, rest);
    }
  }

  // ---- Short encodings are well sized ----

  /** Every encoding under s has at least one byte. */
  predicate NeverEmpty(s: Schema) {
    match s
    case UInt(width) => width > 0
    case Flag => true
    case Raw(size) => size > 0
    case Str => true
    case Record(fields) => fields != [] && NeverEmpty(fields[0])
    case List(_) => true
  }

  /** Every list in s has elements of at least one byte. */
  predicate ListsOfNonEmpty(s: Schema) {
    match s
    case Record(fields) => forall i :: 0 <= i < |fields| ==> ListsOfNonEmpty(fields[i])
    case List(e) => NeverEmpty(e) && ListsOfNonEmpty(e)
    case _ => true
  }

  lemma {:induction false} EncodingNotEmpty(s: Schema, v: Value)
    requires Shaped(s, v) && NeverEmpty(s)
    ensures |Encode(s, v)| > 0
  {
    if s.Record? {
      EncodingNotEmpty(s.fields[0], v.parts[0]);
    }
  }

  /** A value whose encoding is shorter than 2^32 bytes is well sized: callers can check a length. */
  lemma {:induction false} ShortIsSized(s: Schema, v: Value)
    requires Shaped(s, v) && ListsOfNonEmpty(s) && |Encode(s, v)| < TWO_32
    ensures Sized(s, v)
    decreases s, 3, 0
  {
    if s.Record? || s.List? {
      ShortPartsAreSized(s, v.parts, 0);
    }
  }

  lemma {:induction false} ShortPartsAreSized(s: Schema, xs: seq<Value>, i: nat)
    requires ShapedParts(s, xs) && i <= |xs| && ListsOfNonEmpty(s) && |EncodeParts(s, xs, i)| < TWO_32
    ensures s.List? ==> |xs| - i <= |EncodeParts(s, xs, i)|
    ensures forall j :: i <= j < |xs| ==> Sized(PartOf(s, j), xs[j])
    decreases s, 1, |xs| - i
  {
    if i < |xs| {
      ShortIsSized(PartOf(s, i), xs[i]);
      if s.List? {
        EncodingNotEmpty(PartOf(s, i), xs[i]);
      }
      ShortPartsAreSized(s, xs, i + 1);
    }
  }
}
