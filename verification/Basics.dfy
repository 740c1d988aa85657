/** Machine-integer types of the source, and the one failure type used everywhere. */
module Basics {

  const TWO_16 := 0x1_0000
  const TWO_31 := 0x8000_0000
  const TWO_32 := 0x1_0000_0000
  const TWO_64 := 0x1_0000_0000_0000_0000

  type byte = x: int | 0 <= x < 0x100
  type uint16 = x: int | 0 <= x < TWO_16
  type uint32 = x: int | 0 <= x < TWO_32
  type uint64 = x: int | 0 <= x < TWO_64
  type int32 = x: int | -TWO_31 <= x < TWO_31

  type Bytes = seq<byte>

  datatype Option<+T> = None | Some(value: T)

  /** The two casts by which a signed int travels as an unsigned 32-bit word. */
  function ToUnsigned(x: int32): (u: uint32)
    ensures u == x % TWO_32 && ToSigned(u) == x
  {
    if x < 0 then x + TWO_32 else x
  }

  function ToSigned(u: uint32): (x: int32)
    ensures x % TWO_32 == u
  {
    if u < TWO_31 then u else u - TWO_32
  }

  ghost predicate NoDuplicates<T>(s: seq<T>) {
    forall i, j :: 0 <= i < j < |s| ==> s[i] != s[j]
  }

  lemma AppendAssociates<T>(a: seq<T>, b: seq<T>, c: seq<T>)
    ensures (a + b) + c == a + (b + c)
  {
  }

  // ---- Products, one rule at a time ----

  lemma MulMono(a: int, b: int, z: int)
    requires a <= b && 0 <= z
    ensures a * z <= b * z
  {
  }

  lemma MulCancel(a: int, b: int, z: int)
    requires a * z < b * z && 0 <= z
    ensures a < b
  {
  }

  lemma MulAdd(a: int, b: int, z: int)
    ensures (a + b) * z == a * z + b * z
  {
  }

  lemma MulAssoc(a: int, b: int, c: int)
    ensures (a * b) * c == a * (b * c)
  {
  }

  lemma RemainderIs(q: int, n: int, j: int)
    requires 0 <= j < n
    ensures (q * n + j) % n == j
  {
    var x := q * n + j;
    assert x == (x / n) * n + x % n;
    MulCancel(q, x / n + 1, n);
    MulCancel(x / n, q + 1, n);
  }
}
