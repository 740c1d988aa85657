/** Where a slot and its layers lie in a decode node's buffer: size_t arithmetic of router, node and connector. */
module Memory {
  import opened Basics

  const MIB := 1024 * 1024

  /** Conversion to size_t, and the result of size_t arithmetic: the residue modulo 2^64. */
  function AsSize(x: int): uint64 {
    x % TWO_64
  }

  /** The router's configuration. */
  datatype SlotConfig =
    SlotConfig(maxSlotsPerNode: int32, bufferSizeMb: uint64, numLayers: int32, layerSizeMb: uint64)
  {
    function RequestSizeMb(): uint64 {
      AsSize(AsSize(numLayers) * layerSizeMb)
    }

    /** What the router sends along with a slot. */
    function SlotBaseOffset(slot: int): uint64 {
      AsSize(AsSize(slot) * AsSize(RequestSizeMb() * MIB))
    }
  }

  /** The decode node's layout. */
  datatype MemoryLayout =
    MemoryLayout(bufferSizeBytes: uint64, maxConcurrentRequests: int32, numLayers: int32, layerSizeBytes: uint64)
  {
    function RequestSize(): uint64 {
      AsSize(AsSize(numLayers) * layerSizeBytes)
    }

    function SlotBaseOffset(slot: int): uint64 {
      AsSize(AsSize(slot) * RequestSize())
    }

    function LayerOffset(slot: int, layer: int): uint64 {
      AsSize(SlotBaseOffset(slot) + AsSize(AsSize(layer) * layerSizeBytes))
    }

    predicate HasSlot(slot: int) {
      0 <= slot < maxConcurrentRequests
    }

    predicate HasLayer(layer: int) {
      0 <= layer < numLayers
    }
  }

  /** The node's configuration file. */
  datatype NodeConfig =
    NodeConfig(kvBufferMb: uint64, layerSizeMb: uint64, maxConcurrentRequests: int32, numLayers: uint32)
  {
    function RequiredMb(): uint64 {
      AsSize(AsSize(numLayers * layerSizeMb) * AsSize(maxConcurrentRequests))
    }

    /** A node that fails this refuses to start. */
    predicate StartupCheck() {
      kvBufferMb >= RequiredMb()
    }

    function LayerSizeBytes(): uint64 {
      AsSize(layerSizeMb * MIB)
    }

    function Layout(): MemoryLayout {
      MemoryLayout(AsSize(kvBufferMb * MIB), maxConcurrentRequests, ToSigned(numLayers), LayerSizeBytes())
    }
  }

  /** The connector's offset, in Python's unbounded integers; None where it raises. */
  function ConnectorOffset(slotBase: int, layer: int, numLayers: int, layerSize: int, bufferSizeMb: int): Option<int> {
    var offset := slotBase + layer * layerSize;
    if offset >= slotBase + numLayers * layerSize then None
    else if offset >= bufferSizeMb * 1024 * 1024 then None
    else Some(offset)
  }

  // ---- Arithmetic modulo 2^64 ----

  lemma WrapShift(x: int, k: int)
    ensures AsSize(x + k * TWO_64) == AsSize(x)
  {
    var q, r := x / TWO_64, x % TWO_64;
    assert x + k * TWO_64 == (q + k) * TWO_64 + r;
  }

  lemma WrapTimes(a: int, b: int)
    ensures AsSize(a * AsSize(b)) == AsSize(a * b)
    ensures AsSize(AsSize(b) * a) == AsSize(a * b)
  {
    var q := b / TWO_64;
    assert b == q * TWO_64 + AsSize(b);
    calc {
      a * b;
      a * (q * TWO_64 + AsSize(b));
      a * (q * TWO_64) + a * AsSize(b);
      a * AsSize(b) + (a * q) * TWO_64;
    }
    WrapShift(a * AsSize(b), a * q);
  }

  lemma WrapPlus(a: int, b: int)
    ensures AsSize(AsSize(a) + AsSize(b)) == AsSize(a + b)
  {
    WrapShift(AsSize(a) + AsSize(b), a / TWO_64 + b / TWO_64);
  }

  /** Intermediate wrap-around never matters: only the exact product does. */
  lemma WrapThree(a: int, b: int, c: int)
    ensures AsSize(AsSize(a) * AsSize(AsSize(b) * c)) == AsSize(a * (b * c))
  {
    WrapTimes(c, b);
    WrapTimes(AsSize(a), b * c);
    WrapTimes(b * c, a);
  }

  // ---- The three offset formulas ----

  /** The exact offset of a layer, before any reduction: layers lie side by side, slot after slot. */
  function ExactOffset(slot: int, layer: int, numLayers: int, layerSize: int): int {
    (slot * numLayers + layer) * layerSize
  }

  lemma SlotResidue(slot: int, n: int, z: int)
    ensures AsSize(AsSize(slot) * AsSize(AsSize(n) * z)) == AsSize((slot * n) * z)
  {
    WrapThree(slot, n, z);
    MulAssoc(slot, n, z);
  }

  lemma LayerResidue(slot: int, n: int, layer: int, z: int)
    ensures AsSize(AsSize((slot * n) * z) + AsSize(AsSize(layer) * z)) == AsSize((slot * n + layer) * z)
  {
    calc {
      AsSize(AsSize((slot * n) * z) + AsSize(AsSize(layer) * z));
    == { WrapTimes(z, layer); }
      AsSize(AsSize((slot * n) * z) + AsSize(z * layer));
    == { WrapPlus((slot * n) * z, z * layer); }
      AsSize((slot * n) * z + z * layer);
    == { MulAdd(slot * n, layer, z); }
      AsSize((slot * n + layer) * z);
    }
  }

  lemma SlotBaseIsExact(m: MemoryLayout, slot: int)
    ensures m.SlotBaseOffset(slot) == AsSize((slot * m.numLayers) * m.layerSizeBytes)
  {
    SlotResidue(slot, m.numLayers, m.layerSizeBytes);
  }

  /** Reduced modulo 2^64 the node's offset is the exact one, whatever wrapped on the way. */
  lemma LayerOffsetIsExact(m: MemoryLayout, slot: int, layer: int)
    ensures m.LayerOffset(slot, layer) == AsSize(ExactOffset(slot, layer, m.numLayers, m.layerSizeBytes))
  {
    SlotResidue(slot, m.numLayers, m.layerSizeBytes);
    LayerResidue(slot, m.numLayers, layer, m.layerSizeBytes);
  }

  /** Router and node compute the same slot base for every configuration, even where the arithmetic wraps. */
  lemma RouterAgreesWithNode(c: SlotConfig, m: MemoryLayout, slot: int)
    requires m.numLayers == c.numLayers && m.layerSizeBytes == AsSize(c.layerSizeMb * MIB)
    ensures c.SlotBaseOffset(slot) == m.SlotBaseOffset(slot)
  {
    RequestResidue(c.numLayers, c.layerSizeMb);
  }

  /** Multiplying by the megabyte before or after the first reduction makes no difference. */
  lemma RequestResidue(n: int, s: int)
    ensures AsSize(AsSize(AsSize(n) * s) * MIB) == AsSize(AsSize(n) * AsSize(s * MIB))
  {
    calc {
      AsSize(AsSize(AsSize(n) * s) * MIB);
    == { WrapTimes(MIB, AsSize(n) * s); }
      AsSize(MIB * (AsSize(n) * s));
    == { MulAssoc(AsSize(n), s, MIB); }
      AsSize(AsSize(n) * (s * MIB));
    == { WrapTimes(AsSize(n), s * MIB); }
      AsSize(AsSize(n) * AsSize(s * MIB));
    }
  }

  /** Every range of the layout lies in the buffer. */
  ghost predicate InsideBuffer(m: MemoryLayout) {
    forall s, l :: m.HasSlot(s) && m.HasLayer(l) ==> m.LayerOffset(s, l) + m.layerSizeBytes <= m.bufferSizeBytes
  }

  ghost predicate FitsBuffer(m: MemoryLayout) {
    (m.maxConcurrentRequests * m.numLayers) * m.layerSizeBytes <= m.bufferSizeBytes
  }

  lemma CellInRange(slot: int, layer: int, slots: int, n: int)
    requires 0 <= slot < slots && 0 <= layer < n
    ensures 0 <= slot * n <= slot * n + layer < slots * n
  {
    MulMono(slot + 1, slots, n);
    MulAdd(slot, 1, n);
    MulMono(0, slot, n);
  }

  lemma CellAfterCell(a: int, b: int, z: int)
    requires a < b && 0 <= z
    ensures a * z + z <= b * z
  {
    MulMono(a + 1, b, z);
    MulAdd(a, 1, z);
  }

  lemma ExactInRange(slot: int, layer: int, slots: int, n: int, z: int)
    requires 0 <= slot < slots && 0 <= layer < n && 0 <= z
    ensures 0 <= ExactOffset(slot, layer, n, z) && ExactOffset(slot, layer, n, z) + z <= (slots * n) * z
  {
    CellInRange(slot, layer, slots, n);
    CellAfterCell(slot * n + layer, slots * n, z);
    MulMono(0, slot * n + layer, z);
  }

  lemma NoWrap(x: int)
    requires 0 <= x < TWO_64
    ensures AsSize(x) == x
  {
  }

  /** In a layout that fits nothing wraps. */
  lemma OffsetsDoNotWrap(m: MemoryLayout, slot: int, layer: int)
    requires FitsBuffer(m) && m.HasSlot(slot) && m.HasLayer(layer)
    ensures m.LayerOffset(slot, layer) == ExactOffset(slot, layer, m.numLayers, m.layerSizeBytes)
    ensures m.LayerOffset(slot, layer) + m.layerSizeBytes <= m.bufferSizeBytes
  {
    var exact := ExactOffset(slot, layer, m.numLayers, m.layerSizeBytes);
    assert 0 <= exact && exact + m.layerSizeBytes <= m.bufferSizeBytes by {
      ExactInRange(slot, layer, m.maxConcurrentRequests, m.numLayers, m.layerSizeBytes);
    }
    assert m.LayerOffset(slot, layer) == AsSize(exact) by { LayerOffsetIsExact(m, slot, layer); }
    NoWrap(exact);
  }

  lemma BaseIsFirstLayer(m: MemoryLayout, slot: int)
    ensures m.SlotBaseOffset(slot) == m.LayerOffset(slot, 0)
  {
    SlotBaseIsExact(m, slot);
    LayerOffsetIsExact(m, slot, 0);
  }

  /** A slot's layers lie side by side from its base. */
  lemma LayersFromBase(m: MemoryLayout, slot: int, layer: int)
    requires FitsBuffer(m) && m.HasSlot(slot) && m.HasLayer(layer)
    ensures m.LayerOffset(slot, layer) == m.SlotBaseOffset(slot) + layer * m.layerSizeBytes
  {
    BaseIsFirstLayer(m, slot);
    OffsetsDoNotWrap(m, slot, layer);
    OffsetsDoNotWrap(m, slot, 0);
    MulAdd(slot * m.numLayers, layer, m.layerSizeBytes);
  }

  /** The connector refuses exactly the layers beyond the configured count and the starts beyond the buffer. */
  lemma ConnectorRefusesIff(slotBase: int, layer: int, numLayers: int, layerSize: int, bufferSizeMb: int)
    requires layerSize > 0
    ensures ConnectorOffset(slotBase, layer, numLayers, layerSize, bufferSizeMb)
      == if layer >= numLayers || slotBase + layer * layerSize >= bufferSizeMb * MIB then None
         else Some(slotBase + layer * layerSize)
  {
    if layer < numLayers {
      CellAfterCell(layer, numLayers, layerSize);
    } else {
      MulMono(numLayers, layer, layerSize);
    }
  }

  /** From the base it was sent, the connector computes the node's own offset for the layer. */
  lemma ConnectorAgreesWithNode(m: MemoryLayout, slot: int, layer: int, bufferSizeMb: int)
    requires FitsBuffer(m) && m.HasSlot(slot) && m.HasLayer(layer) && m.layerSizeBytes > 0
    requires bufferSizeMb * MIB == m.bufferSizeBytes
    ensures ConnectorOffset(m.SlotBaseOffset(slot), layer, m.numLayers, m.layerSizeBytes, bufferSizeMb)
      == Some(m.LayerOffset(slot, layer))
  {
    LayersFromBase(m, slot, layer);
    OffsetsDoNotWrap(m, slot, layer);
    ConnectorRefusesIff(m.SlotBaseOffset(slot), layer, m.numLayers, m.layerSizeBytes, bufferSizeMb);
  }

  predicate HasNoRanges(m: MemoryLayout) {
    m.maxConcurrentRequests <= 0 || m.numLayers <= 0
  }

  /** A layout with ranges has them all in bounds exactly when it fits: wrapping never rescues one that does not. */
  lemma InBoundsIffFits(m: MemoryLayout)
    ensures InsideBuffer(m) <==> HasNoRanges(m) || FitsBuffer(m)
  {
    if FitsBuffer(m) {
      forall s, l | m.HasSlot(s) && m.HasLayer(l) ensures m.LayerOffset(s, l) + m.layerSizeBytes <= m.bufferSizeBytes {
        OffsetsDoNotWrap(m, s, l);
      }
    } else if !HasNoRanges(m) {
      var s, l := FirstOutside(m);
    }
  }

  /** Of a layout that does not fit, the first range that crosses the end of the buffer. */
  lemma FirstOutside(m: MemoryLayout) returns (s: int, l: int)
    requires m.maxConcurrentRequests > 0 && m.numLayers > 0 && !FitsBuffer(m)
    ensures m.HasSlot(s) && m.HasLayer(l) && m.LayerOffset(s, l) + m.layerSizeBytes > m.bufferSizeBytes
  {
    s, l := FirstCellOutside(m.maxConcurrentRequests, m.numLayers, m.layerSizeBytes, m.bufferSizeBytes);
    var exact := ExactOffset(s, l, m.numLayers, m.layerSizeBytes);
    assert m.LayerOffset(s, l) == AsSize(exact) by { LayerOffsetIsExact(m, s, l); }
    NoWrap(exact);
  }

  lemma FirstCellOutside(slots: int, n: int, z: int, b: int) returns (s: int, l: int)
    requires slots > 0 && n > 0 && z >= 0 && b >= 0 && (slots * n) * z > b
    ensures 0 <= s < slots && 0 <= l < n
    ensures 0 <= ExactOffset(s, l, n, z) <= b < ExactOffset(s, l, n, z) + z
  {
    assert z != 0;
    var k := b / z;
    assert 0 <= k * z <= b < k * z + z;
    assert k < slots * n by { MulCancel(k, slots * n, z); }
    s, l := CellOf(k, slots, n);
  }

  lemma CellOf(k: int, slots: int, n: int) returns (s: int, l: int)
    requires 0 <= k < slots * n && n > 0
    ensures 0 <= s < slots && 0 <= l < n && k == s * n + l
  {
    s, l := k / n, k % n;
    assert s < slots by { MulCancel(s, slots, n); }
  }

  predicate Apart(a: int, b: int, size: int) {
    a + size <= b || b + size <= a
  }

  /** Distinct (slot, layer) pairs own disjoint ranges. */
  lemma RangesAreDisjoint(m: MemoryLayout, s: int, l: int, s': int, l': int)
    requires FitsBuffer(m) && m.HasSlot(s) && m.HasLayer(l) && m.HasSlot(s') && m.HasLayer(l') && (s, l) != (s', l')
    ensures Apart(m.LayerOffset(s, l), m.LayerOffset(s', l'), m.layerSizeBytes)
  {
    var k, k' := s * m.numLayers + l, s' * m.numLayers + l';
    OffsetsDoNotWrap(m, s, l);
    OffsetsDoNotWrap(m, s', l');
    assert k != k' by { CellsDiffer(s, l, s', l', m.numLayers); }
    if k < k' {
      CellAfterCell(k, k', m.layerSizeBytes);
    } else {
      CellAfterCell(k', k, m.layerSizeBytes);
    }
  }

  lemma CellsDiffer(s: int, l: int, s': int, l': int, n: int)
    requires 0 <= l < n && 0 <= l' < n && (s, l) != (s', l')
    ensures s * n + l != s' * n + l'
  {
    if s < s' {
      CellAfterCell(s, s', n);
    } else if s' < s {
      CellAfterCell(s', s, n);
    }
  }

  lemma SlotBaseFits(m: MemoryLayout, s: int)
    requires FitsBuffer(m) && m.HasSlot(s) && m.numLayers > 0
    ensures m.SlotBaseOffset(s) == s * (m.numLayers * m.layerSizeBytes)
  {
    BaseIsFirstLayer(m, s);
    OffsetsDoNotWrap(m, s, 0);
    MulAssoc(s, m.numLayers, m.layerSizeBytes);
  }

  /** Two requests in different slots own disjoint regions, each the size of a whole request. */
  lemma SlotsAreDisjoint(m: MemoryLayout, s: int, s': int)
    requires FitsBuffer(m) && m.HasSlot(s) && m.HasSlot(s') && s != s' && m.numLayers > 0
    ensures Apart(m.SlotBaseOffset(s), m.SlotBaseOffset(s'), m.numLayers * m.layerSizeBytes)
  {
    var size := m.numLayers * m.layerSizeBytes;
    assert 0 <= size by { MulMono(0, m.numLayers, m.layerSizeBytes); }
    SlotBaseFits(m, s);
    SlotBaseFits(m, s');
    if s < s' {
      CellAfterCell(s, s', size);
    } else {
      CellAfterCell(s', s, size);
    }
  }

  // ---- The check at startup ----

  /** The size the check should look at, before any reduction. */
  function NeededMb(c: NodeConfig): int {
    (c.numLayers * c.layerSizeMb) * c.maxConcurrentRequests
  }

  lemma ProductResidue(a: int, b: int)
    ensures AsSize(AsSize(a) * AsSize(b)) == AsSize(a * b)
  {
    WrapTimes(AsSize(a), b);
    WrapTimes(b, a);
  }

  lemma RequiredIsExact(c: NodeConfig)
    ensures c.RequiredMb() == AsSize(NeededMb(c))
  {
    ProductResidue(c.numLayers * c.layerSizeMb, c.maxConcurrentRequests);
  }

  lemma CellsInMegabytes(n: int, s: int, slots: int)
    ensures (slots * n) * (s * MIB) == ((n * s) * slots) * MIB
  {
    MulAssoc(slots * n, s, MIB);
    MulAssoc(slots, n, s);
  }

  /** The layout fits exactly when the megabytes do, as long as the two sizes in bytes are sizes. */
  lemma FitsInMegabytes(c: NodeConfig)
    requires c.layerSizeMb * MIB < TWO_64 && c.kvBufferMb * MIB < TWO_64 && c.numLayers < TWO_31
    ensures FitsBuffer(c.Layout()) <==> NeededMb(c) <= c.kvBufferMb
  {
    NoWrap(c.layerSizeMb * MIB);
    NoWrap(c.kvBufferMb * MIB);
    CellsInMegabytes(c.numLayers, c.layerSizeMb, c.maxConcurrentRequests);
  }

  lemma NeededIsPositive(c: NodeConfig)
    requires c.maxConcurrentRequests > 0
    ensures 0 <= NeededMb(c)
  {
    MulMono(0, c.numLayers, c.layerSizeMb);
    MulMono(0, c.numLayers * c.layerSizeMb, c.maxConcurrentRequests);
  }

  lemma CheckedLayoutFits(c: NodeConfig)
    requires c.StartupCheck() && NeededMb(c) < TWO_64 && !HasNoRanges(c.Layout())
    requires c.layerSizeMb * MIB < TWO_64 && c.kvBufferMb * MIB < TWO_64
    ensures FitsBuffer(c.Layout())
  {
    FitsInMegabytes(c);
    RequiredIsExact(c);
    NeededIsPositive(c);
    NoWrap(NeededMb(c));
  }

  /**
   * A node that passed the check has every range in its buffer exactly when it has no range (a layer count of 2^31 or
   * more is negative in the layout) or the layout fits; while the two sizes in bytes are sizes, that is exactly when
   * the required size did not wrap.
   */
  lemma CheckedLayoutInBoundsIffNoWrap(c: NodeConfig)
    requires c.StartupCheck()
    ensures InsideBuffer(c.Layout()) <==> HasNoRanges(c.Layout()) || FitsBuffer(c.Layout())
    ensures c.layerSizeMb * MIB < TWO_64 && c.kvBufferMb * MIB < TWO_64 ==>
      (InsideBuffer(c.Layout()) <==> HasNoRanges(c.Layout()) || NeededMb(c) < TWO_64)
  {
    InBoundsIffFits(c.Layout());
    if !HasNoRanges(c.Layout()) && c.layerSizeMb * MIB < TWO_64 && c.kvBufferMb * MIB < TWO_64 {
      FitsInMegabytes(c);
      RequiredIsExact(c);
      NeededIsPositive(c);
      if NeededMb(c) < TWO_64 { NoWrap(NeededMb(c)); }
    }
  }

  /** 65536 slots of 65536 layers of 2^32 MB need 2^64 MB: the check sees 0 and passes an empty buffer. */
  lemma CheckPassesByWrapping()
    ensures var c := NodeConfig(0, 0x1_0000_0000, 0x1_0000, 0x1_0000); c.StartupCheck() && !InsideBuffer(c.Layout())
  {
    var c := NodeConfig(0, 0x1_0000_0000, 0x1_0000, 0x1_0000);
    CheckedLayoutInBoundsIffNoWrap(c);
  }

  // ---- The bound check of a write ----

  datatype Write = Write(remoteAddr: uint64, length: uint32)

  /** Whether the call succeeds and what it posts; the address sum and the length are cut to their widths. */
  function PostWriteExternal(kvBufferMb: uint64, remoteBase: uint64, remoteOffset: uint64, length: uint64)
    : (bool, Option<Write>)
  {
    if AsSize(remoteOffset + length) > AsSize(kvBufferMb * MIB) then (false, None)
    else if length == 0 then (true, None)
    else (true, Some(Write(AsSize(remoteBase + remoteOffset), length % TWO_32)))
  }

  /** The posted write, at its address and with its length, touches no byte outside the remote buffer. */
  predicate WithinRemote(w: Write, remoteBase: uint64, size: uint64) {
    remoteBase <= w.remoteAddr && w.remoteAddr + w.length <= remoteBase + size
  }

  lemma PostedWrite(kvBufferMb: uint64, remoteBase: uint64, remoteOffset: uint64, length: uint64, w: Write)
    requires PostWriteExternal(kvBufferMb, remoteBase, remoteOffset, length) == (true, Some(w))
    ensures AsSize(remoteOffset + length) <= AsSize(kvBufferMb * MIB) && length > 0
    ensures w == Write(AsSize(remoteBase + remoteOffset), length % TWO_32)
  {
  }

  /**
   * Accepted exactly when the end of the write is inside the buffer or so far beyond 2^64 that it seems so; a refused
   * write posts nothing, and neither does an empty one, which still counts as done.
   */
  lemma WriteAcceptedIff(kvBufferMb: uint64, remoteBase: uint64, remoteOffset: uint64, length: uint64)
    ensures var (size, end) := (AsSize(kvBufferMb * MIB), remoteOffset + length);
      PostWriteExternal(kvBufferMb, remoteBase, remoteOffset, length).0
      <==> end <= size || TWO_64 <= end <= TWO_64 + size
    ensures var (ok, w) := PostWriteExternal(kvBufferMb, remoteBase, remoteOffset, length);
      w.Some? <==> ok && length > 0
  {
    var end := remoteOffset + length;
    if end < TWO_64 {
      NoWrap(end);
    } else {
      WrapShift(end - TWO_64, 1);
    }
  }

  /** Below 4 GiB, a posted write is inside the remote buffer exactly when the sum the check looked at did not wrap. */
  lemma PostedInsideIffNoWrap(kvBufferMb: uint64, remoteBase: uint64, remoteOffset: uint64, length: uint64, w: Write)
    requires PostWriteExternal(kvBufferMb, remoteBase, remoteOffset, length) == (true, Some(w))
    requires remoteBase + AsSize(kvBufferMb * MIB) <= TWO_64 && length < TWO_32
    ensures WithinRemote(w, remoteBase, AsSize(kvBufferMb * MIB)) <==> remoteOffset + length < TWO_64
  {
    PostedWrite(kvBufferMb, remoteBase, remoteOffset, length, w);
    ShortWriteInside(remoteBase, remoteOffset, length, AsSize(kvBufferMb * MIB));
  }

  lemma ShortWriteInside(base: uint64, offset: uint64, length: uint64, size: uint64)
    requires AsSize(offset + length) <= size && 0 < length < TWO_32 && base + size <= TWO_64
    ensures base <= AsSize(base + offset) && AsSize(base + offset) + length <= base + size <==> offset + length < TWO_64
  {
    if offset + length < TWO_64 {
      NoWrap(offset + length);
    } else {
      WrapShift(offset + length - TWO_64, 1);
    }
    if base + offset < TWO_64 {
      NoWrap(base + offset);
    } else {
      WrapShift(base + offset - TWO_64, 1);
    }
  }

  /**
   * From 4 GiB on the length is cut to its low 32 bits: whatever its length, a posted write is inside exactly when its
   * address, reduced as it is, and what is left of the length say so.
   */
  lemma LongWriteInsideIff(kvBufferMb: uint64, remoteBase: uint64, remoteOffset: uint64, length: uint64, w: Write)
    requires PostWriteExternal(kvBufferMb, remoteBase, remoteOffset, length) == (true, Some(w))
    requires remoteBase + AsSize(kvBufferMb * MIB) <= TWO_64
    ensures WithinRemote(w, remoteBase, AsSize(kvBufferMb * MIB))
      <==> remoteBase + remoteOffset < TWO_64 && remoteOffset + length % TWO_32 <= AsSize(kvBufferMb * MIB)
  {
    PostedWrite(kvBufferMb, remoteBase, remoteOffset, length, w);
    if remoteBase + remoteOffset < TWO_64 {
      NoWrap(remoteBase + remoteOffset);
    } else {
      WrapShift(remoteBase + remoteOffset - TWO_64, 1);
    }
  }

  /** A write at the largest offset wraps past the check and is posted before the buffer it is meant for. */
  lemma WrappedWriteLandsOutside()
    ensures var (ok, w) := PostWriteExternal(1, MIB, TWO_64 - 1, 2);
      ok && w == Some(Write(MIB - 1, 2)) && !WithinRemote(w.value, MIB, AsSize(1 * MIB))
  {
    WrapShift(1, 1);
    WrapShift(MIB - 1, 1);
  }

  lemma WriteLands(kvBufferMb: uint64, remoteBase: uint64, offset: uint64, length: uint64)
    requires 0 < length && offset + length <= AsSize(kvBufferMb * MIB) && remoteBase + offset < TWO_64
    ensures PostWriteExternal(kvBufferMb, remoteBase, offset, length)
      == (true, Some(Write(remoteBase + offset, length % TWO_32)))
  {
    NoWrap(offset + length);
    NoWrap(remoteBase + offset);
  }

  /** Every layer of a layout that fits is accepted and goes to its own place; only a length of 4 GiB or more is cut. */
  lemma LayerWriteLands(c: NodeConfig, m: MemoryLayout, remoteBase: uint64, slot: int, layer: int)
    requires m == c.Layout() && FitsBuffer(m) && m.HasSlot(slot) && m.HasLayer(layer) && m.layerSizeBytes > 0
    requires remoteBase + m.bufferSizeBytes <= TWO_64
    ensures var (ok, w) := PostWriteExternal(c.kvBufferMb, remoteBase, m.LayerOffset(slot, layer), m.layerSizeBytes);
      ok && w.Some? && w.value.remoteAddr == remoteBase + m.LayerOffset(slot, layer)
      && w.value.length == m.layerSizeBytes % TWO_32
  {
    assert m.LayerOffset(slot, layer) + m.layerSizeBytes <= m.bufferSizeBytes by { OffsetsDoNotWrap(m, slot, layer); }
    WriteLands(c.kvBufferMb, remoteBase, m.LayerOffset(slot, layer), m.layerSizeBytes);
  }
}
