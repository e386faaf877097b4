/** The shared segment: a header, an array of process records and an array of data
    chunks, each part rounded up to 256 bytes, all computed in `size_t`. */
module MemoryLayout {
  import opened Arithmetic

  /** The number of `size_t` values; 2 to the 64th on the machines in question, but
      nothing depends on more than this. */
  predicate SizeT(w: nat) {
    w % 256 == 0 && w >= 0x1_0000
  }

  function Wrap(w: nat, x: nat): nat
    requires w > 0
  {
    x % w
  }

  /** `MEMORY_ALIGN`: the addition and both shifts in `size_t`. */
  function MemoryAlign(w: nat, size: nat): nat
    requires w > 0
  {
    Wrap(w, size + 255) / 256 * 256
  }

  /** The bytes of the header's structure: two counts, each padded to a word, and two sizes. */
  const HEADER_BYTES: nat := 32

  /** `MEMORY_MAP_SIZE` */
  const MEMORY_MAP_SIZE: nat := 256

  lemma MapSize(w: nat)
    requires SizeT(w)
    ensures MEMORY_MAP_SIZE == MemoryAlign(w, HEADER_BYTES) == 256
    ensures HEADER_BYTES == (4 + 4) + 8 + (4 + 4) + 8
  {
    DivModUnique(287, w, 0, 287);
  }

  /** `memory_get_dataoffset` for `p` bytes of process records. */
  function DataOffsetOf(w: nat, p: nat): nat
    requires w > 0
  {
    Wrap(w, MEMORY_MAP_SIZE + MemoryAlign(w, Wrap(w, p)))
  }

  /** `memory_get_size` for `p` bytes of process records and `d` bytes of chunks. */
  function SizeOf(w: nat, p: nat, d: nat): nat
    requires w > 0
  {
    Wrap(w, DataOffsetOf(w, p) + MemoryAlign(w, Wrap(w, d)))
  }

  datatype MemoryMap = MemoryMap(processCnt: nat, processSize: nat, dataCnt: nat, dataSize: nat)
  {
    function ProcessBytes(): nat { processSize * processCnt }

    function DataBytes(): nat { dataSize * dataCnt }

    function Size(w: nat): nat
      requires w > 0
    {
      SizeOf(w, ProcessBytes(), DataBytes())
    }

    function DataOffset(w: nat): nat
      requires w > 0
    {
      DataOffsetOf(w, ProcessBytes())
    }

    /** The offset `pipeline_thread` puts into the ring for chunk `i`. */
    function ChunkOffset(w: nat, i: nat): nat
      requires w > 0
    {
      Wrap(w, DataOffset(w) + Wrap(w, i * dataSize))
    }

    /** Where a module's thread finds the process record with index `i`. */
    function RecordOffset(w: nat, i: nat): nat
      requires w > 0
    {
      Wrap(w, MEMORY_MAP_SIZE + Wrap(w, i * processSize))
    }

    /** The bytes all objects need together. */
    function Needed(): nat {
      HEADER_BYTES + ProcessBytes() + DataBytes()
    }

    /** The size of the segment in exact arithmetic. */
    function ExactSize(): nat {
      MEMORY_MAP_SIZE + RoundUp(ProcessBytes()) + RoundUp(DataBytes())
    }

    predicate Fits(w: nat) {
      ExactSize() < w
    }
  }

  /** The next multiple of 256. */
  function RoundUp(x: nat): (y: nat)
    ensures x <= y < x + 256 && y % 256 == 0
  {
    (x + 255) / 256 * 256
  }

  // ---------------------------------------------------- modular arithmetic

  lemma WrapSum(w: nat, a: nat, b: nat)
    requires w > 0
    ensures Wrap(w, Wrap(w, a) + b) == Wrap(w, a + b)
  {
    var q := a / w;
    var x := a % w + b;
    var q', r' := x / w, x % w;
    assert a + b == (q + q') * w + r';
    DivModUnique(a + b, w, q + q', r');
  }

  lemma ShiftBlocks(a: nat, s: nat)
    ensures (256 * a + s) / 256 == a + s / 256
  {}

  lemma BlocksOfWord(w: nat, q: nat)
    requires w % 256 == 0
    ensures q * w == 256 * (q * (w / 256))
  {
    assert w == 256 * (w / 256);
  }

  lemma RoundUpSplits(w: nat, x: nat, q: nat, r: nat)
    requires w % 256 == 0 && x + 255 == q * w + r
    ensures RoundUp(x) == q * w + r / 256 * 256
  {
    BlocksOfWord(w, q);
    ShiftBlocks(q * (w / 256), r);
  }

  lemma WrapRoundUp(w: nat, x: nat, z: nat, q: nat, r: nat)
    requires w % 256 == 0 && z == x + 255 == q * w + r && r < w
    ensures Wrap(w, RoundUp(x)) == r / 256 * 256
  {
    RoundUpSplits(w, x, q, r);
    DivModUnique(RoundUp(x), w, q, r / 256 * 256);
  }

  lemma Euclid(z: nat, w: nat) returns (q: nat, r: nat)
    requires w > 0
    ensures z == q * w + r && r < w && r == Wrap(w, z)
  {
    q, r := z / w, z % w;
  }

  lemma AlignIsRoundUp(w: nat, x: nat)
    requires w > 0 && w % 256 == 0
    ensures MemoryAlign(w, Wrap(w, x)) == Wrap(w, RoundUp(x))
  {
    var q, r := Euclid(x + 255, w);
    WrapRoundUp(w, x, x + 255, q, r);
    WrapSum(w, x, 255);
  }

  lemma WrapSmall(w: nat, x: nat)
    requires x < w
    ensures Wrap(w, x) == x
  {
    DivModUnique(x, w, 0, x);
  }

  lemma WrapBoth(w: nat, a: nat, b: nat)
    requires w > 0
    ensures Wrap(w, Wrap(w, a) + Wrap(w, b)) == Wrap(w, a + b)
  {
    WrapSum(w, a, Wrap(w, b));
    WrapSum(w, b, a);
  }

  // --------------------------------------------------------------- the size

  lemma DataOffsetModWord(w: nat, p: nat)
    requires SizeT(w)
    ensures DataOffsetOf(w, p) == Wrap(w, MEMORY_MAP_SIZE + RoundUp(p))
  {
    AlignIsRoundUp(w, p);
    WrapSum(w, RoundUp(p), MEMORY_MAP_SIZE);
  }

  lemma SizeModWord(w: nat, p: nat, d: nat)
    requires SizeT(w)
    ensures SizeOf(w, p, d) == Wrap(w, MEMORY_MAP_SIZE + RoundUp(p) + RoundUp(d))
  {
    AlignIsRoundUp(w, d);
    DataOffsetModWord(w, p);
    WrapBoth(w, MEMORY_MAP_SIZE + RoundUp(p), RoundUp(d));
  }

  lemma WrapLoses(w: nat, e: nat)
    requires 0 < w <= e
    ensures Wrap(w, e) <= e - w
  {
    var q, r := Euclid(e, w);
    assert q == 0 ==> q * w == 0;
    AtLeastOnce(q, w);
  }

  /** `memory_get_size` reserves the bytes that are needed exactly when the rounded
      sum of the parts fits in a `size_t`. */
  lemma SizeSufficesExactly(w: nat, m: MemoryMap)
    requires SizeT(w)
    ensures m.Needed() <= m.Size(w) <==> m.Fits(w)
  {
    var e := m.ExactSize();
    SizeModWord(w, m.ProcessBytes(), m.DataBytes());
    if e >= w { WrapLoses(w, e); } else { WrapSmall(w, e); }
  }

  // ------------------------------------------------------- disjoint objects

  datatype Object = Header | Process(i: nat) | Chunk(i: nat)

  predicate Exists(m: MemoryMap, o: Object) {
    match o
    case Header => true
    case Process(i) => i < m.processCnt
    case Chunk(i) => i < m.dataCnt
  }

  /** Where the code finds the object. */
  function Start(w: nat, m: MemoryMap, o: Object): nat
    requires w > 0
  {
    match o
    case Header => 0
    case Process(i) => m.RecordOffset(w, i)
    case Chunk(i) => m.ChunkOffset(w, i)
  }

  function Bytes(m: MemoryMap, o: Object): nat {
    match o
    case Header => HEADER_BYTES
    case Process(_) => m.processSize
    case Chunk(_) => m.dataSize
  }

  /** Where it would be in exact arithmetic. */
  function ExactStart(m: MemoryMap, o: Object): nat {
    match o
    case Header => 0
    case Process(i) => MEMORY_MAP_SIZE + i * m.processSize
    case Chunk(i) => MEMORY_MAP_SIZE + RoundUp(m.ProcessBytes()) + i * m.dataSize
  }

  /** Consecutive elements of an array do not reach into one another. */
  lemma ArrayElements(i: nat, n: nat, size: nat)
    requires i < n
    ensures i * size + size <= size * n
  {
    assert i * size + size == (i + 1) * size;
    assert (i + 1) * size <= n * size;
  }

  lemma OffsetExact(w: nat, base: nat, x: nat)
    requires base + x < w
    ensures Wrap(w, base + Wrap(w, x)) == base + x
  {
    WrapSmall(w, x);
    WrapSmall(w, base + x);
  }

  lemma InsideExactly(m: MemoryMap, o: Object)
    requires Exists(m, o)
    ensures ExactStart(m, o) + Bytes(m, o) <= m.ExactSize()
  {
    match o
    case Header =>
    case Process(i) => ArrayElements(i, m.processCnt, m.processSize);
    case Chunk(i) => ArrayElements(i, m.dataCnt, m.dataSize);
  }

  /** In a segment that fits, no offset wraps around. */
  lemma StartIsExact(w: nat, m: MemoryMap, o: Object)
    requires SizeT(w) && m.Fits(w) && Exists(m, o)
    ensures Start(w, m, o) == ExactStart(m, o)
  {
    InsideExactly(m, o);
    match o
    case Header =>
    case Process(i) =>
      OffsetExact(w, MEMORY_MAP_SIZE, i * m.processSize);
    case Chunk(i) =>
      DataOffsetModWord(w, m.ProcessBytes());
      WrapSmall(w, MEMORY_MAP_SIZE + RoundUp(m.ProcessBytes()));
      OffsetExact(w, m.DataOffset(w), i * m.dataSize);
  }

  /** Every object lies inside `memory_get_size`. */
  lemma ObjectsInside(w: nat, m: MemoryMap, o: Object)
    requires SizeT(w) && m.Fits(w) && Exists(m, o)
    ensures Start(w, m, o) + Bytes(m, o) <= m.Size(w)
  {
    SizeModWord(w, m.ProcessBytes(), m.DataBytes());
    WrapSmall(w, m.ExactSize());
    StartIsExact(w, m, o);
    InsideExactly(m, o);
  }

  /** Part by part, in order: header, records, chunks. */
  predicate Before(a: Object, b: Object) {
    match (a, b)
    case (Header, Process(_)) => true
    case (Header, Chunk(_)) => true
    case (Process(i), Process(j)) => i < j
    case (Process(_), Chunk(_)) => true
    case (Chunk(i), Chunk(j)) => i < j
    case _ => false
  }

  lemma ObjectsInOrder(m: MemoryMap, a: Object, b: Object)
    requires Exists(m, a) && Exists(m, b) && Before(a, b)
    ensures ExactStart(m, a) + Bytes(m, a) <= ExactStart(m, b)
  {
    match a
    case Header =>
    case Process(i) =>
      if b.Process? { ArrayElements(i, b.i, m.processSize); } else { ArrayElements(i, m.processCnt, m.processSize); }
    case Chunk(i) => ArrayElements(i, b.i, m.dataSize);
  }

  /** No two objects of the segment overlap. */
  lemma ObjectsDisjoint(w: nat, m: MemoryMap, a: Object, b: Object)
    requires SizeT(w) && m.Fits(w) && Exists(m, a) && Exists(m, b) && a != b
    ensures Start(w, m, a) + Bytes(m, a) <= Start(w, m, b) || Start(w, m, b) + Bytes(m, b) <= Start(w, m, a)
  {
    StartIsExact(w, m, a);
    StartIsExact(w, m, b);
    if Before(a, b) { ObjectsInOrder(m, a, b); } else { ObjectsInOrder(m, b, a); }
  }

  /** So the ring is filled with distinct offsets, unless chunks are empty. */
  lemma ChunkOffsetsDistinct(w: nat, m: MemoryMap, i: nat, j: nat)
    requires SizeT(w) && m.Fits(w) && i < j < m.dataCnt
    ensures m.ChunkOffset(w, i) != m.ChunkOffset(w, j) <==> m.dataSize > 0
  {
    ObjectsDisjoint(w, m, Chunk(i), Chunk(j));
    StartIsExact(w, m, Chunk(i));
    StartIsExact(w, m, Chunk(j));
    ObjectsInOrder(m, Chunk(i), Chunk(j));
    if m.dataSize == 0 { assert i * m.dataSize == 0 == j * m.dataSize; }
  }
}
