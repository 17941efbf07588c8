/** The file corrupter: a region of a file is divided into chunks, and every `mod`-th chunk, starting
    with chunk `index`, has bits flipped, is overwritten with another chunk, or is saved and restored. */
module CorruptFile {

  import opened Numbers
  import opened Wrappers

  type Bytes = seq<bv8>

  datatype Opts = Opts(start: int, end: int, chunkSize: int, index: nat, mod: nat, probability: real)

  const OFF_MAX: int := 0x7FFF_FFFF_FFFF_FFFF

  predicate Validate(o: Opts) {
    && o.start >= 0
    && o.end >= 0
    && o.end <= OFF_MAX
    && o.start <= o.end
    && o.index < o.mod
    && 0.0 <= o.probability <= 1.0
    && o.chunkSize > 0
  }

  /** What passes: a region of positions below the largest offset, an index below the modulus, a probability, and
      chunks that are not empty. */
  lemma ValidWhen(o: Opts)
    ensures Validate(o) <==>
            && 0 <= o.start <= o.end < 0x8000_0000_0000_0000
            && o.index < o.mod && !(o.probability < 0.0 || 1.0 < o.probability) && o.chunkSize >= 1
  {
  }

  function ChunkOffset(o: Opts, chunk: int): int {
    o.start + chunk * o.chunkSize
  }

  function Min(a: int, b: int): int {
    if a < b then a else b
  }

  function RegionEnd(o: Opts, fileSize: nat): int {
    Min(o.end, fileSize)
  }

  function ChunkCount(o: Opts, fileSize: nat): int
    requires o.chunkSize > 0
  {
    var end := if fileSize < o.end then fileSize else o.end;
    if end < o.start then 0
    else
      var regionSize := end - o.start;
      regionSize / o.chunkSize + if regionSize % o.chunkSize != 0 then 1 else 0
  }

  /** Where a chunk ends: at its full size, but not past the file or the region. */
  function ChunkEnd(o: Opts, fileSize: nat, chunk: int): int {
    Min(Min(ChunkOffset(o, chunk) + o.chunkSize, fileSize), o.end)
  }

  // ---- Chunks tile the region ----

  predicate InChunk(o: Opts, fileSize: nat, chunk: int, p: int) {
    ChunkOffset(o, chunk) <= p < ChunkEnd(o, fileSize, chunk)
  }

  function ChunkOf(o: Opts, p: int): int
    requires o.chunkSize > 0
  {
    (p - o.start) / o.chunkSize
  }

  predicate Selected(o: Opts, chunk: int)
    requires o.mod > 0
  {
    chunk % o.mod == o.index
  }

  /** The `j`-th chunk that the stride loops visit. */
  function Visited(o: Opts, j: int): int {
    o.index + j * o.mod
  }

  /** A position of a chunk, by its distance from the chunk's start. */
  lemma OffsetInChunk(o: Opts, chunk: int, d: int)
    requires o.chunkSize > 0 && 0 <= d < o.chunkSize
    ensures ChunkOf(o, ChunkOffset(o, chunk) + d) == chunk
    ensures (ChunkOffset(o, chunk) + d - o.start) % o.chunkSize == d
  {
    DivModUnique(chunk, d, o.chunkSize);
  }

  lemma ChunkOfBounds(o: Opts, p: int)
    requires o.chunkSize > 0
    ensures ChunkOffset(o, ChunkOf(o, p)) <= p < ChunkOffset(o, ChunkOf(o, p)) + o.chunkSize
    ensures p >= o.start <==> ChunkOf(o, p) >= 0
  {
    Division(p - o.start, o.chunkSize);
    MulSign(ChunkOf(o, p), o.chunkSize);
  }

  /** A chunk is counted exactly when it starts before the end of the region. */
  lemma Counted(o: Opts, fileSize: nat, chunk: int)
    requires Validate(o) && chunk >= 0
    ensures chunk < ChunkCount(o, fileSize) <==> ChunkOffset(o, chunk) < RegionEnd(o, fileSize)
  {
    var size, cs := RegionEnd(o, fileSize) - o.start, o.chunkSize;
    MulSign(chunk, cs);
    Division(size, cs);
    MulSign(size / cs - chunk, cs);
    assert (size / cs - chunk) * cs == size / cs * cs - chunk * cs;
    if size < 0 {
      assert ChunkCount(o, fileSize) == 0;
    }
  }

  lemma ChunkNotEmpty(o: Opts, fileSize: nat, c: int)
    requires Validate(o) && 0 <= c < ChunkCount(o, fileSize)
    ensures ChunkOffset(o, c) < ChunkEnd(o, fileSize, c)
  {
    Counted(o, fileSize, c);
  }

  lemma PositionCovered(o: Opts, fileSize: nat, p: int)
    requires Validate(o) && o.start <= p < RegionEnd(o, fileSize)
    ensures 0 <= ChunkOf(o, p) < ChunkCount(o, fileSize) && InChunk(o, fileSize, ChunkOf(o, p), p)
  {
    ChunkOfBounds(o, p);
    Counted(o, fileSize, ChunkOf(o, p));
  }

  lemma ChunkInRegion(o: Opts, fileSize: nat, c: int, p: int)
    requires Validate(o) && 0 <= c && InChunk(o, fileSize, c, p)
    ensures o.start <= p < RegionEnd(o, fileSize) && c == ChunkOf(o, p)
  {
    OffsetInChunk(o, c, p - ChunkOffset(o, c));
    MulSign(c, o.chunkSize);
  }

  /** For all valid options and file sizes the chunks are not empty, and together they are the region,
      each byte of which is in one chunk only. */
  lemma Tiling(o: Opts, fileSize: nat)
    requires Validate(o)
    ensures ChunkCount(o, fileSize) >= 0
    ensures forall c :: 0 <= c < ChunkCount(o, fileSize) ==> ChunkOffset(o, c) < ChunkEnd(o, fileSize, c)
    ensures forall p :: o.start <= p < RegionEnd(o, fileSize) ==>
              0 <= ChunkOf(o, p) < ChunkCount(o, fileSize) && InChunk(o, fileSize, ChunkOf(o, p), p)
    ensures forall c, p :: 0 <= c < ChunkCount(o, fileSize) && InChunk(o, fileSize, c, p) ==>
              o.start <= p < RegionEnd(o, fileSize) && c == ChunkOf(o, p)
  {
    CountNotNegative(o, fileSize);
    forall c | 0 <= c < ChunkCount(o, fileSize) ensures ChunkOffset(o, c) < ChunkEnd(o, fileSize, c) {
      ChunkNotEmpty(o, fileSize, c);
    }
    forall p | o.start <= p < RegionEnd(o, fileSize)
      ensures 0 <= ChunkOf(o, p) < ChunkCount(o, fileSize) && InChunk(o, fileSize, ChunkOf(o, p), p)
    {
      PositionCovered(o, fileSize, p);
    }
    forall c, p | 0 <= c < ChunkCount(o, fileSize) && InChunk(o, fileSize, c, p)
      ensures o.start <= p < RegionEnd(o, fileSize) && c == ChunkOf(o, p)
    {
      ChunkInRegion(o, fileSize, c, p);
    }
  }

  lemma CountNotNegative(o: Opts, fileSize: nat)
    requires Validate(o)
    ensures ChunkCount(o, fileSize) >= 0
  {
    Division(RegionEnd(o, fileSize) - o.start, o.chunkSize);
    MulSign((RegionEnd(o, fileSize) - o.start) / o.chunkSize, o.chunkSize);
  }

  /** The loops that go from `index` in steps of `mod` visit the selected chunks, each once. */
  lemma VisitedSelected(o: Opts, j: nat)
    requires Validate(o)
    ensures Visited(o, j) >= 0 && Selected(o, Visited(o, j)) && Visited(o, j) / o.mod == j
  {
    DivModUnique(j, o.index, o.mod);
    MulSign(j, o.mod);
  }

  lemma SelectedVisited(o: Opts, chunk: int)
    requires Validate(o) && chunk >= 0 && Selected(o, chunk)
    ensures chunk / o.mod >= 0 && chunk == Visited(o, chunk / o.mod)
  {
    Division(chunk, o.mod);
    MulSign(chunk / o.mod + 1, o.mod);
  }

  lemma VisitedAtLeast(o: Opts, j: nat)
    requires Validate(o)
    ensures Visited(o, j) >= j
  {
    if o.mod > 1 {
      MulSign(j, o.mod - 1);
      assert j * (o.mod - 1) == j * o.mod - j;
    }
  }

  /** The selected chunks before the next one are those before this one, and this one. */
  lemma NextSelected(o: Opts, j: nat, chunk: int)
    requires Validate(o) && chunk >= 0 && Selected(o, chunk)
    ensures Visited(o, j + 1) == Visited(o, j) + o.mod
    ensures chunk < Visited(o, j + 1) <==> chunk < Visited(o, j) || chunk == Visited(o, j)
    ensures chunk == Visited(o, j) ==> chunk / o.mod == j
  {
    SelectedVisited(o, chunk);
    VisitedSelected(o, j);
    MulSign(chunk / o.mod - j, o.mod);
    assert (chunk / o.mod - j) * o.mod == chunk / o.mod * o.mod - j * o.mod;
    assert (j + 1) * o.mod == j * o.mod + o.mod;
  }

  /** Every counted chunk has the full size, except a last one. */
  lemma FullChunk(o: Opts, size: nat, chunk: int)
    requires Validate(o) && 0 <= chunk && chunk + 1 < ChunkCount(o, size)
    ensures ChunkEnd(o, size, chunk) == ChunkOffset(o, chunk) + o.chunkSize
  {
    Counted(o, size, chunk + 1);
    assert ChunkOffset(o, chunk + 1) == ChunkOffset(o, chunk) + o.chunkSize by {
      assert (chunk + 1) * o.chunkSize == chunk * o.chunkSize + o.chunkSize;
    }
  }

  // ---- The file ----

  /** The byte at a position of a file, if the file is that long. */
  function At(data: Bytes, p: int): Option<bv8> {
    if 0 <= p < |data| then Some(data[p]) else None
  }

  /** Writing bytes over a file from a position on; writing past the end makes the file longer. */
  function Overwritten(data: Bytes, at: nat, bytes: Bytes): Bytes
    requires at <= |data|
  {
    data[..at] + bytes + if at + |bytes| < |data| then data[at + |bytes|..] else []
  }

  lemma OverwrittenAt(data: Bytes, at: nat, bytes: Bytes, p: int)
    requires at <= |data|
    ensures At(Overwritten(data, at, bytes), p)
         == if at <= p < at + |bytes| then Some(bytes[p - at]) else At(data, p)
  {
  }

  /** One copy inside the file: as many of `len` bytes as there are from `source` on. */
  function Copied(data: Bytes, source: nat, dest: nat, len: nat): Bytes
    requires dest + len <= |data|
  {
    Overwritten(data, dest, data[Min(source, |data|)..Min(source + len, |data|)])
  }

  class File {
    var data: Bytes

    constructor (data: Bytes)
      ensures this.data == data
    {
      this.data := data;
    }

    method Write(at: nat, bytes: Bytes)
      requires at <= |data|
      modifies this
      ensures data == Overwritten(old(data), at, bytes)
    {
      data := Overwritten(data, at, bytes);
    }

    /** Copies inside the file, as many of `len` bytes as there are; the ranges must not overlap. */
    method CopyRange(source: nat, dest: nat, len: nat)
      requires dest + len <= |data| && (source + len <= dest || dest + len <= source)
      modifies this
      ensures data == Copied(old(data), source, dest, len)
    {
      Write(dest, data[Min(source, |data|)..Min(source + len, |data|)]);
    }
  }
}
