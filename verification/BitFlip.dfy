/** Flipping bits of the selected chunks. The program walks over the chunks with a bit offset that it
    moves on by random distances. Seen from the outside, the selected chunks laid end to end are one
    tape of bits, and the flipped bits are those at which the distances, added up, arrive. */
module BitFlip {

  import opened CorruptFile
  import opened Numbers

  /** Bit `k` of a byte, counted from the lowest. */
  predicate BitOf(x: bv8, k: int)
    requires 0 <= k < 8
  {
    (x >> k) & 1 == 1
  }

  function Mask(k: int): bv8
    requires 0 <= k < 8
  {
    1 << k
  }

  /** What the program writes back for a byte. */
  function Toggled(x: bv8, k: int): bv8
    requires 0 <= k < 8
  {
    x ^ Mask(k)
  }

  predicate BitAt(s: Bytes, b: int)
    requires 0 <= b < 8 * |s|
  {
    BitOf(s[b / 8], b % 8)
  }

  function Differing(s: Bytes, t: Bytes): set<int>
    requires |s| == |t|
  {
    set b | 0 <= b < 8 * |s| && BitAt(s, b) != BitAt(t, b)
  }

  lemma XorShifted(x: bv8, y: bv8, i: int)
    requires 0 <= i < 8
    ensures (x ^ y) >> i == (x >> i) ^ (y >> i)
  {
  }

  lemma XorLowest(a: bv8, b: bv8)
    ensures ((a ^ b) & 1 == 1) == ((a & 1 == 1) != (b & 1 == 1))
  {
  }

  lemma XorBit(x: bv8, y: bv8, i: int)
    requires 0 <= i < 8
    ensures BitOf(x ^ y, i) == (BitOf(x, i) != BitOf(y, i))
  {
    XorShifted(x, y, i);
    XorLowest(x >> i, y >> i);
  }

  lemma MaskBit(k: int, i: int)
    requires 0 <= k < 8 && 0 <= i < 8
    ensures BitOf(Mask(k), i) == (k == i)
  {
  }

  /** The program changes the bit it aims at, and no other. */
  lemma ByteFlip(x: bv8, k: int, i: int)
    requires 0 <= k < 8 && 0 <= i < 8
    ensures BitOf(Toggled(x, k), i) == (BitOf(x, i) != (k == i))
  {
    XorBit(x, Mask(k), i);
    MaskBit(k, i);
  }

  lemma SameByte(x: bv8, y: bv8)
    requires forall i :: 0 <= i < 8 ==> BitOf(x, i) == BitOf(y, i)
    ensures x == y
  {
    assert BitOf(x, 0) == BitOf(y, 0) && BitOf(x, 1) == BitOf(y, 1);
    assert BitOf(x, 2) == BitOf(y, 2) && BitOf(x, 3) == BitOf(y, 3);
    assert BitOf(x, 4) == BitOf(y, 4) && BitOf(x, 5) == BitOf(y, 5);
    assert BitOf(x, 6) == BitOf(y, 6) && BitOf(x, 7) == BitOf(y, 7);
  }

  lemma SameFile(s: Bytes, t: Bytes)
    requires |s| == |t|
    requires forall b :: 0 <= b < 8 * |s| ==> BitAt(s, b) == BitAt(t, b)
    ensures s == t
  {
    forall p | 0 <= p < |s| ensures s[p] == t[p] {
      forall i | 0 <= i < 8 ensures BitOf(s[p], i) == BitOf(t[p], i) {
        assert (8 * p + i) / 8 == p && (8 * p + i) % 8 == i;
        assert BitAt(s, 8 * p + i) == BitAt(t, 8 * p + i);
      }
      SameByte(s[p], t[p]);
    }
  }

  // ---- Where the flips fall ----

  /** The random distances added up, a distance of zero between two flips counting as one. */
  function Arrival(draws: nat -> nat, i: nat): nat {
    if i == 0 then draws(0) else Arrival(draws, i - 1) + if draws(i) == 0 then 1 else draws(i)
  }

  lemma {:induction false} ArrivalGrows(draws: nat -> nat, i: nat, k: nat)
    requires i < k
    ensures Arrival(draws, i) < Arrival(draws, k)
  {
    if i < k - 1 {
      ArrivalGrows(draws, i, k - 1);
    }
  }

  function Sum(draws: nat -> nat, n: nat): nat {
    if n == 0 then 0 else Sum(draws, n - 1) + draws(n - 1)
  }

  /** The draws after the first, up to number `i`, that are zero. */
  function Zeros(draws: nat -> nat, i: nat): set<nat> {
    set k: nat | 1 <= k <= i && draws(k) == 0
  }

  /** The arrivals are the sums of the draws, and one for each that had to be made one. */
  lemma {:induction false} ArrivalSums(draws: nat -> nat, i: nat)
    ensures Arrival(draws, i) == Sum(draws, i + 1) + |Zeros(draws, i)|
  {
    if i == 0 {
      assert Zeros(draws, 0) == {};
    } else {
      ArrivalSums(draws, i - 1);
      assert Zeros(draws, i) == Zeros(draws, i - 1) + if draws(i) == 0 then {i} else {};
    }
  }

  /** The bit is in the region, and in a selected chunk. */
  predicate OnTape(o: Opts, size: nat, b: int)
    requires o.chunkSize > 0 && o.mod > 0
  {
    o.start <= b / 8 < RegionEnd(o, size) && Selected(o, ChunkOf(o, b / 8))
  }

  /** The place of a bit when the selected chunks are laid end to end. */
  function TapeBit(o: Opts, b: int): int
    requires o.chunkSize > 0 && o.mod > 0
  {
    var chunk := ChunkOf(o, b / 8);
    8 * (chunk / o.mod * o.chunkSize + (b / 8 - ChunkOffset(o, chunk))) + b % 8
  }

  ghost predicate Hit(o: Opts, size: nat, draws: nat -> nat, b: int)
    requires o.chunkSize > 0 && o.mod > 0
  {
    OnTape(o, size, b) && exists k: nat :: Arrival(draws, k) == TapeBit(o, b)
  }

  ghost predicate HitBefore(o: Opts, size: nat, draws: nat -> nat, i: nat, b: int)
    requires o.chunkSize > 0 && o.mod > 0
  {
    OnTape(o, size, b) && exists k: nat :: k < i && Arrival(draws, k) == TapeBit(o, b)
  }

  lemma TapeBitInjective(o: Opts, size: nat, b: int, c: int)
    requires Validate(o) && OnTape(o, size, b) && OnTape(o, size, c) && TapeBit(o, b) == TapeBit(o, c)
    ensures b == c
  {
    TapeByte(o, size, b);
    TapeByte(o, size, c);
    assert b / 8 == c / 8;
  }

  lemma TapeByte(o: Opts, size: nat, b: int)
    requires Validate(o) && OnTape(o, size, b)
    ensures TapeBit(o, b) % 8 == b % 8
    ensures b / 8 == ChunkOffset(o, Visited(o, TapeBit(o, b) / 8 / o.chunkSize)) + TapeBit(o, b) / 8 % o.chunkSize
  {
    var chunk := ChunkOf(o, b / 8);
    var d := b / 8 - ChunkOffset(o, chunk);
    ChunkOfBounds(o, b / 8);
    SelectedVisited(o, chunk);
    DivModUnique(chunk / o.mod, d, o.chunkSize);
    assert TapeBit(o, b) / 8 == chunk / o.mod * o.chunkSize + d;
  }

  // ---- The walk ----

  /** Between the bits of two files, what has happened when `i` flips are done. */
  ghost predicate FlippedSoFar(o: Opts, draws: nat -> nat, i: nat, s: Bytes, t: Bytes)
    requires o.chunkSize > 0 && o.mod > 0
  {
    && |s| == |t|
    && forall b :: 0 <= b < 8 * |s| ==> BitAt(t, b) == (BitAt(s, b) != HitBefore(o, |s|, draws, i, b))
  }

  ghost predicate Flipped(o: Opts, draws: nat -> nat, s: Bytes, t: Bytes)
    requires o.chunkSize > 0 && o.mod > 0
  {
    && |s| == |t|
    && forall b :: 0 <= b < 8 * |s| ==> BitAt(t, b) == (BitAt(s, b) != Hit(o, |s|, draws, b))
  }

  /** The bit at distance `d` bits into the `j`-th chunk that the walk visits. */
  lemma BitOfChunk(o: Opts, size: nat, j: nat, d: nat, b: int)
    requires Validate(o) && Visited(o, j) < ChunkCount(o, size)
    requires d / 8 < ChunkEnd(o, size, Visited(o, j)) - ChunkOffset(o, Visited(o, j))
    requires b == 8 * (ChunkOffset(o, Visited(o, j)) + d / 8) + d % 8
    ensures 0 <= b < 8 * size && OnTape(o, size, b) && TapeBit(o, b) == 8 * (j * o.chunkSize) + d
  {
    var chunk := Visited(o, j);
    VisitedSelected(o, j);
    OffsetInChunk(o, chunk, d / 8);
    MulSign(chunk, o.chunkSize);
    assert b / 8 == ChunkOffset(o, chunk) + d / 8 && b % 8 == d % 8;
  }

  lemma HitNow(o: Opts, size: nat, draws: nat -> nat, i: nat, b: int, c: int)
    requires Validate(o) && OnTape(o, size, b) && TapeBit(o, b) == Arrival(draws, i)
    ensures HitBefore(o, size, draws, i + 1, c) == (HitBefore(o, size, draws, i, c) || c == b)
    ensures !HitBefore(o, size, draws, i, b)
  {
    if HitBefore(o, size, draws, i, b) {
      var k: nat :| k < i && Arrival(draws, k) == TapeBit(o, b);
      ArrivalGrows(draws, k, i);
    }
    if HitBefore(o, size, draws, i + 1, c) && !HitBefore(o, size, draws, i, c) {
      var k: nat :| k < i + 1 && Arrival(draws, k) == TapeBit(o, c);
      TapeBitInjective(o, size, b, c);
    }
  }

  lemma FlipOne(s: Bytes, p: int, k: int, b: int)
    requires 0 <= p < |s| && 0 <= k < 8 && 0 <= b < 8 * |s|
    ensures BitAt(s[p := Toggled(s[p], k)], b) == (BitAt(s, b) != (b == 8 * p + k))
  {
    ByteFlip(s[p], k, b % 8);
  }

  lemma FlipStep(o: Opts, draws: nat -> nat, i: nat, s: Bytes, t: Bytes, p: int, k: int)
    requires Validate(o) && FlippedSoFar(o, draws, i, s, t)
    requires 0 <= p < |t| && 0 <= k < 8
    requires OnTape(o, |s|, 8 * p + k) && TapeBit(o, 8 * p + k) == Arrival(draws, i)
    ensures FlippedSoFar(o, draws, i + 1, s, t[p := Toggled(t[p], k)])
  {
    forall b | 0 <= b < 8 * |s|
      ensures BitAt(t[p := Toggled(t[p], k)], b) == (BitAt(s, b) != HitBefore(o, |s|, draws, i + 1, b))
    {
      FlipOne(t, p, k, b);
      HitNow(o, |s|, draws, i, 8 * p + k, b);
    }
  }

  ghost function Hits(o: Opts, size: nat, draws: nat -> nat, i: nat): set<int>
    requires o.chunkSize > 0 && o.mod > 0
  {
    set b | 0 <= b < 8 * size && HitBefore(o, size, draws, i, b)
  }

  lemma Differs(o: Opts, draws: nat -> nat, i: nat, s: Bytes, t: Bytes)
    requires Validate(o) && FlippedSoFar(o, draws, i, s, t)
    ensures Differing(s, t) == Hits(o, |s|, draws, i)
  {
  }

  lemma NewHit(o: Opts, draws: nat -> nat, i: nat, s: Bytes, b: int)
    requires Validate(o) && 0 <= b < 8 * |s| && OnTape(o, |s|, b) && TapeBit(o, b) == Arrival(draws, i)
    ensures |Hits(o, |s|, draws, i + 1)| == |Hits(o, |s|, draws, i)| + 1
  {
    forall c ensures HitBefore(o, |s|, draws, i + 1, c) == (HitBefore(o, |s|, draws, i, c) || c == b) {
      HitNow(o, |s|, draws, i, b, c);
    }
    HitNow(o, |s|, draws, i, b, b);
    assert Hits(o, |s|, draws, i + 1) == Hits(o, |s|, draws, i) + {b};
  }

  /** All bits of the selected chunks before this one come before the next arrival. */
  ghost predicate Passed(o: Opts, size: nat, draws: nat -> nat, i: nat, chunk: int)
    requires o.chunkSize > 0 && o.mod > 0
  {
    forall b :: OnTape(o, size, b) && ChunkOf(o, b / 8) < chunk ==> TapeBit(o, b) < Arrival(draws, i)
  }

  lemma PassChunk(o: Opts, size: nat, draws: nat -> nat, i: nat, j: nat)
    requires Validate(o) && Passed(o, size, draws, i, Visited(o, j))
    requires Arrival(draws, i) >= 8 * (j * o.chunkSize)
                               + 8 * (ChunkEnd(o, size, Visited(o, j)) - ChunkOffset(o, Visited(o, j)))
    ensures Passed(o, size, draws, i, Visited(o, j + 1))
  {
    forall b | OnTape(o, size, b) && ChunkOf(o, b / 8) < Visited(o, j + 1)
      ensures TapeBit(o, b) < Arrival(draws, i)
    {
      ChunkOfBounds(o, b / 8);
      NextSelected(o, j, ChunkOf(o, b / 8));
      if ChunkOf(o, b / 8) == Visited(o, j) {
        assert b / 8 - ChunkOffset(o, Visited(o, j)) < ChunkEnd(o, size, Visited(o, j)) - ChunkOffset(o, Visited(o, j));
      }
    }
  }

  lemma PassedStays(o: Opts, size: nat, draws: nat -> nat, i: nat, chunk: int)
    requires o.chunkSize > 0 && o.mod > 0 && Passed(o, size, draws, i, chunk)
    ensures Passed(o, size, draws, i + 1, chunk)
  {
    ArrivalGrows(draws, i, i + 1);
  }

  lemma WalkDone(o: Opts, draws: nat -> nat, i: nat, s: Bytes, t: Bytes, chunk: int)
    requires Validate(o) && FlippedSoFar(o, draws, i, s, t)
    requires chunk >= ChunkCount(o, |s|) && Passed(o, |s|, draws, i, chunk)
    ensures Flipped(o, draws, s, t)
  {
    forall b | 0 <= b < 8 * |s| ensures Hit(o, |s|, draws, b) == HitBefore(o, |s|, draws, i, b) {
      if Hit(o, |s|, draws, b) {
        var k: nat :| Arrival(draws, k) == TapeBit(o, b);
        Tiling(o, |s|);
        if i < k {
          ArrivalGrows(draws, i, k);
        }
      }
    }
  }

  /** Where the walk stands in the `j`-th chunk it visits: `i` bits are flipped, and the next one to flip is
      `bitOffset` bits from the start of the chunk. */
  ghost predicate Walking(o: Opts, draws: nat -> nat, i: nat, j: nat, s: Bytes, t: Bytes, bitOffset: int)
    requires o.chunkSize > 0 && o.mod > 0
  {
    && bitOffset == Arrival(draws, i) - 8 * (j * o.chunkSize)
    && bitOffset >= 0
    && Walked(o, draws, i, Visited(o, j), s, t)
  }

  ghost predicate Walked(o: Opts, draws: nat -> nat, i: nat, chunk: int, s: Bytes, t: Bytes)
    requires o.chunkSize > 0 && o.mod > 0
  {
    && FlippedSoFar(o, draws, i, s, t)
    && i == |Differing(s, t)|
    && Passed(o, |s|, draws, i, chunk)
  }

  lemma FlipWalked(o: Opts, draws: nat -> nat, i: nat, chunk: int, s: Bytes, t: Bytes, p: int, k: int)
    requires Validate(o) && Walked(o, draws, i, chunk, s, t) && 0 <= p < |t| && 0 <= k < 8
    requires OnTape(o, |s|, 8 * p + k) && TapeBit(o, 8 * p + k) == Arrival(draws, i)
    ensures Walked(o, draws, i + 1, chunk, s, t[p := Toggled(t[p], k)])
  {
    FlipStep(o, draws, i, s, t, p, k);
    Differs(o, draws, i, s, t);
    Differs(o, draws, i + 1, s, t[p := Toggled(t[p], k)]);
    NewHit(o, draws, i, s, 8 * p + k);
    PassedStays(o, |s|, draws, i, chunk);
  }

  lemma FlipNext(o: Opts, draws: nat -> nat, i: nat, j: nat, s: Bytes, t: Bytes, bitOffset: nat, p: int, k: int)
    requires Validate(o) && Visited(o, j) < ChunkCount(o, |s|)
    requires Walking(o, draws, i, j, s, t, bitOffset)
    requires bitOffset / 8 < ChunkEnd(o, |s|, Visited(o, j)) - ChunkOffset(o, Visited(o, j))
    requires p == ChunkOffset(o, Visited(o, j)) + bitOffset / 8 && k == bitOffset % 8
    ensures 0 <= p < |t| && Walking(o, draws, i + 1, j, s, t[p := Toggled(t[p], k)],
                                    bitOffset + if draws(i + 1) == 0 then 1 else draws(i + 1))
  {
    BitOfChunk(o, |s|, j, bitOffset, 8 * p + k);
    FlipWalked(o, draws, i, Visited(o, j), s, t, p, k);
  }

  lemma WalkOn(o: Opts, draws: nat -> nat, i: nat, j: nat, s: Bytes, t: Bytes, bitOffset: nat, chunkSize: int)
    requires Validate(o) && Visited(o, j) < ChunkCount(o, |s|)
    requires Walking(o, draws, i, j, s, t, bitOffset)
    requires chunkSize == ChunkEnd(o, |s|, Visited(o, j)) - ChunkOffset(o, Visited(o, j)) <= bitOffset / 8
    ensures Visited(o, j + 1) == Visited(o, j) + o.mod
    ensures Walked(o, draws, i, Visited(o, j + 1), s, t)
    ensures Visited(o, j + 1) < ChunkCount(o, |s|) ==> Walking(o, draws, i, j + 1, s, t, bitOffset - 8 * chunkSize)
  {
    PassChunk(o, |s|, draws, i, j);
    NextChunk(o, |s|, j);
  }

  /** One turn of the inner loop: flips a bit and draws the distance to the next one. */
  method FlipBit(o: Opts, file: File, draws: nat -> nat, flipped: nat, bitOffset: nat, start: int,
                 ghost j: nat, ghost s: Bytes)
    returns (delta: nat)
    requires Validate(o) && Visited(o, j) < ChunkCount(o, |s|) && start == ChunkOffset(o, Visited(o, j))
    requires bitOffset / 8 < ChunkEnd(o, |s|, Visited(o, j)) - start
    requires Walking(o, draws, flipped, j, s, file.data, bitOffset)
    modifies file
    ensures delta >= 1 && Walking(o, draws, flipped + 1, j, s, file.data, bitOffset + delta)
  {
    var p, target := start + bitOffset / 8, bitOffset % 8;
    FlipNext(o, draws, flipped, j, s, file.data, bitOffset, p, target);
    var buf := Toggled(file.data[p], target);
    OverwriteOne(file.data, p, buf);
    file.Write(p, [buf]);
    delta := draws(flipped + 1);
    if delta == 0 {
      delta := 1;
    }
  }

  lemma OverwriteOne(s: Bytes, p: nat, x: bv8)
    requires p < |s|
    ensures Overwritten(s, p, [x]) == s[p := x]
  {
  }

  /** The inner loop: all flips that fall in the chunk at `start`, the `j`-th that the walk visits. */
  method FlipInChunk(o: Opts, file: File, draws: nat -> nat, flipped: nat, offset: nat, start: int, chunkSize: int,
                     ghost j: nat, ghost s: Bytes)
    returns (bitsFlipped: nat, bitOffset: nat)
    requires Validate(o) && Visited(o, j) < ChunkCount(o, |s|)
    requires start == ChunkOffset(o, Visited(o, j)) && chunkSize == ChunkEnd(o, |s|, Visited(o, j)) - start
    requires Walking(o, draws, flipped, j, s, file.data, offset)
    modifies file
    ensures Walking(o, draws, bitsFlipped, j, s, file.data, bitOffset) && bitOffset / 8 >= chunkSize
  {
    bitsFlipped, bitOffset := flipped, offset;
    while bitOffset / 8 < chunkSize
      invariant Walking(o, draws, bitsFlipped, j, s, file.data, bitOffset)
      decreases 8 * chunkSize - bitOffset
    {
      var delta := FlipBit(o, file, draws, bitsFlipped, bitOffset, start, j, s);
      bitsFlipped, bitOffset := bitsFlipped + 1, bitOffset + delta;
    }
  }

  method CorruptBitflip(o: Opts, file: File, draws: nat -> nat) returns (bitsFlipped: nat)
    requires Validate(o)
    modifies file
    ensures Flipped(o, draws, old(file.data), file.data)
    ensures bitsFlipped == |Differing(old(file.data), file.data)|
  {
    ghost var s := file.data;
    var fileSize := |file.data|;
    var chunkCount := ChunkCount(o, fileSize);
    bitsFlipped := 0;
    var chunk := o.index;
    var bitOffset: int := draws(0);
    ghost var j: nat := 0;
    NothingYet(o, draws, s);
    while chunk < chunkCount
      invariant chunk == Visited(o, j)
      invariant Walked(o, draws, bitsFlipped, chunk, s, file.data)
      invariant chunk < chunkCount ==> Walking(o, draws, bitsFlipped, j, s, file.data, bitOffset)
    {
      var start := ChunkOffset(o, chunk);
      var end := start + o.chunkSize;
      if fileSize < end {
        end := fileSize;
      }
      if o.end < end {
        end := o.end;
      }
      var chunkSize := end - start;
      bitsFlipped, bitOffset := FlipInChunk(o, file, draws, bitsFlipped, bitOffset, start, chunkSize, j, s);
      WalkOn(o, draws, bitsFlipped, j, s, file.data, bitOffset, chunkSize);
      bitOffset := bitOffset - chunkSize * 8;
      chunk := chunk + o.mod;
      j := j + 1;
    }
    WalkDone(o, draws, bitsFlipped, s, file.data, chunk);
  }

  lemma NothingYet(o: Opts, draws: nat -> nat, s: Bytes)
    requires Validate(o)
    ensures Walking(o, draws, 0, 0, s, s, draws(0))
  {
    assert Differing(s, s) == {};
    forall b | OnTape(o, |s|, b) ensures ChunkOf(o, b / 8) >= Visited(o, 0) {
      ChunkOfBounds(o, b / 8);
      SelectedVisited(o, ChunkOf(o, b / 8));
      MulSign(ChunkOf(o, b / 8) / o.mod, o.mod);
    }
  }

  lemma NextChunk(o: Opts, size: nat, j: nat)
    requires Validate(o)
    ensures Visited(o, j + 1) == Visited(o, j) + o.mod
    ensures 8 * ((j + 1) * o.chunkSize) == 8 * (j * o.chunkSize) + 8 * o.chunkSize
    ensures Visited(o, j + 1) < ChunkCount(o, size) ==>
              ChunkEnd(o, size, Visited(o, j)) == ChunkOffset(o, Visited(o, j)) + o.chunkSize
  {
    assert (j + 1) * o.chunkSize == j * o.chunkSize + o.chunkSize;
    VisitedSelected(o, j);
    NextSelected(o, j, Visited(o, j));
    if Visited(o, j + 1) < ChunkCount(o, size) {
      FullChunk(o, size, Visited(o, j));
    }
  }

  // ---- What this means for the file ----

  /** Only bytes of selected chunks change, and only inside the region. */
  lemma OthersKept(o: Opts, draws: nat -> nat, s: Bytes, t: Bytes, p: int)
    requires Validate(o) && Flipped(o, draws, s, t) && 0 <= p < |s|
    requires !(o.start <= p < RegionEnd(o, |s|)) || !Selected(o, ChunkOf(o, p))
    ensures t[p] == s[p]
  {
    forall i | 0 <= i < 8 ensures BitOf(s[p], i) == BitOf(t[p], i) {
      assert (8 * p + i) / 8 == p && (8 * p + i) % 8 == i;
      assert BitAt(t, 8 * p + i) == BitAt(s, 8 * p + i);
    }
    SameByte(s[p], t[p]);
  }

  lemma {:induction false} ArrivesEverywhere(draws: nat -> nat, i: nat)
    requires draws(0) == 0 && forall k: nat :: draws(k) <= 1
    ensures Arrival(draws, i) == i
  {
    if i > 0 {
      ArrivesEverywhere(draws, i - 1);
      assert draws(i) <= 1;
    }
  }

  /** With the smallest distances every bit of every selected chunk in the region changes. */
  lemma EveryBitFlipped(o: Opts, draws: nat -> nat, s: Bytes, t: Bytes, p: int, k: int)
    requires Validate(o) && Flipped(o, draws, s, t) && draws(0) == 0 && forall i: nat :: draws(i) <= 1
    requires 0 <= k < 8 && o.start <= p < o.end && p < |s| && (p - o.start) / o.chunkSize % o.mod == o.index
    ensures BitOf(t[p], k) != BitOf(s[p], k)
  {
    var b := 8 * p + k;
    assert b / 8 == p && b % 8 == k;
    ChunkOfBounds(o, p);
    MulOrder(0, ChunkOf(o, p) / o.mod, o.chunkSize);
    ArrivesEverywhere(draws, TapeBit(o, b));
    assert BitAt(t, b) == (BitAt(s, b) != Hit(o, |s|, draws, b));
  }

  /** Repeating the run with the same draws gives the file back. */
  lemma FlippingTwice(o: Opts, draws: nat -> nat, s: Bytes, t: Bytes, u: Bytes)
    requires Validate(o) && Flipped(o, draws, s, t) && Flipped(o, draws, t, u)
    ensures u == s
  {
    forall b | 0 <= b < 8 * |s| ensures BitAt(u, b) == BitAt(s, b) {
      assert BitAt(t, b) == (BitAt(s, b) != Hit(o, |s|, draws, b));
    }
    SameFile(u, s);
  }

  /** The draws decide the outcome: they leave one possible file. */
  lemma FlippedFile(o: Opts, draws: nat -> nat, s: Bytes, t: Bytes, u: Bytes)
    requires Validate(o) && Flipped(o, draws, s, t) && Flipped(o, draws, s, u)
    ensures t == u
  {
    forall b | 0 <= b < 8 * |s| ensures BitAt(t, b) == BitAt(u, b) {
      assert BitAt(t, b) == (BitAt(s, b) != Hit(o, |s|, draws, b));
    }
    SameFile(t, u);
  }
}
