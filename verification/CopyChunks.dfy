/** Overwriting the selected chunks with other chunks. Whatever the file holds, a run moves whole bytes
    about: `Origin` says from where the byte that ends up at a position was taken. */
module CopyChunks {

  import opened CorruptFile
  import opened Numbers
  import opened Wrappers

  // ---- Choosing the chunk to copy from ----

  /** A chunk other than the one to overwrite when every chunk is selected, else one that is not selected. */
  predicate Acceptable(o: Opts, dest: int, chunk: int)
    requires o.mod > 0
  {
    if o.mod == 1 then ChunkOffset(o, chunk) != dest else !Selected(o, chunk)
  }

  /** Unselected chunks are acceptable, and no selected one is, but all others when every chunk is selected. */
  lemma AcceptableWhen(o: Opts, dest: int, chunk: int)
    requires Validate(o)
    ensures Acceptable(o, ChunkOffset(o, dest), chunk) <==> chunk % o.mod != o.index || (o.mod == 1 && chunk != dest)
  {
    if o.mod == 1 {
      MulSign(chunk - dest, o.chunkSize);
      assert (chunk - dest) * o.chunkSize == chunk * o.chunkSize - dest * o.chunkSize;
    }
  }

  /** The draws come to an acceptable chunk at some time. */
  ghost predicate Finds(o: Opts, dest: int, draws: nat -> nat, count: int)
    requires o.mod > 0
  {
    count >= 2 ==> exists i: nat :: Acceptable(o, dest, draws(i) % count)
  }

  ghost predicate FirstAcceptable(o: Opts, dest: int, draws: nat -> nat, count: nat, i: nat)
    requires o.mod > 0 && count > 0
  {
    && Acceptable(o, dest, draws(i) % count)
    && forall k: nat :: k < i ==> !Acceptable(o, dest, draws(k) % count)
  }

  /** The outcome of looking for a source: -1, or the start of the first acceptable chunk drawn. */
  ghost predicate Drawn(o: Opts, size: nat, dest: int, draws: nat -> nat, offset: int)
    requires Validate(o)
  {
    var count := ChunkCount(o, size);
    if count < 2 then offset == -1
    else exists i: nat :: FirstAcceptable(o, dest, draws, count, i) && offset == ChunkOffset(o, draws(i) % count)
  }

  /** With two chunks or more there is always one to copy from, so draws that avoid no chunk forever find
      one. */
  lemma SourceExists(o: Opts, dest: int, count: int) returns (chunk: int)
    requires Validate(o) && count >= 2
    ensures 0 <= chunk < count && Acceptable(o, dest, chunk)
    ensures forall draws: nat -> nat, i: nat :: draws(i) % count == chunk ==> Finds(o, dest, draws, count)
  {
    chunk := if o.mod == 1 then if ChunkOffset(o, 0) == dest then 1 else 0 else if o.index == 0 then 1 else 0;
  }

  method RandSourceOffset(o: Opts, dest: int, size: nat, draws: nat -> nat) returns (offset: int)
    requires Validate(o) && Finds(o, dest, draws, ChunkCount(o, size))
    ensures Drawn(o, size, dest, draws, offset)
  {
    var count := ChunkCount(o, size);
    if count < 2 {
      return -1;
    }
    ghost var last: nat :| Acceptable(o, dest, draws(last) % count);
    var i: nat := 0;
    var chunk := draws(i) % count;
    if o.mod == 1 {
      while ChunkOffset(o, chunk) == dest
        invariant i <= last && chunk == draws(i) % count
        invariant forall k: nat :: k < i ==> !Acceptable(o, dest, draws(k) % count)
        decreases last - i
      {
        i := i + 1;
        chunk := draws(i) % count;
      }
    } else {
      while chunk % o.mod == o.index
        invariant i <= last && chunk == draws(i) % count
        invariant forall k: nat :: k < i ==> !Acceptable(o, dest, draws(k) % count)
        decreases last - i
      {
        i := i + 1;
        chunk := draws(i) % count;
      }
    }
    assert FirstAcceptable(o, dest, draws, count, i);
    return ChunkOffset(o, chunk);
  }

  // ---- Moving bytes ----

  /** What one visit did: nothing, or a copy from an offset. */
  datatype Visit = Skipped | NoSource | From(offset: nat)

  /** The position that the bytes of a chunk are copied from, if they are. */
  function Taken(o: Opts, size: nat, j: nat, v: Visit, p: int): int {
    var chunk := Visited(o, j);
    if v.From? && InChunk(o, size, chunk, p) && v.offset + (p - ChunkOffset(o, chunk)) < size
    then v.offset + (p - ChunkOffset(o, chunk))
    else p
  }

  /** The position in the first file of the byte that is at `p` after these visits. */
  function Origin(o: Opts, size: nat, visits: seq<Visit>, p: int): int {
    if visits == [] then p
    else Origin(o, size, visits[..|visits| - 1], Taken(o, size, |visits| - 1, visits[|visits| - 1], p))
  }

  /** Each visit copied from a chunk that it may copy from. */
  ghost predicate Legal(o: Opts, size: nat, visits: seq<Visit>)
    requires Validate(o)
  {
    forall j :: 0 <= j < |visits| ==>
      && Visited(o, j) < ChunkCount(o, size)
      && (visits[j].From? ==> LegalSource(o, size, j, visits[j].offset))
  }

  ghost predicate LegalSource(o: Opts, size: nat, j: nat, offset: int)
    requires Validate(o)
  {
    exists c :: 0 <= c < ChunkCount(o, size) && offset == ChunkOffset(o, c)
                && Acceptable(o, ChunkOffset(o, Visited(o, j)), c)
  }

  /** Each visit did what its draws say. */
  ghost predicate Follows(o: Opts, size: nat, rolls: nat -> real, draws: nat -> nat -> nat, j: nat, v: Visit)
    requires Validate(o)
  {
    if o.probability < rolls(j) then v == Skipped
    else if ChunkCount(o, size) < 2 then v == NoSource
    else v.From? && Drawn(o, size, ChunkOffset(o, Visited(o, j)), draws(j), v.offset)
  }

  ghost predicate Moved(o: Opts, visits: seq<Visit>, s: Bytes, t: Bytes) {
    && |t| == |s|
    && forall p :: 0 <= p < |s| ==> 0 <= Origin(o, |s|, visits, p) < |s| && t[p] == s[Origin(o, |s|, visits, p)]
  }

  lemma TakenInFile(o: Opts, size: nat, j: nat, v: Visit, p: int)
    requires Validate(o) && 0 <= p < size
    ensures 0 <= Taken(o, size, j, v, p) < size
  {
  }

  function Next(o: Opts, j: nat, v: Visit, t: Bytes): Bytes
    requires Validate(o) && Visited(o, j) < ChunkCount(o, |t|)
  {
    VisitedSelected(o, j);
    ChunkNotEmpty(o, |t|, Visited(o, j));
    MulSign(Visited(o, j), o.chunkSize);
    var dest := ChunkOffset(o, Visited(o, j));
    if v.From? then Copied(t, v.offset, dest, ChunkEnd(o, |t|, Visited(o, j)) - dest) else t
  }

  lemma CopiedAt(data: Bytes, source: nat, dest: nat, len: nat, p: int)
    requires dest + len <= |data|
    ensures At(Copied(data, source, dest, len), p)
         == if dest <= p < dest + len && source + (p - dest) < |data| then Some(data[source + (p - dest)])
            else At(data, p)
  {
    OverwrittenAt(data, dest, data[Min(source, |data|)..Min(source + len, |data|)], p);
  }

  lemma NextAt(o: Opts, j: nat, v: Visit, t: Bytes, p: int)
    requires Validate(o) && Visited(o, j) < ChunkCount(o, |t|) && 0 <= p < |t|
    ensures 0 <= Taken(o, |t|, j, v, p) < |t| && At(Next(o, j, v, t), p) == Some(t[Taken(o, |t|, j, v, p)])
  {
    VisitedSelected(o, j);
    ChunkNotEmpty(o, |t|, Visited(o, j));
    MulSign(Visited(o, j), o.chunkSize);
    if v.From? {
      var dest := ChunkOffset(o, Visited(o, j));
      CopiedAt(t, v.offset, dest, ChunkEnd(o, |t|, Visited(o, j)) - dest, p);
    }
  }

  lemma NextLength(o: Opts, j: nat, v: Visit, t: Bytes)
    requires Validate(o) && Visited(o, j) < ChunkCount(o, |t|)
    ensures |Next(o, j, v, t)| == |t|
  {
    VisitedSelected(o, j);
    ChunkNotEmpty(o, |t|, Visited(o, j));
    MulSign(Visited(o, j), o.chunkSize);
  }

  lemma NextMoves(o: Opts, j: nat, v: Visit, t: Bytes)
    requires Validate(o) && Visited(o, j) < ChunkCount(o, |t|)
    ensures |Next(o, j, v, t)| == |t|
    ensures forall p :: 0 <= p < |t| ==>
              0 <= Taken(o, |t|, j, v, p) < |t| && Next(o, j, v, t)[p] == t[Taken(o, |t|, j, v, p)]
  {
    NextLength(o, j, v, t);
    forall p | 0 <= p < |t|
      ensures 0 <= Taken(o, |t|, j, v, p) < |t| && Next(o, j, v, t)[p] == t[Taken(o, |t|, j, v, p)]
    {
      NextAt(o, j, v, t, p);
    }
  }

  lemma MovedNext(o: Opts, visits: seq<Visit>, v: Visit, s: Bytes, t: Bytes)
    requires Validate(o) && Moved(o, visits, s, t) && Visited(o, |visits|) < ChunkCount(o, |s|)
    ensures Moved(o, visits + [v], s, Next(o, |visits|, v, t))
  {
    NextMoves(o, |visits|, v, t);
    assert (visits + [v])[..|visits|] == visits;
  }

  /** The two ranges of a copy are whole chunks apart. */
  lemma NoOverlap(o: Opts, size: nat, j: nat, offset: int)
    requires Validate(o) && LegalSource(o, size, j, offset)
    ensures offset >= 0
    ensures var dest := ChunkOffset(o, Visited(o, j)); offset + o.chunkSize <= dest || dest + o.chunkSize <= offset
  {
    var c :| 0 <= c < ChunkCount(o, size) && offset == ChunkOffset(o, c)
             && Acceptable(o, ChunkOffset(o, Visited(o, j)), c);
    VisitedSelected(o, j);
    MulSign(c, o.chunkSize);
    MulSign(c - Visited(o, j), o.chunkSize);
    assert (c - Visited(o, j)) * o.chunkSize == c * o.chunkSize - Visited(o, j) * o.chunkSize;
  }

  lemma DrawnIsLegal(o: Opts, size: nat, j: nat, draws: nat -> nat, offset: int)
    requires Validate(o) && ChunkCount(o, size) >= 2
    requires Drawn(o, size, ChunkOffset(o, Visited(o, j)), draws, offset)
    ensures LegalSource(o, size, j, offset)
  {
  }

  /** Each of these visits did what its draws say, from a chunk that it may copy from. */
  ghost predicate Performed(o: Opts, size: nat, rolls: nat -> real, draws: nat -> nat -> nat, visits: seq<Visit>)
    requires Validate(o)
  {
    && Legal(o, size, visits)
    && forall j :: 0 <= j < |visits| ==> Follows(o, size, rolls, draws, j, visits[j])
  }

  /** What is so after these visits of a run that began with the file `s`. */
  ghost predicate Ran(o: Opts, rolls: nat -> real, draws: nat -> nat -> nat, visits: seq<Visit>, s: Bytes, t: Bytes)
    requires Validate(o)
  {
    Performed(o, |s|, rolls, draws, visits) && Moved(o, visits, s, t)
  }

  /** Every visit that looks for a source finds one. */
  ghost predicate AllFind(o: Opts, size: nat, rolls: nat -> real, draws: nat -> nat -> nat)
    requires Validate(o)
  {
    forall j: nat :: Visited(o, j) < ChunkCount(o, size) && !(o.probability < rolls(j)) ==>
      Finds(o, ChunkOffset(o, Visited(o, j)), draws(j), ChunkCount(o, size))
  }

  lemma RanNext(o: Opts, rolls: nat -> real, draws: nat -> nat -> nat, visits: seq<Visit>, v: Visit,
                s: Bytes, t: Bytes)
    requires Validate(o) && Ran(o, rolls, draws, visits, s, t) && Visited(o, |visits|) < ChunkCount(o, |s|)
    requires Follows(o, |s|, rolls, draws, |visits|, v)
    ensures Ran(o, rolls, draws, visits + [v], s, Next(o, |visits|, v, t))
    ensures Visited(o, |visits| + 1) == Visited(o, |visits|) + o.mod
  {
    var j := |visits|;
    MovedNext(o, visits, v, s, t);
    VisitedSelected(o, j);
    NextSelected(o, j, Visited(o, j));
    if v.From? {
      DrawnIsLegal(o, |s|, j, draws(j), v.offset);
    }
  }

  lemma CopyFits(o: Opts, size: nat, j: nat, draws: nat -> nat, offset: int, end: int)
    requires Validate(o) && Visited(o, j) < ChunkCount(o, size) && end == ChunkEnd(o, size, Visited(o, j))
    requires Drawn(o, size, ChunkOffset(o, Visited(o, j)), draws, offset)
    ensures var dest := ChunkOffset(o, Visited(o, j));
            && 0 <= dest < end <= size
            && (ChunkCount(o, size) < 2 ==> offset == -1)
            && (ChunkCount(o, size) >= 2 ==>
                  offset >= 0 && (offset + (end - dest) <= dest || end <= offset))
  {
    VisitedSelected(o, j);
    Tiling(o, size);
    MulSign(Visited(o, j), o.chunkSize);
    if ChunkCount(o, size) >= 2 {
      DrawnIsLegal(o, size, j, draws, offset);
      NoOverlap(o, size, j, offset);
    }
  }

  lemma NextCopies(o: Opts, j: nat, offset: nat, t: Bytes, end: int)
    requires Validate(o) && Visited(o, j) < ChunkCount(o, |t|) && end == ChunkEnd(o, |t|, Visited(o, j))
    requires 0 <= ChunkOffset(o, Visited(o, j)) < end <= |t|
    ensures Next(o, j, From(offset), t)
         == Copied(t, offset, ChunkOffset(o, Visited(o, j)), end - ChunkOffset(o, Visited(o, j)))
  {
  }

  /** One visit that is not skipped. */
  method CopyOver(o: Opts, file: File, draws: nat -> nat, chunk: int, ghost j: nat) returns (ghost visit: Visit)
    requires Validate(o) && chunk == Visited(o, j) < ChunkCount(o, |file.data|)
    requires Finds(o, ChunkOffset(o, chunk), draws, ChunkCount(o, |file.data|))
    modifies file
    ensures if ChunkCount(o, |old(file.data)|) < 2 then visit == NoSource
            else visit.From? && Drawn(o, |old(file.data)|, ChunkOffset(o, chunk), draws, visit.offset)
    ensures file.data == Next(o, j, visit, old(file.data))
  {
    var fileSize := |file.data|;
    var start := ChunkOffset(o, chunk);
    var end := start + o.chunkSize;
    if fileSize < end {
      end := fileSize;
    }
    if o.end < end {
      end := o.end;
    }
    var source := RandSourceOffset(o, start, fileSize, draws);
    CopyFits(o, fileSize, j, draws, source, end);
    visit := if ChunkCount(o, fileSize) < 2 then NoSource else From(source);
    if 0 <= source {
      NextCopies(o, j, source, file.data, end);
      file.CopyRange(source, start, end - start);
    }
  }

  /** `visits` is what the run did at each chunk it visited, in order. */
  method CorruptCopy(o: Opts, file: File, rolls: nat -> real, draws: nat -> nat -> nat)
    returns (ghost visits: seq<Visit>)
    requires Validate(o) && AllFind(o, |file.data|, rolls, draws)
    modifies file
    ensures Visited(o, |visits|) >= ChunkCount(o, |old(file.data)|)
    ensures Ran(o, rolls, draws, visits, old(file.data), file.data)
    ensures forall j :: 0 <= j < |visits| ==>
              && (visits[j].Skipped? <==> rolls(j) > o.probability)
              && (visits[j].NoSource? <==> rolls(j) <= o.probability && ChunkCount(o, |old(file.data)|) < 2)
  {
    ghost var s := file.data;
    var chunkCount := ChunkCount(o, |file.data|);
    visits := [];
    var chunk := o.index;
    var j: nat := 0;
    while chunk < chunkCount
      invariant chunk == Visited(o, j) && j == |visits|
      invariant Ran(o, rolls, draws, visits, s, file.data)
    {
      ghost var visit, before := Skipped, file.data;
      if !(o.probability < rolls(j)) {
        visit := CopyOver(o, file, draws(j), chunk, j);
      }
      RanNext(o, rolls, draws, visits, visit, s, before);
      visits := visits + [visit];
      chunk := chunk + o.mod;
      j := j + 1;
    }
  }

  // ---- Where the bytes come from ----

  predicate InRegion(o: Opts, size: nat, p: int) {
    o.start <= p < RegionEnd(o, size)
  }

  predicate InSelected(o: Opts, size: nat, p: int)
    requires o.chunkSize > 0 && o.mod > 0
  {
    InRegion(o, size, p) && Selected(o, ChunkOf(o, p))
  }

  /** A byte that a visit takes from elsewhere: into a selected chunk, out of a counted one that may be copied
      from, at the same distance from the chunk's start. */
  lemma TakenFrom(o: Opts, size: nat, j: nat, v: Visit, p: int)
    requires Validate(o) && Visited(o, j) < ChunkCount(o, size)
    requires v.From? ==> LegalSource(o, size, j, v.offset)
    requires Taken(o, size, j, v, p) != p
    ensures InSelected(o, size, p) && ChunkOf(o, p) == Visited(o, j)
    ensures var q := Taken(o, size, j, v, p);
            && v.offset == ChunkOffset(o, ChunkOf(o, q))
            && 0 <= ChunkOf(o, q) < ChunkCount(o, size)
            && q - ChunkOffset(o, ChunkOf(o, q)) == p - ChunkOffset(o, ChunkOf(o, p))
            && (o.mod > 1 ==> !Selected(o, ChunkOf(o, q)))
  {
    var c :| 0 <= c < ChunkCount(o, size) && v.offset == ChunkOffset(o, c)
             && Acceptable(o, ChunkOffset(o, Visited(o, j)), c);
    VisitedSelected(o, j);
    Tiling(o, size);
    OffsetInChunk(o, c, p - ChunkOffset(o, Visited(o, j)));
  }

  /** For every run: a byte of the new file is a byte of the old one from the same place in some chunk; it is
      the byte that was there unless the chunk is selected; and unless all chunks are selected, what
      replaces a byte comes from a chunk that is not. */
  lemma {:induction false} Provenance(o: Opts, size: nat, visits: seq<Visit>, p: int)
    requires Validate(o) && Legal(o, size, visits) && 0 <= p < size
    ensures var q := Origin(o, size, visits, p);
            && 0 <= q < size
            && (q != p ==>
                  && InSelected(o, size, p)
                  && 0 <= ChunkOf(o, q) < ChunkCount(o, size)
                  && q - ChunkOffset(o, ChunkOf(o, q)) == p - ChunkOffset(o, ChunkOf(o, p))
                  && (o.mod > 1 ==> !Selected(o, ChunkOf(o, q))))
  {
    if visits != [] {
      var j := |visits| - 1;
      var q := Taken(o, size, j, visits[j], p);
      TakenInFile(o, size, j, visits[j], p);
      Provenance(o, size, visits[..j], q);
      if q != p {
        TakenFrom(o, size, j, visits[j], p);
      }
    }
  }

  /** Once its chunk is visited, a byte stays. */
  lemma {:induction false} VisitedOnce(o: Opts, size: nat, visits: seq<Visit>, j: nat, p: int)
    requires Validate(o) && Legal(o, size, visits) && j < |visits| && InChunk(o, size, Visited(o, j), p)
    ensures Origin(o, size, visits, p) == Origin(o, size, visits[..j + 1], p)
  {
    var last := |visits| - 1;
    if j < last {
      VisitedSelected(o, j);
      VisitedSelected(o, last);
      Tiling(o, size);
      assert Taken(o, size, last, visits[last], p) == p;
      VisitedOnce(o, size, visits[..last], j, p);
      assert visits[..last][..j + 1] == visits[..j + 1];
    } else {
      assert visits[..j + 1] == visits;
    }
  }

  /** What a visit leaves in its chunk, and so the run: byte for byte what was in the source chunk just before the
      visit, as far as the file goes, and otherwise what was in the chunk itself. */
  lemma VisitCopies(o: Opts, visits: seq<Visit>, s: Bytes, u: Bytes, t: Bytes, j: nat, p: int)
    requires Validate(o) && Legal(o, |s|, visits) && j < |visits| && InChunk(o, |s|, Visited(o, j), p)
    requires Moved(o, visits[..j], s, u) && Moved(o, visits, s, t)
    ensures
      var v, d := visits[j], p - ChunkOffset(o, Visited(o, j));
      0 <= p < |s| && t[p] == if v.From? && v.offset + d < |s| then u[v.offset + d] else u[p]
  {
    VisitedSelected(o, j);
    Tiling(o, |s|);
    TakenInFile(o, |s|, j, visits[j], p);
    VisitedOnce(o, |s|, visits, j, p);
    assert visits[..j + 1][..j] == visits[..j];
  }

  /** The exact new content of a selected chunk when other chunks are left alone: the source chunk's old
      bytes, as many as there are. */
  lemma CleanCopy(o: Opts, visits: seq<Visit>, s: Bytes, t: Bytes, j: nat, p: int)
    requires Validate(o) && o.mod > 1 && Legal(o, |s|, visits) && Moved(o, visits, s, t)
    requires j < |visits| && InChunk(o, |s|, Visited(o, j), p)
    ensures
      var v, d := visits[j], p - ChunkOffset(o, Visited(o, j));
      0 <= p < |s| && t[p] == if v.From? && v.offset + d < |s| then s[v.offset + d] else s[p]
  {
    var q := Taken(o, |s|, j, visits[j], p);
    VisitedSelected(o, j);
    Tiling(o, |s|);
    TakenInFile(o, |s|, j, visits[j], p);
    VisitedOnce(o, |s|, visits, j, p);
    assert visits[..j + 1][..j] == visits[..j];
    Provenance(o, |s|, visits[..j], q);
    if q != p {
      TakenFrom(o, |s|, j, visits[j], p);
    } else {
      Untouched(o, |s|, visits[..j], j, p);
    }
  }

  lemma {:induction false} Untouched(o: Opts, size: nat, visits: seq<Visit>, j: nat, p: int)
    requires Validate(o) && Legal(o, size, visits) && InChunk(o, size, Visited(o, j), p)
    requires |visits| <= j && Visited(o, j) < ChunkCount(o, size)
    ensures Origin(o, size, visits, p) == p
  {
    if visits != [] {
      VisitedSelected(o, j);
      VisitedSelected(o, |visits| - 1);
      Tiling(o, size);
      assert Taken(o, size, |visits| - 1, visits[|visits| - 1], p) == p;
      Untouched(o, size, visits[..|visits| - 1], j, p);
    }
  }

  // ---- Copies do not always stay in the region ----

  function ChunkLength(o: Opts, size: nat, chunk: int): int {
    ChunkEnd(o, size, chunk) - ChunkOffset(o, chunk)
  }

  /** The source chunk is as long as the one it is copied over, or the file ends with the region. */
  predicate Fits(o: Opts, size: nat, j: nat, v: Visit)
    requires o.chunkSize > 0
  {
    v.From? ==> size <= o.end || ChunkLength(o, size, Visited(o, j)) <= ChunkLength(o, size, ChunkOf(o, v.offset))
  }

  lemma FitsStays(o: Opts, size: nat, j: nat, v: Visit, p: int)
    requires Validate(o) && Visited(o, j) < ChunkCount(o, size) && InRegion(o, size, p)
    requires v.From? ==> LegalSource(o, size, j, v.offset)
    requires Fits(o, size, j, v)
    ensures InRegion(o, size, Taken(o, size, j, v, p))
  {
    var q := Taken(o, size, j, v, p);
    if q != p {
      TakenFrom(o, size, j, v, p);
      MulSign(ChunkOf(o, q), o.chunkSize);
      OffsetInChunk(o, ChunkOf(o, q), 0);
    }
  }

  lemma {:induction false} AllFitStays(o: Opts, size: nat, visits: seq<Visit>, p: int)
    requires Validate(o) && Legal(o, size, visits) && InRegion(o, size, p)
    requires forall j :: 0 <= j < |visits| ==> Fits(o, size, j, visits[j])
    ensures InRegion(o, size, Origin(o, size, visits, p))
  {
    if visits != [] {
      var j := |visits| - 1;
      FitsStays(o, size, j, visits[j], p);
      AllFitStays(o, size, visits[..j], Taken(o, size, j, visits[j], p));
    }
  }

  /** A copy that does not fit brings in the byte just past the region. */
  lemma ReadsPast(o: Opts, size: nat, visits: seq<Visit>, j: nat) returns (p: int)
    requires Validate(o) && Legal(o, size, visits) && j < |visits| && !Fits(o, size, j, visits[j])
    ensures InRegion(o, size, p) && Origin(o, size, visits, p) == o.end
  {
    var v := visits[j];
    var c :| 0 <= c < ChunkCount(o, size) && v.offset == ChunkOffset(o, c)
             && Acceptable(o, ChunkOffset(o, Visited(o, j)), c);
    OffsetInChunk(o, c, 0);
    VisitedSelected(o, j);
    Tiling(o, size);
    p := ChunkOffset(o, Visited(o, j)) + ChunkLength(o, size, c);
    assert InChunk(o, size, Visited(o, j), p) && Taken(o, size, j, v, p) == o.end;
    VisitedOnce(o, size, visits, j, p);
    assert visits[..j + 1][..j] == visits[..j];
    Provenance(o, size, visits[..j], o.end);
  }

  ghost predicate FromRegion(o: Opts, size: nat, visits: seq<Visit>) {
    forall p :: InRegion(o, size, p) ==> InRegion(o, size, Origin(o, size, visits, p))
  }

  /** Every byte of the region comes from the region exactly when each copy fits: a short last chunk of a region
      that ends inside the file is the exception. */
  lemma StaysInRegion(o: Opts, size: nat, visits: seq<Visit>)
    requires Validate(o) && Legal(o, size, visits)
    ensures FromRegion(o, size, visits) <==> (forall j :: 0 <= j < |visits| ==> Fits(o, size, j, visits[j]))
  {
    if j :| 0 <= j < |visits| && !Fits(o, size, j, visits[j]) {
      var p := ReadsPast(o, size, visits, j);
    } else {
      forall p | InRegion(o, size, p) ensures InRegion(o, size, Origin(o, size, visits, p)) {
        AllFitStays(o, size, visits, p);
      }
    }
  }

  // ---- Options that keep every copy in the region ----

  /** What to look at before a run: the file ends with the region, its chunks are all full, nothing is copied, or
      the short last chunk is selected and so never a source. */
  predicate NeverPast(o: Opts, size: nat)
    requires Validate(o)
  {
    var count := ChunkCount(o, size);
    || size <= o.end
    || (o.end - o.start) % o.chunkSize == 0
    || count < 2
    || count <= o.index
    || (o.mod > 1 && Selected(o, count - 1))
  }

  /** A whole run that these rolls and draws may lead to. */
  ghost predicate WholeRun(o: Opts, size: nat, rolls: nat -> real, draws: nat -> nat -> nat, visits: seq<Visit>)
    requires Validate(o)
  {
    && (forall j: nat :: 0.0 <= rolls(j) < 1.0)
    && Performed(o, size, rolls, draws, visits)
    && Visited(o, |visits|) >= ChunkCount(o, size)
  }

  lemma LengthOfLast(o: Opts, size: nat)
    requires Validate(o) && size > o.end && ChunkCount(o, size) > 0
    ensures var last := ChunkLength(o, size, ChunkCount(o, size) - 1);
            var rest := (o.end - o.start) % o.chunkSize;
            last == if rest == 0 then o.chunkSize else rest
  {
    var n, cs := o.end - o.start, o.chunkSize;
    var count := ChunkCount(o, size);
    Division(n, cs);
    assert (n / cs - 1) * cs == n / cs * cs - cs;
  }

  lemma LengthOfOther(o: Opts, size: nat, chunk: int)
    requires Validate(o) && 0 <= chunk < ChunkCount(o, size)
    ensures ChunkLength(o, size, chunk) <= o.chunkSize
    ensures chunk < ChunkCount(o, size) - 1 ==> ChunkLength(o, size, chunk) == o.chunkSize
  {
    if chunk < ChunkCount(o, size) - 1 {
      FullChunk(o, size, chunk);
    }
  }

  lemma NeverPastFits(o: Opts, size: nat, visits: seq<Visit>, j: nat)
    requires Validate(o) && NeverPast(o, size) && Legal(o, size, visits) && j < |visits|
    ensures Fits(o, size, j, visits[j])
  {
    var v, here := visits[j], Visited(o, j);
    VisitedSelected(o, j);
    if v.From? && size > o.end {
      var c :| 0 <= c < ChunkCount(o, size) && v.offset == ChunkOffset(o, c)
               && Acceptable(o, ChunkOffset(o, here), c);
      OffsetInChunk(o, c, 0);
      LengthOfOther(o, size, here);
      LengthOfOther(o, size, c);
      LengthOfLast(o, size);
      MulSign(j, o.mod);
    }
  }

  /** The run that reads past the region: every visit copies from the last chunk, but one that visits the last
      chunk itself copies from the first. */
  function WorstDraw(o: Opts, size: nat, j: nat): nat
    requires Validate(o) && ChunkCount(o, size) >= 2
  {
    if Visited(o, j) == ChunkCount(o, size) - 1 then 0 else ChunkCount(o, size) - 1
  }

  lemma WorstFollows(o: Opts, size: nat, rolls: nat -> real, draws: nat -> nat -> nat, j: nat)
    requires Validate(o) && !NeverPast(o, size) && Visited(o, j) < ChunkCount(o, size)
    requires rolls(j) == 0.0 && forall i: nat :: draws(j)(i) == WorstDraw(o, size, j)
    ensures ChunkOffset(o, WorstDraw(o, size, j)) >= 0
    ensures Follows(o, size, rolls, draws, j, From(ChunkOffset(o, WorstDraw(o, size, j))))
    ensures Finds(o, ChunkOffset(o, Visited(o, j)), draws(j), ChunkCount(o, size))
    ensures LegalSource(o, size, j, ChunkOffset(o, WorstDraw(o, size, j)))
  {
    var count, dest, c := ChunkCount(o, size), ChunkOffset(o, Visited(o, j)), WorstDraw(o, size, j);
    VisitedSelected(o, j);
    MulSign(c, o.chunkSize);
    MulSign(c - Visited(o, j), o.chunkSize);
    assert (c - Visited(o, j)) * o.chunkSize == c * o.chunkSize - Visited(o, j) * o.chunkSize;
    assert Acceptable(o, dest, c);
    DivModUnique(0, c, count);
    assert draws(j)(0) % count == c;
    assert FirstAcceptable(o, dest, draws(j), count, 0);
  }

  lemma {:induction false} WorstVisits(o: Opts, size: nat, rolls: nat -> real, draws: nat -> nat -> nat, n: nat)
    returns (visits: seq<Visit>)
    requires Validate(o) && !NeverPast(o, size)
    requires forall j: nat :: rolls(j) == 0.0
    requires forall j: nat, i: nat :: draws(j)(i) == WorstDraw(o, size, j)
    ensures Performed(o, size, rolls, draws, visits)
    ensures forall j :: 0 <= j < |visits| ==> visits[j] == From(ChunkOffset(o, WorstDraw(o, size, j)))
    ensures |visits| == n || Visited(o, |visits|) >= ChunkCount(o, size)
  {
    if n == 0 {
      visits := [];
    } else {
      visits := WorstVisits(o, size, rolls, draws, n - 1);
      var j := |visits|;
      if Visited(o, j) < ChunkCount(o, size) {
        WorstFollows(o, size, rolls, draws, j);
        visits := visits + [From(ChunkOffset(o, WorstDraw(o, size, j)))];
      }
    }
  }

  /** Options that do not keep copies in the region have a run, found by the rerolling, that copies the byte just
      past the region into it. */
  lemma RunPast(o: Opts, size: nat)
    returns (rolls: nat -> real, draws: nat -> nat -> nat, visits: seq<Visit>, p: int)
    requires Validate(o) && !NeverPast(o, size)
    ensures WholeRun(o, size, rolls, draws, visits) && AllFind(o, size, rolls, draws)
    ensures InRegion(o, size, p) && Origin(o, size, visits, p) == o.end
  {
    rolls := (j: nat) => 0.0;
    draws := (j: nat) => ((i: nat) => WorstDraw(o, size, j));
    var count := ChunkCount(o, size);
    visits := WorstVisits(o, size, rolls, draws, count + 1);
    if |visits| == count + 1 {
      VisitedAtLeast(o, count + 1);
    }
    forall j: nat | Visited(o, j) < count ensures Finds(o, ChunkOffset(o, Visited(o, j)), draws(j), count) {
      WorstFollows(o, size, rolls, draws, j);
    }
    WorstDoesNotFit(o, size, visits);
    p := ReadsPast(o, size, visits, 0);
  }

  lemma WorstDoesNotFit(o: Opts, size: nat, visits: seq<Visit>)
    requires Validate(o) && !NeverPast(o, size) && Visited(o, |visits|) >= ChunkCount(o, size)
    requires forall j :: 0 <= j < |visits| ==>
               WorstDraw(o, size, j) >= 0 && ChunkOffset(o, WorstDraw(o, size, j)) >= 0
               && visits[j] == From(ChunkOffset(o, WorstDraw(o, size, j)))
    ensures |visits| > 0 && !Fits(o, size, 0, visits[0])
  {
    var count := ChunkCount(o, size);
    VisitedSelected(o, 0);
    assert |visits| > 0;
    assert Visited(o, 0) != count - 1;
    LengthOfOther(o, size, Visited(o, 0));
    LengthOfLast(o, size);
    Division(o.end - o.start, o.chunkSize);
    OffsetInChunk(o, count - 1, 0);
  }

  /** For all options and file sizes: every run fills the region from the region, exactly when the options and the
      size say so beforehand. */
  lemma NeverReadsPast(o: Opts, size: nat)
    requires Validate(o)
    ensures (forall rolls: nat -> real, draws: nat -> nat -> nat, visits ::
               WholeRun(o, size, rolls, draws, visits) ==> FromRegion(o, size, visits))
       <==> NeverPast(o, size)
  {
    if NeverPast(o, size) {
      forall rolls: nat -> real, draws: nat -> nat -> nat, visits | WholeRun(o, size, rolls, draws, visits)
        ensures FromRegion(o, size, visits)
      {
        forall j: nat | j < |visits| ensures Fits(o, size, j, visits[j]) {
          NeverPastFits(o, size, visits, j);
        }
        StaysInRegion(o, size, visits);
      }
    } else {
      var rolls, draws, visits, p := RunPast(o, size);
      assert !FromRegion(o, size, visits);
    }
  }

  /** A region of three bytes in a file of four, chunks of two: copying the last chunk over the first brings in
      the fourth byte. */
  lemma CopyPastRegion(o: Opts, s: Bytes)
    requires o == Opts(0, 3, 2, 0, 2, o.probability) && Validate(o) && |s| == 4
    ensures Legal(o, 4, [From(2)]) && Moved(o, [From(2)], s, [s[2], s[3], s[2], s[3]])
  {
    LegalHere(o);
    OriginHere(o);
  }

  lemma LegalHere(o: Opts)
    requires o == Opts(0, 3, 2, 0, 2, o.probability) && Validate(o)
    ensures Legal(o, 4, [From(2)])
  {
    assert ChunkCount(o, 4) == 2 && ChunkOffset(o, 1) == 2 && Visited(o, 0) == 0;
    assert Acceptable(o, 0, 1);
    assert LegalSource(o, 4, 0, 2);
  }

  lemma OriginHere(o: Opts)
    requires o == Opts(0, 3, 2, 0, 2, o.probability)
    ensures forall p :: 0 <= p < 4 ==> Origin(o, 4, [From(2)], p) == if p < 2 then p + 2 else p
  {
    assert [From(2)][..0] == [];
  }
}
