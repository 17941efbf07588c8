/** Saving the selected chunks under their start and end offsets, and putting them back. Restoring computes
    the end offset of a chunk differently from saving it, so not every saved chunk is found again. */
module SnapshotRestore {

  import opened CorruptFile
  import opened Numbers
  import opened Wrappers

  datatype Range = Range(from: int, to: int)

  type Saved = map<Range, Bytes>

  /** The snapshot files of one corrupted file, by the offsets in their names. */
  class Snapshots {
    var saved: Saved

    constructor ()
      ensures saved == map[] && Kept(saved)
    {
      saved := map[];
    }
  }

  /** No snapshot is longer than the range it is saved under. */
  ghost predicate Kept(saved: Saved) {
    forall k :: k in saved ==> |saved[k]| <= k.to - k.from
  }

  /** The name under which a chunk is saved: it is clipped to the region, but not to the file. */
  function Key(o: Opts, chunk: int): Range {
    Range(ChunkOffset(o, chunk), Min(ChunkOffset(o, chunk) + o.chunkSize, o.end))
  }

  predicate Visits(o: Opts, size: nat, chunk: int)
    requires o.chunkSize > 0 && o.mod > 0
  {
    0 <= chunk < ChunkCount(o, size) && Selected(o, chunk)
  }

  function Content(o: Opts, data: Bytes, chunk: int): Bytes
    requires Validate(o) && 0 <= chunk < ChunkCount(o, |data|)
  {
    Tiling(o, |data|);
    MulSign(chunk, o.chunkSize);
    data[ChunkOffset(o, chunk)..ChunkEnd(o, |data|, chunk)]
  }

  /** A range is the name of a chunk that is visited before the chunk `until`. */
  predicate Named(o: Opts, size: nat, until: int, k: Range)
    requires o.chunkSize > 0 && o.mod > 0
  {
    var chunk := ChunkOf(o, k.from);
    Visits(o, size, chunk) && chunk < until && k == Key(o, chunk)
  }

  /** The snapshots after the chunks before `until` are saved: each under its name, the others as they were. */
  ghost predicate Taken(o: Opts, data: Bytes, until: int, before: Saved, after: Saved)
    requires Validate(o)
  {
    forall k :: Lookup(after, k)
             == if Named(o, |data|, until, k) then Some(Content(o, data, ChunkOf(o, k.from))) else Lookup(before, k)
  }

  lemma KeyOfChunk(o: Opts, chunk: int)
    requires Validate(o)
    ensures ChunkOf(o, Key(o, chunk).from) == chunk
  {
    OffsetInChunk(o, chunk, 0);
  }

  lemma NothingTaken(o: Opts, data: Bytes, saved: Saved)
    requires Validate(o)
    ensures Taken(o, data, o.index, saved, saved)
  {
    forall k ensures !Named(o, |data|, o.index, k) {
      if Named(o, |data|, o.index, k) {
        SelectedVisited(o, ChunkOf(o, k.from));
        MulSign(ChunkOf(o, k.from) / o.mod, o.mod);
      }
    }
  }

  lemma TakenNext(o: Opts, data: Bytes, j: nat, before: Saved, after: Saved)
    requires Validate(o) && Visited(o, j) < ChunkCount(o, |data|)
    requires Taken(o, data, Visited(o, j), before, after)
    ensures Visited(o, j) >= 0
    ensures Taken(o, data, Visited(o, j + 1), before,
                  after[Key(o, Visited(o, j)) := Content(o, data, Visited(o, j))])
  {
    var chunk := Visited(o, j);
    VisitedSelected(o, j);
    KeyOfChunk(o, chunk);
    forall k ensures Named(o, |data|, Visited(o, j + 1), k)
                 <==> Named(o, |data|, chunk, k) || k == Key(o, chunk)
    {
      if Visits(o, |data|, ChunkOf(o, k.from)) {
        NextSelected(o, j, ChunkOf(o, k.from));
      }
      NextSelected(o, j, chunk);
    }
  }

  lemma SavedAs(o: Opts, data: Bytes, j: nat, start: int, end: int)
    requires Validate(o) && Visited(o, j) < ChunkCount(o, |data|)
    requires start == ChunkOffset(o, Visited(o, j)) && end == Min(start + o.chunkSize, o.end)
    ensures Visited(o, j) >= 0 && Range(start, end) == Key(o, Visited(o, j))
    ensures 0 <= start < Min(end, |data|) && data[start..Min(end, |data|)] == Content(o, data, Visited(o, j))
    ensures Visited(o, j + 1) == Visited(o, j) + o.mod
  {
    VisitedSelected(o, j);
    NextSelected(o, j, Visited(o, j));
    Tiling(o, |data|);
    MulSign(Visited(o, j), o.chunkSize);
  }

  lemma AllTaken(o: Opts, data: Bytes, chunk: int, before: Saved, after: Saved)
    requires Validate(o) && Taken(o, data, chunk, before, after) && chunk >= ChunkCount(o, |data|)
    ensures Taken(o, data, ChunkCount(o, |data|), before, after)
  {
    forall k ensures Named(o, |data|, chunk, k) == Named(o, |data|, ChunkCount(o, |data|), k) {
    }
  }

  method CorruptSnapshot(o: Opts, file: File, dir: Snapshots)
    requires Validate(o) && Kept(dir.saved)
    modifies dir
    ensures Taken(o, file.data, ChunkCount(o, |file.data|), old(dir.saved), dir.saved)
    ensures Kept(dir.saved)
  {
    ghost var before := dir.saved;
    var fileSize := |file.data|;
    var chunkCount := ChunkCount(o, fileSize);
    var chunk := o.index;
    ghost var j: nat := 0;
    NothingTaken(o, file.data, before);
    while chunk < chunkCount
      invariant chunk == Visited(o, j)
      invariant Taken(o, file.data, chunk, before, dir.saved) && Kept(dir.saved)
    {
      var start := ChunkOffset(o, chunk);
      var end := start + o.chunkSize;
      if o.end < end {
        end := o.end;
      }
      TakenNext(o, file.data, j, before, dir.saved);
      SavedAs(o, file.data, j, start, end);
      dir.saved := dir.saved[Range(start, end) := file.data[start..Min(end, fileSize)]];
      chunk := chunk + o.mod;
      j := j + 1;
      assert Taken(o, file.data, chunk, before, dir.saved);
    }
    AllTaken(o, file.data, chunk, before, dir.saved);
  }

  // ---- Restoring ----

  predicate Skips(o: Opts, rolls: nat -> real, j: nat) {
    o.probability < rolls(j)
  }

  /** The end offset in use after `j` visits. It is never taken from the chunk: it starts at zero, and each visit
      that is not skipped moves it on by one chunk size. */
  function EndMark(o: Opts, rolls: nat -> real, j: nat): int {
    if j == 0 then 0
    else if Skips(o, rolls, j - 1) then EndMark(o, rolls, j - 1)
    else Min(EndMark(o, rolls, j - 1) + o.chunkSize, o.end)
  }

  function VisitOf(o: Opts, chunk: int): nat
    requires Validate(o) && chunk >= 0
  {
    Division(chunk, o.mod);
    MulSign(chunk / o.mod + 1, o.mod);
    chunk / o.mod
  }

  /** The byte that the visits to the chunks before `until` put at a position. */
  function Restores(o: Opts, size: nat, saved: Saved, rolls: nat -> real, until: int, p: int): Option<bv8>
    requires Validate(o)
  {
    var chunk := ChunkOf(o, p);
    if Visits(o, size, chunk) && chunk < until && !Skips(o, rolls, VisitOf(o, chunk)) then
      match Lookup(saved, Range(ChunkOffset(o, chunk), EndMark(o, rolls, VisitOf(o, chunk) + 1)))
      case None => None
      case Some(bytes) => At(bytes, p - ChunkOffset(o, chunk))
    else None
  }

  function Or(a: Option<bv8>, b: Option<bv8>): Option<bv8> {
    if a.Some? then a else b
  }

  ghost predicate Restored(o: Opts, saved: Saved, rolls: nat -> real, until: int, s: Bytes, t: Bytes)
    requires Validate(o)
  {
    forall p :: At(t, p) == Or(Restores(o, |s|, saved, rolls, until, p), At(s, p))
  }

  lemma {:induction false} EndMarkBound(o: Opts, rolls: nat -> real, j: nat)
    requires Validate(o)
    ensures EndMark(o, rolls, j) <= j * o.chunkSize
  {
    if j > 0 {
      EndMarkBound(o, rolls, j - 1);
      assert (j - 1) * o.chunkSize + o.chunkSize == j * o.chunkSize;
    }
  }

  /** Whatever a visit finds, it writes inside the visited chunk. */
  lemma WritesInChunk(o: Opts, rolls: nat -> real, j: nat)
    requires Validate(o)
    ensures EndMark(o, rolls, j + 1) <= ChunkOffset(o, Visited(o, j)) + o.chunkSize
  {
    EndMarkBound(o, rolls, j + 1);
    VisitedAtLeast(o, j);
    MulOrder(j, Visited(o, j), o.chunkSize);
    assert (j + 1) * o.chunkSize == j * o.chunkSize + o.chunkSize;
  }

  lemma RestoresNext(o: Opts, size: nat, saved: Saved, rolls: nat -> real, j: nat, p: int)
    requires Validate(o) && Visited(o, j) < ChunkCount(o, size)
    ensures Visited(o, j) >= 0 && VisitOf(o, Visited(o, j)) == j
    ensures Restores(o, size, saved, rolls, Visited(o, j + 1), p)
         == if ChunkOf(o, p) == Visited(o, j) then Restores(o, size, saved, rolls, ChunkCount(o, size), p)
            else Restores(o, size, saved, rolls, Visited(o, j), p)
    ensures ChunkOf(o, p) == Visited(o, j) ==> Restores(o, size, saved, rolls, Visited(o, j), p) == None
  {
    VisitedSelected(o, j);
    if Visits(o, size, ChunkOf(o, p)) {
      NextSelected(o, j, ChunkOf(o, p));
    }
  }

  lemma NothingFound(o: Opts, saved: Saved, rolls: nat -> real, j: nat, s: Bytes, t: Bytes)
    requires Validate(o) && Visited(o, j) < ChunkCount(o, |s|)
    requires Restored(o, saved, rolls, Visited(o, j), s, t)
    requires Skips(o, rolls, j)
          || Range(ChunkOffset(o, Visited(o, j)), EndMark(o, rolls, j + 1)) !in saved
    ensures Restored(o, saved, rolls, Visited(o, j + 1), s, t)
  {
    forall p ensures At(t, p) == Or(Restores(o, |s|, saved, rolls, Visited(o, j + 1), p), At(s, p)) {
      RestoresNext(o, |s|, saved, rolls, j, p);
    }
  }

  lemma ChunkWritten(o: Opts, saved: Saved, rolls: nat -> real, j: nat, s: Bytes, t: Bytes, start: nat, bytes: Bytes)
    requires Validate(o) && Visited(o, j) < ChunkCount(o, |s|) && Kept(saved)
    requires Restored(o, saved, rolls, Visited(o, j), s, t) && !Skips(o, rolls, j)
    requires start == ChunkOffset(o, Visited(o, j)) <= |t|
    requires Lookup(saved, Range(start, EndMark(o, rolls, j + 1))) == Some(bytes)
    ensures Restored(o, saved, rolls, Visited(o, j + 1), s, Overwritten(t, start, bytes))
  {
    WritesInChunk(o, rolls, j);
    forall p ensures At(Overwritten(t, start, bytes), p)
                  == Or(Restores(o, |s|, saved, rolls, Visited(o, j + 1), p), At(s, p))
    {
      RestoresNext(o, |s|, saved, rolls, j, p);
      OverwrittenAt(t, start, bytes, p);
      if start <= p < start + |bytes| {
        OffsetInChunk(o, Visited(o, j), p - start);
      }
    }
  }

  lemma StartsInFile(o: Opts, saved: Saved, rolls: nat -> real, j: nat, s: Bytes, t: Bytes)
    requires Validate(o) && Visited(o, j) < ChunkCount(o, |s|)
    requires Restored(o, saved, rolls, Visited(o, j), s, t)
    ensures Visited(o, j + 1) == Visited(o, j) + o.mod
    ensures 0 <= ChunkOffset(o, Visited(o, j)) <= |t|
  {
    VisitedSelected(o, j);
    NextSelected(o, j, Visited(o, j));
    Tiling(o, |s|);
    MulSign(Visited(o, j), o.chunkSize);
    assert At(s, ChunkOffset(o, Visited(o, j))).Some?;
    assert At(t, ChunkOffset(o, Visited(o, j))).Some?;
  }

  lemma NothingRestored(o: Opts, saved: Saved, rolls: nat -> real, s: Bytes)
    requires Validate(o)
    ensures Restored(o, saved, rolls, o.index, s, s)
  {
    forall p ensures Restores(o, |s|, saved, rolls, o.index, p) == None {
      if Visits(o, |s|, ChunkOf(o, p)) {
        SelectedVisited(o, ChunkOf(o, p));
        MulSign(ChunkOf(o, p) / o.mod, o.mod);
      }
    }
  }

  lemma AllRestored(o: Opts, saved: Saved, rolls: nat -> real, chunk: int, s: Bytes, t: Bytes)
    requires Validate(o) && Restored(o, saved, rolls, chunk, s, t) && chunk >= ChunkCount(o, |s|)
    ensures Restored(o, saved, rolls, ChunkCount(o, |s|), s, t)
  {
    forall p ensures Restores(o, |s|, saved, rolls, chunk, p)
                  == Restores(o, |s|, saved, rolls, ChunkCount(o, |s|), p)
    {
    }
  }

  method CorruptRestore(o: Opts, file: File, dir: Snapshots, rolls: nat -> real)
    requires Validate(o) && Kept(dir.saved)
    modifies file
    ensures Restored(o, dir.saved, rolls, ChunkCount(o, |old(file.data)|), old(file.data), file.data)
  {
    ghost var s := file.data;
    var chunkCount := ChunkCount(o, |file.data|);
    var end := 0;
    var chunk := o.index;
    var j: nat := 0;
    NothingRestored(o, dir.saved, rolls, s);
    while chunk < chunkCount
      invariant chunk == Visited(o, j) && end == EndMark(o, rolls, j)
      invariant Restored(o, dir.saved, rolls, chunk, s, file.data)
    {
      StartsInFile(o, dir.saved, rolls, j, s, file.data);
      var start := ChunkOffset(o, chunk);
      if !(o.probability < rolls(j)) {
        end := end + o.chunkSize;
        if o.end < end {
          end := o.end;
        }
      }
      if o.probability < rolls(j) || Range(start, end) !in dir.saved {
        NothingFound(o, dir.saved, rolls, j, s, file.data);
      } else {
        var bytes := dir.saved[Range(start, end)];
        ChunkWritten(o, dir.saved, rolls, j, s, file.data, start, bytes);
        file.Write(start, bytes[..Min(end - start, |bytes|)]);
        assert bytes[..Min(end - start, |bytes|)] == bytes;
      }
      chunk := chunk + o.mod;
      j := j + 1;
      assert Restored(o, dir.saved, rolls, chunk, s, file.data);
    }
    AllRestored(o, dir.saved, rolls, chunk, s, file.data);
  }

  // ---- What comes back ----

  /** Restoring looks for the chunk under the name it was saved as. */
  predicate Recovers(o: Opts, rolls: nat -> real, chunk: int)
    requires Validate(o) && chunk >= 0
  {
    !Skips(o, rolls, VisitOf(o, chunk)) && EndMark(o, rolls, VisitOf(o, chunk) + 1) == Key(o, chunk).to
  }

  /** The chunk is visited, and restoring finds it under its name. */
  predicate Comes(o: Opts, size: nat, rolls: nat -> real, chunk: int)
    requires Validate(o)
  {
    Visits(o, size, chunk) && Recovers(o, rolls, chunk)
  }

  /** What the byte at a position is after saving `s`, changing the file to `t` and restoring: the saved byte
      exactly when restoring looks for its chunk under the name it was saved as. Elsewhere the file is what
      older snapshots alone would have made of it. */
  function Back(o: Opts, rolls: nat -> real, before: Saved, s: Bytes, t: Bytes, p: int): Option<bv8>
    requires Validate(o)
  {
    if Comes(o, |s|, rolls, ChunkOf(o, p)) then
      if p < RegionEnd(o, |s|) then At(s, p) else At(t, p)
    else Or(Restores(o, |s|, before, rolls, ChunkCount(o, |s|), p), At(t, p))
  }

  lemma SnapshotThenRestore(o: Opts, rolls: nat -> real, before: Saved, saved: Saved, s: Bytes, t: Bytes, u: Bytes)
    requires Validate(o) && |t| == |s|
    requires Taken(o, s, ChunkCount(o, |s|), before, saved)
    requires Restored(o, saved, rolls, ChunkCount(o, |t|), t, u)
    ensures forall p :: At(u, p) == Back(o, rolls, before, s, t, p)
  {
    forall p ensures At(u, p) == Back(o, rolls, before, s, t, p) {
      assert At(u, p) == Or(Restores(o, |t|, saved, rolls, ChunkCount(o, |t|), p), At(t, p));
      if Visits(o, |s|, ChunkOf(o, p)) {
        RestoresSaved(o, rolls, before, saved, s, p);
        InFile(o, s, p);
      }
    }
  }

  lemma InFile(o: Opts, s: Bytes, p: int)
    requires Validate(o) && ChunkOf(o, p) >= 0
    ensures p < RegionEnd(o, |s|) ==> At(s, p).Some?
  {
    ChunkOfBounds(o, p);
  }

  /** With no older snapshots: the bytes of the chunks that are found are as saved, all others as changed. */
  lemma FreshSnapshotThenRestore(o: Opts, rolls: nat -> real, saved: Saved, s: Bytes, t: Bytes, u: Bytes)
    requires Validate(o) && |t| == |s|
    requires Taken(o, s, ChunkCount(o, |s|), map[], saved)
    requires Restored(o, saved, rolls, ChunkCount(o, |t|), t, u)
    ensures |u| == |s|
    ensures forall p :: 0 <= p < |s| ==>
              u[p] == if p < RegionEnd(o, |s|) && Comes(o, |s|, rolls, ChunkOf(o, p)) then s[p] else t[p]
  {
    SnapshotThenRestore(o, rolls, map[], saved, s, t, u);
    forall p
      ensures At(u, p) == if p < RegionEnd(o, |s|) && Comes(o, |s|, rolls, ChunkOf(o, p)) then At(s, p) else At(t, p)
    {
      assert At(u, p) == Back(o, rolls, map[], s, t, p);
    }
    SameLength(t, u, s);
    forall p | 0 <= p < |s|
      ensures u[p] == if p < RegionEnd(o, |s|) && Comes(o, |s|, rolls, ChunkOf(o, p)) then s[p] else t[p]
    {
      assert At(u, p) == Some(u[p]);
    }
  }

  lemma SameLength(t: Bytes, u: Bytes, s: Bytes)
    requires |t| == |s| && forall p :: At(u, p) == At(s, p) || At(u, p) == At(t, p)
    ensures |u| == |t|
  {
    assert At(u, |t|) == None;
    assert |t| > 0 ==> At(u, |t| - 1).Some?;
  }

  lemma ContentAt(o: Opts, s: Bytes, p: int)
    requires Validate(o) && 0 <= ChunkOf(o, p) < ChunkCount(o, |s|)
    ensures At(Content(o, s, ChunkOf(o, p)), p - ChunkOffset(o, ChunkOf(o, p)))
         == if p < RegionEnd(o, |s|) then At(s, p) else None
  {
    ChunkOfBounds(o, p);
    ChunkNotEmpty(o, |s|, ChunkOf(o, p));
  }

  lemma RestoresSaved(o: Opts, rolls: nat -> real, before: Saved, saved: Saved, s: Bytes, p: int)
    requires Validate(o) && Taken(o, s, ChunkCount(o, |s|), before, saved) && Visits(o, |s|, ChunkOf(o, p))
    ensures Restores(o, |s|, saved, rolls, ChunkCount(o, |s|), p)
         == if !Recovers(o, rolls, ChunkOf(o, p)) then Restores(o, |s|, before, rolls, ChunkCount(o, |s|), p)
            else if p < RegionEnd(o, |s|) then At(s, p) else None
  {
    var chunk := ChunkOf(o, p);
    var k := Range(ChunkOffset(o, chunk), EndMark(o, rolls, VisitOf(o, chunk) + 1));
    KeyOfChunk(o, chunk);
    assert Named(o, |s|, ChunkCount(o, |s|), k) == (k == Key(o, chunk));
    ContentAt(o, s, p);
  }

  // ---- When everything comes back ----

  ghost predicate NoneSkipped(o: Opts, rolls: nat -> real) {
    forall j: nat :: rolls(j) <= o.probability
  }

  /** A probability of one skips nothing. */
  lemma CertainSkipsNothing(o: Opts, rolls: nat -> real)
    requires o.probability == 1.0 && forall j: nat :: 0.0 <= rolls(j) < 1.0
    ensures NoneSkipped(o, rolls)
  {
  }

  /** Which of the first `j` visits are not skipped. */
  function Unskipped(o: Opts, rolls: nat -> real, j: nat): set<nat> {
    set i: nat | i < j && rolls(i) <= o.probability
  }

  lemma UnskippedNext(o: Opts, rolls: nat -> real, j: nat)
    ensures |Unskipped(o, rolls, j + 1)| == |Unskipped(o, rolls, j)| + if rolls(j) <= o.probability then 1 else 0
  {
    assert Unskipped(o, rolls, j + 1) == Unskipped(o, rolls, j) + if rolls(j) <= o.probability then {j} else {};
  }

  lemma {:induction false} UnskippedBound(o: Opts, rolls: nat -> real, j: nat)
    ensures |Unskipped(o, rolls, j)| <= j
    ensures NoneSkipped(o, rolls) ==> |Unskipped(o, rolls, j)| == j
  {
    if j == 0 {
      assert Unskipped(o, rolls, 0) == {};
    } else {
      UnskippedBound(o, rolls, j - 1);
      UnskippedNext(o, rolls, j - 1);
      assert NoneSkipped(o, rolls) ==> rolls(j - 1) <= o.probability;
    }
  }

  lemma OneChunkOn(k: int, cs: int, end: int)
    requires cs > 0
    ensures Min(Min(k * cs, end) + cs, end) == Min((k + 1) * cs, end)
  {
    assert (k + 1) * cs == k * cs + cs;
  }

  lemma {:induction false} EndMarkCounts(o: Opts, rolls: nat -> real, j: nat)
    requires Validate(o)
    ensures EndMark(o, rolls, j) == Min(|Unskipped(o, rolls, j)| * o.chunkSize, o.end)
  {
    if j > 0 {
      EndMarkCounts(o, rolls, j - 1);
      UnskippedNext(o, rolls, j - 1);
      OneChunkOn(|Unskipped(o, rolls, j - 1)|, o.chunkSize, o.end);
    } else {
      assert Unskipped(o, rolls, 0) == {};
    }
  }

  lemma EndsMeet(k: int, chunk: int, start: int, end: int, cs: int)
    requires 0 <= k <= chunk && start >= 0 && cs > 0
    ensures Min((k + 1) * cs, end) == Min(start + chunk * cs + cs, end)
       <==> (start == 0 && k == chunk) || (k + 1) * cs >= end
  {
    MulSign(chunk - k, cs);
    assert (chunk - k) * cs == chunk * cs - k * cs;
    assert (k + 1) * cs == k * cs + cs;
  }

  /** Whatever is skipped: a chunk that is not is found when the region starts the file and as many visits before
      it were not skipped as there are chunks before it, or when the running end reaches the end of the region. */
  lemma RecoversWhen(o: Opts, rolls: nat -> real, chunk: int)
    requires Validate(o) && chunk >= 0 && Selected(o, chunk)
    ensures
      var j := VisitOf(o, chunk);
      var k := |Unskipped(o, rolls, j)|;
      Recovers(o, rolls, chunk)
      <==> rolls(j) <= o.probability && ((o.start == 0 && k == chunk) || (k + 1) * o.chunkSize >= o.end)
  {
    var j := VisitOf(o, chunk);
    EndMarkCounts(o, rolls, j + 1);
    UnskippedNext(o, rolls, j);
    UnskippedBound(o, rolls, j);
    SelectedVisited(o, chunk);
    VisitedAtLeast(o, j);
    EndsMeet(|Unskipped(o, rolls, j)|, chunk, o.start, o.end, o.chunkSize);
  }

  lemma RecoversUnskipped(o: Opts, rolls: nat -> real, chunk: int)
    requires Validate(o) && NoneSkipped(o, rolls) && chunk >= 0 && Selected(o, chunk)
    ensures var j := VisitOf(o, chunk);
            Recovers(o, rolls, chunk) <==> (o.start == 0 && j == chunk) || (j + 1) * o.chunkSize >= o.end
  {
    var j := VisitOf(o, chunk);
    RecoversWhen(o, rolls, chunk);
    UnskippedBound(o, rolls, j);
    assert rolls(j) <= o.probability;
  }

  predicate AllFound(o: Opts, size: nat)
    requires o.chunkSize > 0
  {
    || ChunkCount(o, size) <= o.index
    || o.end <= o.chunkSize
    || (o.start == 0 && o.index == 0 && (o.mod == 1 || ChunkCount(o, size) <= o.mod))
  }

  /** Exactly when every saved chunk is found again: nothing is selected, or the region is no longer than one
      chunk from the start of the file, or the chunks are counted from the start of the file without gaps. */
  lemma EverythingComesBack(o: Opts, size: nat, rolls: nat -> real)
    requires Validate(o) && NoneSkipped(o, rolls)
    ensures (forall chunk :: Visits(o, size, chunk) ==> Comes(o, size, rolls, chunk)) <==> AllFound(o, size)
  {
    if AllFound(o, size) {
      forall chunk | Visits(o, size, chunk) ensures Comes(o, size, rolls, chunk) {
        FoundWhenAll(o, size, rolls, chunk);
      }
    } else {
      var chunk := LostOtherwise(o, size, rolls);
      assert Visits(o, size, chunk) && !Comes(o, size, rolls, chunk);
    }
  }

  lemma OnlyFirst(j: nat, mod: int, chunk: int)
    requires chunk == j * mod && 0 <= chunk < mod
    ensures j == 0 && chunk == 0
  {
    if j >= 1 {
      MulOrder(1, j, mod);
    }
  }

  lemma FoundWhenAll(o: Opts, size: nat, rolls: nat -> real, chunk: int)
    requires Validate(o) && NoneSkipped(o, rolls) && AllFound(o, size) && Visits(o, size, chunk)
    ensures Recovers(o, rolls, chunk)
  {
    var j := VisitOf(o, chunk);
    RecoversUnskipped(o, rolls, chunk);
    SelectedVisited(o, chunk);
    MulOrder(0, j, o.mod);
    if o.end <= o.chunkSize {
      MulOrder(1, j + 1, o.chunkSize);
    } else if o.mod > 1 {
      OnlyFirst(j, o.mod, chunk);
    }
  }

  lemma LostOtherwise(o: Opts, size: nat, rolls: nat -> real) returns (chunk: int)
    requires Validate(o) && NoneSkipped(o, rolls) && !AllFound(o, size)
    ensures Visits(o, size, chunk) && !Recovers(o, rolls, chunk)
  {
    var first := Visited(o, 0);
    VisitedSelected(o, 0);
    RecoversUnskipped(o, rolls, first);
    if Recovers(o, rolls, first) {
      chunk := Visited(o, 1);
      VisitedSelected(o, 1);
      RecoversUnskipped(o, rolls, chunk);
      Counted(o, size, chunk);
      MulOrder(2, o.mod, o.chunkSize);
    } else {
      chunk := first;
    }
  }

  ghost predicate Rolls(rolls: nat -> real) {
    forall j: nat :: 0.0 <= rolls(j) < 1.0
  }

  /** The run finds every chunk that it does not skip. */
  ghost predicate FindsUnskipped(o: Opts, size: nat, rolls: nat -> real)
    requires Validate(o)
  {
    forall chunk :: Visits(o, size, chunk) && rolls(VisitOf(o, chunk)) <= o.probability ==> Recovers(o, rolls, chunk)
  }

  predicate AlwaysFound(o: Opts, size: nat)
    requires o.chunkSize > 0
  {
    || ChunkCount(o, size) <= o.index
    || o.end <= o.chunkSize
    || (o.start == 0 && o.index == 0 && (ChunkCount(o, size) <= o.mod || (o.mod == 1 && o.probability == 1.0)))
  }

  lemma AlwaysFoundFinds(o: Opts, size: nat, rolls: nat -> real, chunk: int)
    requires Validate(o) && AlwaysFound(o, size) && Rolls(rolls) && Visits(o, size, chunk)
    requires rolls(VisitOf(o, chunk)) <= o.probability
    ensures Recovers(o, rolls, chunk)
  {
    SelectedVisited(o, chunk);
    var j := VisitOf(o, chunk);
    MulOrder(0, j, o.mod);
    if j >= 1 {
      MulOrder(1, j, o.mod);
    }
    if o.probability == 1.0 && o.mod == 1 && o.end > o.chunkSize {
      CertainSkipsNothing(o, rolls);
      FoundWhenAll(o, size, rolls, chunk);
    } else {
      RecoversWhen(o, rolls, chunk);
      UnskippedBound(o, rolls, j);
      MulOrder(1, |Unskipped(o, rolls, j)| + 1, o.chunkSize);
    }
  }

  /** Rolls that skip the first visit, or none. */
  lemma SomethingLost(o: Opts, size: nat) returns (rolls: nat -> real, chunk: int)
    requires Validate(o) && !AlwaysFound(o, size)
    ensures Rolls(rolls) && Visits(o, size, chunk)
    ensures rolls(VisitOf(o, chunk)) <= o.probability && !Recovers(o, rolls, chunk)
  {
    if AllFound(o, size) {
      rolls := (j: nat) => if j == 0 then (o.probability + 1.0) / 2.0 else 0.0;
      chunk := 1;
      assert VisitOf(o, 1) == 1 && Unskipped(o, rolls, 1) == {};
      RecoversWhen(o, rolls, 1);
    } else {
      rolls := (j: nat) => 0.0;
      chunk := LostOtherwise(o, size, rolls);
    }
  }

  /** For all options: whatever is rolled, every chunk that is not skipped is found again, exactly when nothing is
      selected, or the region is no longer than one chunk from the start of the file, or the chunks are counted
      from the start of the file and only the first is selected, or all are and none can be skipped. */
  lemma EveryRunRecovers(o: Opts, size: nat)
    requires Validate(o)
    ensures (forall rolls: nat -> real :: Rolls(rolls) ==> FindsUnskipped(o, size, rolls)) <==> AlwaysFound(o, size)
  {
    if AlwaysFound(o, size) {
      forall rolls: nat -> real | Rolls(rolls) ensures FindsUnskipped(o, size, rolls) {
        forall chunk | Visits(o, size, chunk) && rolls(VisitOf(o, chunk)) <= o.probability
          ensures Recovers(o, rolls, chunk)
        {
          AlwaysFoundFinds(o, size, rolls, chunk);
        }
      }
    } else {
      var rolls, chunk := SomethingLost(o, size);
      assert !FindsUnskipped(o, size, rolls);
    }
  }

  /** Chunks counted from the start of the file, all selected, none skipped: the whole region comes back, with a
      short last chunk too, and the rest of the file keeps its changes. */
  lemma WholeRegion(o: Opts, rolls: nat -> real, saved: Saved, s: Bytes, t: Bytes, u: Bytes)
    requires Validate(o) && NoneSkipped(o, rolls) && |t| == |s|
    requires o.start == 0 && o.index == 0 && o.mod == 1
    requires Taken(o, s, ChunkCount(o, |s|), map[], saved)
    requires Restored(o, saved, rolls, ChunkCount(o, |t|), t, u)
    ensures u == s[..RegionEnd(o, |s|)] + t[RegionEnd(o, |s|)..]
  {
    FreshSnapshotThenRestore(o, rolls, saved, s, t, u);
    EverythingComesBack(o, |s|, rolls);
    Tiling(o, |s|);
    forall p | 0 <= p < |s| ensures u[p] == if p < RegionEnd(o, |s|) then s[p] else t[p] {
      assert p < RegionEnd(o, |s|) ==> Visits(o, |s|, ChunkOf(o, p));
    }
  }
}
