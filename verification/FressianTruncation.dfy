/** Streams that are cut short. Whatever is missing at the end of an encoding is noticed, unless the encoding ends
    with an open list; then the list is taken to end where the stream does. */
module FressianTruncation {
  import opened Wrappers
  import opened Fressian
  import opened FressianBytes
  import opened FressianErrors
  import opened FressianRoundTrip
  import opened FressianTheorems

  /** There is an open list somewhere in an encoding. */
  predicate HasOpen(e: Enc) {
    match e
    case EList(form, items) => form.Open? || AnyOpen(items)
    case ECached(body) => HasOpen(body)
    case EStructType(tag, _, fields) => HasOpen(tag) || AnyOpen(fields)
    case EStruct(_, _, fields) => AnyOpen(fields)
    case EBuiltin(_, fields) => AnyOpen(fields)
    case EReset(next) => HasOpen(next)
    case _ => false
  }

  predicate AnyOpen(es: seq<Enc>) {
    es != [] && (HasOpen(es[0]) || AnyOpen(es[1..]))
  }

  /** An encoding ends with an open list. */
  predicate EndsOpen(e: Enc) {
    match e
    case EList(form, items) => form.Open? || (!form.Closed? && LastOpen(items))
    case ECached(body) => EndsOpen(body)
    case EStructType(_, _, fields) => LastOpen(fields)
    case EStruct(_, _, fields) => LastOpen(fields)
    case EBuiltin(_, fields) => LastOpen(fields)
    case EReset(next) => EndsOpen(next)
    case _ => false
  }

  predicate LastOpen(es: seq<Enc>) {
    es != [] && if |es| == 1 then EndsOpen(es[0]) else LastOpen(es[1..])
  }

  /** What reading a stream that was cut short may come to: the end of input is noticed; or all that there is was
      taken, which needs an open list at the end; or an open list inside ended early, so that an object lost its
      place in the cache. */
  predicate Noticed<T>(res: Result<T>, hasOpen: bool, endsOpen: bool) {
    match res
    case Err(e) => e == Eof || (hasOpen && e == BadIndex)
    case Ok(_, r) => hasOpen && endsOpen && r.rest == []
  }

  ghost predicate Cut(bs: seq<byte>, c: Caches, h: Config, hasOpen: bool, endsOpen: bool) {
    forall k: nat, n: nat :: k < |bs| ==> Noticed(ReadObject(At(bs[..k], n, c, h)), hasOpen, endsOpen)
  }

  ghost predicate CutAfter(code: byte, bs: seq<byte>, c: Caches, h: Config, hasOpen: bool, endsOpen: bool) {
    forall k: nat, n: nat :: k < |bs| ==> Noticed(Read(code, At(bs[..k], n, c, h)), hasOpen, endsOpen)
  }

  ghost predicate CutCount(num: seq<byte>) {
    forall k: nat, n: nat, c: Caches, h: Config :: k < |num| ==> ReadInt32(At(num[..k], n, c, h)) == Err(Eof)
  }

  ghost predicate CutData(size: seq<byte>) {
    forall k: nat, n: nat, c: Caches, h: Config :: k < |size| ==> ReadCounted(At(size[..k], n, c, h)) == Err(Eof)
  }

  ghost predicate CutChunks(f: ChunkReader, bs: seq<byte>, c: Caches, h: Config) {
    forall k: nat, n: nat, acc: seq<byte> :: k < |bs| ==> f(At(bs[..k], n, c, h), acc) == Err(Eof)
  }

  /** Elements one after the other, in each of the three kinds of list. */
  ghost predicate CutAll(bs: seq<byte>, count: nat, c: Caches, h: Config, hasOpen: bool, endsOpen: bool) {
    forall k: nat, n: nat, acc: seq<Value> :: k < |bs| ==>
      var r := At(bs[..k], n, c, h);
      && Noticed(ReadObjects(r, count, acc), hasOpen, endsOpen)
      && Noticed(ReadClosedList(r, acc), hasOpen, false)
      && Noticed(ReadOpenList(r, acc), true, true)
  }

  // ---- Cutting two parts ----

  lemma CutSplit<T>(a: seq<T>, b: seq<T>, k: nat)
    requires k <= |a| + |b|
    ensures k <= |a| ==> (a + b)[..k] == a[..k]
    ensures k >= |a| ==> (a + b)[..k] == a + b[..k - |a|]
  {
  }

  lemma Empty(r: Reader)
    requires r.rest == []
    ensures ReadObject(r) == Err(Eof) && ReadInt32(r) == Err(Eof)
    ensures forall acc :: ReadClosedList(r, acc) == Err(Eof) && ReadOpenList(r, acc) == Ok(acc, r)
    ensures forall k: nat, acc :: ReadObjects(r, k, acc) == if k == 0 then Ok(acc, r) else Err(Eof)
  {
  }

  lemma CodeThen(code: byte, bs: seq<byte>, c: Caches, h: Config, hasOpen: bool, endsOpen: bool)
    requires CutAfter(code, bs, c, h, hasOpen, endsOpen)
    ensures Cut([code] + bs, c, h, hasOpen, endsOpen)
  {
    forall k: nat, n: nat | k < |[code] + bs|
      ensures Noticed(ReadObject(At(([code] + bs)[..k], n, c, h)), hasOpen, endsOpen)
    {
      CutSplit([code], bs, k);
      if k == 0 {
        Empty(At([], n, c, h));
      } else {
        First(code, bs[..k - 1], n, c, h);
        assert Noticed(Read(code, At(bs[..k - 1], n + 1, c, h)), hasOpen, endsOpen);
      }
    }
  }

  lemma OneCode(code: byte, c: Caches, h: Config)
    ensures Cut([code], c, h, false, false)
  {
    CodeThen(code, [], c, h, false, false);
    assert [code] + [] == [code];
  }

  // ---- Numbers and counted data ----

  lemma ShortRaw(bs: seq<byte>, k: nat, n: nat, c: Caches, h: Config)
    requires k < |bs|
    ensures ReadRaw(At(bs[..k], n, c, h), |bs|) == Err(Eof)
  {
  }

  lemma ShortPacked(width: nat, q: int, low: seq<byte>, k: nat, n: nat, c: Caches, h: Config)
    requires 1 <= width <= 6 && -PrefixRange(width) <= q < PrefixRange(width) && |low| == width && k < width
    ensures 0x40 <= ZeroCode(width) + q < 0x80
    ensures Read(ZeroCode(width) + q, At(low[..k], n, c, h)) == Err(Eof)
  {
    FamilyOfPrefix(width, q);
    ShortRaw(low, k, n, c, h);
  }

  lemma ShortWide(low: seq<byte>, k: nat, n: nat, c: Caches, h: Config)
    requires |low| == 8 && k < 8
    ensures Read(INT, At(low[..k], n, c, h)) == Err(Eof)
  {
    ShortRaw(low, k, n, c, h);
  }

  lemma NumCut(width: nat, k: int, c: Caches, h: Config)
    requires IntFits(width, k)
    ensures Cut(Num(width, k), c, h, false, false)
  {
    if width == 0 {
      OneCode(k % 256, c, h);
    } else if width == 8 {
      forall j: nat, n: nat | j < 8 ensures Read(INT, At(LowBytes(k, 8)[..j], n, c, h)) == Err(Eof) {
        ShortWide(LowBytes(k, 8), j, n, c, h);
      }
      CodeThen(INT, LowBytes(k, 8), c, h, false, false);
    } else {
      ShiftedBound(k, width, PrefixRange(width));
      var code := ZeroCode(width) + Shifted(k, width);
      forall j: nat, n: nat | j < width ensures Read(code, At(LowBytes(k, width)[..j], n, c, h)) == Err(Eof) {
        ShortPacked(width, Shifted(k, width), LowBytes(k, width), j, n, c, h);
      }
      CodeThen(code, LowBytes(k, width), c, h, false, false);
    }
  }

  lemma NumCutCount(width: nat, k: int)
    requires IntFits(width, k)
    ensures CutCount(Num(width, k))
  {
    forall j: nat, n: nat, c: Caches, h: Config | j < |Num(width, k)|
      ensures ReadInt32(At(Num(width, k)[..j], n, c, h)) == Err(Eof)
    {
      NumCut(width, k, c, h);
      IntAgrees(At(Num(width, k)[..j], n, c, h));
    }
  }

  lemma DataCut(num: seq<byte>, data: seq<byte>)
    requires Counts(num, |data|) && CutCount(num)
    ensures CutData(num + data)
  {
    forall k: nat, n: nat, c: Caches, h: Config | k < |num + data|
      ensures ReadCounted(At((num + data)[..k], n, c, h)) == Err(Eof)
    {
      CutSplit(num, data, k);
      if k >= |num| {
        ShortRaw(data, k - |num|, n + |num|, c, h);
      }
    }
  }

  lemma SizedCut(ch: Chunk)
    requires CountFits(ch.width, |ch.data|)
    ensures CutData(Sized(ch))
  {
    NumCounts(ch.width, |ch.data|);
    NumCutCount(ch.width, |ch.data|);
    DataCut(Num(ch.width, |ch.data|), ch.data);
  }

  // ---- Chunks ----

  lemma ChunkCut(f: ChunkReader, code: byte, size: seq<byte>, c: Caches, h: Config)
    requires CutData(size)
    requires (f == ByteChunksAt && (code == BYTES || code == BYTES_CHUNK))
          || (f == StringChunksAt && (code == STRING || code == STRING_CHUNK))
    ensures CutChunks(f, [code] + size, c, h)
  {
    forall k: nat, n: nat, acc: seq<byte> | k < |[code] + size|
      ensures f(At(([code] + size)[..k], n, c, h), acc) == Err(Eof)
    {
      CutSplit([code], size, k);
      if k > 0 {
        First(code, size[..k - 1], n, c, h);
        assert ReadCounted(At(size[..k - 1], n + 1, c, h)) == Err(Eof);
      }
    }
  }

  lemma PackedChunkCut(data: seq<byte>, c: Caches, h: Config)
    requires |data| < 8
    ensures CutChunks(StringChunksAt, [STRING_PACKED_LENGTH_START + |data|] + data, c, h)
  {
    var code := STRING_PACKED_LENGTH_START + |data|;
    forall k: nat, n: nat, acc: seq<byte> | k < |[code] + data|
      ensures StringChunksAt(At(([code] + data)[..k], n, c, h), acc) == Err(Eof)
    {
      CutSplit([code], data, k);
      if k > 0 {
        First(code, data[..k - 1], n, c, h);
        ShortRaw(data, k - 1, n + 1, c, h);
      }
    }
  }

  lemma BothCut(f: ChunkReader, a: seq<byte>, x: seq<byte>, b: seq<byte>, c: Caches, h: Config)
    requires Gathers(f, a, x, c, h) && CutChunks(f, a, c, h) && CutChunks(f, b, c, h)
    ensures CutChunks(f, a + b, c, h)
  {
    forall k: nat, n: nat, acc: seq<byte> | k < |a + b| ensures f(At((a + b)[..k], n, c, h), acc) == Err(Eof) {
      CutSplit(a, b, k);
      if k >= |a| {
        assert f(At(a + b[..k - |a|], n, c, h), acc) == f(At(b[..k - |a|], n + |a|, c, h), acc + x);
      }
    }
  }

  lemma {:induction false} ByteChunksCut(chunks: seq<Chunk>, c: Caches, h: Config)
    requires ChunksFit(chunks)
    ensures CutChunks(ByteChunksAt, ChunkBytes(BYTES_CHUNK, chunks), c, h)
    decreases |chunks|
  {
    if chunks != [] {
      SizedCut(chunks[0]);
      SizedHolds(chunks[0]);
      ChunkCut(ByteChunksAt, BYTES_CHUNK, Sized(chunks[0]), c, h);
      ByteChunk(Sized(chunks[0]), chunks[0].data, c, h);
      ByteChunksCut(chunks[1..], c, h);
      BothCut(ByteChunksAt, [BYTES_CHUNK] + Sized(chunks[0]), chunks[0].data, ChunkBytes(BYTES_CHUNK, chunks[1..]),
              c, h);
    }
  }

  lemma {:induction false} StringChunksCut(chunks: seq<Chunk>, c: Caches, h: Config)
    requires ChunksFit(chunks)
    ensures CutChunks(StringChunksAt, ChunkBytes(STRING_CHUNK, chunks), c, h)
    decreases |chunks|
  {
    if chunks != [] {
      SizedCut(chunks[0]);
      SizedHolds(chunks[0]);
      ChunkCut(StringChunksAt, STRING_CHUNK, Sized(chunks[0]), c, h);
      StringChunk(Sized(chunks[0]), chunks[0].data, c, h);
      StringChunksCut(chunks[1..], c, h);
      BothCut(StringChunksAt, [STRING_CHUNK] + Sized(chunks[0]), chunks[0].data,
              ChunkBytes(STRING_CHUNK, chunks[1..]), c, h);
    }
  }

  lemma BytesRefused(code: byte, r: Reader)
    requires (code == BYTES || code == BYTES_CHUNK) && ReadByteChunks(code, r, []) == Err(Eof)
    ensures Read(code, r) == Err(Eof)
  {
  }

  lemma StringRefused(code: byte, r: Reader)
    requires STRING_PACKED_LENGTH_START <= code <= STRING && ReadStringChunks(code, r, []) == Err(Eof)
    ensures Read(code, r) == Err(Eof)
  {
  }

  lemma ChunksRefused(f: ChunkReader, r: Reader)
    requires r.rest != [] ==>
               || (f == ByteChunksAt && (r.rest[0] == BYTES || r.rest[0] == BYTES_CHUNK))
               || (f == StringChunksAt && STRING_PACKED_LENGTH_START <= r.rest[0] <= STRING)
    requires f(r, []) == Err(Eof)
    ensures ReadObject(r) == Err(Eof)
  {
    if r.rest == [] {
      Empty(r);
    } else if f == ByteChunksAt {
      BytesRefused(r.rest[0], Next(r));
    } else {
      StringRefused(r.rest[0], Next(r));
    }
  }

  lemma ChunkedCut(f: ChunkReader, bs: seq<byte>, c: Caches, h: Config)
    requires bs != []
    requires (f == ByteChunksAt && (bs[0] == BYTES || bs[0] == BYTES_CHUNK))
          || (f == StringChunksAt && STRING_PACKED_LENGTH_START <= bs[0] <= STRING)
    requires CutChunks(f, bs, c, h)
    ensures Cut(bs, c, h, false, false)
  {
    forall k: nat, n: nat | k < |bs| ensures ReadObject(At(bs[..k], n, c, h)) == Err(Eof) {
      ChunksRefused(f, At(bs[..k], n, c, h));
    }
  }

  // ---- Lists ----

  lemma EndIsNoObject(r: Reader)
    requires r.rest != [] && r.rest[0] == END_COLLECTION
    ensures ReadObject(r) == Err(UnexpectedCode)
  {
    UnassignedRefused(END_COLLECTION, Next(r));
  }

  lemma ElementCut(r: Reader, count: nat, acc: seq<Value>, hasOpen: bool, endsOpen: bool)
    requires Noticed(ReadObject(r), hasOpen, endsOpen)
    ensures Noticed(ReadObjects(r, count + 1, acc), hasOpen, endsOpen && count == 0)
    ensures Noticed(ReadClosedList(r, acc), hasOpen, false) && Noticed(ReadOpenList(r, acc), true, true)
  {
    match ReadObject(r)
    case Ok(v, r1) =>
      ListStep(r, v, r1, acc, count);
      Empty(r1);
    case Err(_) =>
      if r.rest != [] && r.rest[0] == END_COLLECTION {
        EndIsNoObject(r);
      }
  }

  lemma Weaken<T>(res: Result<T>, hasOpen: bool, endsOpen: bool, has: bool, ends: bool)
    requires Noticed(res, hasOpen, endsOpen) && (hasOpen ==> has) && (endsOpen ==> ends)
    ensures Noticed(res, has, ends)
  {
  }

  lemma OneMoreCut(one: seq<byte>, v: Value, more: seq<byte>, k: nat, c: Caches, c1: Caches, h: Config,
                   hasFirst: bool, endsFirst: bool, hasMore: bool, endsMore: bool)
    requires Denotes(one, c, h, v, c1) && Cut(one, c, h, hasFirst, endsFirst)
    requires CutAll(more, k, c1, h, hasMore, endsMore) && (k == 0 ==> more == [])
    ensures CutAll(one + more, k + 1, c, h, hasFirst || hasMore, if k == 0 then endsFirst else endsMore)
  {
    forall i: nat, n: nat, acc: seq<Value> | i < |one + more|
      ensures
        var r := At((one + more)[..i], n, c, h);
        && Noticed(ReadObjects(r, k + 1, acc), hasFirst || hasMore, if k == 0 then endsFirst else endsMore)
        && Noticed(ReadClosedList(r, acc), hasFirst || hasMore, false)
        && Noticed(ReadOpenList(r, acc), true, true)
    {
      CutSplit(one, more, i);
      if i < |one| {
        ElementCut(At(one[..i], n, c, h), k, acc, hasFirst, endsFirst);
      } else {
        var rest := more[..i - |one|];
        ListStep(At(one + rest, n, c, h), v, At(rest, n + |one|, c1, h), acc, k);
      }
    }
  }

  lemma CountedCut(code: byte, num: seq<byte>, body: seq<byte>, k: nat, c: Caches, h: Config, hasOpen: bool,
                   endsOpen: bool)
    requires (code == LIST && Counts(num, k) && CutCount(num))
          || (k < 8 && code == LIST_PACKED_LENGTH_START + k && num == [])
    requires CutAll(body, k, c, h, hasOpen, endsOpen)
    ensures Cut([code] + (num + body), c, h, hasOpen, endsOpen)
  {
    forall i: nat, n: nat | i < |num + body|
      ensures Noticed(Read(code, At((num + body)[..i], n, c, h)), hasOpen, endsOpen)
    {
      CutSplit(num, body, i);
      if i >= |num| {
        ListCut(At(body[..i - |num|], n + |num|, c, h), k, hasOpen, endsOpen);
        assert num == [] ==> num + body[..i - |num|] == body[..i - |num|];
        ListCode(code, At(num + body[..i - |num|], n, c, h), k, At(body[..i - |num|], n + |num|, c, h));
      }
    }
    CodeThen(code, num + body, c, h, hasOpen, endsOpen);
  }

  lemma ListCut(r: Reader, k: nat, hasOpen: bool, endsOpen: bool)
    requires Noticed(ReadObjects(r, k, []), hasOpen, endsOpen)
    ensures Noticed(ReadList(r, k), hasOpen, endsOpen)
  {
  }

  lemma ListCode(code: byte, r: Reader, k: nat, r1: Reader)
    requires (code == LIST && ReadInt32(r) == Ok(k, r1)) || (k < 8 && code == LIST_PACKED_LENGTH_START + k && r1 == r)
    ensures Read(code, r) == ReadList(r1, k)
  {
  }

  lemma EndedCut(code: byte, body: seq<byte>, k: nat, vs: seq<Value>, c: Caches, c': Caches, h: Config, hasOpen: bool,
                 endsOpen: bool)
    requires (code == BEGIN_CLOSED_LIST) || (code == BEGIN_OPEN_LIST && hasOpen)
    requires DenotesAll(body, k, c, h, vs, c') && CutAll(body, k, c, h, hasOpen, endsOpen)
    ensures Cut([code] + (body + [END_COLLECTION]), c, h, hasOpen, code == BEGIN_OPEN_LIST)
  {
    var bs := body + [END_COLLECTION];
    forall i: nat, n: nat | i < |bs|
      ensures Noticed(Read(code, At(bs[..i], n, c, h)), hasOpen, code == BEGIN_OPEN_LIST)
    {
      CutSplit(body, [END_COLLECTION], i);
      if i == |body| {
        assert bs[..i] == body + [];
        Empty(At([], n + |body|, c', h));
        assert ReadClosedList(At(body + [], n, c, h), []) == ReadClosedList(At([], n + |body|, c', h), [] + vs);
        assert ReadOpenList(At(body + [], n, c, h), []) == ReadOpenList(At([], n + |body|, c', h), [] + vs);
      }
      EndedCode(code, At(bs[..i], n, c, h), hasOpen);
    }
    CodeThen(code, bs, c, h, hasOpen, code == BEGIN_OPEN_LIST);
  }

  lemma EndedCode(code: byte, r: Reader, hasOpen: bool)
    requires code == BEGIN_CLOSED_LIST || (code == BEGIN_OPEN_LIST && hasOpen)
    requires Noticed(ReadClosedList(r, []), hasOpen, false) && Noticed(ReadOpenList(r, []), true, true)
    ensures Noticed(Read(code, r), hasOpen, code == BEGIN_OPEN_LIST)
  {
  }

  // ---- Structs and caches ----

  lemma FieldsCut(r: Reader, tag: Value, k: nat, hasOpen: bool, endsOpen: bool)
    requires tag !in r.config.handlers && Noticed(ReadObjects(r, k, []), hasOpen, endsOpen)
    ensures Noticed(HandleStruct(r, tag, k), hasOpen, endsOpen)
  {
  }

  lemma CodedStructCut(code: byte, st: StructType, body: seq<byte>, c: Caches, h: Config, hasOpen: bool, endsOpen: bool)
    requires (STRUCT_CACHE_PACKED_START <= code < 0xB0 && code - STRUCT_CACHE_PACKED_START < |c.structs|
             && st == c.structs[code - STRUCT_CACHE_PACKED_START])
             || BuiltinStruct(code) == Some(st)
    requires st.fields >= 0 && st.tag !in h.handlers && CutAll(body, st.fields, c, h, hasOpen, endsOpen)
    ensures Cut([code] + body, c, h, hasOpen, endsOpen)
  {
    forall i: nat, n: nat | i < |body| ensures Noticed(Read(code, At(body[..i], n, c, h)), hasOpen, endsOpen) {
      FieldsCut(At(body[..i], n, c, h), st.tag, st.fields, hasOpen, endsOpen);
    }
    CodeThen(code, body, c, h, hasOpen, endsOpen);
  }

  lemma WideStructCut(num: seq<byte>, index: nat, body: seq<byte>, c: Caches, h: Config, hasOpen: bool, endsOpen: bool)
    requires Counts(num, index) && CutCount(num) && index < |c.structs|
    requires c.structs[index].fields >= 0 && c.structs[index].tag !in h.handlers
    requires CutAll(body, c.structs[index].fields, c, h, hasOpen, endsOpen)
    ensures Cut([STRUCT] + (num + body), c, h, hasOpen, endsOpen)
  {
    var st := c.structs[index];
    forall i: nat, n: nat | i < |num + body|
      ensures Noticed(Read(STRUCT, At((num + body)[..i], n, c, h)), hasOpen, endsOpen)
    {
      CutSplit(num, body, i);
      if i >= |num| {
        FieldsCut(At(body[..i - |num|], n + |num|, c, h), st.tag, st.fields, hasOpen, endsOpen);
      }
    }
    CodeThen(STRUCT, num + body, c, h, hasOpen, endsOpen);
  }

  lemma TagCut(r: Reader, hasOpen: bool, endsOpen: bool)
    requires Noticed(ReadObject(r), hasOpen, endsOpen)
    ensures Noticed(Read(STRUCTTYPE, r), hasOpen, false)
  {
    TypeCode(r);
    if ReadObject(r).Ok? {
      Empty(ReadObject(r).reader);
    }
  }

  lemma FieldCountCut(r: Reader, t: Value, r1: Reader)
    requires ReadObject(r) == Ok(t, r1) && ReadInt32(r1) == Err(Eof)
    ensures Read(STRUCTTYPE, r) == Err(Eof)
  {
  }

  lemma AfterTagCut(tag: seq<byte>, t: Value, num: seq<byte>, k: nat, body: seq<byte>, j: nat, n: nat, c: Caches,
                    c1: Caches, c2: Caches, h: Config, hasOpen: bool, endsOpen: bool)
    requires Denotes(tag, c, h, t, c1) && Counts(num, k) && CutCount(num) && j < |num + body|
    requires c2 == c1.(structs := c1.structs + [StructType(t, k)]) && t !in h.handlers
    requires CutAll(body, k, c2, h, hasOpen, endsOpen)
    ensures Noticed(Read(STRUCTTYPE, At(tag + (num + body)[..j], n, c, h)), hasOpen, endsOpen)
  {
    var m, rest := n + |tag|, (num + body)[..j];
    assert ReadObject(At(tag + rest, n, c, h)) == Ok(t, At(rest, m, c1, h));
    CutSplit(num, body, j);
    if j < |num| {
      FieldCountCut(At(tag + rest, n, c, h), t, At(rest, m, c1, h));
    } else {
      StructTypeRead(At(tag + rest, n, c, h), t, At(rest, m, c1, h), k, At(body[..j - |num|], m + |num|, c1, h));
      FieldsCut(At(body[..j - |num|], m + |num|, c2, h), t, k, hasOpen, endsOpen);
    }
  }

  lemma StructTypeCut(tag: seq<byte>, t: Value, num: seq<byte>, k: nat, body: seq<byte>, c: Caches, c1: Caches,
                      c2: Caches, h: Config, hasTag: bool, endsTag: bool, hasOpen: bool, endsOpen: bool)
    requires Denotes(tag, c, h, t, c1) && Cut(tag, c, h, hasTag, endsTag) && Counts(num, k) && CutCount(num)
    requires c2 == c1.(structs := c1.structs + [StructType(t, k)]) && t !in h.handlers
    requires CutAll(body, k, c2, h, hasOpen, endsOpen)
    ensures Cut([STRUCTTYPE] + (tag + (num + body)), c, h, hasTag || hasOpen, endsOpen)
  {
    var bs := tag + (num + body);
    forall i: nat, n: nat | i < |bs|
      ensures Noticed(Read(STRUCTTYPE, At(bs[..i], n, c, h)), hasTag || hasOpen, endsOpen)
    {
      CutSplit(tag, num + body, i);
      if i < |tag| {
        TagCut(At(tag[..i], n, c, h), hasTag, endsTag);
      } else {
        AfterTagCut(tag, t, num, k, body, i - |tag|, n, c, c1, c2, h, hasOpen, endsOpen);
      }
    }
    CodeThen(STRUCTTYPE, bs, c, h, hasTag || hasOpen, endsOpen);
  }

  lemma PutCode(r: Reader)
    ensures Read(PUT_PRIORITY_CACHE, r) == ReadAndCache(r)
  {
  }

  lemma CachedCut(body: seq<byte>, c: Caches, h: Config, hasOpen: bool, endsOpen: bool)
    requires Cut(body, c.(priority := c.priority + [UnderConstruction]), h, hasOpen, endsOpen)
    ensures Cut([PUT_PRIORITY_CACHE] + body, c, h, hasOpen, endsOpen)
  {
    var inside := c.(priority := c.priority + [UnderConstruction]);
    forall i: nat, n: nat | i < |body|
      ensures Noticed(Read(PUT_PRIORITY_CACHE, At(body[..i], n, c, h)), hasOpen, endsOpen)
    {
      assert Noticed(ReadObject(At(body[..i], n, inside, h)), hasOpen, endsOpen);
      PutCode(At(body[..i], n, c, h));
    }
    CodeThen(PUT_PRIORITY_CACHE, body, c, h, hasOpen, endsOpen);
  }

  lemma ResetCut(body: seq<byte>, c: Caches, h: Config, hasOpen: bool, endsOpen: bool)
    requires Cut(body, NO_CACHES, h, hasOpen, endsOpen)
    ensures Cut([RESET_CACHES] + body, c, h, hasOpen, endsOpen)
  {
    forall i: nat, n: nat | i < |body|
      ensures Noticed(Read(RESET_CACHES, At(body[..i], n, c, h)), hasOpen, endsOpen)
    {
      assert Noticed(ReadObject(At(body[..i], n, NO_CACHES, h)), hasOpen, endsOpen);
    }
    CodeThen(RESET_CACHES, body, c, h, hasOpen, endsOpen);
  }

  lemma FixedCut(code: byte, bits: seq<byte>, c: Caches, h: Config)
    requires (code == FLOAT && |bits| == 4) || (code == DOUBLE && |bits| == 8)
             || (|bits| < 8 && code == BYTES_PACKED_LENGTH_START + |bits|)
    ensures Cut([code] + bits, c, h, false, false)
  {
    forall i: nat, n: nat | i < |bits| ensures Read(code, At(bits[..i], n, c, h)) == Err(Eof) {
      ShortRaw(bits, i, n, c, h);
    }
    CodeThen(code, bits, c, h, false, false);
  }

  lemma WideRefCut(num: seq<byte>, c: Caches, h: Config)
    requires CutCount(num)
    ensures Cut([GET_PRIORITY_CACHE] + num, c, h, false, false)
  {
    forall i: nat, n: nat | i < |num| ensures Read(GET_PRIORITY_CACHE, At(num[..i], n, c, h)) == Err(Eof) {
      assert ReadInt32(At(num[..i], n, c, h)) == Err(Eof);
    }
    CodeThen(GET_PRIORITY_CACHE, num, c, h, false, false);
  }

  // ---- Every encoding ----

  lemma SimpleCut(e: Enc, c: Caches, h: Config)
    requires Meaning(e, c, h).Some?
    requires e.ENull? || e.EBool? || e.EInt? || e.EFloat? || e.EDouble? || e.EDouble0? || e.EDouble1?
             || e.EBytesPacked? || e.ERef?
    ensures Cut(Encode(e), c, h, false, false)
  {
    match e
    case ENull => OneCode(NULL, c, h);
    case EBool(b) => OneCode(if b then TRUE else FALSE, c, h);
    case EDouble0 => OneCode(DOUBLE_0, c, h);
    case EDouble1 => OneCode(DOUBLE_1, c, h);
    case EInt(width, n) => NumCut(width, n, c, h);
    case EFloat(bits) => FixedCut(FLOAT, bits, c, h);
    case EDouble(bits) => FixedCut(DOUBLE, bits, c, h);
    case EBytesPacked(data) => FixedCut(BYTES_PACKED_LENGTH_START + |data|, data, c, h);
    case ERef(ref, index) =>
      match ref
      case PackedRef => OneCode(PRIORITY_CACHE_PACKED_START + index, c, h);
      case WideRef(width) =>
        NumCutCount(width, index);
        WideRefCut(Num(width, index), c, h);
  }

  lemma BytesCut(chunks: seq<Chunk>, last: Chunk, c: Caches, h: Config)
    requires ChunksFit(chunks) && CountFits(last.width, |last.data|)
    ensures Cut(ChunkBytes(BYTES_CHUNK, chunks) + [BYTES] + Sized(last), c, h, false, false)
  {
    var before, size := ChunkBytes(BYTES_CHUNK, chunks), Sized(last);
    SizedCut(last);
    ByteChunksGather(chunks, c, h);
    ByteChunksCut(chunks, c, h);
    ChunkCut(ByteChunksAt, BYTES, size, c, h);
    BothCut(ByteChunksAt, before, Joined(chunks), [BYTES] + size, c, h);
    ChunkFirst(BYTES_CHUNK, chunks, BYTES, size);
    Join3(before, [BYTES], size);
    ChunkedCut(ByteChunksAt, before + ([BYTES] + size), c, h);
  }

  lemma StringCut(chunks: seq<Chunk>, code: byte, size: seq<byte>, c: Caches, h: Config)
    requires ChunksFit(chunks) && CutChunks(StringChunksAt, [code] + size, c, h)
    requires STRING_PACKED_LENGTH_START <= code <= STRING
    ensures Cut(ChunkBytes(STRING_CHUNK, chunks) + [code] + size, c, h, false, false)
  {
    var before := ChunkBytes(STRING_CHUNK, chunks);
    StringChunksGather(chunks, c, h);
    StringChunksCut(chunks, c, h);
    BothCut(StringChunksAt, before, Joined(chunks), [code] + size, c, h);
    ChunkFirst(STRING_CHUNK, chunks, code, size);
    Join3(before, [code], size);
    ChunkedCut(StringChunksAt, before + ([code] + size), c, h);
  }

  lemma ChunkedEncCut(e: Enc, c: Caches, h: Config)
    requires Meaning(e, c, h).Some? && (e.EBytes? || e.EStr? || e.EStrPacked?)
    ensures Cut(Encode(e), c, h, false, false)
  {
    match e
    case EBytes(chunks, last) =>
      assert ChunksFit(chunks) && last in chunks + [last];
      BytesCut(chunks, last, c, h);
    case EStr(chunks, last) =>
      assert ChunksFit(chunks) && last in chunks + [last];
      SizedCut(last);
      ChunkCut(StringChunksAt, STRING, Sized(last), c, h);
      StringCut(chunks, STRING, Sized(last), c, h);
    case EStrPacked(chunks, data) =>
      PackedChunkCut(data, c, h);
      StringCut(chunks, STRING_PACKED_LENGTH_START + |data|, data, c, h);
  }

  /** Whatever encoding is cut short, and wherever: reading fails for lack of input, unless the encoding ends with an
      open list, in which case it may also take all that is left; only with an open list inside can it fail
      otherwise. */
  lemma {:induction false} Truncated(e: Enc, c: Caches, h: Config)
    requires Meaning(e, c, h).Some?
    ensures Cut(Encode(e), c, h, HasOpen(e), EndsOpen(e))
    decreases e, 1
  {
    match e
    case EList(_, _) => ListEncCut(e, c, h);
    case ECached(body) =>
      Truncated(body, c.(priority := c.priority + [UnderConstruction]), h);
      CachedCut(Encode(body), c, h, HasOpen(body), EndsOpen(body));
    case EReset(next) =>
      Truncated(next, NO_CACHES, h);
      ResetCut(Encode(next), c, h, HasOpen(next), EndsOpen(next));
    case EStructType(_, _, _) => StructTypeEncCut(e, c, h);
    case EStruct(_, _, _) => StructEncCut(e, c, h);
    case EBuiltin(kind, fields) =>
      TruncatedAll(fields, c, h);
      BuiltinRead(kind);
      CodedStructCut(WireOf(kind).code, StructType(Str(WireOf(kind).tag), WireOf(kind).fields), EncodeAll(fields), c, h,
                     AnyOpen(fields), LastOpen(fields));
    case EBytes(_, _) => ChunkedEncCut(e, c, h);
    case EStr(_, _) => ChunkedEncCut(e, c, h);
    case EStrPacked(_, _) => ChunkedEncCut(e, c, h);
    case _ => SimpleCut(e, c, h);
  }

  lemma {:induction false} TruncatedAll(es: seq<Enc>, c: Caches, h: Config)
    requires MeaningAll(es, c, h).Some?
    ensures CutAll(EncodeAll(es), |es|, c, h, AnyOpen(es), LastOpen(es))
    decreases es, 0
  {
    if es != [] {
      FirstAndRest(es, c, h);
      var (v, c1) := Meaning(es[0], c, h).value;
      Back(es[0], c, h);
      Truncated(es[0], c, h);
      TruncatedAll(es[1..], c1, h);
      OneMoreCut(Encode(es[0]), v, EncodeAll(es[1..]), |es| - 1, c, c1, h, HasOpen(es[0]), EndsOpen(es[0]),
                 AnyOpen(es[1..]), LastOpen(es[1..]));
    }
  }

  lemma {:induction false} ListEncCut(e: Enc, c: Caches, h: Config)
    requires e.EList? && Meaning(e, c, h).Some?
    ensures Cut(Encode(e), c, h, HasOpen(e), EndsOpen(e))
    decreases e, 0
  {
    var (vs, c') := MeaningAll(e.items, c, h).value;
    var k, body := |e.items|, EncodeAll(e.items);
    TruncatedAll(e.items, c, h);
    AllBack(e.items, c, h);
    match e.form
    case Packed =>
      assert [LIST_PACKED_LENGTH_START + k] + ([] + body) == Encode(e);
      CountedCut(LIST_PACKED_LENGTH_START + k, [], body, k, c, h, AnyOpen(e.items), LastOpen(e.items));
    case Counted(width) =>
      NumCounts(width, k);
      NumCutCount(width, k);
      Join3([LIST], Num(width, k), body);
      assert Encode(e) == [LIST] + (Num(width, k) + body);
      CountedCut(LIST, Num(width, k), body, k, c, h, AnyOpen(e.items), LastOpen(e.items));
    case Closed =>
      Join3([BEGIN_CLOSED_LIST], body, [END_COLLECTION]);
      EndedCut(BEGIN_CLOSED_LIST, body, k, vs, c, c', h, AnyOpen(e.items), LastOpen(e.items));
    case Open =>
      Join3([BEGIN_OPEN_LIST], body, [END_COLLECTION]);
      OpenInside(body, k, c, h, AnyOpen(e.items), LastOpen(e.items));
      EndedCut(BEGIN_OPEN_LIST, body, k, vs, c, c', h, true, LastOpen(e.items));
  }

  lemma OpenInside(body: seq<byte>, k: nat, c: Caches, h: Config, hasOpen: bool, endsOpen: bool)
    requires CutAll(body, k, c, h, hasOpen, endsOpen)
    ensures CutAll(body, k, c, h, true, endsOpen)
  {
    forall i: nat, n: nat, acc: seq<Value> | i < |body|
      ensures
        var r := At(body[..i], n, c, h);
        && Noticed(ReadObjects(r, k, acc), true, endsOpen) && Noticed(ReadClosedList(r, acc), true, false)
        && Noticed(ReadOpenList(r, acc), true, true)
    {
      var r := At(body[..i], n, c, h);
      Weaken(ReadObjects(r, k, acc), hasOpen, endsOpen, true, endsOpen);
      Weaken(ReadClosedList(r, acc), hasOpen, false, true, false);
    }
  }

  lemma {:induction false} StructTypeEncCut(e: Enc, c: Caches, h: Config)
    requires e.EStructType? && Meaning(e, c, h).Some?
    ensures Cut(Encode(e), c, h, HasOpen(e), EndsOpen(e))
    decreases e, 0
  {
    var (t, c1) := Meaning(e.tag, c, h).value;
    var k := |e.fields|;
    var c2 := c1.(structs := c1.structs + [StructType(t, k)]);
    Truncated(e.tag, c, h);
    Back(e.tag, c, h);
    NumCounts(e.width, k);
    NumCutCount(e.width, k);
    TruncatedAll(e.fields, c2, h);
    Join4([STRUCTTYPE], Encode(e.tag), Num(e.width, k), EncodeAll(e.fields));
    StructTypeCut(Encode(e.tag), t, Num(e.width, k), k, EncodeAll(e.fields), c, c1, c2, h, HasOpen(e.tag),
                  EndsOpen(e.tag), AnyOpen(e.fields), LastOpen(e.fields));
  }

  lemma {:induction false} StructEncCut(e: Enc, c: Caches, h: Config)
    requires e.EStruct? && Meaning(e, c, h).Some?
    ensures Cut(Encode(e), c, h, HasOpen(e), EndsOpen(e))
    decreases e, 0
  {
    TruncatedAll(e.fields, c, h);
    match e.ref
    case PackedRef =>
      CodedStructCut(STRUCT_CACHE_PACKED_START + e.index, c.structs[e.index], EncodeAll(e.fields), c, h,
                     AnyOpen(e.fields), LastOpen(e.fields));
    case WideRef(width) =>
      NumCounts(width, e.index);
      NumCutCount(width, e.index);
      Join3([STRUCT], Num(width, e.index), EncodeAll(e.fields));
      WideStructCut(Num(width, e.index), e.index, EncodeAll(e.fields), c, h, AnyOpen(e.fields), LastOpen(e.fields));
  }

  // ---- Open lists that end with the stream ----

  function Front<T>(bs: seq<T>): seq<T>
    requires bs != []
  {
    bs[..|bs| - 1]
  }

  /** Without their last byte these bytes are read as what they are with it. */
  ghost predicate Loose(bs: seq<byte>, c: Caches, h: Config, v: Value, c': Caches) {
    bs != [] && forall n: nat :: ReadObject(At(Front(bs), n, c, h)) == Ok(v, At([], n + |bs| - 1, c', h))
  }

  ghost predicate LooseAfter(code: byte, bs: seq<byte>, c: Caches, h: Config, v: Value, c': Caches) {
    bs != [] && forall n: nat :: Read(code, At(Front(bs), n, c, h)) == Ok(v, At([], n + |bs| - 1, c', h))
  }

  ghost predicate LooseAll(bs: seq<byte>, k: nat, c: Caches, h: Config, vs: seq<Value>, c': Caches) {
    bs != [] && forall n: nat, acc: seq<Value> ::
      ReadObjects(At(Front(bs), n, c, h), k, acc) == Ok(acc + vs, At([], n + |bs| - 1, c', h))
  }

  lemma DropLast<T>(a: seq<T>, b: seq<T>)
    requires b != []
    ensures Front(a + b) == a + Front(b)
  {
  }

  lemma LooseCode(code: byte, bs: seq<byte>, c: Caches, h: Config, v: Value, c': Caches)
    requires LooseAfter(code, bs, c, h, v, c')
    ensures Loose([code] + bs, c, h, v, c')
  {
    DropLast([code], bs);
    forall n: nat
      ensures ReadObject(At(Front([code] + bs), n, c, h)) == Ok(v, At([], n + |[code] + bs| - 1, c', h))
    {
      First(code, Front(bs), n, c, h);
    }
  }

  lemma LooseLast(one: seq<byte>, v: Value, c: Caches, c': Caches, h: Config)
    requires Loose(one, c, h, v, c')
    ensures LooseAll(one, 1, c, h, [v], c')
  {
    forall n: nat, acc: seq<Value>
      ensures ReadObjects(At(Front(one), n, c, h), 1, acc) == Ok(acc + [v], At([], n + |one| - 1, c', h))
    {
      ListStep(At(Front(one), n, c, h), v, At([], n + |one| - 1, c', h), acc, 0);
    }
  }

  lemma LooseMore(one: seq<byte>, v: Value, more: seq<byte>, k: nat, vs: seq<Value>, c: Caches, c1: Caches, c': Caches,
                  h: Config)
    requires Denotes(one, c, h, v, c1) && LooseAll(more, k, c1, h, vs, c')
    ensures LooseAll(one + more, k + 1, c, h, [v] + vs, c')
  {
    var rest := Front(more);
    DropLast(one, more);
    forall n: nat, acc: seq<Value>
      ensures ReadObjects(At(one + rest, n, c, h), k + 1, acc)
           == Ok(acc + ([v] + vs), At([], n + |one + more| - 1, c', h))
    {
      Join3(acc, [v], vs);
      ListStep(At(one + rest, n, c, h), v, At(rest, n + |one|, c1, h), acc, k);
    }
  }

  lemma LooseList(code: byte, num: seq<byte>, body: seq<byte>, k: nat, vs: seq<Value>, c: Caches, c': Caches, h: Config)
    requires (code == LIST && Counts(num, k)) || (k < 8 && code == LIST_PACKED_LENGTH_START + k && num == [])
    requires LooseAll(body, k, c, h, vs, c')
    ensures Loose([code] + (num + body), c, h, List(vs), c')
  {
    var rest := Front(body);
    DropLast(num, body);
    forall n: nat
      ensures Read(code, At(num + rest, n, c, h)) == Ok(List(vs), At([], n + |num + body| - 1, c', h))
    {
      var r1 := At(rest, n + |num|, c, h);
      assert num == [] ==> num + rest == rest;
      ListCode(code, At(num + rest, n, c, h), k, r1);
      assert [] + vs == vs;
      assert ReadObjects(r1, k, []) == Ok([] + vs, At([], n + |num + body| - 1, c', h));
      ListRead(r1, k, vs, At([], n + |num + body| - 1, c', h));
    }
    LooseCode(code, num + body, c, h, List(vs), c');
  }

  lemma LooseFields(body: seq<byte>, n: nat, tag: Value, k: nat, vs: seq<Value>, c: Caches, c': Caches, h: Config)
    requires tag !in h.handlers && LooseAll(body, k, c, h, vs, c')
    ensures HandleStruct(At(Front(body), n, c, h), tag, k) == Ok(Tagged(tag, vs), At([], n + |body| - 1, c', h))
  {
    var r := At(Front(body), n, c, h);
    assert ReadObjects(r, k, []) == Ok([] + vs, At([], n + |body| - 1, c', h));
    assert [] + vs == vs;
    StructRead(r, tag, k, vs, At([], n + |body| - 1, c', h));
  }

  lemma LooseCodedStruct(code: byte, st: StructType, body: seq<byte>, vs: seq<Value>, c: Caches, c': Caches, h: Config)
    requires (STRUCT_CACHE_PACKED_START <= code < 0xB0 && code - STRUCT_CACHE_PACKED_START < |c.structs|
             && st == c.structs[code - STRUCT_CACHE_PACKED_START])
             || BuiltinStruct(code) == Some(st)
    requires st.fields >= 0 && st.tag !in h.handlers && LooseAll(body, st.fields, c, h, vs, c')
    ensures Loose([code] + body, c, h, Tagged(st.tag, vs), c')
  {
    forall n: nat
      ensures Read(code, At(Front(body), n, c, h)) == Ok(Tagged(st.tag, vs), At([], n + |body| - 1, c', h))
    {
      LooseFields(body, n, st.tag, st.fields, vs, c, c', h);
    }
    LooseCode(code, body, c, h, Tagged(st.tag, vs), c');
  }

  lemma LooseWideStruct(num: seq<byte>, index: nat, body: seq<byte>, vs: seq<Value>, c: Caches, c': Caches, h: Config)
    requires Counts(num, index) && index < |c.structs|
    requires c.structs[index].fields >= 0 && c.structs[index].tag !in h.handlers
    requires LooseAll(body, c.structs[index].fields, c, h, vs, c')
    ensures Loose([STRUCT] + (num + body), c, h, Tagged(c.structs[index].tag, vs), c')
  {
    var st, rest := c.structs[index], Front(body);
    DropLast(num, body);
    forall n: nat
      ensures Read(STRUCT, At(num + rest, n, c, h)) == Ok(Tagged(st.tag, vs), At([], n + |num + body| - 1, c', h))
    {
      LooseFields(body, n + |num|, st.tag, st.fields, vs, c, c', h);
    }
    LooseCode(STRUCT, num + body, c, h, Tagged(st.tag, vs), c');
  }

  lemma LooseStructType(tag: seq<byte>, t: Value, num: seq<byte>, k: nat, body: seq<byte>, vs: seq<Value>, c: Caches,
                        c1: Caches, c2: Caches, c': Caches, h: Config)
    requires Denotes(tag, c, h, t, c1) && Counts(num, k) && c2 == c1.(structs := c1.structs + [StructType(t, k)])
    requires t !in h.handlers && LooseAll(body, k, c2, h, vs, c')
    ensures Loose([STRUCTTYPE] + (tag + (num + body)), c, h, Tagged(t, vs), c')
  {
    var bs, rest := tag + (num + body), Front(body);
    DropLast(num, body);
    DropLast(tag, num + body);
    forall n: nat
      ensures Read(STRUCTTYPE, At(tag + (num + rest), n, c, h)) == Ok(Tagged(t, vs), At([], n + |bs| - 1, c', h))
    {
      StructTypeRead(At(tag + (num + rest), n, c, h), t, At(num + rest, n + |tag|, c1, h), k,
                     At(rest, n + |tag| + |num|, c1, h));
      LooseFields(body, n + |tag| + |num|, t, k, vs, c2, c', h);
    }
    LooseCode(STRUCTTYPE, bs, c, h, Tagged(t, vs), c');
  }

  lemma LooseCached(body: seq<byte>, v: Value, c: Caches, c1: Caches, h: Config)
    requires |c.priority| < |c1.priority|
    requires Loose(body, c.(priority := c.priority + [UnderConstruction]), h, v, c1)
    ensures Loose([PUT_PRIORITY_CACHE] + body, c, h, v, c1.(priority := c1.priority[|c.priority| := Cached(v)]))
  {
    var c' := c1.(priority := c1.priority[|c.priority| := Cached(v)]);
    var inside := c.(priority := c.priority + [UnderConstruction]);
    forall n: nat
      ensures Read(PUT_PRIORITY_CACHE, At(Front(body), n, c, h)) == Ok(v, At([], n + |body| - 1, c', h))
    {
      assert ReadObject(At(Front(body), n, inside, h)) == Ok(v, At([], n + |body| - 1, c1, h));
      PutCode(At(Front(body), n, c, h));
    }
    LooseCode(PUT_PRIORITY_CACHE, body, c, h, v, c');
  }

  lemma LooseReset(body: seq<byte>, v: Value, c: Caches, c': Caches, h: Config)
    requires Loose(body, NO_CACHES, h, v, c')
    ensures Loose([RESET_CACHES] + body, c, h, v, c')
  {
    forall n: nat
      ensures Read(RESET_CACHES, At(Front(body), n, c, h)) == Ok(v, At([], n + |body| - 1, c', h))
    {
      assert ReadObject(At(Front(body), n, NO_CACHES, h)) == Ok(v, At([], n + |body| - 1, c', h));
    }
    LooseCode(RESET_CACHES, body, c, h, v, c');
  }

  /** An encoding that ends with an open list means the same without its last byte. */
  lemma {:induction false} LastByteLoose(e: Enc, c: Caches, h: Config)
    requires Meaning(e, c, h).Some? && EndsOpen(e)
    ensures var (v, c') := Meaning(e, c, h).value; Loose(Encode(e), c, h, v, c')
    decreases e, 1
  {
    match e
    case EList(_, _) => ListLoose(e, c, h);
    case ECached(body) =>
      var inside := c.(priority := c.priority + [UnderConstruction]);
      var (v, c1) := Meaning(body, inside, h).value;
      LastByteLoose(body, inside, h);
      LooseCached(Encode(body), v, c, c1, h);
    case EReset(next) =>
      var (v, c') := Meaning(next, NO_CACHES, h).value;
      LastByteLoose(next, NO_CACHES, h);
      LooseReset(Encode(next), v, c, c', h);
    case EStructType(_, _, _) => StructTypeLoose(e, c, h);
    case EStruct(_, _, _) => StructLoose(e, c, h);
    case EBuiltin(kind, fields) =>
      var (vs, c') := MeaningAll(fields, c, h).value;
      AllLoose(fields, c, h);
      BuiltinRead(kind);
      LooseCodedStruct(WireOf(kind).code, StructType(Str(WireOf(kind).tag), WireOf(kind).fields), EncodeAll(fields), vs,
                       c, c', h);
  }

  lemma OnlyOne(es: seq<Enc>, v: Value, c: Caches, c1: Caches, h: Config)
    requires |es| == 1 && Meaning(es[0], c, h) == Some((v, c1))
    ensures EncodeAll(es) == Encode(es[0]) && MeaningAll(es, c, h) == Some(([v], c1))
  {
    assert es[1..] == [] && [v] + [] == [v] && Encode(es[0]) + [] == Encode(es[0]);
    assert MeaningAll([], c1, h) == Some(([], c1));
  }

  lemma {:induction false} AllLoose(es: seq<Enc>, c: Caches, h: Config)
    requires MeaningAll(es, c, h).Some? && LastOpen(es)
    ensures var (vs, c') := MeaningAll(es, c, h).value; LooseAll(EncodeAll(es), |es|, c, h, vs, c')
    decreases es, 0
  {
    FirstAndRest(es, c, h);
    var (v, c1) := Meaning(es[0], c, h).value;
    var (vs, c') := MeaningAll(es[1..], c1, h).value;
    if |es| == 1 {
      LastByteLoose(es[0], c, h);
      LooseLast(Encode(es[0]), v, c, c1, h);
      OnlyOne(es, v, c, c1, h);
    } else {
      Back(es[0], c, h);
      AllLoose(es[1..], c1, h);
      LooseMore(Encode(es[0]), v, EncodeAll(es[1..]), |es| - 1, vs, c, c1, c', h);
    }
  }

  lemma {:induction false} ListLoose(e: Enc, c: Caches, h: Config)
    requires e.EList? && Meaning(e, c, h).Some? && EndsOpen(e)
    ensures var (v, c') := Meaning(e, c, h).value; Loose(Encode(e), c, h, v, c')
    decreases e, 0
  {
    var (vs, c') := MeaningAll(e.items, c, h).value;
    var k, body := |e.items|, EncodeAll(e.items);
    match e.form
    case Packed =>
      AllLoose(e.items, c, h);
      assert [LIST_PACKED_LENGTH_START + k] + ([] + body) == Encode(e);
      LooseList(LIST_PACKED_LENGTH_START + k, [], body, k, vs, c, c', h);
    case Counted(width) =>
      AllLoose(e.items, c, h);
      NumCounts(width, k);
      Join3([LIST], Num(width, k), body);
      assert Encode(e) == [LIST] + (Num(width, k) + body);
      LooseList(LIST, Num(width, k), body, k, vs, c, c', h);
    case Open =>
      forall n: nat
        ensures ReadObject(At(Front(Encode(e)), n, c, h)) == Ok(List(vs), At([], n + |Encode(e)| - 1, c', h))
      {
        assert Front(Encode(e)) == [BEGIN_OPEN_LIST] + body;
        OpenListAtEof(e.items, n, c, h);
      }
  }

  lemma {:induction false} StructTypeLoose(e: Enc, c: Caches, h: Config)
    requires e.EStructType? && Meaning(e, c, h).Some? && EndsOpen(e)
    ensures var (v, c') := Meaning(e, c, h).value; Loose(Encode(e), c, h, v, c')
    decreases e, 0
  {
    var (t, c1) := Meaning(e.tag, c, h).value;
    var k := |e.fields|;
    var c2 := c1.(structs := c1.structs + [StructType(t, k)]);
    var (vs, c') := MeaningAll(e.fields, c2, h).value;
    Back(e.tag, c, h);
    NumCounts(e.width, k);
    AllLoose(e.fields, c2, h);
    Join4([STRUCTTYPE], Encode(e.tag), Num(e.width, k), EncodeAll(e.fields));
    LooseStructType(Encode(e.tag), t, Num(e.width, k), k, EncodeAll(e.fields), vs, c, c1, c2, c', h);
  }

  lemma {:induction false} StructLoose(e: Enc, c: Caches, h: Config)
    requires e.EStruct? && Meaning(e, c, h).Some? && EndsOpen(e)
    ensures var (v, c') := Meaning(e, c, h).value; Loose(Encode(e), c, h, v, c')
    decreases e, 0
  {
    var (vs, c') := MeaningAll(e.fields, c, h).value;
    AllLoose(e.fields, c, h);
    match e.ref
    case PackedRef =>
      LooseCodedStruct(STRUCT_CACHE_PACKED_START + e.index, c.structs[e.index], EncodeAll(e.fields), vs, c, c', h);
    case WideRef(width) =>
      NumCounts(width, e.index);
      Join3([STRUCT], Num(width, e.index), EncodeAll(e.fields));
      LooseWideStruct(Num(width, e.index), e.index, EncodeAll(e.fields), vs, c, c', h);
  }

  // ---- What is noticed ----

  /** A stream without open lists that is cut anywhere is refused for lack of input. */
  lemma CutIsEof(e: Enc, k: nat, n: nat, c: Caches, h: Config)
    requires Meaning(e, c, h).Some? && !HasOpen(e) && k < |Encode(e)|
    ensures ReadObject(At(Encode(e)[..k], n, c, h)) == Err(Eof)
  {
    Truncated(e, c, h);
    assert Noticed(ReadObject(At(Encode(e)[..k], n, c, h)), false, EndsOpen(e));
  }

  /** Some beginning of an encoding is accepted in its place if and only if it ends with an open list. */
  lemma ShortAccepted(e: Enc, n: nat, c: Caches, h: Config)
    requires Meaning(e, c, h).Some?
    ensures (exists k: nat :: k < |Encode(e)| && ReadObject(At(Encode(e)[..k], n, c, h)).Ok?) <==> EndsOpen(e)
  {
    Truncated(e, c, h);
    if EndsOpen(e) {
      LastByteLoose(e, c, h);
      assert ReadObject(At(Front(Encode(e)), n, c, h)).Ok?;
      assert Front(Encode(e)) == Encode(e)[..|Encode(e)| - 1];
    } else {
      forall k: nat | k < |Encode(e)| ensures !ReadObject(At(Encode(e)[..k], n, c, h)).Ok? {
        assert Noticed(ReadObject(At(Encode(e)[..k], n, c, h)), HasOpen(e), false);
      }
    }
  }
}
