/** Encodings are plain streams. With the round trip and its converse this makes the plain streams that are read the
    same as the encodings. */
module FressianPlain {
  import opened Wrappers
  import opened Fressian
  import opened FressianBytes
  import opened FressianInverse
  import opened FressianRoundTrip
  import FressianTheorems

  ghost predicate IsPlain(bs: seq<byte>, c: Caches, h: Config) {
    forall tail: seq<byte>, n: nat :: Plain(At(bs + tail, n, c, h))
  }

  ghost predicate PlainAfter(code: byte, bs: seq<byte>, c: Caches, h: Config) {
    forall tail: seq<byte>, n: nat :: PlainCode(code, At(bs + tail, n, c, h))
  }

  ghost predicate PlainAll(bs: seq<byte>, k: nat, c: Caches, h: Config) {
    forall tail: seq<byte>, n: nat :: PlainObjects(At(bs + tail, n, c, h), k)
  }

  ghost predicate PlainToEnd(bs: seq<byte>, c: Caches, h: Config) {
    forall tail: seq<byte>, n: nat :: PlainUntilEnd(At(bs + ([END_COLLECTION] + tail), n, c, h))
  }

  /** A count that is written as an integer. */
  ghost predicate PlainCount(num: seq<byte>, k: nat) {
    Counts(num, k) && num != [] && IsIntCode(num[0])
  }

  lemma CodePlain(code: byte, bs: seq<byte>, c: Caches, h: Config)
    requires PlainAfter(code, bs, c, h)
    ensures IsPlain([code] + bs, c, h)
  {
    forall tail: seq<byte>, n: nat ensures Plain(At([code] + bs + tail, n, c, h)) {
      Join3([code], bs, tail);
      First(code, bs + tail, n, c, h);
    }
  }

  lemma NumPlainCount(width: nat, k: nat)
    requires CountFits(width, k)
    ensures PlainCount(Num(width, k), k)
  {
    NumCounts(width, k);
  }

  lemma CountIsDirect(num: seq<byte>, k: nat, tail: seq<byte>, n: nat, c: Caches, h: Config)
    requires PlainCount(num, k)
    ensures var r := At(num + tail, n, c, h); DirectCount(r) && ReadInt32(r) == Ok(k, At(tail, n + |num|, c, h))
  {
  }

  // ---- Forms without objects inside ----

  predicate Leaf(code: byte) {
    || IsIntCode(code) || code == NULL || code == TRUE || code == FALSE || code == DOUBLE_0 || code == DOUBLE_1
    || code == FLOAT || code == DOUBLE || (BYTES_PACKED_LENGTH_START <= code < BYTES_CHUNK)
    || (PRIORITY_CACHE_PACKED_START <= code < STRUCT_CACHE_PACKED_START)
  }

  lemma LeafPlain(code: byte, bs: seq<byte>, c: Caches, h: Config)
    requires Leaf(code)
    ensures IsPlain([code] + bs, c, h)
  {
    forall tail: seq<byte>, n: nat ensures PlainCode(code, At(bs + tail, n, c, h)) {
    }
    CodePlain(code, bs, c, h);
  }

  lemma NumPlain(width: nat, k: int, c: Caches, h: Config)
    requires IntFits(width, k)
    ensures IsPlain(Num(width, k), c, h)
  {
    LeafPlain(Num(width, k)[0], Num(width, k)[1..], c, h);
    assert [Num(width, k)[0]] + Num(width, k)[1..] == Num(width, k);
  }

  lemma WideRefPlain(num: seq<byte>, index: nat, c: Caches, h: Config)
    requires PlainCount(num, index)
    ensures IsPlain([GET_PRIORITY_CACHE] + num, c, h)
  {
    forall tail: seq<byte>, n: nat ensures PlainCode(GET_PRIORITY_CACHE, At(num + tail, n, c, h)) {
      CountIsDirect(num, index, tail, n, c, h);
    }
    CodePlain(GET_PRIORITY_CACHE, num, c, h);
  }

  // ---- Chunks ----

  lemma SizedPlain(ch: Chunk, tail: seq<byte>, n: nat, c: Caches, h: Config)
    requires CountFits(ch.width, |ch.data|)
    ensures var r := At(Sized(ch) + tail, n, c, h);
            DirectCount(r) && ReadCounted(r) == Ok(ch.data, At(tail, n + |Sized(ch)|, c, h))
  {
    SizedHolds(ch);
    assert (Sized(ch) + tail)[0] == Num(ch.width, |ch.data|)[0];
  }

  /** The chunks from the first code on. */
  predicate PlainChunks(code: byte, r: Reader) {
    if code == BYTES || code == BYTES_CHUNK then PlainBytes(code, r)
    else STRING_PACKED_LENGTH_START <= code <= STRING && PlainString(code, r)
  }

  lemma ChunksAreCode(code: byte, r: Reader)
    requires PlainChunks(code, r)
    ensures PlainCode(code, r)
  {
  }

  lemma ChunkThen(code: byte, ch: Chunk, next: byte, rest: seq<byte>, n: nat, c: Caches, h: Config)
    requires CountFits(ch.width, |ch.data|)
    requires (code == BYTES_CHUNK && (next == BYTES || next == BYTES_CHUNK))
          || (code == STRING_CHUNK && STRING_PACKED_LENGTH_START <= next <= STRING)
    requires PlainChunks(next, At(rest, n + |Sized(ch)| + 1, c, h))
    ensures PlainChunks(code, At(Sized(ch) + ([next] + rest), n, c, h))
  {
    SizedPlain(ch, [next] + rest, n, c, h);
    First(next, rest, n + |Sized(ch)|, c, h);
  }

  lemma LastPlain(last: byte, size: seq<byte>, ch: Chunk, tail: seq<byte>, n: nat, c: Caches, h: Config)
    requires ((last == BYTES || last == STRING) && CountFits(ch.width, |ch.data|) && size == Sized(ch))
          || STRING_PACKED_LENGTH_START <= last < STRING_CHUNK
    ensures PlainChunks(last, At(size + tail, n, c, h))
  {
    if last == BYTES || last == STRING {
      SizedPlain(ch, tail, n, c, h);
    }
  }

  /** The bytes of some chunks and a last one after the code of the first of them. */
  function ChunksRest(code: byte, chunks: seq<Chunk>, last: byte, size: seq<byte>): seq<byte> {
    if chunks == [] then size
    else Sized(chunks[0]) + ([if |chunks| == 1 then last else code] + ChunksRest(code, chunks[1..], last, size))
  }

  lemma Regroup<T>(a: seq<T>, b: seq<T>, c: seq<T>, d: seq<T>, e: seq<T>)
    ensures a + b + c + d + e == a + (b + (c + d + e))
  {
  }

  lemma {:induction false} ChunksOf(code: byte, chunks: seq<Chunk>, last: byte, size: seq<byte>)
    ensures ChunkBytes(code, chunks) + [last] + size
         == [if chunks == [] then last else code] + ChunksRest(code, chunks, last, size)
    decreases |chunks|
  {
    if chunks != [] {
      ChunksOf(code, chunks[1..], last, size);
      Regroup([code], Sized(chunks[0]), ChunkBytes(code, chunks[1..]), [last], size);
    }
  }

  lemma {:induction false} ChunksPlain(code: byte, chunks: seq<Chunk>, last: byte, size: seq<byte>, ch: Chunk,
                                       tail: seq<byte>, n: nat, c: Caches, h: Config)
    requires ChunksFit(chunks)
    requires (code == BYTES_CHUNK && last == BYTES && CountFits(ch.width, |ch.data|) && size == Sized(ch))
          || (code == STRING_CHUNK && last == STRING && CountFits(ch.width, |ch.data|) && size == Sized(ch))
          || (code == STRING_CHUNK && STRING_PACKED_LENGTH_START <= last < STRING_CHUNK)
    ensures PlainChunks(if chunks == [] then last else code, At(ChunksRest(code, chunks, last, size) + tail, n, c, h))
    decreases |chunks|
  {
    if chunks == [] {
      LastPlain(last, size, ch, tail, n, c, h);
    } else {
      var next, rest := if |chunks| == 1 then last else code, ChunksRest(code, chunks[1..], last, size);
      ChunksPlain(code, chunks[1..], last, size, ch, tail, n + |Sized(chunks[0])| + 1, c, h);
      assert Sized(chunks[0]) + ([next] + rest) + tail == Sized(chunks[0]) + ([next] + (rest + tail));
      ChunkThen(code, chunks[0], next, rest + tail, n, c, h);
    }
  }

  lemma ChunkedPlain(code: byte, chunks: seq<Chunk>, last: byte, size: seq<byte>, ch: Chunk, c: Caches, h: Config)
    requires ChunksFit(chunks)
    requires (code == BYTES_CHUNK && last == BYTES && CountFits(ch.width, |ch.data|) && size == Sized(ch))
          || (code == STRING_CHUNK && last == STRING && CountFits(ch.width, |ch.data|) && size == Sized(ch))
          || (code == STRING_CHUNK && STRING_PACKED_LENGTH_START <= last < STRING_CHUNK)
    ensures IsPlain(ChunkBytes(code, chunks) + [last] + size, c, h)
  {
    var first, rest := if chunks == [] then last else code, ChunksRest(code, chunks, last, size);
    forall tail: seq<byte>, n: nat ensures PlainCode(first, At(rest + tail, n, c, h)) {
      ChunksPlain(code, chunks, last, size, ch, tail, n, c, h);
      ChunksAreCode(first, At(rest + tail, n, c, h));
    }
    CodePlain(first, rest, c, h);
    ChunksOf(code, chunks, last, size);
  }

  // ---- Objects inside ----

  lemma OneMorePlain(one: seq<byte>, v: Value, more: seq<byte>, k: nat, c: Caches, c1: Caches, h: Config)
    requires Denotes(one, c, h, v, c1) && IsPlain(one, c, h) && PlainAll(more, k, c1, h)
    ensures PlainAll(one + more, k + 1, c, h)
  {
    forall tail: seq<byte>, n: nat ensures PlainObjects(At(one + more + tail, n, c, h), k + 1) {
      Join3(one, more, tail);
      assert ReadObject(At(one + (more + tail), n, c, h)) == Ok(v, At(more + tail, n + |one|, c1, h));
      assert PlainObjects(At(more + tail, n + |one|, c1, h), k);
    }
  }

  lemma ElementThenEnd(r: Reader, v: Value, r1: Reader)
    requires Plain(r) && ReadObject(r) == Ok(v, r1) && PlainUntilEnd(r1)
    ensures PlainUntilEnd(r)
  {
  }

  lemma OneMoreToEnd(one: seq<byte>, v: Value, more: seq<byte>, c: Caches, c1: Caches, h: Config)
    requires Denotes(one, c, h, v, c1) && IsPlain(one, c, h) && PlainToEnd(more, c1, h)
    ensures PlainToEnd(one + more, c, h)
  {
    forall tail: seq<byte>, n: nat ensures PlainUntilEnd(At(one + more + ([END_COLLECTION] + tail), n, c, h)) {
      var rest := more + ([END_COLLECTION] + tail);
      Join3(one, more, [END_COLLECTION] + tail);
      assert ReadObject(At(one + rest, n, c, h)) == Ok(v, At(rest, n + |one|, c1, h));
      assert PlainUntilEnd(At(rest, n + |one|, c1, h));
      ElementThenEnd(At(one + rest, n, c, h), v, At(rest, n + |one|, c1, h));
    }
  }

  lemma NoMorePlain(c: Caches, h: Config)
    ensures PlainAll([], 0, c, h) && PlainToEnd([], c, h)
  {
    forall tail: seq<byte>, n: nat ensures PlainUntilEnd(At([] + ([END_COLLECTION] + tail), n, c, h)) {
      assert [] + ([END_COLLECTION] + tail) == [END_COLLECTION] + tail;
    }
  }

  lemma CountedPlain(code: byte, num: seq<byte>, body: seq<byte>, k: nat, c: Caches, h: Config)
    requires (code == LIST && PlainCount(num, k)) || (k < 8 && code == LIST_PACKED_LENGTH_START + k && num == [])
    requires PlainAll(body, k, c, h)
    ensures IsPlain([code] + (num + body), c, h)
  {
    forall tail: seq<byte>, n: nat ensures PlainCode(code, At(num + body + tail, n, c, h)) {
      Join3(num, body, tail);
      assert PlainObjects(At(body + tail, n + |num|, c, h), k);
      if code == LIST {
        CountIsDirect(num, k, body + tail, n, c, h);
      } else {
        assert num + (body + tail) == body + tail;
      }
    }
    CodePlain(code, num + body, c, h);
  }

  lemma EndedPlain(code: byte, body: seq<byte>, c: Caches, h: Config)
    requires (code == BEGIN_CLOSED_LIST || code == BEGIN_OPEN_LIST) && PlainToEnd(body, c, h)
    ensures IsPlain([code] + (body + [END_COLLECTION]), c, h)
  {
    forall tail: seq<byte>, n: nat ensures PlainCode(code, At(body + [END_COLLECTION] + tail, n, c, h)) {
      Join3(body, [END_COLLECTION], tail);
      assert PlainUntilEnd(At(body + ([END_COLLECTION] + tail), n, c, h));
    }
    CodePlain(code, body + [END_COLLECTION], c, h);
  }

  lemma CodedStructPlain(code: byte, st: StructType, body: seq<byte>, c: Caches, h: Config)
    requires (STRUCT_CACHE_PACKED_START <= code < 0xB0 && code - STRUCT_CACHE_PACKED_START < |c.structs|
             && st == c.structs[code - STRUCT_CACHE_PACKED_START])
             || BuiltinStruct(code) == Some(st)
    requires st.fields >= 0 && PlainAll(body, st.fields, c, h)
    ensures IsPlain([code] + body, c, h)
  {
    forall tail: seq<byte>, n: nat ensures PlainCode(code, At(body + tail, n, c, h)) {
      assert PlainObjects(At(body + tail, n, c, h), st.fields);
    }
    CodePlain(code, body, c, h);
  }

  lemma WideStructPlain(num: seq<byte>, index: nat, body: seq<byte>, c: Caches, h: Config)
    requires PlainCount(num, index) && index < |c.structs| && c.structs[index].fields >= 0
    requires PlainAll(body, c.structs[index].fields, c, h)
    ensures IsPlain([STRUCT] + (num + body), c, h)
  {
    forall tail: seq<byte>, n: nat ensures PlainCode(STRUCT, At(num + body + tail, n, c, h)) {
      Join3(num, body, tail);
      CountIsDirect(num, index, body + tail, n, c, h);
      assert PlainObjects(At(body + tail, n + |num|, c, h), c.structs[index].fields);
    }
    CodePlain(STRUCT, num + body, c, h);
  }

  lemma TypeIsPlain(r: Reader, t: Value, r1: Reader, k: nat, r2: Reader)
    requires Plain(r) && ReadObject(r) == Ok(t, r1) && DirectCount(r1) && ReadInt32(r1) == Ok(k, r2)
    requires PlainObjects(r2.(structs := r2.structs + [StructType(t, k)]), k)
    ensures PlainCode(STRUCTTYPE, r)
  {
  }

  lemma StructTypePlain(tag: seq<byte>, t: Value, num: seq<byte>, k: nat, body: seq<byte>, c: Caches, c1: Caches,
                        c2: Caches, h: Config)
    requires Denotes(tag, c, h, t, c1) && IsPlain(tag, c, h) && PlainCount(num, k)
    requires c2 == c1.(structs := c1.structs + [StructType(t, k)]) && PlainAll(body, k, c2, h)
    ensures IsPlain([STRUCTTYPE] + (tag + (num + body)), c, h)
  {
    forall tail: seq<byte>, n: nat ensures PlainCode(STRUCTTYPE, At(tag + (num + body) + tail, n, c, h)) {
      var m := n + |tag|;
      Join3(tag, num + body, tail);
      Join3(num, body, tail);
      var r := At(tag + (num + (body + tail)), n, c, h);
      assert ReadObject(r) == Ok(t, At(num + (body + tail), m, c1, h));
      CountIsDirect(num, k, body + tail, m, c1, h);
      assert PlainObjects(At(body + tail, m + |num|, c2, h), k);
      assert Plain(r);
      TypeIsPlain(r, t, At(num + (body + tail), m, c1, h), k, At(body + tail, m + |num|, c1, h));
    }
    CodePlain(STRUCTTYPE, tag + (num + body), c, h);
  }

  lemma CachedPlain(body: seq<byte>, c: Caches, h: Config)
    requires IsPlain(body, c.(priority := c.priority + [UnderConstruction]), h)
    ensures IsPlain([PUT_PRIORITY_CACHE] + body, c, h)
  {
    forall tail: seq<byte>, n: nat ensures PlainCode(PUT_PRIORITY_CACHE, At(body + tail, n, c, h)) {
      assert Plain(At(body + tail, n, c.(priority := c.priority + [UnderConstruction]), h));
    }
    CodePlain(PUT_PRIORITY_CACHE, body, c, h);
  }

  lemma ResetPlain(body: seq<byte>, c: Caches, h: Config)
    requires IsPlain(body, NO_CACHES, h)
    ensures IsPlain([RESET_CACHES] + body, c, h)
  {
    forall tail: seq<byte>, n: nat ensures PlainCode(RESET_CACHES, At(body + tail, n, c, h)) {
      assert Plain(At(body + tail, n, NO_CACHES, h));
    }
    CodePlain(RESET_CACHES, body, c, h);
  }

  // ---- Every encoding ----

  lemma SimplePlain(e: Enc, c: Caches, h: Config)
    requires Meaning(e, c, h).Some?
    requires e.ENull? || e.EBool? || e.EInt? || e.EFloat? || e.EDouble? || e.EDouble0? || e.EDouble1?
             || e.EBytesPacked? || e.ERef?
    ensures IsPlain(Encode(e), c, h)
  {
    if e.EInt? {
      NumPlain(e.width, e.n, c, h);
    } else if e.ERef? && e.ref.WideRef? {
      NumPlainCount(e.ref.width, e.index);
      WideRefPlain(Num(e.ref.width, e.index), e.index, c, h);
    } else {
      LeafPlain(Encode(e)[0], Encode(e)[1..], c, h);
      assert [Encode(e)[0]] + Encode(e)[1..] == Encode(e);
    }
  }

  lemma ChunkedEncPlain(e: Enc, c: Caches, h: Config)
    requires Meaning(e, c, h).Some? && (e.EBytes? || e.EStr? || e.EStrPacked?)
    ensures IsPlain(Encode(e), c, h)
  {
    match e
    case EBytes(chunks, last) =>
      assert ChunksFit(chunks) && last in chunks + [last];
      ChunkedPlain(BYTES_CHUNK, chunks, BYTES, Sized(last), last, c, h);
    case EStr(chunks, last) =>
      assert ChunksFit(chunks) && last in chunks + [last];
      ChunkedPlain(STRING_CHUNK, chunks, STRING, Sized(last), last, c, h);
    case EStrPacked(chunks, data) =>
      ChunkedPlain(STRING_CHUNK, chunks, STRING_PACKED_LENGTH_START + |data|, data, Chunk(0, []), c, h);
  }

  /** Every encoding is a plain stream. */
  lemma {:induction false} EncodingIsPlain(e: Enc, c: Caches, h: Config)
    requires Meaning(e, c, h).Some?
    ensures IsPlain(Encode(e), c, h)
    decreases e, 1
  {
    match e
    case EList(_, _) => ListPlain(e, c, h);
    case ECached(body) =>
      EncodingIsPlain(body, c.(priority := c.priority + [UnderConstruction]), h);
      CachedPlain(Encode(body), c, h);
    case EReset(next) =>
      EncodingIsPlain(next, NO_CACHES, h);
      ResetPlain(Encode(next), c, h);
    case EStructType(_, _, _) => StructTypeEncPlain(e, c, h);
    case EStruct(_, _, _) => StructPlain(e, c, h);
    case EBuiltin(kind, fields) =>
      AllArePlain(fields, c, h);
      BuiltinRead(kind);
      CodedStructPlain(WireOf(kind).code, StructType(Str(WireOf(kind).tag), WireOf(kind).fields), EncodeAll(fields),
                       c, h);
    case EBytes(_, _) => ChunkedEncPlain(e, c, h);
    case EStr(_, _) => ChunkedEncPlain(e, c, h);
    case EStrPacked(_, _) => ChunkedEncPlain(e, c, h);
    case _ => SimplePlain(e, c, h);
  }

  lemma {:induction false} AllArePlain(es: seq<Enc>, c: Caches, h: Config)
    requires MeaningAll(es, c, h).Some?
    ensures PlainAll(EncodeAll(es), |es|, c, h) && PlainToEnd(EncodeAll(es), c, h)
    decreases es, 0
  {
    if es == [] {
      NoMorePlain(c, h);
    } else {
      FirstAndRest(es, c, h);
      var (v, c1) := Meaning(es[0], c, h).value;
      Back(es[0], c, h);
      EncodingIsPlain(es[0], c, h);
      AllArePlain(es[1..], c1, h);
      OneMorePlain(Encode(es[0]), v, EncodeAll(es[1..]), |es| - 1, c, c1, h);
      OneMoreToEnd(Encode(es[0]), v, EncodeAll(es[1..]), c, c1, h);
    }
  }

  lemma {:induction false} ListPlain(e: Enc, c: Caches, h: Config)
    requires e.EList? && Meaning(e, c, h).Some?
    ensures IsPlain(Encode(e), c, h)
    decreases e, 0
  {
    var k, body := |e.items|, EncodeAll(e.items);
    AllArePlain(e.items, c, h);
    match e.form
    case Packed =>
      assert [LIST_PACKED_LENGTH_START + k] + ([] + body) == Encode(e);
      CountedPlain(LIST_PACKED_LENGTH_START + k, [], body, k, c, h);
    case Counted(width) =>
      NumPlainCount(width, k);
      Join3([LIST], Num(width, k), body);
      assert Encode(e) == [LIST] + (Num(width, k) + body);
      CountedPlain(LIST, Num(width, k), body, k, c, h);
    case Closed =>
      Join3([BEGIN_CLOSED_LIST], body, [END_COLLECTION]);
      EndedPlain(BEGIN_CLOSED_LIST, body, c, h);
    case Open =>
      Join3([BEGIN_OPEN_LIST], body, [END_COLLECTION]);
      EndedPlain(BEGIN_OPEN_LIST, body, c, h);
  }

  lemma {:induction false} StructTypeEncPlain(e: Enc, c: Caches, h: Config)
    requires e.EStructType? && Meaning(e, c, h).Some?
    ensures IsPlain(Encode(e), c, h)
    decreases e, 0
  {
    var (t, c1) := Meaning(e.tag, c, h).value;
    var k := |e.fields|;
    var c2 := c1.(structs := c1.structs + [StructType(t, k)]);
    Back(e.tag, c, h);
    EncodingIsPlain(e.tag, c, h);
    NumPlainCount(e.width, k);
    AllArePlain(e.fields, c2, h);
    Join4([STRUCTTYPE], Encode(e.tag), Num(e.width, k), EncodeAll(e.fields));
    StructTypePlain(Encode(e.tag), t, Num(e.width, k), k, EncodeAll(e.fields), c, c1, c2, h);
  }

  lemma {:induction false} StructPlain(e: Enc, c: Caches, h: Config)
    requires e.EStruct? && Meaning(e, c, h).Some?
    ensures IsPlain(Encode(e), c, h)
    decreases e, 0
  {
    AllArePlain(e.fields, c, h);
    match e.ref
    case PackedRef =>
      CodedStructPlain(STRUCT_CACHE_PACKED_START + e.index, c.structs[e.index], EncodeAll(e.fields), c, h);
    case WideRef(width) =>
      NumPlainCount(width, e.index);
      Join3([STRUCT], Num(width, e.index), EncodeAll(e.fields));
      WideStructPlain(Num(width, e.index), e.index, EncodeAll(e.fields), c, h);
  }

  // ---- The reader's language ----

  /** What the reader accepts and takes for `v`, of streams that are plain, is what begins with an encoding of `v`. */
  lemma PlainMeans(r: Reader, v: Value, r': Reader)
    ensures Plain(r) && ReadObject(r) == Ok(v, r')
       <==> r'.bytesRead + |r'.rest| == r.bytesRead + |r.rest| && exists e :: IsReading(r, e, v, r')
  {
    if Plain(r) && ReadObject(r) == Ok(v, r') {
      var e := Inverse(r);
      FressianTheorems.RoundTrip(e, r, r'.rest);
    }
    if e :| IsReading(r, e, v, r') {
      FressianTheorems.RoundTrip(e, r, r'.rest);
      EncodingIsPlain(e, CachesOf(r), r.config);
      assert r == At(Encode(e) + r'.rest, r.bytesRead, CachesOf(r), r.config);
    }
  }
}
