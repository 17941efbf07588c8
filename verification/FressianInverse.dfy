/** The converse of the round trip: whatever the reader accepts, short of a footer, an open list that ends with the
    input, and a count that is not written as a plain integer, is the encoding of the value that is read. */
module FressianInverse {
  import opened Wrappers
  import opened Fressian
  import opened FressianBytes
  import opened FressianRoundTrip

  function CachesOf(r: Reader): Caches {
    Caches(r.priority, r.structs)
  }

  /** These bytes, up to where `r'` is, are the encoding `e` of `v`. */
  ghost predicate IsReading(r: Reader, e: Enc, v: Value, r': Reader) {
    && r.rest == Encode(e) + r'.rest && r'.config == r.config
    && Meaning(e, CachesOf(r), r.config) == Some((v, CachesOf(r')))
  }

  // ---- What is plain about a stream ----

  predicate DirectCount(r: Reader) {
    r.rest != [] && IsIntCode(r.rest[0])
  }

  /** An object without a footer in it, without an open list that the input ends, and with counts written as
      integers. */
  predicate Plain(r: Reader)
    decreases |r.rest|, 0
  {
    r.rest != [] && PlainCode(r.rest[0], Next(r))
  }

  predicate PlainCode(code: byte, r: Reader)
    decreases |r.rest|, 4
  {
    if code == FOOTER then false
    else if code == PUT_PRIORITY_CACHE then Plain(r.(priority := r.priority + [UnderConstruction]))
    else if code == GET_PRIORITY_CACHE then DirectCount(r)
    else if STRUCT_CACHE_PACKED_START <= code < 0xB0 then
      PlainStruct(r, LookupStruct(r, code - STRUCT_CACHE_PACKED_START))
    else if code == STRUCT then
      DirectCount(r) && match ReadInt32(r) case Err(_) => false case Ok(i, r1) => PlainStruct(r1, LookupStruct(r1, i))
    else if BuiltinStruct(code).Some? then PlainObjects(r, BuiltinStruct(code).value.fields)
    else if code == STRUCTTYPE then PlainStructType(r)
    else if code == BYTES || code == BYTES_CHUNK then PlainBytes(code, r)
    else if STRING_PACKED_LENGTH_START <= code <= STRING then PlainString(code, r)
    else if LIST_PACKED_LENGTH_START <= code < LIST then PlainObjects(r, code - LIST_PACKED_LENGTH_START)
    else if code == LIST then
      DirectCount(r) && match ReadInt32(r) case Err(_) => false case Ok(n, r1) => PlainObjects(r1, n)
    else if code == BEGIN_CLOSED_LIST || code == BEGIN_OPEN_LIST then PlainUntilEnd(r)
    else if code == RESET_CACHES then Plain(ResetCaches(r))
    else true
  }

  predicate PlainStruct(r: Reader, st: Result<StructType>)
    decreases |r.rest|, 3
  {
    st.Ok? && PlainObjects(r, st.value.fields)
  }

  predicate PlainStructType(r: Reader)
    decreases |r.rest|, 3
  {
    Plain(r) &&
    match ReadObject(r)
    case Err(_) => false
    case Ok(tag, r1) =>
      DirectCount(r1) &&
      match ReadInt32(r1)
      case Err(_) => false
      case Ok(n, r2) => PlainObjects(r2.(structs := r2.structs + [StructType(tag, n)]), n)
  }

  predicate PlainObjects(r: Reader, n: int)
    decreases |r.rest|, 1, n
  {
    n <= 0 || (Plain(r) && match ReadObject(r) case Err(_) => false case Ok(_, r1) => PlainObjects(r1, n - 1))
  }

  predicate PlainUntilEnd(r: Reader)
    decreases |r.rest|, 0
  {
    r.rest != [] &&
    (r.rest[0] == END_COLLECTION ||
     (PlainCode(r.rest[0], Next(r)) &&
      match Read(r.rest[0], Next(r)) case Err(_) => false case Ok(_, r1) => PlainUntilEnd(r1)))
  }

  predicate PlainBytes(code: byte, r: Reader)
    decreases |r.rest|, 3
  {
    DirectCount(r) &&
    match ReadCounted(r)
    case Err(_) => false
    case Ok(_, r1) => code == BYTES || (r1.rest != [] && PlainBytes(r1.rest[0], Next(r1)))
  }

  predicate PlainString(code: byte, r: Reader)
    decreases |r.rest|, 3
  {
    (STRING_PACKED_LENGTH_START <= code < STRING_CHUNK) ||
    (DirectCount(r) &&
     match ReadCounted(r)
     case Err(_) => false
     case Ok(_, r1) => code == STRING || (r1.rest != [] && PlainString(r1.rest[0], Next(r1))))
  }

  // ---- Integers and counts ----

  /** The low bytes of an integer code. */
  function Width(code: byte): nat
    requires IsIntCode(code)
  {
    if code == INT then 8 else if 0x40 <= code < 0x80 then PackedFamily(code).1 else 0
  }

  lemma RawSplit(r: Reader, n: nat)
    requires ReadRaw(r, n).Ok?
    ensures r.rest == r.rest[..n] + ReadRaw(r, n).reader.rest && ReadRaw(r, n).value == r.rest[..n]
    ensures CachesOf(ReadRaw(r, n).reader) == CachesOf(r) && ReadRaw(r, n).reader.config == r.config
  {
  }

  lemma PackedPrefix(code: byte, r: Reader, low: seq<byte>, s: Reader)
    requires IsIntCode(code) && ReadPacked(code, r).Ok? && |r.rest| >= Width(code) && low == r.rest[..Width(code)]
    requires s == r.(rest := low)
    ensures ReadPacked(code, s).Ok? && ReadPacked(code, s).value == ReadPacked(code, r).value
    ensures ReadPacked(code, r).reader == r.(rest := r.rest[Width(code)..], bytesRead := r.bytesRead + Width(code))
  {
    assert low[..|low|] == low;
    assert r.rest[0..] == r.rest;
  }

  /** An integer that is read is some form of it, and so are its code and low bytes. */
  lemma IntRead(code: byte, r: Reader)
    requires IsIntCode(code) && ReadPacked(code, r).Ok?
    ensures var n, r' := ReadPacked(code, r).value, ReadPacked(code, r).reader;
            && IntFits(Width(code), n) && [code] + r.rest == IntBytes(Width(code), n) + r'.rest
            && CachesOf(r') == CachesOf(r) && r'.config == r.config
  {
    var low := r.rest[..Width(code)];
    var s := r.(rest := low);
    PackedPrefix(code, r, low, s);
    IntOnto(code, low, s);
    SplitAfter(code, r.rest, Width(code));
  }

  lemma SplitAfter(code: byte, rest: seq<byte>, n: nat)
    requires n <= |rest|
    ensures [code] + rest == [code] + rest[..n] + rest[n..]
  {
  }

  lemma CountRead(r: Reader) returns (width: nat)
    requires DirectCount(r) && ReadInt32(r).Ok? && ReadInt32(r).value >= 0
    ensures var n, r' := ReadInt32(r).value, ReadInt32(r).reader;
            && CountFits(width, n) && r.rest == Num(width, n) + r'.rest
            && CachesOf(r') == CachesOf(r) && r'.config == r.config
  {
    var code := r.rest[0];
    width := Width(code);
    SwitchesAgree(code, Next(r));
    IntRead(code, Next(r));
    assert r.rest == [code] + Next(r).rest;
  }

  lemma ChunkRead(r: Reader) returns (chunk: Chunk)
    requires DirectCount(r) && ReadCounted(r).Ok?
    ensures var bs, r' := ReadCounted(r).value, ReadCounted(r).reader;
            && chunk.data == bs && CountFits(chunk.width, |bs|) && r.rest == Sized(chunk) + r'.rest
            && CachesOf(r') == CachesOf(r) && r'.config == r.config
  {
    var width := CountRead(r);
    var n, r1 := ReadInt32(r).value, ReadInt32(r).reader;
    RawSplit(r1, n);
    chunk := Chunk(width, ReadRaw(r1, n).value);
    Join3(Num(width, n), chunk.data, ReadRaw(r1, n).reader.rest);
  }

  // ---- Chunks ----

  predicate SameCaches(r: Reader, r': Reader) {
    CachesOf(r') == CachesOf(r) && r'.config == r.config
  }

  lemma ChunkFirstRead(code: byte, c: Chunk, chunks: seq<Chunk>, rest: seq<byte>, more: seq<byte>)
    requires rest == ChunkBytes(code, chunks) + more
    ensures [code] + (Sized(c) + rest) == ChunkBytes(code, [c] + chunks) + more
  {
    assert ([c] + chunks)[1..] == chunks;
    Join3([code] + Sized(c), ChunkBytes(code, chunks), more);
    Join3([code], Sized(c), rest);
  }

  lemma FitsMore(c: Chunk, chunks: seq<Chunk>)
    requires CountFits(c.width, |c.data|) && ChunksFit(chunks)
    ensures ChunksFit([c] + chunks) && Joined([c] + chunks) == c.data + Joined(chunks)
  {
    assert ([c] + chunks)[1..] == chunks;
  }

  lemma BytesStep(r: Reader, acc: seq<byte>) returns (c: Chunk, code: byte, s: Reader)
    requires ReadByteChunks(BYTES_CHUNK, r, acc).Ok? && PlainBytes(BYTES_CHUNK, r)
    ensures CountFits(c.width, |c.data|) && r.rest == Sized(c) + ([code] + s.rest) && SameCaches(r, s)
    ensures ReadByteChunks(code, s, acc + c.data) == ReadByteChunks(BYTES_CHUNK, r, acc)
    ensures PlainBytes(code, s) && |s.rest| < |r.rest|
  {
    c := ChunkRead(r);
    var r1 := ReadCounted(r).reader;
    code, s := r1.rest[0], Next(r1);
    assert r1.rest == [code] + s.rest;
  }

  lemma LastBytes(r: Reader, acc: seq<byte>) returns (last: Chunk)
    requires ReadByteChunks(BYTES, r, acc).Ok? && PlainBytes(BYTES, r)
    ensures CountFits(last.width, |last.data|)
    ensures var res := ReadByteChunks(BYTES, r, acc);
            r.rest == Sized(last) + res.reader.rest && SameCaches(r, res.reader) && res.value == acc + last.data
  {
    last := ChunkRead(r);
  }

  lemma {:induction false} BytesRead(code: byte, r: Reader, acc: seq<byte>) returns (chunks: seq<Chunk>, last: Chunk)
    requires ReadByteChunks(code, r, acc).Ok? && PlainBytes(code, r)
    ensures
      var r' := ReadByteChunks(code, r, acc).reader;
      && ChunksFit(chunks) && CountFits(last.width, |last.data|) && SameCaches(r, r')
      && [code] + r.rest == ChunkBytes(BYTES_CHUNK, chunks) + ([BYTES] + (Sized(last) + r'.rest))
    ensures ReadByteChunks(code, r, acc).value == acc + (Joined(chunks) + last.data)
    decreases |r.rest|
  {
    if code == BYTES {
      chunks := [];
      last := LastBytes(r, acc);
      assert Joined([]) + last.data == last.data;
    } else {
      var c, code', s := BytesStep(r, acc);
      var more;
      more, last := BytesRead(code', s, acc + c.data);
      chunks := [c] + more;
      var rest := [BYTES] + (Sized(last) + ReadByteChunks(code', s, acc + c.data).reader.rest);
      ChunkFirstRead(BYTES_CHUNK, c, more, [code'] + s.rest, rest);
      FitsMore(c, more);
      Join3(acc, c.data, Joined(more) + last.data);
      Join3(c.data, Joined(more), last.data);
    }
  }

  /** The end of a string: its length in the code, or a counted chunk. */
  function LastPart(packed: bool, width: nat, data: seq<byte>): seq<byte> {
    if packed then Short(STRING_PACKED_LENGTH_START, |data|, 8) + data else [STRING] + Sized(Chunk(width, data))
  }

  predicate LastFits(packed: bool, width: nat, data: seq<byte>) {
    if packed then |data| < 8 else CountFits(width, |data|)
  }

  lemma {:induction false} StringRead(code: byte, r: Reader, acc: seq<byte>)
    returns (chunks: seq<Chunk>, packed: bool, width: nat, data: seq<byte>)
    requires ReadStringChunks(code, r, acc).Ok? && PlainString(code, r)
    ensures
      var r' := ReadStringChunks(code, r, acc).reader;
      && ChunksFit(chunks) && LastFits(packed, width, data) && SameCaches(r, r')
      && [code] + r.rest == ChunkBytes(STRING_CHUNK, chunks) + (LastPart(packed, width, data) + r'.rest)
    ensures ReadStringChunks(code, r, acc).value == acc + (Joined(chunks) + data)
    decreases |r.rest|
  {
    var r' := ReadStringChunks(code, r, acc).reader;
    if STRING_PACKED_LENGTH_START <= code < STRING_CHUNK {
      RawSplit(r, code - STRING_PACKED_LENGTH_START);
      chunks, packed, width, data := [], true, 0, ReadRaw(r, code - STRING_PACKED_LENGTH_START).value;
      assert Joined([]) + data == data;
      Join3([code], data, r'.rest);
    } else {
      var c := ChunkRead(r);
      var r1 := ReadCounted(r).reader;
      if code == STRING {
        chunks, packed, width, data := [], false, c.width, c.data;
        assert Joined([]) + data == data;
        Join3([STRING], Sized(c), r'.rest);
      } else {
        var chunks', packed', width', data' := StringRead(r1.rest[0], Next(r1), acc + c.data);
        chunks, packed, width, data := [c] + chunks', packed', width', data';
        assert r1.rest == [r1.rest[0]] + Next(r1).rest;
        ChunkFirstRead(STRING_CHUNK, c, chunks', r1.rest, LastPart(packed, width, data) + r'.rest);
        FitsMore(c, chunks');
        Join3(acc, c.data, Joined(chunks') + data);
        Join3(c.data, Joined(chunks'), data);
      }
    }
  }

  // ---- Objects, by their code ----

  /** The same as `IsReading`, once the code is taken. */
  ghost predicate IsCodeReading(code: byte, r: Reader, e: Enc, v: Value, r': Reader) {
    && [code] + r.rest == Encode(e) + r'.rest && r'.config == r.config
    && Meaning(e, CachesOf(r), r.config) == Some((v, CachesOf(r')))
  }

  ghost predicate AreReadings(r: Reader, es: seq<Enc>, vs: seq<Value>, r': Reader) {
    && r.rest == EncodeAll(es) + r'.rest && r'.config == r.config
    && MeaningAll(es, CachesOf(r), r.config) == Some((vs, CachesOf(r')))
  }

  lemma IntCase(code: byte, r: Reader) returns (e: Enc)
    requires IsIntCode(code) && ReadPacked(code, r).Ok?
    ensures IsCodeReading(code, r, e, Int(ReadPacked(code, r).value), ReadPacked(code, r).reader)
  {
    IntRead(code, r);
    e := EInt(Width(code), ReadPacked(code, r).value);
  }

  lemma RawCase(code: byte, r: Reader, n: nat, e: Enc, v: Value)
    requires ReadRaw(r, n).Ok? && Encode(e) == [code] + ReadRaw(r, n).value
    requires Meaning(e, CachesOf(r), r.config) == Some((v, CachesOf(r)))
    ensures IsCodeReading(code, r, e, v, ReadRaw(r, n).reader)
  {
    RawSplit(r, n);
    Join3([code], ReadRaw(r, n).value, ReadRaw(r, n).reader.rest);
  }

  lemma BytesCase(code: byte, r: Reader) returns (e: Enc)
    requires ReadByteChunks(code, r, []).Ok? && PlainBytes(code, r)
    ensures IsCodeReading(code, r, e, Bytes(ReadByteChunks(code, r, []).value), ReadByteChunks(code, r, []).reader)
  {
    var r' := ReadByteChunks(code, r, []).reader;
    var chunks, last := BytesRead(code, r, []);
    e := EBytes(chunks, last);
    assert [] + (Joined(chunks) + last.data) == Joined(chunks) + last.data;
    Join4(ChunkBytes(BYTES_CHUNK, chunks), [BYTES], Sized(last), r'.rest);
    assert forall c :: c in chunks + [last] ==> c in chunks || c == last;
  }

  lemma PackedStringCase(code: byte, r: Reader, chunks: seq<Chunk>, data: seq<byte>, r': Reader)
    requires ChunksFit(chunks) && |data| < 8 && SameCaches(r, r')
    requires [code] + r.rest == ChunkBytes(STRING_CHUNK, chunks) + (LastPart(true, 0, data) + r'.rest)
    ensures IsCodeReading(code, r, EStrPacked(chunks, data), Str(Joined(chunks) + data), r')
  {
    var bs := ChunkBytes(STRING_CHUNK, chunks);
    Join3(bs, LastPart(true, 0, data), r'.rest);
    Join3(bs, Short(STRING_PACKED_LENGTH_START, |data|, 8), data);
  }

  lemma CountedStringCase(code: byte, r: Reader, chunks: seq<Chunk>, last: Chunk, r': Reader)
    requires ChunksFit(chunks) && CountFits(last.width, |last.data|) && SameCaches(r, r')
    requires [code] + r.rest == ChunkBytes(STRING_CHUNK, chunks) + ([STRING] + Sized(last) + r'.rest)
    ensures IsCodeReading(code, r, EStr(chunks, last), Str(Joined(chunks) + last.data), r')
  {
    Join3(ChunkBytes(STRING_CHUNK, chunks), [STRING] + Sized(last), r'.rest);
    StringForm(chunks, last, CachesOf(r), r.config);
  }

  lemma StringForm(chunks: seq<Chunk>, last: Chunk, c: Caches, h: Config)
    requires ChunksFit(chunks) && CountFits(last.width, |last.data|)
    ensures Encode(EStr(chunks, last)) == ChunkBytes(STRING_CHUNK, chunks) + ([STRING] + Sized(last))
    ensures Meaning(EStr(chunks, last), c, h) == Some((Str(Joined(chunks) + last.data), c))
  {
    Join3(ChunkBytes(STRING_CHUNK, chunks), [STRING], Sized(last));
    assert forall ch :: ch in chunks + [last] ==> ch in chunks || ch == last;
  }

  lemma StringCase(code: byte, r: Reader) returns (e: Enc)
    requires ReadStringChunks(code, r, []).Ok? && PlainString(code, r)
    ensures IsCodeReading(code, r, e, Str(ReadStringChunks(code, r, []).value), ReadStringChunks(code, r, []).reader)
  {
    var chunks, packed, width, data := StringRead(code, r, []);
    assert [] + (Joined(chunks) + data) == Joined(chunks) + data;
    if packed {
      e := EStrPacked(chunks, data);
      PackedStringCase(code, r, chunks, data, ReadStringChunks(code, r, []).reader);
    } else {
      e := EStr(chunks, Chunk(width, data));
      CountedStringCase(code, r, chunks, Chunk(width, data), ReadStringChunks(code, r, []).reader);
    }
  }

  lemma PriorityCase(code: byte, r: Reader, index: int, r1: Reader, ref: RefForm)
    requires LookupPriority(r1, index).Ok? && SameCaches(r, r1) && index >= 0
    requires RefFits(ref, 32, index)
    requires [code] + r.rest == RefBytes(ref, PRIORITY_CACHE_PACKED_START, 32, GET_PRIORITY_CACHE, index) + r1.rest
    ensures IsCodeReading(code, r, ERef(ref, index), LookupPriority(r1, index).value, r1)
  {
  }

  lemma CachedCase(r: Reader, body: Enc, v: Value, r1: Reader)
    requires IsReading(r.(priority := r.priority + [UnderConstruction]), body, v, r1)
    requires |r.priority| < |r1.priority|
    ensures IsCodeReading(PUT_PRIORITY_CACHE, r, ECached(body), v,
                          r1.(priority := r1.priority[|r.priority| := Cached(v)]))
  {
    assert CachesOf(r.(priority := r.priority + [UnderConstruction]))
        == CachesOf(r).(priority := r.priority + [UnderConstruction]);
    Join3([PUT_PRIORITY_CACHE], Encode(body), r1.rest);
  }

  lemma ResetCase(r: Reader, next: Enc, v: Value, r1: Reader)
    requires IsReading(ResetCaches(r), next, v, r1)
    ensures IsCodeReading(RESET_CACHES, r, EReset(next), v, r1)
  {
    assert CachesOf(ResetCaches(r)) == NO_CACHES;
    Join3([RESET_CACHES], Encode(next), r1.rest);
  }

  lemma ListCase(code: byte, r: Reader, form: ListForm, es: seq<Enc>, vs: seq<Value>, r1: Reader, r2: Reader,
    r': Reader)
    requires FormFits(form, |es|) && SameCaches(r, r1) && AreReadings(r1, es, vs, r2) && SameCaches(r2, r')
    requires [code] + r.rest == ListHead(form, |es|) + r1.rest && r2.rest == ListTail(form) + r'.rest
    ensures IsCodeReading(code, r, EList(form, es), List(vs), r')
  {
    Join4(ListHead(form, |es|), EncodeAll(es), ListTail(form), r'.rest);
  }

  lemma StructCase(code: byte, r: Reader, e: Enc, head: seq<byte>, tag: Value, es: seq<Enc>, vs: seq<Value>,
                   r1: Reader, r': Reader)
    requires SameCaches(r, r1) && AreReadings(r1, es, vs, r') && tag !in r.config.handlers
    requires [code] + r.rest == head + r1.rest && Encode(e) == head + EncodeAll(es)
    requires Meaning(e, CachesOf(r), r.config) == Struct(tag, es, CachesOf(r), r.config)
    ensures IsCodeReading(code, r, e, Tagged(tag, vs), r')
  {
    Join3(head, EncodeAll(es), r'.rest);
  }

  lemma StructTypeCase(r: Reader, t: Enc, tag: Value, r1: Reader, width: nat, r2: Reader, es: seq<Enc>,
                       vs: seq<Value>, r': Reader)
    requires IsReading(r, t, tag, r1) && SameCaches(r1, r2) && r1.rest == Num(width, |es|) + r2.rest
    requires CountFits(width, |es|) && tag !in r.config.handlers
    requires AreReadings(r2.(structs := r2.structs + [StructType(tag, |es|)]), es, vs, r')
    ensures IsCodeReading(STRUCTTYPE, r, EStructType(t, width, es), Tagged(tag, vs), r')
  {
    assert CachesOf(r2.(structs := r2.structs + [StructType(tag, |es|)]))
        == CachesOf(r1).(structs := r1.structs + [StructType(tag, |es|)]);
    Join4([STRUCTTYPE], Encode(t), Num(width, |es|), EncodeAll(es) + r'.rest);
    Join3([STRUCTTYPE] + Encode(t) + Num(width, |es|), EncodeAll(es), r'.rest);
  }

  lemma PackedPriorityCase(code: byte, r: Reader)
    requires PRIORITY_CACHE_PACKED_START <= code < STRUCT_CACHE_PACKED_START
    requires LookupPriority(r, code - PRIORITY_CACHE_PACKED_START).Ok?
    ensures IsCodeReading(code, r, ERef(PackedRef, code - PRIORITY_CACHE_PACKED_START),
                          LookupPriority(r, code - PRIORITY_CACHE_PACKED_START).value, r)
  {
    PriorityCase(code, r, code - PRIORITY_CACHE_PACKED_START, r, PackedRef);
  }

  lemma WidePriorityCase(r: Reader) returns (e: Enc)
    requires DirectCount(r) && ReadInt32(r).Ok?
    requires LookupPriority(ReadInt32(r).reader, ReadInt32(r).value).Ok?
    ensures IsCodeReading(GET_PRIORITY_CACHE, r, e, LookupPriority(ReadInt32(r).reader, ReadInt32(r).value).value,
                          ReadInt32(r).reader)
  {
    var width := CountRead(r);
    var index, r1 := ReadInt32(r).value, ReadInt32(r).reader;
    Join3([GET_PRIORITY_CACHE], Num(width, index), r1.rest);
    PriorityCase(GET_PRIORITY_CACHE, r, index, r1, WideRef(width));
    e := ERef(WideRef(width), index);
  }

  /** The codes that hold no other object. */
  predicate IsLeaf(code: byte) {
    || IsIntCode(code)
    || (PRIORITY_CACHE_PACKED_START <= code < STRUCT_CACHE_PACKED_START)
    || code == GET_PRIORITY_CACHE
    || (BYTES_PACKED_LENGTH_START <= code < LIST_PACKED_LENGTH_START)
    || (TRUE <= code <= DOUBLE_1)
  }

  lemma ConstantInverse(code: byte, r: Reader) returns (e: Enc)
    requires TRUE <= code <= DOUBLE_1 && code != INT && Read(code, r).Ok?
    ensures IsCodeReading(code, r, e, Read(code, r).value, Read(code, r).reader)
  {
    if code == TRUE {
      e := EBool(true);
    } else if code == FALSE {
      e := EBool(false);
    } else if code == NULL {
      e := ENull;
    } else if code == FLOAT {
      e := EFloat(ReadRaw(r, 4).value);
      RawCase(code, r, 4, e, Float(ReadRaw(r, 4).value));
    } else if code == DOUBLE {
      e := EDouble(ReadRaw(r, 8).value);
      RawCase(code, r, 8, e, Double(ReadRaw(r, 8).value));
    } else if code == DOUBLE_0 {
      e := EDouble0;
    } else {
      e := EDouble1;
    }
  }

  lemma DataInverse(code: byte, r: Reader) returns (e: Enc)
    requires BYTES_PACKED_LENGTH_START <= code < LIST_PACKED_LENGTH_START && Read(code, r).Ok? && PlainCode(code, r)
    ensures IsCodeReading(code, r, e, Read(code, r).value, Read(code, r).reader)
  {
    if code < BYTES_CHUNK {
      var n := code - BYTES_PACKED_LENGTH_START;
      e := EBytesPacked(ReadRaw(r, n).value);
      RawCase(code, r, n, e, Bytes(ReadRaw(r, n).value));
    } else if code <= BYTES {
      e := BytesCase(code, r);
    } else {
      e := StringCase(code, r);
    }
  }

  lemma LeafInverse(code: byte, r: Reader) returns (e: Enc)
    requires IsLeaf(code) && Read(code, r).Ok? && PlainCode(code, r)
    ensures IsCodeReading(code, r, e, Read(code, r).value, Read(code, r).reader)
  {
    if IsIntCode(code) {
      e := IntCase(code, r);
    } else if code < STRUCT_CACHE_PACKED_START {
      PackedPriorityCase(code, r);
      e := ERef(PackedRef, code - PRIORITY_CACHE_PACKED_START);
    } else if code == GET_PRIORITY_CACHE {
      e := WidePriorityCase(r);
    } else if code < LIST_PACKED_LENGTH_START {
      e := DataInverse(code, r);
    } else {
      e := ConstantInverse(code, r);
    }
  }

  // ---- All objects ----

  lemma ConsReadings(r: Reader, e: Enc, v: Value, r1: Reader, es: seq<Enc>, vs: seq<Value>, r': Reader)
    requires IsReading(r, e, v, r1) && AreReadings(r1, es, vs, r')
    ensures AreReadings(r, [e] + es, [v] + vs, r')
  {
    assert ([e] + es)[1..] == es;
    Join3(Encode(e), EncodeAll(es), r'.rest);
  }

  lemma NoReadings(r: Reader, r': Reader)
    requires SameCaches(r, r') && r.rest == r'.rest
    ensures AreReadings(r, [], [], r')
  {
    assert [] + r'.rest == r'.rest;
  }

  lemma {:induction false} OpenIsClosed(r: Reader, acc: seq<Value>)
    requires PlainUntilEnd(r)
    ensures ReadOpenList(r, acc) == ReadClosedList(r, acc)
    decreases |r.rest|
  {
    if r.rest[0] != END_COLLECTION {
      var one := Read(r.rest[0], Next(r));
      OpenIsClosed(one.reader, acc + [one.value]);
    }
  }

  /** Every plain object that is read is the encoding of its value. */
  lemma {:induction false} Inverse(r: Reader) returns (e: Enc)
    requires Plain(r) && ReadObject(r).Ok?
    ensures IsReading(r, e, ReadObject(r).value, ReadObject(r).reader)
    decreases |r.rest|, 0
  {
    e := CodeInverse(r.rest[0], Next(r));
    CodeThenReading(r, e, ReadObject(r).value, ReadObject(r).reader);
  }

  lemma ObjectsStep(r: Reader, n: nat, acc: seq<Value>) returns (v: Value, r1: Reader, m: nat)
    requires n > 0 && PlainObjects(r, n) && ReadObjects(r, n, acc).Ok?
    ensures m == n - 1 && Plain(r) && ReadObject(r) == Ok(v, r1) && |r1.rest| < |r.rest|
    ensures PlainObjects(r1, m) && ReadObjects(r1, m, acc + [v]) == ReadObjects(r, n, acc)
  {
    v, r1, m := ReadObject(r).value, ReadObject(r).reader, n - 1;
  }

  /** `out` is the outcome of reading these elements after the ones in `acc`. */
  ghost predicate Gathered(r: Reader, acc: seq<Value>, out: Result<seq<Value>>, es: seq<Enc>, vs: seq<Value>) {
    out.Ok? && out.value == acc + vs && AreReadings(r, es, vs, out.reader)
  }

  lemma GatheredMore(r: Reader, e: Enc, v: Value, r1: Reader, acc: seq<Value>, out: Result<seq<Value>>,
                     es: seq<Enc>, vs: seq<Value>)
    requires IsReading(r, e, v, r1) && Gathered(r1, acc + [v], out, es, vs)
    ensures Gathered(r, acc, out, [e] + es, [v] + vs)
  {
    ConsReadings(r, e, v, r1, es, vs, out.reader);
    Join3(acc, [v], vs);
  }

  lemma GatheredNothing(r: Reader, acc: seq<Value>)
    ensures Gathered(r, acc, Ok(acc, r), [], [])
  {
    NoReadings(r, r);
    assert acc + [] == acc;
  }

  lemma {:induction false} ObjectsInverse(r: Reader, n: nat, acc: seq<Value>) returns (es: seq<Enc>, vs: seq<Value>)
    requires PlainObjects(r, n) && ReadObjects(r, n, acc).Ok?
    ensures |es| == n && Gathered(r, acc, ReadObjects(r, n, acc), es, vs)
    decreases |r.rest|, 1, n
  {
    if n == 0 {
      es, vs := [], [];
      GatheredNothing(r, acc);
    } else {
      var v, r1, m := ObjectsStep(r, n, acc);
      var e := Inverse(r);
      es, vs := ObjectsInverse(r1, m, acc + [v]);
      GatheredMore(r, e, v, r1, acc, ReadObjects(r, n, acc), es, vs);
      es, vs := [e] + es, [v] + vs;
    }
  }

  lemma UntilEndStep(r: Reader, acc: seq<Value>) returns (code: byte, s: Reader, v: Value, r1: Reader)
    requires PlainUntilEnd(r) && ReadClosedList(r, acc).Ok? && r.rest[0] != END_COLLECTION
    ensures code == r.rest[0] && s == Next(r) && PlainCode(code, s) && Read(code, s) == Ok(v, r1)
    ensures |s.rest| < |r.rest| && |r1.rest| < |r.rest|
    ensures PlainUntilEnd(r1) && ReadClosedList(r1, acc + [v]) == ReadClosedList(r, acc)
  {
    code, s := r.rest[0], Next(r);
    v, r1 := Read(code, s).value, Read(code, s).reader;
  }

  /** `end` is where the elements end: at the code that ends the list, which is all that is left to read. */
  ghost predicate EndsAt(end: Reader, out: Result<seq<Value>>) {
    out.Ok? && end.rest == [END_COLLECTION] + out.reader.rest && SameCaches(end, out.reader)
  }

  lemma {:induction false} UntilEndInverse(r: Reader, acc: seq<Value>)
    returns (es: seq<Enc>, vs: seq<Value>, end: Reader)
    requires PlainUntilEnd(r) && ReadClosedList(r, acc).Ok?
    ensures EndsAt(end, ReadClosedList(r, acc)) && ReadClosedList(r, acc).value == acc + vs
    ensures AreReadings(r, es, vs, end)
    decreases |r.rest|, 0
  {
    if r.rest[0] == END_COLLECTION {
      es, vs, end := [], [], r;
      GatheredNothing(r, acc);
      assert r.rest == [END_COLLECTION] + Next(r).rest;
    } else {
      var code, s, v, r1 := UntilEndStep(r, acc);
      var e := CodeInverse(code, s);
      CodeThenReading(r, e, v, r1);
      es, vs, end := UntilEndInverse(r1, acc + [v]);
      ConsReadings(r, e, v, r1, es, vs, end);
      Join3(acc, [v], vs);
      es, vs := [e] + es, [v] + vs;
    }
  }

  lemma CodeThenReading(r: Reader, e: Enc, v: Value, r1: Reader)
    requires r.rest != [] && IsCodeReading(r.rest[0], Next(r), e, v, r1)
    ensures IsReading(r, e, v, r1)
  {
    assert r.rest == [r.rest[0]] + Next(r).rest;
  }

  lemma {:induction false} CodeInverse(code: byte, r: Reader) returns (e: Enc)
    requires PlainCode(code, r) && Read(code, r).Ok?
    ensures IsCodeReading(code, r, e, Read(code, r).value, Read(code, r).reader)
    decreases |r.rest|, 4
  {
    if IsLeaf(code) {
      e := LeafInverse(code, r);
    } else if code == PUT_PRIORITY_CACHE {
      var inside := r.(priority := r.priority + [UnderConstruction]);
      var body := Inverse(inside);
      e := ECached(body);
      CachedCase(r, body, ReadObject(inside).value, ReadObject(inside).reader);
    } else if code == RESET_CACHES {
      var next := Inverse(ResetCaches(r));
      e := EReset(next);
      ResetCase(r, next, ReadObject(ResetCaches(r)).value, ReadObject(ResetCaches(r)).reader);
    } else if LIST_PACKED_LENGTH_START <= code <= BEGIN_OPEN_LIST {
      e := ListInverse(code, r);
    } else if code == STRUCTTYPE {
      e := StructTypeInverse(r);
    } else {
      e := StructInverse(code, r);
    }
  }

  lemma {:induction false} ListInverse(code: byte, r: Reader) returns (e: Enc)
    requires LIST_PACKED_LENGTH_START <= code <= BEGIN_OPEN_LIST && PlainCode(code, r) && Read(code, r).Ok?
    ensures IsCodeReading(code, r, e, Read(code, r).value, Read(code, r).reader)
    decreases |r.rest|, 3
  {
    if code < LIST {
      var n := code - LIST_PACKED_LENGTH_START;
      var es, vs := ObjectsInverse(r, n, []);
      e := EList(Packed, es);
      CountedCase(code, r, Packed, es, vs, r, ReadObjects(r, n, []).reader);
    } else if code == LIST {
      var width := CountRead(r);
      var n, r1 := ReadInt32(r).value, ReadInt32(r).reader;
      var es, vs := ObjectsInverse(r1, n, []);
      e := EList(Counted(width), es);
      Join3([LIST], Num(width, n), r1.rest);
      CountedCase(code, r, Counted(width), es, vs, r1, ReadObjects(r1, n, []).reader);
    } else {
      e := EndedInverse(code, r);
    }
  }

  lemma CountedCase(code: byte, r: Reader, form: ListForm, es: seq<Enc>, vs: seq<Value>, r1: Reader, r': Reader)
    requires form.Packed? || form.Counted?
    requires FormFits(form, |es|) && SameCaches(r, r1) && AreReadings(r1, es, vs, r')
    requires [code] + r.rest == ListHead(form, |es|) + r1.rest
    ensures IsCodeReading(code, r, EList(form, es), List(vs), r') && [] + vs == vs
  {
    assert [] + r'.rest == r'.rest;
    ListCase(code, r, form, es, vs, r1, r', r');
  }

  lemma {:induction false} EndedInverse(code: byte, r: Reader) returns (e: Enc)
    requires code == BEGIN_CLOSED_LIST || code == BEGIN_OPEN_LIST
    requires PlainUntilEnd(r) && Read(code, r).Ok?
    ensures IsCodeReading(code, r, e, Read(code, r).value, Read(code, r).reader)
    decreases |r.rest|, 2
  {
    EndedParts(code, r);
    var es, vs, end := UntilEndInverse(r, []);
    var form := if code == BEGIN_CLOSED_LIST then Closed else Open;
    assert [] + vs == vs;
    e := EList(form, es);
    ListCase(code, r, form, es, vs, r, end, ReadClosedList(r, []).reader);
  }

  lemma EndedParts(code: byte, r: Reader)
    requires code == BEGIN_CLOSED_LIST || code == BEGIN_OPEN_LIST
    requires PlainUntilEnd(r) && Read(code, r).Ok?
    ensures ReadClosedList(r, []).Ok?
    ensures Read(code, r) == Ok(List(ReadClosedList(r, []).value), ReadClosedList(r, []).reader)
  {
    OpenIsClosed(r, []);
  }

  lemma HandleParts(r: Reader, tag: Value, n: int)
    requires HandleStruct(r, tag, n).Ok?
    ensures tag !in r.config.handlers && n >= 0 && ReadObjects(r, n, []).Ok?
    ensures HandleStruct(r, tag, n) == Ok(Tagged(tag, ReadObjects(r, n, []).value), ReadObjects(r, n, []).reader)
  {
  }

  lemma CodedStructParts(code: byte, r: Reader) returns (st: StructType)
    requires (STRUCT_CACHE_PACKED_START <= code < 0xB0) || BuiltinStruct(code).Some?
    requires PlainCode(code, r) && Read(code, r).Ok?
    ensures Read(code, r) == HandleStruct(r, st.tag, st.fields) && PlainObjects(r, st.fields)
    ensures if code < 0xB0
            then code - STRUCT_CACHE_PACKED_START < |r.structs| && st == r.structs[code - STRUCT_CACHE_PACKED_START]
            else BuiltinStruct(code) == Some(st)
  {
    st := if code < 0xB0 then r.structs[code - STRUCT_CACHE_PACKED_START] else BuiltinStruct(code).value;
  }

  lemma WideStructParts(r: Reader) returns (st: StructType)
    requires PlainCode(STRUCT, r) && Read(STRUCT, r).Ok?
    ensures DirectCount(r) && ReadInt32(r).Ok? && 0 <= ReadInt32(r).value < |ReadInt32(r).reader.structs|
    ensures var r1 := ReadInt32(r).reader;
            && st == r1.structs[ReadInt32(r).value] && PlainObjects(r1, st.fields)
            && Read(STRUCT, r) == HandleStruct(r1, st.tag, st.fields)
  {
    st := ReadInt32(r).reader.structs[ReadInt32(r).value];
  }

  lemma CodedStructCase(code: byte, r: Reader, st: StructType, es: seq<Enc>, vs: seq<Value>, r': Reader)
    returns (e: Enc)
    requires if STRUCT_CACHE_PACKED_START <= code < 0xB0
             then code - STRUCT_CACHE_PACKED_START < |r.structs| && st == r.structs[code - STRUCT_CACHE_PACKED_START]
             else BuiltinStruct(code) == Some(st)
    requires AreReadings(r, es, vs, r') && |es| == st.fields && st.tag !in r.config.handlers
    ensures IsCodeReading(code, r, e, Tagged(st.tag, vs), r')
  {
    if code < 0xB0 {
      e := EStruct(PackedRef, code - STRUCT_CACHE_PACKED_START, es);
    } else {
      var kind := BuiltinWritten(code);
      BuiltinRead(kind);
      e := EBuiltin(kind, es);
    }
    StructCase(code, r, e, [code], st.tag, es, vs, r, r');
  }

  lemma WideStructCase(r: Reader, width: nat, index: nat, r1: Reader, es: seq<Enc>, vs: seq<Value>, r': Reader)
    requires r.rest == Num(width, index) + r1.rest && SameCaches(r, r1) && CountFits(width, index)
    requires index < |r1.structs| && |es| == r1.structs[index].fields && r1.structs[index].tag !in r.config.handlers
    requires AreReadings(r1, es, vs, r')
    ensures IsCodeReading(STRUCT, r, EStruct(WideRef(width), index, es), Tagged(r1.structs[index].tag, vs), r')
  {
    Join3([STRUCT], Num(width, index), r1.rest);
    StructCase(STRUCT, r, EStruct(WideRef(width), index, es), [STRUCT] + Num(width, index), r1.structs[index].tag,
               es, vs, r1, r');
  }

  lemma {:induction false} StructInverse(code: byte, r: Reader) returns (e: Enc)
    requires (STRUCT_CACHE_PACKED_START <= code < 0xB0) || code == STRUCT || BuiltinStruct(code).Some?
    requires PlainCode(code, r) && Read(code, r).Ok?
    ensures IsCodeReading(code, r, e, Read(code, r).value, Read(code, r).reader)
    decreases |r.rest|, 3
  {
    if code == STRUCT {
      var st := WideStructParts(r);
      var width := CountRead(r);
      var index, r1 := ReadInt32(r).value, ReadInt32(r).reader;
      HandleParts(r1, st.tag, st.fields);
      var es, vs := ObjectsInverse(r1, st.fields, []);
      assert [] + vs == vs;
      e := EStruct(WideRef(width), index, es);
      WideStructCase(r, width, index, r1, es, vs, ReadObjects(r1, st.fields, []).reader);
    } else {
      var st := CodedStructParts(code, r);
      HandleParts(r, st.tag, st.fields);
      var es, vs := ObjectsInverse(r, st.fields, []);
      assert [] + vs == vs;
      e := CodedStructCase(code, r, st, es, vs, ReadObjects(r, st.fields, []).reader);
    }
  }

  lemma {:induction false} StructTypeInverse(r: Reader) returns (e: Enc)
    requires PlainStructType(r) && ReadStructType(r).Ok?
    ensures IsCodeReading(STRUCTTYPE, r, e, ReadStructType(r).value, ReadStructType(r).reader)
    decreases |r.rest|, 3
  {
    var t := Inverse(r);
    var tag, r1 := ReadObject(r).value, ReadObject(r).reader;
    var n, r2 := ReadInt32(r1).value, ReadInt32(r1).reader;
    var width := CountRead(r1);
    var r3 := r2.(structs := r2.structs + [StructType(tag, n)]);
    var es, vs := ObjectsInverse(r3, n, []);
    assert [] + vs == vs;
    e := EStructType(t, width, es);
    StructTypeCase(r, t, tag, r1, width, r2, es, vs, ReadStructType(r).reader);
  }
}
