/** Reading an encoding gives back the value it stands for, takes exactly its bytes, and leaves the
    caches as the encoding says, for every value and every way of encoding it. */
module FressianRoundTrip {
  import opened Wrappers
  import opened Fressian
  import opened FressianBytes

  // ---- The bytes of an encoding ----

  function Num(width: nat, n: int): seq<byte> {
    if IntFits(width, n) then IntBytes(width, n) else []
  }

  function Short(start: byte, n: nat, limit: byte): seq<byte>
    requires start + limit <= 256
  {
    if n < limit then [start + n] else []
  }

  function Sized(c: Chunk): seq<byte> {
    Num(c.width, |c.data|) + c.data
  }

  function ChunkBytes(code: byte, chunks: seq<Chunk>): seq<byte> {
    if chunks == [] then [] else [code] + Sized(chunks[0]) + ChunkBytes(code, chunks[1..])
  }

  function Encode(e: Enc): seq<byte> {
    match e
    case ENull => [NULL]
    case EBool(b) => [if b then TRUE else FALSE]
    case EInt(width, n) => Num(width, n)
    case EFloat(bits) => [FLOAT] + bits
    case EDouble(bits) => [DOUBLE] + bits
    case EDouble0 => [DOUBLE_0]
    case EDouble1 => [DOUBLE_1]
    case EBytesPacked(data) => Short(BYTES_PACKED_LENGTH_START, |data|, 8) + data
    case EBytes(chunks, last) => ChunkBytes(BYTES_CHUNK, chunks) + [BYTES] + Sized(last)
    case EStrPacked(chunks, data) =>
      ChunkBytes(STRING_CHUNK, chunks) + Short(STRING_PACKED_LENGTH_START, |data|, 8) + data
    case EStr(chunks, last) => ChunkBytes(STRING_CHUNK, chunks) + [STRING] + Sized(last)
    case EList(form, items) => ListHead(form, |items|) + EncodeAll(items) + ListTail(form)
    case ECached(body) => [PUT_PRIORITY_CACHE] + Encode(body)
    case ERef(ref, index) => RefBytes(ref, PRIORITY_CACHE_PACKED_START, 32, GET_PRIORITY_CACHE, index)
    case EStructType(tag, width, fields) => [STRUCTTYPE] + Encode(tag) + Num(width, |fields|) + EncodeAll(fields)
    case EStruct(ref, index, fields) => RefBytes(ref, STRUCT_CACHE_PACKED_START, 16, STRUCT, index) + EncodeAll(fields)
    case EBuiltin(kind, fields) => [WireOf(kind).code] + EncodeAll(fields)
    case EReset(next) => [RESET_CACHES] + Encode(next)
  }

  function EncodeAll(es: seq<Enc>): seq<byte> {
    if es == [] then [] else Encode(es[0]) + EncodeAll(es[1..])
  }

  function ListHead(form: ListForm, n: nat): seq<byte> {
    match form
    case Packed => Short(LIST_PACKED_LENGTH_START, n, 8)
    case Counted(width) => [LIST] + Num(width, n)
    case Closed => [BEGIN_CLOSED_LIST]
    case Open => [BEGIN_OPEN_LIST]
  }

  function ListTail(form: ListForm): seq<byte> {
    if form.Closed? || form.Open? then [END_COLLECTION] else []
  }

  function RefBytes(ref: RefForm, start: byte, limit: byte, code: byte, index: nat): seq<byte>
    requires start + limit <= 256
  {
    match ref
    case PackedRef => Short(start, index, limit)
    case WideRef(width) => [code] + Num(width, index)
  }

  /** The codes, as the bytes that they are. */
  lemma Codes(e: Enc)
    ensures
      match e
      case ENull => Encode(e) == [0xF7]
      case EBool(b) => Encode(e) == [if b then 0xF5 else 0xF6]
      case EInt(width, n) => IntFits(8, n) && width == 8 ==> Encode(e) == [0xF8] + LowBytes(n, 8)
      case EFloat(bits) => Encode(e) == [0xF9] + bits
      case EDouble(bits) => Encode(e) == [0xFA] + bits
      case EDouble0 => Encode(e) == [0xFB]
      case EDouble1 => Encode(e) == [0xFC]
      case EBytesPacked(data) => |data| < 8 ==> Encode(e) == [0xD0 + |data|] + data
      case EBytes(chunks, last) => Encode(e) == ChunkBytes(0xD8, chunks) + [0xD9] + Sized(last)
      case EStrPacked(chunks, data) =>
        |data| < 8 ==> Encode(e) == ChunkBytes(0xE2, chunks) + [0xDA + |data|] + data
      case EStr(chunks, last) => Encode(e) == ChunkBytes(0xE2, chunks) + [0xE3] + Sized(last)
      case EList(form, items) =>
        (match form
         case Packed => |items| < 8 ==> Encode(e) == [0xE4 + |items|] + EncodeAll(items)
         case Counted(width) => Encode(e) == [0xEC] + Num(width, |items|) + EncodeAll(items)
         case Closed => Encode(e) == [0xED] + EncodeAll(items) + [0xFD]
         case Open => Encode(e) == [0xEE] + EncodeAll(items) + [0xFD])
      case ECached(body) => Encode(e) == [0xCD] + Encode(body)
      case ERef(ref, index) =>
        (match ref
         case PackedRef => index < 32 ==> Encode(e) == [0x80 + index]
         case WideRef(width) => Encode(e) == [0xCC] + Num(width, index))
      case EStructType(tag, width, fields) =>
        Encode(e) == [0xEF] + Encode(tag) + Num(width, |fields|) + EncodeAll(fields)
      case EStruct(ref, index, fields) =>
        (match ref
         case PackedRef => index < 16 ==> Encode(e) == [0xA0 + index] + EncodeAll(fields)
         case WideRef(width) => Encode(e) == [0xF0] + Num(width, index) + EncodeAll(fields))
      case EBuiltin(kind, fields) => Encode(e) == [WireOf(kind).code] + EncodeAll(fields)
      case EReset(next) => Encode(e) == [0xFE] + Encode(next)
  {
  }

  // ---- What an encoding means ----

  predicate CountFits(width: nat, n: nat) {
    IntFits(width, n) && n < 0x8000_0000
  }

  predicate ChunksFit(chunks: seq<Chunk>) {
    forall c :: c in chunks ==> CountFits(c.width, |c.data|)
  }

  function Joined(chunks: seq<Chunk>): seq<byte> {
    if chunks == [] then [] else chunks[0].data + Joined(chunks[1..])
  }

  predicate FormFits(form: ListForm, n: nat) {
    match form
    case Packed => n < 8
    case Counted(width) => CountFits(width, n)
    case _ => true
  }

  predicate RefFits(ref: RefForm, limit: byte, index: nat) {
    match ref
    case PackedRef => index < limit
    case WideRef(width) => CountFits(width, index)
  }

  /** A reset of the caches somewhere in an encoding. */
  predicate Resets(e: Enc) {
    match e
    case EList(_, items) => AnyResets(items)
    case ECached(body) => Resets(body)
    case EStructType(tag, _, fields) => Resets(tag) || AnyResets(fields)
    case EStruct(_, _, fields) => AnyResets(fields)
    case EBuiltin(_, fields) => AnyResets(fields)
    case EReset(_) => true
    case _ => false
  }

  predicate AnyResets(es: seq<Enc>) {
    es != [] && (Resets(es[0]) || AnyResets(es[1..]))
  }

  /** The value an encoding stands for after `c`, and the caches after it; nothing if a writer could
      not have produced it. A cached object has the first free place, and must not refer to itself; if the
      caches are reset before it is complete, they must have grown past that place again, and it fills it. Tags with
      a handler are not covered. */
  function Meaning(e: Enc, c: Caches, h: Config): (m: Option<(Value, Caches)>)
    ensures m.Some? && !Resets(e) ==> |c.priority| <= |m.value.1.priority|
    decreases e
  {
    match e
    case ENull => Some((Null, c))
    case EBool(b) => Some((Bool(b), c))
    case EInt(width, n) => if IntFits(width, n) then Some((Int(n), c)) else None
    case EFloat(bits) => if |bits| == 4 then Some((Float(bits), c)) else None
    case EDouble(bits) => if |bits| == 8 then Some((Double(bits), c)) else None
    case EDouble0 => Some((Double(ZERO_BITS), c))
    case EDouble1 => Some((Double(ONE_BITS), c))
    case EBytesPacked(data) => if |data| < 8 then Some((Bytes(data), c)) else None
    case EBytes(chunks, last) =>
      if ChunksFit(chunks + [last]) then Some((Bytes(Joined(chunks) + last.data), c)) else None
    case EStrPacked(chunks, data) =>
      if ChunksFit(chunks) && |data| < 8 then Some((Str(Joined(chunks) + data), c)) else None
    case EStr(chunks, last) =>
      if ChunksFit(chunks + [last]) then Some((Str(Joined(chunks) + last.data), c)) else None
    case EList(form, items) =>
      if !FormFits(form, |items|) then None
      else
        (match MeaningAll(items, c, h)
         case Some((vs, c1)) => Some((List(vs), c1))
         case None => None)
    case ECached(body) =>
      (match Meaning(body, c.(priority := c.priority + [UnderConstruction]), h)
       case None => None
       case Some((v, c1)) =>
         if |c.priority| < |c1.priority| then Some((v, c1.(priority := c1.priority[|c.priority| := Cached(v)])))
         else None)
    case ERef(ref, index) =>
      if RefFits(ref, 32, index) && index < |c.priority| && c.priority[index].Cached?
      then Some((c.priority[index].value, c)) else None
    case EStructType(tag, width, fields) =>
      if !CountFits(width, |fields|) then None
      else
        (match Meaning(tag, c, h)
         case None => None
         case Some((t, c1)) => Struct(t, fields, c1.(structs := c1.structs + [StructType(t, |fields|)]), h))
    case EStruct(ref, index, fields) =>
      if RefFits(ref, 16, index) && index < |c.structs| && c.structs[index].fields == |fields|
      then Struct(c.structs[index].tag, fields, c, h) else None
    case EBuiltin(kind, fields) =>
      if WireOf(kind).fields == |fields| then Struct(Str(WireOf(kind).tag), fields, c, h) else None
    case EReset(next) => Meaning(next, NO_CACHES, h)
  }

  function Struct(tag: Value, fields: seq<Enc>, c: Caches, h: Config): (m: Option<(Value, Caches)>)
    ensures m.Some? && !AnyResets(fields) ==> |c.priority| <= |m.value.1.priority|
    decreases fields, 1
  {
    if tag in h.handlers then None
    else
      match MeaningAll(fields, c, h)
      case Some((vs, c1)) => Some((Tagged(tag, vs), c1))
      case None => None
  }

  function MeaningAll(es: seq<Enc>, c: Caches, h: Config): (m: Option<(seq<Value>, Caches)>)
    ensures m.Some? && !AnyResets(es) ==> |c.priority| <= |m.value.1.priority|
    ensures m.Some? ==> |m.value.0| == |es|
    decreases es, 0
  {
    if es == [] then Some(([], c))
    else
      match Meaning(es[0], c, h)
      case None => None
      case Some((v, c1)) =>
        match MeaningAll(es[1..], c1, h)
        case Some((vs, c2)) => Some(([v] + vs, c2))
        case None => None
  }

  // ---- What bytes are read as, whatever follows them and however much was read before ----

  ghost predicate Denotes(bs: seq<byte>, c: Caches, h: Config, v: Value, c': Caches) {
    forall tail: seq<byte>, n: nat :: ReadObject(At(bs + tail, n, c, h)) == Ok(v, At(tail, n + |bs|, c', h))
  }

  ghost predicate Counts(num: seq<byte>, k: nat) {
    forall tail: seq<byte>, n: nat, c: Caches, h: Config ::
      ReadInt32(At(num + tail, n, c, h)) == Ok(k, At(tail, n + |num|, c, h))
  }

  ghost predicate Holds(size: seq<byte>, data: seq<byte>) {
    forall tail: seq<byte>, n: nat, c: Caches, h: Config ::
      ReadCounted(At(size + tail, n, c, h)) == Ok(data, At(tail, n + |size|, c, h))
  }

  /** Elements one after the other, read by each of the three kinds of list. */
  ghost predicate DenotesAll(bs: seq<byte>, k: nat, c: Caches, h: Config, vs: seq<Value>, c': Caches) {
    forall tail: seq<byte>, n: nat, acc: seq<Value> ::
      var r, r' := At(bs + tail, n, c, h), At(tail, n + |bs|, c', h);
      && ReadObjects(r, k, acc) == Ok(acc + vs, r')
      && ReadClosedList(r, acc) == ReadClosedList(r', acc + vs)
      && ReadOpenList(r, acc) == ReadOpenList(r', acc + vs)
  }

  // ---- Sequences ----

  lemma Join3<T>(a: seq<T>, b: seq<T>, c: seq<T>)
    ensures a + b + c == a + (b + c)
  {
  }

  lemma Join4<T>(a: seq<T>, b: seq<T>, c: seq<T>, d: seq<T>)
    ensures a + b + c + d == a + (b + (c + d))
  {
  }

  // ---- Numbers and counted data ----

  /** The first byte is the code; the object is read from what follows it. */
  lemma First(code: byte, tail: seq<byte>, n: nat, c: Caches, h: Config)
    ensures ReadObject(At([code] + tail, n, c, h)) == Read(code, At(tail, n + 1, c, h))
    ensures Next(At([code] + tail, n, c, h)) == At(tail, n + 1, c, h)
  {
    assert ([code] + tail)[1..] == tail;
  }

  lemma Raw(bs: seq<byte>, tail: seq<byte>, n: nat, c: Caches, h: Config)
    ensures ReadRaw(At(bs + tail, n, c, h), |bs|) == Ok(bs, At(tail, n + |bs|, c, h))
  {
    ReadRawPrefix(At(bs + tail, n, c, h), bs, tail);
  }

  lemma NumRead(width: nat, k: int, tail: seq<byte>, n: nat, c: Caches, h: Config)
    requires IntFits(width, k)
    ensures var r := At(Num(width, k) + tail, n, c, h);
            ReadInt(r) == Ok(k, At(tail, n + |Num(width, k)|, c, h))
            && ReadObject(r) == Ok(Int(k), At(tail, n + |Num(width, k)|, c, h))
  {
    var r := At(Num(width, k) + tail, n, c, h);
    IntRoundTrip(r, width, k, tail);
    NextPrefix(r, Num(width, k), tail);
    SwitchesAgree(Num(width, k)[0], Next(r));
  }

  lemma NumDenotes(width: nat, k: int, c: Caches, h: Config)
    requires IntFits(width, k)
    ensures Denotes(Num(width, k), c, h, Int(k), c)
  {
    forall tail: seq<byte>, n: nat
      ensures ReadObject(At(Num(width, k) + tail, n, c, h)) == Ok(Int(k), At(tail, n + |Num(width, k)|, c, h))
    {
      NumRead(width, k, tail, n, c, h);
    }
  }

  lemma NumCounts(width: nat, k: nat)
    requires CountFits(width, k)
    ensures Counts(Num(width, k), k)
  {
    forall tail: seq<byte>, n: nat, c: Caches, h: Config
      ensures ReadInt32(At(Num(width, k) + tail, n, c, h)) == Ok(k, At(tail, n + |Num(width, k)|, c, h))
    {
      NumRead(width, k, tail, n, c, h);
    }
  }

  lemma CountedHolds(num: seq<byte>, data: seq<byte>)
    requires Counts(num, |data|)
    ensures Holds(num + data, data)
  {
    forall tail: seq<byte>, n: nat, c: Caches, h: Config
      ensures ReadCounted(At(num + data + tail, n, c, h)) == Ok(data, At(tail, n + |num + data|, c, h))
    {
      Join3(num, data, tail);
      Raw(data, tail, n + |num|, c, h);
    }
  }

  // ---- Chunks ----

  // Chunks are read from the code of the next one on.

  function ByteChunksAt(r: Reader, acc: seq<byte>): Result<seq<byte>> {
    if r.rest == [] then Err(Eof) else ReadByteChunks(r.rest[0], Next(r), acc)
  }

  function StringChunksAt(r: Reader, acc: seq<byte>): Result<seq<byte>> {
    if r.rest == [] then Err(Eof) else ReadStringChunks(r.rest[0], Next(r), acc)
  }

  type ChunkReader = (Reader, seq<byte>) -> Result<seq<byte>>

  /** Reading `bs` gathers `data` and goes on. */
  ghost predicate Gathers(f: ChunkReader, bs: seq<byte>, data: seq<byte>, c: Caches, h: Config) {
    forall tail: seq<byte>, n: nat, acc: seq<byte> ::
      f(At(bs + tail, n, c, h), acc) == f(At(tail, n + |bs|, c, h), acc + data)
  }

  /** Reading `bs` gathers `data` and ends. */
  ghost predicate Ends(f: ChunkReader, bs: seq<byte>, data: seq<byte>, c: Caches, h: Config) {
    forall tail: seq<byte>, n: nat, acc: seq<byte> ::
      f(At(bs + tail, n, c, h), acc) == Ok(acc + data, At(tail, n + |bs|, c, h))
  }

  lemma GathersNothing(f: ChunkReader, c: Caches, h: Config)
    ensures Gathers(f, [], [], c, h)
  {
    forall tail: seq<byte>, n: nat, acc: seq<byte>
      ensures f(At([] + tail, n, c, h), acc) == f(At(tail, n + 0, c, h), acc + [])
    {
      assert [] + tail == tail && acc + [] == acc;
    }
  }

  lemma GathersBoth(f: ChunkReader, a: seq<byte>, x: seq<byte>, b: seq<byte>, y: seq<byte>, c: Caches, h: Config)
    requires Gathers(f, a, x, c, h) && Gathers(f, b, y, c, h)
    ensures Gathers(f, a + b, x + y, c, h)
  {
    forall tail: seq<byte>, n: nat, acc: seq<byte>
      ensures f(At(a + b + tail, n, c, h), acc) == f(At(tail, n + |a + b|, c, h), acc + (x + y))
    {
      Join3(a, b, tail);
      Join3(acc, x, y);
      assert f(At(a + (b + tail), n, c, h), acc) == f(At(b + tail, n + |a|, c, h), acc + x);
    }
  }

  lemma GathersThenEnds(f: ChunkReader, a: seq<byte>, x: seq<byte>, b: seq<byte>, y: seq<byte>, c: Caches, h: Config)
    requires Gathers(f, a, x, c, h) && Ends(f, b, y, c, h)
    ensures Ends(f, a + b, x + y, c, h)
  {
    forall tail: seq<byte>, n: nat, acc: seq<byte>
      ensures f(At(a + b + tail, n, c, h), acc) == Ok(acc + (x + y), At(tail, n + |a + b|, c, h))
    {
      Join3(a, b, tail);
      Join3(acc, x, y);
      assert f(At(a + (b + tail), n, c, h), acc) == f(At(b + tail, n + |a|, c, h), acc + x);
    }
  }

  lemma ByteChunk(size: seq<byte>, data: seq<byte>, c: Caches, h: Config)
    requires Holds(size, data)
    ensures Gathers(ByteChunksAt, [BYTES_CHUNK] + size, data, c, h) && Ends(ByteChunksAt, [BYTES] + size, data, c, h)
  {
    forall tail: seq<byte>, n: nat, acc: seq<byte>
      ensures ByteChunksAt(At([BYTES_CHUNK] + size + tail, n, c, h), acc)
           == ByteChunksAt(At(tail, n + |[BYTES_CHUNK] + size|, c, h), acc + data)
    {
      Join3([BYTES_CHUNK], size, tail);
      First(BYTES_CHUNK, size + tail, n, c, h);
    }
    forall tail: seq<byte>, n: nat, acc: seq<byte>
      ensures ByteChunksAt(At([BYTES] + size + tail, n, c, h), acc)
           == Ok(acc + data, At(tail, n + |[BYTES] + size|, c, h))
    {
      Join3([BYTES], size, tail);
      First(BYTES, size + tail, n, c, h);
    }
  }

  lemma StringChunk(size: seq<byte>, data: seq<byte>, c: Caches, h: Config)
    requires Holds(size, data)
    ensures Gathers(StringChunksAt, [STRING_CHUNK] + size, data, c, h)
            && Ends(StringChunksAt, [STRING] + size, data, c, h)
  {
    forall tail: seq<byte>, n: nat, acc: seq<byte>
      ensures StringChunksAt(At([STRING_CHUNK] + size + tail, n, c, h), acc)
           == StringChunksAt(At(tail, n + |[STRING_CHUNK] + size|, c, h), acc + data)
    {
      Join3([STRING_CHUNK], size, tail);
      First(STRING_CHUNK, size + tail, n, c, h);
    }
    forall tail: seq<byte>, n: nat, acc: seq<byte>
      ensures StringChunksAt(At([STRING] + size + tail, n, c, h), acc)
           == Ok(acc + data, At(tail, n + |[STRING] + size|, c, h))
    {
      Join3([STRING], size, tail);
      First(STRING, size + tail, n, c, h);
    }
  }

  lemma StringChunkPacked(data: seq<byte>, c: Caches, h: Config)
    requires |data| < 8
    ensures Ends(StringChunksAt, [STRING_PACKED_LENGTH_START + |data|] + data, data, c, h)
  {
    var code := STRING_PACKED_LENGTH_START + |data|;
    forall tail: seq<byte>, n: nat, acc: seq<byte>
      ensures StringChunksAt(At([code] + data + tail, n, c, h), acc)
           == Ok(acc + data, At(tail, n + |[code] + data|, c, h))
    {
      Join3([code], data, tail);
      First(code, data + tail, n, c, h);
      Raw(data, tail, n + 1, c, h);
    }
  }

  lemma SizedHolds(ch: Chunk)
    requires CountFits(ch.width, |ch.data|)
    ensures Holds(Sized(ch), ch.data)
  {
    NumCounts(ch.width, |ch.data|);
    CountedHolds(Num(ch.width, |ch.data|), ch.data);
  }

  lemma {:induction false} ByteChunksGather(chunks: seq<Chunk>, c: Caches, h: Config)
    requires ChunksFit(chunks)
    ensures Gathers(ByteChunksAt, ChunkBytes(BYTES_CHUNK, chunks), Joined(chunks), c, h)
    decreases |chunks|
  {
    if chunks == [] {
      GathersNothing(ByteChunksAt, c, h);
    } else {
      var size, data := Sized(chunks[0]), chunks[0].data;
      SizedHolds(chunks[0]);
      ByteChunk(size, data, c, h);
      ByteChunksGather(chunks[1..], c, h);
      GathersBoth(ByteChunksAt, [BYTES_CHUNK] + size, data, ChunkBytes(BYTES_CHUNK, chunks[1..]), Joined(chunks[1..]),
                  c, h);
    }
  }

  lemma {:induction false} StringChunksGather(chunks: seq<Chunk>, c: Caches, h: Config)
    requires ChunksFit(chunks)
    ensures Gathers(StringChunksAt, ChunkBytes(STRING_CHUNK, chunks), Joined(chunks), c, h)
    decreases |chunks|
  {
    if chunks == [] {
      GathersNothing(StringChunksAt, c, h);
    } else {
      var size, data := Sized(chunks[0]), chunks[0].data;
      SizedHolds(chunks[0]);
      StringChunk(size, data, c, h);
      StringChunksGather(chunks[1..], c, h);
      GathersBoth(StringChunksAt, [STRING_CHUNK] + size, data, ChunkBytes(STRING_CHUNK, chunks[1..]),
                  Joined(chunks[1..]), c, h);
    }
  }

  lemma BytesCode(code: byte, r: Reader, data: seq<byte>, r': Reader)
    requires (code == BYTES || code == BYTES_CHUNK) && ReadByteChunks(code, r, []) == Ok(data, r')
    ensures Read(code, r) == Ok(Bytes(data), r')
  {
  }

  lemma BytesObject(r: Reader, data: seq<byte>, r': Reader)
    requires r.rest != [] && (r.rest[0] == BYTES || r.rest[0] == BYTES_CHUNK) && ByteChunksAt(r, []) == Ok(data, r')
    ensures ReadObject(r) == Ok(Bytes(data), r')
  {
    BytesCode(r.rest[0], Next(r), data, r');
  }

  lemma StringCode(code: byte, r: Reader, data: seq<byte>, r': Reader)
    requires STRING_PACKED_LENGTH_START <= code <= STRING && ReadStringChunks(code, r, []) == Ok(data, r')
    ensures Read(code, r) == Ok(Str(data), r')
  {
  }

  lemma StringObject(r: Reader, data: seq<byte>, r': Reader)
    requires r.rest != [] && STRING_PACKED_LENGTH_START <= r.rest[0] <= STRING && StringChunksAt(r, []) == Ok(data, r')
    ensures ReadObject(r) == Ok(Str(data), r')
  {
    StringCode(r.rest[0], Next(r), data, r');
  }

  lemma BytesDenote(bs: seq<byte>, data: seq<byte>, c: Caches, h: Config)
    requires bs != [] && (bs[0] == BYTES || bs[0] == BYTES_CHUNK) && Ends(ByteChunksAt, bs, data, c, h)
    ensures Denotes(bs, c, h, Bytes(data), c)
  {
    forall tail: seq<byte>, n: nat
      ensures ReadObject(At(bs + tail, n, c, h)) == Ok(Bytes(data), At(tail, n + |bs|, c, h))
    {
      assert ByteChunksAt(At(bs + tail, n, c, h), []) == Ok([] + data, At(tail, n + |bs|, c, h));
      assert [] + data == data;
      BytesObject(At(bs + tail, n, c, h), data, At(tail, n + |bs|, c, h));
    }
  }

  lemma StringDenotes(bs: seq<byte>, data: seq<byte>, c: Caches, h: Config)
    requires bs != [] && STRING_PACKED_LENGTH_START <= bs[0] <= STRING && Ends(StringChunksAt, bs, data, c, h)
    ensures Denotes(bs, c, h, Str(data), c)
  {
    forall tail: seq<byte>, n: nat
      ensures ReadObject(At(bs + tail, n, c, h)) == Ok(Str(data), At(tail, n + |bs|, c, h))
    {
      assert StringChunksAt(At(bs + tail, n, c, h), []) == Ok([] + data, At(tail, n + |bs|, c, h));
      assert [] + data == data;
      StringObject(At(bs + tail, n, c, h), data, At(tail, n + |bs|, c, h));
    }
  }

  lemma ChunkFirst(code: byte, chunks: seq<Chunk>, last: byte, size: seq<byte>)
    ensures var bs := ChunkBytes(code, chunks) + ([last] + size);
            bs != [] && bs[0] == if chunks == [] then last else code
  {
  }

  lemma BytesBack(chunks: seq<Chunk>, last: Chunk, c: Caches, h: Config)
    requires ChunksFit(chunks) && CountFits(last.width, |last.data|)
    ensures Denotes(ChunkBytes(BYTES_CHUNK, chunks) + [BYTES] + Sized(last), c, h, Bytes(Joined(chunks) + last.data), c)
  {
    var before, size := ChunkBytes(BYTES_CHUNK, chunks), Sized(last);
    SizedHolds(last);
    ByteChunk(size, last.data, c, h);
    ByteChunksGather(chunks, c, h);
    GathersThenEnds(ByteChunksAt, before, Joined(chunks), [BYTES] + size, last.data, c, h);
    ChunkFirst(BYTES_CHUNK, chunks, BYTES, size);
    Join3(before, [BYTES], size);
    BytesDenote(before + ([BYTES] + size), Joined(chunks) + last.data, c, h);
  }

  lemma StringBack(chunks: seq<Chunk>, last: Chunk, c: Caches, h: Config)
    requires ChunksFit(chunks) && CountFits(last.width, |last.data|)
    ensures Denotes(ChunkBytes(STRING_CHUNK, chunks) + [STRING] + Sized(last), c, h, Str(Joined(chunks) + last.data), c)
  {
    var before, size := ChunkBytes(STRING_CHUNK, chunks), Sized(last);
    SizedHolds(last);
    StringChunk(size, last.data, c, h);
    StringChunksGather(chunks, c, h);
    GathersThenEnds(StringChunksAt, before, Joined(chunks), [STRING] + size, last.data, c, h);
    ChunkFirst(STRING_CHUNK, chunks, STRING, size);
    Join3(before, [STRING], size);
    StringDenotes(before + ([STRING] + size), Joined(chunks) + last.data, c, h);
  }

  lemma StringPackedBack(chunks: seq<Chunk>, data: seq<byte>, c: Caches, h: Config)
    requires ChunksFit(chunks) && |data| < 8
    ensures Denotes(ChunkBytes(STRING_CHUNK, chunks) + [STRING_PACKED_LENGTH_START + |data|] + data, c, h,
                    Str(Joined(chunks) + data), c)
  {
    var before, code := ChunkBytes(STRING_CHUNK, chunks), STRING_PACKED_LENGTH_START + |data|;
    StringChunkPacked(data, c, h);
    StringChunksGather(chunks, c, h);
    GathersThenEnds(StringChunksAt, before, Joined(chunks), [code] + data, data, c, h);
    ChunkFirst(STRING_CHUNK, chunks, code, data);
    Join3(before, [code], data);
    StringDenotes(before + ([code] + data), Joined(chunks) + data, c, h);
  }

  // ---- One code, alone or with a fixed number of bytes ----

  lemma ConstantBack(code: byte, v: Value, c: Caches, h: Config)
    requires (code == NULL && v == Null) || (code == TRUE && v == Bool(true)) || (code == FALSE && v == Bool(false))
             || (code == DOUBLE_0 && v == Double(ZERO_BITS)) || (code == DOUBLE_1 && v == Double(ONE_BITS))
    ensures Denotes([code], c, h, v, c)
  {
    forall tail: seq<byte>, n: nat ensures ReadObject(At([code] + tail, n, c, h)) == Ok(v, At(tail, n + 1, c, h)) {
      First(code, tail, n, c, h);
    }
  }

  lemma FixedBack(code: byte, bits: seq<byte>, v: Value, c: Caches, h: Config)
    requires (code == FLOAT && |bits| == 4 && v == Float(bits)) || (code == DOUBLE && |bits| == 8 && v == Double(bits))
             || (|bits| < 8 && code == BYTES_PACKED_LENGTH_START + |bits| && v == Bytes(bits))
    ensures Denotes([code] + bits, c, h, v, c)
  {
    forall tail: seq<byte>, n: nat
      ensures ReadObject(At([code] + bits + tail, n, c, h)) == Ok(v, At(tail, n + |[code] + bits|, c, h))
    {
      Join3([code], bits, tail);
      First(code, bits + tail, n, c, h);
      Raw(bits, tail, n + 1, c, h);
    }
  }

  lemma PackedRefBack(index: nat, v: Value, c: Caches, h: Config)
    requires index < 32 && index < |c.priority| && c.priority[index] == Cached(v)
    ensures Denotes([PRIORITY_CACHE_PACKED_START + index], c, h, v, c)
  {
    var code := PRIORITY_CACHE_PACKED_START + index;
    forall tail: seq<byte>, n: nat ensures ReadObject(At([code] + tail, n, c, h)) == Ok(v, At(tail, n + 1, c, h)) {
      First(code, tail, n, c, h);
    }
  }

  lemma WideRefBack(num: seq<byte>, index: nat, v: Value, c: Caches, h: Config)
    requires Counts(num, index) && index < |c.priority| && c.priority[index] == Cached(v)
    ensures Denotes([GET_PRIORITY_CACHE] + num, c, h, v, c)
  {
    forall tail: seq<byte>, n: nat
      ensures ReadObject(At([GET_PRIORITY_CACHE] + num + tail, n, c, h))
           == Ok(v, At(tail, n + |[GET_PRIORITY_CACHE] + num|, c, h))
    {
      Join3([GET_PRIORITY_CACHE], num, tail);
      First(GET_PRIORITY_CACHE, num + tail, n, c, h);
    }
  }

  lemma CachedBack(body: seq<byte>, v: Value, c: Caches, c1: Caches, h: Config)
    requires |c.priority| < |c1.priority|
    requires Denotes(body, c.(priority := c.priority + [UnderConstruction]), h, v, c1)
    ensures Denotes([PUT_PRIORITY_CACHE] + body, c, h, v, c1.(priority := c1.priority[|c.priority| := Cached(v)]))
  {
    var c' := c1.(priority := c1.priority[|c.priority| := Cached(v)]);
    forall tail: seq<byte>, n: nat
      ensures ReadObject(At([PUT_PRIORITY_CACHE] + body + tail, n, c, h))
           == Ok(v, At(tail, n + |[PUT_PRIORITY_CACHE] + body|, c', h))
    {
      Join3([PUT_PRIORITY_CACHE], body, tail);
      First(PUT_PRIORITY_CACHE, body + tail, n, c, h);
      var inside := c.(priority := c.priority + [UnderConstruction]);
      assert ReadObject(At(body + tail, n + 1, inside, h)) == Ok(v, At(tail, n + 1 + |body|, c1, h));
    }
  }

  lemma ResetBack(body: seq<byte>, v: Value, c: Caches, c': Caches, h: Config)
    requires Denotes(body, NO_CACHES, h, v, c')
    ensures Denotes([RESET_CACHES] + body, c, h, v, c')
  {
    forall tail: seq<byte>, n: nat
      ensures ReadObject(At([RESET_CACHES] + body + tail, n, c, h))
           == Ok(v, At(tail, n + |[RESET_CACHES] + body|, c', h))
    {
      Join3([RESET_CACHES], body, tail);
      First(RESET_CACHES, body + tail, n, c, h);
      assert ReadObject(At(body + tail, n + 1, NO_CACHES, h)) == Ok(v, At(tail, n + 1 + |body|, c', h));
    }
  }

  // ---- Lists ----

  /** No object starts with the end of a collection, so an element that was read goes into the list. */
  lemma ListStep(r: Reader, v: Value, r1: Reader, acc: seq<Value>, k: nat)
    requires ReadObject(r) == Ok(v, r1)
    ensures ReadObjects(r, k + 1, acc) == ReadObjects(r1, k, acc + [v])
    ensures ReadClosedList(r, acc) == ReadClosedList(r1, acc + [v])
    ensures ReadOpenList(r, acc) == ReadOpenList(r1, acc + [v])
  {
  }

  lemma NoElements(c: Caches, h: Config)
    ensures DenotesAll([], 0, c, h, [], c)
  {
    forall tail: seq<byte>, n: nat, acc: seq<Value>
      ensures At([] + tail, n, c, h) == At(tail, n + 0, c, h) && acc + [] == acc
    {
    }
  }

  lemma OneMore(one: seq<byte>, v: Value, more: seq<byte>, k: nat, vs: seq<Value>, c: Caches, c1: Caches, c': Caches,
                h: Config)
    requires Denotes(one, c, h, v, c1) && DenotesAll(more, k, c1, h, vs, c')
    ensures DenotesAll(one + more, k + 1, c, h, [v] + vs, c')
  {
    forall tail: seq<byte>, n: nat, acc: seq<Value>
      ensures
        var r, r' := At(one + more + tail, n, c, h), At(tail, n + |one + more|, c', h);
        && ReadObjects(r, k + 1, acc) == Ok(acc + ([v] + vs), r')
        && ReadClosedList(r, acc) == ReadClosedList(r', acc + ([v] + vs))
        && ReadOpenList(r, acc) == ReadOpenList(r', acc + ([v] + vs))
    {
      Join3(one, more, tail);
      Join3(acc, [v], vs);
      ListStep(At(one + (more + tail), n, c, h), v, At(more + tail, n + |one|, c1, h), acc, k);
    }
  }

  lemma ListRead(r: Reader, k: nat, vs: seq<Value>, r1: Reader)
    requires ReadObjects(r, k, []) == Ok(vs, r1)
    ensures ReadList(r, k) == Ok(List(vs), r1)
  {
  }

  lemma PackedListBack(body: seq<byte>, k: nat, vs: seq<Value>, c: Caches, c': Caches, h: Config)
    requires k < 8 && DenotesAll(body, k, c, h, vs, c')
    ensures Denotes([LIST_PACKED_LENGTH_START + k] + body, c, h, List(vs), c')
  {
    var code := LIST_PACKED_LENGTH_START + k;
    forall tail: seq<byte>, n: nat
      ensures ReadObject(At([code] + body + tail, n, c, h)) == Ok(List(vs), At(tail, n + |[code] + body|, c', h))
    {
      Join3([code], body, tail);
      First(code, body + tail, n, c, h);
      assert ReadObjects(At(body + tail, n + 1, c, h), k, []) == Ok([] + vs, At(tail, n + 1 + |body|, c', h));
      assert [] + vs == vs;
      ListRead(At(body + tail, n + 1, c, h), k, vs, At(tail, n + 1 + |body|, c', h));
    }
  }

  lemma CountedListBack(num: seq<byte>, body: seq<byte>, k: nat, vs: seq<Value>, c: Caches, c': Caches, h: Config)
    requires Counts(num, k) && DenotesAll(body, k, c, h, vs, c')
    ensures Denotes([LIST] + num + body, c, h, List(vs), c')
  {
    forall tail: seq<byte>, n: nat
      ensures ReadObject(At([LIST] + num + body + tail, n, c, h))
           == Ok(List(vs), At(tail, n + |[LIST] + num + body|, c', h))
    {
      Join4([LIST], num, body, tail);
      First(LIST, num + (body + tail), n, c, h);
      var m := n + 1 + |num|;
      assert ReadObjects(At(body + tail, m, c, h), k, []) == Ok([] + vs, At(tail, m + |body|, c', h));
      assert [] + vs == vs;
      ListRead(At(body + tail, m, c, h), k, vs, At(tail, m + |body|, c', h));
    }
  }

  lemma ListEnd(tail: seq<byte>, n: nat, c: Caches, h: Config, acc: seq<Value>)
    ensures ReadClosedList(At([END_COLLECTION] + tail, n, c, h), acc) == Ok(acc, At(tail, n + 1, c, h))
    ensures ReadOpenList(At([END_COLLECTION] + tail, n, c, h), acc) == Ok(acc, At(tail, n + 1, c, h))
  {
    First(END_COLLECTION, tail, n, c, h);
  }

  lemma ElementsThenEnd(body: seq<byte>, k: nat, vs: seq<Value>, c: Caches, c': Caches, h: Config,
                        tail: seq<byte>, n: nat)
    requires DenotesAll(body, k, c, h, vs, c')
    ensures ReadClosedList(At(body + ([END_COLLECTION] + tail), n, c, h), []) == Ok(vs, At(tail, n + |body| + 1, c', h))
    ensures ReadOpenList(At(body + ([END_COLLECTION] + tail), n, c, h), []) == Ok(vs, At(tail, n + |body| + 1, c', h))
  {
    var end := [END_COLLECTION] + tail;
    ListEnd(tail, n + |body|, c', h, vs);
    assert [] + vs == vs;
    assert ReadClosedList(At(body + end, n, c, h), []) == ReadClosedList(At(end, n + |body|, c', h), [] + vs);
  }

  lemma EndedListCode(code: byte, r: Reader, vs: seq<Value>, r': Reader)
    requires code == BEGIN_CLOSED_LIST || code == BEGIN_OPEN_LIST
    requires ReadClosedList(r, []) == Ok(vs, r') && ReadOpenList(r, []) == Ok(vs, r')
    ensures Read(code, r) == Ok(List(vs), r')
  {
  }

  lemma EndedListRead(code: byte, body: seq<byte>, k: nat, vs: seq<Value>, c: Caches, c': Caches, h: Config,
                      tail: seq<byte>, n: nat)
    requires (code == BEGIN_CLOSED_LIST || code == BEGIN_OPEN_LIST) && DenotesAll(body, k, c, h, vs, c')
    ensures ReadObject(At([code] + (body + ([END_COLLECTION] + tail)), n, c, h))
         == Ok(List(vs), At(tail, n + |body| + 2, c', h))
  {
    var rest := body + ([END_COLLECTION] + tail);
    First(code, rest, n, c, h);
    ElementsThenEnd(body, k, vs, c, c', h, tail, n + 1);
    EndedListCode(code, At(rest, n + 1, c, h), vs, At(tail, n + |body| + 2, c', h));
  }

  lemma EndedListBack(code: byte, body: seq<byte>, k: nat, vs: seq<Value>, c: Caches, c': Caches, h: Config)
    requires (code == BEGIN_CLOSED_LIST || code == BEGIN_OPEN_LIST) && DenotesAll(body, k, c, h, vs, c')
    ensures Denotes([code] + body + [END_COLLECTION], c, h, List(vs), c')
  {
    var bs := [code] + body + [END_COLLECTION];
    forall tail: seq<byte>, n: nat
      ensures ReadObject(At(bs + tail, n, c, h)) == Ok(List(vs), At(tail, n + |bs|, c', h))
    {
      Join4([code], body, [END_COLLECTION], tail);
      EndedListRead(code, body, k, vs, c, c', h, tail, n);
    }
  }

  // ---- Structs ----

  lemma StructRead(r: Reader, tag: Value, k: nat, vs: seq<Value>, r1: Reader)
    requires tag !in r.config.handlers && ReadObjects(r, k, []) == Ok(vs, r1)
    ensures HandleStruct(r, tag, k) == Ok(Tagged(tag, vs), r1)
  {
  }

  lemma FieldsRead(body: seq<byte>, tail: seq<byte>, n: nat, tag: Value, k: nat, vs: seq<Value>, c: Caches,
                   c': Caches, h: Config)
    requires tag !in h.handlers && DenotesAll(body, k, c, h, vs, c')
    ensures HandleStruct(At(body + tail, n, c, h), tag, k) == Ok(Tagged(tag, vs), At(tail, n + |body|, c', h))
  {
    assert ReadObjects(At(body + tail, n, c, h), k, []) == Ok([] + vs, At(tail, n + |body|, c', h));
    assert [] + vs == vs;
    StructRead(At(body + tail, n, c, h), tag, k, vs, At(tail, n + |body|, c', h));
  }

  /** The codes that name their struct themselves: by a place in the cache, or by being its code. */
  lemma CodedStructBack(code: byte, st: StructType, body: seq<byte>, vs: seq<Value>, c: Caches, c': Caches, h: Config)
    requires (STRUCT_CACHE_PACKED_START <= code < 0xB0 && code - STRUCT_CACHE_PACKED_START < |c.structs|
             && st == c.structs[code - STRUCT_CACHE_PACKED_START])
             || BuiltinStruct(code) == Some(st)
    requires st.fields >= 0 && st.tag !in h.handlers && DenotesAll(body, st.fields, c, h, vs, c')
    ensures Denotes([code] + body, c, h, Tagged(st.tag, vs), c')
  {
    forall tail: seq<byte>, n: nat
      ensures ReadObject(At([code] + body + tail, n, c, h))
           == Ok(Tagged(st.tag, vs), At(tail, n + |[code] + body|, c', h))
    {
      Join3([code], body, tail);
      First(code, body + tail, n, c, h);
      FieldsRead(body, tail, n + 1, st.tag, st.fields, vs, c, c', h);
    }
  }

  lemma BuiltinBack(kind: Builtin, body: seq<byte>, vs: seq<Value>, c: Caches, c': Caches, h: Config)
    requires Str(WireOf(kind).tag) !in h.handlers && DenotesAll(body, WireOf(kind).fields, c, h, vs, c')
    ensures Denotes([WireOf(kind).code] + body, c, h, Tagged(Str(WireOf(kind).tag), vs), c')
  {
    BuiltinRead(kind);
    CodedStructBack(WireOf(kind).code, StructType(Str(WireOf(kind).tag), WireOf(kind).fields), body, vs, c, c', h);
  }

  lemma WideStructBack(num: seq<byte>, index: nat, body: seq<byte>, vs: seq<Value>, c: Caches, c': Caches, h: Config)
    requires Counts(num, index) && index < |c.structs|
    requires c.structs[index].fields >= 0 && c.structs[index].tag !in h.handlers
    requires DenotesAll(body, c.structs[index].fields, c, h, vs, c')
    ensures Denotes([STRUCT] + num + body, c, h, Tagged(c.structs[index].tag, vs), c')
  {
    var st := c.structs[index];
    forall tail: seq<byte>, n: nat
      ensures ReadObject(At([STRUCT] + num + body + tail, n, c, h))
           == Ok(Tagged(st.tag, vs), At(tail, n + |[STRUCT] + num + body|, c', h))
    {
      Join4([STRUCT], num, body, tail);
      First(STRUCT, num + (body + tail), n, c, h);
      FieldsRead(body, tail, n + 1 + |num|, st.tag, st.fields, vs, c, c', h);
    }
  }

  lemma StructTypeRead(r: Reader, t: Value, r1: Reader, k: nat, r2: Reader)
    requires ReadObject(r) == Ok(t, r1) && ReadInt32(r1) == Ok(k, r2)
    ensures Read(STRUCTTYPE, r) == HandleStruct(r2.(structs := r2.structs + [StructType(t, k)]), t, k)
  {
  }

  lemma StructTypeBack(tag: seq<byte>, t: Value, num: seq<byte>, k: nat, body: seq<byte>, vs: seq<Value>, c: Caches,
                       c1: Caches, c2: Caches, c': Caches, h: Config)
    requires Denotes(tag, c, h, t, c1) && Counts(num, k) && c2 == c1.(structs := c1.structs + [StructType(t, k)])
    requires t !in h.handlers && DenotesAll(body, k, c2, h, vs, c')
    ensures Denotes([STRUCTTYPE] + tag + num + body, c, h, Tagged(t, vs), c')
  {
    forall tail: seq<byte>, n: nat
      ensures ReadObject(At([STRUCTTYPE] + tag + num + body + tail, n, c, h))
           == Ok(Tagged(t, vs), At(tail, n + |[STRUCTTYPE] + tag + num + body|, c', h))
    {
      var fields := body + tail;
      Join3([STRUCTTYPE] + tag + num, body, tail);
      Join4([STRUCTTYPE], tag, num, fields);
      First(STRUCTTYPE, tag + (num + fields), n, c, h);
      StructTypeRead(At(tag + (num + fields), n + 1, c, h), t, At(num + fields, n + 1 + |tag|, c1, h), k,
                     At(fields, n + 1 + |tag| + |num|, c1, h));
      FieldsRead(body, tail, n + 1 + |tag| + |num|, t, k, vs, c2, c', h);
    }
  }

  // ---- Every encoding ----

  lemma SimpleBack(e: Enc, c: Caches, h: Config)
    requires Meaning(e, c, h).Some?
    requires e.ENull? || e.EBool? || e.EInt? || e.EFloat? || e.EDouble? || e.EDouble0? || e.EDouble1?
             || e.EBytesPacked? || e.ERef?
    ensures var (v, c') := Meaning(e, c, h).value; Denotes(Encode(e), c, h, v, c')
  {
    match e
    case ENull => ConstantBack(NULL, Null, c, h);
    case EBool(b) => ConstantBack(if b then TRUE else FALSE, Bool(b), c, h);
    case EDouble0 => ConstantBack(DOUBLE_0, Double(ZERO_BITS), c, h);
    case EDouble1 => ConstantBack(DOUBLE_1, Double(ONE_BITS), c, h);
    case EInt(width, n) => NumDenotes(width, n, c, h);
    case EFloat(bits) => FixedBack(FLOAT, bits, Float(bits), c, h);
    case EDouble(bits) => FixedBack(DOUBLE, bits, Double(bits), c, h);
    case EBytesPacked(data) => FixedBack(BYTES_PACKED_LENGTH_START + |data|, data, Bytes(data), c, h);
    case ERef(ref, index) =>
      match ref
      case PackedRef => PackedRefBack(index, c.priority[index].value, c, h);
      case WideRef(width) =>
        NumCounts(width, index);
        WideRefBack(Num(width, index), index, c.priority[index].value, c, h);
  }

  lemma ChunkedBack(e: Enc, c: Caches, h: Config)
    requires Meaning(e, c, h).Some? && (e.EBytes? || e.EStr? || e.EStrPacked?)
    ensures var (v, c') := Meaning(e, c, h).value; Denotes(Encode(e), c, h, v, c')
  {
    match e
    case EBytes(chunks, last) =>
      assert ChunksFit(chunks) && last in chunks + [last];
      BytesBack(chunks, last, c, h);
    case EStr(chunks, last) =>
      assert ChunksFit(chunks) && last in chunks + [last];
      StringBack(chunks, last, c, h);
    case EStrPacked(chunks, data) => StringPackedBack(chunks, data, c, h);
  }

  /** Every encoding is read as what it means, whatever follows it and whatever the caches hold. */
  lemma {:induction false} Back(e: Enc, c: Caches, h: Config)
    requires Meaning(e, c, h).Some?
    ensures var (v, c') := Meaning(e, c, h).value; Denotes(Encode(e), c, h, v, c')
    decreases e, 1
  {
    match e
    case EList(_, _) => ListBack(e, c, h);
    case ECached(body) =>
      var inside := c.(priority := c.priority + [UnderConstruction]);
      var (v, c1) := Meaning(body, inside, h).value;
      Back(body, inside, h);
      CachedBack(Encode(body), v, c, c1, h);
    case EReset(next) =>
      var (v, c') := Meaning(next, NO_CACHES, h).value;
      Back(next, NO_CACHES, h);
      ResetBack(Encode(next), v, c, c', h);
    case EStructType(_, _, _) => DefinedStructBack(e, c, h);
    case EStruct(_, _, _) => KnownStructBack(e, c, h);
    case EBuiltin(kind, fields) =>
      var (vs, c') := MeaningAll(fields, c, h).value;
      AllBack(fields, c, h);
      BuiltinBack(kind, EncodeAll(fields), vs, c, c', h);
    case EBytes(_, _) => ChunkedBack(e, c, h);
    case EStr(_, _) => ChunkedBack(e, c, h);
    case EStrPacked(_, _) => ChunkedBack(e, c, h);
    case _ => SimpleBack(e, c, h);
  }

  lemma FirstAndRest(es: seq<Enc>, c: Caches, h: Config)
    requires es != [] && MeaningAll(es, c, h).Some?
    ensures Meaning(es[0], c, h).Some?
    ensures var (v, c1) := Meaning(es[0], c, h).value;
            && MeaningAll(es[1..], c1, h).Some?
            && var (vs, c') := MeaningAll(es[1..], c1, h).value;
               MeaningAll(es, c, h).value == ([v] + vs, c')
  {
  }

  lemma {:induction false} AllBack(es: seq<Enc>, c: Caches, h: Config)
    requires MeaningAll(es, c, h).Some?
    ensures var (vs, c') := MeaningAll(es, c, h).value; DenotesAll(EncodeAll(es), |es|, c, h, vs, c')
    decreases es, 0
  {
    if es == [] {
      NoElements(c, h);
    } else {
      FirstAndRest(es, c, h);
      var (v, c1) := Meaning(es[0], c, h).value;
      var (vs, c') := MeaningAll(es[1..], c1, h).value;
      Back(es[0], c, h);
      AllBack(es[1..], c1, h);
      OneMore(Encode(es[0]), v, EncodeAll(es[1..]), |es| - 1, vs, c, c1, c', h);
    }
  }

  lemma {:induction false} ListBack(e: Enc, c: Caches, h: Config)
    requires e.EList? && Meaning(e, c, h).Some?
    ensures var (v, c') := Meaning(e, c, h).value; Denotes(Encode(e), c, h, v, c')
    decreases e, 0
  {
    var (vs, c') := MeaningAll(e.items, c, h).value;
    var k, body := |e.items|, EncodeAll(e.items);
    AllBack(e.items, c, h);
    assert ListHead(e.form, k) + body + [] == ListHead(e.form, k) + body;
    match e.form
    case Packed => PackedListBack(body, k, vs, c, c', h);
    case Counted(width) =>
      NumCounts(width, k);
      CountedListBack(Num(width, k), body, k, vs, c, c', h);
    case Closed => EndedListBack(BEGIN_CLOSED_LIST, body, k, vs, c, c', h);
    case Open => EndedListBack(BEGIN_OPEN_LIST, body, k, vs, c, c', h);
  }

  lemma {:induction false} DefinedStructBack(e: Enc, c: Caches, h: Config)
    requires e.EStructType? && Meaning(e, c, h).Some?
    ensures var (v, c') := Meaning(e, c, h).value; Denotes(Encode(e), c, h, v, c')
    decreases e, 0
  {
    var (t, c1) := Meaning(e.tag, c, h).value;
    var k := |e.fields|;
    var c2 := c1.(structs := c1.structs + [StructType(t, k)]);
    var (vs, c') := MeaningAll(e.fields, c2, h).value;
    Back(e.tag, c, h);
    NumCounts(e.width, k);
    AllBack(e.fields, c2, h);
    StructTypeBack(Encode(e.tag), t, Num(e.width, k), k, EncodeAll(e.fields), vs, c, c1, c2, c', h);
  }

  lemma {:induction false} KnownStructBack(e: Enc, c: Caches, h: Config)
    requires e.EStruct? && Meaning(e, c, h).Some?
    ensures var (v, c') := Meaning(e, c, h).value; Denotes(Encode(e), c, h, v, c')
    decreases e, 0
  {
    var (vs, c') := MeaningAll(e.fields, c, h).value;
    AllBack(e.fields, c, h);
    match e.ref
    case PackedRef =>
      CodedStructBack(STRUCT_CACHE_PACKED_START + e.index, c.structs[e.index], EncodeAll(e.fields), vs, c, c', h);
    case WideRef(width) =>
      NumCounts(width, e.index);
      WideStructBack(Num(width, e.index), e.index, EncodeAll(e.fields), vs, c, c', h);
  }
}
