/** The Fressian reader: what each of its routines returns, as functions of the bytes that are left
    and of the two caches. The routines call one another on ever shorter inputs, so that these are
    functions at all says that reading ends, with a value or an error, on every input. */
module Fressian {
  import opened Words
  import opened Wrappers

  type byte = n: int | 0 <= n < 256

  /** Strings are kept as their bytes; numbers with a fraction as theirs. */
  datatype Value =
    | Null
    | Bool(b: bool)
    | Int(n: int)
    | Double(bits: seq<byte>)
    | Float(bits: seq<byte>)
    | Bytes(data: seq<byte>)
    | Str(data: seq<byte>)
    | List(items: seq<Value>)
    | Tagged(tag: Value, fields: seq<Value>)

  datatype StructType = StructType(tag: Value, fields: int)

  /** A place in the priority cache; its object may still be being read. */
  datatype Slot = UnderConstruction | Cached(value: Value)

  datatype Error =
    | Eof
    | UnexpectedCode
    | NotAnInt
    | NotInt32
    | NegativeLength
    | CircularReference
    | BeyondCache
    | BadIndex
    | BadFooter
    | BadChecksum
    | ExternalHandler

  /** How a reader was made: the tags for which a library or user handler is registered and, if it validates
      checksums, the checksum of the bytes since the last footer, by how many bytes are left. */
  datatype Config = Config(handlers: set<Value>, checksums: Option<map<nat, seq<byte>>>)

  /** The state of a reader: the bytes left, how many were read since the last footer, and the caches. */
  datatype Reader = Reader(
    rest: seq<byte>,
    bytesRead: nat,
    priority: seq<Slot>,
    structs: seq<StructType>,
    config: Config)

  datatype Result<+T> = Ok(value: T, reader: Reader) | Err(error: Error)

  // ---- Codes ----

  const PRIORITY_CACHE_PACKED_START := 0x80
  const STRUCT_CACHE_PACKED_START := 0xA0
  const GET_PRIORITY_CACHE := 0xCC
  const PUT_PRIORITY_CACHE := 0xCD
  const FOOTER := 0xCF
  const BYTES_PACKED_LENGTH_START := 0xD0
  const BYTES_CHUNK := 0xD8
  const BYTES := 0xD9
  const STRING_PACKED_LENGTH_START := 0xDA
  const STRING_CHUNK := 0xE2
  const STRING := 0xE3
  const LIST_PACKED_LENGTH_START := 0xE4
  const LIST := 0xEC
  const BEGIN_CLOSED_LIST := 0xED
  const BEGIN_OPEN_LIST := 0xEE
  const STRUCTTYPE := 0xEF
  const STRUCT := 0xF0
  const TRUE := 0xF5
  const FALSE := 0xF6
  const NULL := 0xF7
  const INT := 0xF8
  const FLOAT := 0xF9
  const DOUBLE := 0xFA
  const DOUBLE_0 := 0xFB
  const DOUBLE_1 := 0xFC
  const END_COLLECTION := 0xFD
  const RESET_CACHES := 0xFE

  const ZERO_BITS: seq<byte> := [0, 0, 0, 0, 0, 0, 0, 0]
  const ONE_BITS: seq<byte> := [0x3F, 0xF0, 0, 0, 0, 0, 0, 0]

  predicate IsIntCode(code: byte) {
    code < 0x80 || code == 0xFF || code == INT
  }

  /** The integer families that carry low bytes: the code that stands for a zero prefix, and how many
      bytes follow. */
  function PackedFamily(code: byte): (f: (byte, nat))
    requires 0x40 <= code < 0x80
  {
    if code < 0x60 then (0x50, 1)
    else if code < 0x70 then (0x68, 2)
    else if code < 0x74 then (0x72, 3)
    else if code < 0x78 then (0x76, 4)
    else if code < 0x7C then (0x7A, 5)
    else (0x7E, 6)
  }

  function Ascii(s: string): seq<byte> {
    seq(|s|, i requires 0 <= i < |s| => s[i] as int % 256)
  }

  /** The codes that are structs with a fixed tag and number of fields. */
  function BuiltinStruct(code: byte): Option<StructType> {
    match code
    case 0xB0 => Some(StructType(Str(Ascii("long[]")), 2))
    case 0xB1 => Some(StructType(Str(Ascii("double[]")), 2))
    case 0xB2 => Some(StructType(Str(Ascii("boolean[]")), 2))
    case 0xB3 => Some(StructType(Str(Ascii("int[]")), 2))
    case 0xB4 => Some(StructType(Str(Ascii("float[]")), 2))
    case 0xB5 => Some(StructType(Str(Ascii("Object[]")), 2))
    case 0xC0 => Some(StructType(Str(Ascii("map")), 1))
    case 0xC1 => Some(StructType(Str(Ascii("set")), 1))
    case 0xC3 => Some(StructType(Str(Ascii("uuid")), 2))
    case 0xC4 => Some(StructType(Str(Ascii("regex")), 1))
    case 0xC5 => Some(StructType(Str(Ascii("uri")), 1))
    case 0xC6 => Some(StructType(Str(Ascii("bigint")), 1))
    case 0xC7 => Some(StructType(Str(Ascii("bigdec")), 2))
    case 0xC8 => Some(StructType(Str(Ascii("inst")), 1))
    case 0xC9 => Some(StructType(Str(Ascii("sym")), 2))
    case 0xCA => Some(StructType(Str(Ascii("key")), 2))
    case _ => None
  }

  // ---- Raw input ----

  /** `prefix` shifted left by the length of `bs` in bytes, or-ed with `bs` as a big-endian number.
      The bits do not overlap, so the or is a sum; `OrShifted` is the or itself. */
  function Compose(prefix: int, bs: seq<byte>): (n: int)
    ensures prefix >= 0 ==> n >= 0
  {
    if bs == [] then prefix else Compose(prefix, bs[..|bs| - 1]) * 256 + bs[|bs| - 1]
  }

  function ReadRaw(r: Reader, n: nat): (res: Result<seq<byte>>)
    ensures res.Ok? ==> |res.value| == n && |res.reader.rest| == |r.rest| - n
  {
    if |r.rest| < n then Err(Eof)
    else Ok(r.rest[..n], r.(rest := r.rest[n..], bytesRead := r.bytesRead + n))
  }

  function Next(r: Reader): Reader
    requires r.rest != []
  {
    r.(rest := r.rest[1..], bytesRead := r.bytesRead + 1)
  }

  /** An integer, after its code: the distance of the code to the zero prefix of its family and the
      low bytes, or all eight bytes in two's complement. */
  function ReadPacked(code: byte, r: Reader): (res: Result<int>)
    requires IsIntCode(code)
    ensures res.Ok? ==> |res.reader.rest| <= |r.rest|
  {
    if code == 0xFF then Ok(-1, r)
    else if code < 0x40 then Ok(code, r)
    else if code == INT then
      match ReadRaw(r, 8)
      case Ok(bs, r1) => Ok(Compose(if bs[0] < 0x80 then 0 else -1, bs), r1)
      case Err(e) => Err(e)
    else
      var (zero, width) := PackedFamily(code);
      match ReadRaw(r, width)
      case Ok(bs, r1) => Ok(Compose(code - zero, bs), r1)
      case Err(e) => Err(e)
  }

  /** The shift and or of 64-bit words. */
  function OrShifted(prefix: int, bs: seq<byte>): int {
    Signed(Or(Shl(Word(prefix), 8 * |bs|), Compose(0, bs)))
  }

  function ReadOr(r: Reader, prefix: int, width: nat): (res: Result<int>)
    ensures res.Ok? ==> |res.reader.rest| <= |r.rest|
  {
    match ReadRaw(r, width)
    case Ok(bs, r1) => Ok(OrShifted(prefix, bs), r1)
    case Err(e) => Err(e)
  }

  /** The integer codes in the switch of the routine that reads integers only, which has its own table. */
  function ReadDirect(code: byte, r: Reader): (res: Result<int>)
    requires IsIntCode(code)
    ensures res.Ok? ==> |res.reader.rest| <= |r.rest|
  {
    if code == 0xFF then Ok(-1, r)
    else if code < 0x40 then Ok(code, r)
    else if code < 0x60 then ReadOr(r, code - 0x50, 1)
    else if code < 0x70 then ReadOr(r, code - 0x68, 2)
    else if code < 0x74 then ReadOr(r, code - 0x72, 3)
    else if code < 0x78 then ReadOr(r, code - 0x76, 4)
    else if code < 0x7C then ReadOr(r, code - 0x7A, 5)
    else if code < 0x80 then ReadOr(r, code - 0x7E, 6)
    else
      match ReadRaw(r, 8)
      case Ok(bs, r1) => Ok(Signed(Compose(0, bs)), r1)
      case Err(e) => Err(e)
  }

  // ---- Caches ----

  function LookupPriority(r: Reader, index: int): (res: Result<Value>)
    ensures res.Ok? ==> res.reader == r
  {
    if index >= |r.priority| then Err(BeyondCache)
    else if index < 0 then Err(BadIndex)
    else
      match r.priority[index]
      case UnderConstruction => Err(CircularReference)
      case Cached(v) => Ok(v, r)
  }

  function LookupStruct(r: Reader, index: int): (res: Result<StructType>)
    ensures res.Ok? ==> res.reader == r
  {
    if index >= |r.structs| then Err(BeyondCache)
    else if index < 0 then Err(BadIndex)
    else Ok(r.structs[index], r)
  }

  function ResetCaches(r: Reader): Reader {
    r.(priority := [], structs := [])
  }

  ghost predicate NothingOpened(r: Reader, r': Reader) {
    forall i :: 0 <= i < |r'.priority| && r'.priority[i].UnderConstruction? ==>
      i < |r.priority| && r.priority[i].UnderConstruction?
  }

  // ---- Reading ----

  function ReadObject(r: Reader): (res: Result<Value>)
    ensures res.Ok? ==> |res.reader.rest| < |r.rest| && NothingOpened(r, res.reader)
    decreases |r.rest|, 0
  {
    if r.rest == [] then Err(Eof) else Read(r.rest[0], Next(r))
  }

  /** An object, after its code. */
  function Read(code: byte, r: Reader): (res: Result<Value>)
    ensures res.Ok? ==> |res.reader.rest| <= |r.rest| && NothingOpened(r, res.reader)
    decreases |r.rest|, 4
  {
    if IsIntCode(code) then
      match ReadPacked(code, r)
      case Ok(n, r1) => Ok(Int(n), r1)
      case Err(e) => Err(e)
    else if code < STRUCT_CACHE_PACKED_START then LookupPriority(r, code - PRIORITY_CACHE_PACKED_START)
    else if code < 0xB0 then
      match LookupStruct(r, code - STRUCT_CACHE_PACKED_START)
      case Ok(st, r1) => HandleStruct(r1, st.tag, st.fields)
      case Err(e) => Err(e)
    else if BuiltinStruct(code).Some? then
      HandleStruct(r, BuiltinStruct(code).value.tag, BuiltinStruct(code).value.fields)
    else if code == GET_PRIORITY_CACHE then
      match ReadInt32(r)
      case Ok(index, r1) => LookupPriority(r1, index)
      case Err(e) => Err(e)
    else if code == PUT_PRIORITY_CACHE then ReadAndCache(r)
    else if code == FOOTER then ReadPastFooter(r)
    else if BYTES_PACKED_LENGTH_START <= code < BYTES_CHUNK then
      match ReadRaw(r, code - BYTES_PACKED_LENGTH_START)
      case Ok(bs, r1) => Ok(Bytes(bs), r1)
      case Err(e) => Err(e)
    else if code == BYTES || code == BYTES_CHUNK then
      match ReadByteChunks(code, r, [])
      case Ok(bs, r1) => Ok(Bytes(bs), r1)
      case Err(e) => Err(e)
    else if STRING_PACKED_LENGTH_START <= code <= STRING then
      match ReadStringChunks(code, r, [])
      case Ok(bs, r1) => Ok(Str(bs), r1)
      case Err(e) => Err(e)
    else if LIST_PACKED_LENGTH_START <= code < LIST then ReadList(r, code - LIST_PACKED_LENGTH_START)
    else if code == LIST then
      match ReadInt32(r)
      case Ok(n, r1) => ReadList(r1, n)
      case Err(e) => Err(e)
    else if code == BEGIN_CLOSED_LIST then
      match ReadClosedList(r, [])
      case Ok(vs, r1) => Ok(List(vs), r1)
      case Err(e) => Err(e)
    else if code == BEGIN_OPEN_LIST then
      match ReadOpenList(r, [])
      case Ok(vs, r1) => Ok(List(vs), r1)
      case Err(e) => Err(e)
    else if code == STRUCTTYPE then ReadStructType(r)
    else if code == STRUCT then
      match ReadInt32(r) {
        case Err(e) => Err(e)
        case Ok(index, r1) =>
          match LookupStruct(r1, index)
          case Ok(st, r2) => HandleStruct(r2, st.tag, st.fields)
          case Err(e) => Err(e)
      }
    else if code == TRUE then Ok(Bool(true), r)
    else if code == FALSE then Ok(Bool(false), r)
    else if code == NULL then Ok(Null, r)
    else if code == FLOAT then
      match ReadRaw(r, 4)
      case Ok(bs, r1) => Ok(Float(bs), r1)
      case Err(e) => Err(e)
    else if code == DOUBLE then
      match ReadRaw(r, 8)
      case Ok(bs, r1) => Ok(Double(bs), r1)
      case Err(e) => Err(e)
    else if code == DOUBLE_0 then Ok(Double(ZERO_BITS), r)
    else if code == DOUBLE_1 then Ok(Double(ONE_BITS), r)
    else if code == RESET_CACHES then ReadObject(ResetCaches(r))
    else Err(UnexpectedCode)
  }

  /** An integer read directly. What is not an integer code is read as an object, which must then be
      an integer. */
  function ReadInt(r: Reader): (res: Result<int>)
    ensures res.Ok? ==> |res.reader.rest| < |r.rest| && NothingOpened(r, res.reader)
    decreases |r.rest|, 0
  {
    if r.rest == [] then Err(Eof)
    else if IsIntCode(r.rest[0]) then ReadDirect(r.rest[0], Next(r))
    else
      match Read(r.rest[0], Next(r))
      case Ok(v, r1) => if v.Int? then Ok(v.n, r1) else Err(NotAnInt)
      case Err(e) => Err(e)
  }

  function ReadInt32(r: Reader): (res: Result<int>)
    ensures res.Ok? ==> |res.reader.rest| < |r.rest| && NothingOpened(r, res.reader)
    decreases |r.rest|, 1
  {
    match ReadInt(r)
    case Ok(n, r1) => if -0x8000_0000 <= n < 0x8000_0000 then Ok(n, r1) else Err(NotInt32)
    case Err(e) => Err(e)
  }

  /** A count and that many bytes. */
  function ReadCounted(r: Reader): (res: Result<seq<byte>>)
    ensures res.Ok? ==> |res.reader.rest| < |r.rest| && NothingOpened(r, res.reader)
    decreases |r.rest|, 2
  {
    match ReadInt32(r)
    case Ok(n, r1) => if n < 0 then Err(NegativeLength) else ReadRaw(r1, n)
    case Err(e) => Err(e)
  }

  /** The chunks of a byte array, from the code of the next one on; `acc` are the bytes so far. */
  function ReadByteChunks(code: byte, r: Reader, acc: seq<byte>): (res: Result<seq<byte>>)
    ensures res.Ok? ==> |res.reader.rest| <= |r.rest| && NothingOpened(r, res.reader)
    decreases |r.rest|, 3
  {
    if code != BYTES && code != BYTES_CHUNK then Err(UnexpectedCode)
    else
      match ReadCounted(r)
      case Err(e) => Err(e)
      case Ok(bs, r1) =>
        if code == BYTES then Ok(acc + bs, r1)
        else if r1.rest == [] then Err(Eof)
        else ReadByteChunks(r1.rest[0], Next(r1), acc + bs)
  }

  /** The chunks of a string, likewise; the last may carry its length in its code. */
  function ReadStringChunks(code: byte, r: Reader, acc: seq<byte>): (res: Result<seq<byte>>)
    ensures res.Ok? ==> |res.reader.rest| <= |r.rest| && NothingOpened(r, res.reader)
    decreases |r.rest|, 3
  {
    if STRING_PACKED_LENGTH_START <= code < STRING_CHUNK then
      match ReadRaw(r, code - STRING_PACKED_LENGTH_START)
      case Ok(bs, r1) => Ok(acc + bs, r1)
      case Err(e) => Err(e)
    else if code != STRING && code != STRING_CHUNK then Err(UnexpectedCode)
    else
      match ReadCounted(r)
      case Err(e) => Err(e)
      case Ok(bs, r1) =>
        if code == STRING then Ok(acc + bs, r1)
        else if r1.rest == [] then Err(Eof)
        else ReadStringChunks(r1.rest[0], Next(r1), acc + bs)
  }

  function ReadObjects(r: Reader, n: nat, acc: seq<Value>): (res: Result<seq<Value>>)
    ensures res.Ok? ==> |res.reader.rest| <= |r.rest| && NothingOpened(r, res.reader)
    decreases |r.rest|, 1, n
  {
    if n == 0 then Ok(acc, r)
    else
      match ReadObject(r)
      case Ok(v, r1) => ReadObjects(r1, n - 1, acc + [v])
      case Err(e) => Err(e)
  }

  function ReadList(r: Reader, n: int): (res: Result<Value>)
    ensures res.Ok? ==> |res.reader.rest| <= |r.rest| && NothingOpened(r, res.reader)
    decreases |r.rest|, 2
  {
    if n < 0 then Err(NegativeLength)
    else
      match ReadObjects(r, n, [])
      case Ok(vs, r1) => Ok(List(vs), r1)
      case Err(e) => Err(e)
  }

  function ReadClosedList(r: Reader, acc: seq<Value>): (res: Result<seq<Value>>)
    ensures res.Ok? ==> |res.reader.rest| < |r.rest| && NothingOpened(r, res.reader)
    decreases |r.rest|, 0
  {
    if r.rest == [] then Err(Eof)
    else if r.rest[0] == END_COLLECTION then Ok(acc, Next(r))
    else
      match Read(r.rest[0], Next(r))
      case Ok(v, r1) => ReadClosedList(r1, acc + [v])
      case Err(e) => Err(e)
  }

  /** An open list also ends where the input ends, but not in the middle of an element. */
  function ReadOpenList(r: Reader, acc: seq<Value>): (res: Result<seq<Value>>)
    ensures res.Ok? ==> |res.reader.rest| <= |r.rest| && NothingOpened(r, res.reader)
    decreases |r.rest|, 0
  {
    if r.rest == [] then Ok(acc, r)
    else if r.rest[0] == END_COLLECTION then Ok(acc, Next(r))
    else
      match Read(r.rest[0], Next(r))
      case Ok(v, r1) => ReadOpenList(r1, acc + [v])
      case Err(e) => Err(e)
  }

  /** The object takes its place in the cache before it is read, and fills it afterwards, wherever the
      cache is by then. */
  function ReadAndCache(r: Reader): (res: Result<Value>)
    ensures res.Ok? ==> |res.reader.rest| < |r.rest| && NothingOpened(r, res.reader)
    decreases |r.rest|, 1
  {
    var index := |r.priority|;
    match ReadObject(r.(priority := r.priority + [UnderConstruction]))
    case Err(e) => Err(e)
    case Ok(v, r1) =>
      if index < |r1.priority| then Ok(v, r1.(priority := r1.priority[index := Cached(v)])) else Err(BadIndex)
  }

  function HandleStruct(r: Reader, tag: Value, fields: int): (res: Result<Value>)
    ensures res.Ok? ==> |res.reader.rest| <= |r.rest| && NothingOpened(r, res.reader)
    decreases |r.rest|, 3
  {
    if tag in r.config.handlers then Err(ExternalHandler)
    else if fields < 0 then Err(NegativeLength)
    else
      match ReadObjects(r, fields, [])
      case Ok(vs, r1) => Ok(Tagged(tag, vs), r1)
      case Err(e) => Err(e)
  }

  function ReadStructType(r: Reader): (res: Result<Value>)
    ensures res.Ok? ==> |res.reader.rest| < |r.rest| && NothingOpened(r, res.reader)
    decreases |r.rest|, 1
  {
    match ReadObject(r)
    case Err(e) => Err(e)
    case Ok(tag, r1) =>
      match ReadInt32(r1)
      case Err(e) => Err(e)
      case Ok(fields, r2) => HandleStruct(r2.(structs := r2.structs + [StructType(tag, fields)]), tag, fields)
  }

  /** The checksum of a footer, with `left` bytes after it, is the right one, or is not validated. */
  predicate Validates(config: Config, left: nat, sum: seq<byte>) {
    match config.checksums
    case None => true
    case Some(sums) => left in sums && sums[left] == sum
  }

  /** A footer, after its code: the rest of the magic number, the length since the last footer and a
      checksum. Then everything starts anew with the next object. */
  function ReadPastFooter(r: Reader): (res: Result<Value>)
    ensures res.Ok? ==> |res.reader.rest| < |r.rest| && NothingOpened(r, res.reader)
    decreases |r.rest|, 1
  {
    match ReadRaw(r, 3)
    case Err(e) => Err(e)
    case Ok(magic, r1) =>
      if magic != [FOOTER, FOOTER, FOOTER] then Err(BadFooter)
      else
        match ReadRaw(r1, 4)
        case Err(e) => Err(e)
        case Ok(length, r2) =>
          if Compose(0, length) != (r.bytesRead - 1) % 0x1_0000_0000 then Err(BadFooter)
          else
            match ReadRaw(r2, 4)
            case Err(e) => Err(e)
            case Ok(sum, r3) =>
              if !Validates(r.config, |r3.rest|, sum) then Err(BadChecksum)
              else ReadObject(ResetCaches(r3).(bytesRead := 0))
  }
}
