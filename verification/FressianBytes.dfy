/** Encodings that the reader accepts. The writer is a library outside this repository, so an encoding
    is described instead of computed: `Enc` is a value together with every choice a writer has (how
    wide an integer, how a list or string is framed, what is cached and what is referred to),
    `Encode` is its bytes, and `Meaning` its value and what it leaves in the caches. */
module FressianBytes {
  import opened Words
  import opened Wrappers
  import opened Fressian

  /** A count of `width` low bytes, and that many bytes of data. */
  datatype Chunk = Chunk(width: nat, data: seq<byte>)

  datatype ListForm = Packed | Counted(width: nat) | Closed | Open

  datatype RefForm = PackedRef | WideRef(width: nat)

  /** The struct types that the format has codes of their own for. */
  datatype Builtin =
    | LongArray
    | DoubleArray
    | BooleanArray
    | IntArray
    | FloatArray
    | ObjectArray
    | Map
    | Set
    | Uuid
    | Regex
    | Uri
    | BigInt
    | BigDec
    | Inst
    | Symbol
    | Keyword

  datatype Wire = Wire(code: byte, tag: seq<byte>, fields: nat)

  /** What a writer puts on the wire for one: its code, which stands for a tag and a number of fields. */
  function WireOf(kind: Builtin): Wire {
    match kind
    case LongArray => Wire(0xB0, [0x6C, 0x6F, 0x6E, 0x67, 0x5B, 0x5D], 2)
    case DoubleArray => Wire(0xB1, [0x64, 0x6F, 0x75, 0x62, 0x6C, 0x65, 0x5B, 0x5D], 2)
    case BooleanArray => Wire(0xB2, [0x62, 0x6F, 0x6F, 0x6C, 0x65, 0x61, 0x6E, 0x5B, 0x5D], 2)
    case IntArray => Wire(0xB3, [0x69, 0x6E, 0x74, 0x5B, 0x5D], 2)
    case FloatArray => Wire(0xB4, [0x66, 0x6C, 0x6F, 0x61, 0x74, 0x5B, 0x5D], 2)
    case ObjectArray => Wire(0xB5, [0x4F, 0x62, 0x6A, 0x65, 0x63, 0x74, 0x5B, 0x5D], 2)
    case Map => Wire(0xC0, [0x6D, 0x61, 0x70], 1)
    case Set => Wire(0xC1, [0x73, 0x65, 0x74], 1)
    case Uuid => Wire(0xC3, [0x75, 0x75, 0x69, 0x64], 2)
    case Regex => Wire(0xC4, [0x72, 0x65, 0x67, 0x65, 0x78], 1)
    case Uri => Wire(0xC5, [0x75, 0x72, 0x69], 1)
    case BigInt => Wire(0xC6, [0x62, 0x69, 0x67, 0x69, 0x6E, 0x74], 1)
    case BigDec => Wire(0xC7, [0x62, 0x69, 0x67, 0x64, 0x65, 0x63], 2)
    case Inst => Wire(0xC8, [0x69, 0x6E, 0x73, 0x74], 1)
    case Symbol => Wire(0xC9, [0x73, 0x79, 0x6D], 2)
    case Keyword => Wire(0xCA, [0x6B, 0x65, 0x79], 2)
  }

  datatype Enc =
    | ENull
    | EBool(b: bool)
    | EInt(width: nat, n: int)
    | EFloat(bits: seq<byte>)
    | EDouble(bits: seq<byte>)
    | EDouble0
    | EDouble1
    | EBytesPacked(data: seq<byte>)
    | EBytes(chunks: seq<Chunk>, last: Chunk)
    | EStrPacked(chunks: seq<Chunk>, data: seq<byte>)
    | EStr(chunks: seq<Chunk>, last: Chunk)
    | EList(form: ListForm, items: seq<Enc>)
    | ECached(body: Enc)
    | ERef(ref: RefForm, index: nat)
    | EStructType(tag: Enc, width: nat, fields: seq<Enc>)
    | EStruct(ref: RefForm, index: nat, fields: seq<Enc>)
    | EBuiltin(kind: Builtin, fields: seq<Enc>)
    | EReset(next: Enc)

  datatype Caches = Caches(priority: seq<Slot>, structs: seq<StructType>)

  const NO_CACHES := Caches([], [])

  function At(bytes: seq<byte>, n: nat, c: Caches, h: Config): Reader {
    Reader(bytes, n, c.priority, c.structs, h)
  }

  // ---- The two integer switches ----

  /** Composing with a prefix adds the shifted prefix. */
  lemma {:induction false} ComposeSum(prefix: int, bs: seq<byte>)
    ensures Compose(prefix, bs) == prefix * Pow2(8 * |bs|) + Compose(0, bs)
    ensures 0 <= Compose(0, bs) < Pow2(8 * |bs|)
    decreases |bs|
  {
    if bs != [] {
      ComposeSum(prefix, bs[..|bs| - 1]);
      Pow2Byte(8 * (|bs| - 1));
      assert 8 * |bs| == 8 * (|bs| - 1) + 8;
      OneMoreByte(prefix, Pow2(8 * (|bs| - 1)), Pow2(8 * |bs|));
    }
  }

  lemma OneMoreByte(prefix: int, f: int, g: int)
    requires g == 256 * f
    ensures prefix * f * 256 == prefix * g
  {
  }

  /** Or-ing the low bytes into the shifted prefix composes them, for a negative prefix too. */
  lemma OrIsCompose(prefix: int, bs: seq<byte>)
    requires -16 <= prefix < 16 && 1 <= |bs| <= 6
    ensures OrShifted(prefix, bs) == Compose(prefix, bs)
  {
    ComposeSum(prefix, bs);
    PrefixAndLow(prefix, |bs|, Compose(0, bs));
  }

  lemma {:induction false} ComposeFront(prefix: int, bs: seq<byte>)
    requires bs != []
    ensures Compose(prefix, bs) == Compose(256 * prefix + bs[0], bs[1..])
    decreases |bs|
  {
    if |bs| > 1 {
      ComposeFront(prefix, bs[..|bs| - 1]);
      assert bs[..|bs| - 1][1..] == bs[1..][..|bs| - 2];
    } else {
      assert bs[..0] == [];
    }
  }

  lemma SignOfTop(first: int, low: int, word: nat)
    requires 0 <= first < 0x100 && 0 <= low < 0x100_0000_0000_0000 && word == first * 0x100_0000_0000_0000 + low
    ensures Signed(word) == (if first < 0x80 then first else first - 0x100) * 0x100_0000_0000_0000 + low
  {
  }

  /** Eight bytes are a number in two's complement. */
  lemma SignedWord(bs: seq<byte>)
    requires |bs| == 8
    ensures Signed(Compose(0, bs)) == Compose(if bs[0] < 0x80 then 0 else -1, bs)
  {
    var first: int := bs[0];
    ComposeFront(0, bs);
    ComposeFront(-1, bs);
    ComposeSum(first, bs[1..]);
    ComposeSum(first - 256, bs[1..]);
    Pow2Values();
    SignOfTop(first, Compose(0, bs[1..]), Compose(0, bs));
  }

  /** The switch that reads integers only and the switch that reads any object take every integer code, with
      whatever follows it, for the same integer. */
  lemma SwitchesAgree(code: byte, r: Reader)
    requires IsIntCode(code)
    ensures ReadDirect(code, r) == ReadPacked(code, r)
  {
    if code == INT {
      if |r.rest| >= 8 {
        SignedWord(r.rest[..8]);
      }
    } else if 0x40 <= code < 0x80 {
      var (zero, width) := PackedFamily(code);
      if |r.rest| >= width {
        OrIsCompose(code - zero, r.rest[..width]);
      }
    }
  }

  // ---- Built-in structs ----

  lemma ArrayTags()
    ensures Ascii("long[]") == [0x6C, 0x6F, 0x6E, 0x67, 0x5B, 0x5D]
    ensures Ascii("double[]") == [0x64, 0x6F, 0x75, 0x62, 0x6C, 0x65, 0x5B, 0x5D]
    ensures Ascii("boolean[]") == [0x62, 0x6F, 0x6F, 0x6C, 0x65, 0x61, 0x6E, 0x5B, 0x5D]
    ensures Ascii("int[]") == [0x69, 0x6E, 0x74, 0x5B, 0x5D]
    ensures Ascii("float[]") == [0x66, 0x6C, 0x6F, 0x61, 0x74, 0x5B, 0x5D]
    ensures Ascii("Object[]") == [0x4F, 0x62, 0x6A, 0x65, 0x63, 0x74, 0x5B, 0x5D]
  {
  }

  lemma OtherTags()
    ensures Ascii("map") == [0x6D, 0x61, 0x70]
    ensures Ascii("set") == [0x73, 0x65, 0x74]
    ensures Ascii("uuid") == [0x75, 0x75, 0x69, 0x64]
    ensures Ascii("regex") == [0x72, 0x65, 0x67, 0x65, 0x78]
    ensures Ascii("uri") == [0x75, 0x72, 0x69]
    ensures Ascii("bigint") == [0x62, 0x69, 0x67, 0x69, 0x6E, 0x74]
    ensures Ascii("bigdec") == [0x62, 0x69, 0x67, 0x64, 0x65, 0x63]
    ensures Ascii("inst") == [0x69, 0x6E, 0x73, 0x74]
    ensures Ascii("sym") == [0x73, 0x79, 0x6D]
    ensures Ascii("key") == [0x6B, 0x65, 0x79]
  {
  }

  /** The reader's switch has the code, the tag and the number of fields of every built-in struct type. */
  lemma BuiltinRead(kind: Builtin)
    ensures BuiltinStruct(WireOf(kind).code) == Some(StructType(Str(WireOf(kind).tag), WireOf(kind).fields))
  {
    ArrayTags();
    OtherTags();
  }

  /** It has no others. */
  lemma BuiltinWritten(code: byte) returns (kind: Builtin)
    requires BuiltinStruct(code).Some?
    ensures WireOf(kind).code == code
  {
    match code
    case 0xB0 => kind := LongArray;
    case 0xB1 => kind := DoubleArray;
    case 0xB2 => kind := BooleanArray;
    case 0xB3 => kind := IntArray;
    case 0xB4 => kind := FloatArray;
    case 0xB5 => kind := ObjectArray;
    case 0xC0 => kind := Map;
    case 0xC1 => kind := Set;
    case 0xC3 => kind := Uuid;
    case 0xC4 => kind := Regex;
    case 0xC5 => kind := Uri;
    case 0xC6 => kind := BigInt;
    case 0xC7 => kind := BigDec;
    case 0xC8 => kind := Inst;
    case 0xC9 => kind := Symbol;
    case 0xCA => kind := Keyword;
    case _ =>
  }

  // ---- Integers ----

  /** The last `k` bytes of `n`, in two's complement, and what is left of it without them. */
  function LowBytes(n: int, k: nat): (bs: seq<byte>)
    ensures |bs| == k
    decreases k
  {
    if k == 0 then [] else LowBytes(n / 256, k - 1) + [n % 256]
  }

  function Shifted(n: int, k: nat): int
    decreases k
  {
    if k == 0 then n else Shifted(n / 256, k - 1)
  }

  function Scaled(b: int, k: nat): int {
    if k == 0 then b else 256 * Scaled(b, k - 1)
  }

  /** A prefix lies in [-PrefixRange, PrefixRange). */
  function PrefixRange(width: nat): int {
    if width == 1 then 0x10 else if width == 2 then 8 else 2
  }

  /** The integers that a form with `width` low bytes can hold: no low byte, 1 to 6 of them after a
      prefix, or all 8 of a signed 64-bit word. */
  predicate IntFits(width: nat, n: int) {
    if width == 0 then -1 <= n < 0x40
    else if width == 8 then -Scaled(0x80, 7) <= n < Scaled(0x80, 7)
    else width <= 6 && -Scaled(PrefixRange(width), width) <= n < Scaled(PrefixRange(width), width)
  }

  function ZeroCode(width: nat): byte {
    match width
    case 1 => 0x50
    case 2 => 0x68
    case 3 => 0x72
    case 4 => 0x76
    case 5 => 0x7A
    case _ => 0x7E
  }

  lemma {:induction false} ShiftedBound(n: int, k: nat, b: int)
    ensures -Scaled(b, k) <= n < Scaled(b, k) <==> -b <= Shifted(n, k) < b
    decreases k
  {
    if k != 0 {
      ShiftedBound(n / 256, k - 1, b);
    }
  }

  function IntBytes(width: nat, n: int): (bs: seq<byte>)
    requires IntFits(width, n)
    ensures bs != [] && IsIntCode(bs[0])
  {
    if width == 0 then [n % 256]
    else if width == 8 then [INT] + LowBytes(n, 8)
    else
      ShiftedBound(n, width, PrefixRange(width));
      [ZeroCode(width) + Shifted(n, width)] + LowBytes(n, width)
  }

  lemma {:induction false} ComposeOfBytes(n: int, k: nat)
    ensures Compose(Shifted(n, k), LowBytes(n, k)) == n
    decreases k
  {
    if k != 0 {
      ComposeOfBytes(n / 256, k - 1);
      assert LowBytes(n, k)[..k - 1] == LowBytes(n / 256, k - 1);
    }
  }

  lemma {:induction false} BytesOfCompose(q: int, bs: seq<byte>)
    ensures Shifted(Compose(q, bs), |bs|) == q && LowBytes(Compose(q, bs), |bs|) == bs
    decreases |bs|
  {
    if bs != [] {
      BytesOfCompose(q, bs[..|bs| - 1]);
    }
  }

  lemma {:induction false} HighByte(n: int, k: nat)
    ensures LowBytes(n, k + 1)[0] == Shifted(n, k) % 256 && Shifted(n, k + 1) == Shifted(n, k) / 256
    decreases k
  {
    if k != 0 {
      HighByte(n / 256, k - 1);
    }
  }

  lemma FamilyOfPrefix(width: nat, q: int)
    requires 1 <= width <= 6 && -PrefixRange(width) <= q < PrefixRange(width)
    ensures 0x40 <= ZeroCode(width) + q < 0x80 && PackedFamily(ZeroCode(width) + q) == (ZeroCode(width), width)
  {
  }

  lemma PrefixOfFamily(code: byte)
    requires 0x40 <= code < 0x80
    ensures var (zero, width) := PackedFamily(code);
            1 <= width <= 6 && zero == ZeroCode(width) && -PrefixRange(width) <= code - zero < PrefixRange(width)
  {
  }

  /** `r` has the bytes `bs` before `rest`; `After` is where it is once they are read. */
  function After(r: Reader, bs: seq<byte>, rest: seq<byte>): Reader {
    r.(rest := rest, bytesRead := r.bytesRead + |bs|)
  }

  lemma ReadRawPrefix(r: Reader, bs: seq<byte>, rest: seq<byte>)
    requires r.rest == bs + rest
    ensures ReadRaw(r, |bs|) == Ok(bs, After(r, bs, rest))
  {
  }

  lemma NextPrefix(r: Reader, bs: seq<byte>, rest: seq<byte>)
    requires bs != [] && r.rest == bs + rest
    ensures r.rest != [] && r.rest[0] == bs[0] && Next(r).rest == bs[1..] + rest && Next(r).bytesRead == r.bytesRead + 1
    ensures After(Next(r), bs[1..], rest) == After(r, bs, rest)
  {
  }

  lemma WideRoundTrip(r: Reader, n: int, rest: seq<byte>)
    requires IntFits(8, n) && r.rest == LowBytes(n, 8) + rest
    ensures ReadPacked(INT, r) == Ok(n, After(r, LowBytes(n, 8), rest))
  {
    ShiftedBound(n, 7, 0x80);
    HighByte(n, 7);
    ComposeOfBytes(n, 8);
    ReadRawPrefix(r, LowBytes(n, 8), rest);
  }

  lemma PackedRoundTrip(r: Reader, width: nat, n: int, rest: seq<byte>)
    requires 1 <= width <= 6 && IntFits(width, n) && r.rest == LowBytes(n, width) + rest
    ensures 0x40 <= ZeroCode(width) + Shifted(n, width) < 0x80
    ensures ReadPacked(ZeroCode(width) + Shifted(n, width), r) == Ok(n, After(r, LowBytes(n, width), rest))
  {
    ShiftedBound(n, width, PrefixRange(width));
    FamilyOfPrefix(width, Shifted(n, width));
    ComposeOfBytes(n, width);
    ReadRawPrefix(r, LowBytes(n, width), rest);
  }

  lemma SmallRoundTrip(r: Reader, n: int)
    requires IntFits(0, n)
    ensures ReadPacked(n % 256, r) == Ok(n, r)
  {
  }

  /** Reading back an integer gives the integer, and takes exactly its bytes. */
  lemma IntRoundTrip(r: Reader, width: nat, n: int, rest: seq<byte>)
    requires IntFits(width, n) && r.rest == IntBytes(width, n) + rest
    ensures ReadPacked(IntBytes(width, n)[0], Next(r)) == Ok(n, After(r, IntBytes(width, n), rest))
  {
    var bs := IntBytes(width, n);
    NextPrefix(r, bs, rest);
    if width == 8 {
      assert bs[1..] == LowBytes(n, 8);
      WideRoundTrip(Next(r), n, rest);
    } else if width == 0 {
      SmallRoundTrip(Next(r), n);
      assert bs[1..] == [] && bs[1..] + rest == rest;
    } else {
      assert bs[1..] == LowBytes(n, width);
      PackedRoundTrip(Next(r), width, n, rest);
    }
  }

  /** These bytes are the form of the integer with this many low bytes. */
  predicate IsForm(n: int, width: nat, bs: seq<byte>) {
    IntFits(width, n) && IntBytes(width, n) == bs
  }

  lemma WideOnto(low: seq<byte>)
    requires |low| == 8
    ensures IsForm(Compose(if low[0] < 0x80 then 0 else -1, low), 8, [INT] + low)
  {
    var n := Compose(if low[0] < 0x80 then 0 else -1, low);
    BytesOfCompose(if low[0] < 0x80 then 0 else -1, low);
    HighByte(n, 7);
    ShiftedBound(n, 7, 0x80);
  }

  /** The form with `width` low bytes, by its prefix and its bytes. */
  lemma PackedForm(n: int, width: nat, q: int, low: seq<byte>)
    requires 1 <= width <= 6 && -PrefixRange(width) <= q < PrefixRange(width)
    requires Shifted(n, width) == q && LowBytes(n, width) == low
    ensures IsForm(n, width, [ZeroCode(width) + q] + low)
  {
    ShiftedBound(n, width, PrefixRange(width));
  }

  lemma PrefixOnto(code: byte, q: int, low: seq<byte>)
    requires 1 <= |low| <= 6 && -PrefixRange(|low|) <= q < PrefixRange(|low|) && code == ZeroCode(|low|) + q
    ensures IsForm(Compose(q, low), |low|, [code] + low)
  {
    BytesOfCompose(q, low);
    PackedForm(Compose(q, low), |low|, q, low);
  }

  lemma PackedOnto(code: byte, zero: byte, low: seq<byte>)
    requires 0x40 <= code < 0x80 && PackedFamily(code) == (zero, |low|)
    ensures IsForm(Compose(code - zero, low), |low|, [code] + low)
  {
    PrefixOfFamily(code);
    PrefixOnto(code, code - zero, low);
  }

  /** Any integer code with its low bytes is the encoding, in that form, of the integer it is read as;
      so each form is one to one onto the integers that fit it. */
  lemma IntOnto(code: byte, low: seq<byte>, r: Reader)
    requires IsIntCode(code) && r.rest == low
    requires |low| == if code == INT then 8 else if 0x40 <= code < 0x80 then PackedFamily(code).1 else 0
    ensures
      var res := ReadPacked(code, r);
      res.Ok? && res.reader.rest == [] && IsForm(res.value, |low|, [code] + low)
  {
    ReadRawPrefix(r, low, []);
    if code == INT {
      WideOnto(low);
    } else if 0x40 <= code < 0x80 {
      PackedOnto(code, PackedFamily(code).0, low);
    }
  }
}
