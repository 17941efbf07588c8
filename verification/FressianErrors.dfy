/** What the reader refuses, and with which error: codes that begin nothing, references to places that are not there
    or not filled, counts that are negative or too large, struct tags with a handler, and lists without an end. */
module FressianErrors {
  import opened Wrappers
  import opened Fressian
  import opened FressianBytes
  import opened FressianRoundTrip

  /** The codes that no object begins with. */
  const UNASSIGNED: set<byte> :=
    {0xB6, 0xB7, 0xB8, 0xB9, 0xBA, 0xBB, 0xBC, 0xBD, 0xBE, 0xBF, 0xC2, 0xCB, 0xCE, 0xF1, 0xF2, 0xF3, 0xF4, 0xFD}

  lemma UnassignedRefused(code: byte, r: Reader)
    requires code in UNASSIGNED
    ensures Read(code, r) == Err(UnexpectedCode)
  {
  }

  lemma NothingLeft(r: Reader)
    requires r.rest == []
    ensures ReadObject(r) == Err(Eof) && ReadInt32(r) == Err(Eof) && ReadCounted(r) == Err(Eof)
    ensures forall n: nat, acc :: ReadObjects(r, n, acc) == if n == 0 then Ok(acc, r) else Err(Eof)
  {
  }

  lemma AssignedTaken(code: byte, h: Config)
    requires code !in UNASSIGNED
    ensures Read(code, At([], 0, NO_CACHES, h)) != Err(UnexpectedCode)
  {
    var r := At([], 0, NO_CACHES, h);
    NothingLeft(r);
    NothingLeft(r.(priority := [UnderConstruction]));
    assert [] + [UnderConstruction] == [UnderConstruction];
    if BuiltinStruct(code).Some? {
      assert HandleStruct(r, BuiltinStruct(code).value.tag, BuiltinStruct(code).value.fields) != Err(UnexpectedCode);
    } else if LIST_PACKED_LENGTH_START <= code < LIST {
      assert ReadList(r, code - LIST_PACKED_LENGTH_START) != Err(UnexpectedCode);
    }
  }

  /** A code is refused whatever follows it if and only if it is one of these. */
  lemma Unexpected(code: byte, h: Config)
    ensures (forall r: Reader :: r.config == h ==> Read(code, r) == Err(UnexpectedCode)) <==> code in UNASSIGNED
  {
    if code in UNASSIGNED {
      forall r: Reader | r.config == h ensures Read(code, r) == Err(UnexpectedCode) {
        UnassignedRefused(code, r);
      }
    } else {
      AssignedTaken(code, h);
    }
  }

  // ---- Counts ----

  /** Where a count is expected, an integer form is taken if its integer has 32 bits with the sign. */
  lemma CountOutcome(width: nat, k: int, tail: seq<byte>, n: nat, c: Caches, h: Config)
    requires IntFits(width, k)
    ensures ReadInt32(At(Num(width, k) + tail, n, c, h)) ==
            if -0x8000_0000 <= k <= 0x7FFF_FFFF then Ok(k, At(tail, n + |Num(width, k)|, c, h)) else Err(NotInt32)
  {
    NumRead(width, k, tail, n, c, h);
  }

  /** Any other object in its place is refused. */
  lemma CountNotInt(r: Reader)
    requires ReadObject(r).Ok? && !ReadObject(r).value.Int?
    ensures ReadInt32(r) == Err(NotAnInt)
  {
  }

  /** The codes that a number of bytes or elements follows. */
  const COUNTED: set<byte> := {BYTES, BYTES_CHUNK, STRING, STRING_CHUNK, LIST}

  lemma RefusedAfter(code: byte, rest: seq<byte>, n: nat, c: Caches, h: Config, e: Error)
    requires Read(code, At(rest, n + 1, c, h)) == Err(e)
    ensures ReadObject(At([code] + rest, n, c, h)) == Err(e)
  {
    First(code, rest, n, c, h);
  }

  lemma CountRefused(code: byte, r: Reader, e: Error)
    requires code in COUNTED
    requires match ReadInt32(r) case Err(x) => x == e case Ok(k, _) => k < 0 && e == NegativeLength
    ensures Read(code, r) == Err(e)
  {
    if code == LIST {
      assert Read(LIST, r) == match ReadInt32(r) case Ok(n, r1) => ReadList(r1, n) case Err(x) => Err(x);
    } else {
      assert ReadCounted(r) == Err(e);
      if code == BYTES || code == BYTES_CHUNK {
        assert ReadByteChunks(code, r, []) == Err(e);
      } else {
        assert ReadStringChunks(code, r, []) == Err(e);
      }
    }
  }

  lemma NegativeCount(code: byte, width: nat, k: int, tail: seq<byte>, n: nat, c: Caches, h: Config)
    requires code in COUNTED && IntFits(width, k) && k < 0
    ensures ReadObject(At([code] + (Num(width, k) + tail), n, c, h)) ==
            if k < -0x8000_0000 then Err(NotInt32) else Err(NegativeLength)
  {
    var rest, e := Num(width, k) + tail, if k < -0x8000_0000 then NotInt32 else NegativeLength;
    CountOutcome(width, k, tail, n + 1, c, h);
    CountRefused(code, At(rest, n + 1, c, h), e);
    RefusedAfter(code, rest, n, c, h, e);
  }

  // ---- Chunks ----

  /** A chunk must be followed by another, or by a last one of the same kind. */
  lemma WrongChunk(code: byte, ch: Chunk, next: byte, tail: seq<byte>, n: nat, c: Caches, h: Config)
    requires CountFits(ch.width, |ch.data|)
    requires (code == 0xD8 && next != 0xD8 && next != 0xD9) || (code == 0xE2 && !(0xDA <= next <= 0xE3))
    ensures ReadObject(At([code] + (Sized(ch) + ([next] + tail)), n, c, h)) == Err(UnexpectedCode)
  {
    var rest := [next] + tail;
    var r := At(Sized(ch) + rest, n + 1, c, h);
    SizedHolds(ch);
    assert ReadCounted(r) == Ok(ch.data, At(rest, n + 1 + |Sized(ch)|, c, h));
    First(next, tail, n + 1 + |Sized(ch)|, c, h);
    NextRefused(code, r, ch.data, At(rest, n + 1 + |Sized(ch)|, c, h));
    RefusedAfter(code, Sized(ch) + rest, n, c, h, UnexpectedCode);
  }

  lemma NextRefused(code: byte, r: Reader, data: seq<byte>, r1: Reader)
    requires ReadCounted(r) == Ok(data, r1) && r1.rest != []
    requires (code == 0xD8 && r1.rest[0] != 0xD8 && r1.rest[0] != 0xD9)
          || (code == 0xE2 && !(0xDA <= r1.rest[0] <= 0xE3))
    ensures Read(code, r) == Err(UnexpectedCode)
  {
    if code == 0xD8 {
      assert ReadByteChunks(code, r, []) == Err(UnexpectedCode);
    } else {
      assert ReadStringChunks(code, r, []) == Err(UnexpectedCode);
    }
  }

  // ---- Footers ----

  /** What follows the code of a footer: three bytes of its magic number, a length and a checksum of four bytes each.
      The end of input is noticed before what is missing would be compared. */
  lemma FooterOutcome(r: Reader)
    requires r.bytesRead > 0
    ensures
      ReadPastFooter(r) ==
      if |r.rest| < 3 then Err(Eof)
      else if r.rest[..3] != [0xCF, 0xCF, 0xCF] then Err(BadFooter)
      else if |r.rest| < 7 then Err(Eof)
      else if Compose(0, r.rest[3..7]) != (r.bytesRead - 1) % 0x1_0000_0000 then Err(BadFooter)
      else if |r.rest| < 11 then Err(Eof)
      else if r.config.checksums.Some? && Lookup(r.config.checksums.value, |r.rest| - 11) != Some(r.rest[7..11])
      then Err(BadChecksum)
      else ReadObject(At(r.rest[11..], 0, NO_CACHES, r.config))
  {
    if |r.rest| >= 3 {
      assert r.rest[3..][..if |r.rest| < 7 then 0 else 4] == r.rest[3..if |r.rest| < 7 then 3 else 7];
    }
    if |r.rest| >= 7 {
      assert r.rest[3..][4..] == r.rest[7..];
    }
    if |r.rest| >= 11 {
      assert r.rest[7..][..4] == r.rest[7..11] && r.rest[7..][4..] == r.rest[11..];
    }
  }

  // ---- References ----

  /** What a reference to a place of the priority cache gives. */
  function Referred(slots: seq<Slot>, index: int, r: Reader): Result<Value> {
    if index >= |slots| then Err(BeyondCache)
    else if index < 0 then Err(BadIndex)
    else if slots[index].UnderConstruction? then Err(CircularReference)
    else Ok(slots[index].value, r)
  }

  lemma PackedReference(index: nat, tail: seq<byte>, n: nat, c: Caches, h: Config)
    requires index < 32
    ensures ReadObject(At([0x80 + index] + tail, n, c, h)) == Referred(c.priority, index, At(tail, n + 1, c, h))
  {
    First(0x80 + index, tail, n, c, h);
  }

  /** A reference with a count, also a negative one, after the code; the same for struct types that are not there. */
  lemma WideReference(num: seq<byte>, index: int, tail: seq<byte>, n: nat, c: Caches, h: Config)
    requires ReadInt32(At(num + tail, n + 1, c, h)) == Ok(index, At(tail, n + 1 + |num|, c, h))
    ensures ReadObject(At([0xCC] + (num + tail), n, c, h)) == Referred(c.priority, index, At(tail, n + 1 + |num|, c, h))
    ensures !(0 <= index < |c.structs|) ==>
              ReadObject(At([0xF0] + (num + tail), n, c, h)) == Err(if index < 0 then BadIndex else BeyondCache)
  {
    First(0xCC, num + tail, n, c, h);
    First(0xF0, num + tail, n, c, h);
  }

  /** An object that is only a reference to itself. */
  lemma SelfReference(index: nat, tail: seq<byte>, n: nat, c: Caches, h: Config)
    requires index == |c.priority| < 32
    ensures ReadObject(At([0xCD] + ([0x80 + index] + tail), n, c, h)) == Err(CircularReference)
  {
    First(0xCD, [0x80 + index] + tail, n, c, h);
    PackedReference(index, tail, n + 1, c.(priority := c.priority + [UnderConstruction]), h);
  }

  lemma PackedStruct(index: nat, tail: seq<byte>, n: nat, c: Caches, h: Config)
    requires index < 16 && index >= |c.structs|
    ensures ReadObject(At([0xA0 + index] + tail, n, c, h)) == Err(BeyondCache)
  {
    First(0xA0 + index, tail, n, c, h);
  }

  // ---- Structs ----

  /** A struct whose tag has a handler is left to the handler before its fields are read. */
  lemma Handled(kind: Builtin, tail: seq<byte>, n: nat, c: Caches, h: Config)
    requires Str(WireOf(kind).tag) in h.handlers
    ensures ReadObject(At([WireOf(kind).code] + tail, n, c, h)) == Err(ExternalHandler)
  {
    First(WireOf(kind).code, tail, n, c, h);
    BuiltinRead(kind);
  }

  lemma TypeRefused(r: Reader, t: Value, r1: Reader, fields: int, r2: Reader)
    requires ReadObject(r) == Ok(t, r1) && ReadInt32(r1) == Ok(fields, r2) && r2.config == r.config
    requires t in r.config.handlers || fields < 0
    ensures ReadStructType(r) == Err(if t in r.config.handlers then ExternalHandler else NegativeLength)
  {
  }

  lemma TypeCode(r: Reader)
    ensures Read(STRUCTTYPE, r) == ReadStructType(r)
  {
  }

  /** The same for a struct type that the stream defines, and for one with a negative number of fields. */
  lemma HandledType(tag: seq<byte>, t: Value, num: seq<byte>, fields: int, tail: seq<byte>, n: nat, c: Caches,
                    c1: Caches, h: Config)
    requires Denotes(tag, c, h, t, c1) && (t in h.handlers || fields < 0)
    requires ReadInt32(At(num + tail, n + 1 + |tag|, c1, h)) == Ok(fields, At(tail, n + 1 + |tag| + |num|, c1, h))
    ensures ReadObject(At([0xEF] + (tag + (num + tail)), n, c, h)) ==
            Err(if t in h.handlers then ExternalHandler else NegativeLength)
  {
    var r := At(tag + (num + tail), n + 1, c, h);
    assert ReadObject(r) == Ok(t, At(num + tail, n + 1 + |tag|, c1, h));
    TypeRefused(r, t, At(num + tail, n + 1 + |tag|, c1, h), fields, At(tail, n + 1 + |tag| + |num|, c1, h));
    TypeCode(r);
    RefusedAfter(0xEF, tag + (num + tail), n, c, h, if t in h.handlers then ExternalHandler else NegativeLength);
  }

  // ---- Ends ----

  lemma UnendedList(body: seq<byte>, k: nat, vs: seq<Value>, n: nat, c: Caches, c': Caches, h: Config)
    requires DenotesAll(body, k, c, h, vs, c')
    ensures ReadClosedList(At(body, n, c, h), []) == Err(Eof)
  {
    assert body + [] == body;
    assert ReadClosedList(At(body + [], n, c, h), []) == ReadClosedList(At([], n + |body|, c', h), [] + vs);
  }

  lemma ClosedCode(r: Reader)
    requires ReadClosedList(r, []) == Err(Eof)
    ensures Read(0xED, r) == Err(Eof)
  {
  }

  /** A closed list must be ended, however many elements it has. */
  lemma ClosedListAtEof(items: seq<Enc>, n: nat, c: Caches, h: Config)
    requires MeaningAll(items, c, h).Some?
    ensures ReadObject(At([0xED] + EncodeAll(items), n, c, h)) == Err(Eof)
  {
    var (vs, c') := MeaningAll(items, c, h).value;
    AllBack(items, c, h);
    UnendedList(EncodeAll(items), |items|, vs, n + 1, c, c', h);
    ClosedCode(At(EncodeAll(items), n + 1, c, h));
    RefusedAfter(0xED, EncodeAll(items), n, c, h, Eof);
  }
}
