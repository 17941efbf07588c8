/** The reader object. Each routine changes the stream position and the two caches in place, and is
    proved to do what the function of the same name in `Fressian` says. */
module FressianReader {
  import opened Words
  import opened Wrappers
  import F = Fressian
  import opened Fressian

  /** What a routine returns or throws. */
  datatype Outcome<+T> = Done(value: T) | Failed(error: Error)

  /** The routine did what `spec` says: on success it also left the reader there. What a reader is like
      after an exception is not specified. */
  ghost predicate Agrees<T>(spec: Result<T>, out: Outcome<T>, now: Reader) {
    match spec
    case Ok(v, r) => out == Done(v) && now == r
    case Err(e) => out == Failed(e)
  }

  function Flatten(chunks: seq<seq<byte>>): seq<byte> {
    if chunks == [] then [] else Flatten(chunks[..|chunks| - 1]) + chunks[|chunks| - 1]
  }

  class FressianReader {
    var rest: seq<byte>
    var bytesRead: nat
    var priorityCache: seq<Slot>
    var structCache: seq<StructType>
    const config: Config

    ghost function View(): Reader
      reads this
    {
      Reader(rest, bytesRead, priorityCache, structCache, config)
    }

    constructor (input: seq<byte>, config: Config)
      ensures View() == Reader(input, 0, [], [], config)
    {
      rest, bytesRead, priorityCache, structCache := input, 0, [], [];
      this.config := config;
    }

    method ReadNextCode() returns (out: Outcome<byte>)
      modifies this
      ensures old(rest) == [] ==> out == Failed(Eof) && View() == old(View())
      ensures old(rest) != [] ==> out == Done(old(rest)[0]) && View() == Next(old(View()))
    {
      if rest == [] {
        return Failed(Eof);
      }
      out := Done(rest[0]);
      rest, bytesRead := rest[1..], bytesRead + 1;
    }

    method ReadFully(n: nat) returns (out: Outcome<seq<byte>>)
      modifies this
      ensures Agrees(ReadRaw(old(View()), n), out, View())
    {
      if |rest| < n {
        return Failed(Eof);
      }
      out := Done(rest[..n]);
      rest, bytesRead := rest[n..], bytesRead + n;
    }

    method ResetCaches()
      modifies this
      ensures View() == F.ResetCaches(old(View()))
    {
      priorityCache, structCache := [], [];
    }

    method LookupPriority(index: int) returns (out: Outcome<Value>)
      ensures Agrees(F.LookupPriority(View(), index), out, View())
    {
      if index >= |priorityCache| {
        return Failed(BeyondCache);
      }
      if index < 0 {
        return Failed(BadIndex);
      }
      match priorityCache[index] {
        case UnderConstruction => out := Failed(CircularReference);
        case Cached(v) => out := Done(v);
      }
    }

    method LookupStruct(index: int) returns (out: Outcome<StructType>)
      ensures Agrees(F.LookupStruct(View(), index), out, View())
    {
      if index >= |structCache| {
        return Failed(BeyondCache);
      }
      if index < 0 {
        return Failed(BadIndex);
      }
      out := Done(structCache[index]);
    }

    method ReadPacked(code: byte) returns (out: Outcome<int>)
      requires IsIntCode(code)
      modifies this
      ensures Agrees(F.ReadPacked(code, old(View())), out, View())
    {
      if code == 0xFF {
        return Done(-1);
      }
      if code < 0x40 {
        return Done(code);
      }
      if code == INT {
        var raw := ReadFully(8);
        match raw {
          case Done(bs) => out := Done(Compose(if bs[0] < 0x80 then 0 else -1, bs));
          case Failed(e) => out := Failed(e);
        }
      } else {
        var (zero, width) := PackedFamily(code);
        var raw := ReadFully(width);
        match raw {
          case Done(bs) => out := Done(Compose(code - zero, bs));
          case Failed(e) => out := Failed(e);
        }
      }
    }

    method ReadOr(prefix: int, width: nat) returns (out: Outcome<int>)
      modifies this
      ensures Agrees(F.ReadOr(old(View()), prefix, width), out, View())
    {
      var raw := ReadFully(width);
      match raw {
        case Done(bs) => out := Done(OrShifted(prefix, bs));
        case Failed(e) => out := Failed(e);
      }
    }

    method ReadDirect(code: byte) returns (out: Outcome<int>)
      requires IsIntCode(code)
      modifies this
      ensures Agrees(F.ReadDirect(code, old(View())), out, View())
    {
      if code == 0xFF {
        out := Done(-1);
      } else if code < 0x40 {
        out := Done(code);
      } else if code < 0x60 {
        out := ReadOr(code - 0x50, 1);
      } else if code < 0x70 {
        out := ReadOr(code - 0x68, 2);
      } else if code < 0x74 {
        out := ReadOr(code - 0x72, 3);
      } else if code < 0x78 {
        out := ReadOr(code - 0x76, 4);
      } else if code < 0x7C {
        out := ReadOr(code - 0x7A, 5);
      } else if code < 0x80 {
        out := ReadOr(code - 0x7E, 6);
      } else {
        var raw := ReadFully(8);
        match raw {
          case Done(bs) => out := Done(Signed(Compose(0, bs)));
          case Failed(e) => out := Failed(e);
        }
      }
    }

    method ReadObject() returns (out: Outcome<Value>)
      modifies this
      ensures Agrees(F.ReadObject(old(View())), out, View())
      decreases |rest|, 0
    {
      var code := ReadNextCode();
      if code.Failed? {
        return Failed(code.error);
      }
      out := Read(code.value);
    }

    method ReadInt() returns (out: Outcome<int>)
      modifies this
      ensures Agrees(F.ReadInt(old(View())), out, View())
      decreases |rest|, 0
    {
      var code := ReadNextCode();
      if code.Failed? {
        return Failed(code.error);
      }
      if IsIntCode(code.value) {
        out := ReadDirect(code.value);
        return;
      }
      var o := Read(code.value);
      if o.Failed? {
        return Failed(o.error);
      }
      out := if o.value.Int? then Done(o.value.n) else Failed(NotAnInt);
    }

    method ReadInt32() returns (out: Outcome<int>)
      modifies this
      ensures Agrees(F.ReadInt32(old(View())), out, View())
      decreases |rest|, 1
    {
      out := ReadInt();
      if out.Done? && !(-0x8000_0000 <= out.value < 0x8000_0000) {
        out := Failed(NotInt32);
      }
    }

    method ReadCounted() returns (out: Outcome<seq<byte>>)
      modifies this
      ensures Agrees(F.ReadCounted(old(View())), out, View())
      decreases |rest|, 2
    {
      var n := ReadInt32();
      if n.Failed? {
        return Failed(n.error);
      }
      if n.value < 0 {
        return Failed(NegativeLength);
      }
      out := ReadFully(n.value);
    }

    /** The chunks are gathered first and copied together at the end. */
    method ReadChunkedBytes() returns (out: Outcome<seq<byte>>)
      modifies this
      ensures Agrees(ReadByteChunks(BYTES_CHUNK, old(View()), []), out, View())
      decreases |rest|, 3
    {
      var chunks: seq<seq<byte>> := [];
      var code: byte := BYTES_CHUNK;
      ghost var spec := ReadByteChunks(BYTES_CHUNK, View(), []);
      while code == BYTES_CHUNK
        invariant |rest| <= old(|rest|)
        invariant ReadByteChunks(code, View(), Flatten(chunks)) == spec
        decreases |rest|
      {
        var chunk := ReadCounted();
        if chunk.Failed? {
          return Failed(chunk.error);
        }
        chunks := chunks + [chunk.value];
        assert chunks[..|chunks| - 1] + [chunk.value] == chunks;
        var next := ReadNextCode();
        if next.Failed? {
          return Failed(next.error);
        }
        code := next.value;
      }
      if code != BYTES {
        return Failed(UnexpectedCode);
      }
      var last := ReadCounted();
      if last.Failed? {
        return Failed(last.error);
      }
      chunks := chunks + [last.value];
      var result: seq<byte> := [];
      for n := 0 to |chunks|
        invariant result == Flatten(chunks[..n])
      {
        assert chunks[..n + 1][..n] == chunks[..n];
        result := result + chunks[n];
      }
      assert chunks[..|chunks|] == chunks;
      out := Done(result);
    }

    /** The first chunk has been announced by its code; `buf` grows until the last one. */
    method ReadChunkedString() returns (out: Outcome<seq<byte>>)
      modifies this
      ensures Agrees(ReadStringChunks(STRING_CHUNK, old(View()), []), out, View())
      decreases |rest|, 3
    {
      ghost var spec := ReadStringChunks(STRING_CHUNK, View(), []);
      var buf: seq<byte> := [];
      var code: byte := STRING_CHUNK;
      var done := false;
      while !done
        invariant |rest| <= old(|rest|)
        invariant !done ==> ReadStringChunks(code, View(), buf) == spec
        invariant done ==> spec == Ok(buf, View())
        decreases !done, |rest|
      {
        if STRING_PACKED_LENGTH_START <= code < STRING_CHUNK {
          var chunk := ReadFully(code - STRING_PACKED_LENGTH_START);
          if chunk.Failed? {
            return Failed(chunk.error);
          }
          buf, done := buf + chunk.value, true;
        } else if code == STRING || code == STRING_CHUNK {
          var chunk := ReadCounted();
          if chunk.Failed? {
            return Failed(chunk.error);
          }
          buf, done := buf + chunk.value, code == STRING;
          if !done {
            var next := ReadNextCode();
            if next.Failed? {
              return Failed(next.error);
            }
            code := next.value;
          }
        } else {
          return Failed(UnexpectedCode);
        }
      }
      out := Done(buf);
    }

    method ReadObjects(length: nat) returns (out: Outcome<seq<Value>>)
      modifies this
      ensures Agrees(F.ReadObjects(old(View()), length, []), out, View())
      decreases |rest|, 1
    {
      ghost var spec := F.ReadObjects(View(), length, []);
      var objects: seq<Value> := [];
      for n := 0 to length
        invariant |rest| <= old(|rest|)
        invariant F.ReadObjects(View(), length - n, objects) == spec
      {
        var o := ReadObject();
        if o.Failed? {
          return Failed(o.error);
        }
        objects := objects + [o.value];
      }
      out := Done(objects);
    }

    method ReadList(length: int) returns (out: Outcome<Value>)
      modifies this
      ensures Agrees(F.ReadList(old(View()), length), out, View())
      decreases |rest|, 2
    {
      if length < 0 {
        return Failed(NegativeLength);
      }
      var objects := ReadObjects(length);
      out := match objects case Done(vs) => Done(List(vs)) case Failed(e) => Failed(e);
    }

    method ReadClosedList() returns (out: Outcome<seq<Value>>)
      modifies this
      ensures Agrees(F.ReadClosedList(old(View()), []), out, View())
      decreases |rest|, 0
    {
      ghost var spec := F.ReadClosedList(View(), []);
      var objects: seq<Value> := [];
      while true
        invariant |rest| <= old(|rest|)
        invariant F.ReadClosedList(View(), objects) == spec
        decreases |rest|
      {
        var code := ReadNextCode();
        if code.Failed? {
          return Failed(code.error);
        }
        if code.value == END_COLLECTION {
          return Done(objects);
        }
        var o := Read(code.value);
        if o.Failed? {
          return Failed(o.error);
        }
        objects := objects + [o.value];
      }
    }

    /** The end of the input, where a code should be, counts as the end of the list. */
    method ReadOpenList() returns (out: Outcome<seq<Value>>)
      modifies this
      ensures Agrees(F.ReadOpenList(old(View()), []), out, View())
      decreases |rest|, 0
    {
      ghost var spec := F.ReadOpenList(View(), []);
      var objects: seq<Value> := [];
      while true
        invariant |rest| <= old(|rest|)
        invariant F.ReadOpenList(View(), objects) == spec
        decreases |rest|
      {
        var next := ReadNextCode();
        var code := if next.Failed? then END_COLLECTION else next.value;
        if code == END_COLLECTION {
          return Done(objects);
        }
        var o := Read(code);
        if o.Failed? {
          return Failed(o.error);
        }
        objects := objects + [o.value];
      }
    }

    method ReadAndCache() returns (out: Outcome<Value>)
      modifies this
      ensures Agrees(F.ReadAndCache(old(View())), out, View())
      decreases |rest|, 1
    {
      var index := |priorityCache|;
      priorityCache := priorityCache + [UnderConstruction];
      out := ReadObject();
      if out.Done? {
        if index >= |priorityCache| {
          return Failed(BadIndex);
        }
        priorityCache := priorityCache[index := Cached(out.value)];
      }
    }

    method HandleStruct(tag: Value, fields: int) returns (out: Outcome<Value>)
      modifies this
      ensures Agrees(F.HandleStruct(old(View()), tag, fields), out, View())
      decreases |rest|, 3
    {
      if tag in config.handlers {
        return Failed(ExternalHandler);
      }
      if fields < 0 {
        return Failed(NegativeLength);
      }
      var objects := ReadObjects(fields);
      out := match objects case Done(vs) => Done(Tagged(tag, vs)) case Failed(e) => Failed(e);
    }

    method ReadStructType() returns (out: Outcome<Value>)
      modifies this
      ensures Agrees(F.ReadStructType(old(View())), out, View())
      decreases |rest|, 1
    {
      var tag := ReadObject();
      if tag.Failed? {
        return Failed(tag.error);
      }
      var fields := ReadInt32();
      if fields.Failed? {
        return Failed(fields.error);
      }
      structCache := structCache + [StructType(tag.value, fields.value)];
      out := HandleStruct(tag.value, fields.value);
    }

    method ReadPastFooter() returns (out: Outcome<Value>)
      modifies this
      ensures Agrees(F.ReadPastFooter(old(View())), out, View())
      decreases |rest|, 1
    {
      var calculatedLength := bytesRead - 1;
      var magic := ReadFully(3);
      if magic.Failed? {
        return Failed(magic.error);
      }
      if magic.value != [FOOTER, FOOTER, FOOTER] {
        return Failed(BadFooter);
      }
      var length := ReadFully(4);
      if length.Failed? {
        return Failed(length.error);
      }
      if Compose(0, length.value) != calculatedLength % 0x1_0000_0000 {
        return Failed(BadFooter);
      }
      var checksum := ReadFully(4);
      if checksum.Failed? {
        return Failed(checksum.error);
      }
      if !Validates(config, |rest|, checksum.value) {
        return Failed(BadChecksum);
      }
      bytesRead := 0;
      ResetCaches();
      out := ReadObject();
    }

    method ReadCachedStruct(index: int) returns (out: Outcome<Value>)
      modifies this
      ensures
        Agrees(match F.LookupStruct(old(View()), index)
               case Ok(st, r) => F.HandleStruct(r, st.tag, st.fields)
               case Err(e) => Err(e), out, View())
      decreases |rest|, 4
    {
      var st := LookupStruct(index);
      if st.Failed? {
        return Failed(st.error);
      }
      out := HandleStruct(st.value.tag, st.value.fields);
    }

    method Read(code: byte) returns (out: Outcome<Value>)
      modifies this
      ensures Agrees(F.Read(code, old(View())), out, View())
      decreases |rest|, 5
    {
      if IsIntCode(code) {
        var n := ReadPacked(code);
        out := match n case Done(k) => Done(Int(k)) case Failed(e) => Failed(e);
      } else if code < STRUCT_CACHE_PACKED_START {
        out := LookupPriority(code - PRIORITY_CACHE_PACKED_START);
      } else if code < 0xB0 {
        out := ReadCachedStruct(code - STRUCT_CACHE_PACKED_START);
      } else if BuiltinStruct(code).Some? {
        out := HandleStruct(BuiltinStruct(code).value.tag, BuiltinStruct(code).value.fields);
      } else if code == GET_PRIORITY_CACHE {
        var index := ReadInt32();
        if index.Failed? {
          return Failed(index.error);
        }
        out := LookupPriority(index.value);
      } else if code == PUT_PRIORITY_CACHE {
        out := ReadAndCache();
      } else if code == FOOTER {
        out := ReadPastFooter();
      } else if BYTES_PACKED_LENGTH_START <= code <= BYTES {
        out := ReadBytesObject(code);
      } else if STRING_PACKED_LENGTH_START <= code <= STRING {
        out := ReadStringObject(code);
      } else if LIST_PACKED_LENGTH_START <= code <= BEGIN_OPEN_LIST {
        out := ReadListObject(code);
      } else if code == STRUCTTYPE {
        out := ReadStructType();
      } else if code == STRUCT {
        var index := ReadInt32();
        if index.Failed? {
          return Failed(index.error);
        }
        out := ReadCachedStruct(index.value);
      } else if code == RESET_CACHES {
        ResetCaches();
        out := ReadObject();
      } else if TRUE <= code <= DOUBLE_1 {
        out := ReadConstant(code);
      } else {
        out := Failed(UnexpectedCode);
      }
    }

    method ReadBytesObject(code: byte) returns (out: Outcome<Value>)
      requires BYTES_PACKED_LENGTH_START <= code <= BYTES
      modifies this
      ensures Agrees(F.Read(code, old(View())), out, View())
      decreases |rest|, 4
    {
      var data;
      if code < BYTES_CHUNK {
        data := ReadFully(code - BYTES_PACKED_LENGTH_START);
      } else if code == BYTES {
        data := ReadCounted();
      } else {
        data := ReadChunkedBytes();
      }
      assert data.Done? ==> [] + data.value == data.value;
      out := match data case Done(bs) => Done(Bytes(bs)) case Failed(e) => Failed(e);
    }

    method ReadStringObject(code: byte) returns (out: Outcome<Value>)
      requires STRING_PACKED_LENGTH_START <= code <= STRING
      modifies this
      ensures Agrees(F.Read(code, old(View())), out, View())
      decreases |rest|, 4
    {
      var data;
      if code < STRING_CHUNK {
        data := ReadFully(code - STRING_PACKED_LENGTH_START);
      } else if code == STRING {
        data := ReadCounted();
      } else {
        data := ReadChunkedString();
      }
      assert data.Done? ==> [] + data.value == data.value;
      out := match data case Done(bs) => Done(Str(bs)) case Failed(e) => Failed(e);
    }

    method ReadListObject(code: byte) returns (out: Outcome<Value>)
      requires LIST_PACKED_LENGTH_START <= code <= BEGIN_OPEN_LIST
      modifies this
      ensures Agrees(F.Read(code, old(View())), out, View())
      decreases |rest|, 4
    {
      if code < LIST {
        out := ReadList(code - LIST_PACKED_LENGTH_START);
      } else if code == LIST {
        var length := ReadInt32();
        if length.Failed? {
          return Failed(length.error);
        }
        out := ReadList(length.value);
      } else {
        var objects;
        if code == BEGIN_CLOSED_LIST {
          objects := ReadClosedList();
        } else {
          objects := ReadOpenList();
        }
        out := match objects case Done(vs) => Done(List(vs)) case Failed(e) => Failed(e);
      }
    }

    /** The codes that stand for one value, and floating-point numbers. */
    method ReadConstant(code: byte) returns (out: Outcome<Value>)
      requires TRUE <= code <= DOUBLE_1 && code != INT
      modifies this
      ensures Agrees(F.Read(code, old(View())), out, View())
    {
      if code == TRUE {
        out := Done(Bool(true));
      } else if code == FALSE {
        out := Done(Bool(false));
      } else if code == NULL {
        out := Done(Null);
      } else if code == FLOAT {
        var raw := ReadFully(4);
        out := match raw case Done(bits) => Done(Float(bits)) case Failed(e) => Failed(e);
      } else if code == DOUBLE {
        var raw := ReadFully(8);
        out := match raw case Done(bits) => Done(Double(bits)) case Failed(e) => Failed(e);
      } else if code == DOUBLE_0 {
        out := Done(Double(ZERO_BITS));
      } else {
        out := Done(Double(ONE_BITS));
      }
    }
  }
}
