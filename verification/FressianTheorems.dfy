/** What follows for streams: round trips with a writer, unambiguous streams, footers, resets, and the
    two ways of reading an integer. */
module FressianTheorems {
  import opened Wrappers
  import opened Fressian
  import opened FressianBytes
  import opened FressianRoundTrip
  import opened Words

  /** An encoding is read as the value it means; exactly its bytes are taken, and the caches are left
      as the encoder's are. */
  lemma RoundTrip(e: Enc, r: Reader, rest: seq<byte>)
    requires r.rest == Encode(e) + rest && Meaning(e, Caches(r.priority, r.structs), r.config).Some?
    ensures
      var (v, c) := Meaning(e, Caches(r.priority, r.structs), r.config).value;
      ReadObject(r) ==
      Ok(v, Reader(rest, r.bytesRead + |Encode(e)|, c.priority, c.structs, r.config))
  {
    var c := Caches(r.priority, r.structs);
    Back(e, c, r.config);
    assert r == At(Encode(e) + rest, r.bytesRead, c, r.config);
  }

  /** The same bytes cannot be two encodings with different values, lengths or caches. */
  lemma Unambiguous(e: Enc, tail: seq<byte>, e': Enc, tail': seq<byte>, c: Caches, h: Config)
    requires Meaning(e, c, h).Some? && Meaning(e', c, h).Some?
    requires Encode(e) + tail == Encode(e') + tail'
    ensures Encode(e) == Encode(e') && tail == tail' && Meaning(e, c, h) == Meaning(e', c, h)
  {
    var r := At(Encode(e) + tail, 0, c, h);
    RoundTrip(e, r, tail);
    RoundTrip(e', r, tail');
    var (v, d) := Meaning(e, c, h).value;
    var (v', d') := Meaning(e', c, h).value;
    assert Ok(v, At(tail, |Encode(e)|, d, h)) == Ok(v', At(tail', |Encode(e')|, d', h));
    assert Encode(e) == (Encode(e) + tail)[..|Encode(e)|];
    assert Encode(e') == (Encode(e') + tail')[..|Encode(e')|];
  }

  // ---- A writer ----

  /** The values that the format can hold. */
  predicate Writable(v: Value, h: Config) {
    match v
    case Int(n) => IntFits(8, n)
    case Double(bits) => |bits| == 8
    case Float(bits) => |bits| == 4
    case Bytes(data) => |data| < 0x8000_0000
    case Str(data) => |data| < 0x8000_0000
    case List(items) => |items| < 0x8000_0000 && forall i :: 0 <= i < |items| ==> Writable(items[i], h)
    case Tagged(tag, fields) =>
      tag !in h.handlers && Writable(tag, h) && |fields| < 0x8000_0000
      && forall i :: 0 <= i < |fields| ==> Writable(fields[i], h)
    case _ => true
  }

  function Shortest(n: int): nat {
    if IntFits(0, n) then 0
    else if IntFits(1, n) then 1
    else if IntFits(2, n) then 2
    else if IntFits(3, n) then 3
    else if IntFits(4, n) then 4
    else if IntFits(5, n) then 5
    else if IntFits(6, n) then 6
    else 8
  }

  lemma ShortestFits(n: int)
    requires IntFits(8, n)
    ensures IntFits(Shortest(n), n)
    ensures forall width :: IntFits(width, n) ==> |IntBytes(Shortest(n), n)| <= |IntBytes(width, n)|
  {
  }

  function IndexOf<T(==)>(xs: seq<T>, x: T): (i: nat)
    ensures i <= |xs| && (i < |xs| ==> xs[i] == x)
  {
    if xs == [] then 0 else if xs[0] == x then 0 else 1 + IndexOf(xs[1..], x)
  }

  function RefTo(index: nat, limit: nat): RefForm {
    if index < limit then PackedRef else WideRef(Shortest(index))
  }

  function PlainString(data: seq<byte>): Enc {
    if |data| < 8 then EStrPacked([], data) else EStr([], Chunk(Shortest(|data|), data))
  }

  function CachesAfter(e: Enc, c: Caches, h: Config): Caches {
    match Meaning(e, c, h)
    case Some((_, c')) => c'
    case None => c
  }

  /** A writer that takes the shortest form of everything, defines each struct type and caches each
      string once, and refers to them afterwards. */
  function Write(v: Value, c: Caches, h: Config): Enc
    decreases v
  {
    match v
    case Null => ENull
    case Bool(b) => EBool(b)
    case Int(n) => EInt(Shortest(n), n)
    case Double(bits) => if bits == ZERO_BITS then EDouble0 else if bits == ONE_BITS then EDouble1 else EDouble(bits)
    case Float(bits) => EFloat(bits)
    case Bytes(data) => if |data| < 8 then EBytesPacked(data) else EBytes([], Chunk(Shortest(|data|), data))
    case Str(data) =>
      var i := IndexOf(c.priority, Cached(v));
      if i < |c.priority| && i < 0x8000_0000 then ERef(RefTo(i, 32), i) else ECached(PlainString(data))
    case List(items) =>
      EList(if |items| < 8 then Packed else Counted(Shortest(|items|)), WriteAll(items, c, h))
    case Tagged(tag, fields) =>
      var i := IndexOf(c.structs, StructType(tag, |fields|));
      if i < |c.structs| && i < 0x8000_0000 then EStruct(RefTo(i, 16), i, WriteAll(fields, c, h))
      else
        var t := Write(tag, c, h);
        var c1 := CachesAfter(t, c, h);
        var c2 := c1.(structs := c1.structs + [StructType(tag, |fields|)]);
        EStructType(t, Shortest(|fields|), WriteAll(fields, c2, h))
  }

  function WriteAll(vs: seq<Value>, c: Caches, h: Config): (es: seq<Enc>)
    ensures |es| == |vs|
    decreases vs
  {
    if vs == [] then []
    else
      var e := Write(vs[0], c, h);
      [e] + WriteAll(vs[1..], CachesAfter(e, c, h), h)
  }

  lemma CountForm(n: nat)
    requires n < 0x8000_0000
    ensures CountFits(Shortest(n), n)
  {
    assert IntFits(8, n);
    ShortestFits(n);
  }

  lemma StringMeans(data: seq<byte>, c: Caches, h: Config)
    requires |data| < 0x8000_0000
    ensures Meaning(PlainString(data), c, h) == Some((Str(data), c)) && !Resets(PlainString(data))
  {
    CountForm(|data|);
    assert Joined([]) + data == data;
    assert [] + [Chunk(Shortest(|data|), data)] == [Chunk(Shortest(|data|), data)];
  }

  lemma WriteBytesMeans(data: seq<byte>, c: Caches, h: Config)
    requires |data| < 0x8000_0000
    ensures Meaning(Write(Bytes(data), c, h), c, h) == Some((Bytes(data), c))
  {
    CountForm(|data|);
    assert Joined([]) + data == data;
    assert [] + [Chunk(Shortest(|data|), data)] == [Chunk(Shortest(|data|), data)];
  }

  lemma WriteStringMeans(data: seq<byte>, c: Caches, h: Config)
    requires |data| < 0x8000_0000
    ensures
      var m := Meaning(Write(Str(data), c, h), c, h);
      m.Some? && m.value.0 == Str(data)
  {
    var i := IndexOf(c.priority, Cached(Str(data)));
    if i < |c.priority| && i < 0x8000_0000 {
      CountForm(i);
    } else {
      StringMeans(data, c.(priority := c.priority + [UnderConstruction]), h);
    }
  }

  lemma WriteScalarMeans(v: Value, c: Caches, h: Config)
    requires Writable(v, h) && !v.List? && !v.Tagged?
    ensures
      var m := Meaning(Write(v, c, h), c, h);
      m.Some? && m.value.0 == v
  {
    match v
    case Int(n) => ShortestFits(n);
    case Bytes(data) => WriteBytesMeans(data, c, h);
    case Str(data) => WriteStringMeans(data, c, h);
    case _ =>
  }

  lemma {:induction false} WriteMeans(v: Value, c: Caches, h: Config)
    requires Writable(v, h)
    ensures
      var m := Meaning(Write(v, c, h), c, h);
      m.Some? && m.value.0 == v
    decreases v, 1
  {
    match v
    case List(items) =>
      CountForm(|items|);
      WriteAllMeans(items, c, h);
    case Tagged(_, _) => WriteTaggedMeans(v, c, h);
    case _ => WriteScalarMeans(v, c, h);
  }

  lemma KnownMeans(tag: Value, fields: seq<Value>, i: nat, es: seq<Enc>, c: Caches, h: Config)
    requires i < |c.structs| && i < 0x8000_0000 && c.structs[i] == StructType(tag, |es|) && tag !in h.handlers
    requires MeaningAll(es, c, h).Some? && MeaningAll(es, c, h).value.0 == fields
    ensures var m := Meaning(EStruct(RefTo(i, 16), i, es), c, h); m.Some? && m.value.0 == Tagged(tag, fields)
  {
    CountForm(i);
  }

  lemma DefinedMeans(tag: Value, t: Enc, fields: seq<Value>, es: seq<Enc>, c: Caches, c1: Caches, h: Config)
    requires |es| < 0x8000_0000 && tag !in h.handlers && Meaning(t, c, h) == Some((tag, c1))
    requires
      var m := MeaningAll(es, c1.(structs := c1.structs + [StructType(tag, |es|)]), h);
      m.Some? && m.value.0 == fields
    ensures var m := Meaning(EStructType(t, Shortest(|es|), es), c, h); m.Some? && m.value.0 == Tagged(tag, fields)
  {
    CountForm(|es|);
  }

  lemma {:induction false} WriteTaggedMeans(v: Value, c: Caches, h: Config)
    requires v.Tagged? && Writable(v, h)
    ensures
      var m := Meaning(Write(v, c, h), c, h);
      m.Some? && m.value.0 == v
    decreases v, 0
  {
    var st := StructType(v.tag, |v.fields|);
    var i := IndexOf(c.structs, st);
    if i < |c.structs| && i < 0x8000_0000 {
      WriteAllMeans(v.fields, c, h);
      KnownMeans(v.tag, v.fields, i, WriteAll(v.fields, c, h), c, h);
    } else {
      var t := Write(v.tag, c, h);
      var c1 := CachesAfter(t, c, h);
      var c2 := c1.(structs := c1.structs + [st]);
      WriteMeans(v.tag, c, h);
      WriteAllMeans(v.fields, c2, h);
      DefinedMeans(v.tag, t, v.fields, WriteAll(v.fields, c2, h), c, c1, h);
    }
  }

  lemma {:induction false} WriteAllMeans(vs: seq<Value>, c: Caches, h: Config)
    requires forall i :: 0 <= i < |vs| ==> Writable(vs[i], h)
    ensures
      var m := MeaningAll(WriteAll(vs, c, h), c, h);
      m.Some? && m.value.0 == vs
    decreases vs, 0
  {
    if vs != [] {
      WriteMeans(vs[0], c, h);
      var e := Write(vs[0], c, h);
      var c1 := CachesAfter(e, c, h);
      WriteAllMeans(vs[1..], c1, h);
      assert WriteAll(vs, c, h)[1..] == WriteAll(vs[1..], c1, h);
      assert [vs[0]] + vs[1..] == vs;
    }
  }

  /** Every value, written from any caches and read with the same caches, comes back; nothing more is
      read, and reader and writer agree on the caches again. */
  lemma WriteThenRead(v: Value, r: Reader, rest: seq<byte>)
    requires Writable(v, r.config)
    requires r.rest == Encode(Write(v, Caches(r.priority, r.structs), r.config)) + rest
    ensures
      var c := Caches(r.priority, r.structs);
      var e := Write(v, c, r.config);
      var c' := CachesAfter(e, c, r.config);
      ReadObject(r) == Ok(v, Reader(rest, r.bytesRead + |Encode(e)|, c'.priority, c'.structs, r.config))
  {
    WriteMeans(v, Caches(r.priority, r.structs), r.config);
    RoundTrip(Write(v, Caches(r.priority, r.structs), r.config), r, rest);
  }

  // ---- Lists without an end ----

  lemma OpenToTheEnd(body: seq<byte>, k: nat, vs: seq<Value>, n: nat, c: Caches, c': Caches, h: Config)
    requires DenotesAll(body, k, c, h, vs, c')
    ensures ReadObject(At([BEGIN_OPEN_LIST] + body, n, c, h)) == Ok(List(vs), At([], n + 1 + |body|, c', h))
  {
    First(BEGIN_OPEN_LIST, body, n, c, h);
    assert body + [] == body && [] + vs == vs;
    assert ReadOpenList(At(body + [], n + 1, c, h), []) == ReadOpenList(At([], n + 1 + |body|, c', h), [] + vs);
  }

  /** An open list may end with the stream instead of its end code. */
  lemma OpenListAtEof(items: seq<Enc>, n: nat, c: Caches, h: Config)
    requires MeaningAll(items, c, h).Some?
    ensures
      var (vs, c') := MeaningAll(items, c, h).value;
      var bs := [BEGIN_OPEN_LIST] + EncodeAll(items);
      ReadObject(At(bs, n, c, h)) == Ok(List(vs), At([], n + |bs|, c', h))
  {
    var (vs, c') := MeaningAll(items, c, h).value;
    AllBack(items, c, h);
    OpenToTheEnd(EncodeAll(items), |items|, vs, n, c, c', h);
  }

  // ---- Resets and footers ----

  lemma CachedOutcome(body: seq<byte>, v: Value, c: Caches, c1: Caches, h: Config, rest: seq<byte>, n: nat)
    requires Denotes(body, c.(priority := c.priority + [UnderConstruction]), h, v, c1)
    ensures
      ReadObject(At([PUT_PRIORITY_CACHE] + body + rest, n, c, h)) ==
      if |c.priority| < |c1.priority|
      then Ok(v, At(rest, n + 1 + |body|, c1.(priority := c1.priority[|c.priority| := Cached(v)]), h))
      else Err(BadIndex)
  {
    var inside := c.(priority := c.priority + [UnderConstruction]);
    Join3([PUT_PRIORITY_CACHE], body, rest);
    First(PUT_PRIORITY_CACHE, body + rest, n, c, h);
    assert ReadObject(At(body + rest, n + 1, inside, h)) == Ok(v, At(rest, n + 1 + |body|, c1, h));
  }

  /** Any object read into its place in the cache, with resets at any depth inside it: `c1` are the caches after
      the object. If they no longer reach the place, reading fails; otherwise the object takes it, also when
      it is another object's by then. Without a reset inside the place is always there. */
  lemma ResetInsideCached(body: Enc, c: Caches, h: Config, rest: seq<byte>, n: nat)
    requires Meaning(body, c.(priority := c.priority + [UnderConstruction]), h).Some?
    ensures
      var (v, c1) := Meaning(body, c.(priority := c.priority + [UnderConstruction]), h).value;
      && (!Resets(body) ==> |c.priority| < |c1.priority|)
      && ReadObject(At([PUT_PRIORITY_CACHE] + Encode(body) + rest, n, c, h)) ==
         if |c.priority| < |c1.priority|
         then Ok(v, At(rest, n + 1 + |Encode(body)|, c1.(priority := c1.priority[|c.priority| := Cached(v)]), h))
         else Err(BadIndex)
  {
    var inside := c.(priority := c.priority + [UnderConstruction]);
    var (v, c1) := Meaning(body, inside, h).value;
    Back(body, inside, h);
    CachedOutcome(Encode(body), v, c, c1, h, rest, n);
  }

  ghost predicate AllCached(slots: seq<Slot>) {
    forall i :: 0 <= i < |slots| ==> slots[i].Cached?
  }

  /** After an encoding without a reset the old places are as they were and the new ones are filled; after one with
      a reset all places are filled. */
  ghost predicate Filled(before: seq<Slot>, after: seq<Slot>, reset: bool) {
    if reset then AllCached(after) else before <= after && AllCached(after[|before|..])
  }

  lemma FilledThen(a: seq<Slot>, b: seq<Slot>, c: seq<Slot>, first: bool, second: bool)
    requires Filled(a, b, first) && Filled(b, c, second)
    ensures Filled(a, c, first || second)
  {
    if !second {
      assert c == b + c[|b|..];
    }
  }

  lemma PlaceFilled(before: seq<Slot>, after: seq<Slot>, reset: bool, v: Value)
    requires Filled(before + [UnderConstruction], after, reset) && |before| < |after|
    ensures Filled(before, after[|before| := Cached(v)], reset)
  {
    var next := after[|before| := Cached(v)];
    if !reset {
      assert next[..|before|] == before;
      forall i | |before| < i < |after| ensures next[i].Cached? {
        assert after[i] == after[|before| + 1..][i - (|before| + 1)];
      }
    }
  }

  lemma {:induction false} MeaningFills(e: Enc, c: Caches, h: Config)
    requires Meaning(e, c, h).Some?
    ensures Filled(c.priority, Meaning(e, c, h).value.1.priority, Resets(e))
    decreases e, 1
  {
    match e
    case EList(_, items) => MeaningAllFills(items, c, h);
    case ECached(body) =>
      var inside := c.(priority := c.priority + [UnderConstruction]);
      var (v, c1) := Meaning(body, inside, h).value;
      MeaningFills(body, inside, h);
      PlaceFilled(c.priority, c1.priority, Resets(body), v);
    case EStructType(tag, _, fields) =>
      var (t, c1) := Meaning(tag, c, h).value;
      var c2 := c1.(structs := c1.structs + [StructType(t, |fields|)]);
      MeaningFills(tag, c, h);
      MeaningAllFills(fields, c2, h);
      FilledThen(c.priority, c1.priority, Meaning(e, c, h).value.1.priority, Resets(tag), AnyResets(fields));
    case EStruct(_, _, fields) => MeaningAllFills(fields, c, h);
    case EBuiltin(_, fields) => MeaningAllFills(fields, c, h);
    case EReset(next) =>
      MeaningFills(next, NO_CACHES, h);
      assert Meaning(e, c, h) == Meaning(next, NO_CACHES, h);
    case _ =>
  }

  lemma {:induction false} MeaningAllFills(es: seq<Enc>, c: Caches, h: Config)
    requires MeaningAll(es, c, h).Some?
    ensures Filled(c.priority, MeaningAll(es, c, h).value.1.priority, AnyResets(es))
    decreases es, 0
  {
    if es != [] {
      FirstAndRest(es, c, h);
      var (v, c1) := Meaning(es[0], c, h).value;
      var (vs, c2) := MeaningAll(es[1..], c1, h).value;
      MeaningFills(es[0], c, h);
      MeaningAllFills(es[1..], c1, h);
      FilledThen(c.priority, c1.priority, c2.priority, Resets(es[0]), AnyResets(es[1..]));
    }
  }

  /** The place that was reserved for an object is still there after it and still waits to be filled. */
  predicate StillReserved(before: seq<Slot>, after: seq<Slot>) {
    before < after && after[|before|].UnderConstruction?
  }

  /** A cached object fills the place that it reserved, and no other, if and only if no reset is anywhere inside it. */
  lemma FillsOwnPlace(body: Enc, c: Caches, h: Config)
    requires Meaning(body, c.(priority := c.priority + [UnderConstruction]), h).Some?
    ensures var c1 := Meaning(body, c.(priority := c.priority + [UnderConstruction]), h).value.1;
            StillReserved(c.priority, c1.priority) <==> !Resets(body)
  {
    var inside := c.(priority := c.priority + [UnderConstruction]);
    var after := Meaning(body, inside, h).value.1.priority;
    MeaningFills(body, inside, h);
    if !Resets(body) {
      assert after[..|c.priority|] == inside.priority[..|c.priority|] == c.priority;
      assert after[|c.priority|] == inside.priority[|c.priority|];
    }
  }

  /** A cached null with a reset before it is never read. */
  lemma ResetLosesPlace(c: Caches, h: Config, rest: seq<byte>, n: nat)
    ensures ReadObject(At([PUT_PRIORITY_CACHE] + [RESET_CACHES, NULL] + rest, n, c, h)) == Err(BadIndex)
  {
    var body := EReset(ENull);
    assert Encode(body) == [RESET_CACHES, NULL];
    ResetInsideCached(body, c, h, rest, n);
  }

  /** Inside a cached object a reset and another cached object: the other's place is overwritten, and a reference
      to it afterwards gives the outer object. */
  lemma ResetTakesPlace(h: Config)
    ensures
      var inner := EList(Packed, [ECached(EInt(0, 1))]);
      var e := EList(Packed, [ECached(EReset(inner)), ERef(PackedRef, 0)]);
      var m := Meaning(e, NO_CACHES, h);
      m.Some? && m.value.0 == List([List([Int(1)]), List([Int(1)])])
  {
    var v := List([Int(1)]);
    var outer := ECached(EReset(EList(Packed, [ECached(EInt(0, 1))])));
    InnerMeans(h);
    OuterMeans(EList(Packed, [ECached(EInt(0, 1))]), v, Cached(Int(1)), h);
    PairMeans(outer, ERef(PackedRef, 0), NO_CACHES, Caches([Cached(v)], []), Caches([Cached(v)], []), v, v, h);
  }

  lemma InnerMeans(h: Config)
    ensures Meaning(EList(Packed, [ECached(EInt(0, 1))]), NO_CACHES, h)
         == Some((List([Int(1)]), Caches([Cached(Int(1))], [])))
  {
    var one := ECached(EInt(0, 1));
    assert ([] + [UnderConstruction])[0 := Cached(Int(1))] == [Cached(Int(1))];
    assert Meaning(one, NO_CACHES, h) == Some((Int(1), Caches([Cached(Int(1))], [])));
    OneMeans(one, NO_CACHES, Caches([Cached(Int(1))], []), Int(1), h);
  }

  lemma OuterMeans(body: Enc, v: Value, other: Slot, h: Config)
    requires Meaning(body, NO_CACHES, h) == Some((v, Caches([other], [])))
    ensures Meaning(ECached(EReset(body)), NO_CACHES, h) == Some((v, Caches([Cached(v)], [])))
  {
    assert [other][0 := Cached(v)] == [Cached(v)];
    assert Meaning(EReset(body), NO_CACHES.(priority := [] + [UnderConstruction]), h) == Some((v, Caches([other], [])));
  }

  lemma OneMeans(e: Enc, c: Caches, c1: Caches, v: Value, h: Config)
    requires Meaning(e, c, h) == Some((v, c1))
    ensures MeaningAll([e], c, h) == Some(([v], c1))
  {
    assert [e][1..] == [] && [v] + [] == [v];
    assert MeaningAll([], c1, h) == Some(([], c1));
  }

  lemma PairMeans(a: Enc, b: Enc, c: Caches, c1: Caches, c2: Caches, v: Value, w: Value, h: Config)
    requires Meaning(a, c, h) == Some((v, c1)) && Meaning(b, c1, h) == Some((w, c2))
    ensures Meaning(EList(Packed, [a, b]), c, h) == Some((List([v, w]), c2))
  {
    assert [a, b][1..] == [b];
    OneMeans(b, c1, c2, w, h);
    assert [v] + [w] == [v, w];
  }

  lemma FooterCode(r: Reader)
    ensures Read(FOOTER, r) == ReadPastFooter(r)
  {
  }

  lemma PastFooter(r: Reader, length: seq<byte>, checksum: seq<byte>, tail: seq<byte>)
    requires |length| == 4 && |checksum| == 4 && r.bytesRead > 0
    requires r.rest == [FOOTER, FOOTER, FOOTER] + (length + (checksum + tail))
    ensures ReadPastFooter(r) ==
            if Compose(0, length) != (r.bytesRead - 1) % 0x1_0000_0000 then Err(BadFooter)
            else if !Validates(r.config, |tail|, checksum) then Err(BadChecksum)
            else ReadObject(At(tail, 0, NO_CACHES, r.config))
  {
    ReadRawPrefix(r, [FOOTER, FOOTER, FOOTER], length + (checksum + tail));
    var r1 := After(r, [FOOTER, FOOTER, FOOTER], length + (checksum + tail));
    ReadRawPrefix(r1, length, checksum + tail);
    var r2 := After(r1, length, checksum + tail);
    ReadRawPrefix(r2, checksum, tail);
  }

  /** After a footer everything starts anew, if and only if its length is that of the bytes since the
      last one and its checksum, if the reader validates it, is the right one. */
  lemma FooterThenObject(e: Enc, length: seq<byte>, checksum: seq<byte>, rest: seq<byte>, n: nat, c: Caches, h: Config)
    requires |length| == 4 && |checksum| == 4 && Meaning(e, NO_CACHES, h).Some?
    ensures
      var bs := [FOOTER] + ([FOOTER, FOOTER, FOOTER] + (length + (checksum + (Encode(e) + rest))));
      var (v, c') := Meaning(e, NO_CACHES, h).value;
      ReadObject(At(bs, n, c, h)) ==
      if Compose(0, length) != n % 0x1_0000_0000 then Err(BadFooter)
      else if h.checksums.Some? && Lookup(h.checksums.value, |Encode(e) + rest|) != Some(checksum)
      then Err(BadChecksum)
      else Ok(v, At(rest, |Encode(e)|, c', h))
  {
    var tail := [FOOTER, FOOTER, FOOTER] + (length + (checksum + (Encode(e) + rest)));
    First(FOOTER, tail, n, c, h);
    FooterCode(At(tail, n + 1, c, h));
    PastFooter(At(tail, n + 1, c, h), length, checksum, Encode(e) + rest);
    RoundTrip(e, At(Encode(e) + rest, 0, NO_CACHES, h), rest);
  }

  // ---- Doubles with a code of their own ----

  function Exponent(bits: seq<byte>): int
    requires |bits| == 8
  {
    var high: int, low: int := bits[0], bits[1];
    high % 0x80 * 0x10 + low / 0x10 - 1023
  }

  function Fraction(bits: seq<byte>): real
    requires |bits| == 8
  {
    Compose(bits[1] % 0x10, bits[2..]) as real / 0x10_0000_0000_0000 as real
  }

  function Scale(exponent: int): real {
    if exponent >= 0 then Pow2(exponent) as real else 1.0 / Pow2(-exponent) as real
  }

  /** The number that the bits of a finite double stand for, after IEEE 754: 52 bits of fraction, with a one before
      them unless the exponent is the lowest. */
  function DoubleValue(bits: seq<byte>): real
    requires |bits| == 8
  {
    var magnitude :=
      if Exponent(bits) == -1023 then Fraction(bits) * Scale(-1022) else (1.0 + Fraction(bits)) * Scale(Exponent(bits));
    if bits[0] < 0x80 then magnitude else -magnitude
  }

  lemma {:induction false} ZeroBytes(bs: seq<byte>)
    requires forall i :: 0 <= i < |bs| ==> bs[i] == 0
    ensures Compose(0, bs) == 0
    decreases |bs|
  {
    if bs != [] {
      ZeroBytes(bs[..|bs| - 1]);
    }
  }

  /** The two codes that stand for doubles stand for zero and one. */
  lemma ConstantDoubles()
    ensures DoubleValue(ZERO_BITS) == 0.0 && DoubleValue(ONE_BITS) == 1.0
  {
    ZeroBytes(ZERO_BITS[2..]);
    ZeroBytes(ONE_BITS[2..]);
    assert Fraction(ZERO_BITS) == 0.0 && Fraction(ONE_BITS) == 0.0;
    assert Exponent(ZERO_BITS) == -1023 && Exponent(ONE_BITS) == 0;
  }

  // ---- Integers and caches ----

  /** Reading an integer directly and reading an object agree, on every input. */
  lemma IntAgrees(r: Reader)
    ensures ReadInt(r) ==
            match ReadObject(r)
            case Ok(v, r') => (if v.Int? then Ok(v.n, r') else Err(NotAnInt))
            case Err(e) => Err(e)
  {
    if r.rest != [] && IsIntCode(r.rest[0]) {
      SwitchesAgree(r.rest[0], Next(r));
    }
  }

  ghost predicate Complete(r: Reader) {
    forall i :: 0 <= i < |r.priority| ==> r.priority[i].Cached?
  }

  /** Reading an object from any input, if it succeeds, takes at least one byte and leaves no place of
      the cache under construction, whatever resets and nested objects there were. */
  lemma ReadingCompletes(r: Reader)
    requires Complete(r) && ReadObject(r).Ok?
    ensures |ReadObject(r).reader.rest| < |r.rest| && Complete(ReadObject(r).reader)
  {
    assert NothingOpened(r, ReadObject(r).reader);
  }
}
