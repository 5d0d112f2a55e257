/**
 How create_batch_message of eventhubclient_ll.c lays the events of a batch out, one data section each, and that a
 reader gets them back.

 The AMQP value library is not part of this model; its encodings are those of sections 1.6 and 3.2 of OASIS AMQP 1.0
 (a compact form whenever the value fits). amqpvalue_encode hands its output to encode_callback in chunks of its own
 choosing, and fails when a string or a map is too large for a 32-bit size.
 */
module BatchEncoding {
  import opened Common
  import opened Events

  const MAX32 := 0x1_0000_0000

  type Bytes = seq<uint8>

  // ---------------------------------------------------------------- AMQP encodings

  /** A 32-bit number in network byte order. */
  function U32(n: nat): (b: Bytes)
    requires n < MAX32
    ensures |b| == 4
  {
    [n / 0x100_0000, n / 0x1_0000 % 0x100, n / 0x100 % 0x100, n % 0x100]
  }

  function FromU32(b: Bytes): nat
    requires |b| >= 4
  {
    var b0: nat, b1: nat, b2: nat, b3: nat := b[0], b[1], b[2], b[3];
    b0 * 0x100_0000 + b1 * 0x1_0000 + b2 * 0x100 + b3
  }

  lemma U32RoundTrip(n: nat, rest: Bytes)
    requires n < MAX32
    ensures FromU32(U32(n) + rest) == n && (U32(n) + rest)[4..] == rest
  {
    var q := n / 0x100;
    assert n == 0x100 * q + n % 0x100;
    assert q == 0x100 * (n / 0x1_0000) + q % 0x100;
    assert n / 0x1_0000 == 0x100 * (n / 0x100_0000) + n / 0x1_0000 % 0x100;
  }

  /** A variable-width value: constructor, 8- or 32-bit length, contents. */
  function EncodeVariable(small: uint8, large: uint8, v: Bytes): Bytes
    requires |v| < MAX32
  {
    if |v| < 0x100 then [small, |v|] + v else [large] + U32(|v|) + v
  }

  /** The value at the start of `s`, and what follows it. */
  function DecodeVariable(small: uint8, large: uint8, s: Bytes): Option<(Bytes, Bytes)> {
    if 2 <= |s| && s[0] == small then Counted(s[2..], s[1])
    else if 5 <= |s| && s[0] == large then Counted(s[5..], FromU32(s[1..]))
    else None
  }

  function Counted(s: Bytes, n: nat): Option<(Bytes, Bytes)> {
    if n <= |s| then Some((s[..n], s[n..])) else None
  }

  lemma VariableRoundTrip(small: uint8, large: uint8, v: Bytes, rest: Bytes)
    requires |v| < MAX32 && small != large
    ensures DecodeVariable(small, large, EncodeVariable(small, large, v) + rest) == Some((v, rest))
  {
    var s := EncodeVariable(small, large, v) + rest;
    if |v| < 0x100 {
      assert s[2..] == v + rest;
    } else {
      LongRoundTrip(small, large, v, rest);
    }
  }

  lemma LongRoundTrip(small: uint8, large: uint8, v: Bytes, rest: Bytes)
    requires 0x100 <= |v| < MAX32 && small != large
    ensures DecodeVariable(small, large, EncodeVariable(small, large, v) + rest) == Some((v, rest))
  {
    U32RoundTrip(|v|, v + rest);
    Parts(large, U32(|v|), v, rest);
    assert (v + rest)[..|v|] == v && (v + rest)[|v|..] == rest;
  }

  lemma Parts(first: uint8, length: Bytes, v: Bytes, rest: Bytes)
    requires |length| == 4
    ensures var s := [first] + length + v + rest;
      5 <= |s| && s[0] == first && s[1..] == length + (v + rest) && s[5..] == v + rest
  {
    var s := [first] + length + v + rest;
    assert s == [first] + (length + (v + rest));
    assert s[5..] == s[1..][4..];
  }

  const STR8: uint8 := 0xA1
  const STR32: uint8 := 0xB1
  const VBIN8: uint8 := 0xA0
  const VBIN32: uint8 := 0xB0
  const MAP8: uint8 := 0xC1
  const MAP32: uint8 := 0xD1

  type Properties = seq<(Bytes, Bytes)>

  /** The keys and values of a map, in order. */
  function EncodePairs(ps: Properties): Bytes
    requires Strings(ps)
  {
    if ps == [] then []
    else EncodeVariable(STR8, STR32, ps[0].0) + (EncodeVariable(STR8, STR32, ps[0].1) + EncodePairs(ps[1..]))
  }

  predicate Strings(ps: Properties) {
    forall i :: 0 <= i < |ps| ==> |ps[i].0| < MAX32 && |ps[i].1| < MAX32
  }

  function DecodePairs(n: nat, s: Bytes): Option<(Properties, Bytes)> {
    if n == 0 then Some(([], s)) else
    var k := DecodeVariable(STR8, STR32, s);
    if k == None then None else
    var v := DecodeVariable(STR8, STR32, k.value.1);
    if v == None then None else
    var t := DecodePairs(n - 1, v.value.1);
    if t == None then None else Some(([(k.value.0, v.value.0)] + t.value.0, t.value.1))
  }

  lemma {:induction false} PairsRoundTrip(ps: Properties, rest: Bytes)
    requires Strings(ps)
    ensures DecodePairs(|ps|, EncodePairs(ps) + rest) == Some((ps, rest))
    ensures |EncodePairs(ps)| >= 4 * |ps|
  {
    if ps == [] {
      assert EncodePairs(ps) + rest == rest;
    } else {
      var (k, v) := ps[0];
      var ek, ev, tail := EncodeVariable(STR8, STR32, k), EncodeVariable(STR8, STR32, v), EncodePairs(ps[1..]);
      assert EncodePairs(ps) + rest == ek + (ev + (tail + rest));
      VariableRoundTrip(STR8, STR32, k, ev + (tail + rest));
      VariableRoundTrip(STR8, STR32, v, tail + rest);
      PairsRoundTrip(ps[1..], rest);
      assert [ps[0]] + ps[1..] == ps;
    }
  }

  /** The library can encode the map: every size fits in 32 bits. */
  predicate Encodable(ps: Properties) {
    Strings(ps) && |EncodePairs(ps)| + 4 < MAX32
  }

  /** Size and count before the pairs. */
  function WithMapHeader(body: Bytes, count: nat): Bytes
    requires count <= |body| && |body| + 4 < MAX32
  {
    if |body| + 1 < 0x100 then [MAP8, |body| + 1, count] + body
    else [MAP32] + (U32(|body| + 4) + (U32(count) + body))
  }

  /** The count counts keys and values. */
  function EncodeMap(ps: Properties): Bytes
    requires Encodable(ps)
  {
    PairsBody(ps);
    WithMapHeader(EncodePairs(ps), 2 * |ps|)
  }

  /** A map whose pairs take exactly the size it declares, and what follows it. */
  function DecodeMap(s: Bytes): Option<(Properties, Bytes)> {
    if 3 <= |s| && s[0] == MAP8 && 1 <= s[1] then MapOf(s[3..], s[1] - 1, s[2])
    else if 9 <= |s| && s[0] == MAP32 && 4 <= FromU32(s[1..]) then MapOf(s[9..], FromU32(s[1..]) - 4, FromU32(s[5..]))
    else None
  }

  function MapOf(s: Bytes, size: nat, count: nat): Option<(Properties, Bytes)> {
    if size > |s| || count % 2 != 0 then None else
    var p := DecodePairs(count / 2, s[..size]);
    if p == None || p.value.1 != [] then None else Some((p.value.0, s[size..]))
  }

  lemma MapOfBody(body: Bytes, ps: Properties, rest: Bytes)
    requires DecodePairs(|ps|, body) == Some((ps, []))
    ensures MapOf(body + rest, |body|, 2 * |ps|) == Some((ps, rest))
  {
    assert (body + rest)[..|body|] == body && (body + rest)[|body|..] == rest;
    assert 2 * |ps| / 2 == |ps|;
  }

  lemma PairsBody(ps: Properties)
    requires Strings(ps)
    ensures DecodePairs(|ps|, EncodePairs(ps)) == Some((ps, [])) && |EncodePairs(ps)| >= 4 * |ps|
  {
    PairsRoundTrip(ps, []);
    assert EncodePairs(ps) + [] == EncodePairs(ps);
  }

  lemma HeaderRoundTrip(body: Bytes, count: nat, rest: Bytes)
    requires count <= |body| && |body| + 4 < MAX32
    ensures DecodeMap(WithMapHeader(body, count) + rest) == MapOf(body + rest, |body|, count)
  {
    var s := WithMapHeader(body, count) + rest;
    if |body| + 1 < 0x100 {
      assert s == [MAP8, |body| + 1, count] + (body + rest);
      NarrowMap(s, |body|, count, body + rest);
    } else {
      WideMapHeader(|body| + 4, count, body + rest);
      Regroup([MAP32], U32(|body| + 4), U32(count), body, rest);
      WideMap(s, |body|, count, body + rest);
    }
  }

  lemma Regroup(a: Bytes, b: Bytes, c: Bytes, d: Bytes, e: Bytes)
    ensures a + (b + (c + d)) + e == a + (b + (c + (d + e)))
  {
  }

  lemma NarrowMap(s: Bytes, size: nat, count: nat, tail: Bytes)
    requires size + 1 < 0x100 && count < 0x100 && s == [MAP8, size + 1, count] + tail
    ensures DecodeMap(s) == MapOf(tail, size, count)
  {
    assert s[3..] == tail;
  }

  lemma WideMap(s: Bytes, size: nat, count: nat, tail: Bytes)
    requires 9 <= |s| && s[0] == MAP32 && FromU32(s[1..]) == size + 4 && FromU32(s[5..]) == count && s[9..] == tail
    ensures DecodeMap(s) == MapOf(tail, size, count)
  {
  }

  lemma MapRoundTrip(ps: Properties, rest: Bytes)
    requires Encodable(ps)
    ensures DecodeMap(EncodeMap(ps) + rest) == Some((ps, rest))
  {
    PairsBody(ps);
    MapOfBody(EncodePairs(ps), ps, rest);
    HeaderRoundTrip(EncodePairs(ps), 2 * |ps|, rest);
  }

  lemma WideMapHeader(size: nat, count: nat, rest: Bytes)
    requires size < MAX32 && count < MAX32
    ensures var s := [MAP32] + (U32(size) + (U32(count) + rest));
      9 <= |s| && FromU32(s[1..]) == size && FromU32(s[5..]) == count && s[9..] == rest
  {
    var counted := U32(count) + rest;
    var s := [MAP32] + (U32(size) + counted);
    U32RoundTrip(size, counted);
    U32RoundTrip(count, rest);
    assert s[1..] == U32(size) + counted;
    assert s[5..] == s[1..][4..];
    assert s[9..] == s[5..][4..];
  }

  // ---------------------------------------------------------------- one event

  /** The descriptors of the application-properties and data sections, in sections 3.2.5 and 3.2.6. */
  const PROPERTIES_SECTION: Bytes := [0x00, 0x53, 0x74]
  const DATA_SECTION: Bytes := [0x00, 0x53, 0x75]

  /** The payload as the code passes it on: its length is cast to 32 bits. */
  function Payload(e: EventData): (p: Bytes)
    ensures |p| < MAX32 && (p == e.bytes <==> |e.bytes| < MAX32)
  {
    e.bytes[..|e.bytes| % MAX32]
  }

  function EncodeProperties(e: EventData): Bytes
    requires Encodable(e.properties)
  {
    if e.properties == [] then [] else PROPERTIES_SECTION + EncodeMap(e.properties)
  }

  function EncodeData(e: EventData): Bytes {
    DATA_SECTION + EncodeVariable(VBIN8, VBIN32, Payload(e))
  }

  /** The body section of an event: its properties, if it has any, then its data. */
  function EncodeEvent(e: EventData): Bytes
    requires Encodable(e.properties)
  {
    EncodeProperties(e) + EncodeData(e)
  }

  /** Reads an event back: an optional properties section, one data section, nothing else. */
  function DecodeEvent(s: Bytes): Option<(Properties, Bytes)> {
    if PROPERTIES_SECTION <= s then
      var m := DecodeMap(s[3..]);
      if m == None then None else
      var d := DecodeData(m.value.1);
      if d == None then None else Some((m.value.0, d.value))
    else
      var d := DecodeData(s);
      if d == None then None else Some(([], d.value))
  }

  function DecodeData(s: Bytes): Option<Bytes> {
    if !(DATA_SECTION <= s) then None else
    var d := DecodeVariable(VBIN8, VBIN32, s[3..]);
    if d == None || d.value.1 != [] then None else Some(d.value.0)
  }

  /**
   The very bytes, as AMQP has them (sections 1.6.19, 1.6.20, 1.6.23, 3.2.5 and 3.2.6 of AMQP 1.0): described sections,
   the application properties as a map of strings, the data as a binary, numbers in network byte order.
   */
  lemma EventBytes()
    ensures EncodeEvent(EventData([1, 2], None, [])) == [0x00, 0x53, 0x75, 0xA0, 2, 1, 2]
    ensures EncodeEvent(EventData([9], None, [([0x6B], [0x76])])) ==
      [0x00, 0x53, 0x74, 0xC1, 7, 2, 0xA1, 1, 0x6B, 0xA1, 1, 0x76] + [0x00, 0x53, 0x75, 0xA0, 1, 9]
  {
    PairBytes();
    MapBytes();
  }

  lemma PairBytes()
    ensures EncodePairs([([0x6B], [0x76])]) == [0xA1, 1, 0x6B, 0xA1, 1, 0x76]
  {
    var ps: Properties := [([0x6B], [0x76])];
    assert ps[1..] == [];
  }

  lemma MapBytes()
    ensures var ps: Properties := [([0x6B], [0x76])];
      Encodable(ps) && EncodeMap(ps) == [0xC1, 7, 2, 0xA1, 1, 0x6B, 0xA1, 1, 0x76]
  {
    PairBytes();
  }

  /** A length of 256 or more takes four bytes, the highest first. */
  lemma LengthBytes(v: Bytes)
    requires |v| == 0x01020304
    ensures EncodeVariable(VBIN8, VBIN32, v) == [0xB0, 1, 2, 3, 4] + v && EncodeVariable(STR8, STR32, v)[0] == 0xB1
  {
    assert U32(0x01020304) == [1, 2, 3, 4];
  }

  lemma DataRoundTrip(e: EventData)
    ensures DecodeData(EncodeData(e)) == Some(Payload(e))
  {
    var v := EncodeVariable(VBIN8, VBIN32, Payload(e));
    VariableRoundTrip(VBIN8, VBIN32, Payload(e), []);
    assert v + [] == v && (DATA_SECTION + v)[3..] == v;
  }

  lemma PropertiesRoundTrip(e: EventData)
    requires Encodable(e.properties) && e.properties != []
    ensures PROPERTIES_SECTION <= EncodeEvent(e)
    ensures DecodeMap(EncodeEvent(e)[3..]) == Some((e.properties, EncodeData(e)))
  {
    MapRoundTrip(e.properties, EncodeData(e));
    assert EncodeEvent(e) == PROPERTIES_SECTION + (EncodeMap(e.properties) + EncodeData(e));
    assert EncodeEvent(e)[3..] == EncodeMap(e.properties) + EncodeData(e);
  }

  /** Decoding an encoded event gives its properties and its payload, which is its own iff it is below 4 GiB. */
  lemma EventRoundTripExactly(e: EventData)
    requires Encodable(e.properties)
    ensures DecodeEvent(EncodeEvent(e)) == Some((e.properties, Payload(e)))
    ensures DecodeEvent(EncodeEvent(e)) == Some((e.properties, e.bytes)) <==> |e.bytes| < MAX32
  {
    DataRoundTrip(e);
    if e.properties == [] {
      assert EncodeEvent(e) == EncodeData(e);
      assert EncodeData(e)[2] == 0x75;
    } else {
      PropertiesRoundTrip(e);
    }
  }

  // ---------------------------------------------------------------- the buffer

  function Flat(chunks: seq<Bytes>): Bytes {
    if chunks == [] then [] else chunks[0] + Flat(chunks[1..])
  }

  /** EVENT_DATA_BINARY: a buffer of fixed size that encode_callback appends to. */
  class EventDataBinary {
    const bytes: array<uint8>
    var length: nat

    ghost predicate Valid()
      reads this
    {
      length <= bytes.Length
    }

    ghost function Contents(): Bytes
      requires Valid()
      reads this, bytes
    {
      bytes[..length]
    }

    constructor (size: nat)
      ensures Valid() && fresh(bytes) && bytes.Length == size && Contents() == []
    {
      bytes := new uint8[size](_ => 0);
      length := 0;
    }

    /** encode_callback: memcpy behind what is there. */
    method EncodeCallback(chunk: Bytes)
      requires Valid() && length + |chunk| <= bytes.Length
      modifies this, bytes
      ensures Valid() && Contents() == old(Contents()) + chunk
      ensures bytes[length..] == old(bytes[length + |chunk|..])
    {
      for i := 0 to |chunk|
        invariant Valid() && length == old(length) && bytes[length + |chunk|..] == old(bytes[length + |chunk|..])
        invariant bytes[..length + i] == old(Contents()) + chunk[..i]
      {
        bytes[length + i] := chunk[i];
        assert bytes[..length + i + 1] == bytes[..length + i] + [chunk[i]];
      }
      length := length + |chunk|;
    }

    /** amqpvalue_encode of a value whose encoding the library delivers as `chunks`. */
    method Encode(chunks: seq<Bytes>)
      requires Valid() && length + |Flat(chunks)| <= bytes.Length
      modifies this, bytes
      ensures Valid() && Contents() == old(Contents()) + Flat(chunks)
    {
      for k := 0 to |chunks|
        invariant Valid() && length + |Flat(chunks[k..])| <= bytes.Length
        invariant Contents() + Flat(chunks[k..]) == old(Contents()) + Flat(chunks)
      {
        assert chunks[k..][1..] == chunks[k + 1..];
        EncodeCallback(chunks[k]);
        assert old(Contents()) + Flat(chunks) == Contents() + Flat(chunks[k + 1..]);
      }
    }
  }

  // ---------------------------------------------------------------- encoded sizes

  /** amqpvalue_get_encoded_size of a variable-width value. */
  function VariableSize(v: Bytes): nat {
    if |v| < 0x100 then 2 + |v| else 5 + |v|
  }

  function PairsSize(ps: Properties): nat {
    if ps == [] then 0 else VariableSize(ps[0].0) + VariableSize(ps[0].1) + PairsSize(ps[1..])
  }

  function PropertiesSize(e: EventData): nat {
    var n := PairsSize(e.properties);
    if n + 1 < 0x100 then 6 + n else 12 + n
  }

  function DataSize(e: EventData): nat {
    3 + VariableSize(Payload(e))
  }

  lemma {:induction false} PairsSizeIsExact(ps: Properties)
    requires Strings(ps)
    ensures |EncodePairs(ps)| == PairsSize(ps)
  {
    if ps != [] {
      PairsSizeIsExact(ps[1..]);
    }
  }

  /** The sizes computed beforehand are those of the encodings. */
  lemma SizesAreExact(e: EventData)
    requires Encodable(e.properties)
    ensures |EncodeData(e)| == DataSize(e)
    ensures e.properties != [] ==> |EncodeProperties(e)| == PropertiesSize(e)
  {
    PairsSizeIsExact(e.properties);
  }

  // ---------------------------------------------------------------- the batch

  /** What the library does for one event, in call order, and how it splits the two encodings. */
  datatype EventEnv = EventEnv(
    getData: bool, propertiesMap: bool, dataValue: bool, properties: bool, propertiesSize: bool, dataSize: bool,
    alloc: bool, encode: bool, addBody: bool, propertyChunks: seq<Bytes>, dataChunks: seq<Bytes>)

  /** Nothing fails for this event; what is only called for properties matters only when there are some. */
  predicate Succeeds(e: EventData, env: EventEnv) {
    && env.getData && env.propertiesMap && env.dataValue && env.dataSize && env.alloc && env.encode && env.addBody
    && (e.properties != [] ==> env.properties && env.propertiesSize)
    && Encodable(e.properties)
  }

  /** The chunks make up the encodings. */
  predicate Splits(e: EventData, env: EventEnv)
    requires Encodable(e.properties)
  {
    Flat(env.propertyChunks) == EncodeProperties(e) && Flat(env.dataChunks) == EncodeData(e)
  }

  function EncodeAll(es: seq<EventData>): seq<Bytes>
    requires forall i :: 0 <= i < |es| ==> Encodable(es[i].properties)
  {
    seq(|es|, i requires 0 <= i < |es| => EncodeEvent(es[i]))
  }

  /** The buffer, of the size computed beforehand, is filled exactly. */
  method FillBuffer(e: EventData, size: nat, env: EventEnv) returns (section: Bytes)
    requires Encodable(e.properties) && Splits(e, env)
    requires size == |EncodeProperties(e)| + |EncodeData(e)|
    ensures section == EncodeEvent(e)
  {
    var binary := new EventDataBinary(size);
    if e.properties != [] {
      binary.Encode(env.propertyChunks);
    }
    binary.Encode(env.dataChunks);
    assert binary.Contents() == EncodeEvent(e) && binary.length == binary.bytes.Length;
    section := binary.bytes[..binary.length];
  }

  /** The body of the loop: the section of one event. */
  method EncodeSection(e: EventData, env: EventEnv) returns (section: Option<Bytes>)
    requires Encodable(e.properties) ==> Splits(e, env)
    ensures section == if Succeeds(e, env) then Some(EncodeEvent(e)) else None
  {
    if !env.getData || !env.propertiesMap || !env.dataValue || !Encodable(e.properties) {
      return None;
    }
    SizesAreExact(e);
    var payloadLength := 0;
    if e.properties != [] {
      if !env.properties || !env.propertiesSize {
        return None;
      }
      payloadLength := payloadLength + PropertiesSize(e);
    }
    if !env.dataSize {
      return None;
    }
    payloadLength := payloadLength + DataSize(e);
    if !env.alloc || !env.encode {
      return None;
    }
    var bytes := FillBuffer(e, payloadLength, env);
    section := if env.addBody then Some(bytes) else None;
  }

  /** create_batch_message: the body sections, or failure at the first event for which something fails. */
  method CreateBatchMessage(formatOk: bool, es: seq<EventData>, env: nat -> EventEnv) returns (body: Option<seq<Bytes>>)
    requires forall i :: 0 <= i < |es| && Encodable(es[i].properties) ==> Splits(es[i], env(i))
    ensures body.Some? <==> formatOk && forall i :: 0 <= i < |es| ==> Succeeds(es[i], env(i))
    ensures body.Some? ==> body.value == EncodeAll(es)
  {
    if !formatOk {
      return None;
    }
    var sections: seq<Bytes> := [];
    for index := 0 to |es|
      invariant |sections| == index
      invariant forall i :: 0 <= i < index ==> Succeeds(es[i], env(i)) && sections[i] == EncodeEvent(es[i])
    {
      var section := EncodeSection(es[index], env(index));
      if section == None {
        return None;
      }
      sections := sections + [section.value];
    }
    assert sections == EncodeAll(es);
    body := Some(sections);
  }

  /** One section per event, in order, and every event is recovered, iff every payload is below 4 GiB. */
  lemma BatchRoundTripExactly(es: seq<EventData>)
    requires forall i :: 0 <= i < |es| ==> Encodable(es[i].properties)
    ensures |EncodeAll(es)| == |es|
    ensures (forall i :: 0 <= i < |es| ==> DecodeEvent(EncodeAll(es)[i]) == Some((es[i].properties, es[i].bytes)))
            <==> forall i :: 0 <= i < |es| ==> |es[i].bytes| < MAX32
  {
    forall i | 0 <= i < |es|
      ensures DecodeEvent(EncodeAll(es)[i]) == Some((es[i].properties, es[i].bytes)) <==> |es[i].bytes| < MAX32
    {
      EventRoundTripExactly(es[i]);
    }
  }
}
