/** Cache records as bytes: the codec of the journal's payloads. */
module RecordCodec {
  import opened CacheTypes
  import opened Bytes

  const FORMAT_VERSION: nat := 1

  function KindOf(r: Record): (kind: nat)
    ensures 1 <= kind <= 4
  {
    match r
    case Upsert(_, _, _) => 1
    case FlushIntent(_, _) => 2
    case FlushComplete(_, _) => 3
    case Invalidate(_, _) => 4
  }

  /** The record of the given kind; only an Upsert carries its value. */
  function RecordOf(kind: nat, version: nat, key: Key, value: Value): Record
    requires 1 <= kind <= 4
  {
    if kind == 1 then Upsert(key, value, version)
    else if kind == 2 then FlushIntent(key, version)
    else if kind == 3 then FlushComplete(key, version)
    else Invalidate(key, version)
  }

  /** The byte layout, followed by the given rest. */
  function Layout(kind: nat, version: nat, key: Key, value: Value, rest: seq<byte>): seq<byte> {
    Le(FORMAT_VERSION, 4) + (Le(kind, 4) + (Le(version, 8) + (Le(|key|, 4) + (key + (Le(|value|, 4) + (value + rest))))))
  }

  function Encoded(r: Record): seq<byte> {
    Layout(KindOf(r), r.version, r.key, ValueOf(r), [])
  }

  /** Lengths and version fit their fields. */
  predicate Fits(r: Record) {
    |r.key| < U32 && |ValueOf(r)| < U32 && r.version < U64
  }

  /** Lengths a decoder accepts. */
  predicate Decodable(r: Record) {
    Small(r) && r.version < U64
  }

  // ----- Encode -----

  /** Grows the buffer field by field. */
  method Encode(r: Record) returns (buffer: seq<byte>)
    ensures buffer == Encoded(r)
  {
    hide Le;
    var value := ValueOf(r);
    buffer := Le(FORMAT_VERSION, 4);
    buffer := buffer + Le(KindOf(r), 4);
    buffer := buffer + Le(r.version, 8);
    buffer := buffer + Le(|r.key|, 4);
    buffer := buffer + r.key;
    buffer := buffer + Le(|value|, 4);
    buffer := buffer + value;
  }

  // ----- Decode -----

  datatype Header = Header(format: nat, kind: nat, version: nat, keyLength: nat)

  function TakeHeader(p: seq<byte>): Field<Header> {
    var a := TakeInt(p, 4);
    if a.Short? then Short else
    var b := TakeInt(a.rest, 4);
    if b.Short? then Short else
    var c := TakeInt(b.rest, 8);
    if c.Short? then Short else
    var d := TakeInt(c.rest, 4);
    if d.Short? then Short else
    Got(Header(a.value, b.value, c.value, d.value), d.rest)
  }

  /** A length-checked field of bytes. */
  function TakeSized(p: seq<byte>, n: nat): Field<seq<byte>> {
    if n > MAX_RECORD_FIELD then Short else Take(p, n)
  }

  function Body(h: Header, p: seq<byte>): Result<Record>
    requires 1 <= h.kind <= 4
  {
    var key := TakeSized(p, h.keyLength);
    if key.Short? then Err(CorruptData) else
    var length := TakeInt(key.rest, 4);
    if length.Short? then Err(CorruptData) else
    var value := TakeSized(length.rest, length.value);
    if value.Short? then Err(CorruptData) else
    Ok(RecordOf(h.kind, h.version, key.value, value.value))
  }

  function Decoded(p: seq<byte>): Result<Record> {
    var h := TakeHeader(p);
    if h.Short? then Err(CorruptData)
    else if h.value.format != FORMAT_VERSION then Err(VersionMismatch)
    else if !(1 <= h.value.kind <= 4) then Err(CorruptData)
    else Body(h.value, h.rest)
  }

  /** Reads a k-byte number at the offset and advances it. */
  method ReadInt(payload: seq<byte>, offset: nat, k: nat) returns (ok: bool, value: nat, next: nat)
    requires offset <= |payload|
    ensures next <= |payload| && (TakeInt(payload[offset..], k) == if ok then Got(value, payload[next..]) else Short)
  {
    if offset + k > |payload| {
      return false, 0, offset;
    }
    assert payload[offset..][..k] == payload[offset..offset + k] && payload[offset..][k..] == payload[offset + k..];
    return true, UnLe(payload[offset..offset + k]), offset + k;
  }

  method ReadBytes(payload: seq<byte>, offset: nat, n: nat) returns (ok: bool, bytes: seq<byte>, next: nat)
    requires offset <= |payload|
    ensures next <= |payload| && (TakeSized(payload[offset..], n) == if ok then Got(bytes, payload[next..]) else Short)
  {
    if n > MAX_RECORD_FIELD || offset + n > |payload| {
      return false, [], offset;
    }
    assert payload[offset..][..n] == payload[offset..offset + n] && payload[offset..][n..] == payload[offset + n..];
    return true, payload[offset..offset + n], offset + n;
  }

  method Decode(payload: seq<byte>) returns (r: Result<Record>)
    ensures r == Decoded(payload)
  {
    assert payload[0..] == payload;
    var ok, format, o1 := ReadInt(payload, 0, 4);
    if !ok { return Err(CorruptData); }
    var ok2, kind, o2 := ReadInt(payload, o1, 4);
    if !ok2 { return Err(CorruptData); }
    var ok3, version, o3 := ReadInt(payload, o2, 8);
    if !ok3 { return Err(CorruptData); }
    var ok4, keyLength, o4 := ReadInt(payload, o3, 4);
    if !ok4 { return Err(CorruptData); }
    if format != FORMAT_VERSION { return Err(VersionMismatch); }
    if kind < 1 || kind > 4 { return Err(CorruptData); }
    var ok5, key, o5 := ReadBytes(payload, o4, keyLength);
    if !ok5 { return Err(CorruptData); }
    var ok6, valueLength, o6 := ReadInt(payload, o5, 4);
    if !ok6 { return Err(CorruptData); }
    var ok7, value, o7 := ReadBytes(payload, o6, valueLength);
    if !ok7 { return Err(CorruptData); }
    return Ok(RecordOf(kind, version, key, value));
  }

  // ----- What is decoded, field by field at its offset -----

  /** Exactly which payloads decode, and which error the others give. */
  lemma DecodedWhen(p: seq<byte>)
    ensures Decoded(p) == Err(VersionMismatch) <==> |p| >= 20 && UnLe(p[..4]) != 1
    ensures Decoded(p).Ok? <==>
              && |p| >= 24 && UnLe(p[..4]) == 1 && 1 <= UnLe(p[4..8]) <= 4
              && var k := UnLe(p[16..20]);
                 && k <= 64 * 1024 * 1024 && |p| >= 24 + k
                 && var v := UnLe(p[20 + k..24 + k]); v <= 64 * 1024 * 1024 && |p| >= 24 + k + v
    ensures Decoded(p).Err? ==> Decoded(p).error in {VersionMismatch, CorruptData}
  {
    hide UnLe, Body;
    HeadWhen(p);
    if |p| >= 20 && 1 <= UnLe(p[4..8]) <= 4 {
      BodyWhen(TakeHeader(p).value, p);
    }
  }

  lemma HeadWhen(p: seq<byte>)
    ensures TakeHeader(p).Got? <==> |p| >= 20
    ensures |p| >= 20 ==> TakeHeader(p) == Got(Header(UnLe(p[..4]), UnLe(p[4..8]), UnLe(p[8..16]), UnLe(p[16..20])), p[20..])
  {
    hide UnLe;
    if |p| >= 4 {
      var a := p[4..];
      if |a| >= 4 {
        assert a[..4] == p[4..8] && a[4..] == p[8..];
        if |p| >= 16 {
          assert p[8..][..8] == p[8..16] && p[8..][8..] == p[16..];
          if |p| >= 20 {
            assert p[16..][..4] == p[16..20] && p[16..][4..] == p[20..];
          }
        }
      }
    }
  }

  lemma BodyWhen(h: Header, p: seq<byte>)
    requires |p| >= 20 && 1 <= h.kind <= 4
    ensures Body(h, p[20..]).Ok? <==>
              && h.keyLength <= 64 * 1024 * 1024 && |p| >= 24 + h.keyLength
              && var v := UnLe(p[20 + h.keyLength..24 + h.keyLength]); v <= 64 * 1024 * 1024 && |p| >= 24 + h.keyLength + v
    ensures Body(h, p[20..]).Err? ==> Body(h, p[20..]).error == CorruptData
  {
    hide UnLe;
    var k := h.keyLength;
    if k <= MAX_RECORD_FIELD && |p| >= 20 + k {
      assert p[20..][k..] == p[20 + k..];
      if |p| >= 24 + k {
        assert p[20 + k..][..4] == p[20 + k..24 + k] && p[20 + k..][4..] == p[24 + k..];
      }
    }
  }

  /** The records on disk, byte for byte: format 1, kinds 1 to 4, version, key and value, lowest byte first. */
  lemma RecordBytes()
    ensures Encoded(Upsert([0x6B], [0x76], 7)) == [1, 0, 0, 0, 1, 0, 0, 0, 7, 0, 0, 0, 0, 0, 0, 0, 1, 0, 0, 0, 0x6B, 1, 0, 0, 0, 0x76]
    ensures Encoded(FlushIntent([0x6B], 7)) == [1, 0, 0, 0, 2, 0, 0, 0, 7, 0, 0, 0, 0, 0, 0, 0, 1, 0, 0, 0, 0x6B, 0, 0, 0, 0]
    ensures Encoded(FlushComplete([0x6B], 7)) == [1, 0, 0, 0, 3, 0, 0, 0, 7, 0, 0, 0, 0, 0, 0, 0, 1, 0, 0, 0, 0x6B, 0, 0, 0, 0]
    ensures Encoded(Invalidate([0x6B], 7)) == [1, 0, 0, 0, 4, 0, 0, 0, 7, 0, 0, 0, 0, 0, 0, 0, 1, 0, 0, 0, 0x6B, 0, 0, 0, 0]
  {
    hide Layout;
    BareBytes(1, [0x76], [1, 0, 0, 0, 0x76]);
    BareBytes(2, [], [0, 0, 0, 0]);
    BareBytes(3, [], [0, 0, 0, 0]);
    BareBytes(4, [], [0, 0, 0, 0]);
  }

  lemma BareBytes(kind: byte, value: seq<byte>, tail: seq<byte>)
    requires |value| < 256 && tail == [|value|, 0, 0, 0] + value
    ensures Layout(kind, 7, [0x6B], value, [])
            == [1, 0, 0, 0, kind, 0, 0, 0, 7, 0, 0, 0, 0, 0, 0, 0, 1, 0, 0, 0, 0x6B] + tail
  {
    hide Le;
    SmallLe(1);
    SmallLe(kind);
    SmallLe(7);
    SmallLe(|value|);
    assert value + [] == value;
    assert [1, 0, 0, 0] + ([kind, 0, 0, 0] + ([7, 0, 0, 0, 0, 0, 0, 0] + ([1, 0, 0, 0] + ([0x6B] + tail))))
           == [1, 0, 0, 0, kind, 0, 0, 0, 7, 0, 0, 0, 0, 0, 0, 0, 1, 0, 0, 0, 0x6B] + tail;
  }

  lemma SmallLe(b: byte)
    ensures Le(b, 4) == [b, 0, 0, 0] && Le(b, 8) == [b, 0, 0, 0, 0, 0, 0, 0]
  {
    ZeroLe(3);
    ZeroLe(7);
    assert Le(b, 4) == [b] + Le(0, 3) && Le(b, 8) == [b] + Le(0, 7);
  }

  lemma {:induction false} ZeroLe(k: nat)
    ensures Le(0, k) == seq(k, _ => 0)
  {
    if k > 0 {
      ZeroLe(k - 1);
    }
  }

  // ----- Round trip and exactness -----

  lemma HeaderFront(kind: nat, version: nat, n: nat, rest: seq<byte>)
    requires kind < U32 && version < U64 && n < U32
    ensures TakeHeader(Le(FORMAT_VERSION, 4) + (Le(kind, 4) + (Le(version, 8) + (Le(n, 4) + rest))))
            == Got(Header(FORMAT_VERSION, kind, version, n), rest)
  {
    Widths();
    TakeIntFront(FORMAT_VERSION, 4, Le(kind, 4) + (Le(version, 8) + (Le(n, 4) + rest)));
    TakeIntFront(kind, 4, Le(version, 8) + (Le(n, 4) + rest));
    TakeIntFront(version, 8, Le(n, 4) + rest);
    TakeIntFront(n, 4, rest);
  }

  /**
  What is encoded is decoded again exactly when both lengths are at most 64 MiB: Encode does not
  check them, so a larger Put is journaled and then refused by replay.
  */
  lemma RoundTrip(r: Record, rest: seq<byte>)
    requires Fits(r)
    ensures Decoded(Layout(KindOf(r), r.version, r.key, ValueOf(r), rest)) == if Decodable(r) then Ok(r) else Err(CorruptData)
  {
    hide Le, TakeHeader, Body;
    var v := ValueOf(r);
    Widths();
    HeaderFront(KindOf(r), r.version, |r.key|, r.key + (Le(|v|, 4) + (v + rest)));
    BodyFront(r, rest);
  }

  lemma BodyFront(r: Record, rest: seq<byte>)
    requires Fits(r)
    ensures Body(Header(FORMAT_VERSION, KindOf(r), r.version, |r.key|), r.key + (Le(|ValueOf(r)|, 4) + (ValueOf(r) + rest)))
            == if Decodable(r) then Ok(r) else Err(CorruptData)
  {
    hide Le, TakeInt, Take;
    var v := ValueOf(r);
    TakeFront(r.key, Le(|v|, 4) + (v + rest));
    Widths();
    TakeIntFront(|v|, 4, v + rest);
    TakeFront(v, rest);
  }

  /** A payload decodes only if it starts with the layout of what it decodes to. */
  lemma DecodedExact(p: seq<byte>) returns (value: Value, rest: seq<byte>)
    requires Decoded(p).Ok?
    ensures var r := Decoded(p).value;
            && p == Layout(KindOf(r), r.version, r.key, value, rest) && (r.Upsert? ==> value == r.value)
            && |r.key| <= MAX_RECORD_FIELD && |value| <= MAX_RECORD_FIELD && r.version < U64
  {
    var h := TakeHeader(p);
    HeaderExact(p);
    value, rest := BodyExact(h.value, h.rest);
  }

  lemma BodyExact(h: Header, p: seq<byte>) returns (value: Value, rest: seq<byte>)
    requires 1 <= h.kind <= 4 && Body(h, p).Ok?
    ensures var r := Body(h, p).value;
            && p == r.key + (Le(|value|, 4) + (value + rest)) && |r.key| == h.keyLength && r.version == h.version
            && KindOf(r) == h.kind && (r.Upsert? ==> value == r.value)
            && |r.key| <= MAX_RECORD_FIELD && |value| <= MAX_RECORD_FIELD
  {
    var key := TakeSized(p, h.keyLength);
    var length := TakeInt(key.rest, 4);
    TakeIntExact(key.rest, 4);
    var v := TakeSized(length.rest, length.value);
    value, rest := v.value, v.rest;
  }

  lemma HeaderExact(p: seq<byte>)
    requires TakeHeader(p).Got?
    ensures var f := TakeHeader(p); var h := f.value;
            && p == Le(h.format, 4) + (Le(h.kind, 4) + (Le(h.version, 8) + (Le(h.keyLength, 4) + f.rest)))
            && h.version < U64
  {
    Widths();
    var a := TakeInt(p, 4);
    TakeIntExact(p, 4);
    var b := TakeInt(a.rest, 4);
    TakeIntExact(a.rest, 4);
    var c := TakeInt(b.rest, 8);
    TakeIntExact(b.rest, 8);
    TakeIntExact(c.rest, 4);
  }
}
