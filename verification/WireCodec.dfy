/** The payload format: what `encode` in LogAPIs.hh writes and what the Go decoder package reads back. */
module WireCodec {
  import opened Bytes
  import opened Sequences
  import opened Schema

  datatype DecodeError =
    | NotEnoughForUint16
    | NotEnoughForUint64
    | NoStringLength
    | NotEnoughForString

  datatype Decoded<T> = Ok(value: T, consumed: nat) | Err(error: DecodeError)

  // ---- Encoding --------------------------------------------------------------------------------

  /** A string's length is cut to 16 bits, but all its bytes follow. */
  function EncodeValue(v: Value): (s: seq<Byte>)
  {
    match v
    case Num(n) => U64(n)
    case Str(t) => U16(|t| % TWO_16) + t
  }

  function Encodings(vs: seq<Value>): (r: seq<seq<Byte>>)
    ensures |r| == |vs| && forall i :: 0 <= i < |vs| ==> r[i] == EncodeValue(vs[i])
  {
    MapSeq(EncodeValue, vs)
  }

  function EncodeValues(vs: seq<Value>): seq<Byte> {
    Flat(Encodings(vs))
  }

  lemma EncodeValuesAppend(a: seq<Value>, b: seq<Value>)
    ensures EncodeValues(a + b) == EncodeValues(a) + EncodeValues(b)
  {
    hide EncodeValue;
    FlatAppend(Encodings(a), Encodings(b));
    assert Encodings(a + b) == Encodings(a) + Encodings(b);
  }

  lemma EncodeValuesSnoc(a: seq<Value>, v: Value)
    ensures EncodeValues(a + [v]) == EncodeValues(a) + EncodeValue(v)
  {
    hide EncodeValue;
    FlatSnoc(Encodings(a), EncodeValue(v));
    assert Encodings(a + [v]) == Encodings(a) + [EncodeValue(v)];
  }

  lemma EncodeValuesCons(vs: seq<Value>)
    requires vs != []
    ensures EncodeValues(vs) == EncodeValue(vs[0]) + EncodeValues(vs[1..])
  {
    assert Encodings(vs)[1..] == Encodings(vs[1..]);
  }

  ghost predicate Short(v: Value) {
    v.Str? ==> |v.s| < TWO_16
  }

  ghost predicate AllShort(vs: seq<Value>) {
    forall v :: v in vs ==> Short(v)
  }

  // ---- Decoding --------------------------------------------------------------------------------

  function DecodeUint16(packet: seq<Byte>): (r: Decoded<nat>)
    ensures r.Ok? <==> |packet| >= 2
    ensures r.Ok? ==> r.consumed == 2 && r.value < TWO_16 && U16(r.value) == packet[..2]
  {
    if |packet| < 2 then Err(NotEnoughForUint16)
    else
      FixedWidths(packet[..2]);
      Ok(FromBigEndian(packet[..2]), 2)
  }

  function DecodeUint64(packet: seq<Byte>): (r: Decoded<Word64>)
    ensures r.Ok? <==> |packet| >= 8
    ensures r.Ok? ==> r.consumed == 8 && U64(r.value) == packet[..8]
  {
    if |packet| < 8 then Err(NotEnoughForUint64)
    else
      FixedWidths(packet[..8]);
      Ok(FromBigEndian(packet[..8]), 8)
  }

  /** What `DecodeString` asks of a packet: two bytes of length, and as many bytes behind them. */
  predicate HoldsString(packet: seq<Byte>) {
    |packet| >= 2 && |packet| >= 2 + FromBigEndian(packet[..2])
  }

  function DecodeString(packet: seq<Byte>): (r: Decoded<seq<Byte>>)
    ensures r.Ok? <==> HoldsString(packet)
    ensures r.Err? ==> r.error == if |packet| < 2 then NoStringLength else NotEnoughForString
    ensures r.Ok? ==> r.consumed <= |packet| && |r.value| < TWO_16 && U16(|r.value|) + r.value == packet[..r.consumed]
  {
    match DecodeUint16(packet)
    case Err(_) => Err(NoStringLength)
    case Ok(length, decoded) =>
      if |packet| < decoded + length then Err(NotEnoughForString)
      else
        assert packet[..decoded + length] == packet[..decoded] + packet[decoded..decoded + length];
        Ok(packet[decoded..decoded + length], decoded + length)
  }

  /** A text field is read with `DecodeString`; every other one with `DecodeUint64`. */
  function DecodeField(ty: FieldType, packet: seq<Byte>): (r: Decoded<Value>)
    ensures r.Ok? <==> if ty.Text? then HoldsString(packet) else |packet| >= 8
    ensures r.Ok? ==> r.consumed <= |packet| && EncodeValue(r.value) == packet[..r.consumed]
    ensures r.Ok? ==> Short(r.value) && (r.value.Str? <==> ty.Text?)
  {
    if ty.Text? then
      match DecodeString(packet)
      case Err(e) => Err(e)
      case Ok(s, n) => Ok(Str(s), n)
    else
      match DecodeUint64(packet)
      case Err(e) => Err(e)
      case Ok(v, n) => Ok(Num(v), n)
  }

  /** A generated decoder without its names: the fields in order, at a running offset. */
  function DecodeFields(tys: seq<FieldType>, packet: seq<Byte>): (r: Decoded<seq<Value>>)
    ensures r.Ok? ==> r.consumed <= |packet|
  {
    if tys == [] then Ok([], 0)
    else
      match DecodeField(tys[0], packet)
      case Err(e) => Err(e)
      case Ok(v, n) =>
        match DecodeFields(tys[1..], packet[n..])
        case Err(e) => Err(e)
        case Ok(vs, m) => Ok([v] + vs, n + m)
  }

  // ---- Round trips -----------------------------------------------------------------------------

  lemma DecodeFieldEncode(ty: FieldType, v: Value, tail: seq<Byte>)
    requires Short(v) && (v.Str? <==> ty.Text?)
    ensures DecodeField(ty, EncodeValue(v) + tail) == Ok(v, |EncodeValue(v)|)
  {
    var packet := EncodeValue(v) + tail;
    match v
    case Num(n) => assert packet[..8] == U64(n);
    case Str(s) =>
      assert packet[..2] == U16(|s|);
      assert packet[2..2 + |s|] == s;
  }

  /** Decoding takes back exactly what was encoded and leaves the bytes after it alone. */
  lemma {:induction false} DecodeFieldsEncode(tys: seq<FieldType>, vs: seq<Value>, tail: seq<Byte>)
    requires Matches(tys, vs) && AllShort(vs)
    ensures DecodeFields(tys, EncodeValues(vs) + tail) == Ok(vs, |EncodeValues(vs)|)
  {
    hide EncodeValue, DecodeField;
    if vs != [] {
      var rest := EncodeValues(vs[1..]) + tail;
      var packet := EncodeValues(vs) + tail;
      EncodeValuesCons(vs);
      Assoc(EncodeValue(vs[0]), EncodeValues(vs[1..]), tail);
      assert packet == EncodeValue(vs[0]) + rest;
      DecodeFieldEncode(tys[0], vs[0], rest);
      assert packet[|EncodeValue(vs[0])|..] == rest;
      DecodeFieldsEncode(tys[1..], vs[1..], tail);
      assert vs == [vs[0]] + vs[1..];
    }
  }

  /** A successful decoding is canonical: encoding its result gives the bytes it consumed, and no others. */
  lemma {:induction false} DecodeFieldsCanonical(tys: seq<FieldType>, packet: seq<Byte>)
    requires DecodeFields(tys, packet).Ok?
    ensures var r := DecodeFields(tys, packet);
            Matches(tys, r.value) && AllShort(r.value) && r.consumed <= |packet| &&
            EncodeValues(r.value) == packet[..r.consumed]
  {
    hide EncodeValue, DecodeField;
    if tys != [] {
      var n := DecodeField(tys[0], packet).consumed;
      DecodeFieldsCanonical(tys[1..], packet[n..]);
      var r := DecodeFields(tys, packet);
      assert r.value[1..] == DecodeFields(tys[1..], packet[n..]).value;
      EncodeValuesCons(r.value);
      assert packet[..r.consumed] == packet[..n] + packet[n..][..r.consumed - n];
    }
  }

  /** A payload cut short anywhere is rejected. */
  lemma StrictPrefixRejected(tys: seq<FieldType>, vs: seq<Value>, cut: nat)
    requires Matches(tys, vs) && AllShort(vs) && cut < |EncodeValues(vs)|
    ensures DecodeFields(tys, EncodeValues(vs)[..cut]).Err?
  {
    hide *;
    var whole := EncodeValues(vs);
    if DecodeFields(tys, whole[..cut]).Ok? {
      LaterBytesIgnored(tys, whole[..cut], whole[cut..]);
      assert whole[..cut] + whole[cut..] == whole && whole + [] == whole;
      DecodeFieldsEncode(tys, vs, []);
      assert false;
    }
  }

  /** Bytes behind a payload do not change how it decodes. */
  lemma LaterBytesIgnored(tys: seq<FieldType>, packet: seq<Byte>, more: seq<Byte>)
    requires DecodeFields(tys, packet).Ok?
    ensures DecodeFields(tys, packet + more) == DecodeFields(tys, packet)
    ensures DecodeFields(tys, packet).consumed <= |packet|
  {
    hide *;
    var r := DecodeFields(tys, packet);
    DecodeFieldsCanonical(tys, packet);
    var tail := packet[r.consumed..] + more;
    assert packet + more == packet[..r.consumed] + tail;
    DecodeFieldsEncode(tys, r.value, tail);
  }

  /** The payload comes back exactly when no string is too long for its 16-bit length. */
  lemma RoundTripIff(tys: seq<FieldType>, vs: seq<Value>)
    requires Matches(tys, vs)
    ensures DecodeFields(tys, EncodeValues(vs)) == Ok(vs, |EncodeValues(vs)|) <==> AllShort(vs)
  {
    assert EncodeValues(vs) + [] == EncodeValues(vs);
    if AllShort(vs) {
      DecodeFieldsEncode(tys, vs, []);
    } else if DecodeFields(tys, EncodeValues(vs)).Ok? {
      DecodeFieldsCanonical(tys, EncodeValues(vs));
    }
  }

  /** A string of 65536 bytes is sent whole behind a length of zero, and comes back empty. */
  lemma LongStringLost(s: seq<Byte>)
    requires |s| == TWO_16
    ensures DecodeFields([Text], EncodeValues([Str(s)])) == Ok([Str([])], 2)
  {
    hide EncodeValues, EncodeValue, U16, FromBigEndian;
    var packet := EncodeValues([Str(s)]);
    LongEncoding(s);
    assert packet[..2] == U16(0) && packet[2..2] == [];
    assert DecodeField(Text, packet) == Ok(Str([]), 2);
    assert [Str([])] + [] == [Str([])];
  }

  lemma LongEncoding(s: seq<Byte>)
    requires |s| == TWO_16
    ensures EncodeValues([Str(s)]) == U16(0) + s
  {
    EncodeValuesCons([Str(s)]);
    NothingEncoded();
    assert [Str(s)][1..] == [];
    assert EncodeValue(Str(s)) + [] == EncodeValue(Str(s));
  }

  lemma NothingEncoded()
    ensures EncodeValues([]) == []
  {
  }
}
