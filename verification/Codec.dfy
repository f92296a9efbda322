/** Encoding and strict decoding of one FPDU (without check bytes). */
module Codec {
  import opened Bytes
  import opened Fpdu

  datatype EncodeError = TooLong(len: nat) | EmptyValue(code: byte)

  /** Diagnostics of a decoding error: 318, 311 and the check-byte error of an entity. */
  datatype DecodeError = InvalidParameter | RemoteProtocolError | TransmissionError

  // ---- encoding ----

  function LengthOctets(n: nat): seq<byte>
  {
    if n < 255 then [n] else [0xFF] + Be16(if n < 0x10000 then n else n % 0x10000)
  }

  function Unit(code: byte, value: seq<byte>): (u: seq<byte>)
    ensures |u| == UnitLen(|value|)
  {
    [code] + LengthOctets(|value|) + value
  }

  function EncodeItems(items: seq<Item>): Result<seq<byte>, EncodeError>
  {
    if items == [] then Ok([])
    else if items[0].value == [] then Err(EmptyValue(items[0].pi))
    else
      match EncodeItems(items[1..])
      case Err(e) => Err(e)
      case Ok(rest) => Ok(Unit(items[0].pi, items[0].value) + rest)
  }

  function EncodeParam(p: Param): Result<seq<byte>, EncodeError>
  {
    match p
    case PiParam(pi, value) => if value == [] then Err(EmptyValue(pi)) else Ok(Unit(pi, value))
    case PgiParam(pgi, items) =>
      match EncodeItems(items)
      case Err(e) => Err(e)
      case Ok(inner) => Ok(Unit(pgi, inner))
  }

  function EncodeParams(params: seq<Param>): Result<seq<byte>, EncodeError>
  {
    if params == [] then Ok([])
    else
      match EncodeParam(params[0])
      case Err(e) => Err(e)
      case Ok(first) =>
        match EncodeParams(params[1..])
        case Err(e) => Err(e)
        case Ok(rest) => Ok(first + rest)
  }

  function Header(f: Fpdu): seq<byte>
    requires EncodedLen(f) <= MAX_FPDU_LEN
  {
    Be16(EncodedLen(f)) + [f.kind.Codes().0, f.kind.Codes().1, f.idDst, f.idSrc]
  }

  function Encode(f: Fpdu): Result<seq<byte>, EncodeError>
  {
    if EncodedLen(f) > MAX_FPDU_LEN then Err(TooLong(EncodedLen(f)))
    else if f.kind.IsData() then Ok(Header(f) + f.data)
    else
      match EncodeParams(f.params)
      case Err(e) => Err(e)
      case Ok(body) => Ok(Header(f) + body)
  }

  // ---- decoding ----

  /** One unit at the head of `buf`: code, value, octets taken. */
  function ReadUnit(buf: seq<byte>): (r: Result<(byte, seq<byte>, nat), DecodeError>)
    requires buf != []
    ensures r.Ok? ==> 3 <= r.value.2 <= |buf|
  {
    if |buf| < 2 then Err(InvalidParameter)
    else if buf[1] == 0xFF && |buf| < 4 then Err(InvalidParameter)
    else
      var len := if buf[1] == 0xFF then ReadBe16(buf[2], buf[3]) else buf[1];
      var start := if buf[1] == 0xFF then 4 else 2;
      if len == 0 || start + len > |buf| then Err(InvalidParameter)
      else Ok((buf[0], buf[start..start + len], start + len))
  }

  /** Items of a group; `last` is the code of the previous one, 0 at first. */
  function DecodeItems(pgi: byte, buf: seq<byte>, last: byte, strict: bool): Result<seq<Item>, DecodeError>
    decreases |buf|
  {
    if buf == [] then Ok([])
    else
      match ReadUnit(buf)
      case Err(e) => Err(e)
      case Ok((code, value, n)) =>
        if !IsPi(code) then Err(InvalidParameter)
        else if strict && (code !in Members(pgi) || code <= last) then Err(InvalidParameter)
        else
          match DecodeItems(pgi, buf[n..], code, strict)
          case Err(e) => Err(e)
          case Ok(rest) => Ok([Item(code, value)] + rest)
  }

  function DecodeParam(code: byte, value: seq<byte>, strict: bool): Result<Param, DecodeError>
  {
    if IsPgi(code) then
      match DecodeItems(code, value, 0, strict)
      case Err(e) => Err(e)
      case Ok(items) => Ok(PgiParam(code, items))
    else if IsPi(code) then Ok(PiParam(code, value))
    else Err(InvalidParameter)
  }

  /** Parameters of a body; `last` is the highest code kept in order so far, 0 at first. */
  function DecodeParams(buf: seq<byte>, last: byte, strict: bool): Result<seq<Param>, DecodeError>
    decreases |buf|
  {
    if buf == [] then Ok([])
    else
      match ReadUnit(buf)
      case Err(e) => Err(e)
      case Ok((code, value, n)) =>
        if strict && code <= last && last > 0 then Err(InvalidParameter)
        else
          match DecodeParam(code, value, strict)
          case Err(e) => Err(e)
          case Ok(p) =>
            match DecodeParams(buf[n..], if code <= last then last else code, strict)
            case Err(e) => Err(e)
            case Ok(rest) => Ok([p] + rest)
  }

  function Decode(bytes: seq<byte>, strict: bool): Result<Fpdu, DecodeError>
  {
    if |bytes| < HEADER_LEN || ReadBe16(bytes[0], bytes[1]) != |bytes| then Err(RemoteProtocolError)
    else
      match KindOf(bytes[2], bytes[3])
      case None => Err(RemoteProtocolError)
      case Some(kind) =>
        if kind.IsData() then Ok(Fpdu(kind, bytes[4], bytes[5], [], bytes[HEADER_LEN..]))
        else
          match DecodeParams(bytes[HEADER_LEN..], 0, strict)
          case Err(e) => Err(e)
          case Ok(params) =>
            if strict && !Conforms(kind, params) then Err(InvalidParameter)
            else Ok(Fpdu(kind, bytes[4], bytes[5], params, []))
  }

  // ---- decode after encode ----

  lemma ReadsUnit(code: byte, value: seq<byte>, rest: seq<byte>)
    requires 1 <= |value| < 0x10000
    ensures ReadUnit(Unit(code, value) + rest) == Ok((code, value, UnitLen(|value|)))
    ensures (Unit(code, value) + rest)[UnitLen(|value|)..] == rest
  {
    var n := |value|;
    var head := [code] + LengthOctets(n);
    var buf := head + value + rest;
    Sandwich(head, value, rest);
    assert buf[0] == head[0] && buf[1] == head[1];
    if n >= 255 {
      assert buf[2] == head[2] && buf[3] == head[3];
    }
  }

  predicate AllItemsOk(pgi: byte, items: seq<Item>, last: byte)
  {
    && AscendingItems(items)
    && (forall i :: 0 <= i < |items| ==> ItemOk(pgi, items[i]) && items[i].pi > last)
  }

  lemma {:induction false} ItemsRoundTrip(pgi: byte, items: seq<Item>, last: byte)
    requires AllItemsOk(pgi, items, last) && ItemsLen(items) < 0x10000
    ensures EncodeItems(items).Ok? && |EncodeItems(items).value| == ItemsLen(items)
    ensures DecodeItems(pgi, EncodeItems(items).value, last, true) == Ok(items)
  {
    if items != [] {
      var it, rest := items[0], items[1..];
      assert ItemOk(pgi, it) && AllItemsOk(pgi, rest, it.pi);
      ItemsRoundTrip(pgi, rest, it.pi);
      var tail := EncodeItems(rest).value;
      ReadsUnit(it.pi, it.value, tail);
      assert items == [it] + rest;
    }
  }

  lemma ParamRoundTrip(p: Param)
    requires StructureOk(p) && ParamLen(p) < 0x10000
    ensures EncodeParam(p).Ok? && |EncodeParam(p).value| == ParamLen(p)
    ensures forall rest: seq<byte> :: ReadUnit(EncodeParam(p).value + rest).Ok?
    ensures forall rest: seq<byte> :: (EncodeParam(p).value + rest)[ParamLen(p)..] == rest
    ensures forall rest: seq<byte> :: var (code, value, n) := ReadUnit(EncodeParam(p).value + rest).value;
              code == p.Code() && n == ParamLen(p) && DecodeParam(code, value, true) == Ok(p)
  {
    match p
    case PiParam(pi, value) =>
      forall rest: seq<byte> { ReadsUnit(pi, value, rest); }
    case PgiParam(pgi, items) =>
      assert AllItemsOk(pgi, items, 0);
      ItemsRoundTrip(pgi, items, 0);
      var inner := EncodeItems(items).value;
      forall rest: seq<byte> { ReadsUnit(pgi, inner, rest); }
  }

  predicate AllParamsOk(params: seq<Param>, last: byte)
  {
    && Ascending(params)
    && (forall i :: 0 <= i < |params| ==> StructureOk(params[i]) && params[i].Code() > last)
  }

  lemma {:induction false} ParamsRoundTrip(params: seq<Param>, last: byte)
    requires AllParamsOk(params, last) && ParamsLen(params) < 0x10000
    ensures EncodeParams(params).Ok? && |EncodeParams(params).value| == ParamsLen(params)
    ensures DecodeParams(EncodeParams(params).value, last, true) == Ok(params)
  {
    if params != [] {
      var p, rest := params[0], params[1..];
      assert StructureOk(p) && AllParamsOk(rest, p.Code());
      ParamsRoundTrip(rest, p.Code());
      ParamRoundTrip(p);
      var tail := EncodeParams(rest).value;
      assert EncodeParams(params).value == EncodeParam(p).value + tail;
      assert params == [p] + rest;
    }
  }

  /** Every well-formed FPDU encodes to exactly its announced length and decodes to itself. */
  lemma {:induction false} EncodeThenDecode(f: Fpdu)
    requires WellFormed(f)
    ensures Encode(f).Ok? && |Encode(f).value| == EncodedLen(f)
    ensures Decode(Encode(f).value, true) == Ok(f)
  {
    var codes := f.kind.Codes();
    KindCodes(f.kind, codes.0, codes.1);
    if f.kind.IsData() {
      assert (Header(f) + f.data)[HEADER_LEN..] == f.data;
    } else {
      assert AllParamsOk(f.params, 0);
      ParamsRoundTrip(f.params, 0);
      var body := EncodeParams(f.params).value;
      assert (Header(f) + body)[HEADER_LEN..] == body;
    }
  }

  // ---- what the strict decoder accepts ----

  lemma {:induction false} DecodedItems(pgi: byte, buf: seq<byte>, last: byte)
    requires DecodeItems(pgi, buf, last, true).Ok?
    ensures var items := DecodeItems(pgi, buf, last, true).value;
      AllItemsOk(pgi, items, last) && ItemsLen(items) <= |buf| && (buf != [] ==> items != [])
    decreases |buf|
  {
    if buf != [] {
      var (code, value, n) := ReadUnit(buf).value;
      DecodedItems(pgi, buf[n..], code);
      UnitLenShrinks(buf);
      var rest := DecodeItems(pgi, buf[n..], code, true).value;
      var items := [Item(code, value)] + rest;
      assert items[1..] == rest;
    }
  }

  /** A unit never takes fewer octets than its canonical form, which drops a needless long length. */
  lemma UnitLenShrinks(buf: seq<byte>)
    requires buf != [] && ReadUnit(buf).Ok?
    ensures ReadUnit(buf).value.1 != [] && UnitLen(|ReadUnit(buf).value.1|) <= ReadUnit(buf).value.2
  {
  }

  lemma {:induction false} DecodedParams(buf: seq<byte>, last: byte)
    requires DecodeParams(buf, last, true).Ok?
    ensures var params := DecodeParams(buf, last, true).value;
      AllParamsOk(params, last) && ParamsLen(params) <= |buf|
    decreases |buf|
  {
    if buf != [] {
      var (code, value, n) := ReadUnit(buf).value;
      var p := DecodeParam(code, value, true).value;
      UnitLenShrinks(buf);
      if p.PgiParam? {
        DecodedItems(code, value, 0);
      }
      DecodedParams(buf[n..], code);
      var rest := DecodeParams(buf[n..], code, true).value;
      var params := [p] + rest;
      assert params[1..] == rest;
    }
  }

  /** Every octet string the strict decoder accepts yields a well-formed FPDU (ascending, complete,
      conforming to its template), which re-encodes in no more octets and decodes to itself again,
      whichever length form the string used. */
  lemma {:induction false} DecodeThenEncode(bytes: seq<byte>)
    requires Decode(bytes, true).Ok?
    ensures var f := Decode(bytes, true).value;
      && WellFormed(f)
      && Encode(f).Ok? && |Encode(f).value| <= |bytes|
      && Decode(Encode(f).value, true) == Ok(f)
  {
    var f := Decode(bytes, true).value;
    if !f.kind.IsData() {
      DecodedParams(bytes[HEADER_LEN..], 0);
    }
    EncodeThenDecode(f);
  }
}
