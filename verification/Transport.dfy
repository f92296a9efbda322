/** Entities on a byte stream: the two framings, the pre-connection exceptions, and the reader. */
module Transport {
  import opened Bytes
  import opened Params
  import opened Fpdu
  import opened Codec
  import opened FpduOps
  import opened Entities
  import Crc

  datatype Framing = LengthPrefixed | Raw

  datatype TransportError = Closed | TooLarge(len: nat, limit: nat) | Invalid(len: nat)

  const MAX_ENTITY: nat := 0xFFFF + 2 + Crc.CRC_LEN

  /** Octets of a pre-connection message or answer announced by the first two octets, 0 for none. */
  function PreconnectLen(hi: byte, lo: byte): nat
  {
    if hi == 0xD7 && lo == 0xC5 then 24
    else if (hi == 0xC1 && lo == 0xC3) || (hi == 0xD5 && lo == 0xC1) then 4
    else 0
  }

  /** The first value of a parameter, at top level or in a group. */
  function Get(params: seq<Param>, pi: byte): Option<seq<byte>>
  {
    if params == [] then None
    else
      match params[0]
      case PiParam(p, value) => if p == pi then Some(value) else Get(params[1..], pi)
      case PgiParam(_, items) =>
        var inner := GetItem(items, pi);
        if inner.Some? then inner else Get(params[1..], pi)
  }

  function GetItem(items: seq<Item>, pi: byte): Option<seq<byte>>
  {
    if items == [] then None else if items[0].pi == pi then Some(items[0].value) else GetItem(items[1..], pi)
  }

  const PI_CRC: byte := 1

  /** A CONNECT carrying PI 1 = 1. */
  predicate RequestsCrc(octets: seq<byte>)
  {
    && |octets| >= HEADER_LEN && octets[2] == 0x40 && octets[3] == 0x20
    && match Decode(octets, false)
       case Err(_) => false
       case Ok(f) => var v := Get(f.params, PI_CRC); v.Some? && DecodeNum(v.value) == 1
  }

  // ---- writing ----

  function Framed(framing: Framing, entity: seq<byte>): Result<seq<byte>, TransportError>
  {
    if |entity| > 0xFFFF then Err(TooLarge(|entity|, 0xFFFF))
    else Ok(if framing == LengthPrefixed then Be16(|entity|) + entity else entity)
  }

  class FrameWriter {
    const framing: Framing
    var written: seq<byte>

    constructor (framing: Framing)
      ensures this.framing == framing && written == []
    {
      this.framing := framing;
      written := [];
    }

    method WriteEntity(entity: seq<byte>) returns (r: Result<(), TransportError>)
      modifies this
      ensures match Framed(framing, entity)
        case Ok(octets) => r == Ok(()) && written == old(written) + octets
        case Err(e) => r == Err(e) && written == old(written)
    {
      if |entity| > 0xFFFF {
        return Err(TooLarge(|entity|, 0xFFFF));
      }
      if framing == LengthPrefixed {
        var buf := Be16(|entity|);
        buf := buf + entity;
        written := written + buf;
      } else {
        written := written + entity;
      }
      return Ok(());
    }
  }

  // ---- reading ----

  datatype Reading = Reading(framing: Framing, maxLen: nat, crc: bool, first: bool, probe: bool)

  /** `n` octets of the stream as an entity, and what is left. */
  function TakeOctets(st: Reading, skip: nat, n: nat, stream: seq<byte>)
    : (r: Result<(seq<byte>, Reading, seq<byte>), TransportError>)
    requires skip <= n
  {
    if |stream| < n then Err(Closed) else Ok((stream[skip..n], st, stream[n..]))
  }

  /** The FPDU at the head of a raw stream, delimited by its length field. */
  function ReadRaw(st: Reading, declared: nat, stream: seq<byte>)
    : Result<(seq<byte>, Reading, seq<byte>), TransportError>
  {
    var total := declared + Trailer(st.crc);
    if declared < HEADER_LEN then Err(Invalid(declared))
    else if total > st.maxLen then Err(TooLarge(total, st.maxLen))
    else if |stream| < total then Err(Closed)
    else if st.probe && !st.crc && RequestsCrc(stream[..declared]) then
      TakeOctets(st.(probe := false, crc := true), 0, declared + Crc.CRC_LEN, stream)
    else TakeOctets(st.(probe := false), 0, total, stream)
  }

  /** The next entity of the stream. */
  function NextEntity(st: Reading, stream: seq<byte>): (r: Result<(seq<byte>, Reading, seq<byte>), TransportError>)
    ensures r.Ok? ==> |r.value.2| < |stream|
  {
    if |stream| < 2 then Err(Closed)
    else
      var declared, pre := ReadBe16(stream[0], stream[1]), PreconnectLen(stream[0], stream[1]);
      var now := st.(first := false);
      if st.first && pre > 0 then TakeOctets(now, 0, pre, stream)
      else
        match st.framing
        case LengthPrefixed =>
          if declared > st.maxLen then Err(TooLarge(declared, st.maxLen))
          else if declared == 0 then Err(Invalid(0))
          else TakeOctets(now, 2, 2 + declared, stream)
        case Raw => ReadRaw(now, declared, stream)
  }

  /** The entity behind a two-octet head is the part of the whole stream that follows the head. */
  lemma Behind(head: seq<byte>, rest: seq<byte>, n: nat)
    requires n <= |rest|
    ensures (head + rest)[|head|..|head| + n] == rest[..n] && (head + rest)[|head| + n..] == rest[n..]
  {
  }

  class FrameReader {
    const framing: Framing
    const maxLen: nat
    var stream: seq<byte>
    var crc: bool
    var first: bool
    var probe: bool

    function View(): Reading
      reads this
    {
      Reading(framing, maxLen, crc, first, probe)
    }

    constructor (framing: Framing, maxLen: nat, stream: seq<byte>)
      ensures View() == Reading(framing, Min(maxLen, MAX_ENTITY), false, true, true) && this.stream == stream
    {
      this.framing := framing;
      this.maxLen := Min(maxLen, MAX_ENTITY);
      this.stream := stream;
      crc, first, probe := false, true, true;
    }

    method ReadExact(n: nat) returns (r: Option<seq<byte>>)
      modifies `stream
      ensures if |old(stream)| < n then r == None && stream == old(stream)
              else r == Some(old(stream)[..n]) && stream == old(stream)[n..]
    {
      if |stream| < n {
        return None;
      }
      r := Some(stream[..n]);
      stream := stream[n..];
    }

    method ReadEntity() returns (r: Result<seq<byte>, TransportError>)
      modifies this
      ensures match NextEntity(old(View()), old(stream))
        case Err(e) => r == Err(e)
        case Ok((entity, now, rest)) => r == Ok(entity) && View() == now && stream == rest
    {
      var head := ReadExact(2);
      if head.None? {
        return Err(Closed);
      }
      hide PreconnectLen, ReadBe16, RequestsCrc;
      assert head.value + stream == old(stream);
      var hi, lo := head.value[0], head.value[1];
      assert hi == old(stream)[0] && lo == old(stream)[1];
      var wasFirst := first;
      first := false;
      if wasFirst && PreconnectLen(hi, lo) > 0 {
        r := Completed(head.value, PreconnectLen(hi, lo) - 2);
      } else if framing == LengthPrefixed {
        if ReadBe16(hi, lo) <= |stream| {
          Behind(head.value, stream, ReadBe16(hi, lo));
        }
        r := ReadPrefixed(ReadBe16(hi, lo));
      } else {
        r := ReadRawFpdu(head.value, ReadBe16(hi, lo));
      }
    }

    method ReadPrefixed(declared: nat) returns (r: Result<seq<byte>, TransportError>)
      modifies `stream
      ensures if declared > maxLen then r == Err(TooLarge(declared, maxLen))
              else if declared == 0 then r == Err(Invalid(0))
              else if declared > |old(stream)| then r == Err(Closed)
              else r == Ok(old(stream)[..declared]) && stream == old(stream)[declared..]
    {
      if declared > maxLen {
        return Err(TooLarge(declared, maxLen));
      }
      if declared == 0 {
        return Err(Invalid(0));
      }
      var v := ReadExact(declared);
      return if v.None? then Err(Closed) else Ok(v.value);
    }

    /** The head already read, followed by `n` more octets. */
    method Completed(head: seq<byte>, n: nat) returns (r: Result<seq<byte>, TransportError>)
      modifies `stream
      ensures if |old(stream)| < n then r == Err(Closed)
              else r == Ok((head + old(stream))[..|head| + n]) && stream == (head + old(stream))[|head| + n..]
    {
      var rest := ReadExact(n);
      if rest.None? {
        return Err(Closed);
      }
      Sandwich(head, rest.value, stream);
      assert head + old(stream) == head + rest.value + stream;
      assert (head + old(stream))[..|head| + n] == head + rest.value;
      return Ok(head + rest.value);
    }

    method ReadRawFpdu(head: seq<byte>, declared: nat) returns (r: Result<seq<byte>, TransportError>)
      requires |head| == 2
      modifies this
      ensures match ReadRaw(old(View()), declared, head + old(stream))
        case Err(e) => r == Err(e)
        case Ok((entity, now, rest)) => r == Ok(entity) && View() == now && stream == rest
    {
      if declared < HEADER_LEN {
        return Err(Invalid(declared));
      }
      var extra := if crc then Crc.CRC_LEN else 0;
      if declared + extra > maxLen {
        return Err(TooLarge(declared + extra, maxLen));
      }
      ghost var all := head + stream;
      var v := Completed(head, declared + extra - 2);
      if v.Err? {
        return v;
      }
      var probing := probe;
      probe := false;
      if probing && extra == 0 && RequestsCrc(v.value) {
        assert v.value == all[..declared] && all == v.value + stream;
        var check := ReadExact(Crc.CRC_LEN);
        if check.None? {
          return Err(Closed);
        }
        assert v.value + check.value == all[..declared + Crc.CRC_LEN];
        assert stream == all[declared + Crc.CRC_LEN..];
        crc := true;
        return Ok(v.value + check.value);
      }
      return v;
    }
  }

  // ---- round trips ----

  function ReadAll(st: Reading, stream: seq<byte>): Result<seq<seq<byte>>, TransportError>
    decreases |stream|
  {
    if stream == [] then Ok([])
    else
      match NextEntity(st, stream)
      case Err(e) => Err(e)
      case Ok((entity, now, rest)) => Following([entity], ReadAll(now, rest))
  }

  /** Entities written one after the other. */
  function Written(framing: Framing, es: seq<seq<byte>>): seq<byte>
    requires forall e :: e in es ==> |e| <= 0xFFFF
  {
    if es == [] then [] else Framed(framing, es[0]).value + Written(framing, es[1..])
  }

  predicate Mistakable(n: nat)
  {
    n < 0x10000 && PreconnectLen(Be16(n)[0], Be16(n)[1]) > 0
  }

  /** A first entity of one of three lengths is not read: what comes back is the opening of the stream, the length
      octets included, taken for a pre-connection message or answer. */
  lemma MistakableLengths(st: Reading, e: seq<byte>, later: seq<byte>)
    requires st.framing == LengthPrefixed && st.first && |e| <= 0xFFFF
    ensures Mistakable(|e|) <==> |e| in {0xD7C5, 0xC1C3, 0xD5C1}
    ensures Mistakable(|e|) ==>
      var stream, n := Be16(|e|) + e + later, if |e| == 0xD7C5 then 24 else 4;
      NextEntity(st, stream) == Ok((stream[..n], st.(first := false), stream[n..])) && n < |e|
  {
    var b, stream := Be16(|e|), Be16(|e|) + e + later;
    assert |e| == (b[0] as int) * 256 + b[1];
    assert stream[0] == b[0] && stream[1] == b[1];
  }

  /** One entity read behind its length. */
  lemma PrefixedStep(st: Reading, e: seq<byte>, later: seq<byte>)
    requires st.framing == LengthPrefixed && |e| <= 0xFFFF && (st.first ==> !Mistakable(|e|))
    ensures NextEntity(st, Be16(|e|) + e + later)
         == if |e| > st.maxLen then Err(TooLarge(|e|, st.maxLen))
            else if e == [] then Err(Invalid(0))
            else Ok((e, st.(first := false), later))
  {
    var head, stream := Be16(|e|), Be16(|e|) + e + later;
    Sandwich(head, e, later);
    assert stream[0] == head[0] && stream[1] == head[1];
    if e != [] {
      assert stream[2..2 + |e|] == e && stream[2 + |e|..] == later;
    }
  }

  /** Behind length prefixes the entities are read back, in order, if and only if each has an octet at least and is
      within the reader's limit, and the first has no length that reads as a pre-connection message. */
  lemma {:induction false} LengthPrefixedRoundTrip(st: Reading, es: seq<seq<byte>>)
    requires st.framing == LengthPrefixed
    requires forall e :: e in es ==> |e| <= 0xFFFF
    ensures ReadAll(st, Written(LengthPrefixed, es)) == Ok(es)
       <==> (forall e :: e in es ==> 1 <= |e| <= st.maxLen) && (st.first && es != [] ==> !Mistakable(|es[0]|))
    decreases |es|
  {
    if es != [] {
      var e, rest := es[0], es[1..];
      var stream, later := Written(LengthPrefixed, es), Written(LengthPrefixed, rest);
      assert stream == Be16(|e|) + e + later && stream != [];
      assert e in es && es == [e] + rest;
      hide NextEntity, Written, Mistakable;
      if st.first && Mistakable(|e|) {
        MistakableLengths(st, e, later);
        FirstDiffers(NextEntity(st, stream).value.0, ReadAll(st.(first := false), NextEntity(st, stream).value.2), es);
      } else {
        PrefixedStep(st, e, later);
        LengthPrefixedRoundTrip(st.(first := false), rest);
        FirstSame(e, ReadAll(st.(first := false), later), rest);
      }
    }
  }

  /** An empty entity ends the reading. */
  lemma EmptyEntityUnread(st: Reading, later: seq<seq<byte>>)
    requires st.framing == LengthPrefixed && forall e :: e in later ==> |e| <= 0xFFFF
    ensures ReadAll(st, Written(LengthPrefixed, [[]] + later)) == Err(Invalid(0))
  {
    hide NextEntity, Mistakable, PreconnectLen;
    var es: seq<seq<byte>> := [[]] + later;
    assert es[1..] == later;
    var behind := Written(LengthPrefixed, later);
    if st.first {
      MistakableLengths(st, [], behind);
    }
    PrefixedStep(st, [], behind);
    assert Written(LengthPrefixed, es) == Be16(0) + [] + behind;
  }

  lemma FirstDiffers(e: seq<byte>, r: Result<seq<seq<byte>>, TransportError>, es: seq<seq<byte>>)
    requires es != [] && |e| < |es[0]|
    ensures Following([e], r) != Ok(es)
  {
    if r.Ok? {
      assert ([e] + r.value)[0] == e;
    }
  }

  lemma FirstSame(e: seq<byte>, r: Result<seq<seq<byte>>, TransportError>, rest: seq<seq<byte>>)
    ensures Following([e], r) == Ok([e] + rest) <==> r == Ok(rest)
  {
    if r.Ok? {
      assert ([e] + r.value)[1..] == r.value && ([e] + rest)[1..] == rest;
    }
  }

  /** Raw writing adds nothing to the entities. */
  lemma {:induction false} WrittenRaw(es: seq<seq<byte>>)
    requires forall e :: e in es ==> |e| <= 0xFFFF
    ensures Written(Raw, es) == Flatten(es)
  {
    if es != [] {
      WrittenRaw(es[1..]);
    }
  }

  function SealedEach(parts: seq<seq<byte>>, crc: bool): seq<seq<byte>>
  {
    if parts == [] then [] else [Sealed(parts[0], crc)] + SealedEach(parts[1..], crc)
  }

  /** What a raw reader must know to find the FPDUs `parts` sealed with or without check bytes. */
  predicate Expecting(st: Reading, parts: seq<seq<byte>>, crc: bool)
  {
    parts == [] ||
    (&& (st.first ==> !Mistakable(|parts[0]|))
     && if st.probe && !st.crc && RequestsCrc(parts[0]) then crc else st.crc == crc)
  }

  lemma RawStep(st: Reading, o: seq<byte>, crc: bool, rest: seq<byte>)
    requires st.framing == Raw && Delimited(o) && |Sealed(o, crc)| <= st.maxLen
    requires Expecting(st, [o], crc)
    ensures NextEntity(st, Sealed(o, crc) + rest)
         == Ok((Sealed(o, crc), st.(first := false, probe := false, crc := crc), rest))
  {
    var s, n := Sealed(o, crc), |Sealed(o, crc)|;
    var stream := s + rest;
    assert s[..|o|] == o && stream[..|o|] == o;
    assert stream[0] == o[0] && stream[1] == o[1];
    assert stream[..n] == s && stream[0..n] == s && stream[n..] == rest;
    assert Be16(|o|) == [o[0], o[1]];
  }

  /** Written back to back, FPDUs are found again by their own length field, check bytes included, also
      when the reader first learns of the check bytes from the CONNECT itself. */
  lemma {:induction false} RawRoundTrip(st: Reading, parts: seq<seq<byte>>, crc: bool)
    requires st.framing == Raw && AllDelimited(parts)
    requires forall o :: o in parts ==> |Sealed(o, crc)| <= st.maxLen
    requires Expecting(st, parts, crc)
    ensures ReadAll(st, Packed(parts, crc)) == Ok(SealedEach(parts, crc))
    decreases |parts|
  {
    if parts != [] {
      var o, rest := parts[0], parts[1..];
      var now := st.(first := false, probe := false, crc := crc);
      assert AllDelimited(rest);
      RawStep(st, o, crc, Packed(rest, crc));
      RawRoundTrip(now, rest, crc);
      assert Sealed(o, crc) != [];
    }
  }

  /** Entities written raw are one stream of FPDUs: their boundaries leave no trace. */
  lemma {:induction false} RawBoundaries(es: seq<Held>, crc: bool)
    ensures Flatten(PackedEach(es, crc)) == Packed(Flatten(es), crc)
  {
    if es != [] {
      RawBoundaries(es[1..], crc);
      PackedAppend(es[0], Flatten(es[1..]), crc);
    }
  }

  lemma {:induction false} PackedAppend(xs: Held, ys: Held, crc: bool)
    ensures Packed(xs + ys, crc) == Packed(xs, crc) + Packed(ys, crc)
  {
    if xs == [] {
      assert xs + ys == ys;
    } else {
      assert (xs + ys)[1..] == xs[1..] + ys;
      PackedAppend(xs[1..], ys, crc);
      Assoc(Sealed(xs[0], crc), Packed(xs[1..], crc), Packed(ys, crc));
    }
  }

  /** Each entity a raw reader finds decodes to one of the FPDUs sent. */
  lemma {:induction false} SealedDecodes(f: Fpdu, crc: bool)
    requires WellFormed(f)
    ensures DecodeEntity(Sealed(Octets(f), crc), crc) == Ok([f])
  {
    EntityRoundTrip([f], crc);
    assert [f][1..] == [];
    assert OctetsOf([f]) == [Octets(f)];
    PackedOne(Octets(f), crc);
  }
}
