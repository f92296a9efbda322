/** Messages: cut to the entity size, sent in segments, put together again, and when a peer can take them. */
module Messages {
  import opened Bytes
  import opened Params
  import opened Fpdu
  import opened Codec
  import opened FpduOps
  import opened Transport
  import opened Builders
  import opened SessionUnits

  // ---- the FPDUs ----

  function MsgFields(s: FileSpec, reply: bool, message: seq<byte>): seq<Field>
  {
    [Some(FileId(s)), Num(13, s.transferId), Flag(14, reply), Octet(16, s.dataCode), Octet(17, Some(s.priority)),
     Historical(s), Opt(61, s.clientId), Opt(62, s.bankId), Filled(91, Some(message))]
  }

  const MSG_CODES: seq<byte> := [9, 13, 14, 16, 17, 50, 61, 62, 91]

  /** MSG or MSGDM. */
  function BuildMsg(k: FpduKind, idDst: byte, s: FileSpec, reply: bool, message: seq<byte>): Fpdu
  {
    Fpdu(k, idDst, 0, Kept(MsgFields(s, reply, message)), [])
  }

  /** MSGMM or MSGFM. */
  function BuildSegment(k: FpduKind, idDst: byte, segment: seq<byte>): Fpdu
  {
    Fpdu(k, idDst, 0, Kept([Filled(91, Some(segment))]), [])
  }

  /** What a receiver takes from PI 91. */
  function Carried(f: Fpdu): seq<byte> { var v := Get(f.params, 91); if v.Some? then v.value else [] }

  // ---- cutting ----

  function Chunks(m: nat, s: seq<byte>): seq<seq<byte>>
    requires m >= 1
  {
    if |s| <= m then [s] else [s[..m]] + Chunks(m, s[m..])
  }

  /** Octets for the message left by an entity, at least one. */
  function Room(maxEntity: nat, overhead: nat): nat { Max(maxEntity - overhead, 1) }

  function CrcCost(crc: bool): nat { if crc then 2 else 0 }

  /** Room in the first FPDU, and in each segment. */
  function FirstRoom(maxEntity: nat, crc: bool, idDst: byte, s: FileSpec, reply: bool): nat
  {
    Room(maxEntity, EncodedLen(BuildMsg(Msg, idDst, s, reply, [])) + 3 + CrcCost(crc))
  }

  function SegmentRoom(maxEntity: nat, crc: bool): nat { Room(maxEntity, HEADER_LEN + 3 + 3 + CrcCost(crc)) }

  function Segments(idDst: byte, pieces: seq<seq<byte>>): seq<Fpdu>
  {
    if pieces == [] then []
    else [BuildSegment(if |pieces| == 1 then MsgFm else MsgMm, idDst, pieces[0])] + Segments(idDst, pieces[1..])
  }

  /** The FPDUs of a message: one, or a first one and segments. */
  function MessageUnits(idDst: byte, s: FileSpec, reply: bool, message: seq<byte>, room: nat, segment: nat): seq<Fpdu>
    requires room >= 1 && segment >= 1
  {
    if |message| <= room then [BuildMsg(Msg, idDst, s, reply, message)]
    else
      [BuildMsg(MsgDm, idDst, s, reply, message[..room])] + Segments(idDst, Chunks(segment, message[room..]))
  }

  /** The segments in a loop, the last one known by its position. */
  method SendMessage(idDst: byte, s: FileSpec, reply: bool, message: seq<byte>, maxEntity: nat, crc: bool)
    returns (out: seq<Fpdu>)
    ensures out == MessageUnits(idDst, s, reply, message, FirstRoom(maxEntity, crc, idDst, s, reply),
                                SegmentRoom(maxEntity, crc))
  {
    hide BuildMsg, BuildSegment;
    var room, segment := FirstRoom(maxEntity, crc, idDst, s, reply), SegmentRoom(maxEntity, crc);
    if |message| <= room {
      return [BuildMsg(Msg, idDst, s, reply, message)];
    }
    out := [BuildMsg(MsgDm, idDst, s, reply, message[..room])];
    var chunks := Cut(segment, message[room..]);
    ghost var all := out + Segments(idDst, chunks);
    var i := 0;
    assert chunks[0..] == chunks;
    while i < |chunks|
      invariant 0 <= i <= |chunks|
      invariant out + Segments(idDst, chunks[i..]) == all
    {
      var kind := if i + 1 == |chunks| then MsgFm else MsgMm;
      assert chunks[i..][1..] == chunks[i + 1..] && chunks[i..][0] == chunks[i];
      Assoc(out, [BuildSegment(kind, idDst, chunks[i])], Segments(idDst, chunks[i + 1..]));
      out := out + [BuildSegment(kind, idDst, chunks[i])];
      i := i + 1;
    }
    assert out + [] == out;
  }

  method Cut(m: nat, s: seq<byte>) returns (chunks: seq<seq<byte>>)
    requires m >= 1
    ensures chunks == Chunks(m, s)
  {
    chunks := [];
    var pos := 0;
    assert s[0..] == s && [] + Chunks(m, s) == Chunks(m, s);
    while |s| - pos > m
      invariant 0 <= pos <= |s|
      invariant chunks + Chunks(m, s[pos..]) == Chunks(m, s)
    {
      Window(s, pos, m);
      Assoc(chunks, [s[pos..pos + m]], Chunks(m, s[pos + m..]));
      chunks := chunks + [s[pos..pos + m]];
      pos := pos + m;
    }
    chunks := chunks + [s[pos..]];
  }

  /** The responder's loop: segments until MSGFM; `None` when another FPDU comes or the link ends. */
  function Taken(units: seq<Fpdu>): Option<seq<byte>>
  {
    if units == [] then None
    else if units[0].kind == MsgFm then Some(Carried(units[0]))
    else if units[0].kind == MsgMm then
      var rest := Taken(units[1..]);
      if rest.None? then None else Some(Carried(units[0]) + rest.value)
    else None
  }

  /** The message a first FPDU begins. */
  function Received(units: seq<Fpdu>): Option<seq<byte>>
  {
    if units == [] then None
    else if units[0].kind == Msg then Some(Carried(units[0]))
    else if units[0].kind == MsgDm then
      var rest := Taken(units[1..]);
      if rest.None? then None else Some(Carried(units[0]) + rest.value)
    else None
  }

  method TakeMessage(units: seq<Fpdu>) returns (r: Option<seq<byte>>)
    requires units != [] && (units[0].kind == Msg || units[0].kind == MsgDm)
    ensures r == Received(units)
  {
    hide Carried;
    var message := Carried(units[0]);
    if units[0].kind == Msg {
      return Some(message);
    }
    var i := 1;
    while i < |units|
      invariant 1 <= i <= |units|
      invariant Received(units) == var rest := Taken(units[i..]); if rest.None? then None else Some(message + rest.value)
    {
      var seg := units[i];
      assert units[i..][0] == seg && units[i..][1..] == units[i + 1..];
      if seg.kind != MsgMm && seg.kind != MsgFm {
        return None;
      }
      if seg.kind == MsgFm {
        return Some(message + Carried(seg));
      }
      ghost var later := Taken(units[i + 1..]);
      if later.Some? {
        Assoc(message, Carried(seg), later.value);
      }
      message := message + Carried(seg);
      i := i + 1;
    }
    r := None;
  }

  // ---- what can be sent ----

  lemma MsgCarries(k: FpduKind)
    requires k == Msg || k == MsgDm
    ensures Carries(k, 13, 3) && Carries(k, 14, 1) && Carries(k, 16, 1) && Carries(k, 17, 1)
    ensures Carries(k, 61, 24) && Carries(k, 62, 24) && Carries(k, 91, 4096)
    ensures 9 in Mandatory(k) + Optional(k) && 50 in Mandatory(k) + Optional(k) && Mandatory(k) == {9, 13, 17}
  {
  }

  /** What describes a message: a name, an identifier of three octets, texts within their lengths and none empty. */
  predicate Named(s: FileSpec)
  {
    && s.fileName != [] && Unempty(s.requester) && Unempty(s.server) && s.transferId < 0x100_0000 && Dated(s)
    && Text(s.clientId, 24) && Text(s.bankId, 24)
  }

  lemma MsgFine(k: FpduKind, s: FileSpec, reply: bool, message: seq<byte>)
    requires k == Msg || k == MsgDm
    ensures AllFine(k, MsgFields(s, reply, message)) <==> Named(s) && |message| <= 4096
  {
    hide Fine, EncodeNum, Power256, Carries, Flag, Opt, Filled, Num, Octet, FileId, Historical, Unempty, Mandatory,
      Optional;
    Powers();
    MsgCarries(k);
    var fs := MsgFields(s, reply, message);
    FileIdFine(k, s);
    NumFine(k, 13, s.transferId, 3);
    FlagFine(k, 14, reply, 1);
    OctetFine(k, 16, s.dataCode, 1);
    OctetFine(k, 17, Some(s.priority), 1);
    HistoricalFine(k, s);
    OptFine(k, 61, s.clientId, 24);
    OptFine(k, 62, s.bankId, 24);
    FilledFine(k, 91, Some(message), 4096);
    if AllFine(k, fs) {
      assert Fine(k, fs[0]) && Fine(k, fs[1]) && Fine(k, fs[5]) && Fine(k, fs[6]) && Fine(k, fs[7]) && Fine(k, fs[8]);
    }
  }

  lemma MsgOrder(k: FpduKind, s: FileSpec, reply: bool, message: seq<byte>)
    requires k == Msg || k == MsgDm
    ensures InOrder(MSG_CODES, MsgFields(s, reply, message))
    ensures forall c :: c in Mandatory(k) ==>
      exists i :: 0 <= i < |MSG_CODES| && MSG_CODES[i] == c && MsgFields(s, reply, message)[i].Some?
  {
    hide EncodeNum;
    var fs := MsgFields(s, reply, message);
    assert fs[0].Some? && fs[1].Some? && fs[4].Some?;
    assert MSG_CODES[0] == 9 && MSG_CODES[1] == 13 && MSG_CODES[4] == 17;
  }

  /** MSG and MSGDM are well formed exactly when their description is right and PI 91 holds at most 4096 octets. */
  lemma MsgWellFormed(k: FpduKind, idDst: byte, s: FileSpec, reply: bool, message: seq<byte>)
    requires k == Msg || k == MsgDm
    ensures var f := BuildMsg(k, idDst, s, reply, message);
      && (WellFormed(f) <==> Named(s) && |message| <= 4096 && EncodedLen(f) <= 0xFFFF)
      && (WellFormed(f) ==> Carried(f) == message)
  {
    hide WellFormed, InOrder, AllFine, MsgFields, Kept, EncodedLen, Named, Mandatory, Optional, Get;
    MsgFine(k, s, reply, message);
    MsgOrder(k, s, reply, message);
    MsgCarries(k);
    BuiltWell(k, idDst, 0, MSG_CODES, MsgFields(s, reply, message));
    if Named(s) && |message| <= 4096 {
      LastField(s, reply, message);
      Alone91();
      FieldRead(k, MSG_CODES, MsgFields(s, reply, message), 8);
    }
  }

  lemma Alone91()
    ensures Alone(91)
  {
  }

  lemma LastField(s: FileSpec, reply: bool, message: seq<byte>)
    ensures |MsgFields(s, reply, message)| == 9 && MsgFields(s, reply, message)[8] == Filled(91, Some(message))
  {
  }

  lemma SegmentCarries(k: FpduKind)
    requires k == MsgMm || k == MsgFm
    ensures Carries(k, 91, 4096) && Mandatory(k) == {}
  {
  }

  lemma SegmentWellFormed(k: FpduKind, idDst: byte, segment: seq<byte>)
    requires k == MsgMm || k == MsgFm
    ensures var f := BuildSegment(k, idDst, segment);
      (WellFormed(f) <==> |segment| <= 4096) && (WellFormed(f) ==> Carried(f) == segment)
  {
    hide WellFormed, InOrder, Kept, EncodedLen, Mandatory, Get, Fine, Carries;
    var codes: seq<byte>, fs := [91], [Filled(91, Some(segment))];
    SegmentCarries(k);
    FourFields(k, codes, fs);
    FilledFine(k, 91, Some(segment), 4096);
    BuiltWell(k, idDst, 0, codes, fs);
    SegmentLen(k, idDst, segment);
    assert AllFine(k, fs) <==> Fine(k, fs[0]);
    if |segment| <= 4096 {
      Alone91();
      FieldRead(k, codes, fs, 0);
    }
  }

  lemma SegmentLen(k: FpduKind, idDst: byte, segment: seq<byte>)
    requires k == MsgMm || k == MsgFm
    ensures EncodedLen(BuildSegment(k, idDst, segment)) <= 10 + |segment|
  {
    var f := Filled(91, Some(segment));
    assert [f][..0] == [] && Kept([]) == [];
    assert Kept([f]) == [] + (if f.Some? then [f.value] else []);
    if f.Some? {
      LenSnoc([], f.value);
      assert [] + [f.value] == [f.value];
    }
  }

  // ---- the whole message ----

  predicate AllWell(units: seq<Fpdu>) { forall i :: 0 <= i < |units| ==> WellFormed(units[i]) }

  lemma {:induction false} ChunkSizes(m: nat, s: seq<byte>)
    requires m >= 1
    ensures Chunks(m, s) != [] && Flatten(Chunks(m, s)) == s
    ensures (forall i :: 0 <= i < |Chunks(m, s)| ==> |Chunks(m, s)[i]| <= 4096) <==> m <= 4096 || |s| <= 4096
    ensures forall i :: 0 <= i < |Chunks(m, s)| ==> |Chunks(m, s)[i]| <= m
    decreases |s|
  {
    var all := Chunks(m, s);
    if |s| <= m {
      FlattenOne(s);
      assert all[0] == s;
    } else {
      ChunkSizes(m, s[m..]);
      assert all[0] == s[..m] && all[1..] == Chunks(m, s[m..]);
      assert forall i :: 1 <= i < |all| ==> all[i] == all[1..][i - 1];
    }
  }

  lemma {:induction false} SegmentsArrive(idDst: byte, pieces: seq<seq<byte>>)
    requires pieces != []
    ensures AllWell(Segments(idDst, pieces)) <==> forall i :: 0 <= i < |pieces| ==> |pieces[i]| <= 4096
    ensures AllWell(Segments(idDst, pieces)) ==> Taken(Segments(idDst, pieces)) == Some(Flatten(pieces))
  {
    hide WellFormed, Carried, BuildSegment;
    var k := if |pieces| == 1 then MsgFm else MsgMm;
    var f, units := BuildSegment(k, idDst, pieces[0]), Segments(idDst, pieces);
    SegmentWellFormed(k, idDst, pieces[0]);
    SegmentKind(k, idDst, pieces[0]);
    if |pieces| == 1 {
      assert units == [f];
      FlattenOne(pieces[0]);
      assert pieces == [pieces[0]];
    } else {
      SegmentsArrive(idDst, pieces[1..]);
      assert units[0] == f && units[1..] == Segments(idDst, pieces[1..]);
      AllWellSplit(units);
      assert forall i :: 1 <= i < |pieces| ==> pieces[i] == pieces[1..][i - 1];
    }
  }

  lemma SegmentKind(k: FpduKind, idDst: byte, segment: seq<byte>)
    ensures BuildSegment(k, idDst, segment).kind == k
  {
  }

  lemma AllWellSplit(units: seq<Fpdu>)
    requires units != []
    ensures AllWell(units) <==> WellFormed(units[0]) && AllWell(units[1..])
  {
    hide WellFormed;
    if WellFormed(units[0]) && AllWell(units[1..]) {
      forall i | 0 <= i < |units| ensures WellFormed(units[i]) {
        assert i == 0 || units[i] == units[1..][i - 1];
      }
    }
  }

  /** The peer can take every FPDU of a message exactly when none of its pieces is longer than the 4096 octets of PI 91,
      however large the entity; the message then arrives whole. */
  lemma {:induction false} MessageArrives(idDst: byte, s: FileSpec, reply: bool, message: seq<byte>, room: nat,
                                          segment: nat)
    requires room >= 1 && segment >= 1 && Named(s)
    requires EncodedLen(BuildMsg(Msg, idDst, s, reply, message[..Min(room, |message|)])) <= 0xFFFF
    ensures var units := MessageUnits(idDst, s, reply, message, room, segment);
      && (AllWell(units) <==> if |message| <= room then |message| <= 4096
                              else room <= 4096 && (segment <= 4096 || |message| - room <= 4096))
      && (AllWell(units) ==> Received(units) == Some(message))
  {
    hide WellFormed, Carried, BuildMsg, EncodedLen, Named, Taken;
    var units := MessageUnits(idDst, s, reply, message, room, segment);
    var head := message[..Min(room, |message|)];
    var k := if |message| <= room then Msg else MsgDm;
    MsgWellFormed(k, idDst, s, reply, head);
    SameLen(k, idDst, s, reply, head);
    if |message| <= room {
      assert head == message && units == [BuildMsg(Msg, idDst, s, reply, message)];
      AllWellSplit(units);
      assert units[1..] == [];
    } else {
      var rest := message[room..];
      ChunkSizes(segment, rest);
      SegmentsArrive(idDst, Chunks(segment, rest));
      assert units[0] == BuildMsg(MsgDm, idDst, s, reply, head) && units[1..] == Segments(idDst, Chunks(segment, rest));
      AllWellSplit(units);
      assert head + rest == message;
    }
  }

  lemma SameLen(k: FpduKind, idDst: byte, s: FileSpec, reply: bool, message: seq<byte>)
    requires k == Msg || k == MsgDm
    ensures EncodedLen(BuildMsg(k, idDst, s, reply, message)) == EncodedLen(BuildMsg(Msg, idDst, s, reply, message))
    ensures BuildMsg(k, idDst, s, reply, message).kind == k
  {
  }

  // ---- the size of the first FPDU ----

  /** PI 91 behind the rest of a first FPDU. */
  lemma MsgLen(k: FpduKind, idDst: byte, s: FileSpec, reply: bool, message: seq<byte>)
    requires (k == Msg || k == MsgDm) && message != []
    ensures EncodedLen(BuildMsg(k, idDst, s, reply, message))
         == EncodedLen(BuildMsg(k, idDst, s, reply, [])) + UnitLen(|message|)
  {
    hide FileId, Num, Octet, Historical, Opt, Flag;
    var fs, gs := MsgFields(s, reply, message), MsgFields(s, reply, []);
    assert fs[..8] == gs[..8] && fs[8] == Some(PiParam(91, message)) && gs[8] == None;
    LenSnoc(Kept(fs[..8]), PiParam(91, message));
    assert Kept(gs) == Kept(gs[..8]) + [] == Kept(gs[..8]);
  }

  /** The first FPDU of a message, cut to the room the entity leaves, fits the entity unless it carries 255 octets or more
      and they fill that room: then it is one octet too long. */
  lemma FirstFpduLen(k: FpduKind, idDst: byte, s: FileSpec, reply: bool, piece: seq<byte>, maxEntity: nat, crc: bool)
    requires k == Msg || k == MsgDm
    requires maxEntity > EncodedLen(BuildMsg(Msg, idDst, s, reply, [])) + 3 + CrcCost(crc)
    requires 1 <= |piece| <= FirstRoom(maxEntity, crc, idDst, s, reply)
    ensures var taken := EncodedLen(BuildMsg(k, idDst, s, reply, piece)) + CrcCost(crc);
      && (taken <= maxEntity <==> |piece| < 255 || |piece| < FirstRoom(maxEntity, crc, idDst, s, reply))
      && taken <= maxEntity + 1
  {
    hide BuildMsg, EncodedLen;
    MsgLen(k, idDst, s, reply, piece);
    SameLen(k, idDst, s, reply, []);
  }

  /** Segments always fit. */
  lemma SegmentFits(k: FpduKind, idDst: byte, piece: seq<byte>, maxEntity: nat, crc: bool)
    requires (k == MsgMm || k == MsgFm) && maxEntity > 12 + CrcCost(crc)
    requires |piece| <= SegmentRoom(maxEntity, crc)
    ensures EncodedLen(BuildSegment(k, idDst, piece)) + CrcCost(crc) < maxEntity
  {
    hide BuildSegment, EncodedLen;
    SegmentLen(k, idDst, piece);
  }
}
