/** The messages of an attempt as FPDUs: built, encoded, decoded and read, each is the message it was, and the
    event its automaton takes it for. */
module SessionUnits {
  import opened Bytes
  import opened Params
  import opened Fpdu
  import opened Codec
  import opened FpduOps
  import opened Transport
  import opened Builders
  import S = Session
  import T = StateTable

  // ---- reading ----

  /** A parameter that no group holds. */
  predicate Alone(pi: byte)
  {
    pi !in Members(9) && pi !in Members(30) && pi !in Members(40) && pi !in Members(50)
  }

  predicate AllStructured(ps: seq<Param>) { forall q :: q in ps ==> StructureOk(q) }

  lemma {:induction false} NotInItems(pgi: byte, items: seq<Item>, pi: byte)
    requires forall i :: 0 <= i < |items| ==> ItemOk(pgi, items[i])
    requires pi !in Members(pgi)
    ensures GetItem(items, pi) == None
  {
    hide Members, IsPi;
    if items != [] {
      assert ItemOk(pgi, items[0]);
      NotInItems(pgi, items[1..], pi);
    }
  }

  lemma NotInGroup(p: Param, pi: byte)
    requires p.PgiParam? && StructureOk(p) && Alone(pi)
    ensures GetItem(p.items, pi) == None
  {
    NotInItems(p.pgi, p.items, pi);
  }

  /** A parameter that is there is the one that is read, and one that is not there is not. */
  lemma {:induction false} GetReads(ps: seq<Param>, pi: byte, v: seq<byte>)
    requires Ascending(ps) && AllStructured(ps) && Alone(pi)
    ensures PiParam(pi, v) in ps ==> Get(ps, pi) == Some(v)
    ensures (forall q :: q in ps ==> q.Code() != pi) ==> Get(ps, pi) == None
  {
    hide Alone, StructureOk;
    if ps != [] {
      var p, rest := ps[0], ps[1..];
      assert p in ps && forall q :: q in rest ==> q in ps;
      GetReads(rest, pi, v);
      if p.PgiParam? {
        NotInGroup(p, pi);
      } else if p.pi == pi && PiParam(pi, v) in ps {
        var j :| 0 <= j < |ps| && ps[j] == PiParam(pi, v);
        assert j == 0;
      }
    }
  }

  lemma FieldRead(k: FpduKind, codes: seq<byte>, fields: seq<Field>, i: nat)
    requires InOrder(codes, fields) && AllFine(k, fields) && i < |fields| && Alone(codes[i])
    requires fields[i].Some? ==> fields[i].value.PiParam?
    ensures Get(Kept(fields), codes[i]) == if fields[i].Some? then Some(fields[i].value.value) else None
  {
    hide StructureOk, TemplateOk, Alone, Kept, Get;
    var ps := Kept(fields);
    KeptAscending(codes, fields);
    forall q | q in ps ensures StructureOk(q) {
      KeptMembers(codes, fields, q);
      var j :| 0 <= j < |fields| && fields[j] == Some(q);
      assert Fine(k, fields[j]);
    }
    if fields[i].Some? {
      KeptMembers(codes, fields, fields[i].value);
      GetReads(ps, codes[i], fields[i].value.value);
    } else {
      forall q | q in ps ensures q.Code() != codes[i] {
        KeptMembers(codes, fields, q);
        var j :| 0 <= j < |fields| && fields[j] == Some(q);
      }
      GetReads(ps, codes[i], []);
    }
  }

  // ---- diagnostics ----

  /** Class, and reason in two octets. */
  function DiagOctets(class_: byte, reason: nat): seq<byte>
    requires reason < 0x1_0000
  {
    [class_] + Be16(reason)
  }

  function DiagFrom(v: seq<byte>): Option<(nat, nat)>
  {
    if v == [] then None
    else if |v| == 1 then Some((v[0], 0))
    else if |v| == 2 then Some((v[0], v[1]))
    else Some((v[0], ReadBe16(v[1], v[2])))
  }

  lemma DiagRead(class_: byte, reason: nat)
    requires reason < 0x1_0000
    ensures |DiagOctets(class_, reason)| == 3 && DiagFrom(DiagOctets(class_, reason)) == Some((class_ as nat, reason))
  {
    var b := Be16(reason);
    assert DiagOctets(class_, reason)[1] == b[0] && DiagOctets(class_, reason)[2] == b[1];
  }

  /** An acknowledgement with a diagnostic other than zero. */
  predicate Refuses(f: Fpdu)
  {
    f.kind.IsAck() && var v := Get(f.params, 2); v.Some? && DiagFrom(v.value).Some? && DiagFrom(v.value) != Some((0, 0))
  }

  // ---- what is read ----

  function SyncOf(f: Fpdu): SyncOption
  {
    var v := Get(f.params, 7);
    if v.Some? && SyncFromBytes(v.value).Some? then SyncFromBytes(v.value).value else NO_SYNC
  }

  predicate ResyncOf(f: Fpdu) { var v := Get(f.params, 23); v.Some? && DecodeNum(v.value) == 1 }

  function CompressionOf(f: Fpdu): Compression
  {
    var v := Get(f.params, 21);
    if v.Some? && CompressionFromBytes(v.value).Some? then CompressionFromBytes(v.value).value else NoCompression
  }

  function NumberAt(f: Fpdu, pi: byte): nat
  {
    var v := Get(f.params, pi);
    if v.Some? then DecodeNum(v.value) else 0
  }

  /** An FPDU as the message it carries. */
  function MsgOf(f: Fpdu): Option<S.Msg>
  {
    match f.kind
    case Connect => Some(S.Connect(SyncOf(f), ResyncOf(f)))
    case Aconnect => Some(S.Aconnect(SyncOf(f), ResyncOf(f)))
    case Create | Select => Some(S.Request(Min(NumberAt(f, 25), 0xFFFF)))
    case AckCreate | AckSelect => Some(S.Answer(!Refuses(f), Min(NumberAt(f, 25), 0xFFFF)))
    case Orf => Some(S.Orf(CompressionOf(f)))
    case AckOrf => Some(S.AckOrf(CompressionOf(f)))
    case Write | Read => Some(S.Start)
    case AckWrite | AckRead => Some(S.AckStart)
    case TransEnd => Some(S.TransEnd(NumberAt(f, 27), NumberAt(f, 28)))
    case AckTransEnd => Some(S.AckTransEnd(!Refuses(f), NumberAt(f, 27), NumberAt(f, 28)))
    case Crf => Some(S.Crf)
    case AckCrf => Some(S.AckCrf)
    case Deselect => Some(S.Deselect)
    case AckDeselect => Some(S.AckDeselect)
    case _ => None
  }

  // ---- what is built ----

  /** What else an attempt says: the identifications, the description of the file, the diagnostic of a refusal and the
      point to start from. */
  datatype Rest = Rest(connect: ConnectParams, spec: FileSpec, attributes: byte, class_: byte, reason: nat, point: nat,
                       text: Option<seq<byte>>)

  /** Messages other than those of the data phase. */
  predicate Signal(m: S.Msg) { !m.Data? && !m.Syn? && !m.AckSyn? && !m.DtfEnd? }

  function Diag(class_: byte, reason: nat): Field
    requires reason < 0x1_0000
  {
    Opt(2, Some(DiagOctets(class_, reason)))
  }

  function Compressed(c: Compression): Field { Opt(21, if c == NoCompression then None else Some(c.ToBytes())) }

  /** A diagnostic of two octets that refuses, and options that two octets can say. */
  predicate Typed(write: bool, m: S.Msg, x: Rest)
  {
    && Signal(m) && x.reason < 0x1_0000 && (x.class_ != 0 || x.reason != 0)
    && ((m.Connect? || m.Aconnect?) ==> m.sync.Valid())
  }

  datatype Built = Built(kind: FpduKind, codes: seq<byte>, fields: seq<Field>)

  /** The fields of a message, with the codes of all it may carry. */
  function Builds(write: bool, m: S.Msg, x: Rest): Built
    requires Typed(write, m, x)
  {
    match m
    case Connect(sync, resync) =>
      Built(Connect, CONNECT_CODES, ConnectFields(x.connect.(sync := sync, resync := resync)))
    case Aconnect(sync, resync) =>
      Built(Aconnect, [6, 7, 23, 99], [Num(6, x.connect.version), SyncField(sync), Flag(23, resync), Filled(99, x.text)])
    case Request(size) =>
      if write then Built(Create, CREATE_CODES, CreateFields(x.spec.(maxEntity := size)))
      else Built(Select, SELECT_CODES, SelectFields(x.spec.(maxEntity := size), x.attributes))
    case Answer(ok, size) =>
      if write then
        Built(AckCreate, [2, 13, 25, 99],
              [if ok then Diag(0, 0) else Diag(x.class_, x.reason), Num(13, x.spec.transferId), Num(25, size),
               Filled(99, x.text)])
      else if ok then
        Built(AckSelect, ACK_SELECT_CODES, AckSelectFields(x.spec.(maxEntity := size), x.attributes))
      else Built(AckSelect, [2, 25, 99], [Diag(x.class_, x.reason), None, Filled(99, x.text)])
    case Orf(c) => Built(Orf, [21], [Compressed(c)])
    case AckOrf(c) => Built(AckOrf, [2, 21], [Diag(0, 0), Compressed(c)])
    case Start => if write then Built(Write, [], []) else Built(Read, [18], [Num(18, x.point)])
    case AckStart =>
      if write then Built(AckWrite, [2, 18], [Diag(0, 0), Num(18, x.point)]) else Built(AckRead, [2], [Diag(0, 0)])
    case TransEnd(octets, articles) => Built(TransEnd, [27, 28], [Num(27, octets), Num(28, articles)])
    case AckTransEnd(ok, octets, articles) =>
      Built(AckTransEnd, [2, 27, 28], [if ok then Diag(0, 0) else Diag(3, 319), Num(27, octets), Num(28, articles)])
    case Crf => Built(Crf, [2], [Diag(0, 0)])
    case AckCrf => Built(AckCrf, [2], [Diag(0, 0)])
    case Deselect => Built(Deselect, [2], [Diag(0, 0)])
    case AckDeselect => Built(AckDeselect, [2], [Diag(0, 0)])
  }

  function FpduOf(write: bool, m: S.Msg, x: Rest, idDst: byte, idSrc: byte): Fpdu
    requires Typed(write, m, x)
  {
    var b := Builds(write, m, x);
    Fpdu(b.kind, idDst, idSrc, Kept(b.fields), [])
  }

  /** What a message is read as: an option that is off has no window, and a refused SELECT says no size. */
  function Seen(write: bool, m: S.Msg): S.Msg
  {
    match m
    case Connect(sync, resync) => S.Connect(if sync.Enabled() then sync else NO_SYNC, resync)
    case Aconnect(sync, resync) => S.Aconnect(if sync.Enabled() then sync else NO_SYNC, resync)
    case Answer(ok, size) => if !ok && !write then S.Answer(false, 0) else m
    case _ => m
  }

  /** What the parameters of a message can say. */
  predicate Sayable(write: bool, m: S.Msg, x: Rest)
    requires Typed(write, m, x)
  {
    match m
    case Connect(_, _) => Connectable(x.connect)
    case Aconnect(_, _) => x.connect.version < 0x1_0000 && (x.text.Some? ==> |x.text.value| <= 254)
    case Request(size) =>
      var s := x.spec.(maxEntity := size);
      && Describable(s) && Text(s.accessControl, 16)
      && if write then Dated(s) && EncodedLen(BuildCreate(s, 0)) <= 0xFFFF
         else EncodedLen(BuildSelect(s, 0, x.attributes)) <= 0xFFFF
    case Answer(ok, size) =>
      var s := x.spec.(maxEntity := size);
      if ok && !write then
        && Describable(s) && (Asks(x.attributes, 4) ==> Dated(s))
        && EncodedLen(BuildAckSelect(s, 0, x.attributes)) <= 0xFFFF
      else
        && (write ==> x.spec.transferId < 0x100_0000 && size < 0x1_0000)
        && (x.text.Some? ==> |x.text.value| <= 254)
    case Start => write || x.point < 0x100_0000
    case AckStart => write ==> x.point < 0x100_0000
    case TransEnd(octets, articles) => octets < 0x1_0000_0000_0000_0000 && articles < 0x1_0000_0000
    case AckTransEnd(_, octets, articles) => octets < 0x1_0000_0000_0000_0000 && articles < 0x1_0000_0000
    case _ => true
  }

  // ---- short lists ----

  lemma FourFields(k: FpduKind, c: seq<byte>, f: seq<Field>)
    requires |c| == |f| <= 4
    requires forall i :: 0 <= i < |c| - 1 ==> c[i] < c[i + 1]
    requires forall i :: 0 <= i < |f| ==> f[i].Some? ==> f[i].value.Code() == c[i]
    ensures InOrder(c, f)
  {
    forall i, j | 0 <= i < j < |c| ensures c[i] < c[j] {
      if j == i + 2 {
        assert c[i] < c[i + 1] < c[j];
      } else if j == i + 3 {
        assert c[i] < c[i + 1] < c[i + 2] < c[j];
      }
    }
  }

  /** A short list of short parameters is never too long. */
  lemma ShortWell(k: FpduKind, codes: seq<byte>, fields: seq<Field>, idDst: byte, idSrc: byte)
    requires InOrder(codes, fields) && !k.IsData() && |fields| <= 4
    requires forall c :: c in Mandatory(k) ==> exists i :: 0 <= i < |codes| && codes[i] == c && fields[i].Some?
    requires AllFine(k, fields) ==> forall i :: 0 <= i < |fields| ==> Short(fields[i])
    ensures WellFormed(Fpdu(k, idDst, idSrc, Kept(fields), [])) <==> AllFine(k, fields)
  {
    hide Mandatory, Kept, Fine, InOrder, Short, WellFormed;
    BuiltWell(k, idDst, idSrc, codes, fields);
    if AllFine(k, fields) {
      ShortLen(fields);
    }
  }

  lemma NumShort(k: FpduKind, pi: byte, n: nat, m: nat)
    requires Carries(k, pi, m) && 1 <= m <= 8
    ensures Fine(k, Num(pi, n)) ==> Short(Num(pi, n))
  {
    hide Fine, Carries, EncodeNum;
    NumFine(k, pi, n, m);
    NumLength(n, m);
  }

  lemma DiagFine(k: FpduKind, class_: byte, reason: nat)
    requires Carries(k, 2, 3) && reason < 0x1_0000
    ensures Fine(k, Diag(class_, reason)) && Short(Diag(class_, reason))
  {
    hide Fine, Carries;
    DiagRead(class_, reason);
    OptFine(k, 2, Some(DiagOctets(class_, reason)), 3);
  }

  lemma CompressedFine(k: FpduKind, c: Compression)
    requires Carries(k, 21, 2)
    ensures Fine(k, Compressed(c)) && Short(Compressed(c))
  {
    hide Fine, Carries;
    assert |c.ToBytes()| == 2;
    OptFine(k, 21, if c == NoCompression then None else Some(c.ToBytes()), 2);
  }

  lemma FilledShort(k: FpduKind, v: Option<seq<byte>>)
    requires Carries(k, 99, 254)
    ensures Fine(k, Filled(99, v)) <==> (v.Some? ==> |v.value| <= 254)
    ensures Fine(k, Filled(99, v)) ==> Short(Filled(99, v))
  {
    hide Fine, Carries;
    FilledFine(k, 99, v, 254);
  }

  lemma DiagCarries(k: FpduKind)
    requires k in {AckRead, Crf, AckCrf, Deselect, AckDeselect}
    ensures Carries(k, 2, 3) && Mandatory(k) == {2} && !k.IsData()
  {
  }

  /** FPDUs that carry a diagnostic alone. */
  lemma DiagAlone(k: FpduKind, idDst: byte, idSrc: byte)
    requires k in {AckRead, Crf, AckCrf, Deselect, AckDeselect}
    ensures WellFormed(Fpdu(k, idDst, idSrc, Kept([Diag(0, 0)]), []))
  {
    hide Carries, Mandatory, Fine;
    DiagCarries(k);
    DiagFine(k, 0, 0);
    FourFields(k, [2], [Diag(0, 0)]);
    assert [2 as byte][0] == 2 && [Diag(0, 0)][0].Some?;
    ShortWell(k, [2], [Diag(0, 0)], idDst, idSrc);
  }

  // ---- reading a field ----

  lemma Ungrouped()
    ensures Alone(2) && Alone(7) && Alone(21) && Alone(23) && Alone(25) && Alone(27) && Alone(28)
  {
  }

  /** The fields an FPDU was built from, all of them fine. */
  ghost predicate From(f: Fpdu, codes: seq<byte>, fields: seq<Field>)
  {
    f.params == Kept(fields) && InOrder(codes, fields) && AllFine(f.kind, fields)
  }

  lemma ReadSync(f: Fpdu, codes: seq<byte>, fields: seq<Field>, i: nat, sync: SyncOption)
    requires From(f, codes, fields) && i < |fields| && codes[i] == 7 && sync.Valid() && fields[i] == SyncField(sync)
    ensures SyncOf(f) == if sync.Enabled() then sync else NO_SYNC
  {
    hide Kept, InOrder, AllFine, Get, Alone;
    Ungrouped();
    FieldRead(f.kind, codes, fields, i);
    SyncCoding(sync, []);
  }

  lemma ReadFlag(f: Fpdu, codes: seq<byte>, fields: seq<Field>, i: nat, on: bool)
    requires From(f, codes, fields) && i < |fields| && codes[i] == 23 && fields[i] == Flag(23, on)
    ensures ResyncOf(f) <==> on
  {
    hide Kept, InOrder, AllFine, Get, Alone;
    Ungrouped();
    FieldRead(f.kind, codes, fields, i);
    assert [1 as byte][..0] == [];
    assert DecodeNum([1]) == 1;
  }

  lemma ReadNumber(f: Fpdu, codes: seq<byte>, fields: seq<Field>, i: nat, n: nat)
    requires From(f, codes, fields) && i < |fields| && codes[i] in {25, 27, 28} && fields[i] == Num(codes[i], n)
    requires n < 0x1_0000_0000_0000_0000
    ensures NumberAt(f, codes[i]) == n
  {
    hide Kept, InOrder, AllFine, Get, Alone, EncodeNum, DecodeNum;
    Ungrouped();
    FieldRead(f.kind, codes, fields, i);
    NumRoundTrip(n);
  }

  lemma ReadNothing(f: Fpdu, codes: seq<byte>, fields: seq<Field>, i: nat)
    requires From(f, codes, fields) && i < |fields| && codes[i] == 25 && fields[i] == None
    ensures NumberAt(f, 25) == 0
  {
    hide Kept, InOrder, AllFine, Get, Alone, DecodeNum;
    Ungrouped();
    FieldRead(f.kind, codes, fields, i);
  }

  lemma ReadDiag(f: Fpdu, codes: seq<byte>, fields: seq<Field>, i: nat, class_: byte, reason: nat)
    requires From(f, codes, fields) && i < |fields| && codes[i] == 2 && reason < 0x1_0000
    requires fields[i] == Diag(class_, reason) && f.kind.IsAck()
    ensures Refuses(f) <==> class_ != 0 || reason != 0
  {
    hide Kept, InOrder, AllFine, Get, Alone, DiagOctets, DiagFrom;
    Ungrouped();
    FieldRead(f.kind, codes, fields, i);
    DiagRead(class_, reason);
  }

  lemma ReadCompression(f: Fpdu, codes: seq<byte>, fields: seq<Field>, i: nat, c: Compression)
    requires From(f, codes, fields) && i < |fields| && codes[i] == 21 && fields[i] == Compressed(c)
    ensures CompressionOf(f) == c
  {
    hide Kept, InOrder, AllFine, Get, Alone;
    Ungrouped();
    FieldRead(f.kind, codes, fields, i);
    CompressionCoding(c, []);
  }

  // ---- message by message ----

  /** Built right: well formed exactly when its parameters can say it, and then read as what it was. */
  ghost predicate Travels(write: bool, m: S.Msg, x: Rest, idDst: byte, idSrc: byte)
    requires Typed(write, m, x)
  {
    var f := FpduOf(write, m, x, idDst, idSrc);
    && (WellFormed(f) <==> Sayable(write, m, x))
    && (Sayable(write, m, x) ==>
          MsgOf(f) == Some(Seen(write, m)) && T.Received(f.kind, Refuses(f)) == S.EventOf(write, m))
  }

  /** Identifiers do not matter. */
  lemma AnyIds(f: Fpdu, idDst: byte, idSrc: byte)
    ensures var g := f.(idDst := idDst, idSrc := idSrc);
      (WellFormed(f) <==> WellFormed(g)) && EncodedLen(f) == EncodedLen(g)
  {
    hide Conforms, Ascending, StructureOk;
  }

  lemma ConnectTravels(write: bool, m: S.Msg, x: Rest, idDst: byte, idSrc: byte)
    requires m.Connect? && Typed(write, m, x)
    ensures Travels(write, m, x, idDst, idSrc)
  {
    hide WellFormed, Kept, InOrder, AllFine, SyncOf, ResyncOf, Connectable;
    var c := x.connect.(sync := m.sync, resync := m.resync);
    var f, fs := FpduOf(write, m, x, idDst, idSrc), ConnectFields(c);
    ConnectWellFormed(c, idSrc);
    AnyIds(BuildConnect(c, idSrc), idDst, idSrc);
    SameConnectable(x.connect, c);
    ConnectOrder(c);
    ConnectFine(c);
    if Sayable(write, m, x) {
      ReadSync(f, CONNECT_CODES, fs, 5, m.sync);
      ReadFlag(f, CONNECT_CODES, fs, 7, m.resync);
    }
  }

  lemma SameConnectable(c: ConnectParams, d: ConnectParams)
    requires d == c.(sync := d.sync, resync := d.resync)
    ensures Connectable(c) <==> Connectable(d)
  {
  }

  lemma AconnectCarries()
    ensures Carries(Aconnect, 6, 2) && Carries(Aconnect, 7, 3) && Carries(Aconnect, 23, 1) && Carries(Aconnect, 99, 254)
    ensures Mandatory(Aconnect) == {6}
  {
  }

  lemma AconnectFine(version: nat, sync: SyncOption, resync: bool, text: Option<seq<byte>>)
    requires sync.Valid()
    ensures var fs := [Num(6, version), SyncField(sync), Flag(23, resync), Filled(99, text)];
      && InOrder([6, 7, 23, 99], fs)
      && (AllFine(Aconnect, fs) <==> version < 0x1_0000 && (text.Some? ==> |text.value| <= 254))
      && (AllFine(Aconnect, fs) ==> forall i :: 0 <= i < 4 ==> Short(fs[i]))
  {
    hide Fine, Carries, EncodeNum, Power256, Mandatory;
    var k, fs := Aconnect, [Num(6, version), SyncField(sync), Flag(23, resync), Filled(99, text)];
    AconnectCarries();
    Powers();
    FourFields(k, [6, 7, 23, 99], fs);
    NumFine(k, 6, version, 2);
    NumShort(k, 6, version, 2);
    SyncFine(k, sync);
    FlagFine(k, 23, resync, 1);
    FilledShort(k, text);
    assert Short(SyncField(sync)) && Short(Flag(23, resync));
    if AllFine(k, fs) {
      assert Fine(k, fs[0]) && Fine(k, fs[3]);
    }
  }

  lemma AconnectTravels(write: bool, m: S.Msg, x: Rest, idDst: byte, idSrc: byte)
    requires m.Aconnect? && Typed(write, m, x)
    ensures Travels(write, m, x, idDst, idSrc)
  {
    hide WellFormed, Kept, InOrder, AllFine, SyncOf, ResyncOf, Mandatory, Get, EncodeNum, Short;
    var fs := [Num(6, x.connect.version), SyncField(m.sync), Flag(23, m.resync), Filled(99, x.text)];
    var codes: seq<byte>, f := [6, 7, 23, 99], FpduOf(write, m, x, idDst, idSrc);
    AconnectCarries();
    AconnectFine(x.connect.version, m.sync, m.resync, x.text);
    assert codes[0] == 6 && fs[0].Some?;
    ShortWell(Aconnect, codes, fs, idDst, idSrc);
    if Sayable(write, m, x) {
      ReadSync(f, codes, fs, 1, m.sync);
      ReadFlag(f, codes, fs, 2, m.resync);
      NoDiag(f, codes, fs);
    }
  }

  /** An FPDU built without a diagnostic refuses nothing. */
  lemma NoDiag(f: Fpdu, codes: seq<byte>, fields: seq<Field>)
    requires From(f, codes, fields) && 2 !in codes
    ensures !Refuses(f)
  {
    hide Kept, AllFine, Get, Alone, DiagFrom;
    Ungrouped();
    KeptAscending(codes, fields);
    forall q | q in f.params ensures StructureOk(q) && q.Code() != 2 {
      KeptMembers(codes, fields, q);
      var j :| 0 <= j < |fields| && fields[j] == Some(q);
      assert codes[j] in codes;
      FineStructure(f.kind, fields, j);
    }
    GetReads(f.params, 2, []);
  }

  lemma FineStructure(k: FpduKind, fields: seq<Field>, j: nat)
    requires AllFine(k, fields) && j < |fields| && fields[j].Some?
    ensures StructureOk(fields[j].value)
  {
    hide StructureOk, TemplateOk;
    assert Fine(k, fields[j]);
  }

  lemma RequestTravels(write: bool, m: S.Msg, x: Rest, idDst: byte, idSrc: byte)
    requires m.Request? && Typed(write, m, x) && m.maxEntity < 0x1_0000
    ensures Travels(write, m, x, idDst, idSrc)
  {
    hide WellFormed, Kept, InOrder, AllFine, Get, EncodeNum, CreateFields, SelectFields, Describable, Dated, Text,
      EncodedLen, Refuses;
    var s, f := x.spec.(maxEntity := m.maxEntity), FpduOf(write, m, x, idDst, idSrc);
    FileWellFormed(s, 0, x.attributes);
    if write {
      AnyIds(BuildCreate(s, 0), idDst, idSrc);
      CreateOrder(s);
      CreateFine(s);
      if Sayable(write, m, x) {
        SizeField(s, x.attributes);
        ReadNumber(f, CREATE_CODES, CreateFields(s), 5, m.maxEntity);
      }
    } else {
      AnyIds(BuildSelect(s, 0, x.attributes), idDst, idSrc);
      SelectOrder(s, x.attributes);
      SelectFine(s, x.attributes);
      if Sayable(write, m, x) {
        SizeField(s, x.attributes);
        ReadNumber(f, SELECT_CODES, SelectFields(s, x.attributes), 5, m.maxEntity);
      }
    }
    Asking(f);
  }

  lemma Asking(f: Fpdu)
    ensures !f.kind.IsAck() ==> !Refuses(f)
  {
  }

  lemma SizeField(s: FileSpec, attributes: byte)
    ensures |CreateFields(s)| == 13 && CreateFields(s)[5] == Num(25, s.maxEntity)
    ensures |SelectFields(s, attributes)| == 10 && SelectFields(s, attributes)[5] == Num(25, s.maxEntity)
    ensures |AckSelectFields(s, attributes)| == 11 && AckSelectFields(s, attributes)[4] == Num(25, s.maxEntity)
    ensures AckSelectFields(s, attributes)[0] == Diag(0, 0)
  {
    hide Num;
    assert Be16(0) == [0, 0];
    assert DiagOctets(0, 0) == [0, 0, 0];
  }

  lemma AckCreateCarries()
    ensures Carries(AckCreate, 2, 3) && Carries(AckCreate, 13, 3) && Carries(AckCreate, 25, 2)
    ensures Carries(AckCreate, 99, 254) && Mandatory(AckCreate) == {2}
    ensures Carries(AckSelect, 2, 3) && Carries(AckSelect, 99, 254) && Mandatory(AckSelect) == {2}
  {
  }

  lemma AckCreateFine(class_: byte, reason: nat, transferId: nat, size: nat, text: Option<seq<byte>>)
    requires reason < 0x1_0000
    ensures var fs := [Diag(class_, reason), Num(13, transferId), Num(25, size), Filled(99, text)];
      && InOrder([2, 13, 25, 99], fs)
      && (AllFine(AckCreate, fs) <==>
            transferId < 0x100_0000 && size < 0x1_0000 && (text.Some? ==> |text.value| <= 254))
      && (AllFine(AckCreate, fs) ==> forall i :: 0 <= i < 4 ==> Short(fs[i]))
  {
    hide Fine, Carries, EncodeNum, Power256, Mandatory, Short;
    var k, fs := AckCreate, [Diag(class_, reason), Num(13, transferId), Num(25, size), Filled(99, text)];
    AckCreateCarries();
    Powers();
    FourFields(k, [2, 13, 25, 99], fs);
    DiagFine(k, class_, reason);
    NumFine(k, 13, transferId, 3);
    NumShort(k, 13, transferId, 3);
    NumFine(k, 25, size, 2);
    NumShort(k, 25, size, 2);
    FilledShort(k, text);
    if AllFine(k, fs) {
      assert Fine(k, fs[1]) && Fine(k, fs[2]) && Fine(k, fs[3]);
    }
  }

  lemma AckCreateTravels(m: S.Msg, x: Rest, idDst: byte, idSrc: byte)
    requires m.Answer? && Typed(true, m, x) && m.maxEntity < 0x1_0000
    ensures Travels(true, m, x, idDst, idSrc)
  {
    hide WellFormed, Kept, InOrder, AllFine, Refuses, Mandatory, Get, EncodeNum, Short, DiagOctets;
    var class_, reason := if m.ok then 0 else x.class_, if m.ok then 0 else x.reason;
    var fs := [Diag(class_, reason), Num(13, x.spec.transferId), Num(25, m.maxEntity), Filled(99, x.text)];
    var codes: seq<byte>, f := [2, 13, 25, 99], FpduOf(true, m, x, idDst, idSrc);
    assert f == Fpdu(AckCreate, idDst, idSrc, Kept(fs), []);
    AckCreateCarries();
    AckCreateFine(class_, reason, x.spec.transferId, m.maxEntity, x.text);
    assert codes[0] == 2 && fs[0].Some?;
    ShortWell(AckCreate, codes, fs, idDst, idSrc);
    if Sayable(true, m, x) {
      ReadDiag(f, codes, fs, 0, class_, reason);
      ReadNumber(f, codes, fs, 2, m.maxEntity);
    }
  }

  lemma NackSelectFine(class_: byte, reason: nat, text: Option<seq<byte>>)
    requires reason < 0x1_0000
    ensures var fs := [Diag(class_, reason), None, Filled(99, text)];
      && InOrder([2, 25, 99], fs)
      && (AllFine(AckSelect, fs) <==> (text.Some? ==> |text.value| <= 254))
      && (AllFine(AckSelect, fs) ==> forall i :: 0 <= i < 3 ==> Short(fs[i]))
  {
    hide Fine, Carries, Mandatory;
    var k, fs := AckSelect, [Diag(class_, reason), None, Filled(99, text)];
    AckCreateCarries();
    FourFields(k, [2, 25, 99], fs);
    DiagFine(k, class_, reason);
    NoneFine(k);
    FilledShort(k, text);
    if AllFine(k, fs) {
      assert Fine(k, fs[2]);
    }
  }

  lemma AckSelectTravels(m: S.Msg, x: Rest, idDst: byte, idSrc: byte)
    requires m.Answer? && m.ok && Typed(false, m, x) && m.maxEntity < 0x1_0000
    ensures Travels(false, m, x, idDst, idSrc)
  {
    hide WellFormed, Kept, InOrder, AllFine, Refuses, Get, EncodeNum, DiagOctets, AckSelectFields, Describable, Dated,
      EncodedLen;
    var s, f := x.spec.(maxEntity := m.maxEntity), FpduOf(false, m, x, idDst, idSrc);
    FileWellFormed(s, 0, x.attributes);
    AnyIds(BuildAckSelect(s, 0, x.attributes), idDst, idSrc);
    AckSelectOrder(s, x.attributes);
    AckSelectFine(s, x.attributes);
    if Sayable(false, m, x) {
      SizeField(s, x.attributes);
      ReadDiag(f, ACK_SELECT_CODES, AckSelectFields(s, x.attributes), 0, 0, 0);
      ReadNumber(f, ACK_SELECT_CODES, AckSelectFields(s, x.attributes), 4, m.maxEntity);
    }
  }

  lemma NackSelectTravels(m: S.Msg, x: Rest, idDst: byte, idSrc: byte)
    requires m.Answer? && !m.ok && Typed(false, m, x)
    ensures Travels(false, m, x, idDst, idSrc)
  {
    hide WellFormed, Kept, InOrder, AllFine, Refuses, Mandatory, Get, Short, DiagOctets;
    var codes: seq<byte>, fs := [2, 25, 99], [Diag(x.class_, x.reason), None, Filled(99, x.text)];
    var f := FpduOf(false, m, x, idDst, idSrc);
    AckCreateCarries();
    NackSelectFine(x.class_, x.reason, x.text);
    assert codes[0] == 2 && fs[0].Some?;
    ShortWell(AckSelect, codes, fs, idDst, idSrc);
    if Sayable(false, m, x) {
      ReadDiag(f, codes, fs, 0, x.class_, x.reason);
      ReadNothing(f, codes, fs, 1);
    }
  }

  lemma OrfCarries()
    ensures Carries(Orf, 21, 2) && Mandatory(Orf) == {}
    ensures Carries(AckOrf, 2, 3) && Carries(AckOrf, 21, 2) && Mandatory(AckOrf) == {2}
  {
  }

  lemma OrfTravels(write: bool, m: S.Msg, x: Rest, idDst: byte, idSrc: byte)
    requires (m.Orf? || m.AckOrf?) && Typed(write, m, x)
    ensures Travels(write, m, x, idDst, idSrc)
  {
    hide WellFormed, Kept, InOrder, Refuses, Mandatory, Get, Short, DiagOctets, Fine, Carries, Compressed,
      CompressionOf;
    var f, c := FpduOf(write, m, x, idDst, idSrc), m.compression;
    OrfCarries();
    CompressedCode(c);
    if m.Orf? {
      var codes: seq<byte>, fs := [21], [Compressed(c)];
      FourFields(Orf, codes, fs);
      CompressedFine(Orf, c);
      ShortWell(Orf, codes, fs, idDst, idSrc);
      ReadCompression(f, codes, fs, 0, c);
      Asking(f);
    } else {
      var codes: seq<byte>, fs := [2, 21], [Diag(0, 0), Compressed(c)];
      FourFields(AckOrf, codes, fs);
      DiagFine(AckOrf, 0, 0);
      CompressedFine(AckOrf, c);
      assert codes[0] == 2 && fs[0].Some?;
      ShortWell(AckOrf, codes, fs, idDst, idSrc);
      ReadDiag(f, codes, fs, 0, 0, 0);
      ReadCompression(f, codes, fs, 1, c);
    }
  }

  lemma CompressedCode(c: Compression)
    ensures Compressed(c).Some? ==> Compressed(c).value.Code() == 21
  {
  }

  lemma StartCarries()
    ensures Mandatory(Write) == {} && Carries(Read, 18, 3) && Mandatory(Read) == {18}
    ensures Carries(AckWrite, 2, 3) && Carries(AckWrite, 18, 3) && Mandatory(AckWrite) == {2, 18}
  {
  }

  lemma PointFine(k: FpduKind, n: nat)
    requires Carries(k, 18, 3)
    ensures Fine(k, Num(18, n)) <==> n < 0x100_0000
    ensures Fine(k, Num(18, n)) ==> Short(Num(18, n))
  {
    hide Fine, Carries, Power256, EncodeNum, Short;
    Powers();
    NumFine(k, 18, n, 3);
    NumShort(k, 18, n, 3);
  }

  lemma StartTravels(write: bool, m: S.Msg, x: Rest, idDst: byte, idSrc: byte)
    requires m.Start? && Typed(write, m, x)
    ensures Travels(write, m, x, idDst, idSrc)
  {
    hide WellFormed, Kept, InOrder, Refuses, Mandatory, Short, Fine, Carries, EncodeNum;
    var f := FpduOf(write, m, x, idDst, idSrc);
    StartCarries();
    Asking(f);
    if write {
      FourFields(Write, [], []);
      ShortWell(Write, [], [], idDst, idSrc);
    } else {
      var codes: seq<byte>, fs := [18], [Num(18, x.point)];
      FourFields(Read, codes, fs);
      PointFine(Read, x.point);
      assert codes[0] == 18 && fs[0].Some?;
      ShortWell(Read, codes, fs, idDst, idSrc);
    }
  }

  lemma AckStartTravels(write: bool, m: S.Msg, x: Rest, idDst: byte, idSrc: byte)
    requires m.AckStart? && Typed(write, m, x)
    ensures Travels(write, m, x, idDst, idSrc)
  {
    hide WellFormed, Kept, InOrder, Refuses, Mandatory, Short, Fine, Carries, EncodeNum, DiagOctets, Get;
    var f := FpduOf(write, m, x, idDst, idSrc);
    if write {
      StartCarries();
      var codes: seq<byte>, fs := [2, 18], [Diag(0, 0), Num(18, x.point)];
      FourFields(AckWrite, codes, fs);
      DiagFine(AckWrite, 0, 0);
      PointFine(AckWrite, x.point);
      assert codes[0] == 2 && fs[0].Some? && codes[1] == 18 && fs[1].Some?;
      ShortWell(AckWrite, codes, fs, idDst, idSrc);
      if Sayable(write, m, x) {
        ReadDiag(f, codes, fs, 0, 0, 0);
      } else {
        assert !Fine(AckWrite, fs[1]);
      }
    } else {
      DiagAlone(AckRead, idDst, idSrc);
      DiagAloneRead(f);
    }
  }

  lemma DiagAloneRead(f: Fpdu)
    requires f.kind in {AckRead, AckCrf, AckDeselect} && f.kind.IsAck() && f.params == Kept([Diag(0, 0)])
    ensures !Refuses(f)
  {
    hide Carries, Fine, Kept, InOrder, Refuses, DiagOctets, Mandatory, Get, FpduKind.IsAck;
    var codes: seq<byte>, fs := [2], [Diag(0, 0)];
    DiagCarries(f.kind);
    DiagFine(f.kind, 0, 0);
    FourFields(f.kind, codes, fs);
    ReadDiag(f, codes, fs, 0, 0, 0);
  }

  lemma ClosingTravels(write: bool, m: S.Msg, x: Rest, idDst: byte, idSrc: byte)
    requires (m.Crf? || m.AckCrf? || m.Deselect? || m.AckDeselect?) && Typed(write, m, x)
    ensures Travels(write, m, x, idDst, idSrc)
  {
    hide WellFormed, Kept, Refuses, Diag, Mandatory;
    var k := S.KindOf(write, m);
    var f := Fpdu(k, idDst, idSrc, Kept([Diag(0, 0)]), []);
    assert FpduOf(write, m, x, idDst, idSrc) == f;
    DiagAlone(k, idDst, idSrc);
    Asking(f);
    if k.IsAck() {
      DiagAloneRead(f);
    }
  }

  lemma EndCarries()
    ensures Carries(TransEnd, 27, 8) && Carries(TransEnd, 28, 4) && Mandatory(TransEnd) == {}
    ensures Carries(AckTransEnd, 2, 3) && Carries(AckTransEnd, 27, 8) && Carries(AckTransEnd, 28, 4)
    ensures Mandatory(AckTransEnd) == {2}
  {
  }

  lemma CountsFine(k: FpduKind, octets: nat, articles: nat)
    requires Carries(k, 27, 8) && Carries(k, 28, 4)
    ensures Fine(k, Num(27, octets)) <==> octets < 0x1_0000_0000_0000_0000
    ensures Fine(k, Num(28, articles)) <==> articles < 0x1_0000_0000
    ensures Fine(k, Num(27, octets)) ==> Short(Num(27, octets))
    ensures Fine(k, Num(28, articles)) ==> Short(Num(28, articles))
  {
    hide Fine, Carries, Power256, EncodeNum, Short;
    Powers();
    NumFine(k, 27, octets, 8);
    NumShort(k, 27, octets, 8);
    NumFine(k, 28, articles, 4);
    NumShort(k, 28, articles, 4);
  }

  lemma TransEndTravels(write: bool, m: S.Msg, x: Rest, idDst: byte, idSrc: byte)
    requires m.TransEnd? && Typed(write, m, x)
    ensures Travels(write, m, x, idDst, idSrc)
  {
    hide WellFormed, Kept, InOrder, Refuses, Mandatory, Short, Fine, Carries, EncodeNum, Get;
    var f := FpduOf(write, m, x, idDst, idSrc);
    var codes: seq<byte>, fs := [27, 28], [Num(27, m.octets), Num(28, m.articles)];
    EndCarries();
    Asking(f);
    FourFields(TransEnd, codes, fs);
    CountsFine(TransEnd, m.octets, m.articles);
    ShortWell(TransEnd, codes, fs, idDst, idSrc);
    if Sayable(write, m, x) {
      ReadNumber(f, codes, fs, 0, m.octets);
      ReadNumber(f, codes, fs, 1, m.articles);
    } else {
      assert !(Fine(TransEnd, fs[0]) && Fine(TransEnd, fs[1]));
    }
  }

  function AckEndFields(class_: byte, reason: nat, octets: nat, articles: nat): seq<Field>
    requires reason < 0x1_0000
  {
    [Diag(class_, reason), Num(27, octets), Num(28, articles)]
  }

  lemma AckEndFine(class_: byte, reason: nat, octets: nat, articles: nat)
    requires reason < 0x1_0000
    ensures var fs := AckEndFields(class_, reason, octets, articles);
      && InOrder([2, 27, 28], fs)
      && (AllFine(AckTransEnd, fs) <==> octets < 0x1_0000_0000_0000_0000 && articles < 0x1_0000_0000)
      && (AllFine(AckTransEnd, fs) ==> forall i :: 0 <= i < 3 ==> Short(fs[i]))
  {
    hide Mandatory, Short, Fine, Carries, EncodeNum, DiagOctets;
    var fs := AckEndFields(class_, reason, octets, articles);
    EndCarries();
    FourFields(AckTransEnd, [2, 27, 28], fs);
    DiagFine(AckTransEnd, class_, reason);
    CountsFine(AckTransEnd, octets, articles);
    if AllFine(AckTransEnd, fs) {
      assert Fine(AckTransEnd, fs[1]) && Fine(AckTransEnd, fs[2]);
    }
  }

  lemma AckEndWell(class_: byte, reason: nat, octets: nat, articles: nat, idDst: byte, idSrc: byte)
    requires reason < 0x1_0000
    ensures WellFormed(Fpdu(AckTransEnd, idDst, idSrc, Kept(AckEndFields(class_, reason, octets, articles)), []))
       <==> octets < 0x1_0000_0000_0000_0000 && articles < 0x1_0000_0000
  {
    hide WellFormed, Kept, InOrder, Mandatory, Short, AllFine, EncodeNum, DiagOctets;
    var codes: seq<byte>, fs := [2, 27, 28], AckEndFields(class_, reason, octets, articles);
    EndCarries();
    AckEndFine(class_, reason, octets, articles);
    assert codes[0] == 2 && fs[0].Some?;
    ShortWell(AckTransEnd, codes, fs, idDst, idSrc);
  }

  lemma AckEndRead(f: Fpdu, class_: byte, reason: nat, octets: nat, articles: nat)
    requires reason < 0x1_0000 && octets < 0x1_0000_0000_0000_0000 && articles < 0x1_0000_0000
    requires f.kind == AckTransEnd && f.params == Kept(AckEndFields(class_, reason, octets, articles))
    ensures Refuses(f) <==> class_ != 0 || reason != 0
    ensures NumberAt(f, 27) == octets && NumberAt(f, 28) == articles
  {
    hide Kept, InOrder, Refuses, Mandatory, Short, AllFine, EncodeNum, Get, DiagOctets;
    var codes: seq<byte>, fs := [2, 27, 28], AckEndFields(class_, reason, octets, articles);
    AckEndFine(class_, reason, octets, articles);
    ReadDiag(f, codes, fs, 0, class_, reason);
    ReadNumber(f, codes, fs, 1, octets);
    ReadNumber(f, codes, fs, 2, articles);
  }

  lemma AckTransEndTravels(write: bool, m: S.Msg, x: Rest, idDst: byte, idSrc: byte)
    requires m.AckTransEnd? && Typed(write, m, x)
    ensures Travels(write, m, x, idDst, idSrc)
  {
    hide WellFormed, Kept, Refuses, NumberAt, DiagOctets, EncodeNum;
    var class_: byte, reason: nat := if m.ok then 0 else 3, if m.ok then 0 else 319;
    var f := Fpdu(AckTransEnd, idDst, idSrc, Kept(AckEndFields(class_, reason, m.octets, m.articles)), []);
    assert FpduOf(write, m, x, idDst, idSrc) == f;
    AckEndWell(class_, reason, m.octets, m.articles, idDst, idSrc);
    if Sayable(write, m, x) {
      AckEndRead(f, class_, reason, m.octets, m.articles);
    }
  }

  /** Every message of an attempt outside the data phase is a well-formed FPDU exactly when its parameters can say it;
      encoded, decoded and read it is then the message it was, and the event its automaton takes it for. */
  lemma {:induction false} MessageTravels(write: bool, m: S.Msg, x: Rest, idDst: byte, idSrc: byte)
    requires Typed(write, m, x) && ((m.Request? || m.Answer?) ==> m.maxEntity < 0x1_0000)
    ensures var f := FpduOf(write, m, x, idDst, idSrc);
      && (WellFormed(f) <==> Sayable(write, m, x))
      && (Sayable(write, m, x) ==>
            && Encode(f).Ok? && Decode(Encode(f).value, true) == Ok(f)
            && MsgOf(f) == Some(Seen(write, m))
            && T.Received(f.kind, Refuses(f)) == S.EventOf(write, m))
  {
    hide WellFormed, Sayable, Encode, Decode, MsgOf, Refuses, FpduOf, S.EventOf, Seen;
    match m {
      case Connect(_, _) => ConnectTravels(write, m, x, idDst, idSrc);
      case Aconnect(_, _) => AconnectTravels(write, m, x, idDst, idSrc);
      case Request(_) => RequestTravels(write, m, x, idDst, idSrc);
      case Answer(ok, _) =>
        if write {
          AckCreateTravels(m, x, idDst, idSrc);
        } else if ok {
          AckSelectTravels(m, x, idDst, idSrc);
        } else {
          NackSelectTravels(m, x, idDst, idSrc);
        }
      case Orf(_) => OrfTravels(write, m, x, idDst, idSrc);
      case AckOrf(_) => OrfTravels(write, m, x, idDst, idSrc);
      case Start => StartTravels(write, m, x, idDst, idSrc);
      case AckStart => AckStartTravels(write, m, x, idDst, idSrc);
      case TransEnd(_, _) => TransEndTravels(write, m, x, idDst, idSrc);
      case AckTransEnd(_, _, _) => AckTransEndTravels(write, m, x, idDst, idSrc);
      case _ => ClosingTravels(write, m, x, idDst, idSrc);
    }
    var f := FpduOf(write, m, x, idDst, idSrc);
    if Sayable(write, m, x) {
      EncodeThenDecode(f);
    }
  }

  // ---- the rest of a session ----

  lemma ControlCarries()
    ensures Carries(Release, 2, 3) && Mandatory(Release) == {2} && Carries(Abort, 2, 3) && Mandatory(Abort) == {2}
    ensures Carries(Rconnect, 2, 3) && Carries(Rconnect, 99, 254) && Mandatory(Rconnect) == {2}
    ensures Carries(Idt, 2, 3) && Carries(Idt, 19, 1) && Mandatory(Idt) == {2}
    ensures Mandatory(Relconf) == {} && Mandatory(AckIdt) == {}
  {
  }

  /** RELEASE, ABORT, RCONNECT and IDT carry their diagnostic, RELCONF and ACK(IDT) none. */
  lemma ControlWellFormed(idDst: byte, idSrc: byte, class_: byte, reason: nat, text: Option<seq<byte>>, code: byte)
    requires reason < 0x1_0000
    ensures WellFormed(Fpdu(Release, idDst, idSrc, Kept([Diag(class_, reason)]), []))
    ensures WellFormed(Fpdu(Abort, idDst, idSrc, Kept([Diag(class_, reason)]), []))
    ensures WellFormed(Fpdu(Rconnect, idDst, 0, Kept([Diag(class_, reason), Filled(99, text)]), []))
       <==> (text.Some? ==> |text.value| <= 254)
    ensures WellFormed(Fpdu(Idt, idDst, 0, Kept([Diag(class_, reason), Octet(19, Some(code))]), []))
    ensures WellFormed(Fpdu(Relconf, idDst, idSrc, [], [])) && WellFormed(Fpdu(AckIdt, idDst, 0, [], []))
  {
    hide Carries, Mandatory, Fine, Kept, InOrder, WellFormed, DiagOctets, Short;
    ControlCarries();
    var d := Diag(class_, reason);
    DiagShort(Release, idDst, idSrc, class_, reason);
    DiagShort(Abort, idDst, idSrc, class_, reason);
    FilledShort(Rconnect, text);
    TwoShort(Rconnect, idDst, 99, d, Filled(99, text), class_, reason);
    assert Short(Octet(19, Some(code))) by {
      OneOctetShort(code);
    }
    OctetFine(Idt, 19, Some(code), 1);
    TwoShort(Idt, idDst, 19, d, Octet(19, Some(code)), class_, reason);
    FourFields(Relconf, [], []);
    ShortWell(Relconf, [], [], idDst, idSrc);
    ShortWell(AckIdt, [], [], idDst, 0);
    assert Kept([]) == [] by {
      NothingKept();
    }
  }

  lemma OneOctetShort(code: byte)
    ensures Short(Octet(19, Some(code)))
  {
  }

  lemma NothingKept()
    ensures Kept([]) == []
  {
  }

  lemma DiagShort(k: FpduKind, idDst: byte, idSrc: byte, class_: byte, reason: nat)
    requires Carries(k, 2, 3) && Mandatory(k) == {2} && !k.IsData() && reason < 0x1_0000
    ensures WellFormed(Fpdu(k, idDst, idSrc, Kept([Diag(class_, reason)]), []))
  {
    hide Carries, Mandatory, Fine, Kept, InOrder, WellFormed, DiagOctets, Short;
    var codes: seq<byte>, fs := [2], [Diag(class_, reason)];
    DiagFine(k, class_, reason);
    FourFields(k, codes, fs);
    assert codes[0] == 2 && fs[0].Some?;
    ShortWell(k, codes, fs, idDst, idSrc);
  }

  lemma TwoShort(k: FpduKind, idDst: byte, pi: byte, d: Field, f: Field, class_: byte, reason: nat)
    requires Carries(k, 2, 3) && Mandatory(k) == {2} && !k.IsData() && reason < 0x1_0000 && d == Diag(class_, reason)
    requires pi > 2 && (f.Some? ==> f.value.Code() == pi) && (Fine(k, f) ==> Short(f))
    ensures WellFormed(Fpdu(k, idDst, 0, Kept([d, f]), [])) <==> Fine(k, f)
  {
    hide Carries, Mandatory, Fine, Kept, InOrder, WellFormed, DiagOctets, Short;
    var codes: seq<byte>, fs := [2, pi], [d, f];
    DiagFine(k, class_, reason);
    FourFields(k, codes, fs);
    assert codes[0] == 2 && fs[0].Some?;
    ShortWell(k, codes, fs, idDst, 0);
    assert AllFine(k, fs) <==> Fine(k, fs[1]);
  }
}
