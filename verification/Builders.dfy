/** The FPDUs of a session as they are built, from optional parameters in canonical order: which of them are well
    formed, and when a description of a file fits its parameters. */
module Builders {
  import opened Bytes
  import opened Params
  import opened Fpdu
  import opened Codec
  import opened FpduOps
  import opened Transport

  // ---- parameter lists ----

  /** A parameter that may be left out. */
  type Field = Option<Param>

  /** The parameters that are there, in order. */
  function Kept(fields: seq<Field>): seq<Param>
  {
    if fields == [] then []
    else Kept(fields[..|fields| - 1]) + (if fields[|fields| - 1].Some? then [fields[|fields| - 1].value] else [])
  }

  /** Fields in canonical order, under the codes they have when they are there. */
  predicate InOrder(codes: seq<byte>, fields: seq<Field>)
  {
    && |codes| == |fields|
    && (forall i, j :: 0 <= i < j < |codes| ==> codes[i] < codes[j])
    && (forall i :: 0 <= i < |fields| ==> fields[i].Some? ==> fields[i].value.Code() == codes[i])
  }

  /** What the strict decoder asks of one parameter of a kind. */
  predicate Fine(k: FpduKind, f: Field) { f.Some? ==> StructureOk(f.value) && TemplateOk(k, f.value) }

  predicate AllFine(k: FpduKind, fields: seq<Field>) { forall i :: 0 <= i < |fields| ==> Fine(k, fields[i]) }

  lemma {:induction false} KeptMembers(codes: seq<byte>, fields: seq<Field>, p: Param)
    requires InOrder(codes, fields)
    ensures p in Kept(fields) <==> exists i :: 0 <= i < |fields| && fields[i] == Some(p)
  {
    if fields != [] {
      var n := |fields| - 1;
      KeptMembers(codes[..n], fields[..n], p);
      if i :| 0 <= i < |fields| && fields[i] == Some(p) {
        assert i < n ==> fields[..n][i] == Some(p);
      }
    }
  }

  lemma {:induction false} KeptAscending(codes: seq<byte>, fields: seq<Field>)
    requires InOrder(codes, fields)
    ensures Ascending(Kept(fields))
  {
    if fields != [] {
      var n := |fields| - 1;
      var init := Kept(fields[..n]);
      KeptAscending(codes[..n], fields[..n]);
      if fields[n].Some? {
        forall i | 0 <= i < |init| ensures init[i].Code() < codes[n] {
          KeptMembers(codes[..n], fields[..n], init[i]);
        }
      }
    }
  }

  lemma KeptCodes(codes: seq<byte>, fields: seq<Field>, c: byte)
    requires InOrder(codes, fields) && exists i :: 0 <= i < |codes| && codes[i] == c && fields[i].Some?
    ensures c in ParamCodes(Kept(fields))
  {
    var ps := Kept(fields);
    var i :| 0 <= i < |codes| && codes[i] == c && fields[i].Some?;
    KeptMembers(codes, fields, fields[i].value);
    var j :| 0 <= j < |ps| && ps[j] == fields[i].value;
  }

  lemma KeptFine(k: FpduKind, codes: seq<byte>, fields: seq<Field>)
    requires InOrder(codes, fields)
    ensures AllFine(k, fields) <==> forall j :: 0 <= j < |Kept(fields)| ==> Fine(k, Some(Kept(fields)[j]))
  {
    hide StructureOk, TemplateOk, Kept, InOrder;
    var ps := Kept(fields);
    if AllFine(k, fields) {
      forall j | 0 <= j < |ps| ensures Fine(k, Some(ps[j])) {
        KeptMembers(codes, fields, ps[j]);
        var i :| 0 <= i < |fields| && fields[i] == Some(ps[j]);
        assert Fine(k, fields[i]);
      }
    } else {
      var i :| 0 <= i < |fields| && !Fine(k, fields[i]);
      KeptMembers(codes, fields, fields[i].value);
      var j :| 0 <= j < |ps| && ps[j] == fields[i].value;
      assert !Fine(k, Some(ps[j]));
    }
  }

  /** A built FPDU that has its mandatory fields is well formed exactly when each of its fields is and it is not too
      long. */
  lemma BuiltWell(k: FpduKind, idDst: byte, idSrc: byte, codes: seq<byte>, fields: seq<Field>)
    requires !k.IsData() && InOrder(codes, fields)
    requires forall c :: c in Mandatory(k) ==> exists i :: 0 <= i < |codes| && codes[i] == c && fields[i].Some?
    ensures var f := Fpdu(k, idDst, idSrc, Kept(fields), []);
      WellFormed(f) <==> AllFine(k, fields) && EncodedLen(f) <= 0xFFFF
  {
    hide StructureOk, TemplateOk, Mandatory, Ascending, ParamCodes, AllFine, InOrder, Kept, EncodedLen;
    KeptAscending(codes, fields);
    KeptFine(k, codes, fields);
    forall c | c in Mandatory(k) ensures c in ParamCodes(Kept(fields)) {
      KeptCodes(codes, fields, c);
    }
  }

  lemma {:induction false} LenSnoc(ps: seq<Param>, p: Param)
    ensures ParamsLen(ps + [p]) == ParamsLen(ps) + ParamLen(p)
  {
    hide ParamLen;
    if ps == [] {
      assert ps + [p] == [p] && [p][1..] == [];
    } else {
      assert (ps + [p])[1..] == ps[1..] + [p];
      LenSnoc(ps[1..], p);
    }
  }

  /** Single parameters of at most 254 octets. */
  predicate Short(f: Field) { f.Some? ==> f.value.PiParam? && |f.value.value| <= 254 }

  lemma {:induction false} ShortLen(fields: seq<Field>)
    requires forall i :: 0 <= i < |fields| ==> Short(fields[i])
    ensures ParamsLen(Kept(fields)) <= 256 * |fields|
  {
    if fields != [] {
      var n := |fields| - 1;
      ShortLen(fields[..n]);
      if fields[n].Some? {
        LenSnoc(Kept(fields[..n]), fields[n].value);
      } else {
        assert Kept(fields) == Kept(fields[..n]);
      }
    }
  }

  // ---- single values ----

  /** A parameter that is there if its value is. */
  function Opt(pi: byte, v: Option<seq<byte>>): Field { if v.Some? then Some(PiParam(pi, v.value)) else None }

  function Num(pi: byte, n: nat): Field { Some(PiParam(pi, EncodeNum(n))) }

  function OptNum(pi: byte, n: Option<nat>): Field { if n.Some? then Num(pi, n.value) else None }

  function Flag(pi: byte, on: bool): Field { if on then Some(PiParam(pi, [1])) else None }

  function Octet(pi: byte, v: Option<byte>): Field { if v.Some? then Some(PiParam(pi, [v.value])) else None }

  /** A text that is left out when empty. */
  function Filled(pi: byte, v: Option<seq<byte>>): Field
  {
    if v.Some? && v.value != [] then Some(PiParam(pi, v.value)) else None
  }

  /** A kind may carry a parameter, of at most `m` octets. */
  predicate Carries(k: FpduKind, pi: byte, m: nat)
  {
    IsPi(pi) && pi in Mandatory(k) + Optional(k) && MaxLen(pi) == m >= 1
  }

  lemma ValueFine(k: FpduKind, pi: byte, value: seq<byte>, m: nat)
    requires Carries(k, pi, m)
    ensures Fine(k, Some(PiParam(pi, value))) <==> 1 <= |value| <= m
  {
  }

  lemma NumFine(k: FpduKind, pi: byte, n: nat, m: nat)
    requires Carries(k, pi, m) && m >= 1
    ensures Fine(k, Num(pi, n)) <==> n < Power256(m)
  {
    hide EncodeNum, Carries, Fine;
    ValueFine(k, pi, EncodeNum(n), m);
    NumLength(n, m);
  }

  lemma OptNumFine(k: FpduKind, pi: byte, n: Option<nat>, m: nat)
    requires Carries(k, pi, m) && m >= 1
    ensures Fine(k, OptNum(pi, n)) <==> (n.Some? ==> n.value < Power256(m))
  {
    hide Carries, Num;
    if n.Some? {
      NumFine(k, pi, n.value, m);
    }
  }

  lemma FilledFine(k: FpduKind, pi: byte, v: Option<seq<byte>>, m: nat)
    requires Carries(k, pi, m)
    ensures Fine(k, Filled(pi, v)) <==> (v.Some? ==> |v.value| <= m)
  {
    hide Carries, StructureOk, TemplateOk;
    if v.Some? {
      ValueFine(k, pi, v.value, m);
    }
  }

  lemma OptFine(k: FpduKind, pi: byte, v: Option<seq<byte>>, m: nat)
    requires Carries(k, pi, m)
    ensures Fine(k, Opt(pi, v)) <==> (v.Some? ==> 1 <= |v.value| <= m)
  {
    hide Carries, StructureOk, TemplateOk;
    if v.Some? {
      ValueFine(k, pi, v.value, m);
    }
  }

  lemma FlagFine(k: FpduKind, pi: byte, on: bool, m: nat)
    requires Carries(k, pi, m) && m >= 1
    ensures Fine(k, Flag(pi, on))
  {
    hide Carries, StructureOk, TemplateOk;
    assert |[1 as byte]| == 1;
    if on {
      ValueFine(k, pi, [1], m);
    }
  }

  lemma OctetFine(k: FpduKind, pi: byte, v: Option<byte>, m: nat)
    requires Carries(k, pi, m) && m >= 1
    ensures Fine(k, Octet(pi, v))
  {
    hide Carries, StructureOk, TemplateOk;
    if v.Some? {
      ValueFine(k, pi, [v.value], m);
    }
  }

  lemma Powers()
    ensures Power256(1) == 0x100 && Power256(2) == 0x1_0000 && Power256(3) == 0x100_0000
    ensures Power256(4) == 0x1_0000_0000 && Power256(8) == 0x1_0000_0000_0000_0000
  {
    assert Power256(0) == 1;
    assert Power256(1) == 256 * Power256(0);
    assert Power256(2) == 256 * Power256(1);
    assert Power256(3) == 256 * Power256(2);
    assert Power256(4) == 256 * Power256(3);
    assert Power256(5) == 256 * Power256(4);
    assert Power256(6) == 256 * Power256(5);
    assert Power256(7) == 256 * Power256(6);
    assert Power256(8) == 256 * Power256(7);
  }

  // ---- CONNECT ----

  datatype ConnectParams = ConnectParams(requester: seq<byte>, server: seq<byte>, password: Option<seq<byte>>,
                                         version: nat, sync: SyncOption, access: nat, resync: bool, crc: bool,
                                         timeout: Option<nat>, freeMessage: Option<seq<byte>>)

  function SyncField(sync: SyncOption): Field
    requires sync.Valid()
  {
    if sync.Enabled() then Some(PiParam(7, sync.ToBytes())) else None
  }

  function ConnectFields(c: ConnectParams): seq<Field>
    requires c.sync.Valid()
  {
    [Flag(1, c.crc), Opt(3, Some(c.requester)), Opt(4, Some(c.server)), Filled(5, c.password), Num(6, c.version),
     SyncField(c.sync), Num(22, c.access), Flag(23, c.resync), OptNum(26, c.timeout), Filled(99, c.freeMessage)]
  }

  function BuildConnect(c: ConnectParams, idSrc: byte): Fpdu
    requires c.sync.Valid()
  {
    Fpdu(Connect, 0, idSrc, Kept(ConnectFields(c)), [])
  }

  /** What CONNECT can say: names of one to 24 characters, a password of at most 16, a free message of at most 254. */
  predicate Connectable(c: ConnectParams)
  {
    && 1 <= |c.requester| <= 24 && 1 <= |c.server| <= 24
    && (c.password.Some? ==> |c.password.value| <= 16)
    && c.version < 0x1_0000 && c.access < 0x100
    && (c.timeout.Some? ==> c.timeout.value < 0x1_0000)
    && (c.freeMessage.Some? ==> |c.freeMessage.value| <= 254)
  }

  lemma ConnectCarries()
    ensures Carries(Connect, 1, 1) && Carries(Connect, 3, 24) && Carries(Connect, 4, 24) && Carries(Connect, 5, 16)
    ensures Carries(Connect, 6, 2) && Carries(Connect, 7, 3) && Carries(Connect, 22, 1) && Carries(Connect, 23, 1)
    ensures Carries(Connect, 26, 2) && Carries(Connect, 99, 254)
  {
  }

  lemma ConnectFine(c: ConnectParams)
    requires c.sync.Valid()
    ensures AllFine(Connect, ConnectFields(c)) <==> Connectable(c)
  {
    hide Fine, EncodeNum, Power256, Carries, Flag, Opt, Filled, Num, OptNum;
    Powers();
    ConnectCarries();
    var k, fs := Connect, ConnectFields(c);
    FlagFine(k, 1, c.crc, 1);
    OptFine(k, 3, Some(c.requester), 24);
    OptFine(k, 4, Some(c.server), 24);
    FilledFine(k, 5, c.password, 16);
    NumFine(k, 6, c.version, 2);
    SyncFine(k, c.sync);
    NumFine(k, 22, c.access, 1);
    FlagFine(k, 23, c.resync, 1);
    OptNumFine(k, 26, c.timeout, 2);
    FilledFine(k, 99, c.freeMessage, 254);
    if AllFine(k, fs) {
      assert Fine(k, fs[1]) && Fine(k, fs[2]) && Fine(k, fs[3]) && Fine(k, fs[4]) && Fine(k, fs[6]) && Fine(k, fs[8])
          && Fine(k, fs[9]);
    }
  }

  lemma SyncFine(k: FpduKind, sync: SyncOption)
    requires sync.Valid() && Carries(k, 7, 3)
    ensures Fine(k, SyncField(sync))
  {
    hide Carries, StructureOk, TemplateOk;
    ValueFine(k, 7, sync.ToBytes(), 3);
  }

  const CONNECT_CODES: seq<byte> := [1, 3, 4, 5, 6, 7, 22, 23, 26, 99]

  /** CONNECT is well formed exactly when its texts and numbers fit their parameters. */
  lemma ConnectWellFormed(c: ConnectParams, idSrc: byte)
    requires c.sync.Valid()
    ensures WellFormed(BuildConnect(c, idSrc)) <==> Connectable(c)
  {
    hide Fine, EncodeNum, Kept, WellFormed, InOrder, AllFine;
    var k, fs := Connect, ConnectFields(c);
    ConnectFine(c);
    ConnectOrder(c);
    BuiltWell(k, 0, idSrc, CONNECT_CODES, fs);
    if Connectable(c) {
      ConnectShort(c);
      ShortLen(fs);
    }
  }

  lemma ConnectShort(c: ConnectParams)
    requires c.sync.Valid() && Connectable(c)
    ensures forall i :: 0 <= i < 10 ==> Short(ConnectFields(c)[i])
  {
    hide EncodeNum, Power256;
    Powers();
    NumLength(c.version, 2);
    NumLength(c.access, 1);
    if c.timeout.Some? {
      NumLength(c.timeout.value, 2);
    }
  }

  lemma ConnectOrder(c: ConnectParams)
    requires c.sync.Valid()
    ensures InOrder(CONNECT_CODES, ConnectFields(c))
    ensures var fs := ConnectFields(c);
      forall c :: c in Mandatory(Connect) ==> exists i :: 0 <= i < |CONNECT_CODES| && CONNECT_CODES[i] == c && fs[i].Some?
  {
    hide EncodeNum;
    var fs := ConnectFields(c);
    assert fs[1].Some? && fs[2].Some? && fs[4].Some? && fs[6].Some?;
    assert CONNECT_CODES[1] == 3 && CONNECT_CODES[2] == 4 && CONNECT_CODES[4] == 6 && CONNECT_CODES[6] == 22;
  }

  // ---- the description of a file ----

  datatype FileSpec = FileSpec(requester: Option<seq<byte>>, server: Option<seq<byte>>, fileType: nat,
                               fileName: seq<byte>, transferId: nat, restarted: bool, dataCode: Option<byte>,
                               priority: byte, maxEntity: nat, articleFormat: byte, articleLength: nat,
                               organisation: Option<byte>, fileLabel: Option<seq<byte>>, reservationUnit: Option<byte>,
                               maxReservation: nat, creationDate: Option<seq<byte>>,
                               extractionDate: Option<seq<byte>>, clientId: Option<seq<byte>>,
                               bankId: Option<seq<byte>>, accessControl: Option<seq<byte>>,
                               freeMessage: Option<seq<byte>>)

  function OptItem(pi: byte, v: Option<seq<byte>>): seq<Item> { if v.Some? then [Item(pi, v.value)] else [] }

  function OctetItem(pi: byte, v: Option<byte>): seq<Item> { if v.Some? then [Item(pi, [v.value])] else [] }

  function FileId(s: FileSpec): Param
  {
    PgiParam(9, OptItem(3, s.requester) + OptItem(4, s.server)
                + [Item(11, EncodeNum(s.fileType)), Item(12, s.fileName)])
  }

  function Logical(s: FileSpec): Param
  {
    PgiParam(30, [Item(31, [s.articleFormat]), Item(32, EncodeNum(s.articleLength))] + OctetItem(33, s.organisation)
                 + (if s.fileLabel == Some([]) then [] else OptItem(37, s.fileLabel)))
  }

  function Physical(s: FileSpec): Param
  {
    PgiParam(40, OctetItem(41, s.reservationUnit) + [Item(42, EncodeNum(s.maxReservation))])
  }

  function Historical(s: FileSpec): Field
  {
    if s.creationDate.Some? then Some(PgiParam(50, [Item(51, s.creationDate.value)] + OptItem(52, s.extractionDate)))
    else None
  }

  predicate Unempty(v: Option<seq<byte>>) { v != Some([]) }

  /** A group of its own items in order, the mandatory ones among them. */
  predicate Grouped(pgi: byte, items: seq<Item>)
  {
    && IsPgi(pgi) && items != [] && AscendingItems(items) && MandatoryMembers(pgi) <= ItemCodes(items)
    && forall i :: 0 <= i < |items| ==> IsPi(items[i].pi) && items[i].pi in Members(pgi)
  }

  lemma GroupFine(k: FpduKind, pgi: byte, items: seq<Item>)
    requires pgi in Mandatory(k) + Optional(k) && Grouped(pgi, items)
    ensures Fine(k, Some(PgiParam(pgi, items))) <==> forall i :: 0 <= i < |items| ==> items[i].value != []
  {
    hide Mandatory, Optional, MaxLen, IsPgi, IsPi, Members, MandatoryMembers, AscendingItems, ItemCodes;
    if Fine(k, Some(PgiParam(pgi, items))) {
      forall i | 0 <= i < |items| ensures items[i].value != [] {
        assert ItemOk(pgi, items[i]);
      }
    }
  }

  lemma FileIdGrouped(s: FileSpec)
    ensures Grouped(9, FileId(s).items)
  {
    hide EncodeNum;
    var items := FileId(s).items;
    assert items[|items| - 1].pi == 12 && items[|items| - 2].pi == 11;
    assert {11, 12} <= ItemCodes(items);
  }

  lemma FileIdFine(k: FpduKind, s: FileSpec)
    requires 9 in Mandatory(k) + Optional(k)
    ensures Fine(k, Some(FileId(s))) <==> s.fileName != [] && Unempty(s.requester) && Unempty(s.server)
  {
    hide EncodeNum, Mandatory, Optional, Fine, Grouped;
    var items := FileId(s).items;
    FileIdGrouped(s);
    GroupFine(k, 9, items);
    assert items[|items| - 1] == Item(12, s.fileName) && items[|items| - 2] == Item(11, EncodeNum(s.fileType));
    assert s.requester.Some? ==> items[0] == Item(3, s.requester.value);
    assert s.server.Some? ==> items[|items| - 3] == Item(4, s.server.value);
  }

  lemma LogicalFine(k: FpduKind, s: FileSpec)
    requires 30 in Mandatory(k) + Optional(k)
    ensures Fine(k, Some(Logical(s)))
  {
    hide EncodeNum, Mandatory, Optional, MaxLen;
    var items := Logical(s).items;
    assert items[1] == Item(32, EncodeNum(s.articleLength));
    assert {32} <= ItemCodes(items);
  }

  lemma PhysicalFine(k: FpduKind, s: FileSpec)
    requires 40 in Mandatory(k) + Optional(k)
    ensures Fine(k, Some(Physical(s)))
  {
    hide EncodeNum, Mandatory, Optional, MaxLen;
    var items := Physical(s).items;
    assert items[|items| - 1] == Item(42, EncodeNum(s.maxReservation));
    assert {42} <= ItemCodes(items);
  }

  lemma HistoricalFine(k: FpduKind, s: FileSpec)
    requires 50 in Mandatory(k) + Optional(k)
    ensures Fine(k, Historical(s)) <==> (s.creationDate.Some? ==> Unempty(s.creationDate) && Unempty(s.extractionDate))
  {
    hide Mandatory, Optional, MaxLen;
    if s.creationDate.Some? {
      var items := Historical(s).value.items;
      assert items[0] == Item(51, s.creationDate.value);
      assert s.extractionDate.Some? ==> items[1] == Item(52, s.extractionDate.value);
      assert {51} <= ItemCodes(items);
    }
  }

  // ---- CREATE, SELECT and the answer to SELECT ----

  function CreateFields(s: FileSpec): seq<Field>
  {
    [Some(FileId(s)), Num(13, s.transferId), Flag(15, s.restarted), Octet(16, s.dataCode), Octet(17, Some(s.priority)),
     Num(25, s.maxEntity), Some(Logical(s)), Some(Physical(s)), Historical(s), Opt(61, s.clientId), Opt(62, s.bankId),
     Opt(63, s.accessControl), Filled(99, s.freeMessage)]
  }

  const CREATE_CODES: seq<byte> := [9, 13, 15, 16, 17, 25, 30, 40, 50, 61, 62, 63, 99]

  function BuildCreate(s: FileSpec, idDst: byte): Fpdu { Fpdu(Create, idDst, 0, Kept(CreateFields(s)), []) }

  function SelectFields(s: FileSpec, attributes: byte): seq<Field>
  {
    [Some(FileId(s)), Num(13, s.transferId), Octet(14, if attributes != 0 then Some(attributes) else None),
     Flag(15, s.restarted), Octet(17, Some(s.priority)), Num(25, s.maxEntity), Opt(61, s.clientId), Opt(62, s.bankId),
     Opt(63, s.accessControl), Filled(99, s.freeMessage)]
  }

  const SELECT_CODES: seq<byte> := [9, 13, 14, 15, 17, 25, 61, 62, 63, 99]

  function BuildSelect(s: FileSpec, idDst: byte, attributes: byte): Fpdu
  {
    Fpdu(Select, idDst, 0, Kept(SelectFields(s, attributes)), [])
  }

  /** Attributes asked for: logical 1, physical 2, historical 4. */
  predicate Asks(attributes: byte, bit: byte)
    requires bit in {1, 2, 4}
  {
    attributes / bit % 2 == 1
  }

  function AckSelectFields(s: FileSpec, attributes: byte): seq<Field>
  {
    [Opt(2, Some([0, 0, 0])), Some(FileId(s)), Num(13, s.transferId), Octet(16, s.dataCode), Num(25, s.maxEntity),
     if Asks(attributes, 1) then Some(Logical(s)) else None, if Asks(attributes, 2) then Some(Physical(s)) else None,
     if Asks(attributes, 4) then Historical(s) else None, Opt(61, s.clientId), Opt(62, s.bankId),
     Filled(99, s.freeMessage)]
  }

  const ACK_SELECT_CODES: seq<byte> := [2, 9, 13, 16, 25, 30, 40, 50, 61, 62, 99]

  function BuildAckSelect(s: FileSpec, idDst: byte, attributes: byte): Fpdu
  {
    Fpdu(AckSelect, idDst, 0, Kept(AckSelectFields(s, attributes)), [])
  }

  predicate Text(v: Option<seq<byte>>, m: nat) { v.Some? ==> 1 <= |v.value| <= m }

  /** What every description of a file keeps to: a name, a transfer identifier of three octets, an entity size of two,
      texts within their lengths and none empty. */
  predicate Describable(s: FileSpec)
  {
    && s.fileName != [] && Unempty(s.requester) && Unempty(s.server)
    && s.transferId < 0x100_0000 && s.maxEntity < 0x1_0000
    && Text(s.clientId, 24) && Text(s.bankId, 24)
    && (s.freeMessage.Some? ==> |s.freeMessage.value| <= 254)
  }

  predicate Dated(s: FileSpec) { s.creationDate.Some? ==> Unempty(s.creationDate) && Unempty(s.extractionDate) }

  lemma CreateCarries()
    ensures Carries(Create, 13, 3) && Carries(Create, 15, 1) && Carries(Create, 16, 1) && Carries(Create, 17, 1)
    ensures Carries(Create, 25, 2)
  {
  }

  lemma CreateCarriesMore()
    ensures Carries(Create, 61, 24) && Carries(Create, 62, 24) && Carries(Create, 63, 16) && Carries(Create, 99, 254)
  {
  }

  lemma SelectCarries()
    ensures Carries(Select, 13, 3) && Carries(Select, 14, 1) && Carries(Select, 15, 1) && Carries(Select, 17, 1)
    ensures Carries(Select, 25, 2) && Carries(Select, 61, 24) && Carries(Select, 62, 24) && Carries(Select, 63, 16)
    ensures Carries(Select, 99, 254)
  {
  }

  lemma AckSelectCarries()
    ensures Carries(AckSelect, 2, 3) && Carries(AckSelect, 13, 3) && Carries(AckSelect, 16, 1) && Carries(AckSelect, 25, 2)
    ensures Carries(AckSelect, 61, 24) && Carries(AckSelect, 62, 24) && Carries(AckSelect, 99, 254)
  {
  }

  lemma CreateFine(s: FileSpec)
    ensures AllFine(Create, CreateFields(s)) <==> Describable(s) && Text(s.accessControl, 16) && Dated(s)
  {
    hide Fine, EncodeNum, Power256, Carries, Flag, Opt, Filled, Num, Octet, FileId, Logical, Physical, Historical,
      Unempty;
    Powers();
    CreateCarries();
    CreateCarriesMore();
    var k, fs := Create, CreateFields(s);
    FileIdFine(k, s);
    NumFine(k, 13, s.transferId, 3);
    FlagFine(k, 15, s.restarted, 1);
    OctetFine(k, 16, s.dataCode, 1);
    OctetFine(k, 17, Some(s.priority), 1);
    NumFine(k, 25, s.maxEntity, 2);
    LogicalFine(k, s);
    PhysicalFine(k, s);
    HistoricalFine(k, s);
    OptFine(k, 61, s.clientId, 24);
    OptFine(k, 62, s.bankId, 24);
    OptFine(k, 63, s.accessControl, 16);
    FilledFine(k, 99, s.freeMessage, 254);
    if AllFine(k, fs) {
      assert Fine(k, fs[0]) && Fine(k, fs[1]) && Fine(k, fs[5]) && Fine(k, fs[8]) && Fine(k, fs[9]) && Fine(k, fs[10])
          && Fine(k, fs[11]) && Fine(k, fs[12]);
    }
  }

  lemma SelectFine(s: FileSpec, attributes: byte)
    ensures AllFine(Select, SelectFields(s, attributes)) <==> Describable(s) && Text(s.accessControl, 16)
  {
    hide Fine, EncodeNum, Power256, Carries, Flag, Opt, Filled, Num, Octet, FileId, Unempty;
    Powers();
    SelectCarries();
    var k, fs := Select, SelectFields(s, attributes);
    FileIdFine(k, s);
    NumFine(k, 13, s.transferId, 3);
    OctetFine(k, 14, if attributes != 0 then Some(attributes) else None, 1);
    FlagFine(k, 15, s.restarted, 1);
    OctetFine(k, 17, Some(s.priority), 1);
    NumFine(k, 25, s.maxEntity, 2);
    OptFine(k, 61, s.clientId, 24);
    OptFine(k, 62, s.bankId, 24);
    OptFine(k, 63, s.accessControl, 16);
    FilledFine(k, 99, s.freeMessage, 254);
    if AllFine(k, fs) {
      assert Fine(k, fs[0]) && Fine(k, fs[1]) && Fine(k, fs[5]) && Fine(k, fs[6]) && Fine(k, fs[7]) && Fine(k, fs[8])
          && Fine(k, fs[9]);
    }
  }

  lemma AckSelectFine(s: FileSpec, attributes: byte)
    ensures AllFine(AckSelect, AckSelectFields(s, attributes))
       <==> Describable(s) && (Asks(attributes, 4) ==> Dated(s))
  {
    hide Fine, EncodeNum, Power256, Carries, Opt, Filled, Num, Octet, FileId, Logical, Physical, Historical, Unempty,
      Asks;
    Powers();
    AckSelectCarries();
    var k, fs := AckSelect, AckSelectFields(s, attributes);
    assert |[0 as byte, 0, 0]| == 3;
    OptFine(k, 2, Some([0, 0, 0]), 3);
    FileIdFine(k, s);
    NumFine(k, 13, s.transferId, 3);
    OctetFine(k, 16, s.dataCode, 1);
    NumFine(k, 25, s.maxEntity, 2);
    LogicalFine(k, s);
    PhysicalFine(k, s);
    HistoricalFine(k, s);
    NoneFine(k);
    OptFine(k, 61, s.clientId, 24);
    OptFine(k, 62, s.bankId, 24);
    FilledFine(k, 99, s.freeMessage, 254);
    if AllFine(k, fs) {
      assert Fine(k, fs[1]) && Fine(k, fs[2]) && Fine(k, fs[4]) && Fine(k, fs[7]) && Fine(k, fs[8]) && Fine(k, fs[9])
          && Fine(k, fs[10]);
    }
  }

  lemma NoneFine(k: FpduKind)
    ensures Fine(k, None)
  {
    hide StructureOk, TemplateOk;
  }

  lemma CreateOrder(s: FileSpec)
    ensures InOrder(CREATE_CODES, CreateFields(s))
    ensures forall c :: c in Mandatory(Create) ==>
      exists i :: 0 <= i < |CREATE_CODES| && CREATE_CODES[i] == c && CreateFields(s)[i].Some?
  {
    hide EncodeNum;
    var fs := CreateFields(s);
    assert fs[0].Some? && fs[1].Some? && fs[4].Some? && fs[5].Some? && fs[6].Some? && fs[7].Some?;
    assert CREATE_CODES[0] == 9 && CREATE_CODES[1] == 13 && CREATE_CODES[4] == 17 && CREATE_CODES[5] == 25
        && CREATE_CODES[6] == 30 && CREATE_CODES[7] == 40;
  }

  lemma SelectOrder(s: FileSpec, attributes: byte)
    ensures InOrder(SELECT_CODES, SelectFields(s, attributes))
    ensures forall c :: c in Mandatory(Select) ==>
      exists i :: 0 <= i < |SELECT_CODES| && SELECT_CODES[i] == c && SelectFields(s, attributes)[i].Some?
  {
    hide EncodeNum;
    var fs := SelectFields(s, attributes);
    assert fs[0].Some? && fs[1].Some? && fs[4].Some? && fs[5].Some?;
    assert SELECT_CODES[0] == 9 && SELECT_CODES[1] == 13 && SELECT_CODES[4] == 17 && SELECT_CODES[5] == 25;
  }

  lemma AckSelectOrder(s: FileSpec, attributes: byte)
    ensures InOrder(ACK_SELECT_CODES, AckSelectFields(s, attributes))
    ensures forall c :: c in Mandatory(AckSelect) ==>
      exists i :: 0 <= i < |ACK_SELECT_CODES| && ACK_SELECT_CODES[i] == c && AckSelectFields(s, attributes)[i].Some?
  {
    hide EncodeNum, Asks;
    assert AckSelectFields(s, attributes)[0].Some? && ACK_SELECT_CODES[0] == 2;
  }

  /** CREATE, SELECT and the answer to SELECT are well formed exactly when what describes the file fits its parameters
      and all of them fit one FPDU. */
  lemma FileWellFormed(s: FileSpec, idDst: byte, attributes: byte)
    ensures WellFormed(BuildCreate(s, idDst))
       <==> Describable(s) && Text(s.accessControl, 16) && Dated(s) && EncodedLen(BuildCreate(s, idDst)) <= 0xFFFF
    ensures WellFormed(BuildSelect(s, idDst, attributes))
       <==> Describable(s) && Text(s.accessControl, 16) && EncodedLen(BuildSelect(s, idDst, attributes)) <= 0xFFFF
    ensures WellFormed(BuildAckSelect(s, idDst, attributes))
       <==> Describable(s) && (Asks(attributes, 4) ==> Dated(s))
            && EncodedLen(BuildAckSelect(s, idDst, attributes)) <= 0xFFFF
  {
    hide WellFormed, InOrder, AllFine, CreateFields, SelectFields, AckSelectFields, Kept, EncodedLen, Describable, Dated,
      Text, Mandatory, Asks;
    CreateFine(s);
    CreateOrder(s);
    BuiltWell(Create, idDst, 0, CREATE_CODES, CreateFields(s));
    SelectFine(s, attributes);
    SelectOrder(s, attributes);
    BuiltWell(Select, idDst, 0, SELECT_CODES, SelectFields(s, attributes));
    AckSelectFine(s, attributes);
    AckSelectOrder(s, attributes);
    BuiltWell(AckSelect, idDst, 0, ACK_SELECT_CODES, AckSelectFields(s, attributes));
  }
}
