/** FPDU kinds, parameters and structure (section 4.7 of the PeSIT version E specification). */
module Fpdu {
  import opened Bytes

  const HEADER_LEN: nat := 6
  const MAX_FPDU_LEN: nat := 0xFFFF

  datatype FpduKind =
    | Connect | Aconnect | Rconnect | Release | Relconf | Abort
    | Read | Write | Syn | DtfEnd | Resyn | Idt | TransEnd
    | Create | Select | Deselect | Orf | Crf | Msg | MsgDm | MsgMm | MsgFm
    | AckCreate | AckSelect | AckDeselect | AckOrf | AckCrf | AckRead | AckWrite
    | AckTransEnd | AckSyn | AckResyn | AckIdt | AckMsg
    | Dtf | DtfMa | DtfDa | DtfFa
  {
    predicate IsData() { Dtf? || DtfDa? || DtfMa? || DtfFa? }

    predicate IsAck() {
      Aconnect? || Rconnect? || Relconf? || AckCreate? || AckSelect? || AckDeselect? || AckOrf?
      || AckCrf? || AckRead? || AckWrite? || AckTransEnd? || AckSyn? || AckResyn? || AckIdt? || AckMsg?
    }

    /** The acknowledgement this FPDU is answered by. */
    function Ack(): Option<FpduKind> {
      match this
      case Connect => Some(Aconnect)
      case Release => Some(Relconf)
      case Create => Some(AckCreate)
      case Select => Some(AckSelect)
      case Deselect => Some(AckDeselect)
      case Orf => Some(AckOrf)
      case Crf => Some(AckCrf)
      case Read => Some(AckRead)
      case Write => Some(AckWrite)
      case TransEnd => Some(AckTransEnd)
      case Syn => Some(AckSyn)
      case Resyn => Some(AckResyn)
      case Idt => Some(AckIdt)
      case Msg | MsgFm => Some(AckMsg)
      case _ => None
    }

    /** Phase and type octets. */
    function Codes(): (byte, byte) {
      match this
      case Connect => (0x40, 0x20)
      case Aconnect => (0x40, 0x21)
      case Rconnect => (0x40, 0x22)
      case Release => (0x40, 0x23)
      case Relconf => (0x40, 0x24)
      case Abort => (0x40, 0x25)
      case Read => (0xC0, 0x01)
      case Write => (0xC0, 0x02)
      case Syn => (0xC0, 0x03)
      case DtfEnd => (0xC0, 0x04)
      case Resyn => (0xC0, 0x05)
      case Idt => (0xC0, 0x06)
      case TransEnd => (0xC0, 0x08)
      case Create => (0xC0, 0x11)
      case Select => (0xC0, 0x12)
      case Deselect => (0xC0, 0x13)
      case Orf => (0xC0, 0x14)
      case Crf => (0xC0, 0x15)
      case Msg => (0xC0, 0x16)
      case MsgDm => (0xC0, 0x17)
      case MsgMm => (0xC0, 0x18)
      case MsgFm => (0xC0, 0x19)
      case AckCreate => (0xC0, 0x30)
      case AckSelect => (0xC0, 0x31)
      case AckDeselect => (0xC0, 0x32)
      case AckOrf => (0xC0, 0x33)
      case AckCrf => (0xC0, 0x34)
      case AckRead => (0xC0, 0x35)
      case AckWrite => (0xC0, 0x36)
      case AckTransEnd => (0xC0, 0x37)
      case AckSyn => (0xC0, 0x38)
      case AckResyn => (0xC0, 0x39)
      case AckIdt => (0xC0, 0x3A)
      case AckMsg => (0xC0, 0x3B)
      case Dtf => (0x00, 0x00)
      case DtfMa => (0x00, 0x40)
      case DtfDa => (0x00, 0x41)
      case DtfFa => (0x00, 0x42)
    }
  }

  function KindOf(phase: byte, code: byte): Option<FpduKind>
  {
    if phase == 0x40 then
      if code == 0x20 then Some(Connect) else if code == 0x21 then Some(Aconnect)
      else if code == 0x22 then Some(Rconnect) else if code == 0x23 then Some(Release)
      else if code == 0x24 then Some(Relconf) else if code == 0x25 then Some(Abort) else None
    else if phase == 0x00 then
      if code == 0x00 then Some(Dtf) else if code == 0x40 then Some(DtfMa)
      else if code == 0x41 then Some(DtfDa) else if code == 0x42 then Some(DtfFa) else None
    else if phase == 0xC0 then
      if code == 0x01 then Some(Read) else if code == 0x02 then Some(Write)
      else if code == 0x03 then Some(Syn) else if code == 0x04 then Some(DtfEnd)
      else if code == 0x05 then Some(Resyn) else if code == 0x06 then Some(Idt)
      else if code == 0x08 then Some(TransEnd)
      else if code == 0x11 then Some(Create) else if code == 0x12 then Some(Select)
      else if code == 0x13 then Some(Deselect) else if code == 0x14 then Some(Orf)
      else if code == 0x15 then Some(Crf) else if code == 0x16 then Some(Msg)
      else if code == 0x17 then Some(MsgDm) else if code == 0x18 then Some(MsgMm)
      else if code == 0x19 then Some(MsgFm)
      else if code == 0x30 then Some(AckCreate) else if code == 0x31 then Some(AckSelect)
      else if code == 0x32 then Some(AckDeselect) else if code == 0x33 then Some(AckOrf)
      else if code == 0x34 then Some(AckCrf) else if code == 0x35 then Some(AckRead)
      else if code == 0x36 then Some(AckWrite) else if code == 0x37 then Some(AckTransEnd)
      else if code == 0x38 then Some(AckSyn) else if code == 0x39 then Some(AckResyn)
      else if code == 0x3A then Some(AckIdt) else if code == 0x3B then Some(AckMsg) else None
    else None
  }

  lemma KindCodes(k: FpduKind, phase: byte, code: byte)
    ensures KindOf(phase, code) == Some(k) <==> k.Codes() == (phase, code)
  {
    match k {
      case Connect => case Aconnect => case Rconnect => case Release => case Relconf => case Abort =>
      case Read => case Write => case Syn => case DtfEnd => case Resyn => case Idt => case TransEnd =>
      case Create => case Select => case Deselect => case Orf => case Crf => case Msg =>
      case MsgDm => case MsgMm => case MsgFm => case AckCreate => case AckSelect => case AckDeselect =>
      case AckOrf => case AckCrf => case AckRead => case AckWrite => case AckTransEnd => case AckSyn =>
      case AckResyn => case AckIdt => case AckMsg => case Dtf => case DtfMa => case DtfDa => case DtfFa =>
    }
  }

  /** The FPDU an acknowledgement answers. */
  function Answered(k: FpduKind): Option<FpduKind>
  {
    match k
    case Aconnect => Some(Connect)
    case Relconf => Some(Release)
    case AckCreate => Some(Create)
    case AckSelect => Some(Select)
    case AckDeselect => Some(Deselect)
    case AckOrf => Some(Orf)
    case AckCrf => Some(Crf)
    case AckRead => Some(Read)
    case AckWrite => Some(Write)
    case AckTransEnd => Some(TransEnd)
    case AckSyn => Some(Syn)
    case AckResyn => Some(Resyn)
    case AckIdt => Some(Idt)
    case AckMsg => Some(Msg)
    case _ => None
  }

  /** The acknowledgements are the answers to other FPDUs, and RCONNECT. */
  lemma AcksAnswer(k: FpduKind, q: FpduKind)
    ensures k.IsAck() && k != Rconnect ==> Answered(k).Some? && Answered(k).value.Ack() == Some(k)
    ensures q.Ack().Some? ==> q.Ack().value.IsAck()
    ensures Rconnect.IsAck()
  {
    AckAnswers(k);
    AnswerAcks(q);
  }

  lemma AckAnswers(k: FpduKind)
    ensures k.IsAck() && k != Rconnect ==> Answered(k).Some? && Answered(k).value.Ack() == Some(k)
  {
  }

  lemma AnswerAcks(q: FpduKind)
    ensures q.Ack().Some? ==> q.Ack().value.IsAck()
  {
  }

  // ---- parameter identifiers ----

  predicate IsPi(c: byte)
  {
    1 <= c <= 7 || 11 <= c <= 23 || 25 <= c <= 29 || 31 <= c <= 34 || 36 <= c <= 39 || 41 <= c <= 42
    || 51 <= c <= 52 || 61 <= c <= 64 || 71 <= c <= 83 || c == 91 || c == 99
  }

  predicate IsPgi(c: byte) { c == 9 || c == 30 || c == 40 || c == 50 }

  /** Maximum value length of a PI, 0 when unbounded. */
  function MaxLen(pi: byte): nat
  {
    if pi == 1 || pi == 14 || pi == 15 || pi == 16 || pi == 17 || pi == 19 || pi == 22 || pi == 23
      || pi == 31 || pi == 33 || pi == 41 then 1
    else if pi == 6 || pi == 21 || pi == 25 || pi == 26 || pi == 32 || pi == 34 || pi == 38 || pi == 39 then 2
    else if pi == 2 || pi == 7 || pi == 13 || pi == 18 || pi == 20 || pi == 71 then 3
    else if pi == 28 || pi == 42 || pi == 73 || pi == 75 || pi == 77 then 4
    else if pi == 11 || pi == 27 then 8
    else if pi == 51 || pi == 52 || pi == 64 then 12
    else if pi == 5 || pi == 63 then 16
    else if pi == 3 || pi == 4 || pi == 61 || pi == 62 then 24
    else if pi == 36 then 64
    else if pi == 12 then 76
    else if pi == 37 then 80
    else if pi == 29 || pi == 99 then 254
    else if pi == 91 then 4096
    else 0
  }

  function Members(pgi: byte): set<byte>
  {
    if pgi == 9 then {3, 4, 11, 12}
    else if pgi == 30 then {31, 32, 33, 34, 36, 37, 38, 39}
    else if pgi == 40 then {41, 42}
    else if pgi == 50 then {51, 52}
    else {}
  }

  function MandatoryMembers(pgi: byte): set<byte>
  {
    if pgi == 9 then {11, 12} else if pgi == 30 then {32} else if pgi == 40 then {42}
    else if pgi == 50 then {51} else {}
  }

  /** Mandatory top-level codes of a kind. */
  function Mandatory(k: FpduKind): set<byte>
  {
    match k
    case Connect => {3, 4, 6, 22}
    case Aconnect => {6}
    case Create => {9, 13, 17, 25, 30, 40}
    case Select => {9, 13, 17, 25}
    case Read | AckResyn => {18}
    case AckWrite | Resyn => {2, 18}
    case Syn | AckSyn => {20}
    case Msg | MsgDm => {9, 13, 17}
    case Rconnect | Release | Deselect | AckDeselect | Abort | Crf | AckCrf | AckRead => {2}
    case AckCreate | AckSelect | AckOrf | DtfEnd | Idt | AckTransEnd | AckMsg => {2}
    case Relconf | Orf | TransEnd | MsgMm | MsgFm | Write | AckIdt | Dtf | DtfDa | DtfMa | DtfFa => {}
  }

  /** Optional top-level codes of a kind. */
  function Optional(k: FpduKind): set<byte>
  {
    match k
    case Connect => {1, 5, 7, 23, 26, 99}
    case Aconnect => {5, 7, 23, 99}
    case Rconnect | Release | Deselect | AckDeselect => {29, 99}
    case Relconf => {99}
    case Abort | Crf | AckCrf | AckRead | AckWrite | Resyn => {29}
    case Create => {15, 16, 50, 61, 62, 63, 71, 72, 73, 75, 77, 80, 99}
    case AckCreate => {13, 25, 29, 64, 72, 80, 83, 99}
    case Select => {14, 15, 61, 62, 63, 71, 72, 73, 75, 77, 80, 99}
    case AckSelect => {9, 13, 16, 25, 29, 30, 40, 50, 61, 62, 64, 72, 80, 83, 99}
    case Orf => {21, 72, 74, 76, 80, 83}
    case AckOrf => {21, 29, 74, 76}
    case DtfEnd => {29, 78, 79, 82}
    case Syn => {78}
    case Idt => {19, 29}
    case TransEnd => {27, 28, 81}
    case AckTransEnd => {27, 28, 29, 81}
    case Msg | MsgDm => {14, 16, 30, 40, 50, 61, 62, 73, 74, 77, 78, 79, 80, 81, 91}
    case MsgMm | MsgFm => {91}
    case AckMsg => {13, 16, 29, 79, 80, 81, 91}
    case Read | AckSyn | AckResyn | Write | AckIdt | Dtf | DtfDa | DtfMa | DtfFa => {}
  }

  // ---- structure ----

  datatype Item = Item(pi: byte, value: seq<byte>)

  /** A single parameter or a parameter group. */
  datatype Param = PiParam(pi: byte, value: seq<byte>) | PgiParam(pgi: byte, items: seq<Item>) {
    function Code(): byte { if PiParam? then pi else pgi }
  }

  datatype Fpdu = Fpdu(kind: FpduKind, idDst: byte, idSrc: byte, params: seq<Param>, data: seq<byte>)

  function DataFpdu(kind: FpduKind, idDst: byte, idSrc: byte, data: seq<byte>): Fpdu
  {
    Fpdu(kind, idDst, idSrc, [], data)
  }

  predicate AscendingItems(items: seq<Item>)
  {
    forall i, j :: 0 <= i < j < |items| ==> items[i].pi < items[j].pi
  }

  predicate Ascending(params: seq<Param>)
  {
    forall i, j :: 0 <= i < j < |params| ==> params[i].Code() < params[j].Code()
  }

  predicate ItemOk(pgi: byte, item: Item)
  {
    IsPi(item.pi) && item.pi in Members(pgi) && item.value != []
  }

  predicate StructureOk(p: Param)
  {
    match p
    case PiParam(pi, value) => IsPi(pi) && value != []
    case PgiParam(pgi, items) =>
      IsPgi(pgi) && items != [] && AscendingItems(items) && forall i :: 0 <= i < |items| ==> ItemOk(pgi, items[i])
  }

  function ItemCodes(items: seq<Item>): set<byte>
  {
    set i | 0 <= i < |items| :: items[i].pi
  }

  function ParamCodes(params: seq<Param>): set<byte>
  {
    set i | 0 <= i < |params| :: params[i].Code()
  }

  /** What the template check asks of one parameter: allowed code, bounded value, complete group. */
  predicate TemplateOk(k: FpduKind, p: Param)
  {
    && p.Code() in Mandatory(k) + Optional(k)
    && (p.PiParam? ==> MaxLen(p.pi) == 0 || |p.value| <= MaxLen(p.pi))
    && (p.PgiParam? ==> MandatoryMembers(p.pgi) <= ItemCodes(p.items))
  }

  predicate Conforms(k: FpduKind, params: seq<Param>)
  {
    && (forall i :: 0 <= i < |params| ==> TemplateOk(k, params[i]))
    && Mandatory(k) <= ParamCodes(params)
  }

  /** A well-formed FPDU: what the strict decoder yields, no more and no less. */
  predicate WellFormed(f: Fpdu)
  {
    && EncodedLen(f) <= MAX_FPDU_LEN
    && if f.kind.IsData() then f.params == []
       else
         && f.data == []
         && Ascending(f.params)
         && (forall i :: 0 <= i < |f.params| ==> StructureOk(f.params[i]))
         && Conforms(f.kind, f.params)
  }

  // ---- lengths ----

  function UnitLen(n: nat): nat { 1 + (if n < 255 then 1 else 3) + n }

  function ItemsLen(items: seq<Item>): nat
  {
    if items == [] then 0 else UnitLen(|items[0].value|) + ItemsLen(items[1..])
  }

  function ParamLen(p: Param): nat
  {
    match p
    case PiParam(_, value) => UnitLen(|value|)
    case PgiParam(_, items) => UnitLen(ItemsLen(items))
  }

  function ParamsLen(params: seq<Param>): nat
  {
    if params == [] then 0 else ParamLen(params[0]) + ParamsLen(params[1..])
  }

  function EncodedLen(f: Fpdu): nat
  {
    HEADER_LEN + if f.kind.IsData() then |f.data| else ParamsLen(f.params)
  }
}
