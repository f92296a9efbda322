/** The units of the data phase as FPDUs and as events of the protocol automaton: well formed within three octets,
    read as they were built, and never refused. */
module DataUnits {
  import opened Bytes
  import opened Codec
  import opened FpduOps
  import opened DataPhase
  import opened Transport
  import opened Entities
  import F = Fpdu
  import A = Articles
  import T = StateTable

  // ---- FPDUs ----

  const PI_DIAG: byte := 2
  const PI_RESTART_POINT: byte := 18
  const PI_SYNC_NUMBER: byte := 20

  /** Diagnostics on the wire: success, and transmission error (1, 100). */
  const DIAG_OK: seq<byte> := [0, 0, 0]
  const DIAG_TRANSMISSION: seq<byte> := [1, 0, 100]

  /** The FPDU built for a unit sent to a peer. */
  function FpduOf(p: Pdu, peer: byte): F.Fpdu
  {
    match p
    case Data(f) => f
    case Syn(n) => F.Fpdu(F.Syn, peer, 0, [F.PiParam(PI_SYNC_NUMBER, EncodeNum(n))], [])
    case AckSyn(n) => F.Fpdu(F.AckSyn, peer, 0, [F.PiParam(PI_SYNC_NUMBER, EncodeNum(n))], [])
    case Resyn(n) =>
      F.Fpdu(F.Resyn, peer, 0, [F.PiParam(PI_DIAG, DIAG_TRANSMISSION), F.PiParam(PI_RESTART_POINT, EncodeNum(n))], [])
    case AckResyn(n) => F.Fpdu(F.AckResyn, peer, 0, [F.PiParam(PI_RESTART_POINT, EncodeNum(n))], [])
    case DtfEnd => F.Fpdu(F.DtfEnd, peer, 0, [F.PiParam(PI_DIAG, DIAG_OK)], [])
  }

  /** The number a loop reads out of an FPDU: PI 20 of SYN and ACK(SYN), PI 18 of RESYN and ACK(RESYN). */
  function NumberOf(f: F.Fpdu, pi: byte): nat
  {
    var v := Get(f.params, pi);
    if v.None? then 0 else DecodeNum(v.value)
  }

  function UnitOf(f: F.Fpdu): Option<Pdu>
  {
    if f.kind.IsData() then Some(Data(f))
    else
      match f.kind
      case Syn => Some(Syn(NumberOf(f, PI_SYNC_NUMBER)))
      case AckSyn => Some(AckSyn(NumberOf(f, PI_SYNC_NUMBER)))
      case Resyn => Some(Resyn(NumberOf(f, PI_RESTART_POINT)))
      case AckResyn => Some(AckResyn(NumberOf(f, PI_RESTART_POINT)))
      case DtfEnd => Some(DtfEnd)
      case _ => None
  }

  lemma {:induction false} NumLenIs(n: nat)
    ensures NumLen(n) == |EncodeNum(n)|
    decreases n
  {
    if n >= 256 {
      NumLenIs(n / 256);
    }
  }

  lemma ThreeOctets(n: nat)
    ensures |EncodeNum(n)| <= 3 <==> n < MAX_SYNC_NUMBER
  {
    NumLength(n, 3);
    assert Power256(3) == 256 * Power256(2);
    assert Power256(2) == 256 * Power256(1);
    assert Power256(1) == 256 * Power256(0);
  }

  lemma OneParam(k: F.FpduKind, p: F.Param)
    ensures F.ParamsLen([p]) == F.ParamLen(p)
    ensures F.ParamCodes([p]) == {p.Code()}
    ensures F.Conforms(k, [p]) <==> F.TemplateOk(k, p) && F.Mandatory(k) <= {p.Code()}
  {
    assert [p][1..] == [];
    assert F.ParamCodes([p]) == {p.Code()} by {
      assert [p][0] == p;
    }
    assert F.Conforms(k, [p]) ==> F.TemplateOk(k, [p][0]);
  }

  lemma TwoParams(k: F.FpduKind, p: F.Param, q: F.Param)
    ensures F.ParamsLen([p, q]) == F.ParamLen(p) + F.ParamLen(q)
    ensures F.ParamCodes([p, q]) == {p.Code(), q.Code()}
    ensures F.Conforms(k, [p, q])
       <==> F.TemplateOk(k, p) && F.TemplateOk(k, q) && F.Mandatory(k) <= {p.Code(), q.Code()}
  {
    hide F.TemplateOk, F.Mandatory, F.ParamLen;
    assert F.ParamsLen([p, q]) == F.ParamLen(p) + F.ParamLen(q) by {
      assert [p, q][1..] == [q];
      OneParam(k, q);
    }
    assert F.ParamCodes([p, q]) == {p.Code(), q.Code()} by {
      assert [p, q][0] == p && [p, q][1] == q;
    }
    assert F.Conforms(k, [p, q]) ==> F.TemplateOk(k, [p, q][0]) && F.TemplateOk(k, [p, q][1]);
  }

  lemma ResynWellFormed(n: nat, peer: byte)
    ensures F.WellFormed(FpduOf(Resyn(n), peer)) <==> n < MAX_SYNC_NUMBER
    ensures n < MAX_SYNC_NUMBER ==> F.EncodedLen(FpduOf(Resyn(n), peer)) == PduLen(Resyn(n))
  {
    var f := FpduOf(Resyn(n), peer);
    NumLenIs(n);
    ThreeOctets(n);
    TwoParams(f.kind, f.params[0], f.params[1]);
  }

  lemma OneNumber(p: Pdu, peer: byte)
    requires p.Syn? || p.AckSyn? || p.AckResyn?
    ensures F.WellFormed(FpduOf(p, peer)) <==> p.n < MAX_SYNC_NUMBER
    ensures p.n < MAX_SYNC_NUMBER ==> F.EncodedLen(FpduOf(p, peer)) == PduLen(p)
  {
    var f := FpduOf(p, peer);
    NumLenIs(p.n);
    ThreeOctets(p.n);
    OneParam(f.kind, f.params[0]);
  }

  /** A numbered unit is a well-formed FPDU exactly when its number fits three octets: the strict decoder takes
      no greater one. Its length is the one the sending loop reckons with. */
  lemma UnitWellFormed(p: Pdu, peer: byte)
    requires Numbered(p)
    ensures F.WellFormed(FpduOf(p, peer)) <==> p.n < MAX_SYNC_NUMBER
    ensures p.n < MAX_SYNC_NUMBER ==> F.EncodedLen(FpduOf(p, peer)) == PduLen(p)
  {
    hide F.WellFormed, F.EncodedLen, FpduOf, PduLen;
    if p.Resyn? {
      ResynWellFormed(p.n, peer);
    } else {
      OneNumber(p, peer);
    }
  }

  /** Within three octets a numbered unit sent is the unit received: built, encoded, decoded and read. */
  lemma UnitRoundTrip(p: Pdu, peer: byte)
    requires p == DtfEnd || (Numbered(p) && p.n < MAX_SYNC_NUMBER)
    ensures Encode(FpduOf(p, peer)).Ok? && |Encode(FpduOf(p, peer)).value| == PduLen(p)
    ensures Decode(Encode(FpduOf(p, peer)).value, true) == Ok(FpduOf(p, peer))
    ensures UnitOf(FpduOf(p, peer)) == Some(p)
  {
    var f := FpduOf(p, peer);
    if p == DtfEnd {
      EndWellFormed(peer);
    } else {
      UnitWellFormed(p, peer);
      NumberRead(p, peer);
    }
    hide F.WellFormed, Encode, Decode;
    EncodeThenDecode(f);
  }

  lemma EndWellFormed(peer: byte)
    ensures F.WellFormed(FpduOf(DtfEnd, peer)) && F.EncodedLen(FpduOf(DtfEnd, peer)) == PduLen(DtfEnd)
  {
    var f := FpduOf(DtfEnd, peer);
    OneParam(f.kind, f.params[0]);
  }

  lemma GetAlone(pi: byte, value: seq<byte>)
    ensures Get([F.PiParam(pi, value)], pi) == Some(value)
  {
  }

  lemma NumberRead(p: Pdu, peer: byte)
    requires Numbered(p) && p.n < MAX_SYNC_NUMBER
    ensures UnitOf(FpduOf(p, peer)) == Some(p)
  {
    var f := FpduOf(p, peer);
    NumRoundTrip(p.n);
    if p.Resyn? {
      assert f.params[1..] == [f.params[1]];
      GetAlone(PI_RESTART_POINT, EncodeNum(p.n));
    } else {
      GetAlone(if p.AckResyn? then PI_RESTART_POINT else PI_SYNC_NUMBER, EncodeNum(p.n));
    }
  }

  /** The data a packer emits are well-formed FPDUs within the size it was made for. */
  lemma DataWellFormed(p: A.Packing, f: F.Fpdu)
    requires p.Valid() && A.Shippable(p, f)
    ensures F.WellFormed(f) && F.EncodedLen(f) <= p.maxDtf && UnitOf(f) == Some(Data(f))
  {
  }

  // ---- the automaton ----

  /** The automaton of a sender and of a receiver in a phase, for a transfer written or read by the requester. */
  function SenderMachine(write: bool, phase: SendPhase): T.State
  {
    if phase == Ended then (if write then T.Tde07A else T.Tdl07B) else if write then T.Tde02A else T.Tdl02B
  }

  function ReceiverMachine(write: bool, phase: ReceivePhase): T.State
  {
    match phase
    case Completed => if write then T.Tde07B else T.Tdl07A
    case AwaitAck => if write then T.Tde03B else T.Tdl03A
    case _ => if write then T.Tde02B else T.Tdl02A
  }

  /** The automaton through events it accepts; `None` at the first it refuses. */
  function Through(s: T.State, events: seq<T.Event>): Option<T.State>
    decreases |events|
  {
    if events == [] then Some(s)
    else
      match T.Apply(s, events[0])
      case Next(t) => Through(t, events[1..])
      case Ignore => Through(s, events[1..])
      case Refuse => None
  }

  lemma ThroughOne(s: T.State, e: T.Event)
    ensures Through(s, [e])
         == match T.Apply(s, e) case Next(t) => Some(t) case Ignore => Some(s) case Refuse => None
  {
    assert [e][1..] == [];
  }

  lemma ThroughTwo(s: T.State, e: T.Event, t: T.State, d: T.Event)
    requires T.Apply(s, e) == T.Next(t)
    ensures Through(s, [e, d]) == Through(t, [d])
  {
    assert [e, d][1..] == [d];
  }

  /** What the sending loop tells its automaton: data, a point and data, the end, an acknowledgement, a
      request honoured. */
  datatype SenderTurn = TurnData | TurnPoint | TurnEnd | TurnAck | TurnResyn

  function SenderEvents(turn: SenderTurn): seq<T.Event>
  {
    match turn
    case TurnData => [T.Local(T.DoSendData)]
    case TurnPoint => [T.Local(T.DoSync), T.Local(T.DoSendData)]
    case TurnEnd => [T.Local(T.DoDataEnd)]
    case TurnAck => [T.R(F.AckSyn)]
    case TurnResyn => [T.R(F.Resyn), T.Local(T.DoAccept)]
  }

  lemma SenderApplies(write: bool, request: T.Request)
    requires request == T.DoSendData || request == T.DoSync
    ensures T.Apply(SenderMachine(write, Sending), T.Local(request)) == T.Next(SenderMachine(write, Sending))
  {
  }

  lemma SenderEnds(write: bool)
    ensures T.Apply(SenderMachine(write, Sending), T.Local(T.DoDataEnd)) == T.Next(SenderMachine(write, Ended))
  {
  }

  lemma SenderTakesAck(write: bool)
    ensures T.Apply(SenderMachine(write, Sending), T.R(F.AckSyn)) == T.Next(SenderMachine(write, Sending))
  {
  }

  lemma SenderTakesResyn(write: bool)
    ensures var mid := T.SideOf(SenderMachine(write, Sending)).resyncRcvd;
      && T.Apply(SenderMachine(write, Sending), T.R(F.Resyn)) == T.Next(mid)
      && T.Apply(mid, T.Local(T.DoAccept)) == T.Next(SenderMachine(write, Sending))
  {
  }

  /** Every turn of the sending loop is accepted by the automaton and keeps it in step with the phase. */
  lemma SenderTable(write: bool, turn: SenderTurn)
    ensures Through(SenderMachine(write, Sending), SenderEvents(turn))
         == Some(SenderMachine(write, if turn == TurnEnd then Ended else Sending))
  {
    hide T.Apply, SenderMachine, T.SideOf;
    var s := SenderMachine(write, Sending);
    SenderApplies(write, T.DoSendData);
    SenderApplies(write, T.DoSync);
    SenderEnds(write);
    SenderTakesAck(write);
    SenderTakesResyn(write);
    match turn {
      case TurnData => ThroughOne(s, T.Local(T.DoSendData));
      case TurnPoint =>
        ThroughTwo(s, T.Local(T.DoSync), s, T.Local(T.DoSendData));
        ThroughOne(s, T.Local(T.DoSendData));
      case TurnEnd => ThroughOne(s, T.Local(T.DoDataEnd));
      case TurnAck => ThroughOne(s, T.R(F.AckSyn));
      case TurnResyn =>
        ThroughTwo(s, T.R(F.Resyn), T.SideOf(s).resyncRcvd, T.Local(T.DoAccept));
        ThroughOne(T.SideOf(s).resyncRcvd, T.Local(T.DoAccept));
    }
  }

  /** What the receiving loop tells its automaton for a unit it takes in its stride. */
  function ReceiverEvents(p: Pdu, acks: bool): seq<T.Event>
  {
    match p
    case Data(f) => [T.R(f.kind)]
    case Syn(_) => if acks then [T.R(F.Syn), T.Local(T.DoAccept)] else [T.R(F.Syn)]
    case DtfEnd => [T.R(F.DtfEnd)]
    case _ => []
  }

  lemma ReceiverTakes(write: bool, e: T.Event)
    requires T.IsDataEvent(e) || e == T.R(F.Syn) || e == T.Local(T.DoAccept)
    ensures T.Apply(ReceiverMachine(write, Receiving), e) == T.Next(ReceiverMachine(write, Receiving))
  {
    if T.IsDataEvent(e) {
      T.DataOnlyWhenReceiving(ReceiverMachine(write, Receiving), e);
    }
  }

  lemma ReceiverEnds(write: bool)
    ensures T.Apply(ReceiverMachine(write, Receiving), T.R(F.DtfEnd)) == T.Next(ReceiverMachine(write, Completed))
  {
  }

  lemma ReceiverResyncs(write: bool)
    ensures T.Apply(ReceiverMachine(write, Receiving), T.Local(T.DoResync)) == T.Next(ReceiverMachine(write, AwaitAck))
    ensures T.Apply(ReceiverMachine(write, AwaitAck), T.R(F.AckResyn)) == T.Next(ReceiverMachine(write, Receiving))
  {
  }

  /** Every unit the receiving loop takes is accepted by its automaton, and so are the request after damage and
      the answer to it. */
  lemma {:induction false} ReceiverTable(write: bool, p: Pdu, acks: bool)
    requires p.Data? ==> p.f.kind.IsData()
    requires p.Data? || p.Syn? || p.DtfEnd?
    ensures Through(ReceiverMachine(write, Receiving), ReceiverEvents(p, acks))
         == Some(ReceiverMachine(write, if p.DtfEnd? then Completed else Receiving))
    ensures Through(ReceiverMachine(write, Receiving), [T.Local(T.DoResync)]) == Some(ReceiverMachine(write, AwaitAck))
    ensures Through(ReceiverMachine(write, AwaitAck), [T.R(F.AckResyn)]) == Some(ReceiverMachine(write, Receiving))
  {
    hide T.Apply, ReceiverMachine;
    var s := ReceiverMachine(write, Receiving);
    ReceiverResyncs(write);
    ThroughOne(s, T.Local(T.DoResync));
    ThroughOne(ReceiverMachine(write, AwaitAck), T.R(F.AckResyn));
    match p {
      case Data(f) =>
        ReceiverTakes(write, T.R(f.kind));
        ThroughOne(s, T.R(f.kind));
      case Syn(_) =>
        ReceiverTakes(write, T.R(F.Syn));
        ReceiverTakes(write, T.Local(T.DoAccept));
        ThroughTwo(s, T.R(F.Syn), s, T.Local(T.DoAccept));
        ThroughOne(s, T.Local(T.DoAccept));
        ThroughOne(s, T.R(F.Syn));
      case DtfEnd =>
        ReceiverEnds(write);
        ThroughOne(s, T.R(F.DtfEnd));
    }
  }
}
