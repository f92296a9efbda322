/** The protocol automaton: one table from state and event to outcome, and what it keeps over every
    sequence of events. Requests and FPDUs are events; an event is refused, ignored, or leads to
    the next state. */
module StateTable {
  import opened Bytes
  import opened Fpdu

  datatype State =
    | Cn01 | Cn02A | Cn02B | Cn03 | Cn04A | Cn04B
    | Sf01A | Sf01B | Sf02A | Sf02B | Sf03 | Sf04A | Sf04B
    | Of01A | Of01B | Of02 | Of03A | Of03B
    | Tde01A | Tde02A | Tde03A | Tde04A | Tde05A | Tde06A | Tde07A | Tde08A
    | Tde01B | Tde02B | Tde03B | Tde04B | Tde05B | Tde06B | Tde07B | Tde08B
    | Tdl01A | Tdl02A | Tdl03A | Tdl04A | Tdl05A | Tdl06A | Tdl07A | Tdl08A
    | Tdl01B | Tdl02B | Tdl03B | Tdl04B | Tdl05B | Tdl06B | Tdl07B | Tdl08B
    | Mg01A | Mg01B | Mg04A | Mg04B

  /** Requests and responses of the local side. */
  datatype Request =
    | DoAbort | DoConnect | DoRelease | DoCreate | DoSelect | DoDeselect | DoOpen | DoClose
    | DoWrite | DoRead | DoMessage | DoCancel | DoSendData | DoSync | DoDataEnd | DoTransferEnd
    | DoResync | DoAccept | DoReject

  datatype Event = Received(kind: FpduKind, negative: bool) | Local(request: Request)

  datatype Outcome = Next(state: State) | Ignore | Refuse

  function R(k: FpduKind): Event { Received(k, false) }

  function N(k: FpduKind): Event { Received(k, true) }

  predicate IsAbort(e: Event) { e == Local(DoAbort) || (e.Received? && e.kind == Abort) }

  predicate IsDataEvent(e: Event) { e.Received? && e.kind.IsData() }

  // ---- the table ----

  function ApplyConnection(s: State, e: Event): Outcome
  {
    match s
    case Cn01 => if e == Local(DoConnect) then Next(Cn02A) else if e == R(Connect) then Next(Cn02B) else Refuse
    case Cn02A =>
      if e == R(Aconnect) then Next(Cn03)
      else if e == R(Rconnect) || e == N(Rconnect) || e == N(Aconnect) then Next(Cn01)
      else Refuse
    case Cn02B => if e == Local(DoAccept) then Next(Cn03) else if e == Local(DoReject) then Next(Cn01) else Refuse
    case Cn03 =>
      if e == Local(DoRelease) then Next(Cn04A)
      else if e == R(Release) then Next(Cn04B)
      else if e == Local(DoSelect) then Next(Sf02A)
      else if e == Local(DoCreate) then Next(Sf01A)
      else if e == R(Select) then Next(Sf02B)
      else if e == R(Create) then Next(Sf01B)
      else if e == Local(DoMessage) then Next(Mg01A)
      else if e == R(Msg) then Next(Mg04B)
      else if e == R(MsgDm) then Next(Mg01B)
      else Refuse
    case Cn04A => if e == R(Relconf) then Next(Cn01) else Refuse
    case Cn04B => if e == Local(DoAccept) || e == Local(DoReject) then Next(Cn01) else Refuse
    case _ => Refuse
  }

  function ApplySelection(s: State, e: Event): Outcome
  {
    match s
    case Sf01A => if e == R(AckCreate) then Next(Sf03) else if e == N(AckCreate) then Next(Cn03) else Refuse
    case Sf02A => if e == R(AckSelect) then Next(Sf03) else if e == N(AckSelect) then Next(Cn03) else Refuse
    case Sf01B | Sf02B =>
      if e == Local(DoAccept) then Next(Sf03) else if e == Local(DoReject) then Next(Cn03) else Refuse
    case Sf03 =>
      if e == Local(DoDeselect) then Next(Sf04A)
      else if e == R(Deselect) then Next(Sf04B)
      else if e == Local(DoOpen) then Next(Of01A)
      else if e == R(Orf) then Next(Of01B)
      else Refuse
    case Sf04A => if e == R(AckDeselect) || e == N(AckDeselect) then Next(Cn03) else Refuse
    case Sf04B => if e == Local(DoAccept) || e == Local(DoReject) then Next(Cn03) else Refuse
    case _ => Refuse
  }

  function ApplyOpen(s: State, e: Event): Outcome
  {
    match s
    case Of01A => if e == R(AckOrf) then Next(Of02) else if e == N(AckOrf) then Next(Sf03) else Refuse
    case Of01B => if e == Local(DoAccept) then Next(Of02) else if e == Local(DoReject) then Next(Sf03) else Refuse
    case Of02 =>
      if e == Local(DoClose) then Next(Of03A)
      else if e == R(Crf) then Next(Of03B)
      else if e == Local(DoWrite) then Next(Tde01A)
      else if e == R(Write) then Next(Tde01B)
      else if e == Local(DoRead) then Next(Tdl01A)
      else if e == R(Read) then Next(Tdl01B)
      else Refuse
    case Of03A => if e == R(AckCrf) || e == N(AckCrf) then Next(Sf03) else Refuse
    case Of03B => if e == Local(DoAccept) || e == Local(DoReject) then Next(Sf03) else Refuse
    case Tde01A => if e == R(AckWrite) then Next(Tde02A) else if e == N(AckWrite) then Next(Of02) else Refuse
    case Tde01B => if e == Local(DoAccept) then Next(Tde02B) else if e == Local(DoReject) then Next(Of02) else Refuse
    case Tdl01A => if e == R(AckRead) then Next(Tdl02A) else if e == N(AckRead) then Next(Of02) else Refuse
    case Tdl01B => if e == Local(DoAccept) then Next(Tdl02B) else if e == Local(DoReject) then Next(Of02) else Refuse
    case _ => Refuse
  }

  /** The states of one side of a transfer, in the roles the table gives them. */
  datatype Side = Side(data: State, resyncSent: State, resyncRcvd: State, idtSent: State, idtRcvd: State,
                       end: State, last: State)

  function SideOf(s: State): Side
  {
    match s
    case Tde02A | Tde03A | Tde04A | Tde05A | Tde06A | Tde07A | Tde08A =>
      Side(Tde02A, Tde03A, Tde04A, Tde05A, Tde06A, Tde07A, Tde08A)
    case Tdl02B | Tdl03B | Tdl04B | Tdl05B | Tdl06B | Tdl07B | Tdl08B =>
      Side(Tdl02B, Tdl03B, Tdl04B, Tdl05B, Tdl06B, Tdl07B, Tdl08B)
    case Tde02B | Tde03B | Tde04B | Tde05B | Tde06B | Tde07B | Tde08B =>
      Side(Tde02B, Tde03B, Tde04B, Tde05B, Tde06B, Tde07B, Tde08B)
    case _ => Side(Tdl02A, Tdl03A, Tdl04A, Tdl05A, Tdl06A, Tdl07A, Tdl08A)
  }

  predicate InData(s: State) { s.Tde02A? || s.Tde02B? || s.Tdl02A? || s.Tdl02B? }

  predicate InResyncing(s: State) { s.Tde03A? || s.Tde03B? || s.Tdl03A? || s.Tdl03B? }

  predicate InResynced(s: State) { s.Tde04A? || s.Tde04B? || s.Tdl04A? || s.Tdl04B? }

  predicate InEnd(s: State) {
    s.Tde07A? || s.Tde07B? || s.Tdl07A? || s.Tdl07B? || s.Tde08A? || s.Tde08B? || s.Tdl08A? || s.Tdl08B?
  }

  function ApplySendingData(s: State, e: Event): Outcome
  {
    var t := SideOf(s);
    match s
    case Tde02A | Tdl02B =>
      if e == Local(DoSendData) || e == Local(DoSync) || e == R(AckSyn) then Next(s)
      else if e == Local(DoDataEnd) then Next(t.end)
      else if e == Local(DoResync) then Next(t.resyncSent)
      else if e == R(Resyn) then Next(t.resyncRcvd)
      else if e == Local(DoCancel) then Next(t.idtSent)
      else if e == R(Idt) then Next(t.idtRcvd)
      else Refuse
    case _ => Refuse
  }

  function ApplySendingResyncing(s: State, e: Event): Outcome
  {
    var t := SideOf(s);
    match s
    case Tde03A | Tdl03B =>
      if e == R(AckResyn) then Next(t.data)
      else if e == R(AckSyn) || e == R(AckTransEnd) then Ignore
      else if e == R(Resyn) then Next(t.resyncRcvd)
      else if e == Local(DoCancel) then Next(t.idtSent)
      else if e == R(Idt) then Next(t.idtRcvd)
      else Refuse
    case _ => Refuse
  }

  function ApplySendingResynced(s: State, e: Event): Outcome
  {
    var t := SideOf(s);
    match s
    case Tde04A | Tdl04B =>
      if e == Local(DoAccept) then Next(t.data)
      else if e == Local(DoResync) then Next(t.resyncSent)
      else if e == Local(DoDataEnd) || e == Local(DoSendData) || e == Local(DoSync) || e == Local(DoTransferEnd) then
        Ignore
      else if e == R(AckSyn) then Ignore
      else if e == Local(DoCancel) then Next(t.idtSent)
      else if e == R(Idt) then Next(t.idtRcvd)
      else Refuse
    case _ => Refuse
  }

  function ApplySendingEnd(s: State, e: Event): Outcome
  {
    match s
    case Tde07A =>
      if e == Local(DoTransferEnd) then Next(Tde08A)
      else if e == R(AckSyn) then Next(Tde07A)
      else if e == R(Resyn) then Next(Tde04A)
      else if e == Local(DoCancel) then Next(Tde05A)
      else if e == R(Idt) then Next(Tde06A)
      else Refuse
    case Tde08A =>
      if e == R(AckTransEnd) || e == N(AckTransEnd) then Next(Of02)
      else if e == R(AckSyn) then Ignore
      else if e == R(Resyn) then Next(Tde04A)
      else if e == Local(DoCancel) then Next(Tde05A)
      else if e == R(Idt) then Next(Tde06A)
      else Refuse
    case Tdl07B =>
      if e == R(TransEnd) then Next(Tdl08B)
      else if e == R(AckSyn) then Ignore
      else if e == R(Resyn) then Next(Tdl04B)
      else if e == Local(DoCancel) then Next(Tdl05B)
      else if e == R(Idt) then Next(Tdl06B)
      else Refuse
    case Tdl08B =>
      if e == Local(DoAccept) || e == Local(DoReject) then Next(Of02)
      else if e == Local(DoResync) then Next(Tdl03B)
      else if e == R(AckSyn) then Ignore
      else Refuse
    case _ => Refuse
  }

  /** Writing at the requester, reading at the server. */
  function ApplySending(s: State, e: Event): Outcome
  {
    if InData(s) then ApplySendingData(s, e)
    else if InResyncing(s) then ApplySendingResyncing(s, e)
    else if InResynced(s) then ApplySendingResynced(s, e)
    else if InEnd(s) then ApplySendingEnd(s, e)
    else ApplyInterrupted(s, e)
  }

  function ApplyReceivingData(s: State, e: Event): Outcome
  {
    var t := SideOf(s);
    match s
    case Tde02B | Tdl02A =>
      if IsDataEvent(e) then Next(s)
      else if e == R(Syn) || e == Local(DoAccept) then Next(s)
      else if e == R(DtfEnd) then Next(t.end)
      else if e == Local(DoResync) then Next(t.resyncSent)
      else if e == R(Resyn) then Next(t.resyncRcvd)
      else if e == Local(DoCancel) then Next(t.idtSent)
      else if e == R(Idt) then Next(t.idtRcvd)
      else Refuse
    case _ => Refuse
  }

  function ApplyReceivingResyncing(s: State, e: Event): Outcome
  {
    var t := SideOf(s);
    match s
    case Tde03B | Tdl03A =>
      if e == R(AckResyn) then Next(t.data)
      else if IsDataEvent(e) then Ignore
      else if e == R(Syn) || e == R(DtfEnd) || e == R(TransEnd) then Ignore
      else if e == R(Resyn) then Next(t.resyncRcvd)
      else if e == Local(DoCancel) then Next(t.idtSent)
      else if e == R(Idt) then Next(t.idtRcvd)
      else Refuse
    case _ => Refuse
  }

  function ApplyReceivingResynced(s: State, e: Event): Outcome
  {
    var t := SideOf(s);
    match s
    case Tde04B | Tdl04A =>
      if e == Local(DoAccept) then Next(t.data)
      else if e == Local(DoResync) then Next(t.resyncSent)
      else if e == Local(DoSync) then Ignore
      else if e == Local(DoCancel) then Next(t.idtSent)
      else if e == R(Idt) then Next(t.idtRcvd)
      else Refuse
    case _ => Refuse
  }

  function ApplyReceivingEnd(s: State, e: Event): Outcome
  {
    match s
    case Tde07B =>
      if e == R(TransEnd) then Next(Tde08B)
      else if e == Local(DoAccept) then Next(Tde07B)
      else if e == Local(DoResync) then Next(Tde03B)
      else if e == Local(DoCancel) then Next(Tde05B)
      else if e == R(Idt) then Next(Tde06B)
      else Refuse
    case Tde08B =>
      if e == Local(DoAccept) || e == Local(DoReject) then Next(Of02)
      else if e == Local(DoResync) then Next(Tde03B)
      else Refuse
    case Tdl07A =>
      if e == Local(DoTransferEnd) then Next(Tdl08A)
      else if e == Local(DoAccept) then Next(Tdl07A)
      else if e == Local(DoResync) then Next(Tdl03A)
      else if e == Local(DoCancel) then Next(Tdl05A)
      else if e == R(Idt) then Next(Tdl06A)
      else Refuse
    case Tdl08A =>
      if e == R(AckTransEnd) || e == N(AckTransEnd) then Next(Of02)
      else if e == Local(DoCancel) then Next(Tdl05A)
      else if e == R(Idt) then Next(Tdl06A)
      else Refuse
    case _ => Refuse
  }

  /** Writing at the server, reading at the requester. */
  function ApplyReceiving(s: State, e: Event): Outcome
  {
    if InData(s) then ApplyReceivingData(s, e)
    else if InResyncing(s) then ApplyReceivingResyncing(s, e)
    else if InResynced(s) then ApplyReceivingResynced(s, e)
    else if InEnd(s) then ApplyReceivingEnd(s, e)
    else ApplyInterrupted(s, e)
  }

  function ApplyInterrupted(s: State, e: Event): Outcome
  {
    match s
    case Tde05A | Tde05B | Tdl05A | Tdl05B =>
      if e == R(AckIdt) then Next(Of02)
      else if e == R(Idt) then Next(SideOf(s).idtRcvd)
      else if e.Received? then Ignore else Refuse
    case Tde06A | Tde06B | Tdl06A | Tdl06B =>
      if e == Local(DoAccept) then Next(Of02) else if e.Received? then Ignore else Refuse
    case _ => Refuse
  }

  function ApplyMessage(s: State, e: Event): Outcome
  {
    match s
    case Mg01A =>
      if e == Local(DoSendData) then Next(Mg01A)
      else if e == Local(DoDataEnd) then Next(Mg04A)
      else if e == R(AckMsg) || e == N(AckMsg) then Next(Cn03)
      else Refuse
    case Mg04A => if e == R(AckMsg) || e == N(AckMsg) then Next(Cn03) else Refuse
    case Mg01B => if e == R(MsgMm) then Next(Mg01B) else if e == R(MsgFm) then Next(Mg04B) else Refuse
    case Mg04B => if e == Local(DoAccept) || e == Local(DoReject) then Next(Cn03) else Refuse
    case _ => Refuse
  }

  predicate InConnection(s: State) { s.Cn01? || s.Cn02A? || s.Cn02B? || s.Cn03? || s.Cn04A? || s.Cn04B? }

  predicate InMessage(s: State) { s.Mg01A? || s.Mg01B? || s.Mg04A? || s.Mg04B? }

  predicate InSelection(s: State) {
    s.Sf01A? || s.Sf01B? || s.Sf02A? || s.Sf02B? || s.Sf03? || s.Sf04A? || s.Sf04B?
  }

  function Apply(s: State, e: Event): Outcome
  {
    if IsAbort(e) then Next(Cn01)
    else if InConnection(s) then ApplyConnection(s, e)
    else if InMessage(s) then ApplyMessage(s, e)
    else if InSelection(s) then ApplySelection(s, e)
    else if Layer(s) < 4 then ApplyOpen(s, e)
    else if Sends(FamilyOf(s)) then ApplySending(s, e)
    else ApplyReceiving(s, e)
  }

  /** The table under a name a method of the same name does not hide. */
  function OutcomeOf(s: State, e: Event): Outcome { Apply(s, e) }

  class Machine {
    var state: State

    constructor ()
      ensures state == Cn01
    {
      state := Cn01;
    }

    /** Whether the event was ignored; an event the table refuses changes nothing. */
    method Apply(e: Event) returns (r: Result<bool, (State, Event)>)
      modifies this
      ensures match OutcomeOf(old(state), e)
        case Next(s) => r == Ok(false) && state == s
        case Ignore => r == Ok(true) && state == old(state)
        case Refuse => r == Err((state, e)) && state == old(state)
    {
      match OutcomeOf(state, e)
      case Next(s) =>
        state := s;
        return Ok(false);
      case Ignore => return Ok(true);
      case Refuse => return Err((state, e));
    }

    method Reset()
      modifies this
      ensures state == Cn01
    {
      state := Cn01;
    }
  }

  // ---- nesting ----

  /** How many of connection, selection, open file and transfer are open. */
  function Layer(s: State): nat
  {
    match s
    case Cn01 | Cn02A | Cn02B => 0
    case Cn03 | Cn04A | Cn04B | Sf01A | Sf01B | Sf02A | Sf02B | Mg01A | Mg01B | Mg04A | Mg04B => 1
    case Sf03 | Sf04A | Sf04B | Of01A | Of01B => 2
    case Of02 | Of03A | Of03B | Tde01A | Tde01B | Tdl01A | Tdl01B => 3
    case _ => 4
  }

  /** The states a layer is entered by, from below or from above. */
  predicate Plateau(s: State)
  {
    s.Cn01? || s.Cn03? || s.Sf03? || s.Of02? || InData(s)
  }

  /** Side and direction of a transfer. */
  datatype Family = NoTransfer | TdeA | TdeB | TdlA | TdlB

  function FamilyOf(s: State): Family
  {
    match s
    case Tde01A | Tde02A | Tde03A | Tde04A | Tde05A | Tde06A | Tde07A | Tde08A => TdeA
    case Tde01B | Tde02B | Tde03B | Tde04B | Tde05B | Tde06B | Tde07B | Tde08B => TdeB
    case Tdl01A | Tdl02A | Tdl03A | Tdl04A | Tdl05A | Tdl06A | Tdl07A | Tdl08A => TdlA
    case Tdl01B | Tdl02B | Tdl03B | Tdl04B | Tdl05B | Tdl06B | Tdl07B | Tdl08B => TdlB
    case _ => NoTransfer
  }

  predicate Sends(f: Family) { f == TdeA || f == TdlB }

  /** A move of one layer at most, through a plateau, that keeps the family of a transfer or ends it. */
  predicate Orderly(s: State, t: State)
  {
    && Layer(s) - 1 <= Layer(t) <= Layer(s) + 1
    && (Layer(t) != Layer(s) ==> Plateau(t))
    && (FamilyOf(s) != NoTransfer ==> FamilyOf(t) == FamilyOf(s) || t == Of02)
  }

  lemma ConnectionStep(s: State, e: Event)
    requires InConnection(s)
    ensures ApplyConnection(s, e).Next? ==> Orderly(s, ApplyConnection(s, e).state) && !IsDataEvent(e)
  {
  }

  lemma MessageStep(s: State, e: Event)
    requires InMessage(s)
    ensures ApplyMessage(s, e).Next? ==> Orderly(s, ApplyMessage(s, e).state) && !IsDataEvent(e)
  {
  }

  lemma SelectionStep(s: State, e: Event)
    requires InSelection(s)
    ensures ApplySelection(s, e).Next? ==> Orderly(s, ApplySelection(s, e).state)
    ensures IsDataEvent(e) ==> ApplySelection(s, e) == Refuse
  {
  }

  lemma OpenStep(s: State, e: Event)
    requires Layer(s) == 3 || s.Of01A? || s.Of01B?
    ensures ApplyOpen(s, e).Next? ==> Orderly(s, ApplyOpen(s, e).state)
    ensures IsDataEvent(e) ==> ApplyOpen(s, e) == Refuse
  {
  }

  /** An interruption is pending on one side or the other. */
  predicate Interrupting(s: State) {
    s.Tde05A? || s.Tde05B? || s.Tdl05A? || s.Tdl05B? || s.Tde06A? || s.Tde06B? || s.Tdl06A? || s.Tdl06B?
  }

  lemma InterruptedStep(s: State, e: Event)
    requires Layer(s) == 4
    ensures ApplyInterrupted(s, e).Next? ==> Orderly(s, ApplyInterrupted(s, e).state)
    ensures IsDataEvent(e) ==>
      ApplyInterrupted(s, e) == if Interrupting(s) then Ignore else Refuse
  {
  }

  lemma SendingDataStep(s: State, e: Event)
    requires InData(s) && Sends(FamilyOf(s))
    ensures ApplySendingData(s, e).Next? ==> Orderly(s, ApplySendingData(s, e).state)
    ensures IsDataEvent(e) ==> ApplySendingData(s, e) == Refuse
  {
  }

  lemma SendingResyncingMoves(s: State, e: Event)
    requires InResyncing(s) && Sends(FamilyOf(s))
    ensures ApplySendingResyncing(s, e).Next? ==> Orderly(s, ApplySendingResyncing(s, e).state)
  {
    hide IsDataEvent;
  }

  lemma SendingResyncingData(s: State, e: Event)
    requires InResyncing(s) && Sends(FamilyOf(s))
    ensures IsDataEvent(e) ==> ApplySendingResyncing(s, e) == Refuse
  {
  }

  lemma SendingResyncingStep(s: State, e: Event)
    requires InResyncing(s) && Sends(FamilyOf(s))
    ensures ApplySendingResyncing(s, e).Next? ==> Orderly(s, ApplySendingResyncing(s, e).state)
    ensures IsDataEvent(e) ==> ApplySendingResyncing(s, e) == Refuse
  {
    hide ApplySendingResyncing, Orderly, IsDataEvent;
    SendingResyncingMoves(s, e);
    SendingResyncingData(s, e);
  }

  lemma SendingResyncedStep(s: State, e: Event)
    requires InResynced(s) && Sends(FamilyOf(s))
    ensures ApplySendingResynced(s, e).Next? ==> Orderly(s, ApplySendingResynced(s, e).state)
    ensures IsDataEvent(e) ==> ApplySendingResynced(s, e) == Refuse
  {
  }

  lemma SendingEndStep(s: State, e: Event)
    requires InEnd(s) && Sends(FamilyOf(s))
    ensures ApplySendingEnd(s, e).Next? ==> Orderly(s, ApplySendingEnd(s, e).state)
    ensures IsDataEvent(e) ==> ApplySendingEnd(s, e) == Refuse
  {
  }

  lemma ReceivingDataStep(s: State, e: Event)
    requires InData(s) && !Sends(FamilyOf(s))
    ensures ApplyReceivingData(s, e).Next? ==> Orderly(s, ApplyReceivingData(s, e).state)
    ensures IsDataEvent(e) ==> ApplyReceivingData(s, e) == Next(s)
  {
  }

  lemma ReceivingResyncingMoves(s: State, e: Event)
    requires InResyncing(s) && !Sends(FamilyOf(s))
    ensures ApplyReceivingResyncing(s, e).Next? ==> Orderly(s, ApplyReceivingResyncing(s, e).state)
  {
    hide IsDataEvent;
  }

  lemma ReceivingResyncingData(s: State, e: Event)
    requires InResyncing(s) && !Sends(FamilyOf(s))
    ensures IsDataEvent(e) ==> !ApplyReceivingResyncing(s, e).Next?
  {
  }

  lemma ReceivingResyncingStep(s: State, e: Event)
    requires InResyncing(s) && !Sends(FamilyOf(s))
    ensures ApplyReceivingResyncing(s, e).Next? ==> Orderly(s, ApplyReceivingResyncing(s, e).state)
    ensures IsDataEvent(e) ==> !ApplyReceivingResyncing(s, e).Next?
  {
    hide ApplyReceivingResyncing, Orderly, IsDataEvent;
    ReceivingResyncingMoves(s, e);
    ReceivingResyncingData(s, e);
  }

  lemma ReceivingResyncedStep(s: State, e: Event)
    requires InResynced(s) && !Sends(FamilyOf(s))
    ensures ApplyReceivingResynced(s, e).Next? ==> Orderly(s, ApplyReceivingResynced(s, e).state)
    ensures IsDataEvent(e) ==> !ApplyReceivingResynced(s, e).Next?
  {
  }

  lemma ReceivingEndStep(s: State, e: Event)
    requires InEnd(s) && !Sends(FamilyOf(s))
    ensures ApplyReceivingEnd(s, e).Next? ==> Orderly(s, ApplyReceivingEnd(s, e).state)
    ensures IsDataEvent(e) ==> ApplyReceivingEnd(s, e) == Refuse
  {
  }

  lemma SendingStep(s: State, e: Event)
    requires Layer(s) == 4 && Sends(FamilyOf(s))
    ensures ApplySending(s, e).Next? ==> Orderly(s, ApplySending(s, e).state)
    ensures IsDataEvent(e) ==> ApplySending(s, e) == if Interrupting(s) then Ignore else Refuse
  {
    if InData(s) {
      SendingDataStep(s, e);
    } else if InResyncing(s) {
      SendingResyncingStep(s, e);
    } else if InResynced(s) {
      SendingResyncedStep(s, e);
    } else if InEnd(s) {
      SendingEndStep(s, e);
    } else {
      InterruptedStep(s, e);
    }
  }

  lemma ReceivingStep(s: State, e: Event)
    requires Layer(s) == 4 && !Sends(FamilyOf(s))
    ensures ApplyReceiving(s, e).Next? ==> Orderly(s, ApplyReceiving(s, e).state)
    ensures IsDataEvent(e) && ApplyReceiving(s, e).Next? ==> ApplyReceiving(s, e).state == s
    ensures IsDataEvent(e) ==> (ApplyReceiving(s, e).Next? <==> InData(s))
  {
    if InData(s) {
      ReceivingDataStep(s, e);
    } else if InResyncing(s) {
      ReceivingResyncingStep(s, e);
    } else if InResynced(s) {
      ReceivingResyncedStep(s, e);
    } else if InEnd(s) {
      ReceivingEndStep(s, e);
    } else {
      InterruptedStep(s, e);
    }
  }

  /** One event opens or closes at most one layer, through its plateau, and never changes side or
      direction inside a transfer; ABORT alone skips layers. */
  lemma {:induction false} OneLayerAtATime(s: State, e: Event)
    requires Apply(s, e).Next? && !IsAbort(e)
    ensures Orderly(s, Apply(s, e).state)
  {
    if InConnection(s) {
      ConnectionStep(s, e);
    } else if InMessage(s) {
      MessageStep(s, e);
    } else if InSelection(s) {
      SelectionStep(s, e);
    } else if Layer(s) < 4 {
      OpenStep(s, e);
    } else if Sends(FamilyOf(s)) {
      SendingStep(s, e);
    } else {
      ReceivingStep(s, e);
    }
  }

  /** The states a machine goes through; a refused event leaves it where it is, as an ignored one does. */
  function After(s: State, e: Event): State
  {
    match Apply(s, e)
    case Next(t) => t
    case _ => s
  }

  /** The state after each event of a trace, the initial one first. */
  function Visited(s: State, trace: seq<Event>): (r: seq<State>)
    ensures |r| == |trace| + 1 && r[0] == s
    decreases |trace|
  {
    if trace == [] then [s] else [s] + Visited(After(s, trace[0]), trace[1..])
  }

  lemma {:induction false} VisitedStep(s: State, trace: seq<Event>, i: nat)
    requires i < |trace|
    ensures Visited(s, trace)[i + 1] == After(Visited(s, trace)[i], trace[i])
    decreases i
  {
    if i > 0 {
      VisitedStep(After(s, trace[0]), trace[1..], i - 1);
    }
  }

  lemma EventKeepsOrder(s: State, e: Event)
    requires !IsAbort(e)
    ensures Orderly(s, After(s, e))
  {
    if Apply(s, e).Next? {
      OneLayerAtATime(s, e);
    }
  }

  lemma {:induction false} PlateauPassed(v: seq<State>, i: nat, j: nat, layer: nat) returns (p: nat)
    requires i < j < |v|
    requires forall k :: i <= k < j ==> Orderly(v[k], v[k + 1])
    requires Layer(v[i]) < layer <= Layer(v[j]) || Layer(v[j]) <= layer < Layer(v[i])
    ensures i < p <= j && Plateau(v[p]) && Layer(v[p]) == layer
    decreases j - i
  {
    assert Orderly(v[i], v[i + 1]);
    if Layer(v[i + 1]) == layer && Layer(v[i]) != layer {
      p := i + 1;
    } else {
      p := PlateauPassed(v, i + 1, j, layer);
    }
  }

  /** No layer is reached without passing, one by one, the plateau of every layer below it, and none
      is left but the same way, unless ABORT intervenes. */
  lemma Nesting(s: State, trace: seq<Event>, i: nat, j: nat, layer: nat) returns (p: nat)
    requires i < j <= |trace|
    requires forall k :: i <= k < j ==> !IsAbort(trace[k])
    requires var v := Visited(s, trace);
      Layer(v[i]) < layer <= Layer(v[j]) || Layer(v[j]) <= layer < Layer(v[i])
    ensures i < p <= j && Plateau(Visited(s, trace)[p]) && Layer(Visited(s, trace)[p]) == layer
  {
    var v := Visited(s, trace);
    forall k | i <= k < j ensures Orderly(v[k], v[k + 1]) {
      VisitedStep(s, trace, k);
      EventKeepsOrder(v[k], trace[k]);
    }
    p := PlateauPassed(v, i, j, layer);
  }

  // ---- families ----

  lemma {:induction false} FamilyBroken(v: seq<State>, i: nat, j: nat) returns (p: nat)
    requires i < j < |v|
    requires FamilyOf(v[i]) != NoTransfer && FamilyOf(v[j]) != NoTransfer && FamilyOf(v[i]) != FamilyOf(v[j])
    ensures i < p <= j && FamilyOf(v[p]) != FamilyOf(v[p - 1]) == FamilyOf(v[i])
    decreases j - i
  {
    if FamilyOf(v[i + 1]) == FamilyOf(v[i]) {
      p := FamilyBroken(v, i + 1, j);
    } else {
      p := i + 1;
    }
  }

  /** Within a transfer the side and the direction never change: two different families are separated
      by OF02 or by an ABORT. */
  lemma FamilyKept(s: State, trace: seq<Event>, i: nat, j: nat) returns (p: nat)
    requires i < j <= |trace|
    requires var v := Visited(s, trace);
      FamilyOf(v[i]) != NoTransfer && FamilyOf(v[j]) != NoTransfer && FamilyOf(v[i]) != FamilyOf(v[j])
    ensures i < p <= j && (Visited(s, trace)[p] == Of02 || IsAbort(trace[p - 1]))
  {
    var v := Visited(s, trace);
    p := FamilyBroken(v, i, j);
    VisitedStep(s, trace, p - 1);
    if !IsAbort(trace[p - 1]) {
      EventKeepsOrder(v[p - 1], trace[p - 1]);
    }
  }

  /** A sending side never takes data: it refuses it, or drops it while an interruption is pending. */
  lemma {:induction false} SenderTakesNoData(s: State, e: Event)
    requires Sends(FamilyOf(s)) && IsDataEvent(e)
    ensures Apply(s, e) == if Interrupting(s) then Ignore else Refuse
  {
    hide ApplyConnection, ApplyMessage, ApplySelection, ApplyOpen, ApplySending, ApplyReceiving;
    if Layer(s) == 4 {
      SendingStep(s, e);
    } else {
      OpenStep(s, e);
    }
  }

  /** Data moves a machine only while it receives, and leaves it there. */
  lemma {:induction false} DataOnlyWhenReceiving(s: State, e: Event)
    requires IsDataEvent(e)
    ensures Apply(s, e).Next? <==> s == Tde02B || s == Tdl02A
    ensures Apply(s, e).Next? ==> Apply(s, e).state == s
  {
    hide ApplyConnection, ApplyMessage, ApplySelection, ApplyOpen, ApplySending, ApplyReceiving;
    if InConnection(s) {
      ConnectionStep(s, e);
    } else if InMessage(s) {
      MessageStep(s, e);
    } else if InSelection(s) {
      SelectionStep(s, e);
    } else if Layer(s) < 4 {
      OpenStep(s, e);
    } else if Sends(FamilyOf(s)) {
      SendingStep(s, e);
    } else {
      ReceivingStep(s, e);
    }
  }

  lemma SendingState(s: State)
    requires FamilyOf(s) != NoTransfer && Apply(s, Local(DoSendData)).Next?
    ensures Sends(FamilyOf(s))
  {
    if Layer(s) == 4 && !Sends(FamilyOf(s)) {
      NoSendWhenReceiving(s);
    }
  }

  lemma NoSendWhenReceiving(s: State)
    requires Layer(s) == 4 && !Sends(FamilyOf(s))
    ensures !ApplyReceiving(s, Local(DoSendData)).Next?
  {
  }

  /** Whatever came before, a transfer in progress carries one direction: once a machine has sent data,
      it takes none before OF02 or an ABORT. */
  lemma {:induction false} NoDataAfterSending(s: State, trace: seq<Event>, i: nat, j: nat) returns (p: nat)
    requires i < j < |trace|
    requires trace[i] == Local(DoSendData) && FamilyOf(Visited(s, trace)[i]) != NoTransfer
    requires Apply(Visited(s, trace)[i], trace[i]).Next?
    requires IsDataEvent(trace[j]) && Apply(Visited(s, trace)[j], trace[j]).Next?
    ensures i < p <= j && (Visited(s, trace)[p] == Of02 || IsAbort(trace[p - 1]))
  {
    hide Apply, Visited, IsAbort;
    var v := Visited(s, trace);
    assert Sends(FamilyOf(v[i])) by {
      SendingState(v[i]);
    }
    assert InData(v[j]) && !Sends(FamilyOf(v[j])) by {
      DataOnlyWhenReceiving(v[j], trace[j]);
    }
    p := FamilyKept(s, trace, i, j);
  }
}
