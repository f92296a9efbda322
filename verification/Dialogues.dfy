/** Exchanges between two automata, from the request to the state both end in; interruptions and their collisions;
    and whole dialogues. */
module Dialogues {
  import opened Bytes
  import opened Fpdu
  import opened StateTable
  import opened StateMirror

  /** Where a trace leads a machine that accepts every event of it. */
  function Followed(s: State, trace: seq<Event>): Option<State>
    decreases |trace|
  {
    if trace == [] then Some(s)
    else
      match Apply(s, trace[0])
      case Next(t) => Followed(t, trace[1..])
      case _ => None
  }

  /** A request, the FPDU it sends, the acknowledgement of that FPDU, and the state each side ends in. */
  predicate Granted(a: State, b: State, q: Request, k: FpduKind, a': State, b': State)
  {
    && k.Ack().Some?
    && Followed(a, [Local(q), R(k.Ack().value)]) == Some(a')
    && Followed(b, [R(k), Local(DoAccept)]) == Some(b')
  }

  /** The same, refused by a diagnostic. */
  predicate Declined(a: State, b: State, q: Request, k: FpduKind, a': State, b': State)
  {
    && k.Ack().Some?
    && Followed(a, [Local(q), N(k.Ack().value)]) == Some(a')
    && Followed(b, [R(k), Local(DoReject)]) == Some(b')
  }

  /** A session opens at both ends, or at neither. */
  lemma ConnectGranted()
    ensures Granted(Cn01, Cn01, DoConnect, Connect, Cn03, Cn03)
  {
    hide ApplyMessage, ApplySelection, ApplyOpen, ApplySending, ApplyReceiving, Layer, FamilyOf;
  }

  lemma ConnectDeclined()
    ensures Declined(Cn01, Cn01, DoConnect, Connect, Cn01, Cn01)
  {
    hide ApplyMessage, ApplySelection, ApplyOpen, ApplySending, ApplyReceiving, Layer, FamilyOf;
  }

  lemma ConnectRefused(negative: bool)
    ensures Followed(Cn01, [Local(DoConnect), Received(Rconnect, negative)]) == Some(Cn01)
  {
    hide ApplyMessage, ApplySelection, ApplyOpen, ApplySending, ApplyReceiving, Layer, FamilyOf;
    if negative {
      assert Received(Rconnect, negative) == N(Rconnect);
      assert Followed(Cn01, [Local(DoConnect), N(Rconnect)]) == Some(Cn01);
    } else {
      assert Received(Rconnect, negative) == R(Rconnect);
      assert Followed(Cn01, [Local(DoConnect), R(Rconnect)]) == Some(Cn01);
    }
  }

  /** It closes at both. */
  lemma ReleaseGranted()
    ensures Granted(Cn03, Cn03, DoRelease, Release, Cn01, Cn01)
  {
    hide ApplyMessage, ApplySelection, ApplyOpen, ApplySending, ApplyReceiving, Layer, FamilyOf;
  }

  /** A file is created or selected, and deselected. */
  lemma CreateGranted()
    ensures Granted(Cn03, Cn03, DoCreate, Create, Sf03, Sf03)
  {
    hide ApplyMessage, ApplyOpen, ApplySending, ApplyReceiving, Layer, FamilyOf;
  }

  lemma CreateDeclined()
    ensures Declined(Cn03, Cn03, DoCreate, Create, Cn03, Cn03)
  {
    hide ApplyMessage, ApplyOpen, ApplySending, ApplyReceiving, Layer, FamilyOf;
  }

  lemma SelectGranted()
    ensures Granted(Cn03, Cn03, DoSelect, Select, Sf03, Sf03)
  {
    hide ApplyMessage, ApplyOpen, ApplySending, ApplyReceiving, Layer, FamilyOf;
  }

  lemma SelectDeclined()
    ensures Declined(Cn03, Cn03, DoSelect, Select, Cn03, Cn03)
  {
    hide ApplyMessage, ApplyOpen, ApplySending, ApplyReceiving, Layer, FamilyOf;
  }

  lemma DeselectGranted()
    ensures Granted(Sf03, Sf03, DoDeselect, Deselect, Cn03, Cn03)
  {
    hide ApplyConnection, ApplyMessage, ApplyOpen, ApplySending, ApplyReceiving, Layer, FamilyOf;
  }

  lemma DeselectDeclined()
    ensures Declined(Sf03, Sf03, DoDeselect, Deselect, Cn03, Cn03)
  {
    hide ApplyConnection, ApplyMessage, ApplyOpen, ApplySending, ApplyReceiving, Layer, FamilyOf;
  }

  /** It is opened and closed. */
  lemma OpenGranted()
    ensures Granted(Sf03, Sf03, DoOpen, Orf, Of02, Of02)
  {
    hide ApplyConnection, ApplyMessage, ApplySending, ApplyReceiving, FamilyOf;
  }

  lemma OpenDeclined()
    ensures Declined(Sf03, Sf03, DoOpen, Orf, Sf03, Sf03)
  {
    hide ApplyConnection, ApplyMessage, ApplySending, ApplyReceiving, FamilyOf;
  }

  lemma CloseGranted()
    ensures Granted(Of02, Of02, DoClose, Crf, Sf03, Sf03)
  {
    hide ApplyConnection, ApplyMessage, ApplySelection, ApplySending, ApplyReceiving, FamilyOf;
  }

  lemma CloseDeclined()
    ensures Declined(Of02, Of02, DoClose, Crf, Sf03, Sf03)
  {
    hide ApplyConnection, ApplyMessage, ApplySelection, ApplySending, ApplyReceiving, FamilyOf;
  }

  /** It is written, the side that asks sending, or read, the other side sending. */
  lemma WriteGranted()
    ensures Granted(Of02, Of02, DoWrite, Write, Tde02A, Tde02B)
  {
    hide ApplyConnection, ApplyMessage, ApplySelection, ApplySending, ApplyReceiving, FamilyOf;
  }

  lemma WriteDeclined()
    ensures Declined(Of02, Of02, DoWrite, Write, Of02, Of02)
  {
    hide ApplyConnection, ApplyMessage, ApplySelection, ApplySending, ApplyReceiving, FamilyOf;
  }

  lemma ReadGranted()
    ensures Granted(Of02, Of02, DoRead, Read, Tdl02A, Tdl02B)
  {
    hide ApplyConnection, ApplyMessage, ApplySelection, ApplySending, ApplyReceiving, FamilyOf;
  }

  lemma ReadDeclined()
    ensures Declined(Of02, Of02, DoRead, Read, Of02, Of02)
  {
    hide ApplyConnection, ApplyMessage, ApplySelection, ApplySending, ApplyReceiving, FamilyOf;
  }


  // ---- interruption ----

  /** A transfer in progress: neither interrupted, nor with TRANS.END already at the server. */
  predicate Cancellable(s: State)
  {
    Layer(s) == 4 && !Interrupting(s) && s != Tde08B && s != Tdl08B
  }

  lemma SendingCancels(s: State, e: Event)
    requires Cancellable(s) && Sends(FamilyOf(s)) && (e == Local(DoCancel) || e == R(Idt))
    ensures Apply(s, e) == Next(if e.Local? then SideOf(s).idtSent else SideOf(s).idtRcvd)
  {
    hide Apply;
    SendingParts(s, e);
    if InData(s) {
    } else if InResyncing(s) {
    } else if InResynced(s) {
    } else {
      assert InEnd(s);
    }
  }

  lemma ReceivingCancels(s: State, e: Event)
    requires Cancellable(s) && !Sends(FamilyOf(s)) && (e == Local(DoCancel) || e == R(Idt))
    ensures Apply(s, e) == Next(if e.Local? then SideOf(s).idtSent else SideOf(s).idtRcvd)
  {
    hide Apply;
    ReceivingParts(s, e);
    if InData(s) {
    } else if InResyncing(s) {
    } else if InResynced(s) {
    } else {
      assert InEnd(s);
    }
  }

  predicate IdtSent(s: State) { s.Tde05A? || s.Tde05B? || s.Tdl05A? || s.Tdl05B? }

  predicate IdtRcvd(s: State) { s.Tde06A? || s.Tde06B? || s.Tdl06A? || s.Tdl06B? }

  lemma SentRows(s: State)
    requires IdtSent(s)
    ensures Apply(s, R(AckIdt)) == Next(Of02) && Apply(s, R(Idt)) == Next(SideOf(s).idtRcvd)
  {
    hide Apply;
    InterruptedParts(s, R(AckIdt));
    InterruptedParts(s, R(Idt));
  }

  lemma RcvdRow(s: State)
    requires IdtRcvd(s)
    ensures Apply(s, Local(DoAccept)) == Next(Of02)
  {
    hide Apply;
    InterruptedParts(s, Local(DoAccept));
  }

  lemma SameSide(s: State)
    requires Cancellable(s)
    ensures var t := SideOf(s); IdtSent(t.idtSent) && IdtRcvd(t.idtRcvd) && SideOf(t.idtSent) == t
  {
  }

  lemma SideInterrupts(s: State)
    requires Cancellable(s)
    ensures var t := SideOf(s);
      && Apply(t.idtSent, R(AckIdt)) == Next(Of02) && Apply(t.idtSent, R(Idt)) == Next(t.idtRcvd)
      && Apply(t.idtRcvd, Local(DoAccept)) == Next(Of02)
  {
    hide Apply, Cancellable, IdtSent, IdtRcvd, SideOf;
    SameSide(s);
    SentRows(SideOf(s).idtSent);
    RcvdRow(SideOf(s).idtRcvd);
  }

  /** Wherever a transfer in progress is interrupted, by a request or by IDT, both sides end with the file open. */
  lemma Cancels(s: State)
    requires Cancellable(s)
    ensures Followed(s, [Local(DoCancel), R(AckIdt)]) == Some(Of02)
    ensures Followed(s, [R(Idt), Local(DoAccept)]) == Some(Of02)
  {
    hide Apply, Followed, SideOf, Cancellable;
    EitherCancels(s);
    SideInterrupts(s);
    TwoEvents(s, Local(DoCancel), R(AckIdt), SideOf(s).idtSent, Of02);
    TwoEvents(s, R(Idt), Local(DoAccept), SideOf(s).idtRcvd, Of02);
  }

  lemma EitherCancels(s: State)
    requires Cancellable(s)
    ensures Apply(s, Local(DoCancel)) == Next(SideOf(s).idtSent) && Apply(s, R(Idt)) == Next(SideOf(s).idtRcvd)
  {
    hide Apply, SideOf;
    if Sends(FamilyOf(s)) {
      SendingCancels(s, Local(DoCancel));
      SendingCancels(s, R(Idt));
    } else {
      ReceivingCancels(s, Local(DoCancel));
      ReceivingCancels(s, R(Idt));
    }
  }

  lemma TwoEvents(s: State, d: Event, e: Event, m: State, t: State)
    requires Apply(s, d) == Next(m) && Apply(m, e) == Next(t)
    ensures Followed(s, [d, e]) == Some(t)
  {
    hide Apply;
    assert [d, e][1..] == [e] && [e][1..] == [];
    assert Followed(t, []) == Some(t);
    assert Followed(m, [e]) == Some(t);
  }

  lemma ThreeEvents(s: State, d: Event, e: Event, f: Event, m: State, n: State, t: State)
    requires Apply(s, d) == Next(m) && Apply(m, e) == Next(n) && Apply(n, f) == Next(t)
    ensures Followed(s, [d, e, f]) == Some(t)
  {
    hide Apply;
    assert [d, e, f][1..] == [e, f];
    TwoEvents(m, e, f, n, t);
  }

  lemma AckIdtSending(s: State)
    requires Layer(s) == 4 && Sends(FamilyOf(s)) && !Interrupting(s)
    ensures Apply(s, R(AckIdt)) == Refuse
  {
    hide Apply;
    SendingParts(s, R(AckIdt));
  }

  lemma AckIdtReceiving(s: State)
    requires Layer(s) == 4 && !Sends(FamilyOf(s)) && !Interrupting(s)
    ensures Apply(s, R(AckIdt)) == Refuse
  {
    hide Apply;
    ReceivingParts(s, R(AckIdt));
  }

  lemma AckIdtBefore(s: State)
    requires InConnection(s) || InMessage(s) || InSelection(s)
    ensures Apply(s, R(AckIdt)) == Refuse
  {
    hide Apply;
    Parts(s, R(AckIdt));
  }

  lemma AckIdtOpen(s: State)
    requires s.Of01A? || s.Of01B? || Layer(s) == 3
    ensures Apply(s, R(AckIdt)) == Refuse
  {
    hide Apply;
    OpenParts(s, R(AckIdt));
  }

  lemma AckIdtInterrupted(s: State)
    requires Interrupting(s)
    ensures Apply(s, R(AckIdt)) != Refuse
  {
    hide Apply;
    InterruptedParts(s, R(AckIdt));
  }

  /** ACK(IDT) is accepted or ignored only while an interruption is pending. */
  lemma {:induction false} AckIdtPending(s: State)
    ensures Apply(s, R(AckIdt)) != Refuse <==> Interrupting(s)
  {
    hide Apply, FamilyOf, Interrupting;
    if Interrupting(s) {
      AckIdtInterrupted(s);
    } else if InConnection(s) || InMessage(s) || InSelection(s) {
      AckIdtBefore(s);
    } else if Layer(s) < 4 {
      AckIdtOpen(s);
    } else if Sends(FamilyOf(s)) {
      AckIdtSending(s);
    } else {
      AckIdtReceiving(s);
    }
  }

  /** When both sides interrupt at once, each answers the other's IDT and ends with the file open; the ACK(IDT) that each
      has sent is then still to come, and the other refuses it, there and wherever the next event leads. */
  lemma CollisionLeavesAcks(s: State, e: Event)
    requires Cancellable(s)
    ensures Followed(s, [Local(DoCancel), R(Idt), Local(DoAccept)]) == Some(Of02)
    ensures Apply(Of02, R(AckIdt)) == Refuse && Apply(After(Of02, e), R(AckIdt)) == Refuse
  {
    hide Apply, Followed, SideOf, Cancellable;
    EitherCancels(s);
    SideInterrupts(s);
    ThreeEvents(s, Local(DoCancel), R(Idt), Local(DoAccept), SideOf(s).idtSent, SideOf(s).idtRcvd, Of02);
    NotYetInterrupted(e);
  }

  lemma NotYetInterrupted(e: Event)
    ensures Apply(Of02, R(AckIdt)) == Refuse && Apply(After(Of02, e), R(AckIdt)) == Refuse
  {
    hide Apply;
    AckIdtPending(Of02);
    AckIdtPending(After(Of02, e));
    AfterOpen(e);
  }

  lemma AfterOpen(e: Event)
    ensures !Interrupting(After(Of02, e))
  {
    hide ApplyConnection, ApplyMessage, ApplySelection, ApplySending, ApplyReceiving, FamilyOf;
  }

  /** What may still be on its way to a side that has interrupted. */
  predicate InFlight(e: Event)
  {
    e.Received? && e.kind != Abort && e.kind != Idt && e != R(AckIdt)
  }

  lemma InterruptSent(s: State, e: Event)
    requires IdtSent(s)
    ensures InFlight(e) ==> Apply(s, e) == Ignore
    ensures Apply(s, R(AckIdt)) == Next(Of02)
  {
    hide Apply;
    if InFlight(e) {
      InterruptedParts(s, e);
    }
    InterruptedParts(s, R(AckIdt));
  }

  /** However much is still on its way, it is dropped, and ACK(IDT) ends the interruption. */
  lemma {:induction false} InterruptionDrains(s: State, flight: seq<Event>, i: nat)
    requires IdtSent(s)
    requires forall e :: e in flight ==> InFlight(e)
    requires i <= |flight|
    ensures var v := Visited(s, flight + [R(AckIdt)]); v[i] == s && v[|flight| + 1] == Of02
    decreases |flight|
  {
    hide Apply, InFlight, IdtSent, Visited;
    var all := flight + [R(AckIdt)];
    InterruptSent(s, all[0]);
    VisitedFirst(s, all);
    if flight == [] {
      assert all[1..] == [];
      VisitedLast(Of02);
    } else {
      assert flight[0] in flight && forall e :: e in flight[1..] ==> e in flight;
      assert all[0] == flight[0] && all[1..] == flight[1..] + [R(AckIdt)];
      InterruptionDrains(s, flight[1..], if i == 0 then 0 else i - 1);
    }
  }

  lemma VisitedFirst(s: State, trace: seq<Event>)
    requires trace != []
    ensures Visited(s, trace) == [s] + Visited(After(s, trace[0]), trace[1..])
  {
    hide After, Apply;
  }

  lemma VisitedLast(s: State)
    ensures Visited(s, []) == [s]
  {
  }

  // ---- data phase ----

  lemma Rows(x: State, y: State, mine: Event, theirs: Event)
    requires DataPair(x, y) && !IsAbort(mine) && !IsAbort(theirs)
    ensures Apply(x, mine) == ApplySendingData(x, mine) && Apply(y, theirs) == ApplyReceivingData(y, theirs)
  {
    hide Apply, ApplySendingData, ApplyReceivingData;
    SendingParts(x, mine);
    ReceivingParts(y, theirs);
  }

  /** Data, points and their acknowledgements leave both sides in the data phase. */
  lemma DataExchanges(x: State, y: State, k: FpduKind)
    requires DataPair(x, y)
    ensures Granted(x, y, DoSync, Syn, x, y)
    ensures k.IsData() ==> Apply(x, Local(DoSendData)) == Next(x) && Apply(y, R(k)) == Next(y)
  {
    hide Apply, Followed;
    Rows(x, y, Local(DoSync), R(Syn));
    Rows(x, y, R(AckSyn), Local(DoAccept));
    if k.IsData() {
      Rows(x, y, Local(DoSendData), R(k));
    }
    TwoEvents(x, Local(DoSync), R(AckSyn), x, x);
    TwoEvents(y, R(Syn), Local(DoAccept), y, y);
  }

  lemma Tde02AAsks()
    ensures Apply(Tde02A, Local(DoResync)) == Next(Tde03A) && Apply(Tde03A, R(AckResyn)) == Next(Tde02A)
  {
    hide ApplyConnection, ApplyMessage, ApplySelection, ApplyOpen, ApplyReceiving, ApplyInterrupted,
      ApplySendingEnd, ApplySendingResynced;
  }

  lemma Tde02AAnswers()
    ensures Apply(Tde02A, R(Resyn)) == Next(Tde04A) && Apply(Tde04A, Local(DoAccept)) == Next(Tde02A)
  {
    hide ApplyConnection, ApplyMessage, ApplySelection, ApplyOpen, ApplyReceiving, ApplyInterrupted,
      ApplySendingEnd, ApplySendingResyncing;
  }

  lemma Tdl02BAsks()
    ensures Apply(Tdl02B, Local(DoResync)) == Next(Tdl03B) && Apply(Tdl03B, R(AckResyn)) == Next(Tdl02B)
  {
    hide ApplyConnection, ApplyMessage, ApplySelection, ApplyOpen, ApplyReceiving, ApplyInterrupted,
      ApplySendingEnd, ApplySendingResynced;
  }

  lemma Tdl02BAnswers()
    ensures Apply(Tdl02B, R(Resyn)) == Next(Tdl04B) && Apply(Tdl04B, Local(DoAccept)) == Next(Tdl02B)
  {
    hide ApplyConnection, ApplyMessage, ApplySelection, ApplyOpen, ApplyReceiving, ApplyInterrupted,
      ApplySendingEnd, ApplySendingResyncing;
  }

  lemma Tde02BAsks()
    ensures Apply(Tde02B, Local(DoResync)) == Next(Tde03B) && Apply(Tde03B, R(AckResyn)) == Next(Tde02B)
  {
    hide ApplyConnection, ApplyMessage, ApplySelection, ApplyOpen, ApplySending, ApplyInterrupted,
      ApplyReceivingEnd, ApplyReceivingResynced;
  }

  lemma Tde02BAnswers()
    ensures Apply(Tde02B, R(Resyn)) == Next(Tde04B) && Apply(Tde04B, Local(DoAccept)) == Next(Tde02B)
  {
    hide ApplyConnection, ApplyMessage, ApplySelection, ApplyOpen, ApplySending, ApplyInterrupted,
      ApplyReceivingEnd, ApplyReceivingResyncing;
  }

  lemma Tdl02AAsks()
    ensures Apply(Tdl02A, Local(DoResync)) == Next(Tdl03A) && Apply(Tdl03A, R(AckResyn)) == Next(Tdl02A)
  {
    hide ApplyConnection, ApplyMessage, ApplySelection, ApplyOpen, ApplySending, ApplyInterrupted,
      ApplyReceivingEnd, ApplyReceivingResynced;
  }

  lemma Tdl02AAnswers()
    ensures Apply(Tdl02A, R(Resyn)) == Next(Tdl04A) && Apply(Tdl04A, Local(DoAccept)) == Next(Tdl02A)
  {
    hide ApplyConnection, ApplyMessage, ApplySelection, ApplyOpen, ApplySending, ApplyInterrupted,
      ApplyReceivingEnd, ApplyReceivingResyncing;
  }

  /** A resynchronisation, asked or answered, ends back in the data phase it began in. */
  lemma Resyncs(s: State)
    requires InData(s)
    ensures Followed(s, [Local(DoResync), R(AckResyn)]) == Some(s)
    ensures Followed(s, [R(Resyn), Local(DoAccept)]) == Some(s)
  {
    hide Apply, Followed;
    var sent, rcvd := SideOf(s).resyncSent, SideOf(s).resyncRcvd;
    Tde02AAsks();
    Tde02AAnswers();
    Tde02BAsks();
    Tde02BAnswers();
    Tdl02AAsks();
    Tdl02AAnswers();
    Tdl02BAsks();
    Tdl02BAnswers();
    TwoEvents(s, Local(DoResync), R(AckResyn), sent, s);
    TwoEvents(s, R(Resyn), Local(DoAccept), rcvd, s);
  }

  // ---- end of transfer ----

  lemma WriterEndsRows()
    ensures Apply(Tde02A, Local(DoDataEnd)) == Next(Tde07A) && Apply(Tde07A, Local(DoTransferEnd)) == Next(Tde08A)
  {
    hide ApplyConnection, ApplyMessage, ApplySelection, ApplyOpen, ApplyReceiving, ApplySendingResyncing,
      ApplySendingResynced, ApplyInterrupted;
  }

  lemma WriterEndsLast()
    ensures Apply(Tde08A, R(AckTransEnd)) == Apply(Tde08A, N(AckTransEnd)) == Next(Of02)
  {
    hide ApplyConnection, ApplyMessage, ApplySelection, ApplyOpen, ApplyReceiving, ApplySendingResyncing,
      ApplySendingResynced, ApplyInterrupted, ApplySendingData;
  }

  /** The end of a written file: DTF.END and TRANS.END one after the other, and the answer to both. */
  lemma WriterEnds(negative: bool)
    ensures Followed(Tde02A, [Local(DoDataEnd), Local(DoTransferEnd), Received(AckTransEnd, negative)])
         == Some(Of02)
  {
    hide Apply, Followed;
    WriterEndsRows();
    WriterEndsLast();
    var e := Received(AckTransEnd, negative);
    assert e == R(AckTransEnd) || e == N(AckTransEnd);
    ThreeEvents(Tde02A, Local(DoDataEnd), Local(DoTransferEnd), e, Tde07A, Tde08A, Of02);
  }

  lemma WrittenEndsRows()
    ensures Apply(Tde02B, R(DtfEnd)) == Next(Tde07B) && Apply(Tde07B, R(TransEnd)) == Next(Tde08B)
  {
    hide ApplyConnection, ApplyMessage, ApplySelection, ApplyOpen, ApplySending, ApplyReceivingResyncing,
      ApplyReceivingResynced, ApplyInterrupted;
  }

  lemma WrittenEndsLast()
    ensures Apply(Tde08B, Local(DoAccept)) == Apply(Tde08B, Local(DoReject)) == Next(Of02)
  {
    hide ApplyConnection, ApplyMessage, ApplySelection, ApplyOpen, ApplySending, ApplyReceivingResyncing,
      ApplyReceivingResynced, ApplyInterrupted, ApplyReceivingData;
  }

  lemma WrittenEnds(negative: bool)
    ensures Followed(Tde02B, [R(DtfEnd), R(TransEnd), Local(if negative then DoReject else DoAccept)])
         == Some(Of02)
  {
    hide Apply, Followed;
    WrittenEndsRows();
    WrittenEndsLast();
    var e := Local(if negative then DoReject else DoAccept);
    assert e == Local(DoAccept) || e == Local(DoReject);
    ThreeEvents(Tde02B, R(DtfEnd), R(TransEnd), e, Tde07B, Tde08B, Of02);
  }

  lemma ReaderEndsRows()
    ensures Apply(Tdl02A, R(DtfEnd)) == Next(Tdl07A) && Apply(Tdl07A, Local(DoTransferEnd)) == Next(Tdl08A)
  {
    hide ApplyConnection, ApplyMessage, ApplySelection, ApplyOpen, ApplySending, ApplyReceivingResyncing,
      ApplyReceivingResynced, ApplyInterrupted;
  }

  lemma ReaderEndsLast()
    ensures Apply(Tdl08A, R(AckTransEnd)) == Apply(Tdl08A, N(AckTransEnd)) == Next(Of02)
  {
    hide ApplyConnection, ApplyMessage, ApplySelection, ApplyOpen, ApplySending, ApplyReceivingResyncing,
      ApplyReceivingResynced, ApplyInterrupted, ApplyReceivingData;
  }

  /** The end of a file that was read: the server ends the data, the requester the transfer. */
  lemma ReaderEnds(negative: bool)
    ensures Followed(Tdl02A, [R(DtfEnd), Local(DoTransferEnd), Received(AckTransEnd, negative)])
         == Some(Of02)
  {
    hide Apply, Followed;
    ReaderEndsRows();
    ReaderEndsLast();
    var e := Received(AckTransEnd, negative);
    assert e == R(AckTransEnd) || e == N(AckTransEnd);
    ThreeEvents(Tdl02A, R(DtfEnd), Local(DoTransferEnd), e, Tdl07A, Tdl08A, Of02);
  }

  lemma ReadEndsRows()
    ensures Apply(Tdl02B, Local(DoDataEnd)) == Next(Tdl07B) && Apply(Tdl07B, R(TransEnd)) == Next(Tdl08B)
  {
    hide ApplyConnection, ApplyMessage, ApplySelection, ApplyOpen, ApplyReceiving, ApplySendingResyncing,
      ApplySendingResynced, ApplyInterrupted;
  }

  lemma ReadEndsLast()
    ensures Apply(Tdl08B, Local(DoAccept)) == Apply(Tdl08B, Local(DoReject)) == Next(Of02)
  {
    hide ApplyConnection, ApplyMessage, ApplySelection, ApplyOpen, ApplyReceiving, ApplySendingResyncing,
      ApplySendingResynced, ApplyInterrupted, ApplySendingData;
  }

  lemma ReadEnds(negative: bool)
    ensures Followed(Tdl02B, [Local(DoDataEnd), R(TransEnd), Local(if negative then DoReject else DoAccept)])
         == Some(Of02)
  {
    hide Apply, Followed;
    ReadEndsRows();
    ReadEndsLast();
    var e := Local(if negative then DoReject else DoAccept);
    assert e == Local(DoAccept) || e == Local(DoReject);
    ThreeEvents(Tdl02B, Local(DoDataEnd), R(TransEnd), e, Tdl07B, Tdl08B, Of02);
  }

  // ---- messages ----

  lemma MessageAsked(negative: bool)
    ensures var answer := Received(AckMsg, negative);
      && Apply(Cn03, Local(DoMessage)) == Next(Mg01A) && Apply(Mg01A, Local(DoDataEnd)) == Next(Mg04A)
      && Apply(Mg01A, answer) == Next(Cn03) && Apply(Mg04A, answer) == Next(Cn03)
  {
    hide Apply;
    MessageSent();
    MessageRefused();
  }

  lemma MessageSent()
    ensures Apply(Cn03, Local(DoMessage)) == Next(Mg01A) && Apply(Mg01A, Local(DoDataEnd)) == Next(Mg04A)
    ensures Apply(Mg01A, R(AckMsg)) == Next(Cn03) && Apply(Mg04A, R(AckMsg)) == Next(Cn03)
  {
    hide ApplySelection, ApplyOpen, ApplySending, ApplyReceiving, Layer, FamilyOf;
  }

  lemma MessageRefused()
    ensures Apply(Mg01A, N(AckMsg)) == Next(Cn03) && Apply(Mg04A, N(AckMsg)) == Next(Cn03)
  {
    hide ApplySelection, ApplyOpen, ApplySending, ApplyReceiving, Layer, FamilyOf;
  }

  lemma MessageTaken()
    ensures Apply(Cn03, R(Msg)) == Next(Mg04B) && Apply(Cn03, R(MsgDm)) == Next(Mg01B)
    ensures Apply(Mg01B, R(MsgMm)) == Next(Mg01B) && Apply(Mg01B, R(MsgFm)) == Next(Mg04B)
  {
    hide ApplySelection, ApplyOpen, ApplySending, ApplyReceiving, Layer, FamilyOf;
  }

  lemma MessageAnswered(negative: bool)
    ensures Apply(Mg04B, Local(if negative then DoReject else DoAccept)) == Next(Cn03)
  {
    hide ApplySelection, ApplyOpen, ApplySending, ApplyReceiving, Layer, FamilyOf;
  }

  /** A message sent whole, and its answer. */
  lemma MessageExchanges(negative: bool)
    ensures Followed(Cn03, [Local(DoMessage), Received(AckMsg, negative)]) == Some(Cn03)
    ensures Followed(Cn03, [R(Msg), Local(if negative then DoReject else DoAccept)]) == Some(Cn03)
  {
    hide Apply, Followed;
    MessageAsked(negative);
    MessageTaken();
    MessageAnswered(negative);
    TwoEvents(Cn03, Local(DoMessage), Received(AckMsg, negative), Mg01A, Cn03);
    TwoEvents(Cn03, R(Msg), Local(if negative then DoReject else DoAccept), Mg04B, Cn03);
  }

  lemma {:induction false} Segments(n: nat, negative: bool)
    ensures Followed(Mg01B, Repeat(n, R(MsgMm)) + [R(MsgFm), Local(if negative then DoReject else DoAccept)])
         == Some(Cn03)
  {
    hide Apply;
    MessageAsked(negative);
    MessageTaken();
    MessageAnswered(negative);
    var last := [R(MsgFm), Local(if negative then DoReject else DoAccept)];
    var all := Repeat(n, R(MsgMm)) + last;
    if n == 0 {
      assert all == last;
      TwoEvents(Mg01B, last[0], last[1], Mg04B, Cn03);
    } else {
      Segments(n - 1, negative);
      assert all[0] == R(MsgMm) && all[1..] == Repeat(n - 1, R(MsgMm)) + last;
    }
  }

  /** A message in any number of segments, and its answer. */
  lemma SegmentedExchanges(n: nat, negative: bool)
    ensures Followed(Cn03, [Local(DoMessage), Local(DoDataEnd), Received(AckMsg, negative)]) == Some(Cn03)
    ensures Followed(Cn03, [R(MsgDm)] + Repeat(n, R(MsgMm))
                           + [R(MsgFm), Local(if negative then DoReject else DoAccept)]) == Some(Cn03)
  {
    hide Apply;
    MessageAsked(negative);
    MessageTaken();
    MessageAnswered(negative);
    ThreeEvents(Cn03, Local(DoMessage), Local(DoDataEnd), Received(AckMsg, negative), Mg01A, Mg04A, Cn03);
    Segments(n, negative);
    var last := [R(MsgFm), Local(if negative then DoReject else DoAccept)];
    var all := [R(MsgDm)] + Repeat(n, R(MsgMm)) + last;
    assert all[0] == R(MsgDm) && all[1..] == Repeat(n, R(MsgMm)) + last;
  }

  // ---- whole dialogues ----

  /** One turn: the side it belongs to, its request, and what the other side receives. */
  datatype Turn = Turn(first: bool, q: Request, e: Event)

  /** Both machines after a turn. */
  function Turned(s: State, t: State, turn: Turn): (State, State)
  {
    if turn.first then (After(s, Local(turn.q)), After(t, turn.e)) else (After(s, turn.e), After(t, Local(turn.q)))
  }

  /** The side whose turn it is may do what it does, and the other side takes it. */
  predicate Asks(s: State, t: State, turn: Turn)
  {
    var (mine, theirs) := if turn.first then (s, t) else (t, s);
    Apply(mine, Local(turn.q)) != Refuse && Says(mine, turn.q, turn.e) && !Unmatched(mine, theirs, turn.q)
  }

  predicate Heard(s: State, t: State, turn: Turn)
  {
    Apply(if turn.first then t else s, turn.e) != Refuse
  }

  predicate Plays(s: State, t: State, turns: seq<Turn>)
    decreases |turns|
  {
    turns != [] ==> Asks(s, t, turns[0]) && var (s', t') := Turned(s, t, turns[0]); Plays(s', t', turns[1..])
  }

  /** What both sides do is heard throughout, and leaves them mirrored. */
  predicate InTouch(s: State, t: State, turns: seq<Turn>)
    decreases |turns|
  {
    && Mirrored(s, t)
    && (turns != [] ==>
          Heard(s, t, turns[0]) && var (s', t') := Turned(s, t, turns[0]); InTouch(s', t', turns[1..]))
  }

  lemma TurnKeeps(s: State, t: State, turn: Turn)
    requires Mirrored(s, t) && Asks(s, t, turn)
    ensures Heard(s, t, turn) && var (s', t') := Turned(s, t, turn); Mirrored(s', t')
  {
    hide Apply, Paired, Says, Unmatched, After;
    if turn.first {
      MirrorKept(s, t, turn.q, turn.e);
    } else {
      MirrorKept(t, s, turn.q, turn.e);
    }
  }

  /** Two machines that start unconnected and take turns stay in touch for ever: whatever either of them may do, the other
      accepts or ignores, but for the four requests of `Unmatched`. */
  lemma {:induction false} DialogueKept(s: State, t: State, turns: seq<Turn>)
    requires Mirrored(s, t) && Plays(s, t, turns)
    ensures InTouch(s, t, turns)
    decreases |turns|
  {
    hide Apply, Mirrored, Asks, Heard, Turned;
    if turns != [] {
      TurnKeeps(s, t, turns[0]);
      var (s', t') := Turned(s, t, turns[0]);
      DialogueKept(s', t', turns[1..]);
    }
  }

  /** From no connection to no connection: the exchanges of a session, granted and refused. */
  lemma SessionExchanges(negative: bool)
    ensures Granted(Cn01, Cn01, DoConnect, Connect, Cn03, Cn03)
    ensures Declined(Cn01, Cn01, DoConnect, Connect, Cn01, Cn01)
    ensures Followed(Cn01, [Local(DoConnect), Received(Rconnect, negative)]) == Some(Cn01)
    ensures Granted(Cn03, Cn03, DoRelease, Release, Cn01, Cn01)
  {
    hide Apply, Followed, Granted, Declined;
    ConnectGranted();
    ConnectDeclined();
    ConnectRefused(negative);
    ReleaseGranted();
  }

  /** The exchanges of a file, granted and refused, up to the data phase and back. */
  lemma FileExchanges()
    ensures Granted(Cn03, Cn03, DoCreate, Create, Sf03, Sf03) && Declined(Cn03, Cn03, DoCreate, Create, Cn03, Cn03)
    ensures Granted(Cn03, Cn03, DoSelect, Select, Sf03, Sf03) && Declined(Cn03, Cn03, DoSelect, Select, Cn03, Cn03)
    ensures Granted(Sf03, Sf03, DoOpen, Orf, Of02, Of02) && Declined(Sf03, Sf03, DoOpen, Orf, Sf03, Sf03)
    ensures Granted(Of02, Of02, DoWrite, Write, Tde02A, Tde02B) && Declined(Of02, Of02, DoWrite, Write, Of02, Of02)
    ensures Granted(Of02, Of02, DoRead, Read, Tdl02A, Tdl02B) && Declined(Of02, Of02, DoRead, Read, Of02, Of02)
    ensures Granted(Of02, Of02, DoClose, Crf, Sf03, Sf03) && Declined(Of02, Of02, DoClose, Crf, Sf03, Sf03)
    ensures Granted(Sf03, Sf03, DoDeselect, Deselect, Cn03, Cn03)
    ensures Declined(Sf03, Sf03, DoDeselect, Deselect, Cn03, Cn03)
  {
    hide Apply, Followed, Granted, Declined;
    CreateGranted();
    CreateDeclined();
    SelectGranted();
    SelectDeclined();
    OpenGranted();
    OpenDeclined();
    WriteGranted();
    WriteDeclined();
    ReadGranted();
    ReadDeclined();
    CloseGranted();
    CloseDeclined();
    DeselectGranted();
    DeselectDeclined();
  }

  /** The ends of a file written and of a file read, at both sides, whatever the answer. */
  lemma EndExchanges(negative: bool)
    ensures var answer, request := Received(AckTransEnd, negative), Local(if negative then DoReject else DoAccept);
      && Followed(Tde02A, [Local(DoDataEnd), Local(DoTransferEnd), answer]) == Some(Of02)
      && Followed(Tde02B, [R(DtfEnd), R(TransEnd), request]) == Some(Of02)
      && Followed(Tdl02A, [R(DtfEnd), Local(DoTransferEnd), answer]) == Some(Of02)
      && Followed(Tdl02B, [Local(DoDataEnd), R(TransEnd), request]) == Some(Of02)
  {
    hide Apply, Followed;
    WriterEnds(negative);
    WrittenEnds(negative);
    ReaderEnds(negative);
    ReadEnds(negative);
  }
}
