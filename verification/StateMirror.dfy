/** Two automata that talk to each other: what one of them does, the other accepts or ignores, but for four
    requests, and both stay in step. Pairs of states, one for the side that asked and one for the side that
    was asked; what each request says to the other side; and the table taken pair by pair. */
module StateMirror {
  import opened Bytes
  import opened Fpdu
  import opened StateTable

  // ---- the states of the side that asked and of the side that was asked ----

  predicate ConnectionPair(a: State, b: State)
  {
    || (a.Cn01? && b.Cn01?)
    || (a.Cn02A? && b.Cn02B?)
    || (a.Cn03? && b.Cn03?)
    || (a.Cn04A? && b.Cn04B?)
  }

  predicate MessagePair(a: State, b: State)
  {
    || (a.Mg01A? && b.Mg01B?)
    || (a.Mg01A? && b.Mg04B?)
    || (a.Mg04A? && b.Mg04B?)
  }

  predicate SelectionPair(a: State, b: State)
  {
    || (a.Sf01A? && b.Sf01B?)
    || (a.Sf02A? && b.Sf02B?)
    || (a.Sf03? && b.Sf03?)
    || (a.Sf04A? && b.Sf04B?)
  }

  predicate OpenPair(a: State, b: State)
  {
    || (a.Of01A? && b.Of01B?)
    || (a.Of02? && b.Of02?)
    || (a.Of03A? && b.Of03B?)
  }

  predicate StartPair(a: State, b: State)
  {
    || (a.Tde01A? && b.Tde01B?)
    || (a.Tdl01A? && b.Tdl01B?)
  }

  /** The two sides of a transfer, the one that sends first. */
  predicate DataPair(x: State, y: State)
  {
    || (x.Tde02A? && y.Tde02B?)
    || (x.Tdl02B? && y.Tdl02A?)
  }

  predicate ResyncPair(x: State, y: State)
  {
    || (x.Tde03A? && y.Tde04B?)
    || (x.Tde04A? && y.Tde03B?)
    || (x.Tdl03B? && y.Tdl04A?)
    || (x.Tdl04B? && y.Tdl03A?)
  }

  predicate IdtPair(x: State, y: State)
  {
    || (x.Tde05A? && y.Tde06B?)
    || (x.Tde06A? && y.Tde05B?)
    || (x.Tdl05B? && y.Tdl06A?)
    || (x.Tdl06B? && y.Tdl05A?)
  }

  predicate EndPair(x: State, y: State)
  {
    || (x.Tde07A? && y.Tde07B?)
    || (x.Tde08A? && y.Tde08B?)
    || (x.Tdl07B? && y.Tdl07A?)
    || (x.Tdl08B? && y.Tdl08A?)
  }

  predicate Paired(a: State, b: State)
  {
    ConnectionPair(a, b) || MessagePair(a, b) || SelectionPair(a, b) || OpenPair(a, b) || StartPair(a, b)
    || DataPair(a, b) || ResyncPair(a, b) || IdtPair(a, b) || EndPair(a, b)
  }

  /** Two machines that stand where the same dialogue brought them, whichever of them is given first. */
  predicate Mirrored(s: State, t: State) { Paired(s, t) || Paired(t, s) }

  /** The answer a state gives: an acknowledgement, with a diagnostic when negative. A refused connection is answered by
      RCONNECT; RELCONF carries no diagnostic. */
  predicate Answers(s: State, negative: bool, e: Event)
  {
    match s
    case Cn02B => if negative then e == R(Rconnect) || e == N(Rconnect) else e == R(Aconnect)
    case Cn04B => e == R(Relconf)
    case Sf01B => e == Received(AckCreate, negative)
    case Sf02B => e == Received(AckSelect, negative)
    case Sf04B => e == Received(AckDeselect, negative)
    case Of01B => e == Received(AckOrf, negative)
    case Of03B => e == Received(AckCrf, negative)
    case Tde01B => e == Received(AckWrite, negative)
    case Tdl01B => e == Received(AckRead, negative)
    case Tde02B | Tdl02A | Tde07B | Tdl07A => e == Received(AckSyn, negative)
    case Tde04A | Tde04B | Tdl04A | Tdl04B => e == Received(AckResyn, negative)
    case Tde06A | Tde06B | Tdl06A | Tdl06B => e == Received(AckIdt, negative)
    case Tde08B | Tdl08B => e == Received(AckTransEnd, negative)
    case Mg04B => e == Received(AckMsg, negative)
    case _ => false
  }

  /** What the other side receives when a request goes out. */
  predicate Says(s: State, q: Request, e: Event)
  {
    match q
    case DoAbort => e == R(Abort)
    case DoConnect => e == R(Connect)
    case DoRelease => e == R(Release)
    case DoCreate => e == R(Create)
    case DoSelect => e == R(Select)
    case DoDeselect => e == R(Deselect)
    case DoOpen => e == R(Orf)
    case DoClose => e == R(Crf)
    case DoWrite => e == R(Write)
    case DoRead => e == R(Read)
    case DoMessage => e == R(Msg) || e == R(MsgDm)
    case DoCancel => e == R(Idt)
    case DoSendData => if s.Mg01A? then e == R(MsgMm) else e.Received? && e.kind.IsData()
    case DoSync => e == R(Syn)
    case DoDataEnd => e == R(if s.Mg01A? then MsgFm else DtfEnd)
    case DoTransferEnd => e == R(TransEnd)
    case DoResync => e == R(Resyn)
    case DoAccept => Answers(s, false, e)
    case DoReject => Answers(s, true, e)
  }

  /** The requests the table takes although the other side refuses what they send: an interruption after TRANS.END has
      arrived, a resynchronisation by the server then, a point placed by a receiver, and segments after a message
      that was sent whole. */
  predicate Unmatched(s: State, t: State, q: Request)
  {
    || (q == DoCancel && (s.Tde08A? || s.Tdl08A?))
    || (q == DoResync && s.Tdl08B?)
    || (q == DoSync && (s.Tde04B? || s.Tdl04A?))
    || ((q == DoSendData || q == DoDataEnd) && s.Mg01A? && t.Mg04B?)
  }

  /** Where an outcome leads: an event ignored or refused leaves a machine where it is. */
  function To(s: State, o: Outcome): State { if o.Next? then o.state else s }

  /** One machine takes a request, the other what it receives: it refuses it in the cases above only, and both stay
      mirrored. */
  predicate InStep(s: State, t: State, q: Request, e: Event, mine: Outcome, theirs: Outcome)
  {
    mine != Refuse && Says(s, q, e) ==>
      && (theirs == Refuse <==> Unmatched(s, t, q))
      && (!Unmatched(s, t, q) ==> Mirrored(To(s, mine), To(t, theirs)))
  }










  lemma RefusedInStep(s: State, t: State, q: Request, e: Event, theirs: Outcome)
    ensures InStep(s, t, q, e, Refuse, theirs)
  {
    hide Says, Unmatched, Mirrored;
  }

  lemma Cn01InStep(q: Request, e: Event)
    ensures InStep(Cn01, Cn01, q, e, ApplyConnection(Cn01, Local(q)), ApplyConnection(Cn01, e))
  {
    hide OpenPair, StartPair, DataPair, ResyncPair, IdtPair, EndPair;
  }

  lemma Cn02InStep(q: Request, e: Event)
    ensures InStep(Cn02A, Cn02B, q, e, ApplyConnection(Cn02A, Local(q)), ApplyConnection(Cn02B, e))
    ensures InStep(Cn02B, Cn02A, q, e, ApplyConnection(Cn02B, Local(q)), ApplyConnection(Cn02A, e))
  {
    hide OpenPair, StartPair, DataPair, ResyncPair, IdtPair, EndPair;
  }

  lemma Cn03InStep(q: Request, e: Event)
    ensures InStep(Cn03, Cn03, q, e, ApplyConnection(Cn03, Local(q)), ApplyConnection(Cn03, e))
  {
    hide OpenPair, StartPair, DataPair, ResyncPair, IdtPair, EndPair;
  }

  lemma Cn04InStep(q: Request, e: Event)
    ensures InStep(Cn04A, Cn04B, q, e, ApplyConnection(Cn04A, Local(q)), ApplyConnection(Cn04B, e))
    ensures InStep(Cn04B, Cn04A, q, e, ApplyConnection(Cn04B, Local(q)), ApplyConnection(Cn04A, e))
  {
    hide OpenPair, StartPair, DataPair, ResyncPair, IdtPair, EndPair;
  }

  lemma Mg01AMg01BInStep(q: Request, e: Event)
    ensures InStep(Mg01A, Mg01B, q, e, ApplyMessage(Mg01A, Local(q)), ApplyMessage(Mg01B, e))
    ensures InStep(Mg01B, Mg01A, q, e, ApplyMessage(Mg01B, Local(q)), ApplyMessage(Mg01A, e))
  {
    hide SelectionPair, OpenPair, StartPair, DataPair, ResyncPair, IdtPair, EndPair;
  }

  lemma Mg01AMg04BInStep(q: Request, e: Event)
    ensures InStep(Mg01A, Mg04B, q, e, ApplyMessage(Mg01A, Local(q)), ApplyMessage(Mg04B, e))
  {
    hide SelectionPair, OpenPair, StartPair, DataPair, ResyncPair, IdtPair, EndPair;
  }

  lemma Mg04BMg01AInStep(q: Request, e: Event)
    ensures InStep(Mg04B, Mg01A, q, e, ApplyMessage(Mg04B, Local(q)), ApplyMessage(Mg01A, e))
  {
    hide SelectionPair, OpenPair, StartPair, DataPair, ResyncPair, IdtPair, EndPair;
  }

  lemma Mg04AInStep(q: Request, e: Event)
    ensures InStep(Mg04A, Mg04B, q, e, ApplyMessage(Mg04A, Local(q)), ApplyMessage(Mg04B, e))
  {
    hide SelectionPair, OpenPair, StartPair, DataPair, ResyncPair, IdtPair, EndPair;
  }

  lemma Mg04BInStep(q: Request, e: Event)
    ensures InStep(Mg04B, Mg04A, q, e, ApplyMessage(Mg04B, Local(q)), ApplyMessage(Mg04A, e))
  {
    hide SelectionPair, OpenPair, StartPair, DataPair, ResyncPair, IdtPair, EndPair;
  }

  lemma Sf01InStep(q: Request, e: Event)
    ensures InStep(Sf01A, Sf01B, q, e, ApplySelection(Sf01A, Local(q)), ApplySelection(Sf01B, e))
    ensures InStep(Sf01B, Sf01A, q, e, ApplySelection(Sf01B, Local(q)), ApplySelection(Sf01A, e))
  {
    hide MessagePair, StartPair, DataPair, ResyncPair, IdtPair, EndPair;
  }

  lemma Sf02InStep(q: Request, e: Event)
    ensures InStep(Sf02A, Sf02B, q, e, ApplySelection(Sf02A, Local(q)), ApplySelection(Sf02B, e))
    ensures InStep(Sf02B, Sf02A, q, e, ApplySelection(Sf02B, Local(q)), ApplySelection(Sf02A, e))
  {
    hide MessagePair, StartPair, DataPair, ResyncPair, IdtPair, EndPair;
  }

  lemma Sf03InStep(q: Request, e: Event)
    ensures InStep(Sf03, Sf03, q, e, ApplySelection(Sf03, Local(q)), ApplySelection(Sf03, e))
  {
    hide MessagePair, StartPair, DataPair, ResyncPair, IdtPair, EndPair;
  }

  lemma Sf04InStep(q: Request, e: Event)
    ensures InStep(Sf04A, Sf04B, q, e, ApplySelection(Sf04A, Local(q)), ApplySelection(Sf04B, e))
    ensures InStep(Sf04B, Sf04A, q, e, ApplySelection(Sf04B, Local(q)), ApplySelection(Sf04A, e))
  {
    hide MessagePair, StartPair, DataPair, ResyncPair, IdtPair, EndPair;
  }

  lemma Of01InStep(q: Request, e: Event)
    ensures InStep(Of01A, Of01B, q, e, ApplyOpen(Of01A, Local(q)), ApplyOpen(Of01B, e))
    ensures InStep(Of01B, Of01A, q, e, ApplyOpen(Of01B, Local(q)), ApplyOpen(Of01A, e))
  {
    hide ConnectionPair, MessagePair, DataPair, ResyncPair, IdtPair, EndPair;
  }

  lemma Of02InStep(q: Request, e: Event)
    ensures InStep(Of02, Of02, q, e, ApplyOpen(Of02, Local(q)), ApplyOpen(Of02, e))
  {
    hide ConnectionPair, MessagePair, DataPair, ResyncPair, IdtPair, EndPair;
  }

  lemma Of03AInStep(q: Request, e: Event)
    ensures InStep(Of03A, Of03B, q, e, ApplyOpen(Of03A, Local(q)), ApplyOpen(Of03B, e))
  {
    hide ConnectionPair, MessagePair, DataPair, ResyncPair, IdtPair, EndPair;
  }

  lemma Of03BInStep(q: Request, e: Event)
    ensures InStep(Of03B, Of03A, q, e, ApplyOpen(Of03B, Local(q)), ApplyOpen(Of03A, e))
  {
    hide ConnectionPair, MessagePair, DataPair, ResyncPair, IdtPair, EndPair;
  }

  lemma Tde01AInStep(q: Request, e: Event)
    ensures InStep(Tde01A, Tde01B, q, e, ApplyOpen(Tde01A, Local(q)), ApplyOpen(Tde01B, e))
  {
    hide ConnectionPair, MessagePair, SelectionPair, ResyncPair, IdtPair, EndPair;
  }

  lemma Tde01BInStep(q: Request, e: Event)
    ensures InStep(Tde01B, Tde01A, q, e, ApplyOpen(Tde01B, Local(q)), ApplyOpen(Tde01A, e))
  {
    hide ConnectionPair, MessagePair, SelectionPair, ResyncPair, IdtPair, EndPair;
  }

  lemma Tdl01AInStep(q: Request, e: Event)
    ensures InStep(Tdl01A, Tdl01B, q, e, ApplyOpen(Tdl01A, Local(q)), ApplyOpen(Tdl01B, e))
  {
    hide ConnectionPair, MessagePair, SelectionPair, ResyncPair, IdtPair, EndPair;
  }

  lemma Tdl01BInStep(q: Request, e: Event)
    ensures InStep(Tdl01B, Tdl01A, q, e, ApplyOpen(Tdl01B, Local(q)), ApplyOpen(Tdl01A, e))
  {
    hide ConnectionPair, MessagePair, SelectionPair, ResyncPair, IdtPair, EndPair;
  }

  lemma Tde02ADataInStep(q: Request, e: Event)
    requires q in {DoSendData, DoSync, DoDataEnd}
    ensures InStep(Tde02A, Tde02B, q, e, ApplySendingData(Tde02A, Local(q)), ApplyReceivingData(Tde02B, e))
  {
    hide ConnectionPair, MessagePair, SelectionPair, OpenPair, StartPair;
  }

  lemma Tde02AInStep(q: Request, e: Event)
    requires q !in {DoSendData, DoSync, DoDataEnd}
    ensures InStep(Tde02A, Tde02B, q, e, ApplySendingData(Tde02A, Local(q)), ApplyReceivingData(Tde02B, e))
  {
    hide ConnectionPair, MessagePair, SelectionPair, OpenPair, StartPair;
  }

  lemma Tde02BInStep(q: Request, e: Event)
    ensures InStep(Tde02B, Tde02A, q, e, ApplyReceivingData(Tde02B, Local(q)), ApplySendingData(Tde02A, e))
  {
    hide ConnectionPair, MessagePair, SelectionPair, OpenPair, StartPair;
  }

  lemma Tdl02BDataInStep(q: Request, e: Event)
    requires q in {DoSendData, DoSync, DoDataEnd}
    ensures InStep(Tdl02B, Tdl02A, q, e, ApplySendingData(Tdl02B, Local(q)), ApplyReceivingData(Tdl02A, e))
  {
    hide ConnectionPair, MessagePair, SelectionPair, OpenPair, StartPair;
  }

  lemma Tdl02BInStep(q: Request, e: Event)
    requires q !in {DoSendData, DoSync, DoDataEnd}
    ensures InStep(Tdl02B, Tdl02A, q, e, ApplySendingData(Tdl02B, Local(q)), ApplyReceivingData(Tdl02A, e))
  {
    hide ConnectionPair, MessagePair, SelectionPair, OpenPair, StartPair;
  }

  lemma Tdl02AInStep(q: Request, e: Event)
    ensures InStep(Tdl02A, Tdl02B, q, e, ApplyReceivingData(Tdl02A, Local(q)), ApplySendingData(Tdl02B, e))
  {
    hide ConnectionPair, MessagePair, SelectionPair, OpenPair, StartPair;
  }

  lemma Tde03AInStep(q: Request, e: Event)
    ensures InStep(Tde03A, Tde04B, q, e, ApplySendingResyncing(Tde03A, Local(q)), ApplyReceivingResynced(Tde04B, e))
  {
    hide ConnectionPair, MessagePair, SelectionPair, OpenPair, StartPair, EndPair;
  }

  lemma Tde04BInStep(q: Request, e: Event)
    ensures InStep(Tde04B, Tde03A, q, e, ApplyReceivingResynced(Tde04B, Local(q)), ApplySendingResyncing(Tde03A, e))
  {
    hide ConnectionPair, MessagePair, SelectionPair, OpenPair, StartPair, EndPair;
  }

  lemma Tde04ADataInStep(q: Request, e: Event)
    requires q in {DoSendData, DoSync, DoDataEnd, DoTransferEnd}
    ensures InStep(Tde04A, Tde03B, q, e, ApplySendingResynced(Tde04A, Local(q)), ApplyReceivingResyncing(Tde03B, e))
  {
    hide ConnectionPair, MessagePair, SelectionPair, OpenPair, StartPair, EndPair;
  }

  lemma Tde04AAcceptInStep(e: Event)
    ensures InStep(Tde04A, Tde03B, DoAccept, e, ApplySendingResynced(Tde04A, Local(DoAccept)), ApplyReceivingResyncing(Tde03B, e))
  {
    hide ConnectionPair, MessagePair, SelectionPair, OpenPair, StartPair, EndPair;
  }

  lemma Tde04AResyncInStep(e: Event)
    ensures InStep(Tde04A, Tde03B, DoResync, e, ApplySendingResynced(Tde04A, Local(DoResync)), ApplyReceivingResyncing(Tde03B, e))
  {
    hide ConnectionPair, MessagePair, SelectionPair, OpenPair, StartPair, EndPair;
  }

  lemma Tde04ACancelInStep(e: Event)
    ensures InStep(Tde04A, Tde03B, DoCancel, e, ApplySendingResynced(Tde04A, Local(DoCancel)), ApplyReceivingResyncing(Tde03B, e))
  {
    hide ConnectionPair, MessagePair, SelectionPair, OpenPair, StartPair, EndPair;
  }

  lemma Tde04AInStep(q: Request, e: Event)
    requires q !in {DoSendData, DoSync, DoDataEnd, DoTransferEnd}
    ensures InStep(Tde04A, Tde03B, q, e, ApplySendingResynced(Tde04A, Local(q)), ApplyReceivingResyncing(Tde03B, e))
  {
    hide InStep, ApplySendingResynced, ApplyReceivingResyncing;
    if q == DoAccept {
      Tde04AAcceptInStep(e);
    } else if q == DoResync {
      Tde04AResyncInStep(e);
    } else if q == DoCancel {
      Tde04ACancelInStep(e);
    } else {
      Tde04ARefuses(q);
      RefusedInStep(Tde04A, Tde03B, q, e, ApplyReceivingResyncing(Tde03B, e));
    }
  }

  lemma Tde04ARefuses(q: Request)
    requires q !in {DoSendData, DoSync, DoDataEnd, DoTransferEnd, DoAccept, DoResync, DoCancel}
    ensures ApplySendingResynced(Tde04A, Local(q)) == Refuse
  {
  }

  lemma Tde03BInStep(q: Request, e: Event)
    ensures InStep(Tde03B, Tde04A, q, e, ApplyReceivingResyncing(Tde03B, Local(q)), ApplySendingResynced(Tde04A, e))
  {
    hide ConnectionPair, MessagePair, SelectionPair, OpenPair, StartPair, EndPair;
  }

  lemma Tdl03BInStep(q: Request, e: Event)
    ensures InStep(Tdl03B, Tdl04A, q, e, ApplySendingResyncing(Tdl03B, Local(q)), ApplyReceivingResynced(Tdl04A, e))
  {
    hide ConnectionPair, MessagePair, SelectionPair, OpenPair, StartPair, EndPair;
  }

  lemma Tdl04AInStep(q: Request, e: Event)
    ensures InStep(Tdl04A, Tdl03B, q, e, ApplyReceivingResynced(Tdl04A, Local(q)), ApplySendingResyncing(Tdl03B, e))
  {
    hide ConnectionPair, MessagePair, SelectionPair, OpenPair, StartPair, EndPair;
  }

  lemma Tdl04BDataInStep(q: Request, e: Event)
    requires q in {DoSendData, DoSync, DoDataEnd, DoTransferEnd}
    ensures InStep(Tdl04B, Tdl03A, q, e, ApplySendingResynced(Tdl04B, Local(q)), ApplyReceivingResyncing(Tdl03A, e))
  {
    hide ConnectionPair, MessagePair, SelectionPair, OpenPair, StartPair, EndPair;
  }

  lemma Tdl04BAcceptInStep(e: Event)
    ensures InStep(Tdl04B, Tdl03A, DoAccept, e, ApplySendingResynced(Tdl04B, Local(DoAccept)), ApplyReceivingResyncing(Tdl03A, e))
  {
    hide ConnectionPair, MessagePair, SelectionPair, OpenPair, StartPair, EndPair;
  }

  lemma Tdl04BResyncInStep(e: Event)
    ensures InStep(Tdl04B, Tdl03A, DoResync, e, ApplySendingResynced(Tdl04B, Local(DoResync)), ApplyReceivingResyncing(Tdl03A, e))
  {
    hide ConnectionPair, MessagePair, SelectionPair, OpenPair, StartPair, EndPair;
  }

  lemma Tdl04BCancelInStep(e: Event)
    ensures InStep(Tdl04B, Tdl03A, DoCancel, e, ApplySendingResynced(Tdl04B, Local(DoCancel)), ApplyReceivingResyncing(Tdl03A, e))
  {
    hide ConnectionPair, MessagePair, SelectionPair, OpenPair, StartPair, EndPair;
  }

  lemma Tdl04BInStep(q: Request, e: Event)
    requires q !in {DoSendData, DoSync, DoDataEnd, DoTransferEnd}
    ensures InStep(Tdl04B, Tdl03A, q, e, ApplySendingResynced(Tdl04B, Local(q)), ApplyReceivingResyncing(Tdl03A, e))
  {
    hide InStep, ApplySendingResynced, ApplyReceivingResyncing;
    if q == DoAccept {
      Tdl04BAcceptInStep(e);
    } else if q == DoResync {
      Tdl04BResyncInStep(e);
    } else if q == DoCancel {
      Tdl04BCancelInStep(e);
    } else {
      Tdl04BRefuses(q);
      RefusedInStep(Tdl04B, Tdl03A, q, e, ApplyReceivingResyncing(Tdl03A, e));
    }
  }

  lemma Tdl04BRefuses(q: Request)
    requires q !in {DoSendData, DoSync, DoDataEnd, DoTransferEnd, DoAccept, DoResync, DoCancel}
    ensures ApplySendingResynced(Tdl04B, Local(q)) == Refuse
  {
  }

  lemma Tdl03AInStep(q: Request, e: Event)
    ensures InStep(Tdl03A, Tdl04B, q, e, ApplyReceivingResyncing(Tdl03A, Local(q)), ApplySendingResynced(Tdl04B, e))
  {
    hide ConnectionPair, MessagePair, SelectionPair, OpenPair, StartPair, EndPair;
  }

  lemma Tde05InStep(q: Request, e: Event)
    ensures InStep(Tde05A, Tde06B, q, e, ApplyInterrupted(Tde05A, Local(q)), ApplyInterrupted(Tde06B, e))
    ensures InStep(Tde06B, Tde05A, q, e, ApplyInterrupted(Tde06B, Local(q)), ApplyInterrupted(Tde05A, e))
  {
    hide ConnectionPair, MessagePair, SelectionPair, StartPair, DataPair, ResyncPair, EndPair;
  }

  lemma Tde06InStep(q: Request, e: Event)
    ensures InStep(Tde06A, Tde05B, q, e, ApplyInterrupted(Tde06A, Local(q)), ApplyInterrupted(Tde05B, e))
    ensures InStep(Tde05B, Tde06A, q, e, ApplyInterrupted(Tde05B, Local(q)), ApplyInterrupted(Tde06A, e))
  {
    hide ConnectionPair, MessagePair, SelectionPair, StartPair, DataPair, ResyncPair, EndPair;
  }

  lemma Tdl05AInStep(q: Request, e: Event)
    ensures InStep(Tdl05B, Tdl06A, q, e, ApplyInterrupted(Tdl05B, Local(q)), ApplyInterrupted(Tdl06A, e))
  {
    hide ConnectionPair, MessagePair, SelectionPair, StartPair, DataPair, ResyncPair, EndPair;
  }

  lemma Tdl05BInStep(q: Request, e: Event)
    ensures InStep(Tdl06A, Tdl05B, q, e, ApplyInterrupted(Tdl06A, Local(q)), ApplyInterrupted(Tdl05B, e))
  {
    hide ConnectionPair, MessagePair, SelectionPair, StartPair, DataPair, ResyncPair, EndPair;
  }

  lemma Tdl06InStep(q: Request, e: Event)
    ensures InStep(Tdl06B, Tdl05A, q, e, ApplyInterrupted(Tdl06B, Local(q)), ApplyInterrupted(Tdl05A, e))
    ensures InStep(Tdl05A, Tdl06B, q, e, ApplyInterrupted(Tdl05A, Local(q)), ApplyInterrupted(Tdl06B, e))
  {
    hide ConnectionPair, MessagePair, SelectionPair, StartPair, DataPair, ResyncPair, EndPair;
  }

  lemma Tde07AInStep(q: Request, e: Event)
    ensures InStep(Tde07A, Tde07B, q, e, ApplySendingEnd(Tde07A, Local(q)), ApplyReceivingEnd(Tde07B, e))
  {
    hide ConnectionPair, MessagePair, SelectionPair, StartPair, DataPair;
  }

  lemma Tde07BInStep(q: Request, e: Event)
    ensures InStep(Tde07B, Tde07A, q, e, ApplyReceivingEnd(Tde07B, Local(q)), ApplySendingEnd(Tde07A, e))
  {
    hide ConnectionPair, MessagePair, SelectionPair, StartPair, DataPair;
  }

  lemma Tde08AInStep(q: Request, e: Event)
    ensures InStep(Tde08A, Tde08B, q, e, ApplySendingEnd(Tde08A, Local(q)), ApplyReceivingEnd(Tde08B, e))
  {
    hide ConnectionPair, MessagePair, SelectionPair, StartPair, DataPair;
  }

  lemma Tde08BInStep(q: Request, e: Event)
    ensures InStep(Tde08B, Tde08A, q, e, ApplyReceivingEnd(Tde08B, Local(q)), ApplySendingEnd(Tde08A, e))
  {
    hide ConnectionPair, MessagePair, SelectionPair, StartPair, DataPair;
  }

  lemma Tdl07BInStep(q: Request, e: Event)
    ensures InStep(Tdl07B, Tdl07A, q, e, ApplySendingEnd(Tdl07B, Local(q)), ApplyReceivingEnd(Tdl07A, e))
  {
    hide ConnectionPair, MessagePair, SelectionPair, StartPair, DataPair;
  }

  lemma Tdl07AInStep(q: Request, e: Event)
    ensures InStep(Tdl07A, Tdl07B, q, e, ApplyReceivingEnd(Tdl07A, Local(q)), ApplySendingEnd(Tdl07B, e))
  {
    hide ConnectionPair, MessagePair, SelectionPair, StartPair, DataPair;
  }

  lemma Tdl08BInStep(q: Request, e: Event)
    ensures InStep(Tdl08B, Tdl08A, q, e, ApplySendingEnd(Tdl08B, Local(q)), ApplyReceivingEnd(Tdl08A, e))
  {
    hide ConnectionPair, MessagePair, SelectionPair, StartPair, DataPair;
  }

  lemma Tdl08AInStep(q: Request, e: Event)
    ensures InStep(Tdl08A, Tdl08B, q, e, ApplyReceivingEnd(Tdl08A, Local(q)), ApplySendingEnd(Tdl08B, e))
  {
    hide ConnectionPair, MessagePair, SelectionPair, StartPair, DataPair;
  }

  // ---- all the pairs ----

  /** The table, one part of it for each group of states. */
  lemma Parts(s: State, e: Event)
    requires !IsAbort(e)
    ensures InConnection(s) ==> Apply(s, e) == ApplyConnection(s, e)
    ensures InMessage(s) ==> Apply(s, e) == ApplyMessage(s, e)
    ensures InSelection(s) ==> Apply(s, e) == ApplySelection(s, e)
  {
    hide ApplyConnection, ApplyMessage, ApplySelection, ApplyOpen, ApplySending, ApplyReceiving, Layer, FamilyOf;
  }

  lemma OpenParts(s: State, e: Event)
    requires !IsAbort(e) && (s.Of01A? || s.Of01B? || Layer(s) == 3)
    ensures Apply(s, e) == ApplyOpen(s, e)
  {
    hide ApplyConnection, ApplyMessage, ApplySelection, ApplyOpen, ApplySending, ApplyReceiving;
  }

  lemma InterruptedParts(s: State, e: Event)
    requires !IsAbort(e) && Interrupting(s)
    ensures Apply(s, e) == ApplyInterrupted(s, e)
  {
    hide ApplyConnection, ApplyMessage, ApplySelection, ApplyOpen, ApplySendingData, ApplySendingResyncing,
      ApplySendingResynced, ApplySendingEnd, ApplyReceivingData, ApplyReceivingResyncing, ApplyReceivingResynced,
      ApplyReceivingEnd, ApplyInterrupted;
  }

  lemma SendingParts(s: State, e: Event)
    requires !IsAbort(e) && Layer(s) == 4 && Sends(FamilyOf(s))
    ensures InData(s) ==> Apply(s, e) == ApplySendingData(s, e)
    ensures InResyncing(s) ==> Apply(s, e) == ApplySendingResyncing(s, e)
    ensures InResynced(s) ==> Apply(s, e) == ApplySendingResynced(s, e)
    ensures InEnd(s) ==> Apply(s, e) == ApplySendingEnd(s, e)
  {
    hide ApplyConnection, ApplyMessage, ApplySelection, ApplyOpen, ApplySendingData, ApplySendingResyncing,
      ApplySendingResynced, ApplySendingEnd, ApplyReceivingData, ApplyReceivingResyncing, ApplyReceivingResynced,
      ApplyReceivingEnd, ApplyInterrupted;
  }

  lemma ReceivingParts(s: State, e: Event)
    requires !IsAbort(e) && Layer(s) == 4 && !Sends(FamilyOf(s))
    ensures InData(s) ==> Apply(s, e) == ApplyReceivingData(s, e)
    ensures InResyncing(s) ==> Apply(s, e) == ApplyReceivingResyncing(s, e)
    ensures InResynced(s) ==> Apply(s, e) == ApplyReceivingResynced(s, e)
    ensures InEnd(s) ==> Apply(s, e) == ApplyReceivingEnd(s, e)
  {
    hide ApplyConnection, ApplyMessage, ApplySelection, ApplyOpen, ApplySendingData, ApplySendingResyncing,
      ApplySendingResynced, ApplySendingEnd, ApplyReceivingData, ApplyReceivingResyncing, ApplyReceivingResynced,
      ApplyReceivingEnd, ApplyInterrupted;
  }

  lemma ConnectionInStep(a: State, b: State, q: Request, e: Event)
    requires ConnectionPair(a, b) && q != DoAbort && !IsAbort(e)
    ensures InStep(a, b, q, e, Apply(a, Local(q)), Apply(b, e))
    ensures InStep(b, a, q, e, Apply(b, Local(q)), Apply(a, e))
  {
    hide InStep, Apply, ApplyConnection, ApplyMessage, ApplySelection, ApplyOpen, ApplySendingData, ApplySendingResyncing,
      ApplySendingResynced, ApplySendingEnd, ApplyReceivingData, ApplyReceivingResyncing, ApplyReceivingResynced,
      ApplyReceivingEnd, ApplyInterrupted;
    Parts(a, Local(q));
    Parts(a, e);
    Parts(b, Local(q));
    Parts(b, e);
    if a.Cn01? {
      Cn01InStep(q, e);
    } else if a.Cn02A? {
      Cn02InStep(q, e);
    } else if a.Cn03? {
      Cn03InStep(q, e);
    } else {
      Cn04InStep(q, e);
    }
  }

  lemma MessageInStep(a: State, b: State, q: Request, e: Event)
    requires MessagePair(a, b) && q != DoAbort && !IsAbort(e)
    ensures InStep(a, b, q, e, Apply(a, Local(q)), Apply(b, e))
    ensures InStep(b, a, q, e, Apply(b, Local(q)), Apply(a, e))
  {
    hide InStep, Apply, ApplyConnection, ApplyMessage, ApplySelection, ApplyOpen, ApplySendingData, ApplySendingResyncing,
      ApplySendingResynced, ApplySendingEnd, ApplyReceivingData, ApplyReceivingResyncing, ApplyReceivingResynced,
      ApplyReceivingEnd, ApplyInterrupted;
    Parts(a, Local(q));
    Parts(a, e);
    Parts(b, Local(q));
    Parts(b, e);
    if a.Mg01A? && b.Mg01B? {
      Mg01AMg01BInStep(q, e);
    } else if a.Mg01A? && b.Mg04B? {
      Mg01AMg04BInStep(q, e);
      Mg04BMg01AInStep(q, e);
    } else {
      Mg04AInStep(q, e);
      Mg04BInStep(q, e);
    }
  }

  lemma SelectionInStep(a: State, b: State, q: Request, e: Event)
    requires SelectionPair(a, b) && q != DoAbort && !IsAbort(e)
    ensures InStep(a, b, q, e, Apply(a, Local(q)), Apply(b, e))
    ensures InStep(b, a, q, e, Apply(b, Local(q)), Apply(a, e))
  {
    hide InStep, Apply, ApplyConnection, ApplyMessage, ApplySelection, ApplyOpen, ApplySendingData, ApplySendingResyncing,
      ApplySendingResynced, ApplySendingEnd, ApplyReceivingData, ApplyReceivingResyncing, ApplyReceivingResynced,
      ApplyReceivingEnd, ApplyInterrupted;
    Parts(a, Local(q));
    Parts(a, e);
    Parts(b, Local(q));
    Parts(b, e);
    if a.Sf01A? {
      Sf01InStep(q, e);
    } else if a.Sf02A? {
      Sf02InStep(q, e);
    } else if a.Sf03? {
      Sf03InStep(q, e);
    } else {
      Sf04InStep(q, e);
    }
  }

  lemma OpenInStep(a: State, b: State, q: Request, e: Event)
    requires OpenPair(a, b) && q != DoAbort && !IsAbort(e)
    ensures InStep(a, b, q, e, Apply(a, Local(q)), Apply(b, e))
    ensures InStep(b, a, q, e, Apply(b, Local(q)), Apply(a, e))
  {
    hide InStep, Apply, ApplyConnection, ApplyMessage, ApplySelection, ApplyOpen, ApplySendingData, ApplySendingResyncing,
      ApplySendingResynced, ApplySendingEnd, ApplyReceivingData, ApplyReceivingResyncing, ApplyReceivingResynced,
      ApplyReceivingEnd, ApplyInterrupted;
    OpenParts(a, Local(q));
    OpenParts(a, e);
    OpenParts(b, Local(q));
    OpenParts(b, e);
    if a.Of01A? {
      Of01InStep(q, e);
    } else if a.Of02? {
      Of02InStep(q, e);
    } else {
      Of03AInStep(q, e);
      Of03BInStep(q, e);
    }
  }

  lemma StartInStep(a: State, b: State, q: Request, e: Event)
    requires StartPair(a, b) && q != DoAbort && !IsAbort(e)
    ensures InStep(a, b, q, e, Apply(a, Local(q)), Apply(b, e))
    ensures InStep(b, a, q, e, Apply(b, Local(q)), Apply(a, e))
  {
    hide InStep, Apply, ApplyConnection, ApplyMessage, ApplySelection, ApplyOpen, ApplySendingData, ApplySendingResyncing,
      ApplySendingResynced, ApplySendingEnd, ApplyReceivingData, ApplyReceivingResyncing, ApplyReceivingResynced,
      ApplyReceivingEnd, ApplyInterrupted;
    OpenParts(a, Local(q));
    OpenParts(a, e);
    OpenParts(b, Local(q));
    OpenParts(b, e);
    if a.Tde01A? {
      Tde01AInStep(q, e);
      Tde01BInStep(q, e);
    } else {
      Tdl01AInStep(q, e);
      Tdl01BInStep(q, e);
    }
  }

  lemma DataInStep(a: State, b: State, q: Request, e: Event)
    requires DataPair(a, b) && q != DoAbort && !IsAbort(e)
    ensures InStep(a, b, q, e, Apply(a, Local(q)), Apply(b, e))
    ensures InStep(b, a, q, e, Apply(b, Local(q)), Apply(a, e))
  {
    hide InStep, Apply, ApplyConnection, ApplyMessage, ApplySelection, ApplyOpen, ApplySendingData, ApplySendingResyncing,
      ApplySendingResynced, ApplySendingEnd, ApplyReceivingData, ApplyReceivingResyncing, ApplyReceivingResynced,
      ApplyReceivingEnd, ApplyInterrupted;
    SendingParts(a, Local(q));
    SendingParts(a, e);
    ReceivingParts(b, Local(q));
    ReceivingParts(b, e);
    if a.Tde02A? {
      Tde02BInStep(q, e);
      if q in {DoSendData, DoSync, DoDataEnd} {
        Tde02ADataInStep(q, e);
      } else {
        Tde02AInStep(q, e);
      }
    } else {
      Tdl02AInStep(q, e);
      if q in {DoSendData, DoSync, DoDataEnd} {
        Tdl02BDataInStep(q, e);
      } else {
        Tdl02BInStep(q, e);
      }
    }
  }

  lemma ResyncInStep(a: State, b: State, q: Request, e: Event)
    requires ResyncPair(a, b) && q != DoAbort && !IsAbort(e)
    ensures InStep(a, b, q, e, Apply(a, Local(q)), Apply(b, e))
    ensures InStep(b, a, q, e, Apply(b, Local(q)), Apply(a, e))
  {
    hide InStep, Apply, ApplyConnection, ApplyMessage, ApplySelection, ApplyOpen, ApplySendingData, ApplySendingResyncing,
      ApplySendingResynced, ApplySendingEnd, ApplyReceivingData, ApplyReceivingResyncing, ApplyReceivingResynced,
      ApplyReceivingEnd, ApplyInterrupted;
    SendingParts(a, Local(q));
    SendingParts(a, e);
    ReceivingParts(b, Local(q));
    ReceivingParts(b, e);
    if a.Tde03A? {
      Tde03AInStep(q, e);
      Tde04BInStep(q, e);
    } else if a.Tde04A? {
      Tde03BInStep(q, e);
      if q in {DoSendData, DoSync, DoDataEnd, DoTransferEnd} {
        Tde04ADataInStep(q, e);
      } else {
        Tde04AInStep(q, e);
      }
    } else if a.Tdl03B? {
      Tdl03BInStep(q, e);
      Tdl04AInStep(q, e);
    } else {
      Tdl03AInStep(q, e);
      if q in {DoSendData, DoSync, DoDataEnd, DoTransferEnd} {
        Tdl04BDataInStep(q, e);
      } else {
        Tdl04BInStep(q, e);
      }
    }
  }

  lemma IdtInStep(a: State, b: State, q: Request, e: Event)
    requires IdtPair(a, b) && q != DoAbort && !IsAbort(e)
    ensures InStep(a, b, q, e, Apply(a, Local(q)), Apply(b, e))
    ensures InStep(b, a, q, e, Apply(b, Local(q)), Apply(a, e))
  {
    hide InStep, Apply, ApplyConnection, ApplyMessage, ApplySelection, ApplyOpen, ApplySendingData, ApplySendingResyncing,
      ApplySendingResynced, ApplySendingEnd, ApplyReceivingData, ApplyReceivingResyncing, ApplyReceivingResynced,
      ApplyReceivingEnd, ApplyInterrupted;
    InterruptedParts(a, Local(q));
    InterruptedParts(a, e);
    InterruptedParts(b, Local(q));
    InterruptedParts(b, e);
    if a.Tde05A? {
      Tde05InStep(q, e);
    } else if a.Tde06A? {
      Tde06InStep(q, e);
    } else if a.Tdl05B? {
      Tdl05AInStep(q, e);
      Tdl05BInStep(q, e);
    } else {
      Tdl06InStep(q, e);
    }
  }

  lemma EndInStep(a: State, b: State, q: Request, e: Event)
    requires EndPair(a, b) && q != DoAbort && !IsAbort(e)
    ensures InStep(a, b, q, e, Apply(a, Local(q)), Apply(b, e))
    ensures InStep(b, a, q, e, Apply(b, Local(q)), Apply(a, e))
  {
    hide InStep, Apply, ApplyConnection, ApplyMessage, ApplySelection, ApplyOpen, ApplySendingData, ApplySendingResyncing,
      ApplySendingResynced, ApplySendingEnd, ApplyReceivingData, ApplyReceivingResyncing, ApplyReceivingResynced,
      ApplyReceivingEnd, ApplyInterrupted;
    SendingParts(a, Local(q));
    SendingParts(a, e);
    ReceivingParts(b, Local(q));
    ReceivingParts(b, e);
    if a.Tde07A? {
      Tde07AInStep(q, e);
      Tde07BInStep(q, e);
    } else if a.Tde08A? {
      Tde08AInStep(q, e);
      Tde08BInStep(q, e);
    } else if a.Tdl07B? {
      Tdl07BInStep(q, e);
      Tdl07AInStep(q, e);
    } else {
      Tdl08BInStep(q, e);
      Tdl08AInStep(q, e);
    }
  }

  lemma AbortSaid(s: State, e: Event)
    requires Says(s, DoAbort, e)
    ensures e == R(Abort)
  {
    hide Answers;
  }

  lemma Aborted(s: State, e: Event)
    requires IsAbort(e)
    ensures Apply(s, e) == Next(Cn01)
  {
    hide ApplyConnection, ApplyMessage, ApplySelection, ApplyOpen, ApplySending, ApplyReceiving, Layer, FamilyOf;
  }

  lemma BothIdle()
    ensures Mirrored(Cn01, Cn01)
  {
  }

  lemma AbortMatched(s: State, t: State)
    ensures !Unmatched(s, t, DoAbort)
  {
  }

  lemma AbortInStep(s: State, t: State, e: Event)
    requires Says(s, DoAbort, e)
    ensures InStep(s, t, DoAbort, e, Apply(s, Local(DoAbort)), Apply(t, e))
  {
    hide Apply, Says, Mirrored, Unmatched;
    AbortSaid(s, e);
    Aborted(s, Local(DoAbort));
    Aborted(t, R(Abort));
    BothIdle();
    AbortMatched(s, t);
  }

  lemma AnswersNoAbort(s: State, negative: bool, e: Event)
    requires Answers(s, negative, e)
    ensures !IsAbort(e)
  {
  }

  lemma OnlyAbortAborts(s: State, q: Request, e: Event)
    requires Says(s, q, e) && q != DoAbort
    ensures !IsAbort(e)
  {
    hide Answers;
    if q == DoAccept || q == DoReject {
      AnswersNoAbort(s, q == DoReject, e);
    }
  }

  lemma PairInStep(a: State, b: State, q: Request, e: Event)
    requires Paired(a, b) && q != DoAbort && !IsAbort(e)
    ensures InStep(a, b, q, e, Apply(a, Local(q)), Apply(b, e))
    ensures InStep(b, a, q, e, Apply(b, Local(q)), Apply(a, e))
  {
    hide InStep, Apply, ConnectionPair, MessagePair, SelectionPair, OpenPair, StartPair, DataPair, ResyncPair, IdtPair,
      EndPair, IsAbort;
    if ConnectionPair(a, b) {
      ConnectionInStep(a, b, q, e);
    } else if MessagePair(a, b) {
      MessageInStep(a, b, q, e);
    } else if SelectionPair(a, b) {
      SelectionInStep(a, b, q, e);
    } else if OpenPair(a, b) {
      OpenInStep(a, b, q, e);
    } else if StartPair(a, b) {
      StartInStep(a, b, q, e);
    } else if DataPair(a, b) {
      DataInStep(a, b, q, e);
    } else if ResyncPair(a, b) {
      ResyncInStep(a, b, q, e);
    } else if IdtPair(a, b) {
      IdtInStep(a, b, q, e);
    } else {
      EndInStep(a, b, q, e);
    }
  }

  lemma MirrorInStep(s: State, t: State, q: Request, e: Event)
    requires Mirrored(s, t) && Says(s, q, e)
    ensures InStep(s, t, q, e, Apply(s, Local(q)), Apply(t, e))
  {
    hide InStep, Apply, Paired, Says, IsAbort;
    if q == DoAbort {
      AbortInStep(s, t, e);
    } else {
      OnlyAbortAborts(s, q, e);
      if Paired(s, t) {
        PairInStep(s, t, q, e);
      } else {
        PairInStep(t, s, q, e);
      }
    }
  }

  /** Two mirrored machines stay mirrored: what one of them does, the other accepts or ignores, but for the requests
      above, which it refuses. */
  lemma {:induction false} MirrorKept(s: State, t: State, q: Request, e: Event)
    requires Mirrored(s, t) && Apply(s, Local(q)) != Refuse && Says(s, q, e)
    ensures Apply(t, e) == Refuse <==> Unmatched(s, t, q)
    ensures !Unmatched(s, t, q) ==> Mirrored(After(s, Local(q)), After(t, e))
  {
    hide Apply, Mirrored, Says, Unmatched;
    MirrorInStep(s, t, q, e);
  }
}
