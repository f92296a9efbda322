/** Rules of the data phase that every run follows: who answers points, what holds the sender up, what a transfer from
    the beginning starts with. */
module DataRules {
  import opened Bytes
  import opened Params
  import opened Checkpoints
  import opened Canon
  import opened DataPhase
  import opened DataSafety
  import opened DataWindow
  import opened FileIo
  import A = Articles

  /** No point is acknowledged when points were agreed without a window. */
  predicate Unasked(cfg: Config, back: seq<Pdu>)
  {
    cfg.sync.window == 0 && cfg.sync.intervalKb != 0 ==> forall p :: p in back ==> !p.AckSyn?
  }

  lemma ForwardUnasked(cfg: Config, s: System)
    requires Unasked(cfg, s.back)
    ensures Unasked(cfg, DoTakeForward(cfg, s).back)
  {
    hide Take, A.Fed, TruncatedTo;
    if cfg.sync.window == 0 && cfg.sync.intervalKb != 0 {
      forall p | p in DoTakeForward(cfg, s).back ensures !p.AckSyn? {
        assert p in s.back || p == Resyn(s.receiver.lastSync);
      }
    }
  }

  lemma BackUnasked(cfg: Config, s: System)
    requires cfg.WellCut() && Unasked(cfg, s.back)
    ensures Unasked(cfg, DoTakeBack(cfg, s).back)
  {
    hide Popped, ResumedAt;
    if s.back != [] {
      assert forall p :: p in s.back[1..] ==> p in s.back;
    }
  }

  lemma EmitKeepsBack(cfg: Config, s: System, sender: Sender, ops: seq<ShipOp>)
    ensures Emit(cfg, s, sender, ops).back == s.back
  {
    hide Perform;
  }

  lemma StepUnasked(cfg: Config, s: System, a: Action)
    requires cfg.packing.Valid() && cfg.WellCut() && Unasked(cfg, s.back)
    ensures Unasked(cfg, Step(cfg, s, a).back)
  {
    hide Emit, DoTakeForward, DoTakeBack, ResumedAt, TruncatedTo;
    match a {
      case TakeForward => ForwardUnasked(cfg, s);
      case TakeBack => BackUnasked(cfg, s);
      case SendArticle =>
        if CanSend(cfg, s) && s.sender.next < |cfg.arts| {
          var at := AtPoint(cfg, s.sender);
          EmitKeepsBack(cfg, s, WithArticle(cfg, at), PointOps(cfg, s.sender) + ArticleOps(cfg, at));
          EmitKeepsBack(cfg, s, WithArticle(cfg, s.sender), ArticleOps(cfg, s.sender));
        }
      case FailAtSync =>
        if CanSend(cfg, s) && s.sender.next < |cfg.arts| {
          EmitKeepsBack(cfg, s, s.sender, PointOps(cfg, s.sender));
        }
      case SendEnd =>
        EmitKeepsBack(cfg, s, s.sender.(phase := Ended, pending := []),
                      Puts(Datas(A.Flushed(cfg.packing, s.sender.pending))) + [PutAndSend(DtfEnd)]);
      case _ =>
    }
  }

  /** A receiver that agreed on points without a window never acknowledges one, whatever is damaged, lost or
      restarted. */
  lemma {:induction false} NoUnaskedAcks(cfg: Config, actions: seq<Action>)
    requires cfg.packing.Valid() && cfg.WellCut()
    ensures cfg.sync.window == 0 && cfg.sync.intervalKb != 0 ==>
      forall p :: p in DataPhase.Run(cfg, actions).back ==> !p.AckSyn?
  {
    hide Step;
    if actions != [] {
      NoUnaskedAcks(cfg, actions[..|actions| - 1]);
      StepUnasked(cfg, DataPhase.Run(cfg, actions[..|actions| - 1]), actions[|actions| - 1]);
    }
  }

  /** A sender is held up by its window only when as many points as the window allows are unacknowledged; otherwise its
      next turn takes the next article, or ends the data. */
  lemma {:induction false} WindowUsed(cfg: Config, actions: seq<Action>)
    requires cfg.Valid() && AllAllowed(cfg, actions)
    ensures var s := DataPhase.Run(cfg, actions);
      s.sender.phase == Sending && (cfg.sync.window == 0 || |s.sender.unacked| != cfg.sync.window) ==>
        && (s.sender.next < |cfg.arts| ==>
              && Step(cfg, s, SendArticle).sender.next == s.sender.next + 1
              && Step(cfg, s, SendArticle).sender.articles == s.sender.articles + 1)
        && (s.sender.next == |cfg.arts| ==> Step(cfg, s, SendEnd).sender.phase == Ended)
  {
    hide DataPhase.Run, Emit, PointDue, PointOps, ArticleOps;
    RunWindow(cfg, actions);
    var s := DataPhase.Run(cfg, actions);
    WindowBound(cfg, s);
    if CanSend(cfg, s) {
      TurnTaken(cfg, s);
    }
  }

  lemma WindowBound(cfg: Config, s: System)
    requires WindowOk(cfg, s)
    ensures s.sender.phase == Sending && cfg.sync.window > 0 ==> |s.sender.unacked| <= cfg.sync.window
  {
  }

  lemma TurnTaken(cfg: Config, s: System)
    requires cfg.packing.Valid() && cfg.WellCut() && CanSend(cfg, s)
    ensures s.sender.next < |cfg.arts| ==>
      && DoSendArticle(cfg, s).sender.next == s.sender.next + 1
      && DoSendArticle(cfg, s).sender.articles == s.sender.articles + 1
    ensures s.sender.next == |cfg.arts| ==> DoSendEnd(cfg, s).sender.phase == Ended
  {
    hide Perform, PointDue, PointOps, ArticleOps;
  }

  /** A transfer from the beginning forgets every point of an earlier one and empties the file. */
  lemma StartsAfresh(cfg: Config, s: System, n: nat)
    requires cfg.WellCut() && n >= 1 && (s.start.None? || s.start == Some(0))
    ensures s.sender.phase == SendIdle ==>
      var v := DoBeginSender(cfg, s, 0).sender;
      v.phase == Sending && v.store.Get(n) == None && v.dataBytes == v.articles == v.syncNo == 0
    ensures s.receiver.phase == ReceiveIdle ==>
      var r := DoBeginReceiver(cfg, s, 0).receiver;
      r.phase == Receiving && r.store.Get(n) == None && r.file == [] && r.dataBytes == r.articles == r.lastSync == 0
  {
    assert Resized(s.receiver.file, 0) == [];
  }

  /** A damaged unit is never acted upon: while data is received it has the last point asked for again, if that was
      agreed, and otherwise, or while an answer is awaited, it stops the receiver. */
  lemma DamageAnswered(cfg: Config, s: System)
    requires s.fwd != [] && s.fwd[0].damaged && (s.receiver.phase == Receiving || s.receiver.phase == AwaitAck)
    ensures var t := DoTakeForward(cfg, s);
      && t.fwd == s.fwd[1..] && t.sender == s.sender
      && t.receiver == s.receiver.(phase := t.receiver.phase)
      && (t.receiver.phase == AwaitAck <==> s.receiver.phase == Receiving && cfg.resync)
      && (t.receiver.phase == ReceiveFailed <==> !(s.receiver.phase == Receiving && cfg.resync))
      && t.back == s.back + if t.receiver.phase == AwaitAck then [Resyn(s.receiver.lastSync)] else []
  {
    hide Receive, Await;
  }

  /** A request to resume stops a sender that has ended its data or did not agree to it; any other answers with a point
      it has, the one asked for if it has that, and resumes there. */
  lemma RequestAnswered(cfg: Config, s: System)
    requires cfg.WellCut() && s.back != [] && s.back[0].Resyn? && (s.sender.phase == Sending || s.sender.phase == Ended)
    ensures var t, n := DoTakeBack(cfg, s), s.back[0].n;
      && t.receiver == s.receiver && t.back == s.back[1..]
      && (s.sender.phase == Ended || !cfg.resync ==>
            t.sender.phase == SendFailed && t.fwd == s.fwd && t.sender.store == s.sender.store)
      && (s.sender.phase == Sending && cfg.resync ==>
            && t.sender.phase == Sending && t.sender.unacked == [] && t.sender.pending == []
            && t.fwd == s.fwd + [Packet(AckResyn(t.sender.syncNo), false)]
            && (s.sender.store.Valid() ==>
                  t.sender.syncNo == if n in s.sender.store.points || n == 0 then n else 0))
  {
    hide Rewound;
  }
}
