/** A transfer can always be brought to its end once nothing more is damaged. */
module DataProgress {
  import opened Bytes
  import opened Params
  import opened Checkpoints
  import opened Canon
  import opened DataPhase
  import opened LogFollowing
  import opened DataSafety
  import opened DataSteps
  import opened DataReception
  import opened DataTheorems
  import opened DataWindow
  import opened DataResults
  import opened DataNumbers
  import opened DataRoom
  import opened Cutter
  import F = Fpdu
  import A = Articles

  /** The turns of the two loops, as opposed to what befalls them. */
  predicate Turn(a: Action) { a == SendArticle || a == SendEnd || a == TakeBack || a == TakeForward }

  predicate Undamaged(s: System)
  {
    forall p :: p in s.fwd ==> !p.damaged
  }

  /** Both loops run, and a request for a point is still in time. */
  predicate Running(cfg: Config, s: System)
  {
    && Undamaged(s) && Active(s.sender)
    && (if s.receiver.phase == AwaitAck then cfg.resync && (Requested(s.back) ==> s.sender.phase == Sending)
        else s.receiver.phase == Receiving)
  }

  function Stage(s: System): nat
  {
    if s.receiver.phase != AwaitAck then 0 else if Requested(s.back) then 2 else 1
  }

  function Left(cfg: Config, s: System): nat
  {
    (if s.sender.next <= |cfg.arts| then |cfg.arts| - s.sender.next else 0) + if s.sender.phase == Sending then 1 else 0
  }

  /** No turn of a run sends an empty entity. */
  predicate AllFilled(cfg: Config, s: System, actions: seq<Action>)
    requires cfg.packing.Valid() && cfg.WellCut()
    decreases |actions|
  {
    actions == []
    || (Filled(cfg, s.sender.entity, TurnOps(cfg, s, actions[0]))
        && AllFilled(cfg, Step(cfg, s, actions[0]), actions[1..]))
  }

  /** What a transfer needs to come through: room for every unit, and numbers of three octets for all its points. */
  predicate Passable(cfg: Config)
  {
    cfg.packing.maxDtf >= ROOM && Points(cfg) < MAX_SYNC_NUMBER
  }

  /** One turn nearer to the end. */
  ghost predicate Nearer(cfg: Config, s: System, t: System)
  {
    Stage(t) < Stage(s)
    || (Stage(t) == Stage(s)
        && (Left(cfg, t) < Left(cfg, s)
            || (Left(cfg, t) == Left(cfg, s)
                && (|t.fwd| < |s.fwd| || (|t.fwd| == |s.fwd| && |t.back| < |s.back|)))))
  }

  lemma NextTurn(cfg: Config, s: System, si: nat, ri: nat) returns (a: Action)
    requires cfg.Valid() && Inv(cfg, s, si, ri) && WindowOk(cfg, s) && Running(cfg, s)
    requires NumbersOk(cfg, s) && Passable(cfg)
    ensures Turn(a)
    ensures var t := Step(cfg, s, a);
      t.receiver.phase == Completed || (Running(cfg, t) && Nearer(cfg, s, t))
  {
    if s.receiver.phase == AwaitAck && !Requested(s.back) {
      AckOnItsWay(cfg, s, si, ri);
    }
    if s.receiver.phase == AwaitAck && Requested(s.back) {
      a := TakeBack;
      TurnBack(cfg, s, si, ri);
    } else if s.fwd != [] {
      a := TakeForward;
      HeadReadable(cfg, s);
      TurnForward(cfg, s, si, ri);
    } else if s.back != [] {
      a := TakeBack;
      TurnBack(cfg, s, si, ri);
    } else {
      hide DataWindow.WindowOk, Inv;
      a := TurnSend(cfg, s, si, ri);
    }
  }

  /** A receiver that waits without a request pending has its answer in the queue. */
  lemma AckOnItsWay(cfg: Config, s: System, si: nat, ri: nat)
    requires cfg.Valid() && Inv(cfg, s, si, ri) && WindowOk(cfg, s) && Running(cfg, s)
    requires s.receiver.phase == AwaitAck && !Requested(s.back)
    ensures s.fwd != []
  {
    hide Reach, RefGood, FileAt, Follow, FollowOne, Holds, SenderAt;
    if s.fwd == [] {
      assert Flow(s.fwd, s.sender.entity) == s.sender.entity;
      DataAckFree(s.sender.entity);
    }
  }

  lemma TurnBack(cfg: Config, s: System, si: nat, ri: nat)
    requires cfg.Valid() && Inv(cfg, s, si, ri) && WindowOk(cfg, s) && Running(cfg, s) && s.back != []
    ensures var t := Step(cfg, s, TakeBack); Running(cfg, t) && Nearer(cfg, s, t)
  {
    hide Reach, RefGood, FileAt, Follow, FollowOne, Holds, Flow, Popped, SenderStoreOk, ReceiverStoreOk, FileOk;
    var t := DoTakeBack(cfg, s);
    assert s.back[0].AckSyn? || s.back[0].Resyn?;
    if s.back[0].AckSyn? {
      BackTail(s.back, Low(s));
    } else {
      assert |s.back| == 1 && s.receiver.phase == AwaitAck by {
        assert s.back[0].Resyn?;
      }
      var ti := KeepsResyn(cfg, s, si, ri);
      assert forall p :: p in t.fwd ==> p in s.fwd || !p.damaged;
    }
  }

  lemma HeadReadable(cfg: Config, s: System)
    requires NumbersOk(cfg, s) && Passable(cfg) && s.fwd != []
    ensures !TooHigh(s.fwd[0].pdu)
  {
    hide Points, Flow;
    FlowParts(s.fwd, s.sender.entity);
    assert s.fwd[0] in s.fwd;
  }

  lemma TurnForward(cfg: Config, s: System, si: nat, ri: nat)
    requires cfg.Valid() && Inv(cfg, s, si, ri) && WindowOk(cfg, s) && Running(cfg, s) && s.fwd != []
    requires !TooHigh(s.fwd[0].pdu)
    ensures var t := Step(cfg, s, TakeForward);
      t.receiver.phase == Completed || (Running(cfg, t) && Nearer(cfg, s, t))
  {
    hide Reach, RefGood, FileAt, Follow, FollowOne, Holds, Flow, Receive, SenderStoreOk, SenderAt, FileOk;
    var r, t := s.receiver, DoTakeForward(cfg, s);
    assert s.fwd[0] in s.fwd;
    assert forall p :: p in s.fwd[1..] ==> p in s.fwd;
    if r.phase == Receiving {
      ReadsHead(cfg, s.sender, si, (ri, r.partial), s.fwd, s.sender.entity);
      var qi := ReceiveStep(cfg, r, ri, s.fwd[0].pdu);
    } else if s.fwd[0].pdu.AckResyn? {
      KeepsAckResyn(cfg, s, si, ri);
    }
  }

  lemma TurnSend(cfg: Config, s: System, si: nat, ri: nat) returns (a: Action)
    requires cfg.Valid() && Inv(cfg, s, si, ri) && WindowOk(cfg, s) && Running(cfg, s) && s.fwd == [] && s.back == []
    ensures a == SendArticle || a == SendEnd
    ensures var t := Step(cfg, s, a); Running(cfg, t) && Nearer(cfg, s, t)
  {
    hide Reach, RefGood, FileAt, Follow, FollowOne, Holds, Flow, PointDue, Perform, PointOps, ArticleOps, A.Pushed, A.Flushed,
      SenderStoreOk, ReceiverStoreOk, ReceiverAt;
    if s.sender.phase == Sending {
      QuietWindow(cfg, s, si, ri);
      a := if s.sender.next < |cfg.arts| then SendArticle else SendEnd;
      var t := Step(cfg, s, a);
      assert s.sender.next <= |cfg.arts|;
      forall p | p in t.fwd ensures !p.damaged {
        if p.damaged {
          SentUndamaged(cfg, s, a, p);
        }
      }
    } else {
      QuietEnd(cfg, s, si, ri);
    }
  }

  lemma SentUndamaged(cfg: Config, s: System, a: Action, p: Packet)
    requires cfg.packing.Valid() && cfg.WellCut() && (a == SendArticle || a == SendEnd)
    requires p in Step(cfg, s, a).fwd && p.damaged
    ensures p in s.fwd
  {
    hide Perform, PointDue, PointOps, ArticleOps, A.Flushed, A.Pushed;
    var v := s.sender;
    if a == SendEnd {
      if CanSend(cfg, s) && v.next == |cfg.arts| {
        PerformUndamaged(cfg, v.entity, s.fwd, Puts(Datas(A.Flushed(cfg.packing, v.pending))) + [PutAndSend(DtfEnd)], p);
      }
    } else if CanSend(cfg, s) && v.next < |cfg.arts| {
      if PointDue(cfg, v) {
        PerformUndamaged(cfg, v.entity, s.fwd, PointOps(cfg, v) + ArticleOps(cfg, AtPoint(cfg, v)), p);
      } else {
        PerformUndamaged(cfg, v.entity, s.fwd, ArticleOps(cfg, v), p);
      }
    }
  }

  /** From every state with both loops running and no damage in flight, the loops' own turns lead to completion,
      and none of them sends an empty entity. */
  lemma {:induction false} CanCompleteFrom(cfg: Config, s: System, si: nat, ri: nat) returns (actions: seq<Action>)
    requires cfg.Valid() && Inv(cfg, s, si, ri) && WindowOk(cfg, s) && Running(cfg, s)
    requires NumbersOk(cfg, s) && Passable(cfg)
    ensures forall a :: a in actions ==> Turn(a)
    ensures RunFrom(cfg, s, actions).receiver.phase == Completed && AllFilled(cfg, s, actions)
    decreases Stage(s), Left(cfg, s), |s.fwd|, |s.back|
  {
    hide Inv, DataWindow.WindowOk, Step, Running, NumbersOk, Passable;
    var a := NextTurn(cfg, s, si, ri);
    var t := Step(cfg, s, a);
    TurnFilled(cfg, s, a, si, ri);
    if t.receiver.phase == Completed {
      actions := [a];
      assert [a][1..] == [];
      assert RunFrom(cfg, t, []) == t && AllFilled(cfg, t, []);
    } else {
      TurnAllowed(cfg, s, a);
      WindowStep(cfg, s, a, si, ri);
      NumbersStep(cfg, s, a, si, ri);
      var ti, qi := KeepsStep(cfg, s, a, si, ri);
      var rest := CanCompleteFrom(cfg, t, ti, qi);
      actions := [a] + rest;
      assert actions[1..] == rest;
    }
  }

  lemma TurnFilled(cfg: Config, s: System, a: Action, si: nat, ri: nat)
    requires cfg.Valid() && Inv(cfg, s, si, ri) && Passable(cfg)
    ensures Filled(cfg, s.sender.entity, TurnOps(cfg, s, a))
  {
    hide Inv, Points, TurnOps, Filled;
    TurnFits(cfg, s, a, si, ri);
    FilledWhenFit(cfg, s.sender.entity, TurnOps(cfg, s, a));
  }

  lemma TurnAllowed(cfg: Config, s: System, a: Action)
    requires Turn(a)
    ensures Allowed(cfg, s, a)
  {
  }

  /** Turns after a run are a longer run. */
  lemma {:induction false} RunOn(cfg: Config, past: seq<Action>, actions: seq<Action>)
    requires cfg.Valid() && AllAllowed(cfg, past)
    requires forall a :: a in actions ==> Turn(a)
    ensures AllAllowed(cfg, past + actions)
    ensures DataPhase.Run(cfg, past + actions) == RunFrom(cfg, DataPhase.Run(cfg, past), actions)
    decreases |actions|
  {
    hide DataPhase.Run, Step, AllAllowed, Allowed;
    if actions == [] {
      assert past + [] == past;
    } else {
      var a := actions[0];
      TurnAllowed(cfg, DataPhase.Run(cfg, past), a);
      RunSnoc(cfg, past, a);
      RunOn(cfg, past + [a], actions[1..]);
      assert past + actions == past + [a] + actions[1..];
    }
  }

  /** Every run whose loops are both at work can be brought to completion by their own turns if and only if the log
      has fewer than 2^24 points; the file is then whole, and no empty entity was sent on the way. */
  lemma {:induction false} CanComplete(cfg: Config, past: seq<Action>) returns (actions: seq<Action>)
    requires cfg.Valid() && AllAllowed(cfg, past) && Running(cfg, DataPhase.Run(cfg, past))
    requires cfg.packing.maxDtf >= ROOM
    ensures (forall a :: a in actions ==> Turn(a)) && AllAllowed(cfg, past + actions)
    ensures AllFilled(cfg, DataPhase.Run(cfg, past), actions)
    ensures var r := DataPhase.Run(cfg, past + actions).receiver;
      if Points(cfg) < MAX_SYNC_NUMBER then r.phase == Completed && r.file == Delivered(cfg.format, cfg.arts)
      else forall more :: AllAllowed(cfg, past + more) ==> DataPhase.Run(cfg, past + more).receiver.phase != Completed
  {
    hide Inv, DataWindow.WindowOk, Running, DataPhase.Run, Step, NumbersOk, Points;
    if Points(cfg) < MAX_SYNC_NUMBER {
      var si, ri := RunKeeps(cfg, past);
      RunWindow(cfg, past);
      RunNumbers(cfg, past);
      actions := CanCompleteFrom(cfg, DataPhase.Run(cfg, past), si, ri);
      RunOn(cfg, past, actions);
      ExactDelivery(cfg, past + actions);
    } else {
      actions := [];
      assert past + [] == past;
      forall more | AllAllowed(cfg, past + more)
        ensures DataPhase.Run(cfg, past + more).receiver.phase != Completed
      {
        CompletedWithin(cfg, past + more);
      }
    }
  }

  /** The connection lost, both sides restart from a point. */
  function Restart(len: nat, p: nat): seq<Action> { [Lose(len), BeginReceiver(p), BeginSender(p)] }

  /** A point both sides can restart from once the connection is lost: the beginning, or a point that both stores
      hold and the file still reaches. */
  ghost predicate CanRestart(cfg: Config, s: System, len: nat, p: nat)
  {
    var file := DoLose(s, len).receiver.file;
    p == 0
    || (cfg.Tolerant() && p in s.sender.store.points && p in s.receiver.store.points
        && s.receiver.store.points[p].fileOffset <= |file|)
  }

  /** Whatever has happened, a transfer of fewer than 2^24 points can be restarted, from the beginning or from any
      point both sides can restart from, and brought to completion with the whole file and no empty entity; one of
      more points never completes. */
  lemma {:induction false} RestartCompletes(cfg: Config, past: seq<Action>, len: nat, p: nat)
    returns (actions: seq<Action>)
    requires cfg.Valid() && AllAllowed(cfg, past) && CanRestart(cfg, DataPhase.Run(cfg, past), len, p)
    requires cfg.packing.maxDtf >= ROOM
    ensures (forall a :: a in actions ==> Turn(a)) && AllAllowed(cfg, past + Restart(len, p) + actions)
    ensures AllFilled(cfg, DataPhase.Run(cfg, past + Restart(len, p)), actions)
    ensures var r := DataPhase.Run(cfg, past + Restart(len, p) + actions).receiver;
      if Points(cfg) < MAX_SYNC_NUMBER then r.phase == Completed && r.file == Delivered(cfg.format, cfg.arts)
      else forall more :: AllAllowed(cfg, past + more) ==> DataPhase.Run(cfg, past + more).receiver.phase != Completed
  {
    hide DataPhase.Run, AllAllowed, Step, CanRestart, Running, Points;
    var s := DataPhase.Run(cfg, past);
    RunSnoc(cfg, past, Lose(len));
    var after := past + [Lose(len)];
    Restarted(cfg, s, len, p);
    RunSnoc(cfg, after, BeginReceiver(p));
    RunSnoc(cfg, after + [BeginReceiver(p)], BeginSender(p));
    assert after + [BeginReceiver(p)] + [BeginSender(p)] == past + Restart(len, p);
    actions := CanComplete(cfg, past + Restart(len, p));
    if Points(cfg) >= MAX_SYNC_NUMBER {
      forall more | AllAllowed(cfg, past + more)
        ensures DataPhase.Run(cfg, past + more).receiver.phase != Completed
      {
        CompletedWithin(cfg, past + more);
      }
    }
  }

  lemma Restarted(cfg: Config, s: System, len: nat, p: nat)
    requires cfg.WellCut() && cfg.packing.Valid() && CanRestart(cfg, s, len, p)
    ensures var lost := Step(cfg, s, Lose(len));
      var half := Step(cfg, lost, BeginReceiver(p));
      && Allowed(cfg, s, Lose(len)) && Allowed(cfg, lost, BeginReceiver(p)) && Allowed(cfg, half, BeginSender(p))
      && Running(cfg, Step(cfg, half, BeginSender(p)))
  {
    hide Rewound;
  }
}
