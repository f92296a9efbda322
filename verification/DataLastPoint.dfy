/** Restarts from the receiver's last point: when the sender still has it, and when it never will. */
module DataLastPoint {
  import opened Bytes
  import opened Params
  import opened Checkpoints
  import opened Canon
  import opened DataPhase
  import opened LogFollowing
  import opened DataSafety
  import opened DataSteps
  import opened DataReception
  import opened DataTheorems
  import opened DataNumbers
  import opened DataRestarts
  import opened Cutter
  import DataAttempts
  import F = Fpdu
  import A = Articles

  // ---- the sender keeps it ----

  /** The receiver restarts from its last point or the beginning, its sender joins it, records every point it sends, and
      clears no store. */
  ghost predicate Holding(cfg: Config, s: System, a: Action)
  {
    && FromLast(cfg, s, a) && a != FailAtSync && a != ForgetSender
    && (a.BeginSender? ==> s.receiver.phase != ReceiveIdle)
  }

  ghost predicate AllHolding(cfg: Config, actions: seq<Action>)
    requires cfg.packing.Valid() && cfg.WellCut()
  {
    actions == [] ||
    (AllHolding(cfg, actions[..|actions| - 1])
     && Holding(cfg, DataPhase.Run(cfg, actions[..|actions| - 1]), actions[|actions| - 1]))
  }

  predicate SynsUpTo(ps: seq<Pdu>, n: nat)
  {
    forall p :: p in ps && p.Syn? ==> p.n <= n
  }

  /** What the receiver may still take of the flow. */
  function Due(s: System): seq<Pdu>
  {
    var flow := Flow(s.fwd, s.sender.entity);
    match s.receiver.phase
    case Receiving => flow
    case AwaitAck => if AfterAck(flow).Some? then AfterAck(flow).value.1 else []
    case _ => []
  }

  /** The sender has every point the receiver stands at or may still be sent. */
  predicate SenderKeeps(v: Sender, low: nat, due: seq<Pdu>)
  {
    && v.store.acknowledged <= low
    && (forall m :: 1 <= m && low <= m <= v.syncNo ==> m in v.store.points)
    && SynsUpTo(due, v.syncNo)
  }

  ghost predicate LastKept(s: System)
  {
    && (forall n :: s.receiver.store.IsLast(n) ==> n in s.sender.store.points)
    && (s.start.Some? ==> s.receiver.phase != ReceiveIdle)
    && (s.receiver.phase != ReceiveIdle ==> forall n :: s.receiver.store.IsLast(n) ==> n == s.receiver.lastSync)
    && (s.sender.phase != SendIdle ==> s.start.Some? && SenderKeeps(s.sender, s.receiver.lastSync, Due(s)))
  }

  // ---- the flow ----

  lemma SynsAppend(xs: seq<Pdu>, ys: seq<Pdu>, n: nat)
    requires SynsUpTo(xs, n) && SynsUpTo(ys, n)
    ensures SynsUpTo(xs + ys, n)
  {
  }

  /** The flow behind one turn of the sending loop. */
  lemma TurnFlow(cfg: Config, s: System, a: Action, si: nat, ri: nat)
    requires cfg.Valid() && Inv(cfg, s, si, ri) && (a == SendArticle || a == SendEnd)
    ensures var t, add := Step(cfg, s, a), PdusOf(TurnOps(cfg, s, a));
      && Flow(t.fwd, t.sender.entity) == Flow(s.fwd, s.sender.entity) + add
      && AckFree(add) && (forall p :: p in add && p.Syn? ==> p.n == s.sender.syncNo + 1)
      && t.receiver == s.receiver && t.back == s.back && t.start == s.start
  {
    hide Perform, PointDue, PointOps, ArticleOps, EndOps, WithArticle, AtPoint, Inv, Points, Flow;
    PerformFlow(cfg, s.sender.entity, s.fwd, TurnOps(cfg, s, a));
    TurnUnits(cfg, s, a, si, ri);
    SameEnd(cfg, s.sender);
    assert PdusOf([]) == [] && Flow(s.fwd, s.sender.entity) + [] == Flow(s.fwd, s.sender.entity);
  }

  /** What a turn of the sending loop changes of the sender's points. */
  lemma TurnPoints(cfg: Config, s: System, a: Action)
    requires cfg.packing.Valid() && cfg.WellCut() && (a == SendArticle || a == SendEnd)
    ensures var v, w, add := s.sender, Step(cfg, s, a).sender, PdusOf(TurnOps(cfg, s, a));
      || (w.syncNo == v.syncNo && w.store == v.store && forall p :: p in add ==> !p.Syn?)
      || (w.syncNo == v.syncNo + 1 && w.store.acknowledged == v.store.acknowledged
          && w.store.points.Keys == v.store.points.Keys + {v.syncNo + 1})
    ensures Step(cfg, s, a).sender.phase == s.sender.phase || (s.sender.phase == Sending && a == SendEnd)
  {
    hide Perform, PointDue, A.Pushed, A.Flushed, PdusOf, Puts, Datas, CompSent, CompAtSync, WireOut;
    var v := s.sender;
    assert PdusOf([]) == [] by {
      NoUnits();
    }
    if CanSend(cfg, s) {
      DatasData(A.Flushed(cfg.packing, v.pending));
      EndUnits(cfg, v);
      if v.next < |cfg.arts| {
        ArticleData(cfg, v);
      }
    }
  }

  lemma NoUnits()
    ensures PdusOf([]) == []
  {
  }

  /** What the receiver may still take grows with the flow. */
  lemma DueGrows(s: System, t: System, add: seq<Pdu>)
    requires Flow(t.fwd, t.sender.entity) == Flow(s.fwd, s.sender.entity) + add && AckFree(add)
    requires t.receiver == s.receiver
    ensures Due(t) == Due(s) || Due(t) == Due(s) + add
  {
    hide Flow;
    AfterAckAppend(Flow(s.fwd, s.sender.entity), add);
    AckFreeNone(add);
  }

  lemma KeptTurn(cfg: Config, s: System, a: Action, si: nat, ri: nat)
    requires cfg.Valid() && Inv(cfg, s, si, ri) && LastKept(s) && (a == SendArticle || a == SendEnd)
    ensures LastKept(Step(cfg, s, a))
  {
    hide Inv, Flow, DoSendArticle, DoSendEnd, PdusOf, TurnOps, Due;
    var t, add := Step(cfg, s, a), PdusOf(TurnOps(cfg, s, a));
    TurnFlow(cfg, s, a, si, ri);
    TurnPoints(cfg, s, a);
    DueGrows(s, t, add);
    if s.sender.phase != SendIdle {
      forall p | p in Due(t) && p.Syn? ensures p.n <= t.sender.syncNo {
        assert p in Due(s) || p in add;
      }
    }
  }

  /** A shorter flow holds no more. */
  lemma DueShrinks(s: System, t: System, cut: seq<Pdu>)
    requires Flow(s.fwd, s.sender.entity) == Flow(t.fwd, t.sender.entity) + cut && t.receiver == s.receiver
    ensures forall p :: p in Due(t) ==> p in Due(s)
  {
    hide Flow;
    AfterAckAppend(Flow(t.fwd, t.sender.entity), cut);
  }

  lemma KeptSenderFails(s: System)
    requires LastKept(s) && s.sender.phase != SendIdle
    ensures LastKept(SenderStops(s))
  {
    assert Flow(s.fwd, s.sender.entity) == Flow(s.fwd, []) + s.sender.entity;
    DueShrinks(s, SenderStops(s), s.sender.entity);
  }

  // ---- answers ----

  lemma KeptAnswer(cfg: Config, s: System, si: nat, ri: nat)
    requires cfg.Valid() && Inv(cfg, s, si, ri) && LastKept(s)
    ensures LastKept(DoTakeBack(cfg, s))
  {
    hide Follow, FollowOne, Flow, Reach, RefGood, FileAt, Holds, Popped, SenderStoreOk, ReceiverStoreOk, ReceiverSide,
      FileOk,
      SenderAt, Rewound, Due;
    if s.back != [] && Active(s.sender) {
      assert s.start.Some? && Low(s) == s.receiver.lastSync && BackShape(s.back, Low(s));
      assert s.back[0].AckSyn? || s.back[0].Resyn?;
      var t := DoTakeBack(cfg, s);
      if s.back[0].AckSyn? {
        AckKeeps(s, s.back[0].n);
        SameDue(s, t);
      } else if s.sender.phase == Ended || !cfg.resync {
        KeptSenderFails(s);
        SameDue(SenderStops(s), t);
      } else {
        RewindKeeps(cfg, s, si, ri);
      }
    }
  }

  lemma SameDue(s: System, t: System)
    requires t.fwd == s.fwd && t.sender.entity == s.sender.entity && t.receiver == s.receiver
    ensures Due(t) == Due(s)
  {
  }

  lemma AckKeeps(s: System, n: nat)
    requires LastKept(s) && s.sender.phase != SendIdle && n <= s.receiver.lastSync
    ensures var st := s.sender.store.Acknowledge(n);
      && st.acknowledged <= s.receiver.lastSync
      && (forall m :: m >= s.receiver.lastSync && m in s.sender.store.points ==> m in st.points)
  {
  }

  /** The request for the last point takes the sender back to it. */
  lemma RewindKeeps(cfg: Config, s: System, si: nat, ri: nat)
    requires cfg.Valid() && Inv(cfg, s, si, ri) && LastKept(s) && s.sender.phase == Sending && cfg.resync
    requires s.back != [] && s.back[0].Resyn? && Low(s) == s.receiver.lastSync
    ensures LastKept(DoTakeBack(cfg, s))
  {
    hide Inv, FileAt, Reach, Rewound, Flow, CompAtSync, AfterAck;
    var t, n := DoTakeBack(cfg, s), s.back[0].n;
    var ti := KeepsResyn(cfg, s, si, ri);
    RequestedNumber(cfg, s, si, ri);
    assert t.sender.store == s.sender.store && t.sender.syncNo == n && t.receiver == s.receiver;
    assert Due(t) == [] by {
      if s.receiver.phase == AwaitAck {
        NothingBehindAck(cfg, s, si, ri, n);
      }
    }
  }

  lemma RequestedNumber(cfg: Config, s: System, si: nat, ri: nat)
    requires cfg.Valid() && Inv(cfg, s, si, ri) && s.sender.phase == Sending && s.back != [] && s.back[0].Resyn?
    requires s.sender.store.Get(s.back[0].n).Some?
    ensures s.sender.store.Get(s.back[0].n).value.sync == s.back[0].n
    ensures s.receiver.phase != Receiving
  {
    hide Follow, Reach, RefGood, FileAt, Holds;
    assert Requested(s.back) by {
      assert |s.back| == 1;
    }
  }

  lemma NothingBehindAck(cfg: Config, s: System, si: nat, ri: nat, n: nat)
    requires cfg.Valid() && Inv(cfg, s, si, ri) && s.receiver.phase == AwaitAck && s.back != [] && s.back[0].Resyn?
    requires s.start.Some?
    ensures AfterAck(Flow(s.fwd + [Packet(AckResyn(n), false)], [])) == Some((n, []))
  {
    hide Follow, Reach, RefGood, FileAt, Holds;
    assert |s.back| == 1 && Requested(s.back);
    var ack := [Packet(AckResyn(n), false)];
    PdusAppend(s.fwd, ack);
    assert ack[1..] == [] && [AckResyn(n)][1..] == [];
    AfterAckAppend(Pdus(s.fwd), s.sender.entity);
    AfterAckAppend(Pdus(s.fwd), [AckResyn(n)]);
    assert Flow(s.fwd + ack, []) == Pdus(s.fwd) + [AckResyn(n)];
  }

  // ---- units taken ----

  lemma KeptTaken(cfg: Config, s: System, si: nat, ri: nat)
    requires cfg.Valid() && Inv(cfg, s, si, ri) && OnDisk(s.receiver) && LastKept(s)
    ensures LastKept(DoTakeForward(cfg, s))
  {
    hide Inv, Receive, Flow, OnDisk;
    var r, t := s.receiver, DoTakeForward(cfg, s);
    if s.fwd != [] && (r.phase == Receiving || r.phase == AwaitAck) {
      var p := s.fwd[0];
      FlowHead(s.fwd, s.sender.entity);
      if r.phase == Receiving && !p.damaged && !TooHigh(p.pdu) {
        UnitKeeps(cfg, s, si, ri);
      } else if r.phase == Receiving && p.damaged && cfg.resync {
        var qi := KeepsDamaged(cfg, s, si, ri);
        NothingDue(cfg, t, si, qi);
      } else if r.phase == AwaitAck && !p.damaged && !TooHigh(p.pdu) && p.pdu.AckResyn? {
        KeepsAckResyn(cfg, s, si, ri);
        PointNumbered(cfg, s, si, ri);
      }
    }
  }

  lemma PointNumbered(cfg: Config, s: System, si: nat, ri: nat)
    requires cfg.Valid() && Inv(cfg, s, si, ri) && s.receiver.store.Get(s.receiver.lastSync).Some?
    ensures s.receiver.store.Get(s.receiver.lastSync).value.sync == s.receiver.lastSync
  {
    hide SenderSide, ReceiverSide, Floors;
  }

  lemma NothingDue(cfg: Config, s: System, si: nat, ri: nat)
    requires cfg.WellCut() && Inv(cfg, s, si, ri) && s.receiver.phase == AwaitAck && Requested(s.back)
    ensures Due(s) == []
  {
  }

  /** A unit taken: a point is one the sender has. */
  lemma UnitKeeps(cfg: Config, s: System, si: nat, ri: nat)
    requires cfg.Valid() && Inv(cfg, s, si, ri) && OnDisk(s.receiver) && LastKept(s) && s.receiver.phase == Receiving
    requires s.fwd != [] && !s.fwd[0].damaged && !TooHigh(s.fwd[0].pdu)
    ensures LastKept(DoTakeForward(cfg, s))
  {
    hide Reach, RefGood, FileAt, Follow, FollowOne, Flow, Receive, Holds, SenderAt, SenderStoreOk, OnDisk;
    var r, p := s.receiver, s.fwd[0].pdu;
    var t := DoTakeForward(cfg, s);
    ReadsHead(cfg, s.sender, si, (ri, r.partial), s.fwd, s.sender.entity);
    var qi := ReceiveStep(cfg, r, ri, p);
    FlowHead(s.fwd, s.sender.entity);
    OnDiskUnit(cfg, s, si, ri);
    UnitStores(cfg, r, p);
    assert t.receiver == Receive(cfg, r, p).0;
    LastIsHere(cfg, r, t.receiver);
    if p.Syn? && s.sender.phase != SendIdle {
      assert p in Due(s) && t.receiver.lastSync == p.n <= s.sender.syncNo;
    }
  }

  lemma UnitStores(cfg: Config, r: Receiver, p: Pdu)
    requires r.phase == Receiving
    ensures var t := Receive(cfg, r, p).0;
      && (!p.Syn? ==> t.store == r.store && t.lastSync == r.lastSync)
      && (p.Syn? ==> t.store.points.Keys == r.store.points.Keys + {p.n} && t.lastSync == p.n)
  {
    hide A.Fed, Take;
    if p.Data? && p.f.kind.IsData() && A.Fed(cfg.maxArticle, r.partial, p.f).Ok? {
      var (partial, wires) := A.Fed(cfg.maxArticle, r.partial, p.f).value;
      DataAttempts.TakeKeeps(cfg, r.(partial := partial), wires, partial);
    }
  }

  /** On disk no point lies beyond the one a receiver stands at. */
  lemma LastIsHere(cfg: Config, r: Receiver, t: Receiver)
    requires OnDisk(t) && t.phase != ReceiveIdle && ReceiverStoreOk(cfg, t.store)
    requires (t.store == r.store && t.lastSync == r.lastSync && forall n :: r.store.IsLast(n) ==> n == r.lastSync)
          || t.lastSync in t.store.points
    ensures forall n :: t.store.IsLast(n) ==> n == t.lastSync
  {
  }

  // ---- starts and the rest ----

  lemma KeptReceiverStarts(cfg: Config, s: System, p: nat, si: nat, ri: nat)
    requires cfg.Valid() && Inv(cfg, s, si, ri) && OnDisk(s.receiver) && LastKept(s)
      && FromLast(cfg, s, BeginReceiver(p))
    ensures LastKept(DoBeginReceiver(cfg, s, p))
  {
    hide SenderSide, ReceiverSide, Floors, SenderStoreOk, FileAt, Reach;
    var cp := s.receiver.store.Get(p);
    if s.receiver.phase == ReceiveIdle && cp.Some? && p != 0 {
      assert p in s.receiver.store.points && s.receiver.store.points[p].sync == p;
    }
  }

  lemma KeptSenderStarts(cfg: Config, s: System, p: nat, si: nat, ri: nat)
    requires cfg.Valid() && Inv(cfg, s, si, ri) && OnDisk(s.receiver) && LastKept(s)
    requires s.receiver.phase != ReceiveIdle && FromLast(cfg, s, BeginSender(p))
    ensures LastKept(DoBeginSender(cfg, s, p))
  {
    hide Follow, Reach, RefGood, FileAt, Rewound, Reads;
    var t := DoBeginSender(cfg, s, p);
    if s.sender.phase == SendIdle && t != s {
      assert s.start == Some(p) && s.receiver.lastSync == p;
      assert Flow(t.fwd, t.sender.entity) == [];
      assert p != 0 ==> s.sender.store.points[p].sync == p && s.sender.store.acknowledged <= p;
      assert p == 0 ==> forall n :: n !in s.receiver.store.points;
    }
  }

  lemma KeptDamage(s: System, i: nat)
    requires LastKept(s)
    ensures LastKept(DoDamage(s, i))
  {
    if i < |s.fwd| {
      DamageKeepsFlow(s.fwd, i, s.sender.entity);
    }
  }

  lemma KeptReceiverFails(s: System, r: Receiver)
    requires LastKept(s) && s.receiver.phase != ReceiveIdle
    requires r == ReceiverStops(s.receiver) || (s.receiver.phase == Completed && r == s.receiver.(store := NO_POINTS))
    ensures LastKept(s.(receiver := r))
  {
    hide Flow;
  }

  lemma KeptStep(cfg: Config, s: System, a: Action, si: nat, ri: nat)
    requires cfg.Valid() && Inv(cfg, s, si, ri) && OnDisk(s.receiver) && LastKept(s) && Holding(cfg, s, a)
    ensures LastKept(Step(cfg, s, a))
  {
    hide Inv, OnDisk, LastKept, DoSendArticle, DoSendEnd, DoTakeBack, DoTakeForward, DoDamage, DoBeginSender,
      DoBeginReceiver;
    match a {
      case BeginSender(p) => KeptSenderStarts(cfg, s, p, si, ri);
      case BeginReceiver(p) => KeptReceiverStarts(cfg, s, p, si, ri);
      case SendArticle => KeptTurn(cfg, s, a, si, ri);
      case SendEnd => KeptTurn(cfg, s, a, si, ri);
      case TakeBack => KeptAnswer(cfg, s, si, ri);
      case SenderFails =>
        if s.sender.phase != SendIdle {
          KeptSenderFails(s);
        }
      case TakeForward => KeptTaken(cfg, s, si, ri);
      case ReceiverFails =>
        if s.receiver.phase != ReceiveIdle {
          KeptReceiverFails(s, ReceiverStops(s.receiver));
        }
      case Damage(i) => KeptDamage(s, i);
      case Lose(len) => KeptLose(s, len);
      case ForgetReceiver =>
        if s.receiver.phase == Completed {
          KeptReceiverFails(s, s.receiver.(store := NO_POINTS));
        }
    }
  }

  lemma KeptLose(s: System, len: nat)
    requires LastKept(s)
    ensures LastKept(DoLose(s, len))
  {
  }

  lemma {:induction false} RunHolds(cfg: Config, actions: seq<Action>)
    requires cfg.Valid() && AllHolding(cfg, actions)
    ensures AllFromLast(cfg, actions) && LastKept(DataPhase.Run(cfg, actions))
  {
    if actions == [] {
      assert LastKept(Initial(cfg));
    } else {
      hide Inv, Step, OnDisk, LastKept, FromLast;
      var before, a := actions[..|actions| - 1], actions[|actions| - 1];
      RunHolds(cfg, before);
      FromLastKeeps(cfg, before);
      var si, ri := RunKeeps(cfg, before);
      KeptStep(cfg, DataPhase.Run(cfg, before), a, si, ri);
    }
  }

  /** As long as the receiver restarts from its last point, its sender joins it, records each point it sends and clears
      no store, the last point of the receiver is in the sender's store in every run, and the next restart from it is
      admitted. */
  lemma LastPointKept(cfg: Config, actions: seq<Action>, len: nat, n: nat)
    requires cfg.Valid() && AllHolding(cfg, actions) && DataPhase.Run(cfg, actions).receiver.store.IsLast(n)
    ensures n in DataPhase.Run(cfg, actions).sender.store.points
    ensures var t := DataPhase.Run(cfg, actions + [Lose(len), BeginReceiver(n), BeginSender(n)]);
      t.receiver.phase == Receiving && t.sender.phase == Sending
  {
    hide DataPhase.Run, AllHolding;
    RunHolds(cfg, actions);
    RunJoin(cfg, actions, [Lose(len), BeginReceiver(n), BeginSender(n)]);
    BothStart(cfg, DataPhase.Run(cfg, actions), len, n);
  }

  lemma BothStart(cfg: Config, s: System, len: nat, n: nat)
    requires cfg.packing.Valid() && cfg.WellCut() && n in s.sender.store.points && n in s.receiver.store.points
    ensures var t := RunFrom(cfg, s, [Lose(len), BeginReceiver(n), BeginSender(n)]);
      t.receiver.phase == Receiving && t.sender.phase == Sending
  {
    hide Rewound;
    var lost := Step(cfg, s, Lose(len));
    var half := Step(cfg, lost, BeginReceiver(n));
    assert [Lose(len), BeginReceiver(n), BeginSender(n)] == [Lose(len)] + [BeginReceiver(n)] + [BeginSender(n)];
    OneStep(cfg, s, Lose(len));
    OneStep(cfg, lost, BeginReceiver(n));
    OneStep(cfg, half, BeginSender(n));
    RunFromAppend(cfg, s, [Lose(len)], [BeginReceiver(n)]);
    RunFromAppend(cfg, s, [Lose(len)] + [BeginReceiver(n)], [BeginSender(n)]);
  }

  // ---- the sender never had it ----

  /** The receiver waits at its last point, which the sender has not got; nothing is in flight. */
  ghost predicate Refused(s: System, n: nat)
  {
    && n >= 1 && s.receiver.store.IsLast(n) && n !in s.sender.store.points
    && s.sender.phase == SendIdle && s.fwd == [] && s.back == []
    && (s.start == None || s.start == Some(n))
    && (s.receiver.phase == ReceiveIdle || s.receiver.phase == Receiving || s.receiver.phase == ReceiveFailed)
  }

  /** The receiver restarts from its last point and nowhere else, and its sender starts only where it did. */
  ghost predicate Insists(s: System, a: Action)
  {
    && (a.BeginReceiver? ==> s.receiver.store.IsLast(a.p))
    && (a.BeginSender? ==> s.start == Some(a.p))
  }

  ghost predicate AllInsist(cfg: Config, s: System, actions: seq<Action>)
    requires cfg.packing.Valid() && cfg.WellCut()
    decreases |actions|
  {
    actions == [] || (Insists(s, actions[0]) && AllInsist(cfg, Step(cfg, s, actions[0]), actions[1..]))
  }

  lemma RefusedStep(cfg: Config, s: System, a: Action, n: nat)
    requires cfg.packing.Valid() && cfg.WellCut() && Refused(s, n) && Insists(s, a)
    ensures Refused(Step(cfg, s, a), n) && (a.BeginSender? ==> Step(cfg, s, a) == s)
  {
    hide Perform, PointDue;
  }

  /** A receiver that insists on a last point its sender has not got is refused every time: no sender ever starts, and
      the transfer never completes. */
  lemma {:induction false} RefusedForEver(cfg: Config, s: System, actions: seq<Action>, n: nat)
    requires cfg.packing.Valid() && cfg.WellCut() && Refused(s, n) && AllInsist(cfg, s, actions)
    ensures var t := RunFrom(cfg, s, actions);
      t.sender.phase == SendIdle && t.receiver.phase != Completed && n !in t.sender.store.points
    decreases |actions|
  {
    hide Step, Insists;
    if actions != [] {
      RefusedStep(cfg, s, actions[0], n);
      RefusedForEver(cfg, Step(cfg, s, actions[0]), actions[1..], n);
    }
  }
}
