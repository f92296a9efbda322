/** Numbers of points within three octets: a transfer completes only if its log has fewer than 2^24 points, and
    with fewer no number is ever refused. */
module DataNumbers {
  import opened Bytes
  import opened Params
  import opened Checkpoints
  import opened Canon
  import opened DataPhase
  import opened LogFollowing
  import opened DataSafety
  import opened DataSteps
  import opened DataReception
  import opened DataTheorems
  import DataAttempts
  import F = Fpdu
  import A = Articles

  // ---- what a turn sends ----

  function EndOps(cfg: Config, v: Sender): seq<ShipOp>
  {
    Puts(Datas(A.Flushed(cfg.packing, v.pending))) + [PutAndSend(DtfEnd)]
  }

  /** What a turn of the sending loop hands to the entity builder. */
  function TurnOps(cfg: Config, s: System, a: Action): seq<ShipOp>
    requires cfg.packing.Valid()
  {
    var v := s.sender;
    if !CanSend(cfg, s) then []
    else
      match a
      case SendArticle =>
        if v.next >= |cfg.arts| then []
        else if PointDue(cfg, v) then PointOps(cfg, v) + ArticleOps(cfg, AtPoint(cfg, v))
        else ArticleOps(cfg, v)
      case FailAtSync => if v.next < |cfg.arts| && PointDue(cfg, v) then PointOps(cfg, v) else []
      case SendEnd => if v.next == |cfg.arts| then EndOps(cfg, v) else []
      case _ => []
  }

  /** The queue after a turn of the sending loop; the entity is dropped when the sender stops. */
  lemma TurnPerforms(cfg: Config, s: System, a: Action)
    requires cfg.packing.Valid() && cfg.WellCut() && (a == SendArticle || a == FailAtSync || a == SendEnd)
    ensures var t, (entity, fwd) := Step(cfg, s, a), Perform(cfg, s.sender.entity, s.fwd, TurnOps(cfg, s, a));
      && t.fwd == fwd && (t.sender.entity == entity || t.sender.entity == [])
      && t.back == s.back && t.receiver == s.receiver
  {
    hide Perform, PointDue, PointOps, ArticleOps, EndOps, WithArticle, AtPoint;
    PerformNothing(cfg, s.sender.entity, s.fwd);
    SameEnd(cfg, s.sender);
  }

  lemma SameEnd(cfg: Config, v: Sender)
    ensures EndOps(cfg, v) == Puts(Datas(A.Flushed(cfg.packing, v.pending))) + [PutAndSend(DtfEnd)]
  {
  }

  /** Data, the next point of the log, or the end. */
  predicate Sendable(cfg: Config, v: Sender, p: Pdu)
  {
    p.Data? || p == DtfEnd || (p == Syn(v.syncNo + 1) && p.n <= Points(cfg))
  }

  lemma {:induction false} DatasData(fs: seq<F.Fpdu>)
    ensures forall p :: p in Datas(fs) ==> p.Data? && p.f in fs
  {
    if fs != [] {
      DatasData(fs[1..]);
    }
  }

  lemma PointUnits(cfg: Config, v: Sender)
    ensures PdusOf(PointOps(cfg, v)) == Datas(A.Flushed(cfg.packing, v.pending)) + [Syn(v.syncNo + 1)]
  {
    DataOps(A.Flushed(cfg.packing, v.pending), [PutAndSend(Syn(v.syncNo + 1))]);
    OneOp(PutAndSend(Syn(v.syncNo + 1)));
  }

  lemma EndUnits(cfg: Config, v: Sender)
    ensures PdusOf(EndOps(cfg, v)) == Datas(A.Flushed(cfg.packing, v.pending)) + [DtfEnd]
  {
    DataOps(A.Flushed(cfg.packing, v.pending), [PutAndSend(DtfEnd)]);
    OneOp(PutAndSend(DtfEnd));
  }

  /** The point due next is within the log. */
  lemma NextPointWithin(cfg: Config, v: Sender, i: nat)
    requires cfg.Valid() && SenderAt(cfg, v, i) && v.phase == Sending && v.next < |cfg.arts| && PointDue(cfg, v)
    ensures v.syncNo + 1 <= Points(cfg)
  {
    hide PointDue, WireOut, RefGood, Points, Reach, EntryNo;
    NextEntry(cfg, v, i);
    MarkWithin(cfg, i, v.syncNo + 1);
  }

  lemma MarkWithin(cfg: Config, i: nat, n: nat)
    requires EntryNo(cfg, i) == Mark(n)
    ensures n <= Points(cfg)
  {
    hide WireAt, Points;
    assert Reach(cfg, i + 1).n == n;
    PointsBound(cfg, i + 1);
  }

  lemma TurnUnits(cfg: Config, s: System, a: Action, si: nat, ri: nat)
    requires cfg.Valid() && Inv(cfg, s, si, ri)
    ensures forall p :: p in PdusOf(TurnOps(cfg, s, a)) ==> Sendable(cfg, s.sender, p)
  {
    hide Inv, PointDue, PointOps, ArticleOps, EndOps, AtPoint, A.Pushed, A.Flushed, SenderAt, WireOut, Points, Puts;
    var v := s.sender;
    if CanSend(cfg, s) {
      SenderPlaced(cfg, s, si, ri);
      DatasData(A.Flushed(cfg.packing, v.pending));
      EndUnits(cfg, v);
      PointUnits(cfg, v);
      if v.next < |cfg.arts| {
        if PointDue(cfg, v) {
          NextPointWithin(cfg, v, si);
          assert AtPoint(cfg, v).next == v.next by {
            PointKeepsNext(cfg, v);
          }
          ArticleData(cfg, AtPoint(cfg, v));
          PdusOfAppend(PointOps(cfg, v), ArticleOps(cfg, AtPoint(cfg, v)));
        } else {
          ArticleData(cfg, v);
        }
      }
    }
  }

  lemma PointKeepsNext(cfg: Config, v: Sender)
    requires v.next < |cfg.arts|
    ensures AtPoint(cfg, v).next == v.next
  {
  }

  lemma ArticleData(cfg: Config, v: Sender)
    requires v.next < |cfg.arts| && cfg.packing.Valid()
    ensures forall p :: p in PdusOf(ArticleOps(cfg, v)) ==> p.Data?
  {
    hide Puts, Datas, A.Pushed;
    var out := A.Pushed(cfg.packing, v.pending, WireOut(cfg, v.comp, cfg.arts[v.next])).1;
    ArticleUnits(out);
    DatasData(out);
  }

  // ---- the numbers in a run ----

  /** Points on their way are points of the log; what the receiver keeps and what is answered fits three octets. */
  ghost predicate NumbersOk(cfg: Config, s: System)
  {
    && (forall p :: p in Flow(s.fwd, s.sender.entity) ==> FlowUnit(cfg, p))
    && (forall p :: p in s.back ==> !TooHigh(p))
    && Kept(s.receiver)
  }

  predicate FlowUnit(cfg: Config, p: Pdu)
  {
    match p
    case Syn(n) => n <= Points(cfg)
    case AckResyn(_) => !TooHigh(p)
    case AckSyn(_) => false
    case Resyn(_) => false
    case _ => true
  }

  predicate Kept(r: Receiver)
  {
    && r.lastSync < MAX_SYNC_NUMBER
    && forall n :: n in r.store.points ==> r.store.points[n].sync < MAX_SYNC_NUMBER
  }

  lemma FlowParts(fwd: seq<Packet>, entity: seq<Pdu>)
    ensures forall q :: q in fwd ==> q.pdu in Flow(fwd, entity)
    ensures forall p :: p in Flow(fwd, []) ==> p in Flow(fwd, entity)
    ensures fwd != [] ==> forall p :: p in Flow(fwd[1..], entity) ==> p in Flow(fwd, entity)
  {
    forall q | q in fwd ensures q.pdu in Flow(fwd, entity) {
      var i :| 0 <= i < |fwd| && fwd[i] == q;
      PdusAt(fwd, i);
      assert Flow(fwd, entity)[i] == q.pdu;
    }
    if fwd != [] {
      FlowHead(fwd, entity);
    }
  }

  lemma SendKeepsNumbers(cfg: Config, s: System, a: Action, si: nat, ri: nat)
    requires cfg.Valid() && Inv(cfg, s, si, ri) && NumbersOk(cfg, s)
    requires a == SendArticle || a == FailAtSync || a == SendEnd
    ensures NumbersOk(cfg, Step(cfg, s, a))
  {
    hide Inv, Step, TurnOps, Perform, Points, Flow, Kept;
    var t, ops := Step(cfg, s, a), TurnOps(cfg, s, a);
    TurnPerforms(cfg, s, a);
    TurnUnits(cfg, s, a, si, ri);
    PerformFlow(cfg, s.sender.entity, s.fwd, ops);
    var (entity, fwd) := Perform(cfg, s.sender.entity, s.fwd, ops);
    forall p | p in Flow(fwd, entity) ensures FlowUnit(cfg, p) {
      assert p in Flow(s.fwd, s.sender.entity) || p in PdusOf(ops);
    }
    FlowParts(fwd, entity);
  }

  lemma BackKeepsNumbers(cfg: Config, s: System, si: nat, ri: nat)
    requires cfg.Valid() && Inv(cfg, s, si, ri) && NumbersOk(cfg, s)
    ensures NumbersOk(cfg, DoTakeBack(cfg, s))
  {
    hide SenderSide, ReceiverSide, Floors, FileOk, Points, Kept, Popped, SenderStoreOk, Flow, Rewound;
    FlowParts(s.fwd, s.sender.entity);
    if s.back != [] && Active(s.sender) {
      var p := s.back[0];
      assert p in s.back && forall q :: q in s.back[1..] ==> q in s.back;
      if p.Resyn? {
        PointNumber(cfg, s.sender.store, p.n);
        AnswerQueued(s.fwd, if s.sender.store.Get(p.n).Some? then p.n else 0);
      }
    }
  }

  lemma AnswerQueued(fwd: seq<Packet>, n: nat)
    ensures Flow(fwd + [Packet(AckResyn(n), false)], []) == Flow(fwd, []) + [AckResyn(n)]
  {
    var ack := [Packet(AckResyn(n), false)];
    PdusAppend(fwd, ack);
    assert ack[1..] == [] && Pdus(ack) == [AckResyn(n)];
  }

  lemma PointNumber(cfg: Config, st: Store, n: nat)
    requires cfg.WellCut() && SenderStoreOk(cfg, st)
    ensures st.Get(n).Some? ==> st.Get(n).value.sync == n
  {
  }

  lemma ForwardKeepsNumbers(cfg: Config, s: System)
    requires NumbersOk(cfg, s)
    ensures NumbersOk(cfg, DoTakeForward(cfg, s))
  {
    hide Points, Take, Flow;
    FlowParts(s.fwd, s.sender.entity);
    if s.fwd != [] && s.receiver.phase == Receiving && !s.fwd[0].damaged && !TooHigh(s.fwd[0].pdu) {
      ReceiveKeeps(cfg, s.receiver, s.fwd[0].pdu);
    }
  }

  lemma ReceiveKeeps(cfg: Config, r: Receiver, p: Pdu)
    requires Kept(r) && !TooHigh(p)
    ensures var (t, answer) := Receive(cfg, r, p); Kept(t) && forall q :: q in answer ==> !TooHigh(q)
  {
    hide Take;
    if p.Data? && p.f.kind.IsData() {
      match A.Fed(cfg.maxArticle, r.partial, p.f) {
        case Ok((partial, wires)) => DataAttempts.TakeKeeps(cfg, r.(partial := partial), wires, partial);
        case Err(_) =>
      }
    }
  }

  lemma DamageKeepsFlow(fwd: seq<Packet>, i: nat, entity: seq<Pdu>)
    requires i < |fwd|
    ensures Flow(fwd[i := Packet(fwd[i].pdu, true)], entity) == Flow(fwd, entity)
  {
    DamageKeepsPdus(fwd, i);
  }

  lemma NothingFlows()
    ensures Flow([], []) == []
  {
  }

  lemma NumbersStep(cfg: Config, s: System, a: Action, si: nat, ri: nat)
    requires cfg.Valid() && Inv(cfg, s, si, ri) && NumbersOk(cfg, s)
    ensures NumbersOk(cfg, Step(cfg, s, a))
  {
    hide Inv, Flow, DoSendArticle, DoFailAtSync, DoSendEnd, DoTakeBack, DoTakeForward, Points, Rewound;
    FlowParts(s.fwd, s.sender.entity);
    match a {
      case SendArticle => SendKeepsNumbers(cfg, s, a, si, ri);
      case FailAtSync => SendKeepsNumbers(cfg, s, a, si, ri);
      case SendEnd => SendKeepsNumbers(cfg, s, a, si, ri);
      case TakeBack => BackKeepsNumbers(cfg, s, si, ri);
      case TakeForward => ForwardKeepsNumbers(cfg, s);
      case Damage(i) =>
        if i < |s.fwd| {
          DamageKeepsFlow(s.fwd, i, s.sender.entity);
        }
      case Lose(len) => NothingFlows();
      case _ =>
    }
  }

  lemma {:induction false} RunNumbers(cfg: Config, actions: seq<Action>)
    requires cfg.Valid() && AllAllowed(cfg, actions)
    ensures NumbersOk(cfg, DataPhase.Run(cfg, actions))
  {
    if actions != [] {
      hide Inv, Step, NumbersOk;
      var past := actions[..|actions| - 1];
      RunNumbers(cfg, past);
      var si, ri := RunKeeps(cfg, past);
      NumbersStep(cfg, DataPhase.Run(cfg, past), actions[|actions| - 1], si, ri);
    }
  }

  // ---- results ----

  /** Every answer of a receiver can be read by the sender, and so can every ACK(RESYN) by the receiver: only a SYN
      can be refused, and only one whose number is a point of the log. */
  lemma {:induction false} OnlyPointsRefused(cfg: Config, actions: seq<Action>)
    requires cfg.Valid() && AllAllowed(cfg, actions)
    ensures var s := DataPhase.Run(cfg, actions);
      && (forall p :: p in s.back ==> !TooHigh(p))
      && (forall q :: q in s.fwd && TooHigh(q.pdu) ==> q.pdu.Syn? && q.pdu.n <= Points(cfg))
  {
    hide DataPhase.Run, Points;
    RunNumbers(cfg, actions);
    FlowParts(DataPhase.Run(cfg, actions).fwd, DataPhase.Run(cfg, actions).sender.entity);
  }

  /** A transfer that completes has fewer than 2^24 points. */
  lemma {:induction false} CompletedWithin(cfg: Config, actions: seq<Action>)
    requires cfg.Valid() && AllAllowed(cfg, actions)
    ensures DataPhase.Run(cfg, actions).receiver.phase == Completed ==> Points(cfg) < MAX_SYNC_NUMBER
  {
    hide DataPhase.Run, Points, SenderSide, Floors, FileOk, Reach, Flow;
    var si, ri := RunKeeps(cfg, actions);
    RunNumbers(cfg, actions);
    PointsBound(cfg, ri);
  }
}
