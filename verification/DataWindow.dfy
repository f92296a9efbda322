/** The acknowledgement window: which points are unacknowledged, and why the loops never wait for each other. */
module DataWindow {
  import opened Bytes
  import opened Params
  import opened Checkpoints
  import opened Canon
  import opened DataPhase
  import opened LogFollowing
  import opened DataSafety
  import opened DataSteps
  import opened DataReception
  import opened DataTheorems
  import F = Fpdu
  import A = Articles

  function SynNums(ps: seq<Pdu>): seq<nat>
  {
    if ps == [] then [] else (if ps[0].Syn? then [ps[0].n] else []) + SynNums(ps[1..])
  }

  function AckNums(ps: seq<Pdu>): seq<nat>
  {
    if ps == [] then [] else (if ps[0].AckSyn? then [ps[0].n] else []) + AckNums(ps[1..])
  }

  /** The consecutive numbers that end at `n`. */
  predicate Block(ns: seq<nat>, n: nat)
  {
    |ns| <= n && forall j :: 0 <= j < |ns| ==> ns[j] == n - |ns| + 1 + j
  }

  predicate AllData(ps: seq<Pdu>)
  {
    forall p :: p in ps ==> p.Data?
  }

  /** The unacknowledged points are the last ones, no more than the window. */
  predicate WindowKept(cfg: Config, v: Sender)
  {
    && Block(v.unacked, v.syncNo)
    && (if cfg.sync.window == 0 then v.unacked == [] else |v.unacked| <= cfg.sync.window)
  }

  /** Each unacknowledged point is on its way, as a SYN or as its acknowledgement. */
  predicate InFlight(s: System)
  {
    var flow := Flow(s.fwd, s.sender.entity);
    match s.receiver.phase
    case ReceiveIdle => s.sender.unacked == AckNums(s.back) + SynNums(flow)
    case Receiving => s.sender.unacked == AckNums(s.back) + SynNums(flow)
    case AwaitAck =>
      !Requested(s.back) && AfterAck(flow).Some? ==>
        s.sender.unacked == AckNums(s.back) + SynNums(AfterAck(flow).value.1)
    case _ => true
  }

  predicate WindowOk(cfg: Config, s: System)
  {
    && AllData(s.sender.entity)
    && (s.sender.phase != Sending ==> s.sender.entity == [] && s.sender.pending == [])
    && (s.sender.phase == Sending ==> WindowKept(cfg, s.sender))
    && (s.sender.phase == Sending && cfg.sync.window > 0 ==> InFlight(s))
  }

  // ---- numbers ----

  lemma {:induction false} SynNumsAppend(xs: seq<Pdu>, ys: seq<Pdu>)
    ensures SynNums(xs + ys) == SynNums(xs) + SynNums(ys)
  {
    if xs == [] {
      assert xs + ys == ys;
    } else {
      assert (xs + ys)[0] == xs[0] && (xs + ys)[1..] == xs[1..] + ys;
      SynNumsAppend(xs[1..], ys);
    }
  }

  lemma {:induction false} AckNumsAppend(xs: seq<Pdu>, ys: seq<Pdu>)
    ensures AckNums(xs + ys) == AckNums(xs) + AckNums(ys)
  {
    if xs == [] {
      assert xs + ys == ys;
    } else {
      assert (xs + ys)[0] == xs[0] && (xs + ys)[1..] == xs[1..] + ys;
      AckNumsAppend(xs[1..], ys);
    }
  }

  lemma {:induction false} DatasNums(fs: seq<F.Fpdu>)
    ensures SynNums(Datas(fs)) == [] && AllData(Datas(fs))
  {
    if fs != [] {
      DatasNums(fs[1..]);
      assert Datas(fs)[1..] == Datas(fs[1..]);
    }
  }

  lemma {:induction false} AllDataNums(ps: seq<Pdu>)
    requires AllData(ps)
    ensures SynNums(ps) == []
  {
    if ps != [] {
      assert ps[0] in ps;
      assert forall p :: p in ps[1..] ==> p in ps;
      AllDataNums(ps[1..]);
    }
  }

  lemma {:induction false} PoppedBlock(unacked: seq<nat>, n: nat, last: nat)
    requires Block(unacked, last)
    ensures Block(Popped(unacked, n), last) && |Popped(unacked, n)| <= |unacked|
    ensures unacked != [] && unacked[0] == n ==> Popped(unacked, n) == unacked[1..]
  {
    if unacked != [] && unacked[0] <= n {
      PoppedBlock(unacked[1..], n, last);
    }
  }

  // ---- what an emission adds ----

  /** Only data is left in the entity, once units other than data are sent at once. */
  predicate Tidy(ops: seq<ShipOp>)
  {
    forall op :: op in ops && op.Put? ==> op.p.Data?
  }

  lemma {:induction false} PerformTidy(cfg: Config, entity: seq<Pdu>, fwd: seq<Packet>, ops: seq<ShipOp>)
    requires AllData(entity) && Tidy(ops)
    ensures AllData(Perform(cfg, entity, fwd, ops).0)
    ensures ops != [] && ops[|ops| - 1].PutAndSend? ==> Perform(cfg, entity, fwd, ops).0 == []
    decreases |ops|
  {
    if ops != [] {
      var (entity1, fwd1) := Perform(cfg, entity, fwd, [ops[0]]);
      PerformSplit(cfg, entity, fwd, ops);
      assert [ops[0]][1..] == [];
      assert ops[0] in ops;
      assert forall op :: op in ops[1..] ==> op in ops;
      PerformTidy(cfg, entity1, fwd1, ops[1..]);
    }
  }

  lemma {:induction false} PutsTidy(fs: seq<F.Fpdu>)
    ensures Tidy(Puts(Datas(fs)))
  {
    if fs != [] {
      PutsTidy(fs[1..]);
      assert Datas(fs)[1..] == Datas(fs[1..]);
    }
  }

  /** An emission whose points join the unacknowledged ones. */
  lemma EmitWindow(cfg: Config, s: System, v: Sender, ops: seq<ShipOp>, si: nat, ri: nat)
    requires cfg.WellCut() && Inv(cfg, s, si, ri) && WindowOk(cfg, s) && s.sender.phase == Sending
    requires Tidy(ops) && AckFree(PdusOf(ops))
    requires v.phase == Ended ==> v.pending == [] && ops != [] && ops[|ops| - 1].PutAndSend?
    requires v.phase == Sending || v.phase == Ended
    requires v.phase == Sending ==> WindowKept(cfg, v)
    requires v.phase == Sending && cfg.sync.window > 0 ==> v.unacked == s.sender.unacked + SynNums(PdusOf(ops))
    ensures WindowOk(cfg, Emit(cfg, s, v, ops))
  {
    hide Perform, Flow, SenderSide, Holds, Reads, SenderStoreOk, ReceiverStoreOk, FileOk;
    var t := Emit(cfg, s, v, ops);
    var flow, add := Flow(s.fwd, s.sender.entity), PdusOf(ops);
    PerformFlow(cfg, s.sender.entity, s.fwd, ops);
    PerformTidy(cfg, s.sender.entity, s.fwd, ops);
    if v.phase == Sending && cfg.sync.window > 0 {
      SynNumsAppend(flow, add);
      Assoc(AckNums(s.back), SynNums(flow), SynNums(add));
      AfterAckAppend(flow, add);
      AckFreeNone(add);
      if AfterAck(flow).Some? {
        var rest := AfterAck(flow).value.1;
        SynNumsAppend(rest, add);
        Assoc(AckNums(s.back), SynNums(rest), SynNums(add));
      }
    }
  }

  lemma DataOpsNums(fs: seq<F.Fpdu>, last: ShipOp)
    requires last.Put? ==> last.p.Data?
    ensures Tidy(Puts(Datas(fs)) + [last])
    ensures SynNums(PdusOf(Puts(Datas(fs)) + [last])) == if !last.SendIfFull? && last.p.Syn? then [last.p.n] else []
  {
    PutsTidy(fs);
    OneOp(last);
    DataOps(fs, [last]);
    DatasNums(fs);
    SynNumsAppend(Datas(fs), PdusOf([last]));
    if !last.SendIfFull? {
      assert [last.p][1..] == [];
    }
  }

  lemma BlockSnoc(ns: seq<nat>, n: nat)
    requires Block(ns, n)
    ensures Block(ns + [n + 1], n + 1)
  {
  }

  /** What a point and the article after it add. */
  lemma PointNums(cfg: Config, v: Sender)
    requires v.next < |cfg.arts| && cfg.packing.Valid()
    ensures var ops := PointOps(cfg, v) + ArticleOps(cfg, AtPoint(cfg, v));
      Tidy(ops) && AckFree(PdusOf(ops)) && SynNums(PdusOf(ops)) == [v.syncNo + 1]
  {
    hide A.Pushed, A.Flushed, WireOut, ArticleOps;
    var ops1, ops2 := PointOps(cfg, v), ArticleOps(cfg, AtPoint(cfg, v));
    DataOpsNums(A.Flushed(cfg.packing, v.pending), PutAndSend(Syn(v.syncNo + 1)));
    ArticleNums(cfg, AtPoint(cfg, v));
    PdusOfAppend(ops1, ops2);
    SynNumsAppend(PdusOf(ops1), PdusOf(ops2));
    PointAckFree(cfg, v);
  }

  lemma WindowArticle(cfg: Config, s: System, si: nat, ri: nat)
    requires cfg.Valid() && Inv(cfg, s, si, ri) && WindowOk(cfg, s) && CanSend(cfg, s) && s.sender.next < |cfg.arts|
    ensures WindowOk(cfg, DoSendArticle(cfg, s))
  {
    hide Inv, Emit, PointDue, InFlight, A.Pushed, A.Flushed, WireOut, PointOps, ArticleOps, Block;
    var v := s.sender;
    if PointDue(cfg, v) {
      var at := AtPoint(cfg, v);
      PointNums(cfg, v);
      BlockSnoc(v.unacked, v.syncNo);
      assert Block([], v.syncNo + 1) by {
        BlockEmpty(v.syncNo + 1);
      }
      EmitWindow(cfg, s, WithArticle(cfg, at), PointOps(cfg, v) + ArticleOps(cfg, at), si, ri);
    } else {
      ArticleNums(cfg, v);
      assert v.unacked + [] == v.unacked;
      EmitWindow(cfg, s, WithArticle(cfg, v), ArticleOps(cfg, v), si, ri);
    }
  }

  lemma BlockEmpty(n: nat)
    ensures Block([], n)
  {
  }

  lemma ArticleNums(cfg: Config, v: Sender)
    requires v.next < |cfg.arts| && cfg.packing.Valid()
    ensures Tidy(ArticleOps(cfg, v)) && SynNums(PdusOf(ArticleOps(cfg, v))) == [] && AckFree(PdusOf(ArticleOps(cfg, v)))
  {
    hide A.Pushed, WireOut;
    var out := A.Pushed(cfg.packing, v.pending, WireOut(cfg, v.comp, cfg.arts[v.next])).1;
    DataOpsNums(out, SendIfFull);
    OneOp(SendIfFull);
    DataOps(out, [SendIfFull]);
  }

  lemma PointAckFree(cfg: Config, v: Sender)
    ensures AckFree(PdusOf(PointOps(cfg, v)))
  {
    hide A.Flushed;
    OneOp(PutAndSend(Syn(v.syncNo + 1)));
    DataOps(A.Flushed(cfg.packing, v.pending), [PutAndSend(Syn(v.syncNo + 1))]);
  }

  lemma WindowEnd(cfg: Config, s: System, si: nat, ri: nat)
    requires cfg.Valid() && Inv(cfg, s, si, ri) && WindowOk(cfg, s) && CanSend(cfg, s) && s.sender.next == |cfg.arts|
    ensures WindowOk(cfg, DoSendEnd(cfg, s))
  {
    hide Inv, Emit, InFlight, A.Flushed;
    var fs := A.Flushed(cfg.packing, s.sender.pending);
    DataOpsNums(fs, PutAndSend(DtfEnd));
    OneOp(PutAndSend(DtfEnd));
    DataOps(fs, [PutAndSend(DtfEnd)]);
    EmitWindow(cfg, s, s.sender.(phase := Ended, pending := []), Puts(Datas(fs)) + [PutAndSend(DtfEnd)], si, ri);
  }

  // ---- what the queues deliver ----

  lemma WindowTakeBack(cfg: Config, s: System, si: nat, ri: nat)
    requires cfg.Valid() && Inv(cfg, s, si, ri) && WindowOk(cfg, s)
    ensures WindowOk(cfg, DoTakeBack(cfg, s))
  {
    hide Flow, SenderSide, Holds, Reads, SenderStoreOk, ReceiverStoreOk, FileOk, Popped, ResumedAt;
    var v := s.sender;
    if s.back != [] && v.phase == Sending {
      assert s.start.Some?;
      var head := s.back[0];
      assert head.AckSyn? || head.Resyn?;
      if head.AckSyn? {
        BackTail(s.back, Low(s));
        PoppedBlock(v.unacked, head.n, v.syncNo);
        assert AckNums(s.back) == [head.n] + AckNums(s.back[1..]);
        HeadOfSum(head.n, AckNums(s.back[1..]), SynNums(Flow(s.fwd, v.entity)));
        if s.receiver.phase == AwaitAck && !Requested(s.back) && AfterAck(Flow(s.fwd, v.entity)).Some? {
          HeadOfSum(head.n, AckNums(s.back[1..]), SynNums(AfterAck(Flow(s.fwd, v.entity)).value.1));
        }
      } else if cfg.resync {
        assert |s.back| == 1;
        WindowResyn(cfg, s, si, ri);
      }
    }
  }

  lemma HeadOfSum(n: nat, xs: seq<nat>, ys: seq<nat>)
    ensures (([n] + xs) + ys)[0] == n && (([n] + xs) + ys)[1..] == xs + ys
  {
  }

  lemma WindowResyn(cfg: Config, s: System, si: nat, ri: nat)
    requires cfg.Valid() && Inv(cfg, s, si, ri) && WindowOk(cfg, s) && s.sender.phase == Sending && cfg.resync
    requires s.back != [] && s.back[0].Resyn?
    ensures WindowOk(cfg, DoTakeBack(cfg, s))
  {
    hide SenderSide, Holds, Reads, SenderStoreOk, ReceiverStoreOk, FileOk, Follow;
    var t := DoTakeBack(cfg, s);
    assert |s.back| == 1 && t.back == [] by {
      assert s.back[0].Resyn?;
    }
    assert Requested(s.back);
    var ack := t.fwd[|s.fwd|];
    assert t.fwd == s.fwd + [ack];
    PdusAppend(s.fwd, [ack]);
    assert [ack][1..] == [] && [ack.pdu][1..] == [];
    AfterAckAppend(Pdus(s.fwd), s.sender.entity);
    AfterAckAppend(Pdus(s.fwd), [ack.pdu]);
    assert Pdus(t.fwd) + [] == Pdus(s.fwd) + [ack.pdu];
  }

  /** A point that was in flight is in flight as its acknowledgement. */
  lemma PointAnswered(back: seq<Pdu>, flow: seq<Pdu>, answer: seq<Pdu>)
    requires flow != [] && answer == if flow[0].Syn? then [AckSyn(flow[0].n)] else []
    ensures AckNums(back) + SynNums(flow) == AckNums(back + answer) + SynNums(flow[1..])
  {
    AckNumsAppend(back, answer);
    if flow[0].Syn? {
      assert answer[1..] == [] && AckNums(answer) == [flow[0].n];
      Assoc(AckNums(back), [flow[0].n], SynNums(flow[1..]));
    } else {
      assert back + [] == back && [] + SynNums(flow[1..]) == SynNums(flow[1..]);
    }
  }

  lemma WindowUnit(cfg: Config, s: System, si: nat, ri: nat)
    requires cfg.Valid() && Inv(cfg, s, si, ri) && WindowOk(cfg, s) && cfg.sync.window > 0
    requires s.fwd != [] && s.sender.phase == Sending && s.receiver.phase == Receiving
    requires !s.fwd[0].damaged && !TooHigh(s.fwd[0].pdu)
    ensures InFlight(DoTakeForward(cfg, s))
  {
    hide SenderSide, Holds, SenderStoreOk, ReceiverStoreOk, FileOk, Follow, Flow, FollowOne, ReceiverAt, FileAt, Receive,
      SynNums, AckNums, WindowKept;
    var r, p, flow := s.receiver, s.fwd[0].pdu, Flow(s.fwd, s.sender.entity);
    FlowHead(s.fwd, s.sender.entity);
    ReadsHead(cfg, s.sender, si, (ri, r.partial), s.fwd, s.sender.entity);
    AnswersPoint(cfg, r, ri, p);
    var qi := ReceiveStep(cfg, r, ri, p);
    PointAnswered(s.back, flow, Receive(cfg, r, p).1);
  }

  lemma WindowTakeForward(cfg: Config, s: System, si: nat, ri: nat)
    requires cfg.Valid() && Inv(cfg, s, si, ri) && WindowOk(cfg, s)
    ensures WindowOk(cfg, DoTakeForward(cfg, s))
  {
    hide Inv, Flow, Receive, WindowKept;
    if s.fwd != [] && s.sender.phase == Sending && cfg.sync.window > 0 {
      var p, r := s.fwd[0], s.receiver;
      FlowHead(s.fwd, s.sender.entity);
      if r.phase == Receiving && !p.damaged && !TooHigh(p.pdu) {
        WindowUnit(cfg, s, si, ri);
      } else if r.phase == Receiving && p.damaged {
        assert Requested(s.back + [Resyn(r.lastSync)]);
      } else if r.phase == AwaitAck && p.pdu.AckResyn? {
        AnsweredOnce(cfg, s, si, ri);
      }
    }
  }

  /** Once the answer to a request is in the flow the request is not. */
  lemma AnsweredOnce(cfg: Config, s: System, si: nat, ri: nat)
    requires cfg.Valid() && Inv(cfg, s, si, ri) && s.receiver.phase == AwaitAck
    requires s.fwd != [] && s.fwd[0].pdu.AckResyn?
    ensures !Requested(s.back)
  {
    hide SenderSide, Reads, Flow, RefGood;
    FlowHead(s.fwd, s.sender.entity);
  }

  lemma AnswersPoint(cfg: Config, r: Receiver, ri: nat, p: Pdu)
    requires FollowOne(cfg, (ri, r.partial), p).Some? && cfg.sync.window > 0
    ensures Receive(cfg, r, p).1 == if p.Syn? then [AckSyn(p.n)] else []
  {
    hide Take;
  }

  // ---- runs ----

  lemma WindowBegins(cfg: Config, s: System, p: nat, si: nat, ri: nat)
    requires cfg.Valid() && Inv(cfg, s, si, ri) && WindowOk(cfg, s)
    ensures WindowOk(cfg, DoBeginSender(cfg, s, p)) && WindowOk(cfg, DoBeginReceiver(cfg, s, p))
  {
    hide Holds, SenderStoreOk, ReceiverStoreOk, FileOk, Follow, FollowOne, SenderAt, ReceiverAt;
    var v := s.sender;
    if v.phase == SendIdle {
      assert Flow(s.fwd, []) == [];
      BlockEmpty(p);
    }
  }

  lemma WindowStep(cfg: Config, s: System, a: Action, si: nat, ri: nat)
    requires cfg.Valid() && Inv(cfg, s, si, ri) && WindowOk(cfg, s)
    ensures WindowOk(cfg, Step(cfg, s, a))
  {
    hide DoSendArticle, DoTakeBack, DoTakeForward, DoBeginSender, DoBeginReceiver, PointDue, SenderSide, ReceiverSide,
      SenderStoreOk, ReceiverStoreOk, Floors, FileOk;
    match a {
      case BeginSender(p) => WindowBegins(cfg, s, p, si, ri);
      case BeginReceiver(p) => WindowBegins(cfg, s, p, si, ri);
      case SendArticle =>
        if CanSend(cfg, s) && s.sender.next < |cfg.arts| {
          WindowArticle(cfg, s, si, ri);
        } else {
          SendsNothing(cfg, s);
        }
      case FailAtSync =>
      case SendEnd =>
        if CanSend(cfg, s) && s.sender.next == |cfg.arts| {
          WindowEnd(cfg, s, si, ri);
        }
      case TakeBack => WindowTakeBack(cfg, s, si, ri);
      case TakeForward => WindowTakeForward(cfg, s, si, ri);
      case Damage(i) =>
        if i < |s.fwd| {
          DamageKeepsPdus(s.fwd, i);
        }
      case _ =>
    }
  }

  lemma SendsNothing(cfg: Config, s: System)
    requires cfg.packing.Valid() && cfg.WellCut() && !(CanSend(cfg, s) && s.sender.next < |cfg.arts|)
    ensures DoSendArticle(cfg, s) == s
  {
  }

  lemma {:induction false} RunWindow(cfg: Config, actions: seq<Action>)
    requires cfg.Valid() && AllAllowed(cfg, actions)
    ensures WindowOk(cfg, DataPhase.Run(cfg, actions))
  {
    if actions != [] {
      hide Inv, Step, WindowOk;
      var before, a := actions[..|actions| - 1], actions[|actions| - 1];
      var si, ri := RunKeeps(cfg, before);
      RunWindow(cfg, before);
      WindowStep(cfg, DataPhase.Run(cfg, before), a, si, ri);
    } else {
      InitialWindow(cfg);
    }
  }

  lemma InitialWindow(cfg: Config)
    ensures WindowOk(cfg, Initial(cfg))
  {
  }
}
