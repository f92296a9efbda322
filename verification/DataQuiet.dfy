/** What every step of an attempt keeps, wherever the two sides began, as long as no point is asked for again:
    all that is in flight, once absorbed, leaves the receiver level with the sender. */
module DataQuiet {
  import opened Bytes
  import opened Params
  import opened Cutter
  import opened Compressors
  import opened Checkpoints
  import opened Canon
  import opened DataPhase
  import opened LogFollowing
  import opened DataSafety
  import opened DataSteps
  import opened DataReception
  import opened DataTheorems
  import opened DataAttempts
  import opened FileIo
  import F = Fpdu
  import A = Articles

  // ---- an attempt under way ----

  /** The receiver as it starts from point `p` of its store. */
  function Opened(cfg: Config, r: Receiver, p: nat, cp: Checkpoint): Receiver
  {
    TruncatedTo(r.(reference := NewReceiver(cfg.maxArticle).reference, store := if p == 0 then NO_POINTS else r.store),
                cp)
  }

  /** The receiver, as if started where it has not been yet. */
  function Started(cfg: Config, s: System): Receiver
    requires s.start.Some?
  {
    var cp := s.receiver.store.Get(s.start.value);
    if s.receiver.phase == ReceiveIdle && cp.Some? then Opened(cfg, s.receiver, s.start.value, cp.value) else s.receiver
  }

  /** The sender will start from `cp`, and the receiver, unless it has stopped, has taken nothing yet. */
  predicate Fresh(cfg: Config, at: Attempt, r: Receiver, cp: Checkpoint)
    requires cfg.WellCut()
  {
    && cp.articles == at.from <= |cfg.arts| && cp.fileOffset == cfg.srcOff[cp.articles]
    && (r.phase == ReceiveFailed
        || (&& r.phase == Receiving && r.partial == None && r.reference == Repeat(cfg.RefSize(), 0)
            && r.articles == at.articles && r.dataBytes + at.ahead == cp.dataBytes))
  }

  predicate SenderStands(cfg: Config, at: Attempt, v: Sender)
    requires cfg.Built()
  {
    && at.from <= v.next == v.articles <= |cfg.arts| && v.offset == cfg.srcOff[v.next]
    && A.Pendable(cfg.packing, v.pending)
  }

  /** The sender's side: everything it has sent, once absorbed, leaves the receiver level with it. */
  predicate SenderLeads(cfg: Config, at: Attempt, s: System, r: Receiver)
    requires cfg.Built() && s.start.Some?
  {
    var v, flow := s.sender, Flow(s.fwd, s.sender.entity);
    match v.phase
    case SendIdle =>
      && flow == [] && s.back == [] && v.entity == [] && v.pending == []
      && (v.store.Get(s.start.value).Some? ==> Fresh(cfg, at, r, v.store.Get(s.start.value).value))
    case Sending => SenderStands(cfg, at, v) && Ready(cfg, at, v, Absorb(cfg, r, flow))
    case Ended =>
      var x := Absorb(cfg, r, flow);
      && v.entity == [] && v.pending == [] && v.articles == |cfg.arts| && x.phase != Receiving
      && (x.phase == Completed ==> v.dataBytes == x.dataBytes + at.ahead)
    case SendFailed => v.entity == [] && v.pending == []
  }

  /** No point is asked for, damage only ends the attempt, and whatever the receiver takes next keeps it right. */
  predicate Under(cfg: Config, at: Attempt, s: System)
    requires cfg.Built()
  {
    && s.start.Some? && at.from <= |cfg.arts|
    && (s.receiver.phase == ReceiveIdle ==> s.receiver.store.Get(s.start.value).Some?)
    && s.receiver.phase != AwaitAck
    && (forall p :: p in s.back ==> p.AckSyn?)
    && (forall p :: p in s.fwd && p.damaged ==> !cfg.resync)
    && AllSane(cfg, at, Started(cfg, s), Flow(s.fwd, s.sender.entity))
    && SenderLeads(cfg, at, s, Started(cfg, s))
  }

  /** Turns of the loops, failures, and damage that is answered by a failure: no start, no loss. */
  predicate Quiet(cfg: Config, a: Action)
  {
    match a
    case BeginSender(_) => false
    case BeginReceiver(_) => false
    case Lose(_) => false
    case Damage(_) => cfg.crc && !cfg.resync
    case _ => true
  }

  // ---- the sender's steps ----

  /** What an emission adds is absorbed behind what is in flight. */
  lemma Emitted(cfg: Config, at: Attempt, s: System, v: Sender, ops: seq<ShipOp>)
    requires cfg.Built() && Under(cfg, at, s)
    requires var x := Absorb(cfg, Started(cfg, s), Flow(s.fwd, s.sender.entity));
      AllSane(cfg, at, x, PdusOf(ops))
    ensures var t := Emit(cfg, s, v, ops);
      && t.receiver == s.receiver && t.back == s.back && t.start == s.start
      && t.sender == v.(entity := t.sender.entity)
      && (forall p :: p in t.fwd && p.damaged ==> !cfg.resync)
      && Flow(t.fwd, t.sender.entity) == Flow(s.fwd, s.sender.entity) + PdusOf(ops)
      && AllSane(cfg, at, Started(cfg, s), Flow(t.fwd, t.sender.entity))
      && Absorb(cfg, Started(cfg, s), Flow(t.fwd, t.sender.entity))
           == Absorb(cfg, Absorb(cfg, Started(cfg, s), Flow(s.fwd, s.sender.entity)), PdusOf(ops))
  {
    hide Absorb, AllSane, Perform, Started, SenderLeads, Flow;
    PerformFlow(cfg, s.sender.entity, s.fwd, ops);
    AbsorbAppend(cfg, at, Started(cfg, s), Flow(s.fwd, s.sender.entity), PdusOf(ops));
    forall p | p in Emit(cfg, s, v, ops).fwd && p.damaged ensures !cfg.resync {
      PerformUndamaged(cfg, s.sender.entity, s.fwd, ops, p);
    }
  }

  lemma StoppedAbsorbs(cfg: Config, at: Attempt, x: Receiver, ps: seq<Pdu>)
    requires Sane(cfg, at, x) && x.phase != Receiving
    ensures AllSane(cfg, at, x, ps) && Absorb(cfg, x, ps) == x
  {
  }

  lemma {:induction false} AbsorbedIsSane(cfg: Config, at: Attempt, r: Receiver, ps: seq<Pdu>)
    requires AllSane(cfg, at, r, ps)
    ensures Sane(cfg, at, Absorb(cfg, r, ps))
  {
    assert ps + [] == ps;
    AbsorbAppend(cfg, at, r, ps, []);
  }

  /** A point goes out behind what was held back, with nothing of the receiver's but its point changed. */
  lemma PointAbsorbed(cfg: Config, at: Attempt, v: Sender, x: Receiver, last: Pdu)
    requires cfg.Built() && SenderStands(cfg, at, v) && Ready(cfg, at, v, x) && Sane(cfg, at, x)
    requires last.Syn? || (last == DtfEnd && v.next == |cfg.arts|)
    ensures var ps := PdusOf(Puts(Datas(A.Flushed(cfg.packing, v.pending))) + [PutAndSend(last)]);
      var t := Absorb(cfg, x, ps);
      && AllSane(cfg, at, x, ps) && Sane(cfg, at, t)
      && (t.phase == ReceiveFailed
          || (if last.Syn? then t.phase == Receiving && t.partial == None && Level(cfg, at, v, t)
              else t.phase == Completed && Level(cfg, at, v, t)))
  {
    hide Absorb, AllSane, Grown, A.Flushed, Right, A.Pendable;
    var ds := Datas(A.Flushed(cfg.packing, v.pending));
    OneOp(PutAndSend(last));
    DataOps(A.Flushed(cfg.packing, v.pending), [PutAndSend(last)]);
    if x.phase == Receiving {
      FlushAbsorbed(cfg, at, v, x);
      var u := Absorb(cfg, x, ds);
      AbsorbAppend(cfg, at, x, ds, [last]);
      AbsorbOne(cfg, at, u, last);
    } else {
      StoppedAbsorbs(cfg, at, x, ds + [last]);
    }
  }

  lemma KeepsArticle(cfg: Config, at: Attempt, s: System)
    requires cfg.Built() && Under(cfg, at, s) && CanSend(cfg, s) && s.sender.next < |cfg.arts|
    requires !PointDue(cfg, s.sender)
    ensures Under(cfg, at, DoSendArticle(cfg, s))
  {
    hide Absorb, AllSane, Flow, PointDue, A.Pushed, A.Pendable, Right, Perform, Started, WireOut, CompSent, Sane, Level;
    var v, x := s.sender, Absorb(cfg, Started(cfg, s), Flow(s.fwd, s.sender.entity));
    var out := A.Pushed(cfg.packing, v.pending, WireOut(cfg, v.comp, cfg.arts[v.next])).1;
    ArticleUnits(out);
    AbsorbedIsSane(cfg, at, Started(cfg, s), Flow(s.fwd, s.sender.entity));
    if x.phase == Receiving {
      if Take(cfg, x, v.pending).1 {
        TakeKeeps(cfg, x, v.pending, None);
        RightIsSane(cfg, at, x, v.pending);
        PlainNextRight(cfg, at, v, Take(cfg, x, v.pending).0);
      }
      ArticleAbsorbed(cfg, at, v, x);
    } else {
      A.PushKeepsPendable(cfg.packing, v.pending, WireOut(cfg, v.comp, cfg.arts[v.next]));
      StoppedAbsorbs(cfg, at, x, Datas(out));
    }
    Emitted(cfg, at, s, WithArticle(cfg, v), ArticleOps(cfg, v));
    var t := DoSendArticle(cfg, s);
    StartedOn(cfg, s, t);
    ReadyAlike(cfg, at, WithArticle(cfg, v), t.sender, Absorb(cfg, x, Datas(out)));
  }

  lemma StartedOn(cfg: Config, s: System, t: System)
    requires s.start.Some? && t.start == s.start && t.receiver == s.receiver
    ensures Started(cfg, t) == Started(cfg, s)
  {
  }

  lemma KeepsArticleBehindPoint(cfg: Config, at: Attempt, s: System)
    requires cfg.Built() && Under(cfg, at, s) && CanSend(cfg, s) && s.sender.next < |cfg.arts|
    requires PointDue(cfg, s.sender)
    ensures Under(cfg, at, DoSendArticle(cfg, s))
  {
    hide Absorb, AllSane, Flow, PointDue, A.Pushed, A.Pendable, Right, Perform, Started, WireOut, CompSent, CompAtSync,
      Sane,
      Level, A.Flushed;
    var v, x := s.sender, Absorb(cfg, Started(cfg, s), Flow(s.fwd, s.sender.entity));
    var on := AtPoint(cfg, v);
    AbsorbedIsSane(cfg, at, Started(cfg, s), Flow(s.fwd, s.sender.entity));
    PointAbsorbed(cfg, at, v, x, Syn(v.syncNo + 1));
    var ps := PdusOf(PointOps(cfg, v));
    var u := Absorb(cfg, x, ps);
    HeldNothing(cfg, at, u);
    var out := A.Pushed(cfg.packing, [], WireOut(cfg, on.comp, cfg.arts[v.next])).1;
    ArticleUnits(out);
    if u.phase == Receiving {
      PointNextRight(cfg, at, v, u);
      ArticleAbsorbed(cfg, at, on, u);
    } else {
      A.PushKeepsPendable(cfg.packing, [], WireOut(cfg, on.comp, cfg.arts[v.next]));
      StoppedAbsorbs(cfg, at, u, Datas(out));
    }
    PdusOfAppend(PointOps(cfg, v), ArticleOps(cfg, on));
    AbsorbAppend(cfg, at, x, ps, Datas(out));
    Emitted(cfg, at, s, WithArticle(cfg, on), PointOps(cfg, v) + ArticleOps(cfg, on));
    var t := DoSendArticle(cfg, s);
    StartedOn(cfg, s, t);
    ReadyAlike(cfg, at, WithArticle(cfg, on), t.sender, Absorb(cfg, u, Datas(out)));
  }

  lemma HeldNothing(cfg: Config, at: Attempt, u: Receiver)
    requires cfg.packing.Valid() && Sane(cfg, at, u)
    ensures A.Pendable(cfg.packing, []) && Right(cfg, at, u, []) && Take(cfg, u, []) == (u, true)
  {
  }

  lemma KeepsEnd(cfg: Config, at: Attempt, s: System)
    requires cfg.Built() && Under(cfg, at, s) && CanSend(cfg, s) && s.sender.next == |cfg.arts|
    ensures Under(cfg, at, DoSendEnd(cfg, s))
  {
    hide Absorb, AllSane, Flow, A.Pendable, Right, Perform, Started, Sane, Level, A.Flushed;
    var v, x := s.sender, Absorb(cfg, Started(cfg, s), Flow(s.fwd, s.sender.entity));
    var ops := Puts(Datas(A.Flushed(cfg.packing, v.pending))) + [PutAndSend(DtfEnd)];
    AbsorbedIsSane(cfg, at, Started(cfg, s), Flow(s.fwd, s.sender.entity));
    PointAbsorbed(cfg, at, v, x, DtfEnd);
    Emitted(cfg, at, s, v.(phase := Ended, pending := []), ops);
    StartedOn(cfg, s, DoSendEnd(cfg, s));
    LastSent(cfg, v.entity, s.fwd, Puts(Datas(A.Flushed(cfg.packing, v.pending))), DtfEnd);
    LevelCounts(cfg, at, v, Absorb(cfg, x, PdusOf(ops)));
  }

  lemma LevelCounts(cfg: Config, at: Attempt, v: Sender, u: Receiver)
    ensures Level(cfg, at, v, u) ==> v.dataBytes == u.dataBytes + at.ahead
  {
  }

  /** Nothing is left in the entity after a unit that is sent at once. */
  lemma {:induction false} LastSent(cfg: Config, entity: seq<Pdu>, fwd: seq<Packet>, ops: seq<ShipOp>, p: Pdu)
    ensures Perform(cfg, entity, fwd, ops + [PutAndSend(p)]).0 == []
    decreases |ops|
  {
    hide Room, PduLen, Sound;
    if ops == [] {
      assert [] + [PutAndSend(p)] == [PutAndSend(p)] && [PutAndSend(p)][1..] == [];
    } else {
      assert (ops + [PutAndSend(p)])[0] == ops[0] && (ops + [PutAndSend(p)])[1..] == ops[1..] + [PutAndSend(p)];
      var (entity1, fwd1) := Perform(cfg, entity, fwd, [ops[0]]);
      PerformSplit(cfg, entity, fwd, ops + [PutAndSend(p)]);
      LastSent(cfg, entity1, fwd1, ops[1..], p);
    }
  }

  /** A sender that stops leaves a shorter flow. */
  lemma KeepsStop(cfg: Config, at: Attempt, s: System, t: System, cut: seq<Pdu>)
    requires cfg.Built() && Under(cfg, at, s)
    requires t.sender.phase == SendFailed && t.sender.entity == [] && t.sender.pending == []
    requires t.receiver == s.receiver && t.start == s.start && (forall p :: p in t.back ==> p in s.back)
    requires forall p :: p in t.fwd && p.damaged ==> !cfg.resync
    requires AllSane(cfg, at, Started(cfg, s), Flow(t.fwd, []) + cut)
    ensures Under(cfg, at, t)
  {
    hide Absorb, AllSane, Flow, Started;
    AbsorbAppend(cfg, at, Started(cfg, s), Flow(t.fwd, []), cut);
    StartedOn(cfg, s, t);
  }

  lemma KeepsSenderStop(cfg: Config, at: Attempt, s: System)
    requires cfg.Built() && Under(cfg, at, s)
    ensures Under(cfg, at, SenderStops(s))
  {
    hide Absorb, AllSane, Started;
    assert Flow(s.fwd, s.sender.entity) == Flow(s.fwd, []) + s.sender.entity;
    KeepsStop(cfg, at, s, SenderStops(s), s.sender.entity);
  }

  lemma KeepsStopAtPoint(cfg: Config, at: Attempt, s: System)
    requires cfg.Built() && Under(cfg, at, s) && CanSend(cfg, s) && s.sender.next < |cfg.arts|
      && PointDue(cfg, s.sender)
    ensures Under(cfg, at, DoFailAtSync(cfg, s))
  {
    hide Absorb, AllSane, PointDue, A.Pendable, Right, Perform, Started, Sane, Level, A.Flushed;
    var v, x := s.sender, Absorb(cfg, Started(cfg, s), Flow(s.fwd, s.sender.entity));
    AbsorbedIsSane(cfg, at, Started(cfg, s), Flow(s.fwd, s.sender.entity));
    PointAbsorbed(cfg, at, v, x, Syn(v.syncNo + 1));
    Emitted(cfg, at, s, v, PointOps(cfg, v));
    var t := Emit(cfg, s, v, PointOps(cfg, v));
    assert Flow(t.fwd, t.sender.entity) == Flow(t.fwd, []) + t.sender.entity;
    KeepsStop(cfg, at, s, SenderStops(t), t.sender.entity);
  }

  // ---- what is taken ----

  lemma KeepsAnswer(cfg: Config, at: Attempt, s: System)
    requires cfg.Built() && Under(cfg, at, s)
    ensures Under(cfg, at, DoTakeBack(cfg, s))
  {
    hide Absorb, AllSane, Flow, Popped, Started, Right, Level, A.Pendable;
    if s.back != [] && (s.sender.phase == Sending || s.sender.phase == Ended) {
      assert s.back[0] in s.back && forall p :: p in s.back[1..] ==> p in s.back;
      var t := DoTakeBack(cfg, s);
      StartedOn(cfg, s, t);
      if s.sender.phase == Sending {
        ReadyAlike(cfg, at, s.sender, t.sender, Absorb(cfg, Started(cfg, s), Flow(s.fwd, s.sender.entity)));
      }
    }
  }

  /** A unit off the queue: what the receiver makes of it is what was foreseen, or it stops. */
  lemma KeepsTaken(cfg: Config, at: Attempt, s: System)
    requires cfg.Built() && Under(cfg, at, s)
    ensures Under(cfg, at, DoTakeForward(cfg, s))
  {
    hide Receive, Right, Level, A.Pendable, Grown;
    if s.fwd != [] && s.receiver.phase == Receiving {
      var r, p, t := s.receiver, s.fwd[0], DoTakeForward(cfg, s);
      FlowHead(s.fwd, s.sender.entity);
      assert p in s.fwd && forall q :: q in s.fwd[1..] ==> q in s.fwd;
      var rest := Flow(s.fwd[1..], s.sender.entity);
      assert Started(cfg, s) == r && Started(cfg, t) == t.receiver by {
        AnswersAcks(cfg, r, p.pdu);
      }
      hide Flow, Started;
      if p.damaged || TooHigh(p.pdu) {
        StoppedAbsorbs(cfg, at, t.receiver, rest);
      } else {
        AnswersAcks(cfg, r, p.pdu);
        assert t.receiver == Receive(cfg, r, p.pdu).0;
      }
    }
  }

  lemma AnswersAcks(cfg: Config, r: Receiver, p: Pdu)
    requires r.phase == Receiving
    ensures var (t, answer) := Receive(cfg, r, p);
      && (forall q :: q in answer ==> q.AckSyn?)
      && (t.phase == Receiving || t.phase == Completed || t.phase == ReceiveFailed)
  {
    hide A.Fed, TakeOne;
    if p.Data? && p.f.kind.IsData() && A.Fed(cfg.maxArticle, r.partial, p.f).Ok? {
      var (partial, wires) := A.Fed(cfg.maxArticle, r.partial, p.f).value;
      TakeKeeps(cfg, r.(partial := partial), wires, partial);
    }
  }

  lemma KeepsReceiverStop(cfg: Config, at: Attempt, s: System, r: Receiver)
    requires cfg.Built() && Under(cfg, at, s) && s.receiver.phase != ReceiveIdle
    requires r == ReceiverStops(s.receiver) || (s.receiver.phase == Completed && r == s.receiver.(store := NO_POINTS))
    ensures Under(cfg, at, s.(receiver := r))
  {
    hide Grown;
    StoppedAbsorbs(cfg, at, r, Flow(s.fwd, s.sender.entity));
    if s.receiver.phase == Completed {
      StoppedAbsorbs(cfg, at, s.receiver, Flow(s.fwd, s.sender.entity));
    }
  }

  lemma KeepsMark(cfg: Config, at: Attempt, s: System, i: nat)
    requires cfg.Built() && Under(cfg, at, s) && !cfg.resync
    ensures Under(cfg, at, DoDamage(s, i))
  {
    hide Absorb, AllSane, Right, Level, A.Pendable;
    if i < |s.fwd| {
      DamageKeepsPdus(s.fwd, i);
      StartedOn(cfg, s, DoDamage(s, i));
    }
  }

  lemma KeepsForgotten(cfg: Config, at: Attempt, s: System)
    requires cfg.Built() && Under(cfg, at, s) && s.sender.phase == Ended
    ensures Under(cfg, at, SenderStops(s.(sender := s.sender.(store := NO_POINTS))))
  {
    hide Absorb, AllSane, Started;
    assert Flow(s.fwd, s.sender.entity) == Flow(s.fwd, []) + s.sender.entity;
    KeepsStop(cfg, at, s, SenderStops(s.(sender := s.sender.(store := NO_POINTS))), s.sender.entity);
  }

  /** Whatever happens in an attempt but another start. */
  lemma UnderStep(cfg: Config, at: Attempt, s: System, a: Action)
    requires cfg.Built() && Under(cfg, at, s) && Quiet(cfg, a)
    ensures Under(cfg, at, Step(cfg, s, a))
  {
    hide Under, PointDue, DoTakeBack, DoTakeForward, DoDamage, DoSendArticle;
    match a {
      case SendArticle =>
        if CanSend(cfg, s) && s.sender.next < |cfg.arts| {
          if PointDue(cfg, s.sender) {
            KeepsArticleBehindPoint(cfg, at, s);
          } else {
            KeepsArticle(cfg, at, s);
          }
        } else {
          NothingSent(cfg, s);
        }
      case FailAtSync =>
        if CanSend(cfg, s) && s.sender.next < |cfg.arts| && PointDue(cfg, s.sender) {
          KeepsStopAtPoint(cfg, at, s);
        }
      case SendEnd =>
        if CanSend(cfg, s) && s.sender.next == |cfg.arts| {
          KeepsEnd(cfg, at, s);
        }
      case TakeBack => KeepsAnswer(cfg, at, s);
      case SenderFails => KeepsSenderStop(cfg, at, s);
      case TakeForward => KeepsTaken(cfg, at, s);
      case ReceiverFails =>
        if s.receiver.phase != ReceiveIdle {
          KeepsReceiverStop(cfg, at, s, ReceiverStops(s.receiver));
        }
      case Damage(i) => KeepsMark(cfg, at, s, i);
      case ForgetSender =>
        if s.sender.phase == Ended {
          KeepsForgotten(cfg, at, s);
        }
      case ForgetReceiver =>
        if s.receiver.phase == Completed {
          KeepsReceiverStop(cfg, at, s, s.receiver.(store := NO_POINTS));
        }
    }
  }

  lemma NothingSent(cfg: Config, s: System)
    requires cfg.packing.Valid() && cfg.WellCut() && (!CanSend(cfg, s) || s.sender.next >= |cfg.arts|)
    ensures DoSendArticle(cfg, s) == s
  {
  }
}
