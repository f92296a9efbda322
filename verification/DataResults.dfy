/** The theorems about every run of the data phase. */
module DataResults {
  import opened Bytes
  import opened Params
  import opened Cutter
  import opened Checkpoints
  import opened Canon
  import opened DataPhase
  import opened LogFollowing
  import opened DataSafety
  import opened DataReception
  import opened DataTheorems
  import opened DataWindow
  import opened FileIo

  // ---- exact delivery ----

  /** Under any damage, resynchronisation, loss of the connection and restart, a receiver that reports
      completion holds exactly the articles of the source, written in order, and both sides have counted
      the same octets and articles. */
  lemma {:induction false} ExactDelivery(cfg: Config, actions: seq<Action>)
    requires cfg.Valid() && AllAllowed(cfg, actions)
    ensures var s := DataPhase.Run(cfg, actions);
      s.receiver.phase == Completed ==>
        && s.receiver.file == Delivered(cfg.format, cfg.arts)
        && s.receiver.articles == |cfg.arts|
        && (Active(s.sender) ==>
              && s.sender.phase == Ended
              && s.sender.dataBytes == s.receiver.dataBytes
              && s.sender.articles == s.receiver.articles)
  {
    hide Follow, RefGood, Holds, Step;
    var s := DataPhase.Run(cfg, actions);
    var si, ri := RunKeeps(cfg, actions);
    if s.receiver.phase == Completed {
      assert cfg.arts[..|cfg.arts|] == cfg.arts;
      if Active(s.sender) && ri < si {
        ReachGrows(cfg, ri, si);
      }
    }
  }

  // ---- canonical points ----

  /** A point of a number is the same in both stores and in every run: the same place of the source, whatever
      was damaged, lost or restarted on the way there. */
  lemma {:induction false} PointsAreCanonical(cfg: Config, actions: seq<Action>, others: seq<Action>, n: nat)
    requires cfg.Valid() && AllAllowed(cfg, actions) && AllAllowed(cfg, others)
    ensures var v, w := DataPhase.Run(cfg, actions).sender.store, DataPhase.Run(cfg, others).sender.store;
      n in v.points && n in w.points ==> v.points[n] == w.points[n]
    ensures var r, q := DataPhase.Run(cfg, actions).receiver.store, DataPhase.Run(cfg, others).receiver.store;
      n in r.points && n in q.points ==> r.points[n] == q.points[n]
    ensures var v, r := DataPhase.Run(cfg, actions).sender.store, DataPhase.Run(cfg, others).receiver.store;
      n in v.points && n in r.points ==>
        && v.points[n].sync == r.points[n].sync == n
        && v.points[n].articles == r.points[n].articles <= |cfg.arts|
        && v.points[n].dataBytes == r.points[n].dataBytes
        && v.points[n].fileOffset == cfg.srcOff[v.points[n].articles]
        && r.points[n].fileOffset == |Delivered(cfg.format, cfg.arts[..r.points[n].articles])|
  {
    hide DataPhase.Run, SenderSide, ReceiverSide, FileOk, Floors;
    var s, t := DataPhase.Run(cfg, actions), DataPhase.Run(cfg, others);
    var si, ri := RunKeeps(cfg, actions);
    var ti, qi := RunKeeps(cfg, others);
    assert SenderStoreOk(cfg, s.sender.store) && SenderStoreOk(cfg, t.sender.store);
    assert ReceiverStoreOk(cfg, s.receiver.store) && ReceiverStoreOk(cfg, t.receiver.store);
    StoresAgree(cfg, s.sender.store, t.sender.store, s.receiver.store, t.receiver.store, n);
  }

  lemma StoresAgree(cfg: Config, v: Store, w: Store, r: Store, q: Store, n: nat)
    requires cfg.WellCut() && SenderStoreOk(cfg, v) && SenderStoreOk(cfg, w)
    requires ReceiverStoreOk(cfg, r) && ReceiverStoreOk(cfg, q)
    ensures n in v.points && n in w.points ==> v.points[n] == w.points[n]
    ensures n in r.points && n in q.points ==> r.points[n] == q.points[n]
    ensures n in v.points && n in q.points ==>
      exists i :: PointAt(cfg, n, i) && v.points[n] == SenderPoint(cfg, i) && q.points[n] == ReceiverPoint(cfg, i)
  {
    if n in v.points {
      var i := SenderPlace(cfg, v, n);
      if n in w.points {
        var j := SenderPlace(cfg, w, n);
        PointUnique(cfg, n, i, j);
      }
      if n in q.points {
        var j := ReceiverPlace(cfg, q, n);
        PointUnique(cfg, n, i, j);
      }
    }
    if n in r.points && n in q.points {
      var i := ReceiverPlace(cfg, r, n);
      var j := ReceiverPlace(cfg, q, n);
      PointUnique(cfg, n, i, j);
    }
  }

  // ---- resynchronisation ----

  /** The point a receiver asks for is always one the sender still has, however much was pruned, so the answer
      names that point; and the receiver always finds it. */
  lemma {:induction false} ResyncPointFound(cfg: Config, actions: seq<Action>)
    requires cfg.Valid() && AllAllowed(cfg, actions) && cfg.resync
    ensures var s := DataPhase.Run(cfg, actions);
      && (s.sender.phase == Sending && s.back != [] && s.back[0].Resyn? ==>
            && s.sender.store.Get(s.back[0].n).Some?
            && DoTakeBack(cfg, s).fwd == s.fwd + [Packet(AckResyn(s.back[0].n), false)])
      && (s.receiver.phase == AwaitAck && s.fwd != [] && s.fwd[0].pdu.AckResyn? ==>
            && s.fwd[0].pdu.n == s.receiver.lastSync
            && s.receiver.store.Get(s.fwd[0].pdu.n).Some?)
  {
    var s := DataPhase.Run(cfg, actions);
    var si, ri := RunKeeps(cfg, actions);
    hide Inv, DataPhase.Run, DoTakeBack, DoTakeForward;
    if s.sender.phase == Sending && s.back != [] && s.back[0].Resyn? {
      var ti := KeepsResyn(cfg, s, si, ri);
    }
    if s.receiver.phase == AwaitAck && s.fwd != [] && s.fwd[0].pdu.AckResyn? {
      AckResynHead(cfg, s, si, ri);
    }
  }

  lemma AckResynHead(cfg: Config, s: System, si: nat, ri: nat)
    requires cfg.Valid() && Inv(cfg, s, si, ri) && s.receiver.phase == AwaitAck
    requires s.fwd != [] && s.fwd[0].pdu.AckResyn?
    ensures s.fwd[0].pdu.n == s.receiver.lastSync && s.receiver.store.Get(s.fwd[0].pdu.n).Some?
  {
    hide Reach, RefGood, FileAt, Follow, FollowOne, Holds, ReceiverAt;
    FlowHead(s.fwd, s.sender.entity);
  }

  // ---- the window and the interval ----

  /** The unacknowledged points are the consecutive block that ends at the last one, never more than the window; the
      octets since the last point exceed the negotiated interval, 1024 to the kilobyte and 1048576 when undefined, only
      when those of its last article do; and without the option there is no point. */
  lemma {:induction false} WindowAndInterval(cfg: Config, actions: seq<Action>) returns (from: nat)
    requires cfg.Valid() && AllAllowed(cfg, actions)
    ensures var v, kb := DataPhase.Run(cfg, actions).sender, cfg.sync.intervalKb;
      v.phase == Sending ==>
        && Block(v.unacked, v.syncNo)
        && (if cfg.sync.window == 0 then v.unacked == [] else |v.unacked| <= cfg.sync.window)
        && (kb == 0 ==> v.syncNo == 0)
        && from <= v.next <= |cfg.arts| && v.since == Octets(cfg, from, v.next)
        && (v.syncNo == 0 ==> from == 0)
        && (v.syncNo in v.store.points ==> from == v.store.points[v.syncNo].articles)
        && (kb != 0 && v.since > Spacing(kb) ==> v.next > from && Octets(cfg, from, v.next - 1) == 0)
  {
    hide DataPhase.Run, Follow, RefGood, Holds, WireAt;
    var s := DataPhase.Run(cfg, actions);
    var si, ri := RunKeeps(cfg, actions);
    RunWindow(cfg, actions);
    var j := Paced(cfg, si);
    from := Reach(cfg, j).k;
    if s.sender.phase == Sending {
      PointArticles(cfg, s.sender.store, s.sender.syncNo, j);
    }
  }

  lemma PointArticles(cfg: Config, st: Store, n: nat, j: nat)
    requires cfg.WellCut() && SenderStoreOk(cfg, st) && PointAt(cfg, n, j)
    ensures n == 0 ==> Reach(cfg, j).k == 0
    ensures n in st.points ==> st.points[n] == SenderPoint(cfg, j)
  {
    if n == 0 {
      PointUnique(cfg, 0, 0, j);
    } else if n in st.points {
      var i := SenderPlace(cfg, st, n);
      PointUnique(cfg, n, i, j);
    }
  }

  /** Every point a sender records, in any run, stands as far behind the one before it as the interval allows: the
      articles between them keep within it, unless the octets are all those of one article, and the next article
      would not have. */
  lemma {:induction false} PointsPaced(cfg: Config, actions: seq<Action>, n: nat) returns (from: nat)
    requires cfg.Valid() && AllAllowed(cfg, actions) && n in DataPhase.Run(cfg, actions).sender.store.points
    ensures var points, kb := DataPhase.Run(cfg, actions).sender.store.points, cfg.sync.intervalKb;
      var to := points[n].articles;
      && n >= 1 && kb != 0 && from < to < |cfg.arts|
      && (Octets(cfg, from, to) <= Spacing(kb) || Octets(cfg, from, to - 1) == 0)
      && Octets(cfg, from, to) + |WireAt(cfg, to, false)| > Spacing(kb)
      && (n == 1 ==> from == 0 && points[n].dataBytes == Octets(cfg, from, to))
      && (n - 1 in points ==>
            from == points[n - 1].articles && points[n].dataBytes == points[n - 1].dataBytes + Octets(cfg, from, to))
  {
    hide DataPhase.Run, SenderSide, ReceiverSide, FileOk, Floors, WireAt;
    var st := DataPhase.Run(cfg, actions).sender.store;
    var si, ri := RunKeeps(cfg, actions);
    assert SenderStoreOk(cfg, st);
    var i := SenderPlace(cfg, st, n);
    var j := PointPaced(cfg, n, i);
    from := Reach(cfg, j).k;
    PointArticles(cfg, st, n - 1, j);
    if n == 1 {
      PointUnique(cfg, 0, 0, j);
    }
  }

  /** An acknowledgement or a request on its way to the sender, or a point or an answer to a request on its way to
      the receiver. */
  ghost predicate AnswerUnderWay(s: System)
  {
    || (exists p :: p in s.back && (p.AckSyn? || p.Resyn?))
    || (exists q :: q in s.fwd && (q.pdu.Syn? || q.pdu.AckResyn?))
  }

  /** A sender held up by the window has an ACK(SYN) or a RESYN coming, or a SYN or an ACK(RESYN) of its own still
      under way, as long as the receiver has not stopped. */
  lemma {:induction false} BlockedHasAnswer(cfg: Config, actions: seq<Action>)
    requires cfg.Valid() && AllAllowed(cfg, actions)
    ensures var s := DataPhase.Run(cfg, actions);
      s.sender.phase == Sending && !WindowOpen(cfg, s.sender)
      && (s.receiver.phase == ReceiveIdle || s.receiver.phase == Receiving || s.receiver.phase == AwaitAck) ==>
        AnswerUnderWay(s)
  {
    var s := DataPhase.Run(cfg, actions);
    var si, ri := RunKeeps(cfg, actions);
    RunWindow(cfg, actions);
    hide DataPhase.Run, Inv, DataWindow.WindowOk, WindowOpen;
    if s.sender.phase == Sending && !WindowOpen(cfg, s.sender) {
      BlockedState(cfg, s, si, ri);
    }
  }

  lemma BlockedState(cfg: Config, s: System, si: nat, ri: nat)
    requires cfg.Valid() && Inv(cfg, s, si, ri) && WindowOk(cfg, s)
    requires s.sender.phase == Sending && !WindowOpen(cfg, s.sender)
    ensures s.receiver.phase == ReceiveIdle || s.receiver.phase == Receiving || s.receiver.phase == AwaitAck ==>
      AnswerUnderWay(s)
  {
    hide Reach, RefGood, FileAt, Follow, FollowOne, Holds, ReceiverAt, SenderAt, Flow, AnswerUnderWay;
    var flow := Flow(s.fwd, s.sender.entity);
    match s.receiver.phase {
      case AwaitAck =>
        if Requested(s.back) {
          RequestUnderWay(s);
        } else {
          AckInFlow(flow);
          InTheQueue(s, flow);
        }
      case ReceiveIdle => PointUnderWay(s);
      case Receiving => PointUnderWay(s);
      case _ =>
    }
  }

  lemma RequestUnderWay(s: System)
    requires Requested(s.back)
    ensures AnswerUnderWay(s)
  {
    assert s.back[|s.back| - 1] in s.back;
  }

  lemma {:induction false} AckInFlow(ps: seq<Pdu>)
    requires AfterAck(ps).Some?
    ensures exists p :: p in ps && p.AckResyn?
  {
    if ps[0].AckResyn? {
      assert ps[0] in ps;
    } else {
      AckInFlow(ps[1..]);
      var p :| p in ps[1..] && p.AckResyn?;
      assert p in ps;
    }
  }

  lemma {:induction false} AckNumbered(ps: seq<Pdu>)
    requires AckNums(ps) != []
    ensures exists p :: p in ps && p.AckSyn?
  {
    if ps[0].AckSyn? {
      assert ps[0] in ps;
    } else {
      AckNumbered(ps[1..]);
      var p :| p in ps[1..] && p.AckSyn?;
      assert p in ps;
    }
  }

  lemma {:induction false} SynNumbered(ps: seq<Pdu>)
    requires SynNums(ps) != []
    ensures exists p :: p in ps && p.Syn?
  {
    if ps[0].Syn? {
      assert ps[0] in ps;
    } else {
      SynNumbered(ps[1..]);
      var p :| p in ps[1..] && p.Syn?;
      assert p in ps;
    }
  }

  /** What is no data in the flow is in the queue already: a sender holds back nothing but data. */
  lemma InTheQueue(s: System, flow: seq<Pdu>)
    requires AllData(s.sender.entity) && flow == Flow(s.fwd, s.sender.entity)
    requires exists p :: p in flow && (p.Syn? || p.AckResyn?)
    ensures AnswerUnderWay(s)
  {
    var p :| p in flow && (p.Syn? || p.AckResyn?);
    var i :| 0 <= i < |Pdus(s.fwd)| && Pdus(s.fwd)[i] == p;
    PdusAt(s.fwd, i);
    assert s.fwd[i] in s.fwd;
  }

  lemma PointUnderWay(s: System)
    requires AllData(s.sender.entity) && s.sender.unacked != []
    requires s.sender.unacked == AckNums(s.back) + SynNums(Flow(s.fwd, s.sender.entity))
    ensures AnswerUnderWay(s)
  {
    hide Flow;
    if AckNums(s.back) != [] {
      AckNumbered(s.back);
    } else {
      SynNumbered(Flow(s.fwd, s.sender.entity));
      InTheQueue(s, Flow(s.fwd, s.sender.entity));
    }
  }

  /** With nothing in flight nothing is unacknowledged, unless the receiver has stopped. */
  lemma QuietWindow(cfg: Config, s: System, si: nat, ri: nat)
    requires cfg.Valid() && Inv(cfg, s, si, ri) && WindowOk(cfg, s)
    requires s.sender.phase == Sending && s.back == [] && s.fwd == []
    ensures s.receiver.phase == ReceiveIdle || s.receiver.phase == Receiving ==> WindowOpen(cfg, s.sender)
    ensures s.receiver.phase != AwaitAck
  {
    hide Reach, RefGood, FileAt, Follow, FollowOne, Holds, ReceiverAt, SenderAt;
    assert Flow(s.fwd, s.sender.entity) == s.sender.entity;
    AllDataNums(s.sender.entity);
    DataAckFree(s.sender.entity);
  }

  lemma DataAckFree(ps: seq<Pdu>)
    requires AllData(ps)
    ensures AfterAck(ps) == None
  {
    AckFreeNone(ps);
  }

  /** The two loops never wait for each other: while both run, there is something to take or to send. */
  lemma {:induction false} NeverStuck(cfg: Config, actions: seq<Action>)
    requires cfg.Valid() && AllAllowed(cfg, actions)
    ensures var s := DataPhase.Run(cfg, actions);
      Active(s.sender) && (s.receiver.phase == Receiving || s.receiver.phase == AwaitAck) ==>
        s.back != [] || s.fwd != [] || (CanSend(cfg, s) && s.sender.next <= |cfg.arts|)
  {
    var s := DataPhase.Run(cfg, actions);
    var si, ri := RunKeeps(cfg, actions);
    RunWindow(cfg, actions);
    hide DataPhase.Run;
    if Active(s.sender) && s.back == [] && s.fwd == [] {
      if s.sender.phase == Sending {
        QuietWindow(cfg, s, si, ri);
      } else {
        QuietEnd(cfg, s, si, ri);
      }
    }
  }

  lemma QuietEnd(cfg: Config, s: System, si: nat, ri: nat)
    requires cfg.Valid() && Inv(cfg, s, si, ri) && WindowOk(cfg, s)
    requires s.sender.phase == Ended && s.back == [] && s.fwd == []
    ensures s.receiver.phase != Receiving && s.receiver.phase != AwaitAck
  {
    hide RefGood, FileAt;
    assert Flow(s.fwd, s.sender.entity) == [];
    if s.receiver.phase == Receiving && ri < si {
      ReachGrows(cfg, ri, si);
    }
  }
}
