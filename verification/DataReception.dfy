/** What the two queues deliver keeps the invariant: acknowledgements and requests at the sender, data,
    points, damage and ACK(RESYN) at the receiver. */
module DataReception {
  import opened Bytes
  import opened Params
  import opened Cutter
  import opened Compressors
  import opened Checkpoints
  import opened Canon
  import opened DataPhase
  import opened LogFollowing
  import opened DataSafety
  import opened DataSteps
  import opened FileIo
  import F = Fpdu
  import A = Articles

  // ---- points of the stores ----

  lemma Origin(cfg: Config)
    requires cfg.WellCut()
    ensures PointAt(cfg, 0, 0) && SenderPoint(cfg, 0) == ORIGIN == ReceiverPoint(cfg, 0)
  {
    assert cfg.arts[..0] == [];
  }

  /** The place of a point the sender's store gives. */
  lemma SenderPlace(cfg: Config, st: Store, n: nat) returns (i: nat)
    requires cfg.WellCut() && SenderStoreOk(cfg, st) && st.Get(n).Some?
    ensures PointAt(cfg, n, i) && st.Get(n).value == SenderPoint(cfg, i)
  {
    if n == 0 {
      i := 0;
      Origin(cfg);
    } else {
      assert IsSenderPoint(cfg, st.points[n]);
      i :| PointAt(cfg, n, i) && st.points[n] == SenderPoint(cfg, i);
    }
  }

  lemma ReceiverPlace(cfg: Config, st: Store, n: nat) returns (i: nat)
    requires cfg.WellCut() && ReceiverStoreOk(cfg, st) && st.Get(n).Some?
    ensures PointAt(cfg, n, i) && st.Get(n).value == ReceiverPoint(cfg, i)
  {
    if n == 0 {
      i := 0;
      Origin(cfg);
    } else {
      assert IsReceiverPoint(cfg, st.points[n]);
      i :| PointAt(cfg, n, i) && st.points[n] == ReceiverPoint(cfg, i);
    }
  }

  /** The last point passed lies behind. */
  lemma PointBehind(cfg: Config, n: nat, i: nat, j: nat)
    requires PointAt(cfg, n, i) && Reach(cfg, j).n == n && !Reach(cfg, j).done
    ensures i <= j
  {
    if j < i {
      ReachGrows(cfg, j, i);
    }
  }

  // ---- the sender takes an answer ----

  lemma AcknowledgeKeeps(cfg: Config, st: Store, n: nat)
    requires cfg.WellCut() && SenderStoreOk(cfg, st)
    ensures SenderStoreOk(cfg, st.Acknowledge(n)) && st.Acknowledge(n).acknowledged == Max(st.acknowledged, n)
    ensures forall m :: m in st.Acknowledge(n).points <==> m in st.points && m >= Max(st.acknowledged, n)
  {
  }

  lemma BackTail(back: seq<Pdu>, low: nat)
    requires back != [] && BackShape(back, low) && back[0].AckSyn?
    ensures BackShape(back[1..], low) && (Requested(back[1..]) <==> Requested(back))
  {
    forall j | 0 <= j < |back| - 1 ensures back[1..][j] == back[j + 1] {
    }
  }

  /** The receiver's side depends on the answers in flight only through a pending request. */
  lemma SideWithBack(cfg: Config, s: System, t: System, si: nat, ri: nat)
    requires ReceiverSide(cfg, s, si, ri)
    requires t.receiver == s.receiver && t.fwd == s.fwd && t.start == s.start
    requires t.sender.phase == s.sender.phase && t.sender.entity == s.sender.entity && t.sender.pending == s.sender.pending
    requires Requested(t.back) <==> Requested(s.back)
    ensures ReceiverSide(cfg, t, si, ri)
  {
    hide Follow, Flow, Reach, RefGood, FileAt;
  }

  lemma KeepsAckSyn(cfg: Config, s: System, si: nat, ri: nat)
    requires cfg.Valid() && Inv(cfg, s, si, ri) && Active(s.sender) && s.back != [] && s.back[0].AckSyn?
    ensures Inv(cfg, DoTakeBack(cfg, s), si, ri)
  {
    hide Follow, Flow, Reach, RefGood, FileAt, ReceiverSide, SenderStoreOk, ReceiverStoreOk, Popped, Holds, Store.Acknowledge;
    var t, n := DoTakeBack(cfg, s), s.back[0].n;
    BackTail(s.back, Low(s));
    AcknowledgeKeeps(cfg, s.sender.store, n);
    SideWithBack(cfg, s, t, si, ri);
  }

  /** A request that the sender cannot honour any more ends it. */
  lemma KeepsRefusedResyn(cfg: Config, s: System, si: nat, ri: nat)
    requires cfg.Valid() && Inv(cfg, s, si, ri) && Active(s.sender) && s.back != [] && s.back[0].Resyn?
    requires s.sender.phase == Ended || !cfg.resync
    ensures Inv(cfg, DoTakeBack(cfg, s), si, ri)
  {
    hide Follow, Reach, RefGood, FileAt, SenderStoreOk, ReceiverStoreOk, Holds;
    var mid := SenderStops(s);
    KeepsSenderFails(cfg, s, si, ri);
    assert |s.back| == 1;
    assert s.back[1..] == [];
    var t := DoTakeBack(cfg, s);
    assert t == mid.(back := []);
    assert Requested(s.back);
  }

  /** The sender resumed from a point of its store. */
  lemma RewindStep(cfg: Config, v: Sender, i: nat)
    requires cfg.Valid() && PointAt(cfg, Reach(cfg, i).n, i) && v.phase == Sending
    requires cfg.compression != NoCompression ==> v.comp.compression == cfg.compression && v.comp.afterSync
    requires RefGood(cfg, v.comp.reference, Reach(cfg, i).k, 0)
    ensures var w := ResumedAt(cfg, v, SenderPoint(cfg, i));
      SenderAt(cfg, w, i) && w.syncNo == Reach(cfg, i).n && w.phase == Sending && w.pending == [] && w.entity == []
  {
    var c := Reach(cfg, i);
    RewoundTo(cfg, c.k, 0);
    ReachOrder(cfg, i);
  }

  lemma KeepsResyn(cfg: Config, s: System, si: nat, ri: nat) returns (ti: nat)
    requires cfg.Valid() && Inv(cfg, s, si, ri) && s.sender.phase == Sending && s.back != [] && s.back[0].Resyn?
    requires cfg.resync
    ensures Inv(cfg, DoTakeBack(cfg, s), ti, ri)
    ensures s.sender.store.Get(s.back[0].n).Some? && s.back[0].n == Low(s)
    ensures DoTakeBack(cfg, s).fwd == s.fwd + [Packet(AckResyn(s.back[0].n), false)]
  {
    hide Follow, Reach, RefGood, FileAt, Holds, Store.Acknowledge;
    var v, n := s.sender, s.back[0].n;
    assert |s.back| == 1 && n == Low(s) && Requested(s.back);
    assert v.store.Get(n).Some?;
    ti := SenderPlace(cfg, v.store, n);
    var synced := v.(comp := CompAtSync(cfg, v.comp));
    assert RefGood(cfg, v.comp.reference, Reach(cfg, ti).k, 0) by {
      RefAtPoint(cfg, v.comp.reference, Reach(cfg, si).k, Reach(cfg, si).longest, Reach(cfg, ti).k);
    }
    assert PointAt(cfg, Reach(cfg, ti).n, ti);
    RewindStep(cfg, synced, ti);
    HoldsNothing(cfg, ti);
    ResynSide(cfg, s, DoTakeBack(cfg, s), si, ti, ri, n);
  }

  lemma ResynSide(cfg: Config, s: System, t: System, si: nat, ti: nat, ri: nat, n: nat)
    requires cfg.WellCut()
    requires ReceiverSide(cfg, s, si, ri) && Requested(s.back) && s.sender.phase == Sending
    requires SenderAt(cfg, s.sender, si)
    requires PointAt(cfg, n, ti) && n == Low(s) && s.receiver.phase != ReceiveIdle
    requires t.receiver == s.receiver && t.start == s.start && t.back == []
    requires t.sender.phase == Sending && t.sender.pending == [] && t.sender.entity == []
    requires t.fwd == s.fwd + [Packet(AckResyn(n), false)]
    ensures ReceiverSide(cfg, t, ti, ri)
  {
    hide RefGood, FileAt;
    match s.receiver.phase {
      case AwaitAck =>
        PointUnique(cfg, n, ti, ri);
        var ack := [Packet(AckResyn(n), false)];
        PdusAppend(s.fwd, ack);
        assert ack[1..] == [];
        AfterAckAppend(Pdus(s.fwd), s.sender.entity);
        AfterAckAppend(Pdus(s.fwd), [AckResyn(n)]);
        assert [AckResyn(n)][1..] == [];
        assert Flow(t.fwd, []) == Pdus(s.fwd) + [AckResyn(n)];
      case Completed =>
        if ri < si {
          ReachGrows(cfg, ri, si);
        }
        assert false;
      case _ =>
    }
  }

  // ---- the receiver takes a unit ----

  lemma FlowHead(fwd: seq<Packet>, entity: seq<Pdu>)
    requires fwd != []
    ensures Flow(fwd, entity) != [] && Flow(fwd, entity)[0] == fwd[0].pdu
    ensures Flow(fwd, entity)[1..] == Flow(fwd[1..], entity)
  {
    assert Pdus(fwd)[1..] == Pdus(fwd[1..]);
  }

  /** A flow the log accounts for holds no ACK(RESYN). */
  lemma {:induction false} FollowedAckFree(cfg: Config, at: Place, ps: seq<Pdu>)
    requires Follow(cfg, at, ps).Some?
    ensures AfterAck(ps) == None
    decreases |ps|
  {
    if ps != [] {
      FollowedAckFree(cfg, FollowOne(cfg, at, ps[0]).value, ps[1..]);
    }
  }

  /** Damage: the receiver asks for its last point and waits. */
  lemma KeepsDamaged(cfg: Config, s: System, si: nat, ri: nat) returns (qi: nat)
    requires cfg.Valid() && Inv(cfg, s, si, ri) && s.receiver.phase == Receiving
    requires s.fwd != [] && s.fwd[0].damaged && cfg.resync
    ensures Inv(cfg, DoTakeForward(cfg, s), si, qi)
  {
    hide Reach, RefGood, FileAt, Holds, SenderAt;
    var r, n := s.receiver, s.receiver.lastSync;
    var t := DoTakeForward(cfg, s);
    assert s.fwd[0] in s.fwd && cfg.Tolerant();
    assert forall p :: p in s.fwd[1..] ==> p in s.fwd;
    qi := ReceiverPlace(cfg, r.store, n);
    assert ReceiverPoint(cfg, qi).fileOffset <= |r.file| && RefGood(cfg, r.reference, Reach(cfg, qi).k, 0) by {
      LastPointBehind(cfg, r, ri, qi);
    }
    FollowedAckFree(cfg, (ri, r.partial), Flow(s.fwd, s.sender.entity));
    FlowHead(s.fwd, s.sender.entity);
    assert AfterAck(Flow(t.fwd, t.sender.entity)).None?;
    BackAsks(s.back, n);
  }

  lemma LastPointBehind(cfg: Config, r: Receiver, ri: nat, qi: nat)
    requires ReceiverAt(cfg, r, ri) && PointAt(cfg, r.lastSync, qi) && cfg.Tolerant()
    ensures ReceiverPoint(cfg, qi).fileOffset <= |r.file|
    ensures RefGood(cfg, r.reference, Reach(cfg, qi).k, 0)
  {
    PointBehind(cfg, r.lastSync, qi, ri);
    if qi < ri {
      ReachGrows(cfg, qi, ri);
    }
    FilePrefix(cfg, Reach(cfg, qi).k, Reach(cfg, ri).k);
    RefAtPoint(cfg, r.reference, Reach(cfg, ri).k, Reach(cfg, ri).longest, Reach(cfg, qi).k);
  }

  lemma BackAsks(back: seq<Pdu>, n: nat)
    requires BackShape(back, n) && !Requested(back)
    ensures BackShape(back + [Resyn(n)], n) && Requested(back + [Resyn(n)])
  {
    forall j | 0 <= j < |back| ensures (back + [Resyn(n)])[j] == back[j] && back[j].AckSyn? {
    }
  }

  lemma BackAnswers(back: seq<Pdu>, low: nat, n: nat)
    requires BackShape(back, low) && !Requested(back) && low <= n
    ensures BackShape(back, n) && BackShape(back + [AckSyn(n)], n) && !Requested(back + [AckSyn(n)])
  {
    forall j | 0 <= j < |back| ensures (back + [AckSyn(n)])[j] == back[j] && back[j].AckSyn? && back[j].n <= n {
    }
  }

  /** Reading the flow one unit further. */
  lemma ReadsHead(cfg: Config, v: Sender, si: nat, at: Place, fwd: seq<Packet>, entity: seq<Pdu>)
    requires fwd != [] && Reads(cfg, v, si, at, Flow(fwd, entity))
    ensures FollowOne(cfg, at, fwd[0].pdu).Some?
    ensures Reads(cfg, v, si, FollowOne(cfg, at, fwd[0].pdu).value, Flow(fwd[1..], entity))
  {
    FlowHead(fwd, entity);
  }

  lemma DataStep(cfg: Config, r: Receiver, ri: nat, f: F.Fpdu)
    requires cfg.Valid() && r.phase == Receiving && ReceiverAt(cfg, r, ri) && FileOk(cfg, r)
    requires FollowOne(cfg, (ri, r.partial), Data(f)).Some?
    ensures var (t, answer) := Receive(cfg, r, Data(f));
      var (qi, partial) := FollowOne(cfg, (ri, r.partial), Data(f)).value;
      && t.phase == Receiving && answer == [] && t.partial == partial && ReceiverAt(cfg, t, qi)
      && t.lastSync == r.lastSync && t.store == r.store && FileOk(cfg, t)
  {
    hide Take, RefGood, Reach;
    var (partial, wires) := A.Fed(cfg.maxArticle, r.partial, f).value;
    var s := r.(partial := partial);
    assert ReceiverAt(cfg, s, ri);
    TakeStep(cfg, s, ri, wires);
    WholeFile(cfg, Reach(cfg, ri + |wires|).k);
  }

  lemma SynStep(cfg: Config, r: Receiver, ri: nat, n: nat)
    requires cfg.Valid() && ReceiverAt(cfg, r, ri) && ReceiverStoreOk(cfg, r.store)
    requires EntryNo(cfg, ri) == Mark(n)
    ensures var t := Receive(cfg, r, Syn(n)).0;
      ReceiverAt(cfg, t, ri + 1) && ReceiverStoreOk(cfg, t.store) && HasPoint(t) && r.lastSync <= n
  {
    var c, t := Reach(cfg, ri), Receive(cfg, r, Syn(n)).0;
    assert Reach(cfg, ri + 1) == Advance(cfg, c) == Progress(c.k, n, 0, 0, c.bytes, true, false);
    RefAtPoint(cfg, r.reference, c.k, c.longest, c.k);
    var cp := ReceiverPoint(cfg, ri + 1);
    assert t.store == r.store.Record(cp);
    assert PointAt(cfg, n, ri + 1) && IsReceiverPoint(cfg, cp);
    forall m | m in t.store.points ensures IsReceiverPoint(cfg, t.store.points[m]) {
      if m != n {
        assert m in r.store.points;
      }
    }
  }

  lemma EndReached(cfg: Config, r: Receiver, ri: nat)
    requires ReceiverAt(cfg, r, ri) && EntryNo(cfg, ri) == Finish
    ensures var c := Reach(cfg, ri + 1);
      c.done && c.k == |cfg.arts| && r.file == FileAt(cfg, |cfg.arts|) && r.dataBytes == c.bytes && r.articles == c.k
      && r.lastSync == c.n
  {
    assert Reach(cfg, ri + 1) == Advance(cfg, Reach(cfg, ri));
  }

  /** The receiver goes on from place `qi`, acknowledging a point if there was one. */
  ghost predicate GoesOn(cfg: Config, r: Receiver, t: Receiver, qi: nat, p: Pdu, answer: seq<Pdu>)
  {
    && t.phase == Receiving && ReceiverAt(cfg, t, qi)
    && (if p.Syn? then t.lastSync == p.n && answer == (if cfg.Acks() then [AckSyn(p.n)] else [])
        else t.lastSync == r.lastSync && answer == [])
  }

  /** The receiver has reached the end of the log. */
  predicate Ends(cfg: Config, r: Receiver, t: Receiver, qi: nat, answer: seq<Pdu>)
  {
    var c := Reach(cfg, qi);
    && t.phase == Completed && answer == [] && t.lastSync == r.lastSync == c.n
    && t.file == FileAt(cfg, |cfg.arts|)
    && c.done && c.k == |cfg.arts| && t.dataBytes == c.bytes && t.articles == |cfg.arts|
  }

  /** One unit of the flow received at the place it is due. */
  lemma ReceiveStep(cfg: Config, r: Receiver, ri: nat, p: Pdu) returns (qi: nat)
    requires cfg.Valid() && r.phase == Receiving && ReceiverAt(cfg, r, ri)
    requires ReceiverStoreOk(cfg, r.store) && HasPoint(r) && FileOk(cfg, r)
    requires FollowOne(cfg, (ri, r.partial), p).Some?
    ensures var (t, answer) := Receive(cfg, r, p);
      && qi == FollowOne(cfg, (ri, r.partial), p).value.0
      && ReceiverStoreOk(cfg, t.store) && FileOk(cfg, t) && HasPoint(t) && r.lastSync <= t.lastSync
      && ((GoesOn(cfg, r, t, qi, p, answer) && t.partial == FollowOne(cfg, (ri, r.partial), p).value.1)
          || Ends(cfg, r, t, qi, answer))
  {
    hide Reach, RefGood, Take;
    qi := FollowOne(cfg, (ri, r.partial), p).value.0;
    match p {
      case Data(f) => DataStep(cfg, r, ri, f);
      case Syn(n) => SynStep(cfg, r, ri, n);
      case DtfEnd => EndReached(cfg, r, ri);
    }
  }

  lemma KeepsUnit(cfg: Config, s: System, si: nat, ri: nat) returns (qi: nat)
    requires cfg.Valid() && Inv(cfg, s, si, ri) && s.receiver.phase == Receiving
    requires s.fwd != [] && !s.fwd[0].damaged && !TooHigh(s.fwd[0].pdu)
    ensures Inv(cfg, DoTakeForward(cfg, s), si, qi)
  {
    hide Reach, RefGood, FileAt, Follow, FollowOne, Flow, Receive, Holds;
    var r, p := s.receiver, s.fwd[0].pdu;
    ReadsHead(cfg, s.sender, si, (ri, r.partial), s.fwd, s.sender.entity);
    qi := ReceiveStep(cfg, r, ri, p);
    var (u, answer) := Receive(cfg, r, p);
    var t := DoTakeForward(cfg, s);
    assert t == System(s.sender, u, s.fwd[1..], s.back + answer, s.start);
    assert forall q :: q in s.fwd[1..] ==> q in s.fwd;
    BackAnswers(s.back, r.lastSync, u.lastSync);
    assert s.back + [] == s.back;
    assert Active(s.sender) ==> qi <= si && u.lastSync <= s.sender.syncNo by {
      if Active(s.sender) {
        FlowBehind(cfg, s.sender, si, FollowOne(cfg, (ri, r.partial), p).value, Flow(s.fwd[1..], s.sender.entity));
        if u.phase == Receiving {
          CountersBehind(cfg, u, qi, s.sender, si);
        }
      }
    }
  }

  lemma FlowBehind(cfg: Config, v: Sender, si: nat, at: Place, flow: seq<Pdu>)
    requires Reads(cfg, v, si, at, flow) && v.phase != SendFailed
    ensures at.0 <= si
  {
    FollowGrows(cfg, at, flow);
  }

  lemma CountersBehind(cfg: Config, r: Receiver, ri: nat, v: Sender, si: nat)
    requires cfg.WellCut() && ReceiverAt(cfg, r, ri) && SenderAt(cfg, v, si) && ri <= si
    ensures r.lastSync <= v.syncNo
  {
    if ri < si {
      ReachGrows(cfg, ri, si);
    }
  }

  // ---- the receiver waits for ACK(RESYN) ----

  lemma TruncateStep(cfg: Config, r: Receiver, i: nat)
    requires cfg.Valid() && FileOk(cfg, r) && PointAt(cfg, r.lastSync, i)
    requires ReceiverPoint(cfg, i).fileOffset <= |r.file|
    requires RefGood(cfg, r.reference, Reach(cfg, i).k, 0)
    ensures var t := TruncatedTo(r, ReceiverPoint(cfg, i));
      ReceiverAt(cfg, t, i) && FileOk(cfg, t) && t.lastSync == r.lastSync && t.store == r.store
  {
    ReachOrder(cfg, i);
    CutBack(cfg, r.file, Reach(cfg, i).k);
    WholeFile(cfg, Reach(cfg, i).k);
  }

  /** ACK(RESYN) brings the receiver back to the point it asked for, which it always finds. */
  lemma KeepsAckResyn(cfg: Config, s: System, si: nat, ri: nat)
    requires cfg.Valid() && Inv(cfg, s, si, ri) && s.receiver.phase == AwaitAck
    requires s.fwd != [] && !s.fwd[0].damaged && s.fwd[0].pdu.AckResyn? && !TooHigh(s.fwd[0].pdu)
    ensures Inv(cfg, DoTakeForward(cfg, s), si, ri)
    ensures s.fwd[0].pdu.n == s.receiver.lastSync && s.receiver.store.Get(s.fwd[0].pdu.n).Some?
  {
    hide Reach, RefGood, FileAt, Follow, FollowOne, Holds, ReceiverAt;
    var r := s.receiver;
    FlowHead(s.fwd, s.sender.entity);
    assert forall q :: q in s.fwd[1..] ==> q in s.fwd;
    var i := ReceiverPlace(cfg, r.store, r.lastSync);
    PointUnique(cfg, r.lastSync, i, ri);
    TruncateStep(cfg, r, ri);
  }

  lemma KeepsJunk(cfg: Config, s: System, si: nat, ri: nat)
    requires cfg.Valid() && Inv(cfg, s, si, ri) && s.receiver.phase == AwaitAck
    requires s.fwd != [] && !s.fwd[0].damaged && !s.fwd[0].pdu.AckResyn? && !TooHigh(s.fwd[0].pdu)
    ensures Inv(cfg, DoTakeForward(cfg, s), si, ri)
  {
    hide Reach, RefGood, FileAt, Follow, FollowOne, Holds;
    FlowHead(s.fwd, s.sender.entity);
    assert forall q :: q in s.fwd[1..] ==> q in s.fwd;
  }

  lemma KeepsReceiverFails(cfg: Config, s: System, si: nat, ri: nat, fwd: seq<Packet>)
    requires cfg.Valid() && Inv(cfg, s, si, ri) && s.receiver.phase != ReceiveIdle
    requires forall q :: q in fwd ==> q in s.fwd
    ensures Inv(cfg, s.(receiver := ReceiverStops(s.receiver), fwd := fwd), si, ri)
  {
    hide Reach, RefGood, FileAt, Follow, Holds;
    assert fwd == [] || fwd[0] in s.fwd;
  }

  lemma KeepsTakeForward(cfg: Config, s: System, si: nat, ri: nat) returns (qi: nat)
    requires cfg.Valid() && Inv(cfg, s, si, ri)
    ensures Inv(cfg, DoTakeForward(cfg, s), si, qi)
  {
    hide Inv, Receive, Await;
    qi := ri;
    if s.fwd != [] && (s.receiver.phase == Receiving || s.receiver.phase == AwaitAck) {
      var p := s.fwd[0];
      if p.damaged && s.receiver.phase == Receiving && cfg.resync {
        qi := KeepsDamaged(cfg, s, si, ri);
      } else if p.damaged || TooHigh(p.pdu) {
        KeepsReceiverFails(cfg, s, si, ri, s.fwd[1..]);
      } else if s.receiver.phase == Receiving {
        qi := KeepsUnit(cfg, s, si, ri);
      } else if p.pdu.AckResyn? {
        KeepsAckResyn(cfg, s, si, ri);
      } else {
        KeepsJunk(cfg, s, si, ri);
      }
    }
  }

  lemma KeepsTakeBack(cfg: Config, s: System, si: nat, ri: nat) returns (ti: nat)
    requires cfg.Valid() && Inv(cfg, s, si, ri)
    ensures Inv(cfg, DoTakeBack(cfg, s), ti, ri)
  {
    ti := si;
    if s.back != [] && Active(s.sender) {
      assert s.start.Some? && BackShape(s.back, Low(s));
      assert s.back[0].AckSyn? || s.back[0].Resyn?;
      hide Inv;
      if s.back[0].AckSyn? {
        KeepsAckSyn(cfg, s, si, ri);
      } else if s.sender.phase == Ended || !cfg.resync {
        KeepsRefusedResyn(cfg, s, si, ri);
      } else {
        ti := KeepsResyn(cfg, s, si, ri);
      }
    }
  }
}
