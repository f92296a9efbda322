/** Every turn of the sending loop keeps the invariant: an article, a point and its article, the end of the file,
    and a sender that stops anywhere. */
module DataSteps {
  import opened Bytes
  import opened Params
  import opened Cutter
  import opened Compressors
  import opened Checkpoints
  import opened Canon
  import opened DataPhase
  import opened LogFollowing
  import opened DataSafety
  import opened FileIo
  import F = Fpdu
  import A = Articles

  // ---- emitting ----

  lemma ReadsOn(cfg: Config, v: Sender, w: Sender, si: nat, ti: nat, at: Place, flow: seq<Pdu>, add: seq<Pdu>)
    requires Reads(cfg, v, si, at, flow) && v.phase != SendFailed
    requires |w.pending| <= ti && Follow(cfg, (si - |v.pending|, None), add) == Some((ti - |w.pending|, None))
    ensures Reads(cfg, w, ti, at, flow + add)
  {
    FollowAppend(cfg, at, flow, add);
  }

  lemma {:induction false} PerformUndamaged(cfg: Config, entity: seq<Pdu>, fwd: seq<Packet>, ops: seq<ShipOp>,
                                           p: Packet)
    requires p in Perform(cfg, entity, fwd, ops).1 && p.damaged
    ensures p in fwd
    decreases |ops|
  {
    if ops != [] {
      var (entity1, fwd1) := Perform(cfg, entity, fwd, [ops[0]]);
      PerformSplit(cfg, entity, fwd, ops);
      PerformUndamaged(cfg, entity1, fwd1, ops[1..], p);
      assert [ops[0]][1..] == [];
      SoundUndamaged(entity, p);
      if !ops[0].SendIfFull? {
        SoundUndamaged([ops[0].p], p);
        SoundUndamaged(entity + [ops[0].p], p);
      }
    }
  }

  lemma {:induction false} SoundUndamaged(ps: seq<Pdu>, p: Packet)
    ensures p.damaged ==> p !in Sound(ps)
  {
    if ps != [] {
      SoundUndamaged(ps[1..], p);
    }
  }

  /** The receiver's side when the flow grows and the sender moves on. */
  lemma FlowGrows(cfg: Config, s: System, t: System, si: nat, ti: nat, ri: nat, add: seq<Pdu>)
    requires ReceiverSide(cfg, s, si, ri)
    requires Active(s.sender) && Active(t.sender) && si <= ti
    requires t.receiver == s.receiver && t.back == s.back && t.start == s.start && AckFree(add)
    requires Flow(t.fwd, t.sender.entity) == Flow(s.fwd, s.sender.entity) + add
    requires |s.sender.pending| <= si && |t.sender.pending| <= ti
    requires Follow(cfg, (si - |s.sender.pending|, None), add) == Some((ti - |t.sender.pending|, None))
    ensures ReceiverSide(cfg, t, ti, ri)
  {
    hide Follow, Flow, FollowOne, Reach, RefGood, FileAt, ReceiverAt, PointAt, ReceiverPoint;
    var flow := Flow(s.fwd, s.sender.entity);
    match s.receiver.phase {
      case ReceiveIdle =>
        if s.start.Some? {
          ReadsOn(cfg, s.sender, t.sender, si, ti, (ri, None), flow, add);
        }
      case Receiving =>
        ReadsOn(cfg, s.sender, t.sender, si, ti, (ri, s.receiver.partial), flow, add);
      case AwaitAck =>
        AfterAckAppend(flow, add);
        AckFreeNone(add);
        if !Requested(s.back) {
          ReadsOn(cfg, s.sender, t.sender, si, ti, (ri, None), AfterAck(flow).value.1, add);
        }
      case _ =>
    }
  }

  /** A turn of the sending loop that moves the sender from place `si` to place `ti`. */
  lemma EmitKeeps(cfg: Config, s: System, v: Sender, ops: seq<ShipOp>, si: nat, ti: nat, ri: nat)
    requires cfg.Valid() && Inv(cfg, s, si, ri) && s.sender.phase == Sending
    requires Active(v) && SenderAt(cfg, v, ti) && Holds(cfg, ti, v.pending) && SenderHas(v, s.start.value)
    requires SenderStoreOk(cfg, v.store) && v.store.acknowledged == s.sender.store.acknowledged
    requires s.sender.syncNo <= v.syncNo && si <= ti && AckFree(PdusOf(ops))
    requires Follow(cfg, (si - |s.sender.pending|, None), PdusOf(ops)) == Some((ti - |v.pending|, None))
    ensures Inv(cfg, Emit(cfg, s, v, ops), ti, ri)
  {
    hide Follow, Flow, FollowOne, Perform, Reach, RefGood, FileAt;
    var t := Emit(cfg, s, v, ops);
    var (entity, fwd) := Perform(cfg, s.sender.entity, s.fwd, ops);
    PerformFlow(cfg, s.sender.entity, s.fwd, ops);
    forall p | p in t.fwd && p.damaged ensures Resyncable(cfg) {
      PerformUndamaged(cfg, s.sender.entity, s.fwd, ops, p);
    }
    FlowGrows(cfg, s, t, si, ti, ri, PdusOf(ops));
  }

  /** The units of a data emission. */
  lemma DataOps(fs: seq<F.Fpdu>, last: seq<ShipOp>)
    ensures PdusOf(Puts(Datas(fs)) + last) == Datas(fs) + PdusOf(last)
    ensures AckFree(PdusOf(last)) ==> AckFree(PdusOf(Puts(Datas(fs)) + last))
  {
    PdusOfAppend(Puts(Datas(fs)), last);
    PdusOfPuts(Datas(fs));
    DatasAckFree(fs);
  }

  lemma OneOp(op: ShipOp)
    ensures PdusOf([op]) == if op.SendIfFull? then [] else [op.p]
  {
    assert [op][1..] == [];
  }

  lemma ArticleUnits(out: seq<F.Fpdu>)
    ensures var ops := Puts(Datas(out)) + [SendIfFull];
      PdusOf(ops) == Datas(out) && AckFree(PdusOf(ops))
  {
    hide Datas, Puts;
    OneOp(SendIfFull);
    DataOps(out, [SendIfFull]);
    assert Datas(out) + [] == Datas(out);
  }

  /** An article handed to the packer. */
  lemma ArticleFlow(cfg: Config, v: Sender, i: nat)
    requires cfg.WellCut() && cfg.packing.Valid() && v.next < |cfg.arts| && Holds(cfg, i, v.pending)
    requires EntryNo(cfg, i) == Wire(WireOut(cfg, v.comp, cfg.arts[v.next]))
    requires A.Admitted(cfg.maxArticle, cfg.packing, WireOut(cfg, v.comp, cfg.arts[v.next]))
    ensures AckFree(PdusOf(ArticleOps(cfg, v)))
    ensures Holds(cfg, i + 1, WithArticle(cfg, v).pending)
    ensures Follow(cfg, (i - |v.pending|, None), PdusOf(ArticleOps(cfg, v)))
         == Some((i + 1 - |WithArticle(cfg, v).pending|, None))
  {
    hide Follow, FollowOne, A.Pushed, EntryNo, Holds, PdusOf, Puts, Datas, A.Admitted, AckFree, WireOut;
    var w := WireOut(cfg, v.comp, cfg.arts[v.next]);
    var out := A.Pushed(cfg.packing, v.pending, w).1;
    FollowPush(cfg, i, v.pending, w);
    ArticleUnits(out);
  }

  /** What is held back is flushed, then a SYN or the end is sent. */
  lemma FlushFlow(cfg: Config, pending: seq<seq<byte>>, i: nat, p: Pdu)
    requires Holds(cfg, i, pending) && FollowOne(cfg, (i, None), p) == Some((i + 1, None)) && !p.AckResyn?
    ensures var ops := Puts(Datas(A.Flushed(cfg.packing, pending))) + [PutAndSend(p)];
      AckFree(PdusOf(ops)) && Follow(cfg, (i - |pending|, None), PdusOf(ops)) == Some((i + 1, None))
  {
    hide A.Flushed;
    FollowFlush(cfg, i, pending);
    OneOp(PutAndSend(p));
    DataOps(A.Flushed(cfg.packing, pending), [PutAndSend(p)]);
    FollowAppend(cfg, (i - |pending|, None), Datas(A.Flushed(cfg.packing, pending)), [p]);
    FollowSingle(cfg, (i, None), p);
  }

  lemma WireAdmitted(cfg: Config, v: Sender, i: nat)
    requires cfg.Valid() && v.next == Reach(cfg, i).k < |cfg.arts|
    requires EntryNo(cfg, i) == Wire(WireOut(cfg, v.comp, cfg.arts[v.next]))
    ensures A.Admitted(cfg.maxArticle, cfg.packing, WireOut(cfg, v.comp, cfg.arts[v.next]))
  {
    assert EntryNo(cfg, i).Wire?;
  }

  /** What makes the next article the next entry. */
  ghost predicate ArticleNext(cfg: Config, v: Sender, i: nat)
    requires cfg.WellCut() && cfg.packing.Valid()
  {
    && v.phase == Sending && v.next < |cfg.arts| && CountersAt(cfg, v, i)
    && EntryNo(cfg, i) == Wire(WireOut(cfg, v.comp, cfg.arts[v.next]))
    && A.Admitted(cfg.maxArticle, cfg.packing, WireOut(cfg, v.comp, cfg.arts[v.next]))
    && RefGood(cfg, Overwrite(v.comp.reference, cfg.arts[v.next]), v.next + 1, Reach(cfg, i + 1).longest)
  }

  /** An emission that moves the sender `v` at place `i` to the sender `w` at place `j`. */
  ghost predicate Moves(cfg: Config, v: Sender, i: nat, w: Sender, j: nat, ops: seq<ShipOp>)
    requires cfg.WellCut()
  {
    && SenderAt(cfg, w, j) && Holds(cfg, j, w.pending) && AckFree(PdusOf(ops))
    && |v.pending| <= i
    && Follow(cfg, (i - |v.pending|, None), PdusOf(ops)) == Some((j - |w.pending|, None))
  }

  lemma HeldIsBehind(cfg: Config, i: nat, pending: seq<seq<byte>>)
    requires Holds(cfg, i, pending)
    ensures |pending| <= i
  {
  }

  lemma ArticleMoves(cfg: Config, v: Sender, i: nat)
    requires cfg.WellCut() && cfg.packing.Valid() && ArticleNext(cfg, v, i) && Holds(cfg, i, v.pending)
    ensures Moves(cfg, v, i, WithArticle(cfg, v), i + 1, ArticleOps(cfg, v))
  {
    hide Follow, FollowOne, A.Pushed, RefGood, EntryNo, PdusOf, ArticleOps, WithArticle, SenderAt, Holds, Reach;
    HeldIsBehind(cfg, i, v.pending);
    ArticleStep(cfg, v, i);
    ArticleFlow(cfg, v, i);
  }

  /** What the invariant says of a sender at work. */
  lemma SenderPlaced(cfg: Config, s: System, si: nat, ri: nat)
    requires cfg.WellCut() && Inv(cfg, s, si, ri) && s.sender.phase == Sending
    ensures SenderAt(cfg, s.sender, si) && Holds(cfg, si, s.sender.pending) && s.start.Some?
    ensures ReceiverSide(cfg, s, si, ri) && SenderStoreOk(cfg, s.sender.store)
    ensures SenderHas(s.sender, s.start.value) && s.sender.store.acknowledged <= s.sender.syncNo
  {
  }

  lemma PlainArticleNext(cfg: Config, v: Sender, i: nat)
    requires cfg.Valid() && SenderAt(cfg, v, i) && v.phase == Sending && v.next < |cfg.arts| && !PointDue(cfg, v)
    ensures ArticleNext(cfg, v, i)
  {
    hide PointDue, EntryNo, WireOut;
    NextEntry(cfg, v, i);
    RefNext(cfg, v.comp.reference, v.next, Reach(cfg, i).longest);
    WireAdmitted(cfg, v, i);
  }

  lemma KeepsPlainArticle(cfg: Config, s: System, si: nat, ri: nat)
    requires cfg.Valid() && Inv(cfg, s, si, ri) && CanSend(cfg, s) && s.sender.next < |cfg.arts|
    requires !PointDue(cfg, s.sender)
    ensures Inv(cfg, DoSendArticle(cfg, s), si + 1, ri)
  {
    hide Follow, A.Pushed, Emit, PointDue, Holds, SenderAt, ReceiverSide, ArticleOps, SenderStoreOk, ArticleNext;
    PlainArticleNext(cfg, s.sender, si);
    ArticleMoves(cfg, s.sender, si);
    EmitKeeps(cfg, s, WithArticle(cfg, s.sender), ArticleOps(cfg, s.sender), si, si + 1, ri);
  }

  /** The sender's store once point `i` is recorded. */
  lemma RecordKeeps(cfg: Config, st: Store, i: nat)
    requires cfg.WellCut() && SenderStoreOk(cfg, st)
    requires PointAt(cfg, Reach(cfg, i).n, i) && Reach(cfg, i).n >= 1 && Reach(cfg, i).n >= st.acknowledged
    ensures SenderStoreOk(cfg, st.Record(SenderPoint(cfg, i)))
    ensures st.Record(SenderPoint(cfg, i)).acknowledged == st.acknowledged
  {
    var cp := SenderPoint(cfg, i);
    assert IsSenderPoint(cfg, cp);
    forall n | n in st.Record(cp).points ensures IsSenderPoint(cfg, st.Record(cp).points[n]) {
      if n != cp.sync {
        assert n in st.points;
      }
    }
  }

  lemma FollowSyn(cfg: Config, i: nat, n: nat)
    requires EntryNo(cfg, i) == Mark(n)
    ensures FollowOne(cfg, (i, None), Syn(n)) == Some((i + 1, None))
  {
  }

  /** The point and its flush, up to the article that follows. */
  lemma PointFlow(cfg: Config, v: Sender, i: nat)
    requires Holds(cfg, i, v.pending) && EntryNo(cfg, i) == Mark(v.syncNo + 1)
    ensures AckFree(PdusOf(PointOps(cfg, v)))
    ensures Follow(cfg, (i - |v.pending|, None), PdusOf(PointOps(cfg, v))) == Some((i + 1, None))
  {
    hide Follow, FollowOne, EntryNo, Holds, PdusOf, Puts, Datas, AckFree, A.Flushed;
    FollowSyn(cfg, i, v.syncNo + 1);
    FlushFlow(cfg, v.pending, i, Syn(v.syncNo + 1));
  }

  lemma HoldsNothing(cfg: Config, i: nat)
    requires cfg.packing.Valid()
    ensures Holds(cfg, i, [])
  {
  }

  lemma ArticleNextAfterPoint(cfg: Config, v: Sender, i: nat)
    requires cfg.Valid() && SenderAt(cfg, v, i) && v.phase == Sending && v.next < |cfg.arts| && PointDue(cfg, v)
    requires SenderStoreOk(cfg, v.store) && v.store.acknowledged <= v.syncNo
    ensures EntryNo(cfg, i) == Mark(v.syncNo + 1) && ArticleNext(cfg, AtPoint(cfg, v), i + 1)
    ensures var st := AtPoint(cfg, v).store; SenderStoreOk(cfg, st) && st.acknowledged == v.store.acknowledged
  {
    hide PointDue, EntryNo, WireOut, RefGood, SenderStoreOk, Reach, A.Admitted, Checkpoints.Store.Record;
    NextEntry(cfg, v, i);
    PointStep(cfg, v, i);
    WireAdmitted(cfg, AtPoint(cfg, v), i + 1);
    RecordKeeps(cfg, v.store, i + 1);
  }

  lemma MovesTwice(cfg: Config, v: Sender, i: nat, ops1: seq<ShipOp>, mid: Sender, j: nat,
                   ops2: seq<ShipOp>, w: Sender, k: nat)
    requires cfg.WellCut() && |v.pending| <= i && mid.pending == [] && AckFree(PdusOf(ops1))
    requires Follow(cfg, (i - |v.pending|, None), PdusOf(ops1)) == Some((j, None))
    requires Moves(cfg, mid, j, w, k, ops2)
    ensures Moves(cfg, v, i, w, k, ops1 + ops2)
  {
    hide Follow, PdusOf, Holds, SenderAt;
    PdusOfAppend(ops1, ops2);
    FollowAppend(cfg, (i - |v.pending|, None), PdusOf(ops1), PdusOf(ops2));
  }

  /** A point and the article after it, as one emission. */
  lemma PointThenArticle(cfg: Config, v: Sender, i: nat)
    requires cfg.Valid() && SenderAt(cfg, v, i) && v.phase == Sending && v.next < |cfg.arts| && PointDue(cfg, v)
    requires Holds(cfg, i, v.pending) && SenderStoreOk(cfg, v.store) && v.store.acknowledged <= v.syncNo
    ensures var at := AtPoint(cfg, v);
      var w := WithArticle(cfg, at);
      && Moves(cfg, v, i, w, i + 2, PointOps(cfg, v) + ArticleOps(cfg, at))
      && SenderStoreOk(cfg, w.store) && w.store.acknowledged == v.store.acknowledged
  {
    hide Follow, PointDue, EntryNo, PointOps, ArticleOps, ArticleNext, Moves, SenderStoreOk, SenderAt, A.Pushed;
    var at := AtPoint(cfg, v);
    ArticleNextAfterPoint(cfg, v, i);
    PointFlow(cfg, v, i);
    HoldsNothing(cfg, i + 1);
    ArticleMoves(cfg, at, i + 1);
    MovesTwice(cfg, v, i, PointOps(cfg, v), at, i + 1, ArticleOps(cfg, at), WithArticle(cfg, at), i + 2);
  }

  lemma KeepsArticleAtPoint(cfg: Config, s: System, si: nat, ri: nat)
    requires cfg.Valid() && Inv(cfg, s, si, ri) && CanSend(cfg, s) && s.sender.next < |cfg.arts|
    requires PointDue(cfg, s.sender)
    ensures Inv(cfg, DoSendArticle(cfg, s), si + 2, ri)
  {
    hide Inv, Follow, Emit, SenderAt, Holds, PointDue, ReceiverSide, PointOps, ArticleOps, SenderStoreOk, A.Pushed,
      CompSent, CompAtSync, WireOut;
    var at := AtPoint(cfg, s.sender);
    var w := WithArticle(cfg, at);
    SenderPlaced(cfg, s, si, ri);
    PointThenArticle(cfg, s.sender, si);
    EmitKeeps(cfg, s, w, PointOps(cfg, s.sender) + ArticleOps(cfg, at), si, si + 2, ri);
  }

  lemma KeepsSendEnd(cfg: Config, s: System, si: nat, ri: nat)
    requires cfg.Valid() && Inv(cfg, s, si, ri) && CanSend(cfg, s) && s.sender.next == |cfg.arts|
    ensures Inv(cfg, DoSendEnd(cfg, s), si + 1, ri)
  {
    hide Follow, Emit, RefGood, EntryNo, Reads, Flow, A.Flushed, Perform, ReceiverSide, ReceiverStoreOk, FileOk, PdusOf;
    var v := s.sender;
    EndStep(cfg, v, si);
    FlushFlow(cfg, v.pending, si, DtfEnd);
    HoldsNothing(cfg, si + 1);
    EmitKeeps(cfg, s, v.(phase := Ended, pending := []),
              Puts(Datas(A.Flushed(cfg.packing, v.pending))) + [PutAndSend(DtfEnd)], si, si + 1, ri);
  }

  // ---- a sender that stops ----

  /** The flow may lose its end when the sender stops. */
  lemma ReadsCut(cfg: Config, v: Sender, w: Sender, si: nat, at: Place, flow: seq<Pdu>, cut: seq<Pdu>)
    requires Reads(cfg, v, si, at, flow + cut) && w.phase == SendFailed
    ensures Reads(cfg, w, si, at, flow)
  {
    FollowPrefix(cfg, at, flow, cut);
  }

  /** The receiver's side when the sender stops, its flow cut short of what was going to follow. */
  lemma StopsFlow(cfg: Config, s: System, t: System, si: nat, ri: nat, cut: seq<Pdu>)
    requires ReceiverSide(cfg, s, si, ri)
    requires s.sender.phase != SendIdle && t.sender.phase == SendFailed && t.start == s.start
    requires t.receiver == s.receiver && t.back == s.back
    requires Flow(s.fwd, s.sender.entity) == Flow(t.fwd, t.sender.entity) + cut
    ensures ReceiverSide(cfg, t, si, ri)
  {
    hide Follow, Flow, FollowOne;
    var flow := Flow(t.fwd, t.sender.entity);
    match s.receiver.phase {
      case ReceiveIdle =>
        if s.start.Some? {
          ReadsCut(cfg, s.sender, t.sender, si, (ri, None), flow, cut);
        }
      case Receiving =>
        ReadsCut(cfg, s.sender, t.sender, si, (ri, s.receiver.partial), flow, cut);
      case AwaitAck =>
        AfterAckAppend(flow, cut);
        if AfterAck(flow).Some? {
          ReadsCut(cfg, s.sender, t.sender, si, (ri, None), AfterAck(flow).value.1, cut);
        }
      case _ =>
    }
  }

  lemma KeepsSenderFails(cfg: Config, s: System, si: nat, ri: nat)
    requires cfg.Valid() && Inv(cfg, s, si, ri) && s.sender.phase != SendIdle
    ensures Inv(cfg, SenderStops(s), si, ri)
  {
    hide Follow, Reach, RefGood, FileAt;
    assert Pdus(s.fwd) + [] == Pdus(s.fwd);
    StopsFlow(cfg, s, SenderStops(s), si, ri, s.sender.entity);
  }

  /** A sender that stops right after sending a SYN, its point unrecorded. */
  lemma KeepsFailAtSync(cfg: Config, s: System, si: nat, ri: nat)
    requires cfg.Valid() && Inv(cfg, s, si, ri) && CanSend(cfg, s) && s.sender.next < |cfg.arts|
    requires PointDue(cfg, s.sender)
    ensures Inv(cfg, DoFailAtSync(cfg, s), si, ri)
  {
    hide PointDue, Perform, PointOps, ReceiverSide, SenderAt, Holds, SenderHas, SenderStoreOk, ReceiverStoreOk, FileOk;
    var v, ops := s.sender, PointOps(cfg, s.sender);
    forall p | p in DoFailAtSync(cfg, s).fwd && p.damaged ensures Resyncable(cfg) {
      PerformUndamaged(cfg, v.entity, s.fwd, ops, p);
    }
    FailAtSyncSide(cfg, s, si, ri);
  }

  /** A point gone out, its sender about to stop. */
  lemma PointGoesOut(cfg: Config, s: System, si: nat, ri: nat)
    requires cfg.Valid() && Inv(cfg, s, si, ri) && CanSend(cfg, s) && s.sender.next < |cfg.arts|
    requires PointDue(cfg, s.sender)
    ensures var mid := Emit(cfg, s, s.sender, PointOps(cfg, s.sender));
      ReceiverSide(cfg, mid.(sender := mid.sender.(pending := [])), si + 1, ri)
  {
    hide Inv, Follow, FollowOne, PointDue, EntryNo, Perform, PointOps, ReceiverSide, Holds, Flow, SenderAt, PdusOf, AckFree,
      Reach, WireOut;
    var v, ops := s.sender, PointOps(cfg, s.sender);
    SenderPlaced(cfg, s, si, ri);
    NextEntry(cfg, v, si);
    PointFlow(cfg, v, si);
    HeldIsBehind(cfg, si, v.pending);
    PerformFlow(cfg, v.entity, s.fwd, ops);
    var mid := Emit(cfg, s, v, ops);
    var moved := mid.(sender := mid.sender.(pending := []));
    assert Flow(moved.fwd, moved.sender.entity) == Flow(s.fwd, s.sender.entity) + PdusOf(ops);
    assert Active(moved.sender) && moved.receiver == s.receiver && moved.back == s.back && moved.start == s.start;
    assert moved.sender.pending == [];
    FlowGrows(cfg, s, moved, si, si + 1, ri, PdusOf(ops));
  }

  lemma FailAtSyncSide(cfg: Config, s: System, si: nat, ri: nat)
    requires cfg.Valid() && Inv(cfg, s, si, ri) && CanSend(cfg, s) && s.sender.next < |cfg.arts|
    requires PointDue(cfg, s.sender)
    ensures ReceiverSide(cfg, DoFailAtSync(cfg, s), si, ri)
  {
    hide PointDue, Perform, PointOps, ReceiverSide, Inv;
    PointGoesOut(cfg, s, si, ri);
    var mid := Emit(cfg, s, s.sender, PointOps(cfg, s.sender));
    var moved := mid.(sender := mid.sender.(pending := []));
    assert Pdus(mid.fwd) + [] == Pdus(mid.fwd);
    StopsFlow(cfg, moved, SenderStops(mid), si + 1, ri, mid.sender.entity);
    FailedAnywhere(cfg, SenderStops(mid), si + 1, si, ri);
  }

  lemma FailedAnywhere(cfg: Config, t: System, si: nat, ti: nat, ri: nat)
    requires ReceiverSide(cfg, t, si, ri) && t.sender.phase == SendFailed
    ensures ReceiverSide(cfg, t, ti, ri)
  {
  }
}
