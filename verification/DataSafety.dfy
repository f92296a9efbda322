/** What every step of the data phase keeps: both parties on one log, what is in flight leading between them. */
module DataSafety {
  import opened Bytes
  import opened Params
  import opened Cutter
  import opened Compressors
  import opened Checkpoints
  import opened Canon
  import opened DataPhase
  import opened LogFollowing
  import opened FileIo
  import F = Fpdu
  import A = Articles

  // ---- the parties on the log ----

  predicate Active(v: Sender) { v.phase == Sending || v.phase == Ended }

  /** The sender's counters are those of place `i`. */
  predicate CountersAt(cfg: Config, v: Sender, i: nat)
    requires cfg.WellCut()
  {
    var c := Reach(cfg, i);
    && v.next == v.articles == c.k && v.offset == cfg.srcOff[c.k]
    && v.dataBytes == c.bytes && v.syncNo == c.n && v.since == c.since
    && (cfg.compression != NoCompression ==>
          v.comp.compression == cfg.compression && v.comp.afterSync == c.literal)
  }

  ghost predicate SenderAt(cfg: Config, v: Sender, i: nat)
    requires cfg.WellCut()
  {
    && CountersAt(cfg, v, i)
    && (v.phase == Ended <==> Reach(cfg, i).done)
    && RefGood(cfg, v.comp.reference, Reach(cfg, i).k, Reach(cfg, i).longest)
  }

  ghost predicate ReceiverAt(cfg: Config, r: Receiver, i: nat)
  {
    var c := Reach(cfg, i);
    && !c.done
    && r.file == FileAt(cfg, c.k)
    && r.dataBytes == c.bytes && r.articles == c.k && r.lastSync == c.n
    && RefGood(cfg, r.reference, c.k, c.longest)
  }

  // ---- stores and file ----

  ghost predicate IsSenderPoint(cfg: Config, cp: Checkpoint)
    requires cfg.WellCut()
  {
    exists i :: PointAt(cfg, cp.sync, i) && cp == SenderPoint(cfg, i)
  }

  ghost predicate IsReceiverPoint(cfg: Config, cp: Checkpoint)
  {
    exists i :: PointAt(cfg, cp.sync, i) && cp == ReceiverPoint(cfg, i)
  }

  ghost predicate SenderStoreOk(cfg: Config, st: Store)
    requires cfg.WellCut()
  {
    st.Valid() && forall n :: n in st.points ==> IsSenderPoint(cfg, st.points[n])
  }

  ghost predicate ReceiverStoreOk(cfg: Config, st: Store)
  {
    st.Valid() && st.acknowledged == 0 && forall n :: n in st.points ==> IsReceiverPoint(cfg, st.points[n])
  }

  /** What is on disk is the beginning of what is written, which is the beginning of the whole file. */
  predicate FileOk(cfg: Config, r: Receiver)
  {
    r.durable <= r.file <= FileAt(cfg, |cfg.arts|)
  }

  // ---- the system ----

  /** The last point the receiver has, or is going to start from. */
  function Low(s: System): nat
  {
    if s.receiver.phase == ReceiveIdle then (if s.start.Some? then s.start.value else 0) else s.receiver.lastSync
  }

  /** Points from the start or the last acknowledged one on are still in the sender's store. */
  predicate SenderHas(v: Sender, start: nat)
  {
    forall m :: 1 <= m && start <= m && v.store.acknowledged <= m <= v.syncNo ==> m in v.store.points
  }

  /** Acknowledgements of points the receiver has, then possibly one request for the last of them. */
  predicate BackShape(back: seq<Pdu>, low: nat)
  {
    forall j :: 0 <= j < |back| ==>
      (back[j].AckSyn? && back[j].n <= low) || (back[j].Resyn? && back[j].n == low && j == |back| - 1)
  }

  predicate Requested(back: seq<Pdu>) { back != [] && back[|back| - 1].Resyn? }

  predicate Floors(s: System)
  {
    s.start.Some? ==>
      && s.start.value <= Low(s)
      && BackShape(s.back, Low(s))
      && (s.receiver.phase == ReceiveIdle ==> s.back == [])
      && (Active(s.sender) ==> s.sender.store.acknowledged <= Low(s) <= s.sender.syncNo)
  }

  ghost predicate SenderSide(cfg: Config, s: System, si: nat)
    requires cfg.WellCut()
  {
    match s.sender.phase
    case SendIdle =>
      && s.sender.entity == [] && s.sender.pending == [] && s.fwd == [] && s.back == []
      && (s.start.Some? ==> PointAt(cfg, s.start.value, si) && Low(s) == s.start.value)
    case SendFailed => s.start.Some? && s.sender.entity == [] && s.sender.pending == []
    case _ =>
      && s.start.Some? && SenderAt(cfg, s.sender, si) && Holds(cfg, si, s.sender.pending)
      && SenderHas(s.sender, s.start.value)
  }

  /** The flow, read from a place, is what the log says, up to what the sender's packer holds back. */
  predicate Reads(cfg: Config, v: Sender, si: nat, at: Place, flow: seq<Pdu>)
  {
    var end := Follow(cfg, at, flow);
    && end.Some?
    && (v.phase != SendFailed ==> |v.pending| <= si && end == Some((si - |v.pending|, None)))
  }

  /** What follows the first ACK(RESYN) of a flow, and its number. */
  function AfterAck(flow: seq<Pdu>): Option<(nat, seq<Pdu>)>
  {
    if flow == [] then None
    else if flow[0].AckResyn? then Some((flow[0].n, flow[1..]))
    else AfterAck(flow[1..])
  }

  predicate HasPoint(r: Receiver) { r.lastSync == 0 || r.lastSync in r.store.points }

  ghost predicate Awaiting(cfg: Config, s: System, si: nat, ri: nat)
  {
    var r, after := s.receiver, AfterAck(Flow(s.fwd, s.sender.entity));
    && s.sender.phase != SendIdle && cfg.Tolerant()
    && PointAt(cfg, r.lastSync, ri) && ReceiverPoint(cfg, ri).fileOffset <= |r.file|
    && HasPoint(r)
    && RefGood(cfg, r.reference, Reach(cfg, ri).k, 0)
    && if Requested(s.back) then after.None?
       else if after.None? then s.sender.phase == SendFailed
       else after.value.0 == r.lastSync && Reads(cfg, s.sender, si, (ri, None), after.value.1)
  }

  ghost predicate ReceiverSide(cfg: Config, s: System, si: nat, ri: nat)
  {
    var r, flow := s.receiver, Flow(s.fwd, s.sender.entity);
    match r.phase
    case ReceiveIdle =>
      s.start.Some? ==> PointAt(cfg, s.start.value, ri) && Reads(cfg, s.sender, si, (ri, None), flow)
    case Receiving =>
      && s.start.Some? && ReceiverAt(cfg, r, ri) && HasPoint(r)
      && Reads(cfg, s.sender, si, (ri, r.partial), flow) && !Requested(s.back)
    case AwaitAck => s.start.Some? && Awaiting(cfg, s, si, ri)
    case Completed =>
      && s.start.Some? && s.sender.phase != SendIdle
      && r.file == FileAt(cfg, |cfg.arts|)
      && Reach(cfg, ri).done && Reach(cfg, ri).k == |cfg.arts|
      && r.dataBytes == Reach(cfg, ri).bytes && r.articles == |cfg.arts| && r.lastSync == Reach(cfg, ri).n
      && (Active(s.sender) ==> ri <= si)
    case ReceiveFailed => s.start.Some?
  }

  /** Damage does no harm: it ends the attempt, or references are fit for a rewind. */
  ghost predicate Resyncable(cfg: Config) { cfg.resync ==> cfg.Tolerant() }

  ghost predicate Inv(cfg: Config, s: System, si: nat, ri: nat)
    requires cfg.WellCut()
  {
    && SenderStoreOk(cfg, s.sender.store) && ReceiverStoreOk(cfg, s.receiver.store)
    && FileOk(cfg, s.receiver)
    && (s.start.None? ==> s.sender.phase == SendIdle && s.receiver.phase == ReceiveIdle && s.back == [])
    && (forall p :: p in s.fwd && p.damaged ==> Resyncable(cfg))
    && (Requested(s.back) ==> cfg.Tolerant())
    && Floors(s)
    && SenderSide(cfg, s, si)
    && ReceiverSide(cfg, s, si, ri)
  }

  // ---- runs ----

  /** What the environment and the two applications are held to: damage only where check bytes show it and
      resynchronisation, if there is any, finds the references fit for it; restarts from a point only where the log
      does not depend on where an attempt began, and only if the partial file still reaches the point. */
  ghost predicate Allowed(cfg: Config, s: System, a: Action)
  {
    match a
    case Damage(i) => cfg.crc && (cfg.resync ==> cfg.Tolerant())
    case BeginSender(p) => p == 0 || cfg.Tolerant()
    case BeginReceiver(p) =>
      && (p == 0 || cfg.Tolerant())
      && (s.receiver.store.Get(p).Some? ==> s.receiver.store.Get(p).value.fileOffset <= |s.receiver.file|)
    case _ => true
  }

  ghost predicate AllAllowed(cfg: Config, actions: seq<Action>)
    requires cfg.packing.Valid() && cfg.WellCut()
  {
    actions == [] ||
    (AllAllowed(cfg, actions[..|actions| - 1])
     && Allowed(cfg, DataPhase.Run(cfg, actions[..|actions| - 1]), actions[|actions| - 1]))
  }

  // ---- reading the flow ----

  lemma FollowPrefix(cfg: Config, at: Place, xs: seq<Pdu>, ys: seq<Pdu>)
    requires Follow(cfg, at, xs + ys).Some?
    ensures Follow(cfg, at, xs).Some?
  {
    FollowAppend(cfg, at, xs, ys);
  }

  lemma {:induction false} AfterAckAppend(xs: seq<Pdu>, ys: seq<Pdu>)
    ensures AfterAck(xs + ys)
         == if AfterAck(xs).Some? then Some((AfterAck(xs).value.0, AfterAck(xs).value.1 + ys)) else AfterAck(ys)
  {
    if xs == [] {
      assert xs + ys == ys;
    } else {
      assert (xs + ys)[0] == xs[0] && (xs + ys)[1..] == xs[1..] + ys;
      AfterAckAppend(xs[1..], ys);
    }
  }

  predicate AckFree(ps: seq<Pdu>)
  {
    forall p :: p in ps ==> !p.AckResyn?
  }

  lemma {:induction false} AckFreeNone(ps: seq<Pdu>)
    requires AckFree(ps)
    ensures AfterAck(ps) == None
  {
    if ps != [] {
      assert ps[0] in ps;
      assert forall p :: p in ps[1..] ==> p in ps;
      AckFreeNone(ps[1..]);
    }
  }

  lemma {:induction false} DatasAckFree(fs: seq<F.Fpdu>)
    ensures AckFree(Datas(fs))
  {
    if fs != [] {
      DatasAckFree(fs[1..]);
    }
  }

  // ---- the sender's steps on the log ----

  /** What the compressor gives is what the log expects, and the decision on a point is the log's. */
  lemma NextEntry(cfg: Config, v: Sender, i: nat)
    requires cfg.Valid() && SenderAt(cfg, v, i) && v.phase == Sending && v.next < |cfg.arts|
    ensures WireOut(cfg, v.comp, cfg.arts[v.next]) == WireAt(cfg, v.next, Reach(cfg, i).literal)
    ensures EntryNo(cfg, i)
         == if PointDue(cfg, v) then Mark(v.syncNo + 1) else Wire(WireOut(cfg, v.comp, cfg.arts[v.next]))
  {
    var c := Reach(cfg, i);
    if cfg.compression != NoCompression {
      SenderWire(cfg, v.comp.reference, i);
      assert v.comp == SenderState(cfg.compression, v.comp.reference, c.literal);
    }
  }

  /** Sending an article that is next in the log. */
  lemma ArticleStep(cfg: Config, v: Sender, i: nat)
    requires cfg.WellCut() && cfg.packing.Valid()
    requires CountersAt(cfg, v, i) && v.phase == Sending && v.next < |cfg.arts|
    requires EntryNo(cfg, i) == Wire(WireOut(cfg, v.comp, cfg.arts[v.next]))
    requires RefGood(cfg, Overwrite(v.comp.reference, cfg.arts[v.next]), v.next + 1, Reach(cfg, i + 1).longest)
    ensures SenderAt(cfg, WithArticle(cfg, v), i + 1)
  {
    hide RefGood, WireAt;
    assert Reach(cfg, i + 1) == Advance(cfg, Reach(cfg, i));
    if cfg.compression == NoCompression {
      RefIrrelevant(cfg, v.comp.reference, v.next + 1, Reach(cfg, i + 1).longest);
    }
  }

  /** The compressor at a point: it has coded the article once already, and codes it literally now. */
  lemma PointCoding(cfg: Config, v: Sender, i: nat)
    requires cfg.Valid() && SenderAt(cfg, v, i) && v.phase == Sending && v.next < |cfg.arts|
    ensures var comp, a := CompAtSync(cfg, CompSent(cfg, v.comp, cfg.arts[v.next])), cfg.arts[v.next];
      WireOut(cfg, comp, a) == WireAt(cfg, v.next, true) && RefGood(cfg, Overwrite(comp.reference, a), v.next + 1, |a|)
  {
    hide RefGood, RefAt, Reach;
    var c, a, r := Reach(cfg, i), cfg.arts[v.next], v.comp.reference;
    if cfg.compression == NoCompression {
      RefIrrelevant(cfg, Overwrite(r, a), v.next + 1, |a|);
    } else {
      RefNext(cfg, r, c.k, c.longest);
      RefLess(cfg, Overwrite(r, a), c.k + 1, Max(c.longest, |a|), |a|);
      WireAtPoint(cfg, r, c.k, c.longest);
    }
  }

  /** Placing a point that is next in the log; the article then goes out literally. */
  lemma PointStep(cfg: Config, v: Sender, i: nat)
    requires cfg.Valid() && SenderAt(cfg, v, i) && v.phase == Sending && v.next < |cfg.arts| && PointDue(cfg, v)
    ensures var at := AtPoint(cfg, v);
      && CountersAt(cfg, at, i + 1) && PointAt(cfg, at.syncNo, i + 1) && !Reach(cfg, i + 1).done
      && EntryNo(cfg, i + 1) == Wire(WireOut(cfg, at.comp, cfg.arts[v.next]))
      && RefGood(cfg, Overwrite(at.comp.reference, cfg.arts[v.next]), v.next + 1, Reach(cfg, i + 2).longest)
      && at.store == v.store.Record(SenderPoint(cfg, i + 1))
  {
    hide RefGood, WireAt, WireOut, PointDue;
    var c, a := Reach(cfg, i), cfg.arts[v.next];
    NextEntry(cfg, v, i);
    assert Reach(cfg, i + 1) == Advance(cfg, c) == Progress(c.k, c.n + 1, 0, 0, c.bytes, true, false);
    assert Reach(cfg, i + 2).longest == |a|;
    PointCoding(cfg, v, i);
  }

  lemma EndStep(cfg: Config, v: Sender, i: nat)
    requires cfg.Valid() && SenderAt(cfg, v, i) && v.phase == Sending && v.next == |cfg.arts|
    ensures EntryNo(cfg, i) == Finish && !Reach(cfg, i).done
    ensures SenderAt(cfg, v.(phase := Ended, pending := []), i + 1)
  {
    assert Reach(cfg, i + 1) == Advance(cfg, Reach(cfg, i));
  }

  // ---- the receiver's steps on the log ----

  /** Only the file, the counters and the reference moved on. */
  predicate Wrote(r: Receiver, t: Receiver)
  {
    && r.file <= t.file
    && t == r.(file := t.file, dataBytes := t.dataBytes, articles := t.articles, reference := t.reference)
  }

  /** The next wire form of the log is taken as its article. */
  lemma TakenAs(cfg: Config, r: Receiver, i: nat, w: seq<byte>)
    requires cfg.Valid() && ReceiverAt(cfg, r, i) && EntryNo(cfg, i) == Wire(w)
    ensures Reach(cfg, i).k < |cfg.arts|
    ensures var a := cfg.arts[Reach(cfg, i).k];
      TakeOne(cfg, r, w)
        == Some(r.(file := r.file + ArticleToBytes(cfg.format, a), dataBytes := r.dataBytes + |w|,
                   articles := r.articles + 1,
                   reference := if cfg.compression == NoCompression then r.reference else Overwrite(r.reference, a)))
  {
    hide RefGood, FileAt, ArticleToBytes, ReceiverState.Decoded, Overwrite, Reach;
    var c := Reach(cfg, i);
    assert w == WireAt(cfg, c.k, c.literal);
    if cfg.compression != NoCompression {
      ReceiverArticle(cfg, r.reference, i);
    }
  }

  lemma TakeOneStep(cfg: Config, r: Receiver, i: nat, w: seq<byte>)
    requires cfg.Valid() && ReceiverAt(cfg, r, i) && EntryNo(cfg, i) == Wire(w)
    ensures var t := TakeOne(cfg, r, w);
      && t.Some? && ReceiverAt(cfg, t.value, i + 1)
      && Wrote(r, t.value)
  {
    hide RefGood, RefAt, FileAt, ArticleToBytes, TakeOne, Overwrite, WireAt;
    var c := Reach(cfg, i);
    TakenAs(cfg, r, i, w);
    if cfg.compression == NoCompression {
      RefIrrelevant(cfg, r.reference, c.k + 1, Reach(cfg, i + 1).longest);
    }
    RefNext(cfg, r.reference, c.k, c.longest);
    FileNext(cfg, c.k);
    assert Reach(cfg, i + 1) == Advance(cfg, c);
  }

  /** Wires that are next in the log are decompressed and written as their articles. */
  lemma {:induction false} TakeStep(cfg: Config, r: Receiver, i: nat, wires: seq<seq<byte>>)
    requires cfg.Valid() && ReceiverAt(cfg, r, i) && WiresFrom(cfg, i, wires)
    ensures var (t, all) := Take(cfg, r, wires);
      all && ReceiverAt(cfg, t, i + |wires|) && Wrote(r, t)
    decreases |wires|
  {
    hide TakeOne, ReceiverAt, EntryNo;
    if wires != [] {
      assert EntryNo(cfg, i + 0) == Wire(wires[0]);
      TakeOneStep(cfg, r, i, wires[0]);
      WiresSplit(cfg, i, wires[..1], wires[1..]);
      assert wires[..1] + wires[1..] == wires;
      TakeStep(cfg, TakeOne(cfg, r, wires[0]).value, i + 1, wires[1..]);
    }
  }

  lemma WholeFile(cfg: Config, k: nat)
    requires k <= |cfg.arts|
    ensures FileAt(cfg, k) <= FileAt(cfg, |cfg.arts|)
  {
    FilePrefix(cfg, k, |cfg.arts|);
  }

  /** A prefix of the whole file cut where article `k` ends is the file after `k` articles. */
  lemma CutBack(cfg: Config, file: seq<byte>, k: nat)
    requires k <= |cfg.arts| && file <= FileAt(cfg, |cfg.arts|) && |FileAt(cfg, k)| <= |file|
    ensures Resized(file, |FileAt(cfg, k)|) == FileAt(cfg, k)
  {
    WholeFile(cfg, k);
  }
}
