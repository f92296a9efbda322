/** The sending and the receiving loop, updating their state in place, against the steps of the data phase. */
module DataLoops {
  import opened Bytes
  import opened Params
  import opened Cutter
  import opened Compressors
  import opened Checkpoints
  import opened Canon
  import opened DataPhase
  import LogFollowing
  import opened FileIo
  import F = Fpdu
  import A = Articles

  // ---- sending ----

  class SendLoop {
    const cfg: Config
    const packer: A.ArticlePacker
    const compressor: Compressor
    const checkpoints: MemoryCheckpoints
    var phase: SendPhase
    var next: nat
    var offset: nat
    var dataBytes: nat
    var articles: nat
    var syncNo: nat
    var since: nat
    var unacked: seq<nat>
    var entity: seq<Pdu>
    /** What went out on the link. */
    var link: seq<Packet>

    ghost predicate Valid()
      reads this, packer
    {
      packer.Valid() && packer.Settings() == cfg.packing && cfg.packing.Valid() && cfg.WellCut()
    }

    ghost function View(): Sender
      reads this, packer, compressor, compressor.reference, checkpoints
    {
      Sender(phase, next, offset, dataBytes, articles, syncNo, since, compressor.View(), unacked, packer.held, entity,
             checkpoints.View())
    }

    /** The loop's state as it starts from a point of the store. */
    constructor (cfg: Config, checkpoints: MemoryCheckpoints, start: Checkpoint)
      requires cfg.WellCut() && cfg.packing.Valid()
      ensures Valid() && fresh(packer) && fresh(compressor) && fresh(compressor.reference)
      ensures this.cfg == cfg && this.checkpoints == checkpoints && link == []
      ensures View() == Sender(Sending, Rewound(cfg, start.fileOffset, 0), start.fileOffset, start.dataBytes,
                               start.articles, start.sync, 0, NewSender(cfg.compression, cfg.maxArticle), [], [], [],
                               checkpoints.View())
    {
      this.cfg := cfg;
      this.checkpoints := checkpoints;
      packer := new A.ArticlePacker(cfg.packing.idDst, cfg.packing.maxDtf, cfg.packing.multi);
      compressor := new Compressor(cfg.compression, cfg.maxArticle);
      phase := Sending;
      next, offset := Rewound(cfg, start.fileOffset, 0), start.fileOffset;
      dataBytes, articles, syncNo, since := start.dataBytes, start.articles, start.sync, 0;
      unacked, entity, link := [], [], [];
    }

    /** The octets an FPDU may take in the entity being built. */
    method Remaining() returns (n: int)
      ensures n == Room(cfg, entity)
    {
      if cfg.crc && entity != [] {
        return 0;
      }
      var size: nat := 0;
      for i := 0 to |entity|
        invariant size == Size(cfg, entity[..i])
      {
        assert entity[..i + 1][..i] == entity[..i];
        size := size + PduLen(entity[i]) + (if cfg.crc then 2 else 0);
      }
      assert entity[..|entity|] == entity;
      n := cfg.packing.maxDtf - size;
    }

    method SendEntity()
      modifies this`entity, this`link
      ensures entity == [] && link == old(link) + Sound(old(entity))
    {
      link := link + Sound(entity);
      entity := [];
    }

    /** A unit appended, the entity sent first when it does not fit. */
    method Append(p: Pdu)
      modifies this`entity, this`link
      ensures (entity, link) == Perform(cfg, old(entity), old(link), [Put(p)])
    {
      assert [Put(p)][1..] == [];
      var room := Remaining();
      if PduLen(p) > room {
        SendEntity();
      }
      entity := entity + [p];
      assert [] + [p] == [p];
    }

    /** A unit appended and sent at once. */
    method AppendAndSend(p: Pdu)
      modifies this`entity, this`link
      ensures (entity, link) == Perform(cfg, old(entity), old(link), [PutAndSend(p)])
    {
      assert [PutAndSend(p)][1..] == [];
      var room := Remaining();
      if PduLen(p) > room {
        SendEntity();
      }
      entity := entity + [p];
      assert [] + [p] == [p];
      SendEntity();
    }

    /** The loop over the FPDUs a packer gives. */
    method AppendAll(fs: seq<F.Fpdu>)
      modifies this`entity, this`link
      ensures (entity, link) == Perform(cfg, old(entity), old(link), Puts(Datas(fs)))
    {
      assert fs[0..] == fs;
      for i := 0 to |fs|
        invariant Perform(cfg, entity, link, Puts(Datas(fs[i..]))) == Perform(cfg, old(entity), old(link), Puts(Datas(fs)))
      {
        DatasStep(fs, i);
        LogFollowing.PerformSplit(cfg, entity, link, Puts(Datas(fs[i..])));
        Append(Data(fs[i]));
      }
      assert fs[|fs|..] == [];
    }

    method SendIfFullNow()
      modifies this`entity, this`link
      ensures (entity, link) == Perform(cfg, old(entity), old(link), [SendIfFull])
    {
      assert [SendIfFull][1..] == [];
      var room := Remaining();
      if room < F.HEADER_LEN + 1 {
        SendEntity();
      }
    }

    /** The synchronisation point placed before an article. */
    method PlacePoint()
      requires Valid() && next < |cfg.arts|
      modifies this`entity, this`link, this`syncNo, this`unacked, this`since, packer, checkpoints
      ensures Valid()
      ensures (entity, link) == Perform(cfg, old(entity), old(link), PointOps(cfg, old(View())))
      ensures View() == AtPoint(cfg, old(View())).(comp := old(View()).comp, entity := entity)
    {
      hide A.Flushed, A.Pendable, CompSent, CompAtSync, Store.Record;
      FlushPacker();
      ghost var flushed := Puts(Datas(A.Flushed(cfg.packing, old(packer.held))));
      syncNo := syncNo + 1;
      PerformAppend(cfg, old(entity), old(link), flushed, [PutAndSend(Syn(syncNo))]);
      AppendAndSend(Syn(syncNo));
      checkpoints.Record(Checkpoint(syncNo, offset, dataBytes, articles));
      if cfg.sync.window > 0 {
        unacked := unacked + [syncNo];
      }
      since := 0;
    }

    /** The wire form of an article. */
    method Compressed(article: seq<byte>) returns (wire: seq<byte>)
      modifies compressor, compressor.reference
      ensures wire == WireOut(cfg, old(compressor.View()), article)
      ensures compressor.View() == CompSent(cfg, old(compressor.View()), article)
    {
      if cfg.compression == NoCompression {
        return article;
      }
      wire := compressor.CompressArticle(article);
    }

    method MarkSync()
      modifies compressor
      ensures compressor.View() == CompAtSync(cfg, old(compressor.View()))
    {
      if cfg.compression != NoCompression {
        compressor.SyncPoint();
      }
    }

    /** The article itself, packed and counted. */
    method PackArticle(wire: seq<byte>)
      requires Valid() && next < |cfg.arts|
      modifies this`entity, this`link, this`next, this`offset, this`dataBytes, this`articles, this`since, packer
      ensures Valid()
      ensures var (held, out) := A.Pushed(cfg.packing, old(packer.held), wire);
        packer.held == held
        && (entity, link) == Perform(cfg, old(entity), old(link), Puts(Datas(out)) + [SendIfFull])
      ensures next == old(next) + 1 && offset == cfg.srcOff[next]
      ensures dataBytes == old(dataBytes) + |wire| && articles == old(articles) + 1 && since == old(since) + |wire|
    {
      var out := packer.Push(wire);
      AppendAll(out);
      PerformAppend(cfg, old(entity), old(link), Puts(Datas(out)), [SendIfFull]);
      SendIfFullNow();
      dataBytes := dataBytes + |wire|;
      articles := articles + 1;
      since := since + |wire|;
      next := next + 1;
      offset := cfg.srcOff[next];
    }

    /** The wire form of the next article, after the point that may be due before it. */
    method NextWire(ghost v: Sender) returns (wire: seq<byte>, ghost ops: seq<ShipOp>, ghost w: Sender)
      requires Valid() && next < |cfg.arts| && v == View()
      modifies this`entity, this`link, this`syncNo, this`unacked, this`since, packer, compressor, compressor.reference,
        checkpoints
      ensures Valid()
      ensures w == if PointDue(cfg, v) then AtPoint(cfg, v) else v
      ensures ops == if PointDue(cfg, v) then PointOps(cfg, v) else []
      ensures (entity, link) == Perform(cfg, v.entity, old(link), ops)
      ensures wire == WireOut(cfg, w.comp, cfg.arts[next])
      ensures View() == w.(comp := CompSent(cfg, w.comp, cfg.arts[next]), entity := entity)
    {
      hide Perform, A.Flushed, WireOut, CompSent, CompAtSync, PointOps;
      var article := cfg.arts[next];
      wire := Compressed(article);
      var interval := cfg.Interval();
      w, ops := v, [];
      assert (entity, link) == Perform(cfg, v.entity, old(link), []) by {
        LogFollowing.PerformNothing(cfg, v.entity, old(link));
      }
      if interval.Some? && since > 0 && since + |wire| > interval.value {
        w, ops := AtPoint(cfg, v), PointOps(cfg, v);
        ghost var u := View();
        SameOps(cfg, v, u);
        PlacePoint();
        MarkSync();
        wire := Compressed(article);
      }
    }

    /** One turn of the loop with an article to send: exactly the step of the data phase. */
    method SendArticle(ghost s: System)
      requires Valid() && next < |cfg.arts| && phase == Sending && WindowOpen(cfg, View())
      requires s.sender == View() && s.fwd == link
      modifies this, packer, compressor, compressor.reference, checkpoints
      ensures Valid()
      ensures View() == DoSendArticle(cfg, s).sender && link == DoSendArticle(cfg, s).fwd
    {
      hide Perform, A.Pushed, A.Flushed, PointOps, WireOut, CompSent, PointDue, AtPoint;
      ghost var v := s.sender;
      var wire, ops, w := NextWire(v);
      PackArticle(wire);
      assert (entity, link) == Perform(cfg, v.entity, s.fwd, ops + ArticleOps(cfg, w)) by {
        PerformAppend(cfg, v.entity, s.fwd, ops, ArticleOps(cfg, w));
      }
      assert [] + ArticleOps(cfg, w) == ArticleOps(cfg, w);
    }

    method SendEnd(ghost s: System)
      requires Valid() && next == |cfg.arts| && phase == Sending && WindowOpen(cfg, View())
      requires s.sender == View() && s.fwd == link
      modifies this, packer
      ensures Valid()
      ensures View() == DoSendEnd(cfg, s).sender && link == DoSendEnd(cfg, s).fwd
    {
      hide Perform, A.Flushed;
      FlushPacker();
      PerformAppend(cfg, s.sender.entity, s.fwd, Puts(Datas(A.Flushed(cfg.packing, s.sender.pending))), [PutAndSend(DtfEnd)]);
      AppendAndSend(DtfEnd);
      phase := Ended;
    }

    /** An acknowledgement or a request that arrived while sending: exactly the step of the data phase. */
    method HandleAsync(p: Pdu, ghost s: System)
      requires Valid() && phase == Sending && (p.AckSyn? || p.Resyn?)
      requires s.sender == View() && s.fwd == link && s.back != [] && s.back[0] == p
      modifies this, packer, compressor, checkpoints
      ensures Valid()
      ensures View() == DoTakeBack(cfg, s).sender && link == DoTakeBack(cfg, s).fwd
    {
      hide Rewound, Popped, Store.Acknowledge, ResumedAt, CompAtSync;
      if p.AckSyn? {
        PopAcknowledged(p.n);
        checkpoints.Acknowledge(p.n);
      } else if !cfg.resync {
        var _ := packer.Flush();
        phase, entity := SendFailed, [];
      } else {
        Resume(p.n);
      }
    }

    /** RESYN: answered with the point found; the loop resumes from it. */
    method Resume(requested: nat)
      requires Valid()
      modifies this, packer, compressor
      ensures Valid()
      ensures var found := old(checkpoints.View()).Get(requested);
        var cp := if found.Some? then found.value else ORIGIN;
        && View() == ResumedAt(cfg, old(View()).(comp := CompAtSync(cfg, old(View()).comp)), cp)
        && link == old(link) + [Packet(AckResyn(cp.sync), false)]
    {
      hide ResumedAt, CompAtSync;
      var found := checkpoints.Get(requested);
      var cp := if found.Some? then found.value else ORIGIN;
      link := link + [Packet(AckResyn(cp.sync), false)];
      MarkSync();
      RewindTo(cp);
    }

    /** Everything goes back to the point; what was packed or held is dropped. */
    method RewindTo(cp: Checkpoint)
      requires Valid()
      modifies this`next, this`offset, this`entity, this`dataBytes, this`articles, this`syncNo, this`since, this`unacked,
        packer
      ensures Valid() && View() == ResumedAt(cfg, old(View()), cp)
    {
      hide Rewound, A.Flushed, A.Pendable;
      next, offset := Rewound(cfg, cp.fileOffset, 0), cp.fileOffset;
      var _ := packer.Flush();
      entity := [];
      dataBytes, articles, syncNo := cp.dataBytes, cp.articles, cp.sync;
      since, unacked := 0, [];
    }

    /** One turn of the sending loop: every answer that has arrived, then, unless the window is full, the next
        article or the end. */
    method Turn(answers: seq<Pdu>, ghost s: System)
      requires Valid() && phase == Sending && next <= |cfg.arts|
      requires s.sender == View() && s.fwd == link && s.back == answers
      requires forall p :: p in answers ==> p.AckSyn? || p.Resyn?
      modifies this, packer, compressor, compressor.reference, checkpoints
      ensures Valid()
      ensures View() == TurnOf(cfg, s).sender && link == TurnOf(cfg, s).fwd
    {
      hide DoTakeBack, DoSendArticle, DoSendEnd;
      ghost var t := s;
      for i := 0 to |answers|
        invariant Valid() && t.sender == View() && t.fwd == link && t.back == answers[i..]
        invariant TakenAll(cfg, t) == TakenAll(cfg, s)
        invariant phase == Sending && next <= |cfg.arts|
      {
        assert t.back[0] == answers[i] && answers[i] in answers;
        TakesOne(cfg, t);
        HandleAsync(answers[i], t);
        t := DoTakeBack(cfg, t);
        if phase != Sending {
          StopsTaking(cfg, t);
          return;
        }
      }
      assert t.back == [];
      if cfg.sync.window > 0 && |unacked| >= cfg.sync.window {
        return;
      }
      if next < |cfg.arts| {
        SendArticle(t);
      } else {
        SendEnd(t);
      }
    }

    /** The loop that drops acknowledged points from the front of the queue. */
    method PopAcknowledged(n: nat)
      modifies this`unacked
      ensures unacked == Popped(old(unacked), n)
    {
      while unacked != [] && unacked[0] <= n
        invariant Popped(unacked, n) == Popped(old(unacked), n)
        decreases |unacked|
      {
        unacked := unacked[1..];
      }
    }

    method FlushPacker()
      requires Valid()
      modifies this`entity, this`link, packer
      ensures Valid() && packer.held == []
      ensures (entity, link)
           == Perform(cfg, old(entity), old(link), Puts(Datas(A.Flushed(cfg.packing, old(packer.held)))))
    {
      var f := packer.Flush();
      AppendAll(if f.Some? then [f.value] else []);
    }
  }

  /** Every answer that has arrived taken, as long as the sender goes on. */
  function TakenAll(cfg: Config, s: System): System
    requires cfg.WellCut()
    decreases |s.back|
  {
    if s.back == [] || s.sender.phase != Sending then s else TakenAll(cfg, DoTakeBack(cfg, s))
  }

  function TurnOf(cfg: Config, s: System): System
    requires cfg.WellCut() && cfg.packing.Valid()
  {
    var t := TakenAll(cfg, s);
    if t.sender.phase != Sending || !WindowOpen(cfg, t.sender) then t
    else if t.sender.next < |cfg.arts| then DoSendArticle(cfg, t)
    else DoSendEnd(cfg, t)
  }

  lemma TakesOne(cfg: Config, s: System)
    requires cfg.WellCut() && s.back != [] && s.sender.phase == Sending && s.sender.next <= |cfg.arts|
    ensures TakenAll(cfg, DoTakeBack(cfg, s)) == TakenAll(cfg, s)
    ensures DoTakeBack(cfg, s).back == s.back[1..]
    ensures DoTakeBack(cfg, s).sender.next <= |cfg.arts|
  {
    hide Popped;
  }

  lemma StopsTaking(cfg: Config, s: System)
    requires cfg.WellCut() && s.sender.phase != Sending
    ensures TakenAll(cfg, s) == s
  {
  }

  // ---- receiving ----

  class ReceiveLoop {
    const cfg: Config
    const sink: FileSink
    const checkpoints: MemoryCheckpoints
    const decompressor: Decompressor
    var reassembler: A.Reassembler
    var phase: ReceivePhase
    var dataBytes: nat
    var articles: nat
    var lastSync: nat
    /** What was answered on the link. */
    var link: seq<Pdu>

    ghost predicate Valid()
      reads this, sink, reassembler
    {
      && sink.Valid() && sink.format == cfg.format
      && reassembler.maxLen == cfg.maxArticle && decompressor.maxArticle == cfg.RefSize()
    }

    ghost function View(): Receiver
      reads this, sink, reassembler, decompressor, decompressor.reference, checkpoints
    {
      Receiver(phase, sink.Contents(), sink.disk, dataBytes, articles, lastSync, reassembler.partial,
               decompressor.reference.buf, checkpoints.View())
    }

    constructor (cfg: Config, sink: FileSink, checkpoints: MemoryCheckpoints, start: Checkpoint)
      requires sink.Valid() && sink.format == cfg.format
      ensures Valid() && fresh(reassembler) && fresh(decompressor) && fresh(decompressor.reference)
      ensures this.cfg == cfg && this.sink == sink && this.checkpoints == checkpoints && link == []
      ensures View() == Receiver(Receiving, sink.Contents(), sink.disk, start.dataBytes, start.articles, start.sync,
                                 None, NewReceiver(cfg.maxArticle).reference, checkpoints.View())
    {
      this.cfg := cfg;
      this.sink := sink;
      this.checkpoints := checkpoints;
      decompressor := new Decompressor(cfg.maxArticle);
      reassembler := new A.Reassembler(cfg.maxArticle);
      phase := Receiving;
      dataBytes, articles, lastSync, link := start.dataBytes, start.articles, start.sync, [];
    }

    /** One reassembled article decompressed and written; nothing changes when it does not decompress. */
    method WriteOne(wire: seq<byte>) returns (ok: bool)
      requires Valid()
      modifies this`dataBytes, this`articles, sink, decompressor.reference
      ensures Valid()
      ensures var t := TakeOne(cfg, old(View()), wire);
        ok == t.Some? && View() == if ok then t.value else old(View())
      ensures sink.disk == old(sink.disk)
    {
      var article := wire;
      if cfg.compression != NoCompression {
        var d := decompressor.DecompressArticle(wire);
        if d.Err? {
          return false;
        }
        article := d.value;
      }
      sink.WriteArticle(article);
      dataBytes := dataBytes + |wire|;
      articles := articles + 1;
      return true;
    }

    /** The loop over the articles an FPDU completes. */
    method WriteAll(wires: seq<seq<byte>>) returns (ok: bool)
      requires Valid()
      modifies this`dataBytes, this`articles, sink, decompressor.reference
      ensures Valid()
      ensures (View(), ok) == Take(cfg, old(View()), wires)
    {
      assert wires[0..] == wires;
      for i := 0 to |wires|
        invariant Valid() && Take(cfg, View(), wires[i..]) == Take(cfg, old(View()), wires)
      {
        assert wires[i..][0] == wires[i] && wires[i..][1..] == wires[i + 1..];
        var one := WriteOne(wires[i]);
        if !one {
          return false;
        }
      }
      assert wires[|wires|..] == [];
      return true;
    }

    /** An undamaged unit in the receiving loop: exactly the step of the data phase. */
    method HandleUnit(p: Pdu)
      requires Valid() && phase == Receiving
      modifies this, sink, decompressor.reference, reassembler, checkpoints
      ensures Valid()
      ensures var (r, answer) := Receive(cfg, old(View()), p); View() == r && link == old(link) + answer
    {
      assert link + [] == link;
      match p
      case Data(f) =>
        if !f.kind.IsData() {
          phase := ReceiveFailed;
          return;
        }
        var fed := reassembler.Feed(f);
        if fed.Err? {
          phase := ReceiveFailed;
          return;
        }
        var ok := WriteAll(fed.value);
        if !ok {
          phase := ReceiveFailed;
        }
      case Syn(n) =>
        var pos := sink.Checkpoint();
        checkpoints.Record(Checkpoint(n, pos.fileOffset, dataBytes, articles));
        lastSync := n;
        if cfg.sync.window != 0 || !cfg.sync.Enabled() {
          link := link + [AckSyn(n)];
        }
      case DtfEnd =>
        phase := Completed;
      case _ =>
        phase := ReceiveFailed;
    }

    /** ACK(RESYN): the file is cut back to the point and everything after it forgotten; an unknown point fails. */
    method HandleAckResyn(point: nat)
      requires Valid() && phase == AwaitAck
      modifies this, sink
      ensures Valid()
      ensures View() == Await(old(View()), AckResyn(point))
      ensures phase == Receiving ==> fresh(reassembler)
    {
      var cp := checkpoints.Get(point);
      if cp.None? {
        phase := ReceiveFailed;
        return;
      }
      sink.Truncate(Position(cp.value.fileOffset, cp.value.dataBytes, cp.value.articles));
      dataBytes, articles, lastSync := cp.value.dataBytes, cp.value.articles, cp.value.sync;
      reassembler := new A.Reassembler(cfg.maxArticle);
      phase := Receiving;
    }

    /** A damaged unit: the last point is asked for. */
    method HandleDamage()
      requires Valid() && phase == Receiving && cfg.resync
      modifies this`phase, this`link
      ensures Valid() && View() == old(View()).(phase := AwaitAck) && link == old(link) + [Resyn(lastSync)]
    {
      link := link + [Resyn(lastSync)];
      phase := AwaitAck;
    }
  }

  // ---- the entity's operations ----

  lemma SameOps(cfg: Config, v: Sender, u: Sender)
    requires u == v.(comp := u.comp)
    ensures PointOps(cfg, u) == PointOps(cfg, v)
  {
  }

  lemma DatasStep(fs: seq<F.Fpdu>, i: nat)
    requires i < |fs|
    ensures Puts(Datas(fs[i..])) == [Put(Data(fs[i]))] + Puts(Datas(fs[i + 1..]))
  {
    assert fs[i..][1..] == fs[i + 1..];
    assert Datas(fs[i..])[1..] == Datas(fs[i + 1..]);
  }

  lemma {:induction false} PerformAppend(cfg: Config, entity: seq<Pdu>, fwd: seq<Packet>,
                                      xs: seq<ShipOp>, ys: seq<ShipOp>)
    ensures var (entity1, fwd1) := Perform(cfg, entity, fwd, xs);
      Perform(cfg, entity, fwd, xs + ys) == Perform(cfg, entity1, fwd1, ys)
    decreases |xs|
  {
    if xs == [] {
      assert xs + ys == ys;
    } else {
      var (entity1, fwd1) := Perform(cfg, entity, fwd, [xs[0]]);
      assert (xs + ys)[0] == xs[0] && (xs + ys)[1..] == xs[1..] + ys;
      LogFollowing.PerformSplit(cfg, entity, fwd, xs);
      LogFollowing.PerformSplit(cfg, entity, fwd, xs + ys);
      PerformAppend(cfg, entity1, fwd1, xs[1..], ys);
    }
  }
}
