/** Runs written out: what each action does when every FPDU travels in an entity of its own, and what several
    actions do one after the other. */
module DataScripts {
  import opened Bytes
  import opened Params
  import opened Cutter
  import opened FileIo
  import opened Compressors
  import opened Checkpoints
  import opened Canon
  import opened DataPhase
  import C = Compress
  import F = Fpdu
  import A = Articles

  /** Check bytes, one article in an FPDU, and no acknowledgement to wait for. */
  predicate Simple(cfg: Config)
  {
    cfg.WellCut() && cfg.packing.Valid() && !cfg.packing.multi && cfg.crc && cfg.sync.window == 0
  }

  // ---- states ----

  /** A sender about to send article `next`, with `bytes` octets counted, behind point `n`, nothing held back. */
  function Snd(cfg: Config, phase: SendPhase, next: nat, bytes: nat, n: nat, since: nat, comp: SenderState,
               store: Store): Sender
    requires cfg.WellCut() && next <= |cfg.arts|
  {
    Sender(phase, next, cfg.srcOff[next], bytes, next, n, since, comp, [], [], [], store)
  }

  function Sys(v: Sender, r: Receiver, fwd: seq<Packet>, back: seq<Pdu>, p: nat): System
  {
    System(v, r, fwd, back, Some(p))
  }

  /** Nothing under way, with these stores and this file. */
  predicate Parked(s: System, vs: Store, rs: Store, file: seq<byte>)
  {
    && s.sender.phase == SendIdle && s.sender.entity == [] && s.sender.pending == [] && s.sender.store == vs
    && s.receiver.phase == ReceiveIdle && s.receiver.store == rs && s.receiver.file == file
    && s.fwd == [] && s.back == [] && s.start == None
  }

  function Carrying(cfg: Config, w: seq<byte>): Packet
  {
    Packet(Data(F.DataFpdu(F.Dtf, cfg.packing.idDst, 0, w)), false)
  }

  function Marking(n: nat): Packet { Packet(Syn(n), false) }

  function Ending(): Packet { Packet(DtfEnd, false) }

  // ---- starts and losses ----

  lemma InitialParked(cfg: Config)
    ensures Parked(Initial(cfg), NO_POINTS, NO_POINTS, [])
  {
  }

  /** The sender as it starts from point `p`. */
  function Begun(cfg: Config, p: nat, cp: Checkpoint, vs: Store): Sender
    requires cfg.WellCut() && cp.articles <= |cfg.arts|
  {
    Snd(cfg, Sending, cp.articles, cp.dataBytes, p, 0, NewSender(cfg.compression, cfg.maxArticle),
        if p == 0 then NO_POINTS else vs)
  }

  /** The receiver as it starts from point `p`, its file cut or extended to it. */
  function Opens(cfg: Config, p: nat, cp: Checkpoint, rs: Store, file: seq<byte>): Receiver
  {
    var cut := Resized(file, cp.fileOffset);
    Receiver(Receiving, cut, cut, cp.dataBytes, cp.articles, p, None, Repeat(cfg.RefSize(), 0),
             if p == 0 then NO_POINTS else rs)
  }

  lemma OpensIs(cfg: Config, s: System, p: nat, rs: Store, vs: Store, file: seq<byte>)
    requires Parked(s, vs, rs, file) && rs.Get(p).Some? && rs.Get(p).value.sync == p
    ensures DoBeginReceiver(cfg, s, p).receiver == Opens(cfg, p, rs.Get(p).value, rs, file)
  {
  }

  lemma Starts(cfg: Config, s: System, p: nat, vs: Store, rs: Store, file: seq<byte>)
    requires Simple(cfg) && Parked(s, vs, rs, file)
    requires vs.Get(p).Some? && rs.Get(p).Some? && vs.Get(p).value.sync == rs.Get(p).value.sync == p
    requires vs.Get(p).value.articles <= |cfg.arts|
      && vs.Get(p).value.fileOffset == cfg.srcOff[vs.Get(p).value.articles]
    ensures Step(cfg, Step(cfg, s, BeginReceiver(p)), BeginSender(p))
         == Sys(Begun(cfg, p, vs.Get(p).value, vs), Opens(cfg, p, rs.Get(p).value, rs, file), [], [], p)
  {
    RewoundTo(cfg, vs.Get(p).value.articles, 0);
  }

  lemma Loses(cfg: Config, s: System)
    requires cfg.packing.Valid() && cfg.WellCut() && s.receiver.durable <= s.receiver.file
    ensures Parked(Step(cfg, s, Lose(0)), s.sender.store, s.receiver.store, s.receiver.durable)
  {
  }

  // ---- sending ----

  /** One data FPDU through an entity with check bytes. */
  lemma OneEntity(cfg: Config, fwd: seq<Packet>, w: seq<byte>)
    requires Simple(cfg) && |w| <= cfg.packing.MaxSingle()
    ensures var f := F.DataFpdu(F.Dtf, cfg.packing.idDst, 0, w);
      Perform(cfg, [], fwd, Puts(Datas([f])) + [SendIfFull]) == ([], fwd + [Carrying(cfg, w)])
  {
    var f := F.DataFpdu(F.Dtf, cfg.packing.idDst, 0, w);
    var p := Data(f);
    assert [f][1..] == [] && Datas([f]) == [p] && [p][1..] == [];
    var ops := Puts([p]) + [SendIfFull];
    assert ops == [Put(p), SendIfFull] && ops[1..] == [SendIfFull] && ops[1..][1..] == [];
    assert Room(cfg, []) == cfg.packing.maxDtf && [] + [p] == [p];
    assert Sound([p]) == [Packet(p, false)];
    assert Perform(cfg, [], fwd, ops) == Perform(cfg, [p], fwd, [SendIfFull]);
    assert Perform(cfg, [p], fwd, [SendIfFull]) == Perform(cfg, [], fwd + Sound([p]), []);
  }

  lemma OneUnit(cfg: Config, fwd: seq<Packet>, p: Pdu, ops: seq<ShipOp>)
    ensures Perform(cfg, [], fwd, Puts(Datas([])) + [PutAndSend(p)] + ops)
         == Perform(cfg, [], fwd + [Packet(p, false)], ops)
  {
    var all := Puts(Datas([])) + [PutAndSend(p)] + ops;
    assert all[0] == PutAndSend(p) && all[1..] == ops;
    assert Sound([p]) == [Packet(p, false)] && Sound([]) == [] && [] + [p] == [p] && fwd + [] == fwd;
  }

  lemma SendsArticle(cfg: Config, next: nat, bytes: nat, n: nat, since: nat, comp: SenderState, store: Store,
                     r: Receiver,
                     fwd: seq<Packet>, back: seq<Pdu>, p: nat)
    requires Simple(cfg) && next < |cfg.arts|
    requires var w := WireOut(cfg, comp, cfg.arts[next]);
      |w| <= cfg.packing.MaxSingle() && !Due(cfg, since, w)
    ensures var w := WireOut(cfg, comp, cfg.arts[next]);
      Step(cfg, Sys(Snd(cfg, Sending, next, bytes, n, since, comp, store), r, fwd, back, p), SendArticle)
        == Sys(Snd(cfg, Sending, next + 1, bytes + |w|, n, since + |w|, CompSent(cfg, comp, cfg.arts[next]), store), r,
               fwd + [Carrying(cfg, w)], back, p)
  {
    hide Perform, WireOut, CompSent, Datas, Puts;
    var w := WireOut(cfg, comp, cfg.arts[next]);
    OneEntity(cfg, fwd, w);
    var s := Sys(Snd(cfg, Sending, next, bytes, n, since, comp, store), r, fwd, back, p);
    var f := F.DataFpdu(F.Dtf, cfg.packing.idDst, 0, w);
    assert A.Pushed(cfg.packing, [], w) == ([], [f]);
    assert ArticleOps(cfg, s.sender) == Puts(Datas([f])) + [SendIfFull];
  }

  /** The compressor behind a point that falls before an article. */
  function Synced(cfg: Config, comp: SenderState, a: seq<byte>): SenderState
  {
    CompAtSync(cfg, CompSent(cfg, comp, a))
  }

  /** The point a sender records before article `next`. */
  function PointBefore(cfg: Config, next: nat, bytes: nat, n: nat): Checkpoint
    requires cfg.WellCut() && next <= |cfg.arts|
  {
    Checkpoint(n, cfg.srcOff[next], bytes, next)
  }

  lemma SendsPoint(cfg: Config, next: nat, bytes: nat, n: nat, since: nat, comp: SenderState, store: Store, r: Receiver,
                   fwd: seq<Packet>, back: seq<Pdu>, p: nat)
    requires Simple(cfg) && next < |cfg.arts| && Due(cfg, since, WireOut(cfg, comp, cfg.arts[next]))
    requires |WireOut(cfg, Synced(cfg, comp, cfg.arts[next]), cfg.arts[next])| <= cfg.packing.MaxSingle()
    ensures var on := Synced(cfg, comp, cfg.arts[next]);
      var w := WireOut(cfg, on, cfg.arts[next]);
      Step(cfg, Sys(Snd(cfg, Sending, next, bytes, n, since, comp, store), r, fwd, back, p), SendArticle)
        == Sys(Snd(cfg, Sending, next + 1, bytes + |w|, n + 1, |w|, CompSent(cfg, on, cfg.arts[next]),
                   store.Record(PointBefore(cfg, next, bytes, n + 1))), r,
               fwd + [Marking(n + 1), Carrying(cfg, w)], back, p)
  {
    hide Perform, WireOut, CompSent, CompAtSync, Datas, Puts;
    var on := Synced(cfg, comp, cfg.arts[next]);
    var w := WireOut(cfg, on, cfg.arts[next]);
    OneEntity(cfg, fwd + [Marking(n + 1)], w);
    assert fwd + [Marking(n + 1)] + [Carrying(cfg, w)] == fwd + [Marking(n + 1), Carrying(cfg, w)];
    var s := Sys(Snd(cfg, Sending, next, bytes, n, since, comp, store), r, fwd, back, p);
    var f := F.DataFpdu(F.Dtf, cfg.packing.idDst, 0, w);
    assert A.Pushed(cfg.packing, [], w) == ([], [f]);
    assert ArticleOps(cfg, AtPoint(cfg, s.sender)) == Puts(Datas([f])) + [SendIfFull];
    OneUnit(cfg, fwd, Syn(n + 1), Puts(Datas([f])) + [SendIfFull]);
  }

  /** A sender that stops between a SYN and its record. */
  lemma StopsAtPoint(cfg: Config, next: nat, bytes: nat, n: nat, since: nat, comp: SenderState, store: Store,
                     r: Receiver,
                     fwd: seq<Packet>, back: seq<Pdu>, p: nat)
    requires Simple(cfg) && next < |cfg.arts| && Due(cfg, since, WireOut(cfg, comp, cfg.arts[next]))
    ensures Step(cfg, Sys(Snd(cfg, Sending, next, bytes, n, since, comp, store), r, fwd, back, p), FailAtSync)
         == Sys(Snd(cfg, SendFailed, next, bytes, n, since, comp, store), r, fwd + [Marking(n + 1)], back, p)
  {
    hide Perform, WireOut;
    OneUnit(cfg, fwd, Syn(n + 1), []);
    var ops := Puts(Datas([])) + [PutAndSend(Syn(n + 1))];
    assert ops + [] == ops;
    DonePerform(cfg, fwd + [Marking(n + 1)]);
  }

  lemma DonePerform(cfg: Config, fwd: seq<Packet>)
    ensures Perform(cfg, [], fwd, []) == ([], fwd)
  {
  }

  lemma SendsEnd(cfg: Config, bytes: nat, n: nat, since: nat, comp: SenderState, store: Store, r: Receiver,
                 fwd: seq<Packet>, back: seq<Pdu>, p: nat)
    requires Simple(cfg)
    ensures Step(cfg, Sys(Snd(cfg, Sending, |cfg.arts|, bytes, n, since, comp, store), r, fwd, back, p), SendEnd)
         == Sys(Snd(cfg, Ended, |cfg.arts|, bytes, n, since, comp, store), r, fwd + [Ending()], back, p)
  {
    hide Perform;
    OneUnit(cfg, fwd, DtfEnd, []);
    var ops := Puts(Datas([])) + [PutAndSend(DtfEnd)];
    assert ops + [] == ops;
    DonePerform(cfg, fwd + [Ending()]);
  }

  // ---- receiving ----

  /** The receiver with one more article. */
  function Got(cfg: Config, r: Receiver, w: seq<byte>, b: seq<byte>): Receiver
  {
    r.(file := r.file + ArticleToBytes(cfg.format, b), dataBytes := r.dataBytes + |w|, articles := r.articles + 1,
       reference := if cfg.compression == NoCompression then r.reference else Overwrite(r.reference, b))
  }

  /** What a receiver reads an article's wire form as. */
  predicate ReadAs(cfg: Config, r: Receiver, w: seq<byte>, b: seq<byte>)
  {
    if cfg.compression == NoCompression then w == b else ReceiverState(r.reference, cfg.RefSize()).Decoded(w) == Ok(b)
  }

  lemma TakesArticle(cfg: Config, v: Sender, r: Receiver, w: seq<byte>, b: seq<byte>, fwd: seq<Packet>, back: seq<Pdu>,
                     p: nat)
    requires cfg.packing.Valid() && cfg.WellCut()
    requires r.phase == Receiving && r.partial == None && ReadAs(cfg, r, w, b)
    ensures Step(cfg, Sys(v, r, [Carrying(cfg, w)] + fwd, back, p), TakeForward)
         == Sys(v, Got(cfg, r, w, b), fwd, back, p)
  {
    hide ReceiverState.Decoded, Overwrite, ArticleToBytes;
    var f := F.DataFpdu(F.Dtf, cfg.packing.idDst, 0, w);
    assert A.Fed(cfg.maxArticle, None, f) == Ok((None, [w]));
    assert [w][1..] == [];
    var now := Got(cfg, r, w, b);
    assert TakeOne(cfg, r, w) == Some(now);
    assert Take(cfg, r, [w]) == (now, true) by {
      assert Take(cfg, now, []) == (now, true);
    }
    assert r.(partial := None) == r;
    assert Receive(cfg, r, Data(f)) == (now, []);
    assert ([Carrying(cfg, w)] + fwd)[1..] == fwd && back + [] == back;
  }

  /** The receiver with one more point. */
  function Noted(r: Receiver, n: nat): Receiver
  {
    r.(durable := r.file, lastSync := n, store := r.store.Record(Checkpoint(n, |r.file|, r.dataBytes, r.articles)))
  }

  lemma TakesPoint(cfg: Config, v: Sender, r: Receiver, n: nat, fwd: seq<Packet>, back: seq<Pdu>, p: nat)
    requires cfg.packing.Valid() && cfg.WellCut() && r.phase == Receiving && n < MAX_SYNC_NUMBER && !cfg.Acks()
    ensures Step(cfg, Sys(v, r, [Marking(n)] + fwd, back, p), TakeForward) == Sys(v, Noted(r, n), fwd, back, p)
  {
    assert ([Marking(n)] + fwd)[1..] == fwd && back + [] == back;
  }

  lemma TakesEnd(cfg: Config, v: Sender, r: Receiver, fwd: seq<Packet>, back: seq<Pdu>, p: nat)
    requires cfg.packing.Valid() && cfg.WellCut() && r.phase == Receiving
    ensures Step(cfg, Sys(v, r, [Ending()] + fwd, back, p), TakeForward) == Sys(v, r.(phase := Completed), fwd, back, p)
  {
    assert ([Ending()] + fwd)[1..] == fwd && back + [] == back;
  }

  // ---- several actions ----

  lemma TwoSteps(cfg: Config, s: System, a: Action, b: Action)
    requires cfg.packing.Valid() && cfg.WellCut()
    ensures RunFrom(cfg, s, [a, b]) == Step(cfg, Step(cfg, s, a), b)
  {
    hide Step;
    var t := Step(cfg, s, a);
    assert [a, b][1..] == [b] && [b][1..] == [];
    assert RunFrom(cfg, t, [b]) == RunFrom(cfg, Step(cfg, t, b), []);
  }

  lemma Then(cfg: Config, s: System, xs: seq<Action>, t: System, ys: seq<Action>, u: System)
    requires cfg.packing.Valid() && cfg.WellCut() && RunFrom(cfg, s, xs) == t && RunFrom(cfg, t, ys) == u
    ensures RunFrom(cfg, s, xs + ys) == u
  {
    RunFromAppend(cfg, s, xs, ys);
  }

  lemma FromInitial(cfg: Config, actions: seq<Action>)
    requires cfg.packing.Valid() && cfg.WellCut()
    ensures DataPhase.Run(cfg, actions) == RunFrom(cfg, Initial(cfg), actions)
  {
    assert [] + actions == actions;
    RunJoin(cfg, [], actions);
  }

  const ARTICLE: seq<Action> := [SendArticle, TakeForward]
  const ARTICLE_AT_POINT: seq<Action> := [SendArticle, TakeForward] + [TakeForward]
  const END: seq<Action> := [SendEnd, TakeForward]
  const STOP_AT_POINT: seq<Action> := [FailAtSync, TakeForward]

  function StartFrom(p: nat): seq<Action> { [BeginReceiver(p), BeginSender(p)] }

  lemma Started(cfg: Config, s: System, p: nat, vs: Store, rs: Store, file: seq<byte>)
    requires Simple(cfg) && Parked(s, vs, rs, file)
    requires vs.Get(p).Some? && rs.Get(p).Some? && vs.Get(p).value.sync == rs.Get(p).value.sync == p
    requires vs.Get(p).value.articles <= |cfg.arts|
      && vs.Get(p).value.fileOffset == cfg.srcOff[vs.Get(p).value.articles]
    ensures RunFrom(cfg, s, StartFrom(p))
         == Sys(Begun(cfg, p, vs.Get(p).value, vs), Opens(cfg, p, rs.Get(p).value, rs, file), [], [], p)
  {
    Starts(cfg, s, p, vs, rs, file);
    TwoSteps(cfg, s, BeginReceiver(p), BeginSender(p));
  }

  /** Both sides start from nothing. */
  lemma StartedAnew(cfg: Config)
    requires Simple(cfg)
    ensures RunFrom(cfg, Initial(cfg), StartFrom(0))
         == Sys(Snd(cfg, Sending, 0, 0, 0, 0, NewSender(cfg.compression, cfg.maxArticle), NO_POINTS),
                Receiver(Receiving, [], [], 0, 0, 0, None, Repeat(cfg.RefSize(), 0), NO_POINTS), [], [], 0)
  {
    hide Step;
    InitialParked(cfg);
    Started(cfg, Initial(cfg), 0, NO_POINTS, NO_POINTS, []);
  }

  /** What was written to disk by the last point is what is left after a loss. */
  lemma LostAfter(cfg: Config, v: Sender, r: Receiver, fwd: seq<Packet>, p: nat)
    requires cfg.packing.Valid() && cfg.WellCut() && r.durable <= r.file
    ensures Parked(RunFrom(cfg, Sys(v, r, fwd, [], p), [Lose(0)]), v.store, r.store, r.durable)
  {
    hide Step;
    OneStep(cfg, Sys(v, r, fwd, [], p), Lose(0));
    Loses(cfg, Sys(v, r, fwd, [], p));
  }

  lemma ArticleThrough(cfg: Config, next: nat, bytes: nat, n: nat, since: nat, comp: SenderState, store: Store,
                       r: Receiver,
                       p: nat, b: seq<byte>)
    requires Simple(cfg) && next < |cfg.arts| && r.phase == Receiving && r.partial == None
    requires var w := WireOut(cfg, comp, cfg.arts[next]);
      |w| <= cfg.packing.MaxSingle() && !Due(cfg, since, w) && ReadAs(cfg, r, w, b)
    ensures var w := WireOut(cfg, comp, cfg.arts[next]);
      RunFrom(cfg, Sys(Snd(cfg, Sending, next, bytes, n, since, comp, store), r, [], [], p), ARTICLE)
        == Sys(Snd(cfg, Sending, next + 1, bytes + |w|, n, since + |w|, CompSent(cfg, comp, cfg.arts[next]), store),
               Got(cfg, r, w, b), [], [], p)
  {
    hide WireOut, CompSent, ReadAs, Got, Step, Due, Snd;
    var w := WireOut(cfg, comp, cfg.arts[next]);
    SendsArticle(cfg, next, bytes, n, since, comp, store, r, [], [], p);
    assert [] + [Carrying(cfg, w)] == [Carrying(cfg, w)] + [];
    var v := Snd(cfg, Sending, next + 1, bytes + |w|, n, since + |w|, CompSent(cfg, comp, cfg.arts[next]), store);
    TakesArticle(cfg, v, r, w, b, [], [], p);
    TwoSteps(cfg, Sys(Snd(cfg, Sending, next, bytes, n, since, comp, store), r, [], [], p), SendArticle, TakeForward);
  }

  /** A point and the article behind it. */
  lemma PointThrough(cfg: Config, next: nat, bytes: nat, n: nat, since: nat, comp: SenderState, store: Store,
                     r: Receiver,
                     p: nat, b: seq<byte>)
    requires Simple(cfg) && next < |cfg.arts| && r.phase == Receiving && r.partial == None
    requires Due(cfg, since, WireOut(cfg, comp, cfg.arts[next])) && n + 1 < MAX_SYNC_NUMBER && !cfg.Acks()
    requires var w := WireOut(cfg, Synced(cfg, comp, cfg.arts[next]), cfg.arts[next]);
      |w| <= cfg.packing.MaxSingle() && ReadAs(cfg, r, w, b)
    ensures var on := Synced(cfg, comp, cfg.arts[next]);
      var w := WireOut(cfg, on, cfg.arts[next]);
      RunFrom(cfg, Sys(Snd(cfg, Sending, next, bytes, n, since, comp, store), r, [], [], p), ARTICLE_AT_POINT)
        == Sys(Snd(cfg, Sending, next + 1, bytes + |w|, n + 1, |w|, CompSent(cfg, on, cfg.arts[next]),
                   store.Record(PointBefore(cfg, next, bytes, n + 1))),
               Got(cfg, Noted(r, n + 1), w, b), [], [], p)
  {
    hide WireOut, CompSent, Synced, Got, Step, Due, Snd, ReceiverState.Decoded;
    var on := Synced(cfg, comp, cfg.arts[next]);
    var w := WireOut(cfg, on, cfg.arts[next]);
    var s := Sys(Snd(cfg, Sending, next, bytes, n, since, comp, store), r, [], [], p);
    SendsPoint(cfg, next, bytes, n, since, comp, store, r, [], [], p);
    var v := Snd(cfg, Sending, next + 1, bytes + |w|, n + 1, |w|, CompSent(cfg, on, cfg.arts[next]),
                 store.Record(PointBefore(cfg, next, bytes, n + 1)));
    assert [] + [Marking(n + 1), Carrying(cfg, w)] == [Marking(n + 1)] + [Carrying(cfg, w)];
    TakesPoint(cfg, v, r, n + 1, [Carrying(cfg, w)], [], p);
    assert [Carrying(cfg, w)] == [Carrying(cfg, w)] + [];
    TakesArticle(cfg, v, Noted(r, n + 1), w, b, [], [], p);
    TwoSteps(cfg, s, SendArticle, TakeForward);
    var mid := Sys(v, Noted(r, n + 1), [Carrying(cfg, w)], [], p);
    OneStep(cfg, mid, TakeForward);
    Then(cfg, s, [SendArticle, TakeForward], mid, [TakeForward], Step(cfg, mid, TakeForward));
  }

  /** A SYN that arrives although its sender has stopped before recording the point. */
  lemma StopThrough(cfg: Config, next: nat, bytes: nat, n: nat, since: nat, comp: SenderState, store: Store,
                    r: Receiver, p: nat)
    requires Simple(cfg) && next < |cfg.arts| && r.phase == Receiving
    requires Due(cfg, since, WireOut(cfg, comp, cfg.arts[next])) && n + 1 < MAX_SYNC_NUMBER && !cfg.Acks()
    ensures RunFrom(cfg, Sys(Snd(cfg, Sending, next, bytes, n, since, comp, store), r, [], [], p), STOP_AT_POINT)
         == Sys(Snd(cfg, SendFailed, next, bytes, n, since, comp, store), Noted(r, n + 1), [], [], p)
  {
    hide WireOut, Step, Due, Snd;
    StopsAtPoint(cfg, next, bytes, n, since, comp, store, r, [], [], p);
    assert [] + [Marking(n + 1)] == [Marking(n + 1)] + [];
    TakesPoint(cfg, Snd(cfg, SendFailed, next, bytes, n, since, comp, store), r, n + 1, [], [], p);
    TwoSteps(cfg, Sys(Snd(cfg, Sending, next, bytes, n, since, comp, store), r, [], [], p), FailAtSync, TakeForward);
  }

  lemma EndThrough(cfg: Config, bytes: nat, n: nat, since: nat, comp: SenderState, store: Store, r: Receiver, p: nat)
    requires Simple(cfg) && r.phase == Receiving
    ensures RunFrom(cfg, Sys(Snd(cfg, Sending, |cfg.arts|, bytes, n, since, comp, store), r, [], [], p), END)
         == Sys(Snd(cfg, Ended, |cfg.arts|, bytes, n, since, comp, store), r.(phase := Completed), [], [], p)
  {
    hide Step, Snd;
    SendsEnd(cfg, bytes, n, since, comp, store, r, [], [], p);
    assert [] + [Ending()] == [Ending()] + [];
    TakesEnd(cfg, Snd(cfg, Ended, |cfg.arts|, bytes, n, since, comp, store), r, [], [], p);
    TwoSteps(cfg, Sys(Snd(cfg, Sending, |cfg.arts|, bytes, n, since, comp, store), r, [], [], p), SendEnd, TakeForward);
  }

  /** Literal articles are read as they are whatever the references. */
  lemma LiteralReads(cfg: Config, r: Receiver, a: seq<byte>, ref: seq<byte>)
    requires cfg.compression != NoCompression && |a| <= |ref| && |r.reference| == cfg.RefSize() && |a| <= cfg.RefSize()
    ensures ReadAs(cfg, r, WireOut(cfg, SenderState(cfg.compression, ref, true), a), a)
  {
    C.OtherReference(C.Literal, a, ref, r.reference, cfg.RefSize());
    TwiceIsOnce(ref, a);
  }

  /** With equal references an article is read as it is. */
  lemma SameReads(cfg: Config, r: Receiver, a: seq<byte>, literal: bool)
    requires cfg.compression != NoCompression && |a| <= |r.reference| == cfg.RefSize()
    ensures ReadAs(cfg, r, WireOut(cfg, SenderState(cfg.compression, r.reference, literal), a), a)
  {
    var s := SenderState(cfg.compression, r.reference, literal);
    TwiceIsOnce(r.reference, a);
    C.RoundTrip(s.Mode(), a, r.reference, cfg.RefSize());
  }
}
