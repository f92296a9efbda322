/** Every attempt on a reliable link: the automata never refuse, the parties agree, both end connected. One lemma
    for each thing a party can take in each place says what it finds, what it answers, and that the joint
    invariant holds again. */
module SessionSafety {
  import opened Bytes
  import opened Params
  import opened Session
  import F = Fpdu
  import T = StateTable

  // ---- the automata in step with the programs ----

  function ReqState(write: bool, pc: ReqPc): T.State
  {
    match pc
    case AtStart => T.Cn01
    case WaitConnect => T.Cn02A
    case WaitAnswer => if write then T.Sf01A else T.Sf02A
    case WaitOpen => T.Of01A
    case WaitStart => if write then T.Tde01A else T.Tdl01A
    case ReqSending => T.Tde02A
    case ReqReceiving => T.Tdl02A
    case WaitEnd => if write then T.Tde08A else T.Tdl08A
    case WaitClose => T.Of03A
    case WaitDeselect => T.Sf04A
    case ReqDone => T.Cn03
  }

  function ResState(write: bool, pc: ResPc): T.State
  {
    match pc
    case ExpectConnect => T.Cn01
    case ExpectRequest => T.Cn03
    case ExpectOrf => T.Sf03
    case ExpectStart => T.Of02
    case ResReceiving => T.Tde02B
    case ResSending => T.Tdl02B
    case ExpectEnd => if write then T.Tde07B else T.Tdl07B
    case ExpectCrf => T.Of02
    case ExpectDeselect => T.Sf03
  }

  /** The units a requester may find when it waits at `pc`, and the state they lead to. */
  function ReqMid(write: bool, pc: ReqPc, m: Msg): Option<T.State>
  {
    match (pc, m)
    case (WaitConnect, Aconnect(_, _)) => Some(T.Cn03)
    case (WaitAnswer, Answer(ok, _)) => Some(if ok then T.Sf03 else T.Cn03)
    case (WaitOpen, AckOrf(_)) => Some(T.Of02)
    case (WaitStart, AckStart) => Some(if write then T.Tde02A else T.Tdl02A)
    case (ReqSending, AckSyn) => Some(T.Tde02A)
    case (ReqReceiving, Data(k, _, _)) => if k.IsData() then Some(T.Tdl02A) else None
    case (ReqReceiving, Syn) => Some(T.Tdl02A)
    case (ReqReceiving, DtfEnd) => Some(T.Tdl07A)
    case (WaitEnd, AckTransEnd(_, _, _)) => Some(T.Of02)
    case (WaitClose, AckCrf) => Some(T.Sf03)
    case (WaitDeselect, AckDeselect) => Some(T.Cn03)
    case _ => None
  }

  function ResMid(write: bool, pc: ResPc, m: Msg): Option<T.State>
  {
    match (pc, m)
    case (ExpectConnect, Connect(_, _)) => Some(T.Cn02B)
    case (ExpectRequest, Request(_)) => Some(if write then T.Sf01B else T.Sf02B)
    case (ExpectOrf, Orf(_)) => Some(T.Of01B)
    case (ExpectStart, Start) => Some(if write then T.Tde01B else T.Tdl01B)
    case (ResReceiving, Data(k, _, _)) => if k.IsData() then Some(T.Tde02B) else None
    case (ResReceiving, Syn) => Some(T.Tde02B)
    case (ResReceiving, DtfEnd) => Some(T.Tde07B)
    case (ResSending, AckSyn) => Some(T.Tdl02B)
    case (ExpectEnd, TransEnd(_, _)) => Some(if write then T.Tde08B else T.Tdl08B)
    case (ExpectCrf, Crf) => Some(T.Of03B)
    case (ExpectDeselect, Deselect) => Some(T.Sf04B)
    case _ => None
  }

  lemma DataTaken(s: T.State, k: F.FpduKind)
    requires k.IsData() && (s == T.Tde02B || s == T.Tdl02A)
    ensures T.Apply(s, T.R(k)) == T.Next(s)
  {
    T.DataOnlyWhenReceiving(s, T.R(k));
  }

  lemma ReqTableOpening(write: bool, pc: ReqPc, m: Msg)
    requires ReqMid(write, pc, m).Some? && (pc.WaitConnect? || pc.WaitAnswer? || pc.WaitOpen? || pc.WaitStart?)
    ensures T.Apply(ReqState(write, pc), EventOf(write, m)) == T.Next(ReqMid(write, pc, m).value)
  {
  }

  lemma ReqTableClosing(write: bool, pc: ReqPc, m: Msg)
    requires ReqMid(write, pc, m).Some? && (pc.WaitEnd? || pc.WaitClose? || pc.WaitDeselect?)
    ensures T.Apply(ReqState(write, pc), EventOf(write, m)) == T.Next(ReqMid(write, pc, m).value)
  {
  }

  lemma ReqTableData(write: bool, pc: ReqPc, m: Msg)
    requires ReqMid(write, pc, m).Some? && (pc.ReqSending? || pc.ReqReceiving?)
    ensures T.Apply(ReqState(write, pc), EventOf(write, m)) == T.Next(ReqMid(write, pc, m).value)
  {
    if m.Data? {
      hide T.Apply;
      DataTaken(T.Tdl02A, m.kind);
    }
  }

  lemma ReqTable(write: bool, pc: ReqPc, m: Msg)
    requires ReqMid(write, pc, m).Some?
    ensures T.Apply(ReqState(write, pc), EventOf(write, m)) == T.Next(ReqMid(write, pc, m).value)
  {
    hide T.Apply, ReqState, EventOf;
    if pc.WaitConnect? || pc.WaitAnswer? || pc.WaitOpen? || pc.WaitStart? {
      ReqTableOpening(write, pc, m);
    } else if pc.ReqSending? || pc.ReqReceiving? {
      ReqTableData(write, pc, m);
    } else {
      ReqTableClosing(write, pc, m);
    }
  }

  /** A late acknowledgement of a point is ignored by a requester that has sent the end of a transfer... */
  lemma LateAckIgnored()
    ensures T.Apply(T.Tde08A, EventOf(true, AckSyn)) == T.Ignore
  {
  }

  /** ... and by a server that has sent the end of the data. */
  lemma LateAckIgnoredByServer()
    ensures T.Apply(T.Tdl07B, EventOf(false, AckSyn)) == T.Ignore
  {
  }

  lemma ResTableOpening(write: bool, pc: ResPc, m: Msg)
    requires ResMid(write, pc, m).Some? && (pc.ExpectConnect? || pc.ExpectRequest? || pc.ExpectOrf? || pc.ExpectStart?)
    ensures T.Apply(ResState(write, pc), EventOf(write, m)) == T.Next(ResMid(write, pc, m).value)
  {
  }

  lemma ResTableData(write: bool, pc: ResPc, m: Msg)
    requires ResMid(write, pc, m).Some? && (pc.ResReceiving? || pc.ResSending?)
    ensures T.Apply(ResState(write, pc), EventOf(write, m)) == T.Next(ResMid(write, pc, m).value)
  {
    if m.Data? {
      hide T.Apply;
      DataTaken(T.Tde02B, m.kind);
    }
  }

  lemma ResTableClosing(write: bool, pc: ResPc, m: Msg)
    requires ResMid(write, pc, m).Some? && (pc.ExpectEnd? || pc.ExpectCrf? || pc.ExpectDeselect?)
    ensures T.Apply(ResState(write, pc), EventOf(write, m)) == T.Next(ResMid(write, pc, m).value)
  {
  }

  lemma ResTable(write: bool, pc: ResPc, m: Msg)
    requires ResMid(write, pc, m).Some?
    ensures T.Apply(ResState(write, pc), EventOf(write, m)) == T.Next(ResMid(write, pc, m).value)
  {
    hide T.Apply, ResState, EventOf;
    if pc.ExpectConnect? || pc.ExpectRequest? || pc.ExpectOrf? || pc.ExpectStart? {
      ResTableOpening(write, pc, m);
    } else if pc.ResReceiving? || pc.ResSending? {
      ResTableData(write, pc, m);
    } else {
      ResTableClosing(write, pc, m);
    }
  }

  lemma ReqLocalConnect(write: bool)
    ensures T.Apply(T.Cn01, T.Local(T.DoConnect)) == T.Next(T.Cn02A)
    ensures T.Apply(T.Cn03, T.Local(if write then T.DoCreate else T.DoSelect)) == T.Next(ReqState(write, WaitAnswer))
    ensures T.Apply(T.Sf03, T.Local(T.DoOpen)) == T.Next(T.Of01A)
    ensures T.Apply(T.Of02, T.Local(if write then T.DoWrite else T.DoRead)) == T.Next(ReqState(write, WaitStart))
  {
  }

  lemma ReqLocalEnd()
    ensures T.Apply(T.Tdl02A, T.Local(T.DoAccept)) == T.Next(T.Tdl02A)
    ensures T.Apply(T.Tdl07A, T.Local(T.DoTransferEnd)) == T.Next(T.Tdl08A)
    ensures T.Apply(T.Of02, T.Local(T.DoClose)) == T.Next(T.Of03A)
    ensures T.Apply(T.Sf03, T.Local(T.DoDeselect)) == T.Next(T.Sf04A)
  {
  }

  lemma ReqLocalData()
    ensures T.Apply(T.Tde02A, T.Local(T.DoSendData)) == T.Next(T.Tde02A)
    ensures T.Apply(T.Tde02A, T.Local(T.DoSync)) == T.Next(T.Tde02A)
    ensures T.Apply(T.Tde02A, T.Local(T.DoDataEnd)) == T.Next(T.Tde07A)
    ensures T.Apply(T.Tde07A, T.Local(T.DoTransferEnd)) == T.Next(T.Tde08A)
  {
  }

  lemma ResLocalSelect(write: bool)
    ensures T.Apply(T.Cn02B, T.Local(T.DoAccept)) == T.Next(T.Cn03)
    ensures T.Apply(if write then T.Sf01B else T.Sf02B, T.Local(T.DoAccept)) == T.Next(T.Sf03)
    ensures T.Apply(if write then T.Sf01B else T.Sf02B, T.Local(T.DoReject)) == T.Next(T.Cn03)
    ensures T.Apply(T.Of01B, T.Local(T.DoAccept)) == T.Next(T.Of02)
  {
  }

  lemma ResLocalStart(write: bool)
    ensures T.Apply(if write then T.Tde01B else T.Tdl01B, T.Local(T.DoAccept))
         == T.Next(if write then T.Tde02B else T.Tdl02B)
  {
  }

  lemma ResLocalData()
    ensures T.Apply(T.Tde02B, T.Local(T.DoAccept)) == T.Next(T.Tde02B)
    ensures T.Apply(T.Tdl02B, T.Local(T.DoSendData)) == T.Next(T.Tdl02B)
    ensures T.Apply(T.Tdl02B, T.Local(T.DoSync)) == T.Next(T.Tdl02B)
    ensures T.Apply(T.Tdl02B, T.Local(T.DoDataEnd)) == T.Next(T.Tdl07B)
  {
  }

  lemma ResLocalEnd(write: bool)
    ensures T.Apply(if write then T.Tde08B else T.Tdl08B, T.Local(T.DoAccept)) == T.Next(T.Of02)
    ensures T.Apply(T.Of03B, T.Local(T.DoAccept)) == T.Next(T.Sf03)
    ensures T.Apply(T.Sf04B, T.Local(T.DoAccept)) == T.Next(T.Cn03)
  {
  }

  // ---- streams ----

  predicate Stream(ms: seq<Msg>)
  {
    forall m :: m in ms ==> m == Syn || (m.Data? && m.kind.IsData())
  }

  predicate AckStream(ms: seq<Msg>)
  {
    forall m :: m in ms ==> m == AckSyn
  }

  /** Octets and articles of the data in a stream, added to a count. */
  function Total(c: Count, ms: seq<Msg>): Count
    decreases |ms|
  {
    if ms == [] then c else Total(if ms[0].Data? then Plus(c, ms[0]) else c, ms[1..])
  }

  lemma {:induction false} TotalSnoc(c: Count, ms: seq<Msg>, m: Msg)
    ensures Total(c, ms + [m]) == if m.Data? then Plus(Total(c, ms), m) else Total(c, ms)
    decreases |ms|
  {
    if ms == [] {
      assert ([] + [m])[1..] == [];
    } else {
      assert (ms + [m])[0] == ms[0] && (ms + [m])[1..] == ms[1..] + [m];
      TotalSnoc(if ms[0].Data? then Plus(c, ms[0]) else c, ms[1..], m);
    }
  }

  // ---- agreement ----

  function OnWire(s: SyncOption): SyncOption { if s.Enabled() then s else NO_SYNC }

  function FinalSync(cfg: Config): SyncOption { NegotiateSync(OnWire(cfg.sync), cfg.acceptSync) }

  function FinalResync(cfg: Config): bool { cfg.resync && cfg.acceptResync }

  function FinalCompression(cfg: Config): Compression { NegotiateCompression(cfg.compression, cfg.acceptCompression) }

  /** Both sides have agreed on synchronisation. */
  predicate SyncAgreed(cfg: Config, s: System)
  {
    && s.reqAgreed.sync == s.resAgreed.sync == FinalSync(cfg)
    && s.reqAgreed.resync == s.resAgreed.resync == FinalResync(cfg)
  }

  predicate SizeSettled(cfg: Config, s: System)
  {
    && s.resAgreed.maxEntity == ResMaxEntity(cfg, cfg.maxEntity)
    && s.reqAgreed.maxEntity == ReqMaxEntity(cfg, ResMaxEntity(cfg, cfg.maxEntity))
  }

  predicate AllAgreed(cfg: Config, s: System)
  {
    && SyncAgreed(cfg, s) && SizeSettled(cfg, s) && cfg.accepted
    && s.reqAgreed.compression == s.resAgreed.compression == FinalCompression(cfg)
  }

  predicate NoneCounted(s: System) { s.reqCount == s.resCount == Count(0, 0) }

  // ---- the joint places ----

  predicate AtConnect(cfg: Config, s: System)
  {
    && NoneCounted(s)
    && ((s.up == [Connect(cfg.sync, cfg.resync)] && s.down == [] && s.res == ExpectConnect)
        || (s.up == [] && s.down == [Aconnect(FinalSync(cfg), FinalResync(cfg))] && s.res == ExpectRequest
            && s.resAgreed.sync == FinalSync(cfg) && s.resAgreed.resync == FinalResync(cfg)))
  }

  predicate AtAnswer(cfg: Config, s: System)
  {
    var size := ResMaxEntity(cfg, cfg.maxEntity);
    && NoneCounted(s) && SyncAgreed(cfg, s)
    && ((s.up == [Request(cfg.maxEntity)] && s.down == [] && s.res == ExpectRequest)
        || (s.up == [] && s.down == [Answer(true, size)] && s.res == ExpectOrf && s.resAgreed.maxEntity == size
            && cfg.accepted)
        || (s.up == [] && s.down == [Answer(false, 0)] && s.res == ExpectRequest && !cfg.accepted))
  }

  predicate AtOpen(cfg: Config, s: System)
  {
    && NoneCounted(s) && SyncAgreed(cfg, s) && SizeSettled(cfg, s) && cfg.accepted
    && ((s.up == [Orf(cfg.compression)] && s.down == [] && s.res == ExpectOrf)
        || (s.up == [] && s.down == [AckOrf(FinalCompression(cfg))] && s.res == ExpectStart
            && s.resAgreed.compression == FinalCompression(cfg)))
  }

  /** The data of a transfer that is read, on its way to the requester. */
  predicate Arriving(s: System, ahead: seq<Msg>)
  {
    && Stream(ahead) && Total(s.reqCount, ahead) == s.resCount
  }

  predicate AtStartOfData(cfg: Config, s: System)
  {
    && AllAgreed(cfg, s)
    && ((s.up == [Start] && s.down == [] && s.res == ExpectStart && NoneCounted(s))
        || (cfg.write && s.up == [] && s.down == [AckStart] && s.res == ResReceiving && NoneCounted(s))
        || (!cfg.write && s.up == [] && s.down != [] && s.down[0] == AckStart && Reading(s, s.down[1..])))
  }

  /** The responder is sending, or has sent the end. */
  predicate Reading(s: System, down: seq<Msg>)
  {
    (s.res == ResSending && Arriving(s, down))
    || (s.res == ExpectEnd && down != [] && down[|down| - 1] == DtfEnd && Arriving(s, down[..|down| - 1]))
  }

  predicate AtReading(cfg: Config, s: System)
  {
    !cfg.write && AllAgreed(cfg, s) && AckStream(s.up) && Reading(s, s.down)
  }

  predicate AtWriting(cfg: Config, s: System)
  {
    && cfg.write && AllAgreed(cfg, s) && s.res == ResReceiving
    && Stream(s.up) && AckStream(s.down) && Total(s.resCount, s.up) == s.reqCount
  }

  predicate AtEnd(cfg: Config, s: System)
  {
    var u, d := s.up, s.down;
    var final := TransEnd(s.reqCount.octets, s.reqCount.articles);
    var answer := AckTransEnd(true, s.resCount.octets, s.resCount.articles);
    && AllAgreed(cfg, s)
    && ((cfg.write && s.res == ResReceiving && |u| >= 2 && u[|u| - 1] == final && u[|u| - 2] == DtfEnd
         && Stream(u[..|u| - 2]) && AckStream(d) && Total(s.resCount, u[..|u| - 2]) == s.reqCount)
        || (s.res == ExpectEnd && s.reqCount == s.resCount
            && (if cfg.write then u == [final] && AckStream(d)
                else d == [] && u != [] && u[|u| - 1] == final && AckStream(u[..|u| - 1])))
        || (s.res == ExpectCrf && s.reqCount == s.resCount && u == [] && d != [] && d[|d| - 1] == answer
            && (if cfg.write then AckStream(d[..|d| - 1]) else |d| == 1)))
  }

  predicate AtClosing(cfg: Config, s: System)
  {
    && AllAgreed(cfg, s) && s.reqCount == s.resCount
    && (if s.req == WaitClose then
          (s.up == [Crf] && s.down == [] && s.res == ExpectCrf)
          || (s.up == [] && s.down == [AckCrf] && s.res == ExpectDeselect)
        else
          (s.up == [Deselect] && s.down == [] && s.res == ExpectDeselect)
          || (s.up == [] && s.down == [AckDeselect] && s.res == ExpectRequest))
  }

  predicate Placed(cfg: Config, s: System)
  {
    match s.req
    case AtStart => s.up == [] && s.down == [] && s.res == ExpectConnect && NoneCounted(s)
    case WaitConnect => AtConnect(cfg, s)
    case WaitAnswer => AtAnswer(cfg, s)
    case WaitOpen => AtOpen(cfg, s)
    case WaitStart => AtStartOfData(cfg, s)
    case ReqSending => AtWriting(cfg, s)
    case ReqReceiving => AtReading(cfg, s)
    case WaitEnd => AtEnd(cfg, s)
    case WaitClose => AtClosing(cfg, s)
    case WaitDeselect => AtClosing(cfg, s)
    case ReqDone =>
      && s.up == [] && s.down == [] && s.res == ExpectRequest && s.reqCount == s.resCount && SyncAgreed(cfg, s)
      && (cfg.accepted ==> AllAgreed(cfg, s))
  }

  /** The joint invariant of an attempt. */
  predicate Inv(cfg: Config, s: System)
  {
    && !s.broken
    && s.reqState == ReqState(cfg.write, s.req) && s.resState == ResState(cfg.write, s.res)
    && Placed(cfg, s)
  }

  // ---- what the steps keep ----

  /** Negotiating again with what was agreed changes nothing. */
  lemma SyncAgain(proposed: SyncOption, local: SyncOption)
    ensures NegotiateSync(proposed, OnWire(NegotiateSync(OnWire(proposed), local)))
         == NegotiateSync(OnWire(proposed), local)
  {
  }

  lemma CompressionAgain(requested: Compression, local: Compression)
    ensures NegotiateCompression(requested, NegotiateCompression(requested, local))
         == NegotiateCompression(requested, local)
  {
  }

  lemma ReqSendsIs(s: System, q: T.Request, m: Msg, pc: ReqPc, t: T.State)
    requires T.Apply(s.reqState, T.Local(q)) == T.Next(t)
    ensures ReqSends(s, q, m, pc) == s.(reqState := t, up := s.up + [m], req := pc)
  {
    hide T.Apply;
  }

  lemma ResSendsIs(s: System, q: T.Request, m: Msg, pc: ResPc, t: T.State)
    requires T.Apply(s.resState, T.Local(q)) == T.Next(t)
    ensures ResSends(s, q, m, pc) == s.(resState := t, down := s.down + [m], res := pc)
  {
    hide T.Apply;
  }

  /** A requester that finds what it waits for replies to it. */
  lemma ReqFinds(cfg: Config, s: System)
    requires s.down != [] && s.reqState == ReqState(cfg.write, s.req) && ReqMid(cfg.write, s.req, s.down[0]).Some?
    ensures ReqTakes(cfg, s)
         == ReqReply(cfg, s.(down := s.down[1..], reqState := ReqMid(cfg.write, s.req, s.down[0]).value), s.down[0])
  {
    hide T.Apply, ReqReply, EventOf, ReqMid, ReqState;
    ReqTable(cfg.write, s.req, s.down[0]);
  }

  lemma ResFinds(cfg: Config, s: System)
    requires s.up != [] && s.resState == ResState(cfg.write, s.res) && ResMid(cfg.write, s.res, s.up[0]).Some?
    ensures ResTakes(cfg, s)
         == ResReply(cfg, s.(up := s.up[1..], resState := ResMid(cfg.write, s.res, s.up[0]).value), s.up[0])
  {
    hide T.Apply, ResReply, EventOf, ResMid, ResState;
    ResTable(cfg.write, s.res, s.up[0]);
  }

  lemma KeepsBegin(cfg: Config, s: System)
    requires Inv(cfg, s) && s.req == AtStart
    ensures Inv(cfg, ReqSends(s, T.DoConnect, Connect(cfg.sync, cfg.resync), WaitConnect))
  {
    hide T.Apply;
    ReqLocalConnect(cfg.write);
    assert [] + [Connect(cfg.sync, cfg.resync)] == [Connect(cfg.sync, cfg.resync)];
  }

  // What each reply makes of a requester's state.

  lemma ReplyConnect(cfg: Config, s: System)
    requires s.req == WaitConnect && s.reqState == T.Cn03
    ensures ReqReply(cfg, s, Aconnect(FinalSync(cfg), FinalResync(cfg)))
         == s.(reqAgreed := s.reqAgreed.(sync := FinalSync(cfg), resync := FinalResync(cfg)),
               reqState := ReqState(cfg.write, WaitAnswer), up := s.up + [Request(cfg.maxEntity)], req := WaitAnswer)
  {
    hide T.Apply, ReqSends, NegotiateSync, ReqState;
    SyncAgain(cfg.sync, cfg.acceptSync);
    ReqLocalConnect(cfg.write);
    var agreed := s.reqAgreed.(sync := FinalSync(cfg), resync := FinalResync(cfg));
    ReqSendsIs(s.(reqAgreed := agreed), if cfg.write then T.DoCreate else T.DoSelect, Request(cfg.maxEntity), WaitAnswer,
               ReqState(cfg.write, WaitAnswer));
  }

  lemma ReplyAnswer(cfg: Config, s: System, size: nat)
    requires s.req == WaitAnswer && s.reqState == T.Sf03
    ensures ReqReply(cfg, s, Answer(true, size))
         == s.(reqAgreed := s.reqAgreed.(maxEntity := ReqMaxEntity(cfg, size)), reqState := T.Of01A,
               up := s.up + [Orf(cfg.compression)], req := WaitOpen)
  {
    hide T.Apply, ReqSends, ReqMaxEntity;
    ReqLocalConnect(cfg.write);
    var t := s.(reqAgreed := s.reqAgreed.(maxEntity := ReqMaxEntity(cfg, size)));
    ReqSendsIs(t, T.DoOpen, Orf(cfg.compression), WaitOpen, T.Of01A);
  }

  lemma ReplyOpen(cfg: Config, s: System)
    requires s.req == WaitOpen && s.reqState == T.Of02
    ensures ReqReply(cfg, s, AckOrf(FinalCompression(cfg)))
         == s.(reqAgreed := s.reqAgreed.(compression := FinalCompression(cfg)), reqState := ReqState(cfg.write, WaitStart),
               up := s.up + [Start], req := WaitStart)
  {
    hide T.Apply, ReqSends, NegotiateCompression, ReqState;
    CompressionAgain(cfg.compression, cfg.acceptCompression);
    ReqLocalConnect(cfg.write);
    var t := s.(reqAgreed := s.reqAgreed.(compression := FinalCompression(cfg)));
    ReqSendsIs(t, if cfg.write then T.DoWrite else T.DoRead, Start, WaitStart, ReqState(cfg.write, WaitStart));
  }

  lemma ReplyPoint(cfg: Config, s: System)
    requires s.req == ReqReceiving && s.reqState == T.Tdl02A
    ensures ReqReply(cfg, s, Syn) == if Acks(s.reqAgreed) then s.(up := s.up + [AckSyn]) else s
  {
    hide T.Apply, ReqSends;
    ReqLocalEnd();
    ReqSendsIs(s, T.DoAccept, AckSyn, ReqReceiving, T.Tdl02A);
  }

  lemma ReplyLast(cfg: Config, s: System)
    requires s.req == ReqReceiving && s.reqState == T.Tdl07A
    ensures ReqReply(cfg, s, DtfEnd)
         == s.(reqState := T.Tdl08A, up := s.up + [TransEnd(s.reqCount.octets, s.reqCount.articles)], req := WaitEnd)
  {
    hide T.Apply, ReqSends;
    ReqLocalEnd();
    ReqSendsIs(s, T.DoTransferEnd, TransEnd(s.reqCount.octets, s.reqCount.articles), WaitEnd, T.Tdl08A);
  }

  lemma ReplyEnd(cfg: Config, s: System)
    requires s.req == WaitEnd && s.reqState == T.Of02
    ensures ReqReply(cfg, s, AckTransEnd(true, s.reqCount.octets, s.reqCount.articles))
         == s.(reqState := T.Of03A, up := s.up + [Crf], req := WaitClose)
  {
    hide T.Apply, ReqSends;
    ReqLocalEnd();
    ReqSendsIs(s, T.DoClose, Crf, WaitClose, T.Of03A);
  }

  lemma ReplyClose(cfg: Config, s: System)
    requires s.req == WaitClose && s.reqState == T.Sf03
    ensures ReqReply(cfg, s, AckCrf) == s.(reqState := T.Sf04A, up := s.up + [Deselect], req := WaitDeselect)
  {
    hide T.Apply, ReqSends;
    ReqLocalEnd();
    ReqSendsIs(s, T.DoDeselect, Deselect, WaitDeselect, T.Sf04A);
  }

  lemma ReqConnected(cfg: Config, s: System)
    requires Inv(cfg, s) && s.down != [] && s.req.WaitConnect?
    ensures Inv(cfg, ReqTakes(cfg, s))
  {
    hide T.Apply, ReqReply, ReqTakes, NegotiateSync, ReqState, ResState, EventOf;
    ReqFinds(cfg, s);
    assert s.down[1..] == [] && [] + [Request(cfg.maxEntity)] == [Request(cfg.maxEntity)];
    ReplyConnect(cfg, s.(down := s.down[1..], reqState := T.Cn03));
  }

  lemma ReqAnswered(cfg: Config, s: System)
    requires Inv(cfg, s) && s.down != [] && s.req.WaitAnswer? && cfg.accepted
    ensures Inv(cfg, ReqTakes(cfg, s))
  {
    hide T.Apply, ReqReply, ReqTakes, NegotiateSync, ResMaxEntity, ReqMaxEntity, ResState, EventOf;
    ReqFinds(cfg, s);
    assert s.down[1..] == [] && [] + [Orf(cfg.compression)] == [Orf(cfg.compression)];
    ReplyAnswer(cfg, s.(down := s.down[1..], reqState := T.Sf03), ResMaxEntity(cfg, cfg.maxEntity));
  }

  lemma ReqRefused(cfg: Config, s: System)
    requires Inv(cfg, s) && s.down != [] && s.req.WaitAnswer? && !cfg.accepted
    ensures Inv(cfg, ReqTakes(cfg, s))
  {
    hide T.Apply, ReqTakes, ReqSends, NegotiateSync, ResMaxEntity, ReqMaxEntity, EventOf;
    ReqFinds(cfg, s);
    assert s.down[1..] == [];
  }

  lemma ReqOpened(cfg: Config, s: System)
    requires Inv(cfg, s) && s.down != [] && s.req.WaitOpen?
    ensures Inv(cfg, ReqTakes(cfg, s))
  {
    hide T.Apply, ReqReply, ReqTakes, NegotiateSync, NegotiateCompression, ResMaxEntity, ReqMaxEntity, ReqState, ResState,
      EventOf;
    ReqFinds(cfg, s);
    assert s.down[1..] == [] && [] + [Start] == [Start];
    ReplyOpen(cfg, s.(down := s.down[1..], reqState := T.Of02));
  }

  lemma ReqStarting(cfg: Config, s: System)
    requires Inv(cfg, s) && s.down != [] && s.req.WaitStart?
    ensures Inv(cfg, ReqTakes(cfg, s))
  {
    hide T.Apply, Total, ReqTakes, AllAgreed;
    ReqFinds(cfg, s);
    TotalNothing(s.resCount);
    var t := ReqTakes(cfg, s);
    AgreedSame(cfg, s, t);
    if !cfg.write {
      ReadingSame(s, t, s.down[1..]);
    }
  }

  lemma ReqAcknowledged(cfg: Config, s: System)
    requires Inv(cfg, s) && s.down != [] && s.req.ReqSending?
    ensures Inv(cfg, ReqTakes(cfg, s))
  {
    hide T.Apply, Total, ReqTakes, AllAgreed;
    AckTail(s.down);
    ReqFinds(cfg, s);
    AgreedSame(cfg, s, ReqTakes(cfg, s));
  }

  lemma AckTail(ms: seq<Msg>)
    requires ms != [] && AckStream(ms)
    ensures ms[0] == AckSyn && AckStream(ms[1..])
  {
    assert ms[0] in ms;
    assert forall m :: m in ms[1..] ==> m in ms;
  }

  lemma AgreedSame(cfg: Config, s: System, t: System)
    requires AllAgreed(cfg, s) && t.reqAgreed == s.reqAgreed && t.resAgreed == s.resAgreed
    ensures AllAgreed(cfg, t)
  {
  }

  lemma TotalNothing(c: Count)
    ensures Total(c, []) == c
  {
  }

  /** The head of a stream that is read. */
  lemma ReadingHead(s: System, down: seq<Msg>)
    requires Reading(s, down) && down != []
    ensures down[0] == Syn || (down[0].Data? && down[0].kind.IsData()) || (down == [DtfEnd] && s.res == ExpectEnd)
    ensures down[0] == DtfEnd ==> down == [DtfEnd] && s.reqCount == s.resCount
    ensures down[0] != DtfEnd ==>
      Reading(s.(reqCount := if down[0].Data? then Plus(s.reqCount, down[0]) else s.reqCount), down[1..])
  {
    var ahead := if s.res == ResSending then down else down[..|down| - 1];
    if ahead != [] {
      assert ahead[0] == down[0] && ahead[0] in ahead;
      assert forall m :: m in ahead[1..] ==> m in ahead;
      if s.res == ExpectEnd {
        assert down[1..][..|down| - 2] == ahead[1..];
      }
    } else {
      assert down == [DtfEnd];
    }
  }

  lemma ReadingSame(s: System, t: System, down: seq<Msg>)
    requires Reading(s, down) && t.res == s.res && t.reqCount == s.reqCount && t.resCount == s.resCount
    ensures Reading(t, down)
  {
  }

  lemma AckSnoc(ms: seq<Msg>)
    requires AckStream(ms)
    ensures AckStream(ms + [AckSyn])
  {
  }

  lemma ReqReadsOn(cfg: Config, s: System)
    requires Inv(cfg, s) && s.down != [] && s.req.ReqReceiving? && s.down[0] != DtfEnd
    ensures Inv(cfg, ReqTakes(cfg, s))
  {
    hide T.Apply, Total, ReqTakes, ReqSends, AllAgreed, Reading, EventOf, ResState;
    var m, t := s.down[0], ReqTakes(cfg, s);
    ReadingHead(s, s.down);
    ReqFinds(cfg, s);
    ReplyPoint(cfg, s.(down := s.down[1..], reqState := T.Tdl02A));
    AckSnoc(s.up);
    ReadingSame(s.(reqCount := if m.Data? then Plus(s.reqCount, m) else s.reqCount), t, s.down[1..]);
    AgreedSame(cfg, s, t);
  }

  lemma ReadEndPlaced(cfg: Config, s: System, t: System)
    requires AtReading(cfg, s) && s.down == [DtfEnd] && s.res == ExpectEnd && s.reqCount == s.resCount
    requires t == s.(down := [], req := WaitEnd, reqState := t.reqState,
                     up := s.up + [TransEnd(s.reqCount.octets, s.reqCount.articles)])
    ensures AtEnd(cfg, t)
  {
    hide Total, Reading, AllAgreed;
    assert t.up[..|s.up|] == s.up;
    AgreedSame(cfg, s, t);
  }

  lemma ReqReadsEnd(cfg: Config, s: System)
    requires Inv(cfg, s) && s.down != [] && s.req.ReqReceiving? && s.down[0] == DtfEnd
    ensures Inv(cfg, ReqTakes(cfg, s))
  {
    hide T.Apply, Total, ReqTakes, ReqReply, AllAgreed, Reading, AtEnd, EventOf, Stream, ResState;
    ReadingHead(s, s.down);
    ReqFinds(cfg, s);
    assert s.down[1..] == [];
    ReplyLast(cfg, s.(down := s.down[1..], reqState := T.Tdl07A));
    ReadEndPlaced(cfg, s, ReqTakes(cfg, s));
  }

  /** A late acknowledgement while the end of a written transfer is awaited. */
  lemma ReqLateAck(cfg: Config, s: System)
    requires Inv(cfg, s) && s.down != [] && s.req.WaitEnd? && s.down[0] == AckSyn
    ensures Inv(cfg, ReqTakes(cfg, s))
  {
    hide T.Apply, Total, AllAgreed;
    var d, t := s.down, ReqTakes(cfg, s);
    assert cfg.write;
    LateAckIgnored();
    AgreedSame(cfg, s, t);
    if s.res == ExpectCrf {
      assert |d| > 1;
      assert d[1..][..|d| - 2] == d[..|d| - 1][1..];
      AckTail(d[..|d| - 1]);
    } else {
      AckTail(d);
    }
  }

  /** The answer to the end of transfer comes last, and its counts always match. */
  lemma EndAnswer(cfg: Config, s: System)
    requires AtEnd(cfg, s) && s.down != [] && s.down[0] != AckSyn
    ensures s.down == [AckTransEnd(true, s.reqCount.octets, s.reqCount.articles)]
    ensures s.res == ExpectCrf && s.up == [] && s.reqCount == s.resCount && AllAgreed(cfg, s)
  {
    hide AllAgreed, Total;
    var d := s.down;
    if s.res != ExpectCrf {
      AckTail(d);
    } else if |d| > 1 {
      AckTail(d[..|d| - 1]);
    }
  }

  lemma ReqEnded(cfg: Config, s: System)
    requires Inv(cfg, s) && s.down != [] && s.req.WaitEnd? && s.down[0] != AckSyn
    ensures Inv(cfg, ReqTakes(cfg, s))
  {
    hide T.Apply, Total, ReqTakes, ReqReply, AllAgreed, EventOf, ResState, AtEnd;
    EndAnswer(cfg, s);
    assert AllAgreed(cfg, s);
    ReqFinds(cfg, s);
    assert s.down[1..] == [] && [] + [Crf] == [Crf];
    ReplyEnd(cfg, s.(down := s.down[1..], reqState := T.Of02));
    AgreedSame(cfg, s, ReqTakes(cfg, s));
  }

  lemma ReqCloses(cfg: Config, s: System)
    requires Inv(cfg, s) && s.down != [] && s.req.WaitClose?
    ensures Inv(cfg, ReqTakes(cfg, s))
  {
    hide T.Apply, ReqTakes, ReqReply, AllAgreed, EventOf, ResState;
    ReqFinds(cfg, s);
    assert s.down[1..] == [] && [] + [Deselect] == [Deselect];
    ReplyClose(cfg, s.(down := s.down[1..], reqState := T.Sf03));
    AgreedSame(cfg, s, ReqTakes(cfg, s));
  }

  lemma ReqFinishes(cfg: Config, s: System)
    requires Inv(cfg, s) && s.down != [] && s.req.WaitDeselect?
    ensures Inv(cfg, ReqTakes(cfg, s))
  {
    hide T.Apply, ReqTakes, ReqSends, AllAgreed, EventOf, ResState;
    ReqFinds(cfg, s);
    assert s.down[1..] == [];
    AgreedSame(cfg, s, ReqTakes(cfg, s));
    AgreedMeans(cfg, ReqTakes(cfg, s));
  }

  lemma AgreedMeans(cfg: Config, s: System)
    ensures AllAgreed(cfg, s) ==> SyncAgreed(cfg, s)
  {
  }

  lemma KeepsReqTurn(cfg: Config, s: System)
    requires Inv(cfg, s) && s.down != []
    ensures Inv(cfg, ReqTakes(cfg, s))
  {
    match s.req {
      case AtStart =>
      case WaitConnect => ReqConnected(cfg, s);
      case WaitAnswer =>
        if cfg.accepted {
          ReqAnswered(cfg, s);
        } else {
          ReqRefused(cfg, s);
        }
      case WaitOpen => ReqOpened(cfg, s);
      case WaitStart => ReqStarting(cfg, s);
      case ReqSending => ReqAcknowledged(cfg, s);
      case ReqReceiving =>
        if s.down[0] == DtfEnd {
          ReqReadsEnd(cfg, s);
        } else {
          ReqReadsOn(cfg, s);
        }
      case WaitEnd =>
        if s.down[0] == AckSyn {
          ReqLateAck(cfg, s);
        } else {
          ReqEnded(cfg, s);
        }
      case WaitClose => ReqCloses(cfg, s);
      case WaitDeselect => ReqFinishes(cfg, s);
      case ReqDone =>
    }
  }

  // ---- the responder's turns ----

  // What each unit makes of a responder's state.

  lemma TakeConnect(cfg: Config, s: System)
    requires s.res == ExpectConnect && s.resState == T.Cn02B
    ensures ResReply(cfg, s, Connect(cfg.sync, cfg.resync))
         == s.(resAgreed := s.resAgreed.(sync := FinalSync(cfg), resync := FinalResync(cfg)), resState := T.Cn03,
               down := s.down + [Aconnect(FinalSync(cfg), FinalResync(cfg))], res := ExpectRequest)
  {
    hide T.Apply, ResSends, NegotiateSync;
    ResLocalSelect(cfg.write);
    var agreed := s.resAgreed.(sync := FinalSync(cfg), resync := FinalResync(cfg));
    ResSendsIs(s.(resAgreed := agreed), T.DoAccept, Aconnect(agreed.sync, agreed.resync), ExpectRequest, T.Cn03);
  }

  lemma TakeRequest(cfg: Config, s: System)
    requires s.res == ExpectRequest && s.resState == (if cfg.write then T.Sf01B else T.Sf02B)
    ensures var size := ResMaxEntity(cfg, cfg.maxEntity);
      ResReply(cfg, s, Request(cfg.maxEntity))
        == if cfg.accepted then
             s.(resAgreed := s.resAgreed.(maxEntity := size), resState := T.Sf03, down := s.down + [Answer(true, size)],
                res := ExpectOrf)
           else s.(resState := T.Cn03, down := s.down + [Answer(false, 0)])
  {
    hide T.Apply, ResSends, ResMaxEntity;
    ResLocalSelect(cfg.write);
    var size := ResMaxEntity(cfg, cfg.maxEntity);
    if cfg.accepted {
      ResSendsIs(s.(resAgreed := s.resAgreed.(maxEntity := size)), T.DoAccept, Answer(true, size), ExpectOrf, T.Sf03);
    } else {
      ResSendsIs(s, T.DoReject, Answer(false, 0), ExpectRequest, T.Cn03);
    }
  }

  lemma TakeOrf(cfg: Config, s: System)
    requires s.res == ExpectOrf && s.resState == T.Of01B
    ensures ResReply(cfg, s, Orf(cfg.compression))
         == s.(resAgreed := s.resAgreed.(compression := FinalCompression(cfg)), resState := T.Of02,
               down := s.down + [AckOrf(FinalCompression(cfg))], res := ExpectStart)
  {
    hide T.Apply, ResSends, NegotiateCompression;
    ResLocalSelect(cfg.write);
    var c := FinalCompression(cfg);
    ResSendsIs(s.(resAgreed := s.resAgreed.(compression := c)), T.DoAccept, AckOrf(c), ExpectStart, T.Of02);
  }

  lemma TakeStart(cfg: Config, s: System)
    requires s.res == ExpectStart && s.resState == (if cfg.write then T.Tde01B else T.Tdl01B)
    ensures ResReply(cfg, s, Start)
         == s.(resState := if cfg.write then T.Tde02B else T.Tdl02B, down := s.down + [AckStart],
               res := if cfg.write then ResReceiving else ResSending)
  {
    hide T.Apply, ResSends;
    ResLocalStart(cfg.write);
    ResSendsIs(s, T.DoAccept, AckStart, if cfg.write then ResReceiving else ResSending,
               if cfg.write then T.Tde02B else T.Tdl02B);
  }

  lemma TakePoint(cfg: Config, s: System)
    requires s.res == ResReceiving && s.resState == T.Tde02B
    ensures ResReply(cfg, s, Syn) == if Acks(s.resAgreed) then s.(down := s.down + [AckSyn]) else s
  {
    hide T.Apply, ResSends;
    ResLocalData();
    ResSendsIs(s, T.DoAccept, AckSyn, ResReceiving, T.Tde02B);
  }

  lemma TakeEnd(cfg: Config, s: System)
    requires s.res == ExpectEnd && s.resState == (if cfg.write then T.Tde08B else T.Tdl08B)
    ensures ResReply(cfg, s, TransEnd(s.resCount.octets, s.resCount.articles))
         == s.(resState := T.Of02, down := s.down + [AckTransEnd(true, s.resCount.octets, s.resCount.articles)],
               res := ExpectCrf)
  {
    hide T.Apply, ResSends;
    ResLocalEnd(cfg.write);
    ResSendsIs(s, T.DoAccept, AckTransEnd(true, s.resCount.octets, s.resCount.articles), ExpectCrf, T.Of02);
  }

  lemma TakeClose(cfg: Config, s: System)
    ensures s.res == ExpectCrf && s.resState == T.Of03B ==>
      ResReply(cfg, s, Crf) == s.(resState := T.Sf03, down := s.down + [AckCrf], res := ExpectDeselect)
    ensures s.res == ExpectDeselect && s.resState == T.Sf04B ==>
      ResReply(cfg, s, Deselect) == s.(resState := T.Cn03, down := s.down + [AckDeselect], res := ExpectRequest)
  {
    hide T.Apply, ResSends;
    ResLocalEnd(cfg.write);
    if s.res == ExpectCrf && s.resState == T.Of03B {
      ResSendsIs(s, T.DoAccept, AckCrf, ExpectDeselect, T.Sf03);
    }
    if s.res == ExpectDeselect && s.resState == T.Sf04B {
      ResSendsIs(s, T.DoAccept, AckDeselect, ExpectRequest, T.Cn03);
    }
  }

  lemma ResOpens(cfg: Config, s: System)
    requires Inv(cfg, s) && s.up != [] && (s.req.WaitConnect? || s.req.WaitAnswer? || s.req.WaitOpen?)
    ensures Inv(cfg, ResTakes(cfg, s))
  {
    hide T.Apply, ResReply, ResTakes, NegotiateSync, NegotiateCompression, ResMaxEntity, ReqMaxEntity, ReqState, EventOf;
    ResFinds(cfg, s);
    var mid := s.(up := s.up[1..], resState := ResMid(cfg.write, s.res, s.up[0]).value);
    assert s.up[1..] == [];
    if s.req.WaitConnect? {
      TakeConnect(cfg, mid);
    } else if s.req.WaitOpen? {
      TakeOrf(cfg, mid);
    } else {
      TakeRequest(cfg, mid);
    }
    var t := ResTakes(cfg, s);
    assert t.down == [t.down[0]];
  }

  lemma ResStarts(cfg: Config, s: System)
    requires Inv(cfg, s) && s.up != [] && s.req.WaitStart?
    ensures Inv(cfg, ResTakes(cfg, s))
  {
    hide T.Apply, ResReply, ResTakes, AllAgreed, Total, EventOf, ReqState;
    ResFinds(cfg, s);
    assert s.up[1..] == [] && [] + [AckStart] == [AckStart] && [AckStart][1..] == [];
    TakeStart(cfg, s.(up := s.up[1..], resState := ResMid(cfg.write, s.res, s.up[0]).value));
    TotalNothing(Count(0, 0));
    AgreedSame(cfg, s, ResTakes(cfg, s));
  }

  lemma StreamTail(ms: seq<Msg>)
    requires ms != [] && Stream(ms)
    ensures ms[0] == Syn || (ms[0].Data? && ms[0].kind.IsData())
    ensures Stream(ms[1..])
  {
    assert ms[0] in ms;
    assert forall m :: m in ms[1..] ==> m in ms;
  }

  /** Data and points of a written transfer, while the requester still sends. */
  lemma ResReads(cfg: Config, s: System)
    requires Inv(cfg, s) && s.up != [] && s.req.ReqSending?
    ensures Inv(cfg, ResTakes(cfg, s))
  {
    hide T.Apply, ResSends, ResTakes, AllAgreed;
    StreamTail(s.up);
    ResFinds(cfg, s);
    TakePoint(cfg, s.(up := s.up[1..], resState := T.Tde02B));
    AckSnoc(s.down);
    AgreedSame(cfg, s, ResTakes(cfg, s));
  }

  /** The same, once the requester has sent the end. */
  lemma ResReadsEnding(cfg: Config, s: System)
    requires Inv(cfg, s) && s.up != [] && s.req.WaitEnd? && s.res == ResReceiving
    ensures Inv(cfg, ResTakes(cfg, s))
  {
    hide T.Apply, ResSends, ResTakes, AllAgreed;
    var u, t := s.up, ResTakes(cfg, s);
    var ahead := u[..|u| - 2];
    if ahead == [] {
      assert u[0] == DtfEnd && u[1..] == [u[1]];
    } else {
      assert ahead[0] == u[0];
      StreamTail(ahead);
      assert u[1..][..|u| - 3] == ahead[1..];
      TakePoint(cfg, s.(up := u[1..], resState := T.Tde02B));
      AckSnoc(s.down);
    }
    ResFinds(cfg, s);
    AgreedSame(cfg, s, t);
  }

  /** Acknowledgements of a read transfer, on time or late. */
  lemma ResAcknowledged(cfg: Config, s: System)
    requires Inv(cfg, s) && s.up != [] && s.up[0] == AckSyn && !cfg.write
    ensures Inv(cfg, ResTakes(cfg, s))
  {
    hide T.Apply, AllAgreed, Total, Stream, Reading, ReqState;
    var u, t := s.up, ResTakes(cfg, s);
    LateAckIgnoredByServer();
    if s.res == ResSending {
      ResTable(false, ResSending, AckSyn);
    }
    AgreedSame(cfg, s, t);
    if s.req.WaitEnd? {
      assert |u| > 1;
      assert u[1..][..|u| - 2] == u[..|u| - 1][1..];
      AckTail(u[..|u| - 1]);
    } else {
      AckTail(u);
      ReadingSame(s, t, s.down);
    }
  }

  lemma EndPlaced(cfg: Config, s: System, t: System)
    requires AtEnd(cfg, s) && s.res == ExpectEnd && |s.up| == 1
    requires t == s.(up := [], res := ExpectCrf, resState := t.resState,
                     down := s.down + [AckTransEnd(true, s.resCount.octets, s.resCount.articles)])
    ensures AtEnd(cfg, t)
  {
    hide Total, AllAgreed;
    assert t.down[..|s.down|] == s.down;
    AgreedSame(cfg, s, t);
  }

  lemma EndRequest(cfg: Config, s: System)
    requires AtEnd(cfg, s) && s.res == ExpectEnd && s.up != [] && s.up[0] != AckSyn
    ensures s.up == [TransEnd(s.resCount.octets, s.resCount.articles)]
  {
    hide AllAgreed, Total;
    if !cfg.write && |s.up| > 1 {
      AckTail(s.up[..|s.up| - 1]);
    }
  }

  lemma ResEnds(cfg: Config, s: System)
    requires Inv(cfg, s) && s.up != [] && s.req.WaitEnd? && s.res == ExpectEnd && s.up[0] != AckSyn
    ensures Inv(cfg, ResTakes(cfg, s))
  {
    hide T.Apply, ResReply, ResTakes, AtEnd, EventOf, ReqState;
    EndRequest(cfg, s);
    ResFinds(cfg, s);
    TakeEnd(cfg, s.(up := s.up[1..], resState := ResMid(cfg.write, ExpectEnd, s.up[0]).value));
    assert s.up[1..] == [];
    EndPlaced(cfg, s, ResTakes(cfg, s));
  }

  lemma ResCloses(cfg: Config, s: System)
    requires Inv(cfg, s) && s.up != [] && (s.req.WaitClose? || s.req.WaitDeselect?)
    ensures Inv(cfg, ResTakes(cfg, s))
  {
    hide T.Apply, ResReply, ResTakes, AllAgreed, EventOf, ReqState;
    ResFinds(cfg, s);
    assert s.up[1..] == [] && [] + [AckCrf] == [AckCrf] && [] + [AckDeselect] == [AckDeselect];
    TakeClose(cfg, s.(up := s.up[1..], resState := ResMid(cfg.write, s.res, s.up[0]).value));
    AgreedSame(cfg, s, ResTakes(cfg, s));
  }

  lemma KeepsResTurn(cfg: Config, s: System)
    requires Inv(cfg, s) && s.up != []
    ensures Inv(cfg, ResTakes(cfg, s))
  {
    match s.req {
      case AtStart =>
      case WaitConnect => ResOpens(cfg, s);
      case WaitAnswer => ResOpens(cfg, s);
      case WaitOpen => ResOpens(cfg, s);
      case WaitStart => ResStarts(cfg, s);
      case ReqSending => ResReads(cfg, s);
      case ReqReceiving =>
        AckTail(s.up);
        ResAcknowledged(cfg, s);
      case WaitEnd =>
        if s.res == ResReceiving {
          ResReadsEnding(cfg, s);
        } else if s.up[0] == AckSyn && !cfg.write {
          ResAcknowledged(cfg, s);
        } else {
          ResEnds(cfg, s);
        }
      case WaitClose => ResCloses(cfg, s);
      case WaitDeselect => ResCloses(cfg, s);
      case ReqDone =>
    }
  }

  // ---- the sending side's own moves ----

  lemma StreamSnoc(ms: seq<Msg>, m: Msg)
    requires Stream(ms) && (m == Syn || (m.Data? && m.kind.IsData()))
    ensures Stream(ms + [m])
  {
  }

  lemma KeepsReqSend(cfg: Config, s: System, m: Msg)
    requires Inv(cfg, s) && s.req == ReqSending && (m == Syn || (m.Data? && m.kind.IsData()))
    ensures Inv(cfg, Step(cfg, s, if m == Syn then SendPoint else SendUnit(m)))
  {
    hide T.Apply, ReqSends, AllAgreed, Total;
    ReqLocalData();
    TotalSnoc(s.resCount, s.up, m);
    StreamSnoc(s.up, m);
    if m == Syn {
      ReqSendsIs(s, T.DoSync, m, ReqSending, T.Tde02A);
    } else {
      ReqSendsIs(s.(reqCount := Plus(s.reqCount, m)), T.DoSendData, m, ReqSending, T.Tde02A);
    }
    AgreedSame(cfg, s, Step(cfg, s, if m == Syn then SendPoint else SendUnit(m)));
  }

  lemma LastPlaced(cfg: Config, s: System, t: System)
    requires AtWriting(cfg, s)
    requires t == s.(req := WaitEnd, reqState := t.reqState,
                     up := s.up + [DtfEnd] + [TransEnd(s.reqCount.octets, s.reqCount.articles)])
    ensures AtEnd(cfg, t)
  {
    hide Total, AllAgreed;
    assert t.up[..|s.up|] == s.up;
    AgreedSame(cfg, s, t);
  }

  lemma KeepsReqLast(cfg: Config, s: System)
    requires Inv(cfg, s) && s.req == ReqSending
    ensures Inv(cfg, Step(cfg, s, SendLast))
  {
    hide T.Apply, ReqSends, AllAgreed, Total, AtEnd;
    ReqLocalData();
    var final := TransEnd(s.reqCount.octets, s.reqCount.articles);
    ReqSendsIs(s, T.DoDataEnd, DtfEnd, ReqSending, T.Tde07A);
    var t := s.(reqState := T.Tde07A, up := s.up + [DtfEnd]);
    ReqSendsIs(t, T.DoTransferEnd, final, WaitEnd, T.Tde08A);
    LastPlaced(cfg, s, Step(cfg, s, SendLast));
  }

  /** What a responder that reads the file out adds to what is on its way. */
  lemma ReadingSnoc(s: System, t: System, down: seq<Msg>, m: Msg)
    requires s.res == ResSending && Reading(s, down) && t.reqCount == s.reqCount
    requires m == Syn || m == DtfEnd || (m.Data? && m.kind.IsData())
    requires t.resCount == if m.Data? then Plus(s.resCount, m) else s.resCount
    requires t.res == if m == DtfEnd then ExpectEnd else ResSending
    ensures Reading(t, down + [m])
  {
    TotalSnoc(s.reqCount, down, m);
    if m == DtfEnd {
      assert (down + [m])[..|down|] == down;
    } else {
      StreamSnoc(down, m);
    }
  }

  /** The responder's move, whichever it is. */
  lemma ResSent(cfg: Config, s: System, t: System, m: Msg)
    requires Inv(cfg, s) && s.req != ReqSending && s.res == ResSending
    requires m == Syn || m == DtfEnd || (m.Data? && m.kind.IsData())
    requires t == s.(resCount := if m.Data? then Plus(s.resCount, m) else s.resCount, down := s.down + [m],
                     res := if m == DtfEnd then ExpectEnd else ResSending,
                     resState := if m == DtfEnd then T.Tdl07B else T.Tdl02B)
    ensures Inv(cfg, t)
  {
    hide T.Apply, AllAgreed, Total, Reading;
    AgreedSame(cfg, s, t);
    if s.req == WaitStart {
      assert (s.down + [m])[1..] == s.down[1..] + [m];
      ReadingSnoc(s, t, s.down[1..], m);
    } else {
      ReadingSnoc(s, t, s.down, m);
    }
  }

  lemma KeepsResSend(cfg: Config, s: System, m: Msg, a: Action)
    requires Inv(cfg, s) && s.req != ReqSending && s.res == ResSending
    requires a == if m == Syn then SendPoint else if m == DtfEnd then SendLast else SendUnit(m)
    requires m == Syn || m == DtfEnd || (m.Data? && m.kind.IsData())
    ensures Inv(cfg, Step(cfg, s, a))
  {
    hide T.Apply, ResSends, Placed;
    ResLocalData();
    if m == Syn {
      ResSendsIs(s, T.DoSync, m, ResSending, T.Tdl02B);
    } else if m == DtfEnd {
      ResSendsIs(s, T.DoDataEnd, m, ExpectEnd, T.Tdl07B);
    } else {
      ResSendsIs(s.(resCount := Plus(s.resCount, m)), T.DoSendData, m, ResSending, T.Tdl02B);
    }
    ResSent(cfg, s, Step(cfg, s, a), m);
  }

  lemma KeepsStep(cfg: Config, s: System, a: Action)
    requires Inv(cfg, s)
    ensures Inv(cfg, Step(cfg, s, a))
  {
    if s.req == ReqSending || s.res == ResSending {
      Exclusive(cfg, s);
    }
    hide Inv, ReqTakes, ResTakes, ReqSends, ResSends;
    match a {
      case Begin =>
        if s.req == AtStart {
          KeepsBegin(cfg, s);
        }
      case ReqTurn =>
        if s.down != [] {
          KeepsReqTurn(cfg, s);
        }
      case ResTurn =>
        if s.up != [] {
          KeepsResTurn(cfg, s);
        }
      case SendUnit(m) =>
        if m.Data? && m.kind.IsData() {
          if s.req == ReqSending {
            KeepsReqSend(cfg, s, m);
          } else if s.res == ResSending {
            KeepsResSend(cfg, s, m, a);
          }
        }
      case SendPoint =>
        if s.req == ReqSending {
          KeepsReqSend(cfg, s, Syn);
        } else if s.res == ResSending {
          KeepsResSend(cfg, s, Syn, a);
        }
      case SendLast =>
        if s.req == ReqSending {
          KeepsReqLast(cfg, s);
        } else if s.res == ResSending {
          KeepsResSend(cfg, s, DtfEnd, a);
        }
    }
  }

  lemma Exclusive(cfg: Config, s: System)
    requires Inv(cfg, s)
    ensures s.req == ReqSending ==> s.res != ResSending
  {
  }

  lemma {:induction false} RunKeeps(cfg: Config, actions: seq<Action>)
    ensures Inv(cfg, Session.Run(cfg, actions))
  {
    if actions != [] {
      hide Inv, Step;
      RunKeeps(cfg, actions[..|actions| - 1]);
      KeepsStep(cfg, Session.Run(cfg, actions[..|actions| - 1]), actions[|actions| - 1]);
    }
  }

  // ---- the theorems ----

  /** In every run of an attempt no automaton ever refuses an event and no unexpected FPDU comes; and when the
      requester is done, both are connected again, nothing is left on the link, the counters agree, and, the file
      accepted, so do synchronisation, resynchronisation and compression. */
  lemma {:induction false} AttemptIsSafe(cfg: Config, actions: seq<Action>)
    ensures var s := Session.Run(cfg, actions);
      && !s.broken
      && (s.req == ReqDone ==>
            && s.reqState == T.Cn03 && s.resState == T.Cn03 && s.up == [] && s.down == []
            && s.reqCount == s.resCount
            && s.reqAgreed.sync == s.resAgreed.sync && s.reqAgreed.resync == s.resAgreed.resync
            && (cfg.accepted ==> s.reqAgreed.compression == s.resAgreed.compression))
  {
    RunKeeps(cfg, actions);
  }

  /** The two sides settle on the same entity size exactly when the requester asks for at least one octet of data
      or for no less than the server admits. */
  lemma SizesAgree(cfg: Config)
    ensures ReqMaxEntity(cfg, ResMaxEntity(cfg, cfg.maxEntity)) == ResMaxEntity(cfg, cfg.maxEntity)
       <==> cfg.maxEntity >= 7 || cfg.acceptMaxEntity <= cfg.maxEntity
  {
  }

  /** The size a server settles on: what was asked, but at least one octet of data and at most what it admits. */
  function Settled(asked: nat, admitted: nat): nat
  {
    if admitted <= 7 || admitted <= asked then admitted else if asked <= 7 then 7 else asked
  }

  lemma SettledSizes(cfg: Config)
    ensures ResMaxEntity(cfg, cfg.maxEntity) == Settled(cfg.maxEntity, cfg.acceptMaxEntity)
    ensures var n := ReqMaxEntity(cfg, ResMaxEntity(cfg, cfg.maxEntity));
      n == if Settled(cfg.maxEntity, cfg.acceptMaxEntity) <= cfg.maxEntity then Settled(cfg.maxEntity, cfg.acceptMaxEntity)
           else cfg.maxEntity
  {
  }

  lemma DataMeansAgreed(cfg: Config, s: System)
    requires Inv(cfg, s)
    requires s.req == ReqSending || s.req == ReqReceiving || s.res == ResSending || s.res == ResReceiving
    ensures AllAgreed(cfg, s)
  {
    hide T.Apply, AllAgreed, Total, Reading, ReqState, ResState;
  }

  /** From the start of the data phase on, the two sides work with the same parameters. */
  lemma {:induction false} AgreedDuringData(cfg: Config, actions: seq<Action>)
    ensures var s := Session.Run(cfg, actions);
      s.req == ReqSending || s.req == ReqReceiving || s.res == ResSending || s.res == ResReceiving ==>
        && s.reqAgreed.sync == s.resAgreed.sync == NegotiateSync(OnWire(cfg.sync), cfg.acceptSync)
        && s.reqAgreed.resync == s.resAgreed.resync == (cfg.resync && cfg.acceptResync)
        && s.reqAgreed.compression == s.resAgreed.compression
             == NegotiateCompression(cfg.compression, cfg.acceptCompression)
        && s.resAgreed.maxEntity == Settled(cfg.maxEntity, cfg.acceptMaxEntity)
        && s.reqAgreed.maxEntity == Min(s.resAgreed.maxEntity, cfg.maxEntity)
        && (s.reqAgreed.maxEntity == s.resAgreed.maxEntity <==> cfg.maxEntity >= 7 || cfg.acceptMaxEntity <= cfg.maxEntity)
  {
    RunKeeps(cfg, actions);
    SettledSizes(cfg);
    hide Session.Run, Settled, NegotiateSync, NegotiateCompression, ReqMaxEntity, ResMaxEntity, Placed;
    var s := Session.Run(cfg, actions);
    SizesAgree(cfg);
    if s.req == ReqSending || s.req == ReqReceiving || s.res == ResSending || s.res == ResReceiving {
      DataMeansAgreed(cfg, s);
    }
  }

  /** An attempt never stops short of its end: something is on its way, or somebody is about to send. */
  lemma {:induction false} AttemptGoesOn(cfg: Config, actions: seq<Action>)
    ensures var s := Session.Run(cfg, actions);
      s.req == ReqDone || s.req == AtStart || s.up != [] || s.down != [] || s.req == ReqSending || s.res == ResSending
  {
    RunKeeps(cfg, actions);
  }
}
