/** One transfer attempt between a requester and a responder over a FIFO link: negotiation, file selection,
    data phase, end of transfer, with both automata stepped by every unit sent and received. */
module Session {
  import opened Bytes
  import opened Params
  import F = Fpdu
  import T = StateTable

  // ---- what travels ----

  /** FPDUs of an attempt with the parameters both sides act on. */
  datatype Msg =
    | Connect(sync: SyncOption, resync: bool)
    | Aconnect(sync: SyncOption, resync: bool)
    | Request(maxEntity: nat)
    | Answer(ok: bool, maxEntity: nat)
    | Orf(compression: Compression)
    | AckOrf(compression: Compression)
    | Start
    | AckStart
    | Data(kind: F.FpduKind, octets: nat, articles: nat)
    | Syn
    | AckSyn
    | DtfEnd
    | TransEnd(octets: nat, articles: nat)
    | AckTransEnd(ok: bool, octets: nat, articles: nat)
    | Crf
    | AckCrf
    | Deselect
    | AckDeselect

  /** The kind of an FPDU, the file being written (CREATE, WRITE) or read (SELECT, READ) by the requester. */
  function KindOf(write: bool, m: Msg): F.FpduKind
  {
    match m
    case Connect(_, _) => F.Connect
    case Aconnect(_, _) => F.Aconnect
    case Request(_) => if write then F.Create else F.Select
    case Answer(_, _) => if write then F.AckCreate else F.AckSelect
    case Orf(_) => F.Orf
    case AckOrf(_) => F.AckOrf
    case Start => if write then F.Write else F.Read
    case AckStart => if write then F.AckWrite else F.AckRead
    case Data(k, _, _) => k
    case Syn => F.Syn
    case AckSyn => F.AckSyn
    case DtfEnd => F.DtfEnd
    case TransEnd(_, _) => F.TransEnd
    case AckTransEnd(_, _, _) => F.AckTransEnd
    case Crf => F.Crf
    case AckCrf => F.AckCrf
    case Deselect => F.Deselect
    case AckDeselect => F.AckDeselect
  }

  /** The event an FPDU is: acknowledgements with a diagnostic are negative. */
  function EventOf(write: bool, m: Msg): T.Event
  {
    T.Received(KindOf(write, m), (m.Answer? && !m.ok) || (m.AckTransEnd? && !m.ok))
  }

  // ---- the parties ----

  datatype Config = Config(write: bool, sync: SyncOption, resync: bool, compression: Compression, maxEntity: nat,
                           acceptSync: SyncOption, acceptResync: bool, acceptCompression: Compression,
                           acceptMaxEntity: nat, accepted: bool)

  datatype Agreed = Agreed(sync: SyncOption, resync: bool, compression: Compression, maxEntity: nat)

  const NOTHING_AGREED: Agreed := Agreed(NO_SYNC, false, NoCompression, 0)

  datatype ReqPc =
    | AtStart | WaitConnect | WaitAnswer | WaitOpen | WaitStart | ReqSending | ReqReceiving | WaitEnd | WaitClose
    | WaitDeselect | ReqDone

  datatype ResPc =
    | ExpectConnect | ExpectRequest | ExpectOrf | ExpectStart | ResReceiving | ResSending | ExpectEnd | ExpectCrf
    | ExpectDeselect

  /** Octets and articles counted by one side. */
  datatype Count = Count(octets: nat, articles: nat)

  datatype System = System(broken: bool, req: ReqPc, reqState: T.State, reqAgreed: Agreed, reqCount: Count,
                           res: ResPc, resState: T.State, resAgreed: Agreed, resCount: Count,
                           up: seq<Msg>, down: seq<Msg>)

  const INITIAL: System :=
    System(false, AtStart, T.Cn01, NOTHING_AGREED, Count(0, 0),
           ExpectConnect, T.Cn01, NOTHING_AGREED, Count(0, 0), [], [])

  function Broken(s: System): System { s.(broken := true) }

  /** Acknowledged points: the window is open or the option was not agreed. */
  predicate Acks(a: Agreed) { a.sync.window != 0 || !a.sync.Enabled() }

  function Plus(c: Count, m: Msg): Count
    requires m.Data?
  {
    Count(c.octets + m.octets, c.articles + m.articles)
  }

  /** Octets and articles announced against those counted. */
  predicate CountsMatch(c: Count, octets: nat, articles: nat) { octets == c.octets && articles == c.articles }

  // ---- the requester ----

  /** Apply a local event and send; a refused event breaks the attempt. */
  function ReqSends(s: System, q: T.Request, m: Msg, pc: ReqPc): System
  {
    match T.Apply(s.reqState, T.Local(q))
    case Next(t) => s.(reqState := t, up := s.up + [m], req := pc)
    case Ignore => s.(up := s.up + [m], req := pc)
    case Refuse => Broken(s)
  }

  /** The entity size the requester keeps: the smaller of what it asked and what was answered. */
  function ReqMaxEntity(cfg: Config, answered: nat): nat { Min(answered, cfg.maxEntity) }

  /** The requester's loops for what it waits for: the answer expected moves it on, one the automaton ignores is
      dropped, any other breaks the attempt. */
  function ReqTakes(cfg: Config, s: System): System
    requires s.down != []
  {
    var m, t := s.down[0], s.(down := s.down[1..]);
    match T.Apply(s.reqState, EventOf(cfg.write, m))
    case Refuse => Broken(t)
    case Ignore => t
    case Next(state) => ReqReply(cfg, t.(reqState := state), m)
  }

  function ReqReply(cfg: Config, s: System, m: Msg): System
  {
    match (s.req, m)
    case (WaitConnect, Aconnect(sync, resync)) =>
      var agreed := s.reqAgreed.(sync := NegotiateSync(cfg.sync, if sync.Enabled() then sync else NO_SYNC),
                                 resync := cfg.resync && resync);
      ReqSends(s.(reqAgreed := agreed), if cfg.write then T.DoCreate else T.DoSelect, Request(cfg.maxEntity),
               WaitAnswer)
    case (WaitAnswer, Answer(ok, size)) =>
      if !ok then s.(req := ReqDone)
      else
        ReqSends(s.(reqAgreed := s.reqAgreed.(maxEntity := ReqMaxEntity(cfg, size))), T.DoOpen, Orf(cfg.compression),
                 WaitOpen)
    case (WaitOpen, AckOrf(c)) =>
      ReqSends(s.(reqAgreed := s.reqAgreed.(compression := NegotiateCompression(cfg.compression, c))),
               if cfg.write then T.DoWrite else T.DoRead, Start, WaitStart)
    case (WaitStart, AckStart) => s.(req := if cfg.write then ReqSending else ReqReceiving)
    case (ReqSending, AckSyn) => s
    case (ReqReceiving, Data(_, _, _)) => s.(reqCount := Plus(s.reqCount, m))
    case (ReqReceiving, Syn) => if Acks(s.reqAgreed) then ReqSends(s, T.DoAccept, AckSyn, ReqReceiving) else s
    case (ReqReceiving, DtfEnd) =>
      ReqSends(s, T.DoTransferEnd, TransEnd(s.reqCount.octets, s.reqCount.articles), WaitEnd)
    case (WaitEnd, AckTransEnd(ok, octets, articles)) =>
      if ok && !CountsMatch(s.reqCount, octets, articles) then Broken(s) else ReqSends(s, T.DoClose, Crf, WaitClose)
    case (WaitClose, AckCrf) => ReqSends(s, T.DoDeselect, Deselect, WaitDeselect)
    case (WaitDeselect, AckDeselect) => s.(req := ReqDone)
    case _ => Broken(s)
  }

  // ---- the responder ----

  function ResSends(s: System, q: T.Request, m: Msg, pc: ResPc): System
  {
    match T.Apply(s.resState, T.Local(q))
    case Next(t) => s.(resState := t, down := s.down + [m], res := pc)
    case Ignore => s.(down := s.down + [m], res := pc)
    case Refuse => Broken(s)
  }

  /** The entity size the server answers: at least one octet of data, at most its own. */
  function ResMaxEntity(cfg: Config, asked: nat): nat { Min(Max(asked, F.HEADER_LEN + 1), cfg.acceptMaxEntity) }

  function ResTakes(cfg: Config, s: System): System
    requires s.up != []
  {
    var m, t := s.up[0], s.(up := s.up[1..]);
    match T.Apply(s.resState, EventOf(cfg.write, m))
    case Refuse => Broken(t)
    case Ignore => t
    case Next(state) => ResReply(cfg, t.(resState := state), m)
  }

  function ResReply(cfg: Config, s: System, m: Msg): System
  {
    match (s.res, m)
    case (ExpectConnect, Connect(sync, resync)) =>
      var agreed := s.resAgreed.(sync := NegotiateSync(if sync.Enabled() then sync else NO_SYNC, cfg.acceptSync),
                                 resync := resync && cfg.acceptResync);
      ResSends(s.(resAgreed := agreed), T.DoAccept, Aconnect(agreed.sync, agreed.resync), ExpectRequest)
    case (ExpectRequest, Request(asked)) =>
      var size := ResMaxEntity(cfg, asked);
      if cfg.accepted then
        ResSends(s.(resAgreed := s.resAgreed.(maxEntity := size)), T.DoAccept, Answer(true, size), ExpectOrf)
      else ResSends(s, T.DoReject, Answer(false, 0), ExpectRequest)
    case (ExpectOrf, Orf(c)) =>
      var agreed := NegotiateCompression(c, cfg.acceptCompression);
      ResSends(s.(resAgreed := s.resAgreed.(compression := agreed)), T.DoAccept, AckOrf(agreed), ExpectStart)
    case (ExpectStart, Start) => ResSends(s, T.DoAccept, AckStart, if cfg.write then ResReceiving else ResSending)
    case (ResReceiving, Data(_, _, _)) => s.(resCount := Plus(s.resCount, m))
    case (ResReceiving, Syn) => if Acks(s.resAgreed) then ResSends(s, T.DoAccept, AckSyn, ResReceiving) else s
    case (ResReceiving, DtfEnd) => s.(res := ExpectEnd)
    case (ResSending, AckSyn) => s
    case (ExpectEnd, TransEnd(octets, articles)) =>
      ResSends(s, T.DoAccept,
               AckTransEnd(CountsMatch(s.resCount, octets, articles), s.resCount.octets, s.resCount.articles),
               ExpectCrf)
    case (ExpectCrf, Crf) => ResSends(s, T.DoAccept, AckCrf, ExpectDeselect)
    case (ExpectDeselect, Deselect) => ResSends(s, T.DoAccept, AckDeselect, ExpectRequest)
    case _ => Broken(s)
  }

  // ---- steps ----

  datatype Action = Begin | ReqTurn | ResTurn | SendUnit(m: Msg) | SendPoint | SendLast

  /** The sending side's own moves, and the two sides' taking of what has arrived. */
  function Step(cfg: Config, s: System, a: Action): System
  {
    match a
    case Begin =>
      if s.req == AtStart then ReqSends(s, T.DoConnect, Connect(cfg.sync, cfg.resync), WaitConnect) else s
    case ReqTurn => if s.down != [] then ReqTakes(cfg, s) else s
    case ResTurn => if s.up != [] then ResTakes(cfg, s) else s
    case SendUnit(m) =>
      if !m.Data? || !m.kind.IsData() then s
      else if s.req == ReqSending then
        ReqSends(s.(reqCount := Plus(s.reqCount, m)), T.DoSendData, m, ReqSending)
      else if s.res == ResSending then ResSends(s.(resCount := Plus(s.resCount, m)), T.DoSendData, m, ResSending)
      else s
    case SendPoint =>
      if s.req == ReqSending then ReqSends(s, T.DoSync, Syn, ReqSending)
      else if s.res == ResSending then ResSends(s, T.DoSync, Syn, ResSending)
      else s
    case SendLast =>
      if s.req == ReqSending then
        var t := ReqSends(s, T.DoDataEnd, DtfEnd, ReqSending);
        ReqSends(t, T.DoTransferEnd, TransEnd(t.reqCount.octets, t.reqCount.articles), WaitEnd)
      else if s.res == ResSending then ResSends(s, T.DoDataEnd, DtfEnd, ExpectEnd)
      else s
  }

  function Run(cfg: Config, actions: seq<Action>): System
  {
    if actions == [] then INITIAL
    else Step(cfg, Run(cfg, actions[..|actions| - 1]), actions[|actions| - 1])
  }
}
