/** The data phase: two parties over two queues, with points, a window, resynchronisation and restarts. */
module DataPhase {
  import opened Bytes
  import opened Params
  import opened Cutter
  import opened Compressors
  import opened Checkpoints
  import opened Canon
  import opened FileIo
  import F = Fpdu
  import A = Articles

  // ---- protocol data units ----

  datatype Pdu = Data(f: F.Fpdu) | Syn(n: nat) | AckSyn(n: nat) | Resyn(n: nat) | AckResyn(n: nat) | DtfEnd

  predicate Numbered(p: Pdu) { p.Syn? || p.AckSyn? || p.Resyn? || p.AckResyn? }

  /** PI 18 and PI 20 hold three octets. */
  const MAX_SYNC_NUMBER: nat := 0x100_0000

  /** A unit the strict decoder refuses: its number takes more than three octets. */
  predicate TooHigh(p: Pdu) { Numbered(p) && p.n >= MAX_SYNC_NUMBER }

  /** A unit on its way; damage shows in its check bytes. */
  datatype Packet = Packet(pdu: Pdu, damaged: bool)

  function Datas(fs: seq<F.Fpdu>): (r: seq<Pdu>)
    ensures |r| == |fs|
  {
    if fs == [] then [] else [Data(fs[0])] + Datas(fs[1..])
  }

  function Sound(ps: seq<Pdu>): (r: seq<Packet>)
    ensures |r| == |ps|
  {
    if ps == [] then [] else [Packet(ps[0], false)] + Sound(ps[1..])
  }

  function Pdus(ps: seq<Packet>): (r: seq<Pdu>)
    ensures |r| == |ps|
  {
    if ps == [] then [] else [ps[0].pdu] + Pdus(ps[1..])
  }

  /** Encoded lengths: a header, PI 20 or PI 18 with a minimal number, PI 2 of three octets. */
  function PduLen(p: Pdu): nat
  {
    match p
    case Data(f) => F.EncodedLen(f)
    case DtfEnd => F.HEADER_LEN + 5
    case Resyn(n) => F.HEADER_LEN + 5 + 2 + NumLen(n)
    case Syn(n) => F.HEADER_LEN + 2 + NumLen(n)
    case AckSyn(n) => F.HEADER_LEN + 2 + NumLen(n)
    case AckResyn(n) => F.HEADER_LEN + 2 + NumLen(n)
  }

  function NumLen(n: nat): nat { if n < 0x100 then 1 else 1 + NumLen(n / 0x100) }

  // ---- the entity being built ----

  datatype ShipOp = Put(p: Pdu) | PutAndSend(p: Pdu) | SendIfFull

  function Size(cfg: Config, entity: seq<Pdu>): nat
  {
    if entity == [] then 0
    else Size(cfg, entity[..|entity| - 1]) + PduLen(entity[|entity| - 1]) + (if cfg.crc then 2 else 0)
  }

  function Room(cfg: Config, entity: seq<Pdu>): int
  {
    if cfg.crc && entity != [] then 0 else cfg.packing.maxDtf - Size(cfg, entity)
  }

  /** What the entity and the queue become. */
  function Perform(cfg: Config, entity: seq<Pdu>, fwd: seq<Packet>, ops: seq<ShipOp>): (seq<Pdu>, seq<Packet>)
    decreases |ops|
  {
    if ops == [] then (entity, fwd)
    else
      match ops[0]
      case SendIfFull =>
        if Room(cfg, entity) < F.HEADER_LEN + 1 then Perform(cfg, [], fwd + Sound(entity), ops[1..])
        else Perform(cfg, entity, fwd, ops[1..])
      case Put(p) =>
        if PduLen(p) <= Room(cfg, entity) then Perform(cfg, entity + [p], fwd, ops[1..])
        else Perform(cfg, [p], fwd + Sound(entity), ops[1..])
      case PutAndSend(p) =>
        if PduLen(p) <= Room(cfg, entity) then Perform(cfg, [], fwd + Sound(entity + [p]), ops[1..])
        else Perform(cfg, [], fwd + Sound(entity) + Sound([p]), ops[1..])
  }

  function Puts(ps: seq<Pdu>): (r: seq<ShipOp>)
    ensures |r| == |ps|
  {
    if ps == [] then [] else [Put(ps[0])] + Puts(ps[1..])
  }

  function PdusOf(ops: seq<ShipOp>): seq<Pdu>
  {
    if ops == [] then [] else (if ops[0].SendIfFull? then [] else [ops[0].p]) + PdusOf(ops[1..])
  }

  // ---- the parties ----

  datatype SendPhase = SendIdle | Sending | Ended | SendFailed

  datatype Sender = Sender(phase: SendPhase, next: nat, offset: nat, dataBytes: nat, articles: nat, syncNo: nat,
                           since: nat, comp: SenderState, unacked: seq<nat>, pending: seq<seq<byte>>,
                           entity: seq<Pdu>, store: Store)

  datatype ReceivePhase = ReceiveIdle | Receiving | AwaitAck | Completed | ReceiveFailed

  datatype Receiver = Receiver(phase: ReceivePhase, file: seq<byte>, durable: seq<byte>, dataBytes: nat,
                               articles: nat, lastSync: nat, partial: A.Progress, reference: seq<byte>, store: Store)

  /** Both parties, the two queues and the point the attempt under way starts from. */
  datatype System = System(sender: Sender, receiver: Receiver, fwd: seq<Packet>, back: seq<Pdu>, start: Option<nat>)

  function Initial(cfg: Config): System
  {
    System(Sender(SendIdle, 0, 0, 0, 0, 0, 0, NewSender(cfg.compression, cfg.maxArticle), [], [], [], NO_POINTS),
           Receiver(ReceiveIdle, [], [], 0, 0, 0, None, [], NO_POINTS), [], [], None)
  }

  datatype Action =
    | BeginSender(p: nat)
    | BeginReceiver(p: nat)
    | SendArticle
    | FailAtSync
    | SendEnd
    | TakeBack
    | SenderFails
    | TakeForward
    | ReceiverFails
    | Damage(i: nat)
    | Lose(len: nat)
    | ForgetSender
    | ForgetReceiver

  // ---- sending ----

  function WireOut(cfg: Config, comp: SenderState, a: seq<byte>): seq<byte>
  {
    if cfg.compression == NoCompression then a else comp.WireOf(a)
  }

  /** The compressor, if there is one, after an article and at a point. */
  function CompSent(cfg: Config, comp: SenderState, a: seq<byte>): SenderState
  {
    if cfg.compression == NoCompression then comp else comp.Sent(a)
  }

  function CompAtSync(cfg: Config, comp: SenderState): SenderState
  {
    if cfg.compression == NoCompression then comp else comp.AtSync()
  }

  /** Room in the window for one more point. */
  predicate WindowOpen(cfg: Config, s: Sender)
  {
    cfg.sync.window == 0 || |s.unacked| < cfg.sync.window
  }

  predicate PointDue(cfg: Config, s: Sender)
    requires s.next < |cfg.arts|
  {
    Due(cfg, s.since, WireOut(cfg, s.comp, cfg.arts[s.next]))
  }

  /** The bookkeeping of a synchronisation point; the article is compressed once before it. */
  function AtPoint(cfg: Config, s: Sender): Sender
    requires s.next < |cfg.arts|
  {
    var n := s.syncNo + 1;
    s.(syncNo := n,
       store := s.store.Record(Checkpoint(n, s.offset, s.dataBytes, s.articles)),
       unacked := if cfg.sync.window > 0 then s.unacked + [n] else s.unacked,
       since := 0,
       pending := [],
       comp := CompAtSync(cfg, CompSent(cfg, s.comp, cfg.arts[s.next])))
  }

  function PointOps(cfg: Config, s: Sender): seq<ShipOp>
  {
    Puts(Datas(A.Flushed(cfg.packing, s.pending))) + [PutAndSend(Syn(s.syncNo + 1))]
  }

  /** The article after which `s` is left, and what it adds to the entity. */
  function WithArticle(cfg: Config, s: Sender): Sender
    requires s.next < |cfg.arts| && cfg.packing.Valid() && cfg.WellCut()
  {
    var a := cfg.arts[s.next];
    var w := WireOut(cfg, s.comp, a);
    s.(next := s.next + 1,
       offset := cfg.srcOff[s.next + 1],
       dataBytes := s.dataBytes + |w|,
       articles := s.articles + 1,
       since := s.since + |w|,
       pending := A.Pushed(cfg.packing, s.pending, w).0,
       comp := CompSent(cfg, s.comp, a))
  }

  function ArticleOps(cfg: Config, s: Sender): seq<ShipOp>
    requires s.next < |cfg.arts| && cfg.packing.Valid()
  {
    Puts(Datas(A.Pushed(cfg.packing, s.pending, WireOut(cfg, s.comp, cfg.arts[s.next])).1)) + [SendIfFull]
  }

  function Emit(cfg: Config, s: System, sender: Sender, ops: seq<ShipOp>): System
  {
    var (entity, fwd) := Perform(cfg, s.sender.entity, s.fwd, ops);
    s.(sender := sender.(entity := entity), fwd := fwd)
  }

  predicate CanSend(cfg: Config, s: System)
  {
    s.sender.phase == Sending && WindowOpen(cfg, s.sender)
  }

  /** One turn of the sending loop: a point when it is due, then the article. */
  function DoSendArticle(cfg: Config, s: System): System
    requires cfg.packing.Valid() && cfg.WellCut()
  {
    if !CanSend(cfg, s) || s.sender.next >= |cfg.arts| then s
    else if PointDue(cfg, s.sender) then
      var at := AtPoint(cfg, s.sender);
      Emit(cfg, s, WithArticle(cfg, at), PointOps(cfg, s.sender) + ArticleOps(cfg, at))
    else Emit(cfg, s, WithArticle(cfg, s.sender), ArticleOps(cfg, s.sender))
  }

  /** The sender stops between sending a SYN and recording its point. */
  function DoFailAtSync(cfg: Config, s: System): System
  {
    if !CanSend(cfg, s) || s.sender.next >= |cfg.arts| || !PointDue(cfg, s.sender) then s
    else SenderStops(Emit(cfg, s, s.sender, PointOps(cfg, s.sender)))
  }

  function DoSendEnd(cfg: Config, s: System): System
  {
    if !CanSend(cfg, s) || s.sender.next != |cfg.arts| then s
    else
      Emit(cfg, s, s.sender.(phase := Ended, pending := []),
           Puts(Datas(A.Flushed(cfg.packing, s.sender.pending))) + [PutAndSend(DtfEnd)])
  }

  function SenderStops(s: System): System
  {
    s.(sender := s.sender.(phase := SendFailed, entity := [], pending := []))
  }

  /** Points acknowledged up to `n` leave the queue. */
  function Popped(unacked: seq<nat>, n: nat): seq<nat>
  {
    if unacked != [] && unacked[0] <= n then Popped(unacked[1..], n) else unacked
  }

  /** The sender as it resumes from a point. */
  function ResumedAt(cfg: Config, s: Sender, cp: Checkpoint): Sender
    requires cfg.WellCut()
  {
    s.(next := Rewound(cfg, cp.fileOffset, 0), offset := cp.fileOffset, dataBytes := cp.dataBytes,
       articles := cp.articles, syncNo := cp.sync, since := 0, unacked := [], pending := [], entity := [])
  }

  function DoTakeBack(cfg: Config, s: System): System
    requires cfg.WellCut()
  {
    if s.back == [] || (s.sender.phase != Sending && s.sender.phase != Ended) then s
    else
      var t := s.(back := s.back[1..]);
      match s.back[0]
      case AckSyn(n) =>
        if s.sender.phase == Ended then t
        else t.(sender := s.sender.(unacked := Popped(s.sender.unacked, n), store := s.sender.store.Acknowledge(n)))
      case Resyn(n) =>
        if s.sender.phase == Ended || !cfg.resync then SenderStops(t)
        else
          var cp := if s.sender.store.Get(n).Some? then s.sender.store.Get(n).value else ORIGIN;
          t.(sender := ResumedAt(cfg, s.sender.(comp := CompAtSync(cfg, s.sender.comp)), cp),
             fwd := s.fwd + [Packet(AckResyn(cp.sync), false)])
      case _ => SenderStops(t)
  }

  /** The sending loop starts from a point of the sender's store; an unknown point is refused before it. */
  function DoBeginSender(cfg: Config, s: System, p: nat): System
    requires cfg.WellCut()
  {
    var cp := s.sender.store.Get(p);
    if s.sender.phase != SendIdle || (s.start.Some? && s.start.value != p) || cp.None? then s
    else
      var begun := s.sender.(phase := Sending, comp := NewSender(cfg.compression, cfg.maxArticle),
                             store := if p == 0 then NO_POINTS else s.sender.store);
      s.(start := Some(p), sender := ResumedAt(cfg, begun, cp.value))
  }

  // ---- receiving ----

  /** Articles decompressed and written, up to the first that does not decompress; whether all did. */
  function Take(cfg: Config, r: Receiver, wires: seq<seq<byte>>): (Receiver, bool)
    decreases |wires|
  {
    if wires == [] then (r, true)
    else
      var one := TakeOne(cfg, r, wires[0]);
      if one.None? then (r, false) else Take(cfg, one.value, wires[1..])
  }

  function TakeOne(cfg: Config, r: Receiver, wire: seq<byte>): Option<Receiver>
  {
    var decoded :=
      if cfg.compression == NoCompression then Ok(wire) else ReceiverState(r.reference, cfg.RefSize()).Decoded(wire);
    if decoded.Err? then None
    else
      Some(r.(file := r.file + ArticleToBytes(cfg.format, decoded.value),
              dataBytes := r.dataBytes + |wire|,
              articles := r.articles + 1,
              reference :=
                if cfg.compression == NoCompression then r.reference else Overwrite(r.reference, decoded.value)))
  }

  function ReceiverStops(r: Receiver): Receiver { r.(phase := ReceiveFailed) }

  /** The receiver as it resumes from a point. */
  function TruncatedTo(r: Receiver, cp: Checkpoint): Receiver
  {
    var file := Resized(r.file, cp.fileOffset);
    r.(phase := Receiving, file := file, durable := file, dataBytes := cp.dataBytes, articles := cp.articles,
       lastSync := cp.sync, partial := None)
  }

  /** One undamaged unit in the receiving loop: the receiver and its answer. */
  function Receive(cfg: Config, r: Receiver, p: Pdu): (Receiver, seq<Pdu>)
  {
    match p
    case Data(f) =>
      if !f.kind.IsData() then (ReceiverStops(r), [])
      else
        (match A.Fed(cfg.maxArticle, r.partial, f)
         case Err(e) => (ReceiverStops(r.(partial := if e.ArticleTooLong? then None else r.partial)), [])
         case Ok((partial, wires)) =>
           var (taken, all) := Take(cfg, r.(partial := partial), wires);
           (if all then taken else ReceiverStops(taken), []))
    case Syn(n) =>
      (r.(durable := r.file, lastSync := n,
          store := r.store.Record(Checkpoint(n, |r.file|, r.dataBytes, r.articles))),
       if cfg.Acks() then [AckSyn(n)] else [])
    case DtfEnd => (r.(phase := Completed), [])
    case _ => (ReceiverStops(r), [])
  }

  /** One undamaged unit while ACK(RESYN) is awaited: everything else is dropped. */
  function Await(r: Receiver, p: Pdu): Receiver
  {
    if !p.AckResyn? then r
    else
      var cp := r.store.Get(p.n);
      if cp.None? then ReceiverStops(r) else TruncatedTo(r, cp.value)
  }

  function DoTakeForward(cfg: Config, s: System): System
  {
    if s.fwd == [] then s
    else
      var t, p := s.(fwd := s.fwd[1..]), s.fwd[0];
      match s.receiver.phase
      case Receiving =>
        if p.damaged then
          if cfg.resync then
            t.(receiver := s.receiver.(phase := AwaitAck), back := s.back + [Resyn(s.receiver.lastSync)])
          else t.(receiver := ReceiverStops(s.receiver))
        else if TooHigh(p.pdu) then t.(receiver := ReceiverStops(s.receiver))
        else
          var (r, answer) := Receive(cfg, s.receiver, p.pdu);
          t.(receiver := r, back := s.back + answer)
      case AwaitAck =>
        t.(receiver :=
             if p.damaged || TooHigh(p.pdu) then ReceiverStops(s.receiver) else Await(s.receiver, p.pdu))
      case _ => s
  }

  function DoBeginReceiver(cfg: Config, s: System, p: nat): System
  {
    var cp := s.receiver.store.Get(p);
    if s.receiver.phase != ReceiveIdle || (s.start.Some? && s.start.value != p) || cp.None? then s
    else
      var begun := s.receiver.(reference := NewReceiver(cfg.maxArticle).reference,
                               store := if p == 0 then NO_POINTS else s.receiver.store);
      s.(start := Some(p), receiver := TruncatedTo(begun, cp.value))
  }

  // ---- the world ----

  /** The connection is lost: both ends stop, the queues vanish, and the file keeps what was written out,
      at least up to the last synchronisation point. */
  function DoLose(s: System, len: nat): System
  {
    var r := s.receiver;
    var file := if |r.durable| <= len <= |r.file| then r.file[..len] else r.durable;
    System(s.sender.(phase := SendIdle, entity := [], pending := []),
           r.(phase := ReceiveIdle, file := file, durable := file, partial := None), [], [], None)
  }

  function DoDamage(s: System, i: nat): System
  {
    if i < |s.fwd| then s.(fwd := s.fwd[i := Packet(s.fwd[i].pdu, true)]) else s
  }

  function Step(cfg: Config, s: System, a: Action): System
    requires cfg.packing.Valid() && cfg.WellCut()
  {
    match a
    case BeginSender(p) => DoBeginSender(cfg, s, p)
    case BeginReceiver(p) => DoBeginReceiver(cfg, s, p)
    case SendArticle => DoSendArticle(cfg, s)
    case FailAtSync => DoFailAtSync(cfg, s)
    case SendEnd => DoSendEnd(cfg, s)
    case TakeBack => DoTakeBack(cfg, s)
    case SenderFails => if s.sender.phase == SendIdle then s else SenderStops(s)
    case TakeForward => DoTakeForward(cfg, s)
    case ReceiverFails => if s.receiver.phase == ReceiveIdle then s else s.(receiver := ReceiverStops(s.receiver))
    case Damage(i) => DoDamage(s, i)
    case Lose(len) => DoLose(s, len)
    case ForgetSender => if s.sender.phase == Ended then SenderStops(s.(sender := s.sender.(store := NO_POINTS))) else s
    case ForgetReceiver =>
      if s.receiver.phase == Completed then s.(receiver := s.receiver.(store := NO_POINTS)) else s
  }

  function Run(cfg: Config, actions: seq<Action>): System
    requires cfg.packing.Valid() && cfg.WellCut()
  {
    if actions == [] then Initial(cfg)
    else Step(cfg, Run(cfg, actions[..|actions| - 1]), actions[|actions| - 1])
  }

  /** Actions from a state on. */
  function RunFrom(cfg: Config, s: System, actions: seq<Action>): System
    requires cfg.packing.Valid() && cfg.WellCut()
    decreases |actions|
  {
    if actions == [] then s else RunFrom(cfg, Step(cfg, s, actions[0]), actions[1..])
  }

  lemma {:induction false} RunJoin(cfg: Config, past: seq<Action>, actions: seq<Action>)
    requires cfg.packing.Valid() && cfg.WellCut()
    ensures Run(cfg, past + actions) == RunFrom(cfg, Run(cfg, past), actions)
    decreases |actions|
  {
    hide Step;
    if actions == [] {
      assert past + [] == past;
    } else {
      assert (past + [actions[0]])[..|past|] == past;
      RunJoin(cfg, past + [actions[0]], actions[1..]);
      assert past + actions == past + [actions[0]] + actions[1..];
    }
  }

  lemma {:induction false} RunFromAppend(cfg: Config, s: System, xs: seq<Action>, ys: seq<Action>)
    requires cfg.packing.Valid() && cfg.WellCut()
    ensures RunFrom(cfg, s, xs + ys) == RunFrom(cfg, RunFrom(cfg, s, xs), ys)
    decreases |xs|
  {
    hide Step;
    if xs == [] {
      assert xs + ys == ys;
    } else {
      assert (xs + ys)[0] == xs[0] && (xs + ys)[1..] == xs[1..] + ys;
      RunFromAppend(cfg, Step(cfg, s, xs[0]), xs[1..], ys);
    }
  }

  lemma OneStep(cfg: Config, s: System, a: Action)
    requires cfg.packing.Valid() && cfg.WellCut()
    ensures RunFrom(cfg, s, [a]) == Step(cfg, s, a)
  {
    hide Step;
    assert [a][1..] == [];
  }
}
