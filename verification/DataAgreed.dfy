/** Restarts under any coding: exact delivery between matching points, and when one more restart is right. */
module DataAgreed {
  import opened Bytes
  import opened Params
  import opened Cutter
  import opened Compressors
  import opened Checkpoints
  import opened Canon
  import opened DataPhase
  import opened LogFollowing
  import opened DataSafety
  import opened DataReception
  import opened DataTheorems
  import opened DataRestarts
  import opened DataProgress
  import opened DataAttempts
  import opened DataQuiet
  import opened FileIo
  import F = Fpdu
  import A = Articles

  // ---- what is true of stores and file ----

  /** A point of the sender is where its article starts in the source. */
  predicate SenderTrue(cfg: Config, cp: Checkpoint)
    requires cfg.WellCut()
  {
    cp.articles <= |cfg.arts| && cp.fileOffset == cfg.srcOff[cp.articles]
  }

  /** A point of the receiver is where its article ends in the file. */
  predicate ReceiverTrue(cfg: Config, cp: Checkpoint)
  {
    cp.articles <= |cfg.arts| && cp.fileOffset == |FileAt(cfg, cp.articles)|
  }

  predicate Truth(cfg: Config, s: System)
    requires cfg.WellCut()
  {
    && (forall n :: n in s.sender.store.points ==> SenderTrue(cfg, s.sender.store.points[n]))
    && (forall n :: n in s.receiver.store.points ==> ReceiverTrue(cfg, s.receiver.store.points[n]))
    && FileOk(cfg, s.receiver)
  }

  /** Point `p` stands at the same article in both stores, and the partial file reaches it. */
  predicate Matched(s: System, p: nat)
  {
    p == 0
    || (&& p in s.sender.store.points && p in s.receiver.store.points
        && s.sender.store.points[p].articles == s.receiver.store.points[p].articles
        && s.receiver.store.points[p].fileOffset <= |s.receiver.file|)
  }

  /** Damage is not answered by resynchronisation, and an attempt starts from a matched point, or is refused. */
  predicate Agreed(cfg: Config, s: System, a: Action)
  {
    match a
    case Damage(_) => cfg.crc && !cfg.resync
    case BeginSender(p) => s.start.Some? || Matched(s, p) || s.sender.store.Get(p).None?
    case BeginReceiver(p) => s.start.Some? || Matched(s, p) || s.receiver.store.Get(p).None?
    case _ => true
  }

  predicate AllAgreed(cfg: Config, actions: seq<Action>)
    requires cfg.packing.Valid() && cfg.WellCut()
  {
    actions == [] ||
    (AllAgreed(cfg, actions[..|actions| - 1])
     && Agreed(cfg, DataPhase.Run(cfg, actions[..|actions| - 1]), actions[|actions| - 1]))
  }

  /** An attempt whose two sides start at the same article. */
  predicate Faithful(cfg: Config, at: Attempt)
  {
    at.from == at.articles <= |cfg.arts| && at.base == FileAt(cfg, at.from)
  }

  lemma FaithfulFile(cfg: Config, at: Attempt, k: nat)
    requires Faithful(cfg, at) && at.from <= k <= |cfg.arts|
    ensures Grown(cfg, at, k) == FileAt(cfg, k)
  {
    hide Delivered;
    DeliveredAppend(cfg.format, cfg.arts[..at.from], cfg.arts[at.from..k]);
    assert cfg.arts[..at.from] + cfg.arts[at.from..k] == cfg.arts[..k];
  }

  // ---- truth is kept ----

  lemma {:induction false} TakeGrows(cfg: Config, r: Receiver, ws: seq<seq<byte>>)
    ensures r.file <= Take(cfg, r, ws).0.file
    decreases |ws|
  {
    hide ReceiverState.Decoded, Overwrite, ArticleToBytes;
    if ws != [] && TakeOne(cfg, r, ws[0]).Some? {
      TakeGrows(cfg, TakeOne(cfg, r, ws[0]).value, ws[1..]);
    }
  }

  /** The only point a receiver records is where it stands, and what is on disk is the beginning of its file. */
  lemma ReceiveRecords(cfg: Config, r: Receiver, p: Pdu)
    requires r.durable <= r.file
    ensures var t := Receive(cfg, r, p).0;
      && t.durable <= t.file
      && (t.store == r.store
          || (p.Syn? && t.file == r.file && t.articles == r.articles
              && t.store == r.store.Record(Checkpoint(p.n, |r.file|, r.dataBytes, r.articles))))
  {
    hide A.Fed, TakeOne;
    if p.Data? && p.f.kind.IsData() && A.Fed(cfg.maxArticle, r.partial, p.f).Ok? {
      var (partial, wires) := A.Fed(cfg.maxArticle, r.partial, p.f).value;
      var s := r.(partial := partial);
      TakeKeeps(cfg, s, wires, partial);
      TakeGrows(cfg, s, wires);
    }
  }

  lemma SaneFile(cfg: Config, at: Attempt, r: Receiver)
    requires Faithful(cfg, at) && Sane(cfg, at, r)
    ensures r.articles <= |cfg.arts| && r.file == FileAt(cfg, r.articles) <= FileAt(cfg, |cfg.arts|)
  {
    FaithfulFile(cfg, at, r.articles);
    WholeFile(cfg, r.articles);
  }

  lemma TruthTaken(cfg: Config, at: Attempt, s: System)
    requires cfg.Built() && Truth(cfg, s) && Under(cfg, at, s) && Faithful(cfg, at)
    ensures Truth(cfg, DoTakeForward(cfg, s))
  {
    hide Receive, FileAt, SenderLeads, Grown, Absorb;
    var r, t := s.receiver, DoTakeForward(cfg, s);
    if s.fwd != [] && r.phase == Receiving && t.receiver != ReceiverStops(r) {
      var p := s.fwd[0].pdu;
      KeepsTaken(cfg, at, s);
      AnswersAcks(cfg, r, p);
      assert s.fwd[0] in s.fwd && t.receiver == Receive(cfg, r, p).0;
      SaneFile(cfg, at, r);
      SaneFile(cfg, at, t.receiver);
      ReceiveRecords(cfg, r, p);
    }
  }

  lemma TruthSent(cfg: Config, at: Attempt, s: System)
    requires cfg.Built() && Truth(cfg, s) && Under(cfg, at, s)
    ensures Truth(cfg, DoSendArticle(cfg, s)) && Truth(cfg, DoSendEnd(cfg, s)) && Truth(cfg, DoFailAtSync(cfg, s))
  {
    hide AllSane, Absorb, Flow, Perform, PointDue, FileAt, Ready, A.Pushed, CompSent, CompAtSync, WireOut, PointOps,
      ArticleOps,
      FileOk, ReceiverTrue;
  }

  lemma TruthStep(cfg: Config, at: Attempt, s: System, a: Action)
    requires cfg.Built() && Truth(cfg, s) && Under(cfg, at, s) && Faithful(cfg, at) && Quiet(cfg, a)
    ensures Truth(cfg, Step(cfg, s, a))
  {
    hide DoSendArticle, DoSendEnd, DoFailAtSync, DoTakeForward, Under, FileAt, Popped, FileOk;
    match a {
      case SendArticle => TruthSent(cfg, at, s);
      case FailAtSync => TruthSent(cfg, at, s);
      case SendEnd => TruthSent(cfg, at, s);
      case TakeForward => TruthTaken(cfg, at, s);
      case TakeBack => TruthAnswer(cfg, at, s);
      case SenderFails => FileAlone(cfg, s.receiver, Step(cfg, s, a).receiver);
      case ReceiverFails => FileAlone(cfg, s.receiver, Step(cfg, s, a).receiver);
      case Damage(_) => FileAlone(cfg, s.receiver, Step(cfg, s, a).receiver);
      case ForgetSender => FileAlone(cfg, s.receiver, Step(cfg, s, a).receiver);
      case ForgetReceiver => FileAlone(cfg, s.receiver, Step(cfg, s, a).receiver);
    }
  }

  lemma FileAlone(cfg: Config, r: Receiver, t: Receiver)
    ensures t.file == r.file && t.durable == r.durable ==> (FileOk(cfg, r) <==> FileOk(cfg, t))
  {
  }

  lemma TruthAnswer(cfg: Config, at: Attempt, s: System)
    requires cfg.Built() && Truth(cfg, s) && Under(cfg, at, s)
    ensures Truth(cfg, DoTakeBack(cfg, s))
  {
    hide AllSane, Absorb, Flow, SenderLeads, FileAt, Popped, FileOk;
    if s.back != [] {
      assert s.back[0] in s.back;
    }
  }

  // ---- starts ----

  lemma TrueGet(cfg: Config, s: System, p: nat)
    requires cfg.WellCut() && Truth(cfg, s)
    ensures var cp := s.sender.store.Get(p); cp.Some? ==> SenderTrue(cfg, cp.value)
    ensures var cp := s.receiver.store.Get(p); cp.Some? ==> ReceiverTrue(cfg, cp.value)
  {
    assert cfg.arts[..0] == [];
  }

  /** Nothing is under way. */
  predicate Idle(s: System)
  {
    && s.start.None? && s.sender.phase == SendIdle && s.receiver.phase == ReceiveIdle
    && s.fwd == [] && s.back == [] && s.sender.entity == [] && s.sender.pending == []
  }

  /** The attempt that two points begin. */
  function AttemptFrom(cfg: Config, s: System, p: nat): Attempt
    requires s.sender.store.Get(p).Some? && s.receiver.store.Get(p).Some?
  {
    var v, r := s.sender.store.Get(p).value, s.receiver.store.Get(p).value;
    Attempt(Resized(s.receiver.file, r.fileOffset), v.articles, r.articles, v.dataBytes - r.dataBytes)
  }

  lemma OpenedSane(cfg: Config, at: Attempt, r: Receiver, p: nat, cp: Checkpoint)
    requires at.from <= |cfg.arts| && at.base == Resized(r.file, cp.fileOffset) && at.articles == cp.articles
    ensures var t := Opened(cfg, r, p, cp);
      && Sane(cfg, at, t) && AllSane(cfg, at, t, []) && Absorb(cfg, t, []) == t
      && t.phase == Receiving && t.partial == None && t.reference == Repeat(cfg.RefSize(), 0)
  {
    assert cfg.arts[at.from..at.from] == [];
  }

  /** The receiver starts first. */
  lemma ReceiverFirst(cfg: Config, s: System, p: nat)
    requires cfg.Built() && Idle(s) && s.receiver.store.Get(p).Some? && s.sender.store.Get(p).Some?
    requires SenderTrue(cfg, s.sender.store.Get(p).value)
    ensures Under(cfg, AttemptFrom(cfg, s, p), DoBeginReceiver(cfg, s, p))
  {
    hide AllSane, Sane, Absorb;
    assert Flow([], []) == [];
    OpenedSane(cfg, AttemptFrom(cfg, s, p), s.receiver, p, s.receiver.store.Get(p).value);
  }

  /** The sender starts, the receiver having started or not. */
  lemma SenderJoins(cfg: Config, at: Attempt, s: System, p: nat)
    requires cfg.Built() && Under(cfg, at, s) && s.start == Some(p) && s.sender.phase == SendIdle
    requires s.sender.store.Get(p).Some?
    ensures Under(cfg, at, DoBeginSender(cfg, s, p))
  {
    hide AllSane, Grown;
    var t, cp, r := DoBeginSender(cfg, s, p), s.sender.store.Get(p).value, Started(cfg, s);
    StartedOn(cfg, s, t);
    assert Flow(t.fwd, t.sender.entity) == [];
    AbsorbedIsSane(cfg, at, r, []);
    RewoundTo(cfg, cp.articles, 0);
    HeldNothing(cfg, at, r);
  }

  lemma SenderFirst(cfg: Config, s: System, p: nat)
    requires cfg.Built() && Idle(s) && s.receiver.store.Get(p).Some? && s.sender.store.Get(p).Some?
    requires SenderTrue(cfg, s.sender.store.Get(p).value)
    ensures Under(cfg, AttemptFrom(cfg, s, p), DoBeginSender(cfg, s, p))
  {
    hide AllSane, Sane, Absorb;
    assert Flow([], []) == [];
    var at, cp := AttemptFrom(cfg, s, p), s.sender.store.Get(p).value;
    var half := s.(start := Some(p));
    OpenedSane(cfg, at, s.receiver, p, s.receiver.store.Get(p).value);
    assert Under(cfg, at, half);
    SenderJoins(cfg, at, half, p);
    assert DoBeginSender(cfg, half, p) == DoBeginSender(cfg, s, p);
  }

  lemma ReceiverJoins(cfg: Config, at: Attempt, s: System, p: nat)
    requires cfg.Built() && Under(cfg, at, s) && s.start == Some(p) && s.receiver.phase == ReceiveIdle
    ensures Under(cfg, at, DoBeginReceiver(cfg, s, p))
  {
    hide AllSane, Sane, Absorb, Flow, Right, Level;
    assert Started(cfg, DoBeginReceiver(cfg, s, p)) == Started(cfg, s);
  }

  lemma MatchedIsFaithful(cfg: Config, s: System, p: nat)
    requires cfg.WellCut() && Truth(cfg, s) && Matched(s, p)
    ensures s.receiver.store.Get(p).Some? && s.sender.store.Get(p).Some?
    ensures SenderTrue(cfg, s.sender.store.Get(p).value) && ReceiverTrue(cfg, s.receiver.store.Get(p).value)
    ensures Faithful(cfg, AttemptFrom(cfg, s, p))
  {
    hide FileAt;
    TrueGet(cfg, s, p);
    CutBack(cfg, s.receiver.file, s.receiver.store.Get(p).value.articles);
  }

  lemma OpenedTruth(cfg: Config, s: System, p: nat)
    requires cfg.WellCut() && Truth(cfg, s) && s.receiver.store.Get(p).Some?
    requires Faithful(cfg, Attempt(Resized(s.receiver.file, s.receiver.store.Get(p).value.fileOffset),
                                   s.receiver.store.Get(p).value.articles, s.receiver.store.Get(p).value.articles, 0))
    ensures Truth(cfg, DoBeginReceiver(cfg, s, p))
  {
    hide FileAt;
    WholeFile(cfg, s.receiver.store.Get(p).value.articles);
  }

  // ---- runs ----

  /** Stores and file are true; an attempt, if there is one, began at one article on both sides. */
  ghost predicate Whole(cfg: Config, s: System)
    requires cfg.Built()
  {
    && Truth(cfg, s)
    && (if s.start.None? then Idle(s) else exists at :: Faithful(cfg, at) && Under(cfg, at, s))
  }

  lemma KeepsStart(cfg: Config, s: System, a: Action)
    requires cfg.Built() && Whole(cfg, s) && Agreed(cfg, s, a) && (a.BeginSender? || a.BeginReceiver?)
    ensures Whole(cfg, Step(cfg, s, a))
  {
    hide Under, FileAt, Sane, FileOk, Faithful;
    var p, t := a.p, Step(cfg, s, a);
    if t != s {
      if s.start.None? {
        MatchedIsFaithful(cfg, s, p);
        if a.BeginSender? {
          SenderFirst(cfg, s, p);
        } else {
          ReceiverFirst(cfg, s, p);
          SameStart(cfg, s, p);
          OpenedTruth(cfg, s, p);
        }
      } else {
        var at :| Faithful(cfg, at) && Under(cfg, at, s);
        if a.BeginSender? {
          SenderJoins(cfg, at, s, p);
        } else {
          ReceiverJoins(cfg, at, s, p);
          JoinedTruth(cfg, at, s, p);
        }
      }
      KeptStores(cfg, s, a);
    }
  }

  lemma SameStart(cfg: Config, s: System, p: nat)
    requires s.sender.store.Get(p).Some? && s.receiver.store.Get(p).Some? && Faithful(cfg, AttemptFrom(cfg, s, p))
    ensures var cp := s.receiver.store.Get(p).value;
      Faithful(cfg, Attempt(Resized(s.receiver.file, cp.fileOffset), cp.articles, cp.articles, 0))
  {
  }

  lemma JoinedTruth(cfg: Config, at: Attempt, s: System, p: nat)
    requires cfg.Built() && Truth(cfg, s) && Under(cfg, at, s) && Faithful(cfg, at)
    requires s.start == Some(p) && s.receiver.phase == ReceiveIdle
    ensures Truth(cfg, DoBeginReceiver(cfg, s, p))
  {
    hide FileAt, Grown, Absorb, SenderLeads;
    SaneFile(cfg, at, Started(cfg, s));
  }

  /** A start records nothing. */
  lemma KeptStores(cfg: Config, s: System, a: Action)
    requires cfg.Built() && Truth(cfg, s) && (a.BeginSender? || a.BeginReceiver?)
    ensures var t := Step(cfg, s, a);
      && (forall n :: n in t.sender.store.points ==> SenderTrue(cfg, t.sender.store.points[n]))
      && (forall n :: n in t.receiver.store.points ==> ReceiverTrue(cfg, t.receiver.store.points[n]))
      && (a.BeginSender? ==> FileOk(cfg, t.receiver))
  {
    hide FileAt, Rewound, FileOk, Resized;
    FileAlone(cfg, s.receiver, Step(cfg, s, a).receiver);
  }

  lemma KeepsLost(cfg: Config, s: System, len: nat)
    requires cfg.Built() && Truth(cfg, s)
    ensures Truth(cfg, DoLose(s, len)) && Idle(DoLose(s, len))
  {
    hide FileAt;
  }

  lemma AgreedStep(cfg: Config, s: System, a: Action)
    requires cfg.Built() && Whole(cfg, s) && Agreed(cfg, s, a)
    ensures Whole(cfg, Step(cfg, s, a))
  {
    hide Truth, Under, Faithful;
    if a.BeginSender? || a.BeginReceiver? {
      KeepsStart(cfg, s, a);
    } else if a.Lose? {
      KeepsLost(cfg, s, a.len);
    } else if s.start.Some? {
      var at :| Faithful(cfg, at) && Under(cfg, at, s);
      UnderStep(cfg, at, s, a);
      TruthStep(cfg, at, s, a);
      UnderStarted(cfg, at, Step(cfg, s, a));
    } else {
      IdleStays(cfg, s, a);
    }
  }

  lemma UnderStarted(cfg: Config, at: Attempt, s: System)
    requires cfg.Built() && Under(cfg, at, s)
    ensures s.start.Some?
  {
  }

  lemma IdleStays(cfg: Config, s: System, a: Action)
    requires cfg.Built() && Idle(s) && !a.BeginSender? && !a.BeginReceiver? && !a.Lose?
    ensures Step(cfg, s, a) == s
  {
  }

  lemma {:induction false} AgreedKeeps(cfg: Config, actions: seq<Action>)
    requires cfg.Built() && AllAgreed(cfg, actions)
    ensures Whole(cfg, DataPhase.Run(cfg, actions))
  {
    if actions == [] {
      assert Truth(cfg, Initial(cfg)) && Idle(Initial(cfg));
    } else {
      hide Whole, Step;
      AgreedKeeps(cfg, actions[..|actions| - 1]);
      AgreedStep(cfg, DataPhase.Run(cfg, actions[..|actions| - 1]), actions[|actions| - 1]);
    }
  }

  // ---- the theorems ----

  /** Under any coding, covered or not: in every run whose attempts start from points that stand at the same article in
      both stores, and in which no damage is answered by resynchronisation, a receiver that reports completion holds
      exactly the articles of the source, and both sides have counted as many. */
  lemma {:induction false} AgreedDelivery(cfg: Config, actions: seq<Action>)
    requires cfg.Built() && AllAgreed(cfg, actions)
    ensures var s := DataPhase.Run(cfg, actions);
      s.receiver.phase == Completed ==>
        && s.receiver.file == Delivered(cfg.format, cfg.arts) && s.receiver.articles == |cfg.arts|
        && (s.sender.phase == Ended ==> s.sender.articles == |cfg.arts|)
  {
    hide DataPhase.Run, Truth, Grown;
    var s := DataPhase.Run(cfg, actions);
    AgreedKeeps(cfg, actions);
    if s.receiver.phase == Completed {
      var at :| Faithful(cfg, at) && Under(cfg, at, s);
      SaneFile(cfg, at, s.receiver);
      assert cfg.arts[..|cfg.arts|] == cfg.arts;
    }
  }

  /** What an attempt from any two points leaves once it has completed: the file its receiver opened, and the articles
      from the sender's point on. */
  lemma {:induction false} AttemptLeaves(cfg: Config, at: Attempt, s: System, turns: seq<Action>)
    requires cfg.Built() && Under(cfg, at, s) && (forall a :: a in turns ==> Quiet(cfg, a))
    ensures var t := RunFrom(cfg, s, turns);
      t.receiver.phase == Completed ==>
        && t.receiver.file == at.base + Delivered(cfg.format, cfg.arts[at.from..])
        && t.receiver.articles == at.articles + (|cfg.arts| - at.from)
        && (t.sender.phase == Ended ==>
              t.sender.articles == |cfg.arts| && t.sender.dataBytes == t.receiver.dataBytes + at.ahead)
    decreases |turns|
  {
    if turns == [] {
      assert cfg.arts[at.from..|cfg.arts|] == cfg.arts[at.from..];
    } else {
      hide Under, Step;
      UnderStep(cfg, at, s, turns[0]);
      AttemptLeaves(cfg, at, Step(cfg, s, turns[0]), turns[1..]);
    }
  }

  /** Runs after which stores and file are true: restarts from matched points under any coding, or damage,
      resynchronisation and restarts where rewinds are tolerated. */
  ghost predicate Trusted(cfg: Config, past: seq<Action>)
    requires cfg.packing.Valid() && cfg.WellCut()
  {
    AllAgreed(cfg, past) || (cfg.Valid() && AllAllowed(cfg, past))
  }

  lemma TrustedIsTrue(cfg: Config, past: seq<Action>)
    requires cfg.Built() && Trusted(cfg, past)
    ensures Truth(cfg, DataPhase.Run(cfg, past))
  {
    hide DataPhase.Run, FileAt, Under, SenderSide, ReceiverSide, Floors;
    if AllAgreed(cfg, past) {
      AgreedKeeps(cfg, past);
    } else {
      var si, ri := RunKeeps(cfg, past);
      var s := DataPhase.Run(cfg, past);
      forall n | n in s.sender.store.points ensures SenderTrue(cfg, s.sender.store.points[n]) {
        var i := SenderPlace(cfg, s.sender.store, n);
      }
      forall n | n in s.receiver.store.points ensures ReceiverTrue(cfg, s.receiver.store.points[n]) {
        var i := ReceiverPlace(cfg, s.receiver.store, n);
      }
    }
  }

  /** Files that share what comes last, and one of which is the whole file, begin alike exactly when they are equal. */
  lemma SameBeginning(cfg: Config, base: seq<byte>, k: nat)
    requires k <= |cfg.arts|
    ensures base + Delivered(cfg.format, cfg.arts[k..]) == Delivered(cfg.format, cfg.arts) <==> base == FileAt(cfg, k)
  {
    hide Delivered;
    var rest := Delivered(cfg.format, cfg.arts[k..]);
    DeliveredAppend(cfg.format, cfg.arts[..k], cfg.arts[k..]);
    assert cfg.arts[..k] + cfg.arts[k..] == cfg.arts;
    if base + rest == FileAt(cfg, k) + rest {
      assert |base| == |FileAt(cfg, k)|;
      assert base == (base + rest)[..|base|] == (FileAt(cfg, k) + rest)[..|base|] == FileAt(cfg, k);
    }
  }

  /** Articles that are not empty make files of different lengths. */
  lemma {:induction false} FileLonger(cfg: Config, j: nat, k: nat)
    requires j < k <= |cfg.arts| && forall i :: 0 <= i < |cfg.arts| ==> cfg.arts[i] != []
    ensures |FileAt(cfg, j)| < |FileAt(cfg, k)|
    decreases k
  {
    FileNext(cfg, k - 1);
    if j < k - 1 {
      FileLonger(cfg, j, k - 1);
    }
  }

  lemma LengthTells(cfg: Config, j: nat, k: nat)
    requires j <= |cfg.arts| && k <= |cfg.arts| && forall i :: 0 <= i < |cfg.arts| ==> cfg.arts[i] != []
    ensures |FileAt(cfg, j)| == |FileAt(cfg, k)| <==> j == k
  {
    if j < k {
      FileLonger(cfg, j, k);
    } else if k < j {
      FileLonger(cfg, k, j);
    }
  }

  /** The file opened for an attempt is what comes before the sender's point exactly when both points stand at the same
      article and the partial file reaches the receiver's, or lacks nothing but zeros. */
  lemma OpenedExact(cfg: Config, file: seq<byte>, v: Checkpoint, r: Checkpoint)
    requires cfg.WellCut() && SenderTrue(cfg, v) && ReceiverTrue(cfg, r) && file <= FileAt(cfg, |cfg.arts|)
    requires forall i :: 0 <= i < |cfg.arts| ==> cfg.arts[i] != []
    ensures Resized(file, r.fileOffset) == FileAt(cfg, v.articles)
       <==> v.articles == r.articles && (r.fileOffset <= |file| || ZeroFrom(FileAt(cfg, r.articles), |file|))
  {
    hide FileAt;
    LengthTells(cfg, v.articles, r.articles);
    ResizedExact(cfg, file, r.articles);
  }

  lemma AttemptStarts(cfg: Config, past: seq<Action>, len: nat, p: nat)
    requires cfg.Built() && Trusted(cfg, past)
    requires var s := DataPhase.Run(cfg, past); s.sender.store.Get(p).Some? && s.receiver.store.Get(p).Some?
    ensures var lost := DoLose(DataPhase.Run(cfg, past), len);
      && Truth(cfg, lost) && Under(cfg, AttemptFrom(cfg, lost, p), DataPhase.Run(cfg, past + Restart(len, p)))
  {
    hide DataPhase.Run, Truth, Under, DoBeginReceiver, DoBeginSender;
    TrustedIsTrue(cfg, past);
    var s := DataPhase.Run(cfg, past);
    var lost := DoLose(s, len);
    KeepsLost(cfg, s, len);
    TrueGet(cfg, lost, p);
    ReceiverFirst(cfg, lost, p);
    var half := DoBeginReceiver(cfg, lost, p);
    HalfStarted(cfg, lost, p);
    SenderJoins(cfg, AttemptFrom(cfg, lost, p), half, p);
    RunJoin(cfg, past, Restart(len, p));
    ThreeSteps(cfg, s, Lose(len), BeginReceiver(p), BeginSender(p));
  }

  lemma HalfStarted(cfg: Config, s: System, p: nat)
    requires Idle(s) && s.receiver.store.Get(p).Some?
    ensures var t := DoBeginReceiver(cfg, s, p); t.start == Some(p) && t.sender == s.sender
  {
  }

  lemma ThreeSteps(cfg: Config, s: System, a: Action, b: Action, c: Action)
    requires cfg.packing.Valid() && cfg.WellCut()
    ensures RunFrom(cfg, s, [a, b, c]) == Step(cfg, Step(cfg, Step(cfg, s, a), b), c)
  {
    hide Step;
    var t := Step(cfg, s, a);
    assert [a, b, c][1..] == [b, c] && [b, c][1..] == [c] && [c][1..] == [];
    assert RunFrom(cfg, s, [a, b, c]) == RunFrom(cfg, t, [b, c]);
    assert RunFrom(cfg, t, [b, c]) == RunFrom(cfg, Step(cfg, t, b), [c]);
    assert RunFrom(cfg, Step(cfg, t, b), [c]) == RunFrom(cfg, Step(cfg, Step(cfg, t, b), c), []);
  }

  /** Under any coding, an attempt that restarts from point `p` and completes without damage leaves exactly the source
      if and only if both stores' points of that number stand at the same article, and the partial file reaches the
      receiver's point or lacks nothing but zeros. The two sides' counters then differ by as much as those of the two
      points: what the sender skipped or repeated shows in the articles counted, and only there. */
  lemma {:induction false} RestartIsRight(cfg: Config, past: seq<Action>, len: nat, p: nat, turns: seq<Action>)
    requires cfg.Built() && Trusted(cfg, past) && (forall a :: a in turns ==> Quiet(cfg, a))
    requires forall i :: 0 <= i < |cfg.arts| ==> cfg.arts[i] != []
    requires var s := DataPhase.Run(cfg, past); s.sender.store.Get(p).Some? && s.receiver.store.Get(p).Some?
    ensures var lost := DoLose(DataPhase.Run(cfg, past), len);
      var v, r := lost.sender.store.Get(p).value, lost.receiver.store.Get(p).value;
      var t := DataPhase.Run(cfg, past + Restart(len, p) + turns);
      && v.articles <= |cfg.arts| && r.articles <= |cfg.arts|
      && (t.receiver.phase == Completed ==>
            && (t.receiver.file == Delivered(cfg.format, cfg.arts)
                <==> && v.articles == r.articles
                     && (r.fileOffset <= |lost.receiver.file|
                         || ZeroFrom(FileAt(cfg, r.articles), |lost.receiver.file|)))
            && (t.sender.phase == Ended ==>
                  && t.sender.articles - t.receiver.articles == v.articles - r.articles
                  && t.sender.dataBytes - t.receiver.dataBytes == v.dataBytes - r.dataBytes))
  {
    hide DataPhase.Run, Under, FileAt;
    var lost := DoLose(DataPhase.Run(cfg, past), len);
    AttemptStarts(cfg, past, len, p);
    TrueGet(cfg, lost, p);
    var at := AttemptFrom(cfg, lost, p);
    AttemptLeaves(cfg, at, DataPhase.Run(cfg, past + Restart(len, p)), turns);
    RunJoin(cfg, past + Restart(len, p), turns);
    SameBeginning(cfg, at.base, at.from);
    OpenedExact(cfg, lost.receiver.file, lost.sender.store.Get(p).value, lost.receiver.store.Get(p).value);
  }

  /** Restarting from a point, losing the connection at once and restarting from a higher one that both stores still have
      at the same article: once completed, the file is right if and only if what lies between the two is zero. */
  lemma {:induction false} RestartBelowLast(cfg: Config, past: seq<Action>, p: nat, q: nat, turns: seq<Action>)
    requires cfg.Built() && Trusted(cfg, past + [BeginReceiver(p)]) && (forall a :: a in turns ==> Quiet(cfg, a))
    requires forall i :: 0 <= i < |cfg.arts| ==> cfg.arts[i] != []
    requires var s := DataPhase.Run(cfg, past);
      && s.start.None? && s.receiver.phase == ReceiveIdle && 1 <= p < q
      && p in s.receiver.store.points && q in s.receiver.store.points && q in s.sender.store.points
      && s.sender.store.points[q].articles == s.receiver.store.points[q].articles
      && s.receiver.store.points[p].fileOffset < s.receiver.store.points[q].fileOffset
    ensures var points := DataPhase.Run(cfg, past).receiver.store.points;
      var t := DataPhase.Run(cfg, past + [BeginReceiver(p)] + Restart(0, q) + turns);
      points[q].articles <= |cfg.arts|
      && (t.receiver.phase == Completed ==>
            (t.receiver.file == Delivered(cfg.format, cfg.arts)
             <==> ZeroFrom(FileAt(cfg, points[q].articles), points[p].fileOffset)))
  {
    hide DataPhase.Run, FileAt, Trusted, ZeroFrom;
    var s := DataPhase.Run(cfg, past);
    RunJoin(cfg, past, [BeginReceiver(p)]);
    OneStep(cfg, s, BeginReceiver(p));
    LowerFile(cfg, s, p);
    TrustedIsTrue(cfg, past + [BeginReceiver(p)]);
    RestartIsRight(cfg, past + [BeginReceiver(p)], 0, q, turns);
  }

  lemma LowerFile(cfg: Config, s: System, p: nat)
    requires s.start.None? && s.receiver.phase == ReceiveIdle && p >= 1 && p in s.receiver.store.points
    ensures var t := DoBeginReceiver(cfg, s, p);
      && t.receiver.store == s.receiver.store && t.sender == s.sender
      && |DoLose(t, 0).receiver.file| == s.receiver.store.points[p].fileOffset
      && DoLose(t, 0).receiver.store == s.receiver.store && DoLose(t, 0).sender.store == s.sender.store
  {
  }
}
