/** Restarts: when the partial file reaches the point restarted from, and what happens when it does not. */
module DataRestarts {
  import opened Bytes
  import opened Params
  import opened Cutter
  import opened Compressors
  import opened Checkpoints
  import opened Canon
  import opened DataPhase
  import opened LogFollowing
  import opened DataSafety
  import opened DataSteps
  import opened DataReception
  import opened DataTheorems
  import DataResults
  import opened FileIo
  import F = Fpdu
  import A = Articles

  // ---- restarting from the last point ----

  /** The receiving application always restarts from the last point of its store, or from the beginning. */
  ghost predicate FromLast(cfg: Config, s: System, a: Action)
  {
    match a
    case Damage(i) => cfg.crc && (cfg.resync ==> cfg.Tolerant())
    case BeginSender(p) => p == 0 || cfg.Tolerant()
    case BeginReceiver(p) => p == 0 || (cfg.Tolerant() && s.receiver.store.IsLast(p))
    case _ => true
  }

  ghost predicate AllFromLast(cfg: Config, actions: seq<Action>)
    requires cfg.packing.Valid() && cfg.WellCut()
  {
    actions == [] ||
    (AllFromLast(cfg, actions[..|actions| - 1])
     && FromLast(cfg, DataPhase.Run(cfg, actions[..|actions| - 1]), actions[|actions| - 1]))
  }

  /** Every recorded point is on disk, and no point lies beyond the one the receiver stands at. */
  predicate OnDisk(r: Receiver)
  {
    && (forall n :: n in r.store.points ==> r.store.points[n].fileOffset <= |r.durable|)
    && (r.phase != ReceiveIdle ==> forall n :: n in r.store.points ==> n <= r.lastSync)
  }

  lemma PointsInOrder(cfg: Config, m: nat, i: nat, n: nat, j: nat)
    requires PointAt(cfg, m, i) && PointAt(cfg, n, j) && m <= n
    ensures ReceiverPoint(cfg, i).fileOffset <= ReceiverPoint(cfg, j).fileOffset
  {
    if j < i {
      ReachGrows(cfg, j, i);
      PointUnique(cfg, m, i, j);
    } else if i < j {
      ReachGrows(cfg, i, j);
    }
    FilePrefix(cfg, Reach(cfg, i).k, Reach(cfg, j).k);
  }

  /** A file cut back to a point keeps all points up to it on disk. */
  lemma CutKeepsPoints(cfg: Config, r: Receiver, n: nat, cp: Checkpoint)
    requires cfg.WellCut() && ReceiverStoreOk(cfg, r.store) && r.store.Get(n) == Some(cp)
    requires forall m :: m in r.store.points ==> m <= n
    ensures OnDisk(TruncatedTo(r, cp))
  {
    var t := TruncatedTo(r, cp);
    var j := ReceiverPlace(cfg, r.store, n);
    forall m | m in r.store.points ensures r.store.points[m].fileOffset <= |t.durable| {
      var i := ReceiverPlace(cfg, r.store, m);
      PointsInOrder(cfg, m, i, n, j);
    }
  }

  lemma OnDiskBegins(cfg: Config, s: System, p: nat, si: nat, ri: nat)
    requires cfg.Valid() && Inv(cfg, s, si, ri) && OnDisk(s.receiver) && FromLast(cfg, s, BeginReceiver(p))
    ensures OnDisk(DoBeginReceiver(cfg, s, p).receiver)
    ensures Allowed(cfg, s, BeginReceiver(p))
  {
    hide SenderSide, ReceiverSide, Floors, SenderStoreOk;
    var r := s.receiver;
    if p != 0 && r.phase == ReceiveIdle && (s.start.Some? ==> s.start.value == p) {
      CutKeepsPoints(cfg, r.(reference := NewReceiver(cfg.maxArticle).reference), p, r.store.points[p]);
    }
  }

  lemma OnDiskUnit(cfg: Config, s: System, si: nat, ri: nat)
    requires cfg.Valid() && Inv(cfg, s, si, ri) && OnDisk(s.receiver)
    ensures OnDisk(DoTakeForward(cfg, s).receiver)
  {
    hide SenderSide, Floors, SenderStoreOk, Follow, Reach, RefGood, FileAt, Flow;
    var r := s.receiver;
    if s.fwd != [] && !s.fwd[0].damaged && !TooHigh(s.fwd[0].pdu) {
      var p := s.fwd[0].pdu;
      if r.phase == Receiving {
        ReadsHead(cfg, s.sender, si, (ri, r.partial), s.fwd, s.sender.entity);
        OnDiskReceives(cfg, r, ri, p);
      } else if r.phase == AwaitAck && p.AckResyn? {
        DataResults.AckResynHead(cfg, s, si, ri);
        CutKeepsPoints(cfg, r, r.lastSync, r.store.Get(p.n).value);
      }
    }
  }

  lemma OnDiskReceives(cfg: Config, r: Receiver, ri: nat, p: Pdu)
    requires cfg.Valid() && r.phase == Receiving && ReceiverAt(cfg, r, ri) && OnDisk(r)
    requires ReceiverStoreOk(cfg, r.store) && HasPoint(r) && FileOk(cfg, r)
    requires FollowOne(cfg, (ri, r.partial), p).Some?
    ensures OnDisk(Receive(cfg, r, p).0)
  {
    hide Reach, RefGood, Take, FileAt;
    match p {
      case Data(f) => DataStep(cfg, r, ri, f); DataKeepsDisk(cfg, r, ri, f);
      case Syn(n) => SynStep(cfg, r, ri, n);
      case DtfEnd =>
    }
  }

  lemma DataKeepsDisk(cfg: Config, r: Receiver, ri: nat, f: F.Fpdu)
    requires cfg.Valid() && r.phase == Receiving && ReceiverAt(cfg, r, ri)
    requires FollowOne(cfg, (ri, r.partial), Data(f)).Some?
    ensures var t := Receive(cfg, r, Data(f)).0;
      t.durable == r.durable && t.store == r.store && t.lastSync == r.lastSync
  {
    hide Take, RefGood, Reach;
    var (partial, wires) := A.Fed(cfg.maxArticle, r.partial, f).value;
    var s := r.(partial := partial);
    assert ReceiverAt(cfg, s, ri);
    TakeStep(cfg, s, ri, wires);
  }

  lemma OnDiskStep(cfg: Config, s: System, a: Action, si: nat, ri: nat)
    requires cfg.Valid() && Inv(cfg, s, si, ri) && OnDisk(s.receiver) && FromLast(cfg, s, a)
    ensures OnDisk(Step(cfg, s, a).receiver) && Allowed(cfg, s, a)
  {
    hide Inv, Emit, PointDue, DoTakeForward, DoBeginReceiver, Popped, Perform;
    match a {
      case BeginReceiver(p) => OnDiskBegins(cfg, s, p, si, ri);
      case TakeForward => OnDiskUnit(cfg, s, si, ri);
      case SendArticle => SendKeepsReceiver(cfg, s);
      case FailAtSync => SendKeepsReceiver(cfg, s);
      case SendEnd => SendKeepsReceiver(cfg, s);
      case Lose(len) => LoseKeepsDisk(cfg, s, len, si, ri);
      case _ =>
    }
  }

  lemma SendKeepsReceiver(cfg: Config, s: System)
    requires cfg.packing.Valid() && cfg.WellCut()
    ensures DoSendArticle(cfg, s).receiver == s.receiver
    ensures DoFailAtSync(cfg, s).receiver == s.receiver && DoSendEnd(cfg, s).receiver == s.receiver
  {
    hide Perform, PointDue, WithArticle, AtPoint, PointOps, ArticleOps;
  }

  lemma LoseKeepsDisk(cfg: Config, s: System, len: nat, si: nat, ri: nat)
    requires cfg.Valid() && Inv(cfg, s, si, ri) && OnDisk(s.receiver)
    ensures OnDisk(DoLose(s, len).receiver)
  {
  }

  lemma {:induction false} FromLastKeeps(cfg: Config, actions: seq<Action>)
    requires cfg.Valid() && AllFromLast(cfg, actions)
    ensures AllAllowed(cfg, actions) && OnDisk(DataPhase.Run(cfg, actions).receiver)
  {
    if actions != [] {
      hide Inv, Step, OnDisk, Allowed, FromLast;
      var before, a := actions[..|actions| - 1], actions[|actions| - 1];
      FromLastKeeps(cfg, before);
      var si, ri := RunKeeps(cfg, before);
      OnDiskStep(cfg, DataPhase.Run(cfg, before), a, si, ri);
    }
  }

  /** An application that always restarts from its last point needs no other care: the partial file reaches
      every point of the store, whatever was lost. */
  lemma LastPointIsSafe(cfg: Config, actions: seq<Action>, n: nat)
    requires cfg.Valid() && AllFromLast(cfg, actions)
    ensures AllAllowed(cfg, actions)
    ensures var r := DataPhase.Run(cfg, actions).receiver;
      n in r.store.points ==> r.store.points[n].fileOffset <= |r.file|
  {
    FromLastKeeps(cfg, actions);
    var si, ri := RunKeeps(cfg, actions);
    hide DataPhase.Run, SenderSide, ReceiverSide, Floors, SenderStoreOk;
  }

  // ---- restarting from another point ----

  predicate ZeroFrom(file: seq<byte>, n: nat)
  {
    forall j :: n <= j < |file| ==> file[j] == 0
  }

  /** A beginning of the whole file, cut or extended to where article `k` ends, is the file after `k` articles exactly
      when it reaches that far, or when all that is missing happens to be zero. */
  lemma ResizedExact(cfg: Config, file: seq<byte>, k: nat)
    requires k <= |cfg.arts| && file <= FileAt(cfg, |cfg.arts|)
    ensures var whole := FileAt(cfg, k);
      Resized(file, |whole|) == whole <==> (|whole| <= |file| || ZeroFrom(whole, |file|))
  {
    var whole, all := FileAt(cfg, k), FileAt(cfg, |cfg.arts|);
    WholeFile(cfg, k);
    if |whole| <= |file| {
      CutBack(cfg, file, k);
    } else {
      assert file == all[..|file|] == whole[..|file|];
      var zeros := Repeat(|whole| - |file|, 0);
      var out := Resized(file, |whole|);
      assert out == file + zeros;
      assert forall j :: |file| <= j < |whole| ==> out[j] == zeros[j - |file|] == 0;
      assert forall j :: 0 <= j < |file| ==> out[j] == file[j] == whole[j];
    }
  }

  /** Restarting from a point gives the file of that point exactly when the partial file reaches it, or when
      all that is missing happens to be zero: the file is extended with zeros. */
  lemma RestartExact(cfg: Config, r: Receiver, p: nat, i: nat)
    requires cfg.Valid() && FileOk(cfg, r) && PointAt(cfg, p, i)
    ensures var cp := ReceiverPoint(cfg, i);
      var whole := FileAt(cfg, Reach(cfg, i).k);
      TruncatedTo(r, cp).file == whole <==> (cp.fileOffset <= |r.file| || ZeroFrom(whole, |r.file|))
  {
    hide FileAt, Reach;
    ResizedExact(cfg, r.file, Reach(cfg, i).k);
  }
}
