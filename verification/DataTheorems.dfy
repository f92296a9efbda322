/** What holds in every run of the data phase: exact delivery, canonical points, points that are found. */
module DataTheorems {
  import opened Bytes
  import opened Params
  import opened Cutter
  import opened Compressors
  import opened Checkpoints
  import opened Canon
  import opened DataPhase
  import opened LogFollowing
  import opened DataSafety
  import opened DataSteps
  import opened DataReception
  import opened FileIo
  import F = Fpdu
  import A = Articles

  // ---- beginnings ----

  lemma InitialInv(cfg: Config)
    requires cfg.Valid()
    ensures Inv(cfg, Initial(cfg), 0, 0)
  {
  }

  lemma BeginningStore(cfg: Config, st: Store, p: nat, i: nat)
    requires cfg.WellCut() && SenderStoreOk(cfg, st) && PointAt(cfg, p, i) && st.Get(p) == Some(SenderPoint(cfg, i))
    ensures var kept := if p == 0 then NO_POINTS else st;
      && SenderStoreOk(cfg, kept) && kept.acknowledged <= p && (p >= 1 ==> p in kept.points)
  {
    hide Reach;
    if p == 0 {
      Origin(cfg);
    }
  }

  /** The sender as it starts from a point of its store. */
  lemma SenderBegins(cfg: Config, v: Sender, p: nat, i: nat)
    requires cfg.Valid() && SenderStoreOk(cfg, v.store) && (p == 0 || cfg.Tolerant())
    requires PointAt(cfg, p, i) && v.store.Get(p) == Some(SenderPoint(cfg, i))
    ensures var begun := v.(phase := Sending, comp := NewSender(cfg.compression, cfg.maxArticle),
                            store := if p == 0 then NO_POINTS else v.store);
      var w := ResumedAt(cfg, begun, SenderPoint(cfg, i));
      && SenderAt(cfg, w, i) && Holds(cfg, i, w.pending) && SenderHas(w, p) && SenderStoreOk(cfg, w.store)
      && w.phase == Sending && w.pending == [] && w.entity == []
      && w.store.acknowledged <= p == w.syncNo
  {
    hide RefGood, SenderAt, Holds, SenderStoreOk;
    var begun := v.(phase := Sending, comp := NewSender(cfg.compression, cfg.maxArticle),
                    store := if p == 0 then NO_POINTS else v.store);
    BeginningStore(cfg, v.store, p, i);
    RefFromScratch(cfg, Reach(cfg, i).k);
    RewindStep(cfg, begun, i);
    HoldsNothing(cfg, i);
  }

  /** The sender starts where the receiver starts or is going to. */
  lemma KeepsBeginSender(cfg: Config, s: System, p: nat, si: nat, ri: nat) returns (ti: nat, qi: nat)
    requires cfg.Valid() && Inv(cfg, s, si, ri) && Allowed(cfg, s, BeginSender(p))
    ensures Inv(cfg, DoBeginSender(cfg, s, p), ti, qi)
  {
    hide Follow, FollowOne, Flow, Holds, SenderAt, RefGood, Reach, ResumedAt, SenderStoreOk, SenderHas;
    ti, qi := si, ri;
    var v, t := s.sender, DoBeginSender(cfg, s, p);
    if v.phase == SendIdle && (s.start.Some? ==> s.start.value == p) && v.store.Get(p).Some? {
      ti := SenderPlace(cfg, v.store, p);
      if s.start.Some? {
        PointUnique(cfg, p, si, ti);
      } else {
        qi := ti;
      }
      SenderBegins(cfg, v, p, ti);
      BegunSide(cfg, s, t, si, ri, ti, qi);
    }
  }

  lemma BegunSide(cfg: Config, s: System, t: System, si: nat, ri: nat, ti: nat, qi: nat)
    requires cfg.WellCut() && Inv(cfg, s, si, ri) && s.sender.phase == SendIdle
    requires t.receiver == s.receiver && t.fwd == s.fwd && t.back == s.back && t.start.Some?
    requires s.start.Some? ==> t.start == s.start && si == ti && ri == qi
    requires s.start.None? ==> qi == ti
    requires PointAt(cfg, t.start.value, ti)
    requires t.sender.phase == Sending && t.sender.pending == [] && t.sender.entity == []
    ensures ReceiverSide(cfg, t, ti, qi)
  {
    hide RefGood, FileAt, Reach;
    assert Flow(s.fwd, []) == [];
  }

  lemma NothingRead(cfg: Config, v: Sender, i: nat)
    requires v.pending == []
    ensures Reads(cfg, v, i, (i, None), Flow([], []))
  {
    assert Flow([], []) == [];
  }

  /** The receiver starts, its file cut back to the point it restarts from. */
  lemma KeepsBeginReceiver(cfg: Config, s: System, p: nat, si: nat, ri: nat) returns (ti: nat, qi: nat)
    requires cfg.Valid() && Inv(cfg, s, si, ri) && Allowed(cfg, s, BeginReceiver(p))
    ensures Inv(cfg, DoBeginReceiver(cfg, s, p), ti, qi)
  {
    hide Follow, FollowOne, Flow, Holds, SenderAt, RefGood, Reach, TruncatedTo, ReceiverStoreOk, ReceiverAt, Reads, FileAt;
    ti, qi := si, ri;
    var r, t := s.receiver, DoBeginReceiver(cfg, s, p);
    if r.phase == ReceiveIdle && (s.start.Some? ==> s.start.value == p) && r.store.Get(p).Some? {
      qi := ReceiverPlace(cfg, r.store, p);
      if s.start.Some? {
        PointUnique(cfg, p, ri, qi);
      } else {
        ti := qi;
        NothingRead(cfg, s.sender, qi);
      }
      ReceiverBegins(cfg, r, p, qi);
      assert t.receiver.phase == Receiving && t.receiver.partial == None && t.receiver.lastSync == p;
    }
  }

  lemma ReceiverBegins(cfg: Config, r: Receiver, p: nat, i: nat)
    requires cfg.Valid() && ReceiverStoreOk(cfg, r.store) && FileOk(cfg, r)
    requires PointAt(cfg, p, i) && r.store.Get(p) == Some(ReceiverPoint(cfg, i)) && (p == 0 || cfg.Tolerant())
    requires ReceiverPoint(cfg, i).fileOffset <= |r.file|
    ensures var begun := r.(reference := NewReceiver(cfg.maxArticle).reference, store := if p == 0 then NO_POINTS else r.store);
      var t := TruncatedTo(begun, ReceiverPoint(cfg, i));
      && ReceiverAt(cfg, t, i) && FileOk(cfg, t) && HasPoint(t) && ReceiverStoreOk(cfg, t.store)
      && t.phase == Receiving && t.partial == None && t.lastSync == p
  {
    hide FileAt, Reach, RefGood, WireAt, RefAt;
    if p == 0 {
      Origin(cfg);
      PointUnique(cfg, 0, 0, i);
    }
    ReachOrder(cfg, i);
    RefFromScratch(cfg, Reach(cfg, i).k);
    CutBack(cfg, r.file, Reach(cfg, i).k);
    WholeFile(cfg, Reach(cfg, i).k);
  }

  // ---- the world ----

  lemma KeepsDamage(cfg: Config, s: System, i: nat, si: nat, ri: nat)
    requires cfg.Valid() && Inv(cfg, s, si, ri) && Allowed(cfg, s, Damage(i))
    ensures Inv(cfg, DoDamage(s, i), si, ri)
  {
    hide Follow, Reach, RefGood, FileAt, Holds;
    if i < |s.fwd| {
      DamageKeepsPdus(s.fwd, i);
    }
  }

  lemma KeepsLose(cfg: Config, s: System, len: nat, si: nat, ri: nat)
    requires cfg.Valid() && Inv(cfg, s, si, ri)
    ensures Inv(cfg, DoLose(s, len), si, ri)
  {
    hide Follow, Reach, RefGood, FileAt, Holds;
  }

  lemma KeepsForgetSender(cfg: Config, s: System, si: nat, ri: nat)
    requires cfg.Valid() && Inv(cfg, s, si, ri) && s.sender.phase == Ended
    ensures Inv(cfg, SenderStops(s.(sender := s.sender.(store := NO_POINTS))), si, ri)
  {
    hide Follow, Reach, RefGood, FileAt, Holds;
    KeepsSenderFails(cfg, s, si, ri);
  }

  lemma KeepsForgetReceiver(cfg: Config, s: System, si: nat, ri: nat)
    requires cfg.Valid() && Inv(cfg, s, si, ri) && s.receiver.phase == Completed
    ensures Inv(cfg, s.(receiver := s.receiver.(store := NO_POINTS)), si, ri)
  {
    hide Follow, Reach, RefGood, FileAt, Holds;
  }

  lemma KeepsSendArticle(cfg: Config, s: System, si: nat, ri: nat) returns (ti: nat)
    requires cfg.Valid() && Inv(cfg, s, si, ri)
    ensures Inv(cfg, DoSendArticle(cfg, s), ti, ri)
  {
    ti := si;
    if CanSend(cfg, s) && s.sender.next < |cfg.arts| {
      hide Inv, PointDue;
      if PointDue(cfg, s.sender) {
        KeepsArticleAtPoint(cfg, s, si, ri);
        ti := si + 2;
      } else {
        KeepsPlainArticle(cfg, s, si, ri);
        ti := si + 1;
      }
    }
  }

  lemma KeepsStep(cfg: Config, s: System, a: Action, si: nat, ri: nat) returns (ti: nat, qi: nat)
    requires cfg.Valid() && Inv(cfg, s, si, ri) && Allowed(cfg, s, a)
    ensures Inv(cfg, Step(cfg, s, a), ti, qi)
  {
    ti, qi := si, ri;
    hide Inv, DoSendArticle, DoTakeBack, DoTakeForward, DoLose, DoDamage, DoBeginSender, DoBeginReceiver, PointDue;
    match a {
      case BeginSender(p) => ti, qi := KeepsBeginSender(cfg, s, p, si, ri);
      case BeginReceiver(p) => ti, qi := KeepsBeginReceiver(cfg, s, p, si, ri);
      case SendArticle => ti := KeepsSendArticle(cfg, s, si, ri);
      case FailAtSync =>
        if CanSend(cfg, s) && s.sender.next < |cfg.arts| && PointDue(cfg, s.sender) {
          KeepsFailAtSync(cfg, s, si, ri);
        }
      case SendEnd =>
        if CanSend(cfg, s) && s.sender.next == |cfg.arts| {
          KeepsSendEnd(cfg, s, si, ri);
          ti := si + 1;
        }
      case TakeBack => ti := KeepsTakeBack(cfg, s, si, ri);
      case SenderFails =>
        if s.sender.phase != SendIdle {
          KeepsSenderFails(cfg, s, si, ri);
        }
      case TakeForward => qi := KeepsTakeForward(cfg, s, si, ri);
      case ReceiverFails =>
        if s.receiver.phase != ReceiveIdle {
          KeepsReceiverFails(cfg, s, si, ri, s.fwd);
        }
      case Damage(i) => KeepsDamage(cfg, s, i, si, ri);
      case Lose(len) => KeepsLose(cfg, s, len, si, ri);
      case ForgetSender =>
        if s.sender.phase == Ended {
          KeepsForgetSender(cfg, s, si, ri);
        }
      case ForgetReceiver =>
        if s.receiver.phase == Completed {
          KeepsForgetReceiver(cfg, s, si, ri);
        }
    }
  }

  /** The invariant holds after every run that is held to the hypotheses. */
  lemma {:induction false} RunKeeps(cfg: Config, actions: seq<Action>) returns (si: nat, ri: nat)
    requires cfg.Valid() && AllAllowed(cfg, actions)
    ensures Inv(cfg, DataPhase.Run(cfg, actions), si, ri)
  {
    if actions == [] {
      InitialInv(cfg);
      si, ri := 0, 0;
    } else {
      hide Inv, Step;
      var before, a := actions[..|actions| - 1], actions[|actions| - 1];
      si, ri := RunKeeps(cfg, before);
      si, ri := KeepsStep(cfg, DataPhase.Run(cfg, before), a, si, ri);
    }
  }

  /** A run with one more action. */
  lemma RunSnoc(cfg: Config, past: seq<Action>, a: Action)
    requires cfg.Valid() && AllAllowed(cfg, past) && Allowed(cfg, DataPhase.Run(cfg, past), a)
    ensures AllAllowed(cfg, past + [a]) && DataPhase.Run(cfg, past + [a]) == Step(cfg, DataPhase.Run(cfg, past), a)
  {
    assert (past + [a])[..|past|] == past;
  }
}
