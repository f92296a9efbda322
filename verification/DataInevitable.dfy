/** Undamaged, a transfer completes in whatever order the turns are taken, one exception apart. */
module DataInevitable {
  import opened Bytes
  import opened Params
  import opened Checkpoints
  import opened Canon
  import opened DataPhase
  import opened LogFollowing
  import opened DataSafety
  import opened DataSteps
  import opened DataReception
  import opened DataTheorems
  import opened DataWindow
  import opened DataResults
  import opened DataNumbers
  import opened DataProgress
  import opened Cutter
  import DataQuiet
  import A = Articles

  /** The end of the file, sent while the receiver's request for a point is on its way. */
  predicate Late(s: System, a: Action)
  {
    a == SendEnd && s.receiver.phase == AwaitAck && Requested(s.back)
  }

  /** A turn that does something, and not too late. */
  ghost predicate Counts(cfg: Config, s: System, a: Action)
    requires cfg.packing.Valid() && cfg.WellCut()
  {
    Turn(a) && Step(cfg, s, a) != s && !Late(s, a)
  }

  /** Turns that each do something, up to completion. */
  ghost predicate Schedule(cfg: Config, s: System, turns: seq<Action>)
    requires cfg.packing.Valid() && cfg.WellCut()
    decreases |turns|
  {
    turns == []
    || (s.receiver.phase != Completed && Counts(cfg, s, turns[0]) && Schedule(cfg, Step(cfg, s, turns[0]), turns[1..]))
  }

  /** Every turn of the sending loop that does something leaves less to send. */
  lemma SendNearer(cfg: Config, s: System, a: Action, si: nat, ri: nat)
    requires cfg.Valid() && Inv(cfg, s, si, ri) && Running(cfg, s) && (a == SendArticle || a == SendEnd)
    requires Counts(cfg, s, a)
    ensures var t := Step(cfg, s, a); Running(cfg, t) && Nearer(cfg, s, t)
  {
    hide Reach, RefGood, FileAt, Follow, FollowOne, Holds, Flow, PointDue, Perform, PointOps, ArticleOps, A.Pushed,
      A.Flushed,
      SenderStoreOk, ReceiverStoreOk, ReceiverAt, ReceiverSide;
    var t := Step(cfg, s, a);
    assert s.sender.next <= |cfg.arts|;
    forall p | p in t.fwd ensures !p.damaged {
      if p.damaged {
        SentUndamaged(cfg, s, a, p);
      }
    }
  }

  /** Whatever turn does something, it completes the transfer or brings it nearer to its end. */
  lemma EveryTurnNearer(cfg: Config, s: System, a: Action, si: nat, ri: nat)
    requires cfg.Valid() && Inv(cfg, s, si, ri) && WindowOk(cfg, s) && Running(cfg, s)
    requires NumbersOk(cfg, s) && Passable(cfg) && Counts(cfg, s, a)
    ensures var t := Step(cfg, s, a);
      t.receiver.phase == Completed || (Running(cfg, t) && Nearer(cfg, s, t))
  {
    hide Inv, DataWindow.WindowOk, Running, NumbersOk, Nearer, DoSendArticle, DoSendEnd;
    match a {
      case SendArticle => SendNearer(cfg, s, a, si, ri);
      case SendEnd => SendNearer(cfg, s, a, si, ri);
      case TakeBack => TurnBack(cfg, s, si, ri);
      case TakeForward =>
        HeadReadable(cfg, s);
        TurnForward(cfg, s, si, ri);
    }
  }

  /** What holds at every state of an undamaged run whose loops are at work. */
  ghost predicate AtWork(cfg: Config, s: System)
    requires cfg.WellCut()
  {
    && (exists si, ri :: Inv(cfg, s, si, ri)) && WindowOk(cfg, s) && NumbersOk(cfg, s)
    && Running(cfg, s)
  }

  lemma WorkGoesOn(cfg: Config, s: System, a: Action)
    requires cfg.Valid() && Passable(cfg) && AtWork(cfg, s) && Counts(cfg, s, a)
    ensures var t := Step(cfg, s, a);
      t.receiver.phase == Completed || (AtWork(cfg, t) && Nearer(cfg, s, t))
  {
    hide Inv, DataWindow.WindowOk, Running, NumbersOk, Nearer, Step, Passable;
    var si, ri :| Inv(cfg, s, si, ri);
    EveryTurnNearer(cfg, s, a, si, ri);
    TurnAllowed(cfg, s, a);
    WindowStep(cfg, s, a, si, ri);
    NumbersStep(cfg, s, a, si, ri);
    var ti, qi := KeepsStep(cfg, s, a, si, ri);
  }

  /** Work is never at a standstill. */
  lemma SomethingCounts(cfg: Config, s: System) returns (a: Action)
    requires cfg.Valid() && Passable(cfg) && AtWork(cfg, s)
    ensures Counts(cfg, s, a)
  {
    hide Inv, DataWindow.WindowOk, Running, NumbersOk, Step, Passable;
    var si, ri :| Inv(cfg, s, si, ri);
    a := NextTurn(cfg, s, si, ri);
    RunningIsOpen(cfg, s);
    if Step(cfg, s, a) == s {
      NotNearer(cfg, s);
    }
    if Late(s, a) {
      AskedFirst(cfg, s, si, ri);
      a := TakeBack;
    }
  }

  lemma RunningIsOpen(cfg: Config, s: System)
    requires Running(cfg, s)
    ensures s.receiver.phase != Completed
  {
  }

  lemma NotNearer(cfg: Config, s: System)
    ensures !Nearer(cfg, s, s)
  {
  }

  lemma AskedFirst(cfg: Config, s: System, si: nat, ri: nat)
    requires cfg.Valid() && Inv(cfg, s, si, ri) && WindowOk(cfg, s) && Running(cfg, s) && Requested(s.back)
    ensures Counts(cfg, s, TakeBack)
  {
    hide Inv, DataWindow.WindowOk, Running, Step;
    TurnBack(cfg, s, si, ri);
    NotNearer(cfg, s);
  }

  lemma {:induction false} ScheduleWorks(cfg: Config, s: System, turns: seq<Action>)
    requires cfg.Valid() && Passable(cfg) && AtWork(cfg, s) && Schedule(cfg, s, turns)
    ensures var t := RunFrom(cfg, s, turns); t.receiver.phase == Completed || AtWork(cfg, t)
    decreases |turns|
  {
    hide AtWork, Step, Counts, Passable, Nearer;
    if turns != [] {
      var t := Step(cfg, s, turns[0]);
      WorkGoesOn(cfg, s, turns[0]);
      if t.receiver.phase == Completed {
        assert turns[1..] == [];
      } else {
        ScheduleWorks(cfg, t, turns[1..]);
      }
    }
  }

  lemma RunAtWork(cfg: Config, past: seq<Action>)
    requires cfg.Valid() && AllAllowed(cfg, past) && Running(cfg, DataPhase.Run(cfg, past))
    ensures AtWork(cfg, DataPhase.Run(cfg, past))
  {
    hide Inv, DataWindow.WindowOk, Running, NumbersOk, DataPhase.Run;
    var si, ri := RunKeeps(cfg, past);
    RunWindow(cfg, past);
    RunNumbers(cfg, past);
  }

  lemma {:induction false} ScheduleTurns(cfg: Config, s: System, turns: seq<Action>)
    requires cfg.packing.Valid() && cfg.WellCut() && Schedule(cfg, s, turns)
    ensures forall a :: a in turns ==> Turn(a)
    decreases |turns|
  {
    hide Step;
    if turns != [] {
      ScheduleTurns(cfg, Step(cfg, s, turns[0]), turns[1..]);
      assert forall a :: a in turns ==> a == turns[0] || a in turns[1..];
    }
  }

  /** From every undamaged state with both loops at work, any turns that each do something, carried on until none is
      left that does, end in completion with the whole file. */
  lemma {:induction false} EveryScheduleCompletes(cfg: Config, past: seq<Action>, turns: seq<Action>)
    requires cfg.Valid() && Passable(cfg) && AllAllowed(cfg, past) && Running(cfg, DataPhase.Run(cfg, past))
    requires Schedule(cfg, DataPhase.Run(cfg, past), turns)
    requires var t := DataPhase.Run(cfg, past + turns); t.receiver.phase == Completed || forall a :: !Counts(cfg, t, a)
    ensures var r := DataPhase.Run(cfg, past + turns).receiver;
      r.phase == Completed && r.file == Delivered(cfg.format, cfg.arts)
  {
    hide DataPhase.Run, AtWork, Running, Schedule, Counts, Step, Passable;
    var s := DataPhase.Run(cfg, past);
    RunAtWork(cfg, past);
    ScheduleWorks(cfg, s, turns);
    ScheduleTurns(cfg, s, turns);
    RunOn(cfg, past, turns);
    var t := DataPhase.Run(cfg, past + turns);
    if t.receiver.phase != Completed {
      var a := SomethingCounts(cfg, t);
    }
    ExactDelivery(cfg, past + turns);
  }

  /** The first `n` turns of an endless schedule. */
  function FirstTurns(f: nat -> Action, n: nat): seq<Action> { seq(n, i requires 0 <= i < n => f(i)) }

  /** No schedule goes on for ever: any endless sequence of turns comes to completion, or to a turn that does nothing or
      is too late. */
  lemma {:induction false} NoEndlessSchedule(cfg: Config, past: seq<Action>, f: nat -> Action) returns (n: nat)
    requires cfg.Valid() && Passable(cfg) && AllAllowed(cfg, past) && Running(cfg, DataPhase.Run(cfg, past))
    ensures var s := DataPhase.Run(cfg, past);
      var t := RunFrom(cfg, s, FirstTurns(f, n));
      Schedule(cfg, s, FirstTurns(f, n)) && (t.receiver.phase == Completed || !Counts(cfg, t, f(n)))
  {
    hide DataPhase.Run, AtWork, Running, Schedule, RunFrom;
    RunAtWork(cfg, past);
    n := Ends(cfg, DataPhase.Run(cfg, past), f);
  }

  lemma {:induction false} Ends(cfg: Config, s: System, f: nat -> Action) returns (n: nat)
    requires cfg.Valid() && Passable(cfg) && AtWork(cfg, s)
    ensures var t := RunFrom(cfg, s, FirstTurns(f, n));
      Schedule(cfg, s, FirstTurns(f, n)) && (t.receiver.phase == Completed || !Counts(cfg, t, f(n)))
    decreases Stage(s), Left(cfg, s), |s.fwd|, |s.back|
  {
    hide AtWork, Step, Counts, Passable, Stage, Left;
    if !Counts(cfg, s, f(0)) {
      n := 0;
      assert FirstTurns(f, 0) == [];
    } else {
      WorkIsOpen(cfg, s);
      WorkGoesOn(cfg, s, f(0));
      var t := Step(cfg, s, f(0));
      if t.receiver.phase == Completed {
        n := 1;
        assert FirstTurns(f, 1) == [f(0)] && [f(0)][1..] == [];
        assert RunFrom(cfg, t, []) == t;
      } else {
        var g := (i: nat) => f(i + 1);
        var m := Ends(cfg, t, g);
        n := m + 1;
        assert FirstTurns(f, n)[0] == f(0) && FirstTurns(f, n)[1..] == FirstTurns(g, m);
      }
    }
  }

  lemma WorkIsOpen(cfg: Config, s: System)
    requires cfg.WellCut() && AtWork(cfg, s)
    ensures s.receiver.phase != Completed
  {
  }

  // ---- too late ----

  /** The receiver waits for an answer that no turn will bring. */
  predicate Deaf(s: System)
  {
    && (s.receiver.phase == AwaitAck || s.receiver.phase == ReceiveFailed)
    && AfterAck(Pdus(s.fwd)) == None && s.sender.entity == []
    && ((s.sender.phase == Ended && Requested(s.back)) || s.sender.phase == SendFailed)
  }

  lemma DeafStays(cfg: Config, s: System, a: Action)
    requires cfg.packing.Valid() && cfg.WellCut() && Deaf(s) && Turn(a)
    ensures Deaf(Step(cfg, s, a))
  {
    hide Perform, PointDue, Popped;
    if s.back != [] && s.back[0].AckSyn? {
      assert s.back[1..] != [] ==> s.back[1..][|s.back| - 2] == s.back[|s.back| - 1];
    }
    if s.fwd != [] {
      assert Pdus(s.fwd)[1..] == Pdus(s.fwd[1..]);
    }
  }

  lemma {:induction false} DeafForEver(cfg: Config, s: System, turns: seq<Action>)
    requires cfg.packing.Valid() && cfg.WellCut() && Deaf(s) && (forall a :: a in turns ==> Turn(a))
    ensures RunFrom(cfg, s, turns).receiver.phase != Completed
    decreases |turns|
  {
    hide Step;
    if turns != [] {
      assert turns[0] in turns;
      DeafStays(cfg, s, turns[0]);
      DeafForEver(cfg, Step(cfg, s, turns[0]), turns[1..]);
    }
  }

  lemma LateIsDeaf(cfg: Config, s: System, si: nat, ri: nat)
    requires cfg.Valid() && Inv(cfg, s, si, ri) && Running(cfg, s) && Late(s, SendEnd) && Step(cfg, s, SendEnd) != s
    ensures Deaf(Step(cfg, s, SendEnd))
  {
    hide Reach, RefGood, FileAt, Follow, FollowOne, Holds, Perform, A.Flushed, SenderStoreOk, ReceiverStoreOk;
    var v := s.sender;
    var ops := Puts(Datas(A.Flushed(cfg.packing, v.pending))) + [PutAndSend(DtfEnd)];
    PerformFlow(cfg, v.entity, s.fwd, ops);
    OneOp(PutAndSend(DtfEnd));
    DataOps(A.Flushed(cfg.packing, v.pending), [PutAndSend(DtfEnd)]);
    DataQuiet.LastSent(cfg, v.entity, s.fwd, Puts(Datas(A.Flushed(cfg.packing, v.pending))), DtfEnd);
    AckFreeNone(PdusOf(ops));
    AfterAckAppend(Flow(s.fwd, v.entity), PdusOf(ops));
    var t := Step(cfg, s, SendEnd);
    assert Flow(t.fwd, []) == Pdus(t.fwd) + [] == Pdus(t.fwd);
  }

  /** The exception is one: once the end goes out while a request for a point is on its way, no turns complete the
      transfer any more. */
  lemma {:induction false} LateIsFinal(cfg: Config, past: seq<Action>, turns: seq<Action>)
    requires cfg.Valid() && AllAllowed(cfg, past) && Running(cfg, DataPhase.Run(cfg, past))
    requires Late(DataPhase.Run(cfg, past), SendEnd)
      && Step(cfg, DataPhase.Run(cfg, past), SendEnd) != DataPhase.Run(cfg, past)
    requires forall a :: a in turns ==> Turn(a)
    ensures DataPhase.Run(cfg, past + [SendEnd] + turns).receiver.phase != Completed
  {
    hide DataPhase.Run, Inv, Deaf, Step, Running;
    var si, ri := RunKeeps(cfg, past);
    var s := DataPhase.Run(cfg, past);
    LateIsDeaf(cfg, s, si, ri);
    RunJoin(cfg, past, [SendEnd]);
    OneStep(cfg, s, SendEnd);
    DeafForEver(cfg, Step(cfg, s, SendEnd), turns);
    RunJoin(cfg, past + [SendEnd], turns);
  }
}
