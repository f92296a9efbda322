/** A sender that fails between a SYN and its record: restarts from the receiver's last point are refused. */
module DataRefusal {
  import opened Bytes
  import opened Params
  import opened Cutter
  import opened Checkpoints
  import opened Compressors
  import opened Canon
  import opened DataPhase
  import opened DataScripts
  import opened DataZeros
  import opened DataLastPoint

  /** The first article, the SYN of a point that is never recorded, and the loss of the connection. */
  const STOPPED: seq<Action> := StartFrom(0) + ARTICLE + STOP_AT_POINT + [Lose(0)]

  lemma AfterStop(cfg: Config)
    requires ThreeArticles(cfg)
    ensures Parked(RunFrom(cfg, Initial(cfg), STOPPED), NO_POINTS, ReceiverNoted(cfg, 1), FileAt(cfg, 1))
  {
    hide Step, RunFrom, FileAt, ThreeArticles, Canon.Due;
    Facts(cfg);
    Beginning(cfg);
    NothingNoted(cfg);
    var r := Holds(cfg, 1, 0, FileAt(cfg, 1), FileAt(cfg, 0), NO_POINTS);
    var v := Snd(cfg, SendFailed, 1, Sum(cfg, 1), 0, |cfg.arts[0]|, Coder(cfg), NO_POINTS);
    StopThrough(cfg, 1, Sum(cfg, 1), 0, |cfg.arts[0]|, Coder(cfg), NO_POINTS, r, 0);
    var s1, s2 := Sys(Sends(cfg, 1, 0, |cfg.arts[0]|, NO_POINTS), r, [], [], 0), Sys(v, Noted(r, 1), [], [], 0);
    Then(cfg, Initial(cfg), StartFrom(0) + ARTICLE, s1, STOP_AT_POINT, s2);
    LostAfter(cfg, v, Noted(r, 1), [], 0);
    Then(cfg, Initial(cfg), StartFrom(0) + ARTICLE + STOP_AT_POINT, s2, [Lose(0)], RunFrom(cfg, s2, [Lose(0)]));
  }

  /** Such a run leaves the receiver with point 1 and the sender with none; as long as the receiver restarts from its last
      point, no sender ever starts again. */
  lemma {:induction false} StopIsFinal(cfg: Config, actions: seq<Action>)
    requires ThreeArticles(cfg) && AllInsist(cfg, DataPhase.Run(cfg, STOPPED), actions)
    ensures var s := DataPhase.Run(cfg, STOPPED);
      s.receiver.store.IsLast(1) && 1 !in s.sender.store.points
    ensures var t := DataPhase.Run(cfg, STOPPED + actions);
      t.sender.phase == SendIdle && t.receiver.phase != Completed
  {
    hide RunFrom, Step, FileAt, AllInsist, DataPhase.Run;
    AfterStop(cfg);
    FromInitial(cfg, STOPPED);
    NothingNoted(cfg);
    assert ReceiverNoted(cfg, 1).IsLast(1);
    RefusedForEver(cfg, DataPhase.Run(cfg, STOPPED), actions, 1);
    RunJoin(cfg, STOPPED, actions);
  }
}
