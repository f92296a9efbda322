/** Restarting below the last point and then from the last one: a run that completes with zeros for an article. */
module DataZeros {
  import opened Bytes
  import opened Params
  import opened Cutter
  import opened FileIo
  import opened Compressors
  import opened Checkpoints
  import opened Canon
  import opened DataPhase
  import opened DataScripts
  import A = Articles

  /** Three uncompressed articles with points before the second and the third. */
  predicate ThreeArticles(cfg: Config)
  {
    && Simple(cfg) && cfg.sync.Enabled() && cfg.compression == NoCompression && |cfg.arts| == 3
    && (forall k :: 0 <= k < 3 ==> 1 <= |cfg.arts[k]| <= cfg.packing.MaxSingle())
    && |cfg.arts[0]| + |cfg.arts[1]| > cfg.Interval().value && |cfg.arts[1]| + |cfg.arts[2]| > cfg.Interval().value
  }

  /** All three articles sent, the first two taken, and the connection lost. */
  const FIRST_ATTEMPT: seq<Action> := StartFrom(0) + ARTICLE + ARTICLE_AT_POINT + ARTICLE_AT_POINT + [Lose(0)]

  /** The receiver restarts from point 1, and the connection is lost again. */
  const LOWER_POINT: seq<Action> := [BeginReceiver(1), Lose(0)]

  const LAST_POINT: seq<Action> := StartFrom(2) + ARTICLE + END

  // ---- the states of the run ----

  function Coder(cfg: Config): SenderState { NewSender(cfg.compression, cfg.maxArticle) }

  function Zeros(cfg: Config): seq<byte> { Repeat(cfg.RefSize(), 0) }

  /** The octets of the first `k` articles. */
  function Sum(cfg: Config, k: nat): nat
    requires k <= |cfg.arts|
  {
    if k == 0 then 0 else Sum(cfg, k - 1) + |cfg.arts[k - 1]|
  }

  /** The points before the second article up to article `k`. */
  function SenderNoted(cfg: Config, k: nat): Store
    requires cfg.WellCut() && k < |cfg.arts|
  {
    if k == 0 then NO_POINTS else SenderNoted(cfg, k - 1).Record(PointBefore(cfg, k, Sum(cfg, k), k))
  }

  function ReceiverNoted(cfg: Config, k: nat): Store
    requires k < |cfg.arts|
  {
    if k == 0 then NO_POINTS else ReceiverNoted(cfg, k - 1).Record(Checkpoint(k, |FileAt(cfg, k)|, Sum(cfg, k), k))
  }

  /** A sender about to send article `k`, point `n` being the last, `store` its store. */
  function Sends(cfg: Config, k: nat, n: nat, since: nat, store: Store): Sender
    requires cfg.WellCut() && k <= |cfg.arts|
  {
    Snd(cfg, Sending, k, Sum(cfg, k), n, since, Coder(cfg), store)
  }

  /** A receiver behind article `k`, point `n` being the last. */
  function Holds(cfg: Config, k: nat, n: nat, file: seq<byte>, durable: seq<byte>, store: Store): Receiver
    requires k <= |cfg.arts|
  {
    Receiver(Receiving, file, durable, Sum(cfg, k), k, n, None, Zeros(cfg), store)
  }

  lemma Facts(cfg: Config)
    requires ThreeArticles(cfg)
    ensures Simple(cfg) && |cfg.arts| == 3 && cfg.compression == NoCompression && cfg.Interval().Some? && !cfg.Acks()
    ensures forall k :: 0 <= k < 3 ==> 1 <= |cfg.arts[k]| <= cfg.packing.MaxSingle()
    ensures forall k :: 1 <= k < 3 ==> Due(cfg, |cfg.arts[k - 1]|, cfg.arts[k])
    ensures FileAt(cfg, 0) == []
  {
    assert cfg.arts[..0] == [];
  }

  /** An article of an attempt that has just started from the point before it. */
  lemma Plainly(cfg: Config, k: nat, n: nat, vs: Store, file: seq<byte>, durable: seq<byte>, rs: Store, p: nat)
    requires ThreeArticles(cfg) && k < 3
    ensures RunFrom(cfg, Sys(Sends(cfg, k, n, 0, vs), Holds(cfg, k, n, file, durable, rs), [], [], p), ARTICLE)
         == Sys(Sends(cfg, k + 1, n, |cfg.arts[k]|, vs),
                Holds(cfg, k + 1, n, file + ArticleToBytes(cfg.format, cfg.arts[k]), durable, rs), [], [], p)
  {
    hide Step, RunFrom;
    Facts(cfg);
    ArticleThrough(cfg, k, Sum(cfg, k), n, 0, Coder(cfg), vs, Holds(cfg, k, n, file, durable, rs), p, cfg.arts[k]);
  }

  /** Point `k` and the article behind it. */
  lemma AtPoint(cfg: Config, k: nat)
    requires ThreeArticles(cfg) && 1 <= k < 3
    ensures RunFrom(cfg, Sys(Sends(cfg, k, k - 1, |cfg.arts[k - 1]|, SenderNoted(cfg, k - 1)),
                             Holds(cfg, k, k - 1, FileAt(cfg, k), FileAt(cfg, k - 1), ReceiverNoted(cfg, k - 1)),
         [], [], 0),
                    ARTICLE_AT_POINT)
         == Sys(Sends(cfg, k + 1, k, |cfg.arts[k]|, SenderNoted(cfg, k)),
                Holds(cfg, k + 1, k, FileAt(cfg, k + 1), FileAt(cfg, k), ReceiverNoted(cfg, k)), [], [], 0)
  {
    hide Step, RunFrom, FileAt, ThreeArticles, Due;
    Facts(cfg);
    FileNext(cfg, k);
    PointThrough(cfg, k, Sum(cfg, k), k - 1, |cfg.arts[k - 1]|, Coder(cfg), SenderNoted(cfg, k - 1),
                 Holds(cfg, k, k - 1, FileAt(cfg, k), FileAt(cfg, k - 1), ReceiverNoted(cfg, k - 1)), 0, cfg.arts[k]);
  }

  /** The first article through, from the beginning. */
  lemma Beginning(cfg: Config)
    requires ThreeArticles(cfg)
    ensures RunFrom(cfg, Initial(cfg), StartFrom(0) + ARTICLE)
         == Sys(Sends(cfg, 1, 0, |cfg.arts[0]|, NO_POINTS), Holds(cfg, 1, 0, FileAt(cfg, 1), FileAt(cfg, 0), NO_POINTS),
                [], [], 0)
  {
    hide Step, RunFrom, FileAt;
    Facts(cfg);
    StartedAnew(cfg);
    FileNext(cfg, 0);
    Plainly(cfg, 0, 0, NO_POINTS, [], [], NO_POINTS, 0);
    Then(cfg, Initial(cfg), StartFrom(0), Sys(Sends(cfg, 0, 0, 0, NO_POINTS), Holds(cfg, 0, 0, [], [], NO_POINTS),
         [], [], 0),
         ARTICLE,
         Sys(Sends(cfg, 1, 0, |cfg.arts[0]|, NO_POINTS), Holds(cfg, 1, 0, FileAt(cfg, 1), [], NO_POINTS), [], [], 0));
  }

  /** Both sides have both points, and the file the first two articles. */
  lemma AfterFirst(cfg: Config)
    requires ThreeArticles(cfg)
    ensures Parked(RunFrom(cfg, Initial(cfg), FIRST_ATTEMPT), SenderNoted(cfg, 2), ReceiverNoted(cfg, 2),
                   FileAt(cfg, 2))
  {
    hide Step, RunFrom, FileAt, SenderNoted, ReceiverNoted;
    Facts(cfg);
    Beginning(cfg);
    NothingNoted(cfg);
    var s1 := Sys(Sends(cfg, 1, 0, |cfg.arts[0]|, NO_POINTS),
                  Holds(cfg, 1, 0, FileAt(cfg, 1), FileAt(cfg, 0), NO_POINTS), [], [], 0);
    var s2 := Sys(Sends(cfg, 2, 1, |cfg.arts[1]|, SenderNoted(cfg, 1)),
                  Holds(cfg, 2, 1, FileAt(cfg, 2), FileAt(cfg, 1), ReceiverNoted(cfg, 1)), [], [], 0);
    var v, r := Sends(cfg, 3, 2, |cfg.arts[2]|, SenderNoted(cfg, 2)),
                Holds(cfg, 3, 2, FileAt(cfg, 3), FileAt(cfg, 2), ReceiverNoted(cfg, 2));
    var s3 := Sys(v, r, [], [], 0);
    AtPoint(cfg, 1);
    AtPoint(cfg, 2);
    Then(cfg, Initial(cfg), StartFrom(0) + ARTICLE, s1, ARTICLE_AT_POINT, s2);
    Then(cfg, Initial(cfg), StartFrom(0) + ARTICLE + ARTICLE_AT_POINT, s2, ARTICLE_AT_POINT, s3);
    FileNext(cfg, 2);
    LostAfter(cfg, v, r, [], 0);
    Then(cfg, Initial(cfg), StartFrom(0) + ARTICLE + ARTICLE_AT_POINT + ARTICLE_AT_POINT, s3, [Lose(0)],
         RunFrom(cfg, s3, [Lose(0)]));
  }

  lemma NothingNoted(cfg: Config)
    requires cfg.WellCut() && cfg.arts != []
    ensures SenderNoted(cfg, 0) == NO_POINTS == ReceiverNoted(cfg, 0)
  {
  }

  lemma Noteds(cfg: Config)
    requires ThreeArticles(cfg)
    ensures SenderNoted(cfg, 2).Get(2) == Some(PointBefore(cfg, 2, Sum(cfg, 2), 2))
    ensures ReceiverNoted(cfg, 2).Get(2) == Some(Checkpoint(2, |FileAt(cfg, 2)|, Sum(cfg, 2), 2))
    ensures ReceiverNoted(cfg, 2).Get(1) == Some(Checkpoint(1, |FileAt(cfg, 1)|, Sum(cfg, 1), 1))
  {
    hide FileAt;
    assert ReceiverNoted(cfg, 1).Get(1).Some?;
  }

  /** The lower point leaves the file of the first article, and both points in the store. */
  lemma AfterLower(cfg: Config, s: System)
    requires ThreeArticles(cfg) && Parked(s, SenderNoted(cfg, 2), ReceiverNoted(cfg, 2), FileAt(cfg, 2))
    ensures Parked(RunFrom(cfg, s, LOWER_POINT), SenderNoted(cfg, 2), ReceiverNoted(cfg, 2), FileAt(cfg, 1))
  {
    hide RunFrom, FileAt, SenderNoted, ReceiverNoted;
    Noteds(cfg);
    FilePrefix(cfg, 1, 2);
    var t := Step(cfg, s, BeginReceiver(1));
    OpensIs(cfg, s, 1, ReceiverNoted(cfg, 2), SenderNoted(cfg, 2), FileAt(cfg, 2));
    assert Resized(FileAt(cfg, 2), |FileAt(cfg, 1)|) == FileAt(cfg, 1);
    TwoSteps(cfg, s, BeginReceiver(1), Lose(0));
    Loses(cfg, t);
  }

  /** The last point finds its file extended with zeros, and the third article behind them. */
  lemma AfterLast(cfg: Config, s: System) returns (t: System)
    requires ThreeArticles(cfg) && Parked(s, SenderNoted(cfg, 2), ReceiverNoted(cfg, 2), FileAt(cfg, 1))
    ensures RunFrom(cfg, s, LAST_POINT) == t
    ensures t.receiver.phase == Completed && t.sender.phase == Ended && t.sender.articles == t.receiver.articles == 3
    ensures t.sender.dataBytes == t.receiver.dataBytes
    ensures t.receiver.file == Resized(FileAt(cfg, 1), |FileAt(cfg, 2)|) + ArticleToBytes(cfg.format, cfg.arts[2])
  {
    hide Step, RunFrom, FileAt, SenderNoted, ReceiverNoted;
    Facts(cfg);
    Noteds(cfg);
    var vs, rs, file := SenderNoted(cfg, 2), ReceiverNoted(cfg, 2), Resized(FileAt(cfg, 1), |FileAt(cfg, 2)|);
    Started(cfg, s, 2, vs, rs, FileAt(cfg, 1));
    var s0 := Sys(Sends(cfg, 2, 2, 0, vs), Holds(cfg, 2, 2, file, file, rs), [], [], 2);
    assert RunFrom(cfg, s, StartFrom(2)) == s0;
    Plainly(cfg, 2, 2, vs, file, file, rs, 2);
    var r := Holds(cfg, 3, 2, file + ArticleToBytes(cfg.format, cfg.arts[2]), file, rs);
    var s1 := Sys(Sends(cfg, 3, 2, |cfg.arts[2]|, vs), r, [], [], 2);
    Then(cfg, s, StartFrom(2), s0, ARTICLE, s1);
    EndThrough(cfg, Sum(cfg, 3), 2, |cfg.arts[2]|, Coder(cfg), vs, r, 2);
    t := RunFrom(cfg, s1, END);
    Then(cfg, s, StartFrom(2) + ARTICLE, s1, END, t);
  }

  /** Both points recorded on both sides, a restart from the lower one that is lost at once, and a restart from the last
      one: the transfer completes with equal counters, and its file is right if and only if the article between the two
      points was nothing but zeros. */
  lemma {:induction false} ZeroFilled(cfg: Config)
    requires ThreeArticles(cfg)
    ensures var s := DataPhase.Run(cfg, FIRST_ATTEMPT);
      && 1 in s.receiver.store.points && s.receiver.store.IsLast(2) && 2 in s.sender.store.points
    ensures var t := DataPhase.Run(cfg, FIRST_ATTEMPT + LOWER_POINT + LAST_POINT);
      && t.receiver.phase == Completed && t.sender.phase == Ended
      && t.sender.articles == t.receiver.articles == 3 && t.sender.dataBytes == t.receiver.dataBytes
      && (t.receiver.file == Delivered(cfg.format, cfg.arts)
          <==> forall x :: x in ArticleToBytes(cfg.format, cfg.arts[1]) ==> x == 0)
  {
    hide RunFrom, ThreeArticles, SenderNoted, ReceiverNoted, FileAt;
    Facts(cfg);
    Noteds(cfg);
    LastNoted(cfg);
    AfterFirst(cfg);
    var s1 := RunFrom(cfg, Initial(cfg), FIRST_ATTEMPT);
    AfterLower(cfg, s1);
    var s2 := RunFrom(cfg, s1, LOWER_POINT);
    var t := AfterLast(cfg, s2);
    Then(cfg, Initial(cfg), FIRST_ATTEMPT, s1, LOWER_POINT, s2);
    Then(cfg, Initial(cfg), FIRST_ATTEMPT + LOWER_POINT, s2, LAST_POINT, t);
    FromInitial(cfg, FIRST_ATTEMPT);
    FromInitial(cfg, FIRST_ATTEMPT + LOWER_POINT + LAST_POINT);
    WholeOfThree(cfg);
    ZerosOrNot(FileAt(cfg, 1), ArticleToBytes(cfg.format, cfg.arts[1]), ArticleToBytes(cfg.format, cfg.arts[2]));
  }

  lemma LastNoted(cfg: Config)
    requires ThreeArticles(cfg)
    ensures ReceiverNoted(cfg, 2).IsLast(2)
  {
    hide FileAt;
    NothingNoted(cfg);
    assert ReceiverNoted(cfg, 1).points.Keys == {1};
  }

  lemma WholeOfThree(cfg: Config)
    requires ThreeArticles(cfg)
    ensures FileAt(cfg, 2) == FileAt(cfg, 1) + ArticleToBytes(cfg.format, cfg.arts[1])
    ensures Delivered(cfg.format, cfg.arts) == FileAt(cfg, 2) + ArticleToBytes(cfg.format, cfg.arts[2])
  {
    hide Delivered;
    FileNext(cfg, 1);
    FileNext(cfg, 2);
    assert cfg.arts[..3] == cfg.arts;
  }

  lemma ZerosOrNot(x: seq<byte>, y: seq<byte>, z: seq<byte>)
    ensures Resized(x, |x + y|) + z == x + y + z <==> forall b :: b in y ==> b == 0
  {
    var zeros: seq<byte> := Repeat(|y|, 0);
    assert Resized(x, |x + y|) == x + zeros;
    if x + zeros + z == x + y + z {
      assert zeros == (x + zeros + z)[|x|..][..|y|] && y == (x + y + z)[|x|..][..|y|];
    }
    if forall b :: b in y ==> b == 0 {
      assert forall i :: 0 <= i < |y| ==> y[i] in y;
      assert zeros == y;
    }
  }
}
