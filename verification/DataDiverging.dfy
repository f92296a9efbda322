/** Three attempts under vertical coding, two cuts of one number, and a file that lacks an article. */
module DataDiverging {
  import opened Bytes
  import opened Params
  import opened Cutter
  import opened FileIo
  import opened Compressors
  import opened Checkpoints
  import opened Canon
  import opened DataPhase
  import opened DataScripts
  import C = Compress
  import A = Articles

  /** The compressed form of an article behind others. */
  function Coded(cfg: Config, ref: seq<byte>, a: seq<byte>): seq<byte>
  {
    SenderState(cfg.compression, ref, false).WireOf(a)
  }

  /** The length of an article sent literally. */
  function Plain(a: seq<byte>): nat { |a| + C.Chunks(|a|) }

  function Zeros(cfg: Config): seq<byte> { Repeat(cfg.RefSize(), 0) }

  /** Four articles, and points at an interval such that the third article needs a point before it when the transfer
      restarts from the second, and none when it comes from the beginning. */
  predicate Diverging(cfg: Config)
  {
    && Simple(cfg) && cfg.sync.Enabled() && cfg.UsesRef() && |cfg.arts| == 4
    && (forall k :: 0 <= k < 4 ==> |cfg.arts[k]| <= cfg.RefSize()
                                   && 3 * |cfg.arts[k]| + C.Chunks(|cfg.arts[k]|) <= 2 * cfg.packing.MaxSingle())
    && cfg.arts[1] != [] && cfg.arts[2] != []
    && var interval, ref := cfg.Interval().value, Overwrite(Overwrite(Zeros(cfg), cfg.arts[0]), cfg.arts[1]);
       var since := Plain(cfg.arts[1]) + |Coded(cfg, ref, cfg.arts[2])|;
       && Plain(cfg.arts[0]) > interval
       && since <= interval < since + |Coded(cfg, Overwrite(ref, cfg.arts[2]), cfg.arts[3])|
       && Plain(cfg.arts[1]) + |Coded(cfg, Overwrite(Zeros(cfg), cfg.arts[1]), cfg.arts[2])| > interval
  }

  /** From the beginning: points 1 and 2 before the second and the fourth article; point 2 does not get through. */
  const FIRST_ATTEMPT: seq<Action> := StartFrom(0) + ARTICLE + ARTICLE_AT_POINT + ARTICLE + [SendArticle] + [Lose(0)]

  /** From point 1: point 2 before the third article; its sender fails before recording it. */
  const SECOND_ATTEMPT: seq<Action> := StartFrom(1) + ARTICLE + STOP_AT_POINT + [Lose(0)]

  const THIRD_ATTEMPT: seq<Action> := StartFrom(2) + ARTICLE + END

  lemma Facts(cfg: Config)
    requires Diverging(cfg)
    ensures Simple(cfg) && |cfg.arts| == 4 && cfg.compression != NoCompression && cfg.Interval().Some? && !cfg.Acks()
    ensures forall k :: 0 <= k < 4 ==> |cfg.arts[k]| <= cfg.RefSize()
  {
  }

  lemma Fits(cfg: Config, k: nat, ref: seq<byte>, literal: bool)
    requires Diverging(cfg) && k < 4
    ensures var w := WireOut(cfg, SenderState(cfg.compression, ref, literal), cfg.arts[k]);
      && |w| <= cfg.packing.MaxSingle() && (literal ==> |w| == Plain(cfg.arts[k]))
      && (!literal ==> w == Coded(cfg, ref, cfg.arts[k]))
  {
    hide C.Wire;
    var s, a := SenderState(cfg.compression, ref, literal), cfg.arts[k];
    C.Expansion(s.Mode(), a, Grow(ref, |a|));
  }

  /** The points the runs record: one before the second article, one before `k`. */
  function SenderStore(cfg: Config, bytes: nat, k: nat, more: nat): Store
    requires cfg.WellCut() && 1 <= k <= |cfg.arts|
  {
    NO_POINTS.Record(PointBefore(cfg, 1, bytes, 1)).Record(PointBefore(cfg, k, more, 2))
  }

  function FirstNoted(cfg: Config, bytes: nat): Store
    requires 1 <= |cfg.arts|
  {
    NO_POINTS.Record(Checkpoint(1, |FileAt(cfg, 1)|, bytes, 1))
  }

  lemma FirstFiles(cfg: Config)
    requires |cfg.arts| >= 2
    ensures FileAt(cfg, 1) == ArticleToBytes(cfg.format, cfg.arts[0])
    ensures FileAt(cfg, 2) == FileAt(cfg, 1) + ArticleToBytes(cfg.format, cfg.arts[1])
  {
    FileNext(cfg, 0);
    FileNext(cfg, 1);
    assert cfg.arts[..0] == [];
  }

  // ---- the first attempt ----

  /** The first article through, from the beginning. */
  lemma FirstThrough(cfg: Config) returns (r: Receiver)
    requires Diverging(cfg)
    ensures var a, z := cfg.arts[0], Zeros(cfg);
      && RunFrom(cfg, Initial(cfg), StartFrom(0) + ARTICLE)
         == Sys(Snd(cfg, Sending, 1, Plain(a), 0, Plain(a), SenderState(cfg.compression, Overwrite(z, a), false),
                    NO_POINTS),
                r, [], [], 0)
      && r == Receiver(Receiving, FileAt(cfg, 1), [], Plain(a), 1, 0, None, Overwrite(z, a), NO_POINTS)
  {
    hide Step, Diverging, Overwrite, ReadAs, RunFrom, Simple, ReceiverState.Decoded, FileAt;
    Facts(cfg);
    var a, z := cfg.arts[0], Zeros(cfg);
    StartedAnew(cfg);
    var r0 := Receiver(Receiving, [], [], 0, 0, 0, None, z, NO_POINTS);
    Fits(cfg, 0, z, true);
    LiteralReads(cfg, r0, a, z);
    ArticleThrough(cfg, 0, 0, 0, 0, SenderState(cfg.compression, z, true), NO_POINTS, r0, 0, a);
    var w := WireOut(cfg, SenderState(cfg.compression, z, true), a);
    r := Got(cfg, r0, w, a);
    FirstFiles(cfg);
    assert [] + ArticleToBytes(cfg.format, a) == ArticleToBytes(cfg.format, a);
    Then(cfg, Initial(cfg), StartFrom(0), Sys(Snd(cfg, Sending, 0, 0, 0, 0, SenderState(cfg.compression, z, true),
                                                  NO_POINTS), r0, [], [], 0), ARTICLE,
         Sys(Snd(cfg, Sending, 1, |w|, 0, |w|, SenderState(cfg.compression, Overwrite(z, a), false), NO_POINTS), r,
         [], [], 0));
  }

  /** Point 1 and the second article through. */
  lemma SecondThrough(cfg: Config) returns (r: Receiver)
    requires Diverging(cfg)
    ensures var a, b := cfg.arts[0], cfg.arts[1];
      var ref := Overwrite(Overwrite(Zeros(cfg), a), b);
      && RunFrom(cfg, Initial(cfg), StartFrom(0) + ARTICLE + ARTICLE_AT_POINT)
         == Sys(Snd(cfg, Sending, 2, Plain(a) + Plain(b), 1, Plain(b), SenderState(cfg.compression, ref, false),
                    NO_POINTS.Record(PointBefore(cfg, 1, Plain(a), 1))), r, [], [], 0)
      && r.phase == Receiving && r.partial == None && r.durable == FileAt(cfg, 1) <= r.file && r.reference == ref
      && r.store == FirstNoted(cfg, Plain(a))
  {
    hide Step, Diverging, Overwrite, ReadAs, RunFrom, Simple, ReceiverState.Decoded, FileAt, Coded;
    Facts(cfg);
    var a, b := cfg.arts[0], cfg.arts[1];
    var first := Overwrite(Zeros(cfg), a);
    var r1 := FirstThrough(cfg);
    var comp := SenderState(cfg.compression, first, false);
    assert Due(cfg, Plain(a), WireOut(cfg, comp, b)) by {
      LongFirst(cfg);
    }
    var on := SenderState(cfg.compression, Overwrite(first, b), true);
    assert Synced(cfg, comp, b) == on;
    TwiceIsOnce(first, b);
    Fits(cfg, 1, Overwrite(first, b), true);
    LiteralReads(cfg, r1, b, Overwrite(first, b));
    PointThrough(cfg, 1, Plain(a), 0, Plain(a), comp, NO_POINTS, r1, 0, b);
    var w := WireOut(cfg, on, b);
    r := Got(cfg, Noted(r1, 1), w, b);
    Then(cfg, Initial(cfg), StartFrom(0) + ARTICLE,
         Sys(Snd(cfg, Sending, 1, Plain(a), 0, Plain(a), comp, NO_POINTS), r1, [], [], 0),
         ARTICLE_AT_POINT,
         Sys(Snd(cfg, Sending, 2, Plain(a) + |w|, 1, |w|, SenderState(cfg.compression, Overwrite(first, b), false),
                 NO_POINTS.Record(PointBefore(cfg, 1, Plain(a), 1))), r, [], [], 0));
  }

  lemma LongFirst(cfg: Config)
    requires Diverging(cfg)
    ensures Plain(cfg.arts[0]) > cfg.Interval().value >= 1
  {
  }

  /** After the first attempt: the sender has points 1 and 2, the latter before the fourth article, the receiver has
      point 1. */
  lemma AfterFirst(cfg: Config) returns (more: nat)
    requires Diverging(cfg)
    ensures Parked(RunFrom(cfg, Initial(cfg), FIRST_ATTEMPT), SenderStore(cfg, Plain(cfg.arts[0]), 3, more),
                   FirstNoted(cfg, Plain(cfg.arts[0])), FileAt(cfg, 1))
  {
    hide Step, Diverging, Overwrite, ReadAs, RunFrom, Simple, ReceiverState.Decoded, FileAt, Coded;
    Facts(cfg);
    var a, b, c := cfg.arts[0], cfg.arts[1], cfg.arts[2];
    var ref := Overwrite(Overwrite(Zeros(cfg), a), b);
    var store := NO_POINTS.Record(PointBefore(cfg, 1, Plain(a), 1));
    var r := SecondThrough(cfg);
    var s := Sys(Snd(cfg, Sending, 2, Plain(a) + Plain(b), 1, Plain(b), SenderState(cfg.compression, ref, false),
                     store), r, [], [], 0);
    var q, t := ThirdThrough(cfg, ref, store, r);
    Then(cfg, Initial(cfg), StartFrom(0) + ARTICLE + ARTICLE_AT_POINT, s, ARTICLE, t);
    var v, fwd := FourthSent(cfg, ref, store, q);
    more := Plain(a) + Plain(b) + |Coded(cfg, ref, c)|;
    Then(cfg, Initial(cfg), StartFrom(0) + ARTICLE + ARTICLE_AT_POINT + ARTICLE, t, [SendArticle],
         Sys(v, q, fwd, [], 0));
    LostAfter(cfg, v, q, fwd, 0);
    Then(cfg, Initial(cfg), StartFrom(0) + ARTICLE + ARTICLE_AT_POINT + ARTICLE + [SendArticle], Sys(v, q, fwd, [], 0),
         [Lose(0)],
         RunFrom(cfg, Sys(v, q, fwd, [], 0), [Lose(0)]));
  }

  lemma NotDueThird(cfg: Config, ref: seq<byte>)
    requires Diverging(cfg) && ref == Overwrite(Overwrite(Zeros(cfg), cfg.arts[0]), cfg.arts[1])
    ensures !Due(cfg, Plain(cfg.arts[1]), Coded(cfg, ref, cfg.arts[2]))
  {
    hide Coded, Overwrite, Simple;
  }

  lemma FullReference(cfg: Config, ref: seq<byte>)
    requires Diverging(cfg) && ref == Overwrite(Overwrite(Zeros(cfg), cfg.arts[0]), cfg.arts[1])
    ensures |ref| == cfg.RefSize()
  {
    hide Coded, Simple;
  }

  /** The third article, cheap behind the first. */
  lemma ThirdThrough(cfg: Config, ref: seq<byte>, store: Store, r: Receiver) returns (q: Receiver, t: System)
    requires Diverging(cfg) && ref == Overwrite(Overwrite(Zeros(cfg), cfg.arts[0]), cfg.arts[1])
    requires r.phase == Receiving && r.partial == None && r.reference == ref && r.durable <= r.file
    ensures var a, b, w := cfg.arts[0], cfg.arts[1], Coded(cfg, ref, cfg.arts[2]);
      && RunFrom(cfg, Sys(Snd(cfg, Sending, 2, Plain(a) + Plain(b), 1, Plain(b),
                              SenderState(cfg.compression, ref, false), store),
                          r, [], [], 0), ARTICLE) == t
      && t == Sys(Snd(cfg, Sending, 3, Plain(a) + Plain(b) + |w|, 1, Plain(b) + |w|,
                      SenderState(cfg.compression, Overwrite(ref, cfg.arts[2]), false), store), q, [], [], 0)
    ensures q.durable == r.durable <= q.file && q.store == r.store
  {
    hide Step, Diverging, Overwrite, ReadAs, RunFrom, Simple, ReceiverState.Decoded, FileAt, Coded, WireOut, Due;
    Facts(cfg);
    var a, b, c := cfg.arts[0], cfg.arts[1], cfg.arts[2];
    var comp := SenderState(cfg.compression, ref, false);
    Fits(cfg, 2, ref, false);
    NotDueThird(cfg, ref);
    FullReference(cfg, ref);
    SameReads(cfg, r, c, false);
    ArticleThrough(cfg, 2, Plain(a) + Plain(b), 1, Plain(b), comp, store, r, 0, c);
    q := Got(cfg, r, WireOut(cfg, comp, c), c);
    t := Sys(Snd(cfg, Sending, 3, Plain(a) + Plain(b) + |Coded(cfg, ref, c)|, 1, Plain(b) + |Coded(cfg, ref, c)|,
                 SenderState(cfg.compression, Overwrite(ref, c), false), store), q, [], [], 0);
  }

  /** The fourth article behind point 2, neither of which is taken. */
  lemma FourthSent(cfg: Config, ref: seq<byte>, store: Store, r: Receiver) returns (v: Sender, fwd: seq<Packet>)
    requires Diverging(cfg) && ref == Overwrite(Overwrite(Zeros(cfg), cfg.arts[0]), cfg.arts[1])
    ensures var a, b, w := cfg.arts[0], cfg.arts[1], Coded(cfg, ref, cfg.arts[2]);
      && RunFrom(cfg, Sys(Snd(cfg, Sending, 3, Plain(a) + Plain(b) + |w|, 1, Plain(b) + |w|,
                              SenderState(cfg.compression, Overwrite(ref, cfg.arts[2]), false), store), r, [], [], 0),
                                [SendArticle])
         == Sys(v, r, fwd, [], 0)
      && v.store == store.Record(PointBefore(cfg, 3, Plain(a) + Plain(b) + |w|, 2))
  {
    hide Step, Overwrite, RunFrom, Coded, Due, CompSent;
    Facts(cfg);
    var d, bytes := cfg.arts[3], Plain(cfg.arts[0]) + Plain(cfg.arts[1]) + |Coded(cfg, ref, cfg.arts[2])|;
    var since := Plain(cfg.arts[1]) + |Coded(cfg, ref, cfg.arts[2])|;
    var comp := SenderState(cfg.compression, Overwrite(ref, cfg.arts[2]), false);
    Fits(cfg, 3, Overwrite(ref, cfg.arts[2]), false);
    DueFourth(cfg, since, WireOut(cfg, comp, d));
    SyncedIs(cfg, comp, d);
    Fits(cfg, 3, Overwrite(comp.reference, d), true);
    SendsPoint(cfg, 3, bytes, 1, since, comp, store, r, [], [], 0);
    OneStep(cfg, Sys(Snd(cfg, Sending, 3, bytes, 1, since, comp, store), r, [], [], 0), SendArticle);
    var on := Synced(cfg, comp, d);
    var w := WireOut(cfg, on, d);
    v := Snd(cfg, Sending, 4, bytes + |w|, 2, |w|, CompSent(cfg, on, d), store.Record(PointBefore(cfg, 3, bytes, 2)));
    fwd := [] + [Marking(2), Carrying(cfg, w)];
  }

  lemma SyncedIs(cfg: Config, comp: SenderState, a: seq<byte>)
    requires cfg.compression != NoCompression
    ensures Synced(cfg, comp, a) == SenderState(comp.compression, Overwrite(comp.reference, a), true)
  {
  }

  lemma DueFourth(cfg: Config, since: nat, w: seq<byte>)
    requires Diverging(cfg)
    requires var ref := Overwrite(Overwrite(Zeros(cfg), cfg.arts[0]), cfg.arts[1]);
      && since == Plain(cfg.arts[1]) + |Coded(cfg, ref, cfg.arts[2])|
      && w == Coded(cfg, Overwrite(ref, cfg.arts[2]), cfg.arts[3])
    ensures Due(cfg, since, w)
  {
    hide Coded, Overwrite;
  }

  // ---- the second attempt ----

  function BothNoted(cfg: Config, bytes: nat, more: nat): Store
    requires 2 <= |cfg.arts|
  {
    FirstNoted(cfg, bytes).Record(Checkpoint(2, |FileAt(cfg, 2)|, more, 2))
  }

  /** The second attempt up to its article. */
  lemma SecondArticle(cfg: Config, s: System, more: nat) returns (v1: Sender, r1: Receiver)
    requires Diverging(cfg)
    requires Parked(s, SenderStore(cfg, Plain(cfg.arts[0]), 3, more), FirstNoted(cfg, Plain(cfg.arts[0])),
                    FileAt(cfg, 1))
    ensures var a, b := cfg.arts[0], cfg.arts[1];
      v1 == Snd(cfg, Sending, 2, Plain(a) + Plain(b), 1, Plain(b),
                SenderState(cfg.compression, Overwrite(Zeros(cfg), b), false), SenderStore(cfg, Plain(a), 3, more))
    ensures var a, b := cfg.arts[0], cfg.arts[1];
      r1 == Receiver(Receiving, FileAt(cfg, 1) + ArticleToBytes(cfg.format, b), FileAt(cfg, 1), Plain(a) + Plain(b), 2, 1,
                     None, Overwrite(Zeros(cfg), b), FirstNoted(cfg, Plain(a)))
    ensures RunFrom(cfg, s, StartFrom(1) + ARTICLE) == Sys(v1, r1, [], [], 1)
  {
    hide Step, Diverging, Overwrite, ReadAs, RunFrom, ReceiverState.Decoded, FileAt, Coded, ArticleToBytes;
    Facts(cfg);
    var a, b, z := cfg.arts[0], cfg.arts[1], Zeros(cfg);
    var vs, rs := SenderStore(cfg, Plain(a), 3, more), FirstNoted(cfg, Plain(a));
    var r0 := Receiver(Receiving, FileAt(cfg, 1), FileAt(cfg, 1), Plain(a), 1, 1, None, z, rs);
    var comp := SenderState(cfg.compression, z, true);
    var s0 := Sys(Snd(cfg, Sending, 1, Plain(a), 1, 0, comp, vs), r0, [], [], 1);
    Started(cfg, s, 1, vs, rs, FileAt(cfg, 1));
    assert RunFrom(cfg, s, StartFrom(1)) == s0;
    Fits(cfg, 1, z, true);
    SameReads(cfg, r0, b, true);
    ArticleThrough(cfg, 1, Plain(a), 1, 0, comp, vs, r0, 1, b);
    r1 := Got(cfg, r0, WireOut(cfg, comp, b), b);
    v1 := Snd(cfg, Sending, 2, Plain(a) + Plain(b), 1, Plain(b), SenderState(cfg.compression, Overwrite(z, b), false), vs);
    Then(cfg, s, StartFrom(1), s0, ARTICLE, Sys(v1, r1, [], [], 1));
  }

  /** After the second attempt the receiver has a point 2 before the third article. */
  lemma AfterSecond(cfg: Config, s: System, more: nat)
    requires Diverging(cfg)
    requires Parked(s, SenderStore(cfg, Plain(cfg.arts[0]), 3, more), FirstNoted(cfg, Plain(cfg.arts[0])),
                    FileAt(cfg, 1))
    ensures var a, b := cfg.arts[0], cfg.arts[1];
      Parked(RunFrom(cfg, s, SECOND_ATTEMPT), SenderStore(cfg, Plain(a), 3, more),
             BothNoted(cfg, Plain(a), Plain(a) + Plain(b)),
             FileAt(cfg, 2))
  {
    hide Step, Diverging, Overwrite, ReadAs, RunFrom, ReceiverState.Decoded, FileAt, Coded, ArticleToBytes;
    Facts(cfg);
    var a, b, z := cfg.arts[0], cfg.arts[1], Zeros(cfg);
    var vs, coded := SenderStore(cfg, Plain(a), 3, more), SenderState(cfg.compression, Overwrite(z, b), false);
    var v1, r1 := SecondArticle(cfg, s, more);
    FirstFiles(cfg);
    Fits(cfg, 2, Overwrite(z, b), false);
    DueThird(cfg, WireOut(cfg, coded, cfg.arts[2]));
    StopThrough(cfg, 2, Plain(a) + Plain(b), 1, Plain(b), coded, vs, r1, 1);
    var v2 := Snd(cfg, SendFailed, 2, Plain(a) + Plain(b), 1, Plain(b), coded, vs);
    var s2 := Sys(v2, Noted(r1, 2), [], [], 1);
    Then(cfg, s, StartFrom(1) + ARTICLE, Sys(v1, r1, [], [], 1), STOP_AT_POINT, s2);
    LostAfter(cfg, v2, Noted(r1, 2), [], 1);
    Then(cfg, s, StartFrom(1) + ARTICLE + STOP_AT_POINT, s2, [Lose(0)], RunFrom(cfg, s2, [Lose(0)]));
  }

  lemma DueThird(cfg: Config, w: seq<byte>)
    requires Diverging(cfg) && w == Coded(cfg, Overwrite(Zeros(cfg), cfg.arts[1]), cfg.arts[2])
    ensures Due(cfg, Plain(cfg.arts[1]), w)
  {
    hide Coded, Overwrite;
  }

  // ---- the third attempt ----

  /** The third attempt completes behind the receiver's point 2 with what follows the sender's. */
  lemma AfterThird(cfg: Config, s: System, more: nat) returns (t: System)
    requires Diverging(cfg)
    requires var a, b := cfg.arts[0], cfg.arts[1];
      Parked(s, SenderStore(cfg, Plain(a), 3, more), BothNoted(cfg, Plain(a), Plain(a) + Plain(b)), FileAt(cfg, 2))
    ensures RunFrom(cfg, s, THIRD_ATTEMPT) == t
    ensures t.receiver.phase == Completed && t.sender.phase == Ended && t.sender.articles == 4
      && t.receiver.articles == 3
    ensures t.receiver.file == FileAt(cfg, 2) + ArticleToBytes(cfg.format, cfg.arts[3])
  {
    hide Step, Diverging, Overwrite, ReadAs, RunFrom, ReceiverState.Decoded, FileAt, Coded;
    Facts(cfg);
    var a, b, d, z := cfg.arts[0], cfg.arts[1], cfg.arts[3], Zeros(cfg);
    var vs, rs := SenderStore(cfg, Plain(a), 3, more), BothNoted(cfg, Plain(a), Plain(a) + Plain(b));
    var r0 := Receiver(Receiving, FileAt(cfg, 2), FileAt(cfg, 2), Plain(a) + Plain(b), 2, 2, None, z, rs);
    var comp := SenderState(cfg.compression, z, true);
    var s0 := Sys(Snd(cfg, Sending, 3, more, 2, 0, comp, vs), r0, [], [], 2);
    Started(cfg, s, 2, vs, rs, FileAt(cfg, 2));
    assert RunFrom(cfg, s, StartFrom(2)) == s0;
    Fits(cfg, 3, z, true);
    SameReads(cfg, r0, d, true);
    ArticleThrough(cfg, 3, more, 2, 0, comp, vs, r0, 2, d);
    var w := WireOut(cfg, comp, d);
    var r1, coded := Got(cfg, r0, w, d), SenderState(cfg.compression, Overwrite(z, d), false);
    var s1 := Sys(Snd(cfg, Sending, 4, more + |w|, 2, |w|, coded, vs), r1, [], [], 2);
    Then(cfg, s, StartFrom(2), s0, ARTICLE, s1);
    EndThrough(cfg, more + |w|, 2, |w|, coded, vs, r1, 2);
    t := RunFrom(cfg, s1, END);
    Then(cfg, s, StartFrom(2) + ARTICLE, s1, END, t);
  }

  /** Two attempts leave two stores that name different articles by the number 2, although each began from points that
      stood at the same article; a third, from that point, completes without the third article. */
  lemma {:induction false} RestartDiverges(cfg: Config)
    requires Diverging(cfg)
    ensures var s := DataPhase.Run(cfg, FIRST_ATTEMPT + SECOND_ATTEMPT);
      && s.sender.store.Get(2).Some? && s.sender.store.Get(2).value.articles == 3
      && s.receiver.store.Get(2).Some? && s.receiver.store.Get(2).value.articles == 2
      && s.receiver.store.IsLast(2) && s.receiver.store.points[2].fileOffset == |s.receiver.file|
    ensures var t := DataPhase.Run(cfg, FIRST_ATTEMPT + SECOND_ATTEMPT + THIRD_ATTEMPT);
      && t.receiver.phase == Completed && t.sender.phase == Ended
      && t.receiver.file == Delivered(cfg.format, cfg.arts[..2]) + ArticleToBytes(cfg.format, cfg.arts[3])
      && t.receiver.file != Delivered(cfg.format, cfg.arts)
      && t.sender.articles == 4 && t.receiver.articles == 3
  {
    hide RunFrom, Diverging;
    Facts(cfg);
    var more := AfterFirst(cfg);
    var s1 := RunFrom(cfg, Initial(cfg), FIRST_ATTEMPT);
    AfterSecond(cfg, s1, more);
    var s2 := RunFrom(cfg, s1, SECOND_ATTEMPT);
    var t := AfterThird(cfg, s2, more);
    Then(cfg, Initial(cfg), FIRST_ATTEMPT, s1, SECOND_ATTEMPT, s2);
    Then(cfg, Initial(cfg), FIRST_ATTEMPT + SECOND_ATTEMPT, s2, THIRD_ATTEMPT, t);
    FromInitial(cfg, FIRST_ATTEMPT + SECOND_ATTEMPT);
    FromInitial(cfg, FIRST_ATTEMPT + SECOND_ATTEMPT + THIRD_ATTEMPT);
    Missing(cfg);
  }

  lemma Missing(cfg: Config)
    requires Diverging(cfg)
    ensures FileAt(cfg, 2) + ArticleToBytes(cfg.format, cfg.arts[3]) != Delivered(cfg.format, cfg.arts)
  {
    hide Diverging, Coded, ArticleToBytes, FileAt;
    MissingThird(cfg);
    var third, fourth := ArticleToBytes(cfg.format, cfg.arts[2]), ArticleToBytes(cfg.format, cfg.arts[3]);
    FileNext(cfg, 2);
    FileNext(cfg, 3);
    WholeFile(cfg);
    Longer(FileAt(cfg, 2), third, fourth);
  }

  lemma WholeFile(cfg: Config)
    ensures FileAt(cfg, |cfg.arts|) == Delivered(cfg.format, cfg.arts)
  {
    assert cfg.arts[..|cfg.arts|] == cfg.arts;
  }

  lemma Longer<T>(a: seq<T>, b: seq<T>, c: seq<T>)
    requires b != []
    ensures a + c != a + b + c
  {
    assert |a + c| < |a + b + c|;
  }

  lemma MissingThird(cfg: Config)
    requires Diverging(cfg)
    ensures |cfg.arts| == 4 && |ArticleToBytes(cfg.format, cfg.arts[2])| > 0
  {
    hide Coded;
  }
}
