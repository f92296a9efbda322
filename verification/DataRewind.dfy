/** Why vertical coding asks for covered articles: two articles, the longer one damaged and asked for again. */
module DataRewind {
  import opened Bytes
  import opened Params
  import opened Cutter
  import opened FileIo
  import opened Compressors
  import opened Checkpoints
  import opened Canon
  import opened DataPhase
  import opened DataScripts
  import C = Compress
  import F = Fpdu
  import A = Articles

  /** A text file of two lines sent with a reference, check bytes and resynchronisation, no synchronisation points, and
      room for each line in one FPDU. */
  predicate TwoLines(cfg: Config)
  {
    && Simple(cfg) && |cfg.arts| == 2 && cfg.format == Tv && cfg.resync && cfg.sync == NO_SYNC && cfg.UsesRef()
    && forall k :: 0 <= k < 2 ==> |cfg.arts[k]| <= cfg.RefSize()
                                  && 3 * |cfg.arts[k]| + C.Chunks(|cfg.arts[k]|) <= 2 * cfg.packing.MaxSingle()
  }

  /** An article sent and damaged on its way, the request for the beginning, and its answer. */
  const ASKED: seq<Action> := [SendArticle, Damage(0), TakeForward, TakeBack, TakeForward]

  /** Both articles sent, the second damaged, both sent again, and the end. */
  const REWOUND: seq<Action> := StartFrom(0) + ARTICLE + ASKED + ARTICLE + ARTICLE + END

  // ---- the states of the run ----

  /** The loops with `next` articles of `bytes` octets through, no points, and the two references. */
  function Standing(cfg: Config, next: nat, bytes: nat, ref: seq<byte>, literal: bool, r: Receiver): System
    requires cfg.WellCut() && next <= |cfg.arts|
  {
    Sys(Snd(cfg, Sending, next, bytes, 0, bytes, SenderState(cfg.compression, ref, literal), NO_POINTS), r, [], [], 0)
  }

  /** A receiver behind the beginning. */
  predicate Reads(cfg: Config, r: Receiver, ref: seq<byte>)
  {
    && r == Receiver(Receiving, r.file, [], r.dataBytes, r.articles, 0, None, ref, NO_POINTS)
    && |ref| == cfg.RefSize()
  }

  lemma WireFits(cfg: Config, next: nat, bytes: nat, ref: seq<byte>, literal: bool)
    requires TwoLines(cfg) && next < 2
    ensures var w := SenderState(cfg.compression, ref, literal).WireOf(cfg.arts[next]);
      |w| <= cfg.packing.MaxSingle() && !Due(cfg, bytes, w)
  {
    hide C.Wire;
    var s, a := SenderState(cfg.compression, ref, literal), cfg.arts[next];
    C.Expansion(s.Mode(), a, Grow(ref, |a|));
  }

  lemma Through(cfg: Config, next: nat, bytes: nat, ref: seq<byte>, literal: bool, r: Receiver, b: seq<byte>)
    requires TwoLines(cfg) && next < 2 && Reads(cfg, r, r.reference)
    requires ReadAs(cfg, r, SenderState(cfg.compression, ref, literal).WireOf(cfg.arts[next]), b)
      && |b| <= cfg.RefSize()
    ensures var a := cfg.arts[next];
      var w := SenderState(cfg.compression, ref, literal).WireOf(a);
      var t := Got(cfg, r, w, b);
      && RunFrom(cfg, Standing(cfg, next, bytes, ref, literal, r), ARTICLE)
         == Standing(cfg, next + 1, bytes + |w|, Overwrite(ref, a), false, t)
      && Reads(cfg, t, Overwrite(r.reference, b)) && t.file == r.file + b + [LF]
  {
    hide C.Wire, Step, ReceiverState.Decoded;
    WireFits(cfg, next, bytes, ref, literal);
    ArticleThrough(cfg, next, bytes, 0, bytes, SenderState(cfg.compression, ref, literal), NO_POINTS, r, 0, b);
  }

  /** The packet damaged, its receiver asks for the beginning, the sender goes back to it and answers. */
  lemma Asked(cfg: Config, bytes: nat, ref: seq<byte>, r: Receiver)
    requires TwoLines(cfg) && Reads(cfg, r, r.reference)
    ensures RunFrom(cfg, Standing(cfg, 1, bytes, ref, false, r), ASKED)
         == Standing(cfg, 0, 0, Overwrite(ref, cfg.arts[1]), true,
                     Receiver(Receiving, [], [], 0, 0, 0, None, r.reference, NO_POINTS))
  {
    hide C.Wire, Step, Overwrite;
    var a := cfg.arts[1];
    var w := SenderState(cfg.compression, ref, false).WireOf(a);
    WireFits(cfg, 1, bytes, ref, false);
    var s := Standing(cfg, 1, bytes, ref, false, r);
    SendsArticle(cfg, 1, bytes, 0, bytes, SenderState(cfg.compression, ref, false), NO_POINTS, r, [], [], 0);
    assert [] + [Carrying(cfg, w)] == [Carrying(cfg, w)];
    var sent := Snd(cfg, Sending, 2, bytes + |w|, 0, bytes + |w|,
                    SenderState(cfg.compression, Overwrite(ref, a), false), NO_POINTS);
    Answered(cfg, sent, r, w);
    assert ASKED == [SendArticle] + [Damage(0), TakeForward, TakeBack, TakeForward];
    OneStep(cfg, s, SendArticle);
    Then(cfg, s, [SendArticle], Sys(sent, r, [Carrying(cfg, w)], [], 0),
         [Damage(0), TakeForward, TakeBack, TakeForward],
         Standing(cfg, 0, 0, Overwrite(ref, a), true,
                  Receiver(Receiving, [], [], 0, 0, 0, None, r.reference, NO_POINTS)));
  }

  lemma Answered(cfg: Config, v: Sender, r: Receiver, w: seq<byte>)
    requires TwoLines(cfg) && Reads(cfg, r, r.reference)
    requires v == Snd(cfg, Sending, 2, v.dataBytes, 0, v.since, v.comp, NO_POINTS)
    requires v.comp.compression == cfg.compression
    ensures RunFrom(cfg, Sys(v, r, [Carrying(cfg, w)], [], 0), [Damage(0), TakeForward, TakeBack, TakeForward])
         == Standing(cfg, 0, 0, v.comp.reference, true,
                     Receiver(Receiving, [], [], 0, 0, 0, None, r.reference, NO_POINTS))
  {
    var s := Sys(v, r, [Carrying(cfg, w)], [], 0);
    var s1 := Step(cfg, s, Damage(0));
    assert s1 == s.(fwd := [Packet(Carrying(cfg, w).pdu, true)]);
    var s2 := Step(cfg, s1, TakeForward);
    var waiting := r.(phase := AwaitAck);
    assert s2 == Sys(v, waiting, [], [Resyn(0)], 0);
    var s3 := Step(cfg, s2, TakeBack);
    var back := Snd(cfg, Sending, 0, 0, 0, 0, SenderState(cfg.compression, v.comp.reference, true), NO_POINTS);
    assert s3 == Sys(back, waiting, [Packet(AckResyn(0), false)], [], 0);
    TwoSteps(cfg, s, Damage(0), TakeForward);
    TwoSteps(cfg, s2, TakeBack, TakeForward);
    assert [Damage(0), TakeForward, TakeBack, TakeForward] == [Damage(0), TakeForward] + [TakeBack, TakeForward];
    Then(cfg, s, [Damage(0), TakeForward], s2, [TakeBack, TakeForward], Step(cfg, s3, TakeForward));
  }

  // ---- the run ----

  /** The second article coded against both articles and read against the first alone: right exactly when nothing but
      zeros lies beyond the first. */
  lemma SecondRead(cfg: Config) returns (b: seq<byte>)
    requires TwoLines(cfg)
    ensures var q := Overwrite(Repeat(cfg.RefSize(), 0), cfg.arts[0]);
      var ref := Overwrite(Overwrite(q, cfg.arts[1]), cfg.arts[0]);
      ReceiverState(q, cfg.RefSize()).Decoded(SenderState(cfg.compression, ref, false).WireOf(cfg.arts[1])) == Ok(b)
    ensures |b| == |cfg.arts[1]|
    ensures b == cfg.arts[1] <==> (forall i :: |cfg.arts[0]| <= i < |cfg.arts[1]| ==> cfg.arts[1][i] == 0)
  {
    hide C.Decode, C.Wire, C.Received, Overwrite;
    var zeros, a0, a1, max := Repeat(cfg.RefSize(), 0), cfg.arts[0], cfg.arts[1], cfg.RefSize();
    var q := Overwrite(zeros, a0);
    var ref := Overwrite(Overwrite(q, a1), a0);
    var mode := C.ModeOf(cfg.compression);
    C.CrossReference(mode, a1, ref, q, max);
    b := C.Received(mode, a1, ref, q, 0);
    C.OtherReference(mode, a1, ref, q, max);
    forall i | 0 <= i < |a1| ensures a1[i] == ref[i] ==> (q[i] == ref[i] <==> (i < |a0| || a1[i] == 0)) {
      References(zeros, a0, a1, i);
    }
    forall i | |a0| <= i < |a1| ensures a1[i] == ref[i] {
      References(zeros, a0, a1, i);
    }
  }

  lemma References(zeros: seq<byte>, a0: seq<byte>, a1: seq<byte>, i: nat)
    requires |a0| <= |zeros| && |a1| <= |zeros| && i < |a1| && forall j :: 0 <= j < |zeros| ==> zeros[j] == 0
    ensures var q := Overwrite(zeros, a0);
      var ref := Overwrite(Overwrite(q, a1), a0);
      if i < |a0| then q[i] == ref[i] == a0[i] else q[i] == 0 && ref[i] == a1[i]
  {
    var q := Overwrite(zeros, a0);
    var ref := Overwrite(Overwrite(q, a1), a0);
    if i < |a0| {
      assert q[i] == q[..|a0|][i] && ref[i] == ref[..|a0|][i];
    } else {
      assert Overwrite(q, a1)[i] == Overwrite(q, a1)[..|a1|][i];
    }
  }

  lemma Facts(cfg: Config)
    requires TwoLines(cfg)
    ensures Simple(cfg) && |cfg.arts| == 2 && cfg.compression != NoCompression
    ensures |cfg.arts[0]| <= cfg.RefSize() && |cfg.arts[1]| <= cfg.RefSize()
  {
  }

  /** The run up to the rewind: the sender's reference holds both articles, the receiver's only the first. */
  lemma UpToRewind(cfg: Config)
    requires TwoLines(cfg)
    ensures var q := Overwrite(Repeat(cfg.RefSize(), 0), cfg.arts[0]);
      RunFrom(cfg, Initial(cfg), StartFrom(0) + ARTICLE + ASKED)
        == Standing(cfg, 0, 0, Overwrite(q, cfg.arts[1]), true,
                    Receiver(Receiving, [], [], 0, 0, 0, None, q, NO_POINTS))
  {
    hide Step, TwoLines, Overwrite, ReadAs, RunFrom, Simple;
    Facts(cfg);
    var zeros, a := Repeat(cfg.RefSize(), 0), cfg.arts[0];
    var r := Receiver(Receiving, [], [], 0, 0, 0, None, zeros, NO_POINTS);
    var s := Standing(cfg, 0, 0, zeros, true, r);
    StartedAnew(cfg);
    assert Snd(cfg, Sending, 0, 0, 0, 0, NewSender(cfg.compression, cfg.maxArticle), NO_POINTS) == s.sender;
    LiteralReads(cfg, r, a, zeros);
    Through(cfg, 0, 0, zeros, true, r, a);
    var w := SenderState(cfg.compression, zeros, true).WireOf(a);
    var one := Standing(cfg, 1, |w|, Overwrite(zeros, a), false, Got(cfg, r, w, a));
    Then(cfg, Initial(cfg), StartFrom(0), s, ARTICLE, one);
    Asked(cfg, |w|, Overwrite(zeros, a), Got(cfg, r, w, a));
    Then(cfg, Initial(cfg), StartFrom(0) + ARTICLE, one, ASKED, RunFrom(cfg, one, ASKED));
  }

  /** The first line sent and read a second time. */
  lemma Again(cfg: Config) returns (bytes: nat, r: Receiver)
    requires TwoLines(cfg)
    ensures var q := Overwrite(Repeat(cfg.RefSize(), 0), cfg.arts[0]);
      var ref := Overwrite(Overwrite(q, cfg.arts[1]), cfg.arts[0]);
      && RunFrom(cfg, Initial(cfg), StartFrom(0) + ARTICLE + ASKED + ARTICLE) == Standing(cfg, 1, bytes, ref, false, r)
      && Reads(cfg, r, q) && r.file == cfg.arts[0] + [LF] && r.dataBytes == bytes && r.articles == 1
  {
    hide Step, TwoLines, Overwrite, ReadAs, RunFrom, Simple, ReceiverState.Decoded;
    Facts(cfg);
    var a0, q := cfg.arts[0], Overwrite(Repeat(cfg.RefSize(), 0), cfg.arts[0]);
    var held := Overwrite(q, cfg.arts[1]);
    var r0 := Receiver(Receiving, [], [], 0, 0, 0, None, q, NO_POINTS);
    UpToRewind(cfg);
    LiteralReads(cfg, r0, a0, held);
    Through(cfg, 0, 0, held, true, r0, a0);
    var w := SenderState(cfg.compression, held, true).WireOf(a0);
    bytes, r := |w|, Got(cfg, r0, w, a0);
    TwiceIsOnce(Repeat(cfg.RefSize(), 0), a0);
    assert [] + a0 == a0;
    Then(cfg, Initial(cfg), StartFrom(0) + ARTICLE + ASKED, Standing(cfg, 0, 0, held, true, r0), ARTICLE,
         Standing(cfg, 1, |w|, Overwrite(held, a0), false, r));
  }

  /** The rest of the run: the sender codes the second line against what the receiver never had. */
  lemma AfterRewind(cfg: Config) returns (b: seq<byte>, t: System)
    requires TwoLines(cfg)
    ensures RunFrom(cfg, Initial(cfg), REWOUND) == t
    ensures t.receiver.phase == Completed && t.sender.phase == Ended && t.sender.dataBytes == t.receiver.dataBytes
    ensures t.sender.articles == t.receiver.articles == 2
    ensures t.receiver.file == cfg.arts[0] + [LF] + b + [LF] && |b| == |cfg.arts[1]|
    ensures b == cfg.arts[1] <==> (forall i :: |cfg.arts[0]| <= i < |cfg.arts[1]| ==> cfg.arts[1][i] == 0)
  {
    hide Step, TwoLines, Overwrite, ReadAs, RunFrom, Simple, ReceiverState.Decoded, SenderState.WireOf;
    Facts(cfg);
    var a0, a1, q := cfg.arts[0], cfg.arts[1], Overwrite(Repeat(cfg.RefSize(), 0), cfg.arts[0]);
    var ref := Overwrite(Overwrite(q, a1), a0);
    var bytes, r := Again(cfg);
    b := SecondRead(cfg);
    var w := SenderState(cfg.compression, ref, false).WireOf(a1);
    Decodes(cfg, r, w, b);
    Through(cfg, 1, bytes, ref, false, r, b);
    var u := Got(cfg, r, w, b);
    var two := Standing(cfg, 2, bytes + |w|, Overwrite(ref, a1), false, u);
    var coded := SenderState(cfg.compression, Overwrite(ref, a1), false);
    EndThrough(cfg, bytes + |w|, 0, bytes + |w|, coded, NO_POINTS, u, 0);
    t := RunFrom(cfg, two, END);
    Then(cfg, Initial(cfg), StartFrom(0) + ARTICLE + ASKED + ARTICLE, Standing(cfg, 1, bytes, ref, false, r), ARTICLE,
         two);
    Then(cfg, Initial(cfg), StartFrom(0) + ARTICLE + ASKED + ARTICLE + ARTICLE, two, END, t);
  }

  lemma Decodes(cfg: Config, r: Receiver, w: seq<byte>, b: seq<byte>)
    requires cfg.compression != NoCompression && ReceiverState(r.reference, cfg.RefSize()).Decoded(w) == Ok(b)
    ensures ReadAs(cfg, r, w, b)
  {
  }

  /** Two lines coded with a reference, the second damaged on its way and both sent again: the transfer completes with
      equal counters on both sides, and its file is right if and only if the second line has nothing but zeros beyond
      the length of the first, in particular when it is no longer. */
  lemma {:induction false} RewindFailure(cfg: Config)
    requires TwoLines(cfg)
    ensures var s := DataPhase.Run(cfg, REWOUND);
      && s.receiver.phase == Completed && s.sender.phase == Ended
      && s.sender.dataBytes == s.receiver.dataBytes && s.sender.articles == s.receiver.articles == 2
      && (s.receiver.file == Delivered(cfg.format, cfg.arts)
          <==> (forall i :: |cfg.arts[0]| <= i < |cfg.arts[1]| ==> cfg.arts[1][i] == 0))
  {
    hide RunFrom, Step;
    var b, t := AfterRewind(cfg);
    assert [] + REWOUND == REWOUND;
    RunJoin(cfg, [], REWOUND);
    var a0, a1 := cfg.arts[0], cfg.arts[1];
    TwoDelivered(a0, a1);
    assert cfg.arts == [a0, a1];
    assert a0 + [LF] + b + [LF] == a0 + [LF] + (b + [LF]);
    SameLines(a0 + [LF], b, a1);
  }

  lemma TwoDelivered(a0: seq<byte>, a1: seq<byte>)
    ensures Delivered(Tv, [a0, a1]) == a0 + [LF] + (a1 + [LF])
  {
    var none: seq<seq<byte>> := [];
    assert [a0, a1][1..] == [a1] && [a1][1..] == none;
    assert Delivered(Tv, [a1]) == a1 + [LF] + Delivered(Tv, none);
  }

  lemma SameLines(head: seq<byte>, b: seq<byte>, a: seq<byte>)
    requires |b| == |a|
    ensures head + (b + [LF]) == head + (a + [LF]) <==> b == a
  {
    if head + (b + [LF]) == head + (a + [LF]) {
      assert b == (head + (b + [LF]))[|head|..][..|b|] && a == (head + (a + [LF]))[|head|..][..|a|];
    }
  }
}
