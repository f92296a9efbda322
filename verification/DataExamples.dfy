/** Text files at which the failures of vertical coding happen: one damaged and sent again, one restarted from a
    point that stands at different articles. */
module DataExamples {
  import opened Bytes
  import opened Params
  import opened Cutter
  import opened FileIo
  import opened Compressors
  import opened Checkpoints
  import opened Canon
  import opened DataPhase
  import opened DataScripts
  import opened DataAttempts
  import opened DataQuiet
  import opened DataAgreed
  import opened WholeTransfer
  import R = DataRewind
  import D = DataDiverging
  import C = Compress
  import A = Articles

  // ---- lines and the file they make ----

  /** Lines that come back from a file in variable format. */
  predicate AllLines(recordLen: nat, lines: seq<seq<byte>>)
  {
    forall k :: 0 <= k < |lines| ==> LF !in lines[k] && LineKept(Tv, recordLen, lines[k])
  }

  lemma LineStep(recordLen: nat, line: seq<byte>, rest: seq<byte>)
    requires recordLen >= 1 && LF !in line && LineKept(Tv, recordLen, line)
    ensures StepOf(Tv, recordLen, line + [LF] + rest) == Taken(line, |line| + 1)
  {
    FirstLf(line, rest);
    Sandwich(line, [LF], rest);
  }

  /** The file written from lines is cut into these lines. */
  lemma {:induction false} LinesCut(recordLen: nat, lines: seq<seq<byte>>)
    requires recordLen >= 1 && AllLines(recordLen, lines)
    ensures Cut(Tv, recordLen, Delivered(Tv, lines)) == Cutter.Articles(lines, None)
    decreases |lines|
  {
    if lines != [] {
      var line, rest := lines[0], Delivered(Tv, lines[1..]);
      LinesCut(recordLen, lines[1..]);
      LineStep(recordLen, line, rest);
      assert (line + [LF] + rest)[|line| + 1..] == rest;
      assert [line] + lines[1..] == lines;
    }
  }

  lemma {:induction false} LinesKept(recordLen: nat, lines: seq<seq<byte>>)
    requires recordLen >= 1 && AllLines(recordLen, lines)
    ensures TextKept(Tv, recordLen, Delivered(Tv, lines))
    decreases |lines|
  {
    if lines != [] {
      var line, rest := lines[0], Delivered(Tv, lines[1..]);
      LinesKept(recordLen, lines[1..]);
      FirstLf(line, rest);
      Sandwich(line, [LF], rest);
      assert (line + [LF] + rest)[..|line|] == line && (line + [LF] + rest)[|line| + 1..] == rest;
    }
  }

  /** Lines sent with vertical coding and check bytes, a record being the longest article. */
  ghost function Text(recordLen: nat, lines: seq<seq<byte>>, sync: SyncOption, resync: bool): Config
    requires recordLen >= 1
  {
    Config(lines, seq(|lines| + 1, k requires 0 <= k <= |lines| => OffsetOf(Tv, recordLen, Delivered(Tv, lines), k)),
           Tv,
           VerticalOnly, recordLen, A.Packing(1, 4096, false), sync, resync, true)
  }

  lemma TextCarries(recordLen: nat, lines: seq<seq<byte>>, sync: SyncOption, resync: bool)
    requires recordLen >= 1 && AllLines(recordLen, lines)
    ensures var cfg := Text(recordLen, lines, sync, resync);
      CarriesFile(cfg, recordLen, Delivered(Tv, lines)) && cfg.Built()
  {
    hide Cut, OffsetOf;
    var cfg := Text(recordLen, lines, sync, resync);
    LinesCut(recordLen, lines);
    FileIsWellCut(cfg, recordLen, Delivered(Tv, lines));
  }

  // ---- damage ----

  /** The file "7", "78": its second line comes out wrong after a rewind. */
  lemma RewoundFile()
    ensures var lines := [[55], [55, 56]];
      var cfg, file := Text(2, lines, NO_SYNC, true), Delivered(Tv, lines);
      && CarriesFile(cfg, 2, file) && TextKept(Tv, 2, file) && R.TwoLines(cfg)
      && var s := DataPhase.Run(cfg, R.REWOUND);
         s.receiver.phase == Completed && s.sender.phase == Ended && s.receiver.file != file
  {
    hide DataPhase.Run, TextKept, CarriesFile, Delivered, OffsetOf;
    var lines: seq<seq<byte>> := [[55], [55, 56]];
    var cfg := Text(2, lines, NO_SYNC, true);
    assert AllLines(2, lines);
    TextCarries(2, lines, NO_SYNC, true);
    LinesKept(2, lines);
    assert R.TwoLines(cfg);
    R.RewindFailure(cfg);
    assert cfg.arts[1][1] != 0;
  }

  // ---- restarts ----

  function Sevens(): seq<byte> { Repeat(1200, 55) }

  function Eights(): seq<byte> { Repeat(1200, 56) }

  /** A long line, a short one, the long one again, and another as long. */
  function FourLines(): seq<seq<byte>> { [Sevens(), [57], Sevens(), Eights()] }

  lemma FourAreLines()
    ensures AllLines(1200, FourLines())
  {
    assert LF !in Sevens() && LF !in Eights();
  }

  /** Behind both of the first two lines the third costs little. */
  lemma Cheap(a: seq<byte>, r: seq<byte>)
    requires |a| == |r| == 1200 && forall i :: 1 <= i < 1200 ==> a[i] == r[i]
    ensures |C.Wire(C.Vertical, a, r)| <= 200
  {
    C.WireStep(C.Vertical, a, r, 63);
    C.ChunkCost(C.Vertical, a[..63], r[..63]);
    C.UniformWire(a[63..], r[63..], true);
  }

  lemma CodedIs(cfg: Config, ref: seq<byte>, a: seq<byte>)
    requires cfg.compression == VerticalOnly && |a| <= |ref|
    ensures D.Coded(cfg, ref, a) == C.Wire(C.Vertical, a, ref)
  {
    TwiceIsOnce(ref, a);
  }

  lemma OverwrittenAt(buf: seq<byte>, a: seq<byte>, i: nat)
    requires i < |buf|
    ensures |Overwrite(buf, a)| >= |buf| && Overwrite(buf, a)[i] == if i < |a| then a[i] else buf[i]
  {
    if i < |a| {
      assert Overwrite(buf, a)[i] == Overwrite(buf, a)[..|a|][i];
    }
  }

  /** What the lines cost in the two attempts. */
  lemma Costs(cfg: Config)
    requires cfg.compression == VerticalOnly && cfg.RefSize() == 1200 && cfg.arts == FourLines()
    ensures var ref := Overwrite(Overwrite(D.Zeros(cfg), Sevens()), [57]);
      && |D.Coded(cfg, ref, Sevens())| <= 200
      && |D.Coded(cfg, Overwrite(ref, Sevens()), Eights())| == 1220
      && |D.Coded(cfg, Overwrite(D.Zeros(cfg), [57]), Sevens())| == 1220
  {
    hide C.Wire;
    var zeros := D.Zeros(cfg);
    var ref := Overwrite(Overwrite(zeros, Sevens()), [57]);
    forall i | 0 <= i < 1200
      ensures i >= 1 ==> Sevens()[i] == ref[i]
      ensures Overwrite(ref, Sevens())[i] == 55 && Overwrite(zeros, [57])[i] != 55
    {
      OverwrittenAt(zeros, Sevens(), i);
      OverwrittenAt(Overwrite(zeros, Sevens()), [57], i);
      OverwrittenAt(ref, Sevens(), i);
      OverwrittenAt(zeros, [57], i);
    }
    CodedIs(cfg, ref, Sevens());
    CodedIs(cfg, Overwrite(ref, Sevens()), Eights());
    CodedIs(cfg, Overwrite(zeros, [57]), Sevens());
    Cheap(Sevens(), ref);
    C.UniformWire(Eights(), Overwrite(ref, Sevens()), false);
    C.UniformWire(Sevens(), Overwrite(zeros, [57]), false);
  }

  /** These lines, sent with points every kilobyte, are cut differently by an attempt from the beginning and one from
      point 1. */
  lemma FourDiverge()
    ensures var cfg := Text(1200, FourLines(), SyncOption(1, 0), false);
      D.Diverging(cfg) && CarriesFile(cfg, 1200, Delivered(Tv, FourLines())) && cfg.Built()
  {
    hide Delivered, CarriesFile, OffsetOf, D.Coded, Overwrite;
    var cfg := Text(1200, FourLines(), SyncOption(1, 0), false);
    FourAreLines();
    TextCarries(1200, FourLines(), SyncOption(1, 0), false);
    Costs(cfg);
    assert cfg.Interval().value == 1024;
  }

  /** Everything but a start and damage is within the hypotheses. */
  predicate Mild(a: Action) { !a.BeginSender? && !a.BeginReceiver? && !a.Damage? }

  lemma AgreedSnoc(cfg: Config, past: seq<Action>, a: Action)
    requires cfg.Built() && AllAgreed(cfg, past) && Agreed(cfg, DataPhase.Run(cfg, past), a)
    ensures AllAgreed(cfg, past + [a])
  {
    hide DataPhase.Run, Agreed;
    assert (past + [a])[..|past|] == past;
  }

  lemma {:induction false} MildOn(cfg: Config, past: seq<Action>, turns: seq<Action>)
    requires cfg.Built() && AllAgreed(cfg, past) && (forall a :: a in turns ==> Mild(a))
    ensures AllAgreed(cfg, past + turns)
    decreases |turns|
  {
    hide DataPhase.Run, AllAgreed;
    if turns == [] {
      assert past + [] == past;
    } else {
      assert turns[0] in turns;
      AgreedSnoc(cfg, past, turns[0]);
      MildOn(cfg, past + [turns[0]], turns[1..]);
      assert past + turns == past + [turns[0]] + turns[1..];
    }
  }

  /** An attempt from a matched point is within the hypotheses. */
  lemma AttemptAgreed(cfg: Config, past: seq<Action>, p: nat, turns: seq<Action>)
    requires cfg.Built() && AllAgreed(cfg, past) && (forall a :: a in turns ==> Mild(a))
    requires Idle(DataPhase.Run(cfg, past)) && Matched(DataPhase.Run(cfg, past), p)
    ensures AllAgreed(cfg, past + StartFrom(p) + turns)
  {
    hide DataPhase.Run, Rewound, AllAgreed;
    var s := DataPhase.Run(cfg, past);
    var one := past + [BeginReceiver(p)];
    AgreedSnoc(cfg, past, BeginReceiver(p));
    RunJoin(cfg, past, [BeginReceiver(p)]);
    OneStep(cfg, s, BeginReceiver(p));
    assert DataPhase.Run(cfg, one).start == Some(p);
    AgreedSnoc(cfg, one, BeginSender(p));
    assert past + StartFrom(p) == one + [BeginSender(p)];
    MildOn(cfg, past + StartFrom(p), turns);
  }

  /** The two attempts that leave diverging points each start from a matched one. */
  lemma DivergingIsAgreed(cfg: Config)
    requires D.Diverging(cfg)
    ensures AllAgreed(cfg, D.FIRST_ATTEMPT + D.SECOND_ATTEMPT)
  {
    hide DataPhase.Run, RunFrom, Step, FileAt, Overwrite, D.Coded;
    D.Facts(cfg);
    assert cfg.Built();
    var turns := ARTICLE + ARTICLE_AT_POINT + ARTICLE + [SendArticle] + [Lose(0)];
    assert AllAgreed(cfg, []) && DataPhase.Run(cfg, []) == Initial(cfg) by {
      Nothing(cfg);
    }
    AttemptAgreed(cfg, [], 0, turns);
    assert [] + StartFrom(0) + turns == D.FIRST_ATTEMPT;
    var more := D.AfterFirst(cfg);
    FromInitial(cfg, D.FIRST_ATTEMPT);
    var again := ARTICLE + STOP_AT_POINT + [Lose(0)];
    AttemptAgreed(cfg, D.FIRST_ATTEMPT, 1, again);
    assert D.FIRST_ATTEMPT + StartFrom(1) + again == D.FIRST_ATTEMPT + D.SECOND_ATTEMPT;
  }

  lemma Nothing(cfg: Config)
    requires cfg.packing.Valid() && cfg.WellCut()
    ensures AllAgreed(cfg, []) && DataPhase.Run(cfg, []) == Initial(cfg)
  {
  }

  /** A text file that arrives without its third line: two attempts within the hypotheses, and a third from the last
      point of the receiver, which stands at another article in the sender's store. */
  lemma LostLine()
    ensures var cfg, file := Text(1200, FourLines(), SyncOption(1, 0), false), Delivered(Tv, FourLines());
      && CarriesFile(cfg, 1200, file) && TextKept(Tv, 1200, file) && cfg.Built()
      && AllAgreed(cfg, D.FIRST_ATTEMPT + D.SECOND_ATTEMPT)
      && var t := DataPhase.Run(cfg, D.FIRST_ATTEMPT + D.SECOND_ATTEMPT + D.THIRD_ATTEMPT);
         t.receiver.phase == Completed && t.receiver.file == Sevens() + [LF] + [57, LF] + Eights() + [LF] != file
  {
    hide DataPhase.Run, TextKept, CarriesFile, OffsetOf, D.Diverging, AllAgreed, Sevens, Eights;
    var cfg := Text(1200, FourLines(), SyncOption(1, 0), false);
    FourAreLines();
    FourDiverge();
    LinesKept(1200, FourLines());
    DivergingIsAgreed(cfg);
    D.RestartDiverges(cfg);
    assert cfg.arts[..2] == [Sevens(), [57]];
    R.TwoDelivered(Sevens(), [57]);
    assert [57] + [LF] == [57, LF];
    assert Sevens() + [LF] + [57, LF] + (Eights() + [LF]) == Sevens() + [LF] + [57, LF] + Eights() + [LF];
  }
}
