/** A file carried whole: cut into articles, sent through the data phase, written at the other end. */
module WholeTransfer {
  import opened Bytes
  import opened Params
  import C = Compress
  import opened Compressors
  import opened Cutter
  import opened FileIo
  import opened TextLines
  import opened Canon
  import opened DataPhase
  import opened DataSafety
  import opened DataResults
  import opened DataProgress
  import opened DataNumbers
  import opened DataRoom
  import opened DataRestarts
  import opened DataQuiet
  import opened DataAgreed
  import A = Articles

  /** What the data phase carries is `file`, cut into records of at most `recordLen` octets. */
  ghost predicate CarriesFile(cfg: Config, recordLen: nat, file: seq<byte>)
    requires recordLen >= 1
  {
    && Cut(cfg.format, recordLen, file) == Cutter.Articles(cfg.arts, None)
    && |cfg.srcOff| == |cfg.arts| + 1
    && forall k :: 0 <= k <= |cfg.arts| ==> cfg.srcOff[k] == OffsetOf(cfg.format, recordLen, file, k)
  }

  lemma StepFits(format: RecordFormat, recordLen: nat, data: seq<byte>)
    requires recordLen >= 1
    ensures var c := StepOf(format, recordLen, data); c.Taken? ==> 1 <= |c.article| <= recordLen
  {
  }

  /** No article is longer than its record. */
  lemma {:induction false} CutFits(format: RecordFormat, recordLen: nat, data: seq<byte>, k: nat)
    requires recordLen >= 1 && k < |Cut(format, recordLen, data).list|
    ensures 1 <= |Cut(format, recordLen, data).list[k]| <= recordLen
    decreases k
  {
    hide StepOf;
    var c := StepOf(format, recordLen, data);
    StepFits(format, recordLen, data);
    if k > 0 {
      CutFits(format, recordLen, data[c.octets..], k - 1);
    }
  }

  /** Articles start one behind the other: a source never stands still. */
  lemma {:induction false} OffsetsRise(cfg: Config, recordLen: nat, file: seq<byte>, j: nat, k: nat)
    requires recordLen >= 1 && CarriesFile(cfg, recordLen, file) && j < k <= |cfg.arts|
    ensures cfg.srcOff[j] < cfg.srcOff[k]
    decreases k
  {
    hide Cut, OffsetOf, StepOf;
    NextAtOffset(cfg.format, recordLen, file, k - 1);
    if j < k - 1 {
      OffsetsRise(cfg, recordLen, file, j, k - 1);
    }
  }

  lemma FileIsWellCut(cfg: Config, recordLen: nat, file: seq<byte>)
    requires recordLen >= 1 && CarriesFile(cfg, recordLen, file)
    ensures cfg.WellCut()
  {
    hide Cut, OffsetOf;
    assert cfg.srcOff[0] == 0 by {
      StartsAtZero(cfg.format, recordLen, file);
    }
    forall j, k | 0 <= j < k <= |cfg.arts| ensures cfg.srcOff[j] < cfg.srcOff[k] {
      OffsetsRise(cfg, recordLen, file, j, k);
    }
  }

  lemma StartsAtZero(format: RecordFormat, recordLen: nat, file: seq<byte>)
    requires recordLen >= 1
    ensures OffsetOf(format, recordLen, file, 0) == 0
  {
    CutIsCutBy(format, recordLen, file);
  }

  /** A limit of a record length, or none, serves any file sent uncompressed; sent compressed, references must hold a
      record, and the worst a record may grow to must fit one FPDU or the limit, if there is one. */
  predicate Serves(cfg: Config, recordLen: nat)
    requires cfg.packing.Valid()
  {
    if cfg.compression == NoCompression then cfg.maxArticle == 0 || recordLen <= cfg.maxArticle
    else
      && recordLen <= cfg.RefSize()
      && (cfg.maxArticle == 0
          || 3 * recordLen + C.Chunks(recordLen) <= 2 * Max(cfg.packing.MaxSingle(), cfg.maxArticle))
  }

  /** The hypotheses of the data phase hold of every file under parameters that serve its record length. */
  lemma FileIsValid(cfg: Config, recordLen: nat, file: seq<byte>)
    requires recordLen >= 1 && CarriesFile(cfg, recordLen, file) && cfg.packing.Valid() && Serves(cfg, recordLen)
    ensures cfg.Valid()
  {
    hide Cut, OffsetOf, WireAt;
    FileIsWellCut(cfg, recordLen, file);
    forall k | 0 <= k < |cfg.arts| ensures |cfg.arts[k]| <= recordLen {
      CutFits(cfg.format, recordLen, file, k);
    }
    forall i: nat | EntryNo(cfg, i).Wire?
      ensures A.Admitted(cfg.maxArticle, cfg.packing, EntryNo(cfg, i).octets)
    {
      WireIsAdmitted(cfg, recordLen, Reach(cfg, i).k, Reach(cfg, i).literal);
    }
  }

  lemma WireIsAdmitted(cfg: Config, recordLen: nat, k: nat, literal: bool)
    requires cfg.packing.Valid() && Serves(cfg, recordLen) && k < |cfg.arts| && |cfg.arts[k]| <= recordLen
    ensures A.Admitted(cfg.maxArticle, cfg.packing, WireAt(cfg, k, literal))
  {
    hide C.Wire;
    if cfg.compression != NoCompression {
      var s, a := SenderState(cfg.compression, RefAt(cfg, k), literal), cfg.arts[k];
      C.Expansion(s.Mode(), a, Grow(s.reference, |a|));
      ChunksGrow(|a|, recordLen);
    }
  }

  /** A compressed first article of full length, the limit being its length, goes out longer than the limit, and is
      refused if and only if it has to be segmented. */
  lemma FullArticleRefused(p: A.Packing, compression: Compression, a: seq<byte>)
    requires p.Valid() && a != []
    ensures var w := NewSender(compression, |a|).WireOf(a);
      var fed := A.FeedAll(|a|, None, A.Pushed(p, [], w).1);
      && |w| == |a| + C.Chunks(|a|) > |a|
      && (fed == Err(A.ArticleTooLong(|a|)) <==> |w| > p.MaxSingle()) && (fed.Ok? <==> |w| <= p.MaxSingle())
  {
    hide C.Wire, A.FeedAll, A.Pushed;
    var s := NewSender(compression, |a|);
    C.Expansion(C.Literal, a, Grow(s.reference, |a|));
    A.PushFeeds(|a|, p, [], s.WireOf(a));
  }

  lemma ChunksGrow(m: nat, n: nat)
    requires m <= n
    ensures C.Chunks(m) <= C.Chunks(n)
  {
  }

  /** In the formats of full records every article but the last fills its record. */
  lemma {:induction false} RecordsFull(format: RecordFormat, recordLen: nat, data: seq<byte>, k: nat)
    requires recordLen >= 1 && format != Tv && k + 1 < |Cut(format, recordLen, data).list|
    ensures |Cut(format, recordLen, data).list[k]| == recordLen
    decreases k
  {
    hide StepOf;
    var c := StepOf(format, recordLen, data);
    var rest := data[c.octets..];
    if k > 0 {
      RecordsFull(format, recordLen, rest, k - 1);
    } else {
      assert |Cut(format, recordLen, rest).list| >= 1;
      StepFull(format, recordLen, data);
    }
  }

  lemma StepFull(format: RecordFormat, recordLen: nat, data: seq<byte>)
    requires recordLen >= 1 && format != Tv
    ensures var c := StepOf(format, recordLen, data);
      c.Taken? && data[c.octets..] != [] ==> |c.article| == recordLen
  {
  }

  /** Where the next article is not literal, the one before it counts among those since the point. */
  lemma {:induction false} LongestSince(cfg: Config, i: nat)
    ensures var c := Reach(cfg, i); !c.literal ==> c.k >= 1 && |cfg.arts[c.k - 1]| <= c.longest
  {
    hide WireAt;
    if i > 0 {
      LongestSince(cfg, i - 1);
    }
  }

  /** Files of full records may be damaged, resynchronised and restarted under any compression: only the last article
      may be shorter, and none is longer than the one before it. */
  lemma FullRecordsTolerated(cfg: Config, recordLen: nat, file: seq<byte>)
    requires recordLen >= 1 && CarriesFile(cfg, recordLen, file) && cfg.format != Tv
    ensures cfg.Tolerant()
  {
    hide Reach, Cut, OffsetOf;
    forall i: nat ensures CoveredAt(cfg, Reach(cfg, i)) {
      var c := Reach(cfg, i);
      if c.k < |cfg.arts| && !c.literal {
        LongestSince(cfg, i);
        RecordsFull(cfg.format, recordLen, file, c.k - 1);
        CutFits(cfg.format, recordLen, file, c.k);
      }
    }
  }

  /** The articles of a file, written again, are the file in the binary formats, and in the text formats exactly when it
      is line-feed terminated and all its lines are kept. */
  lemma {:induction false} WrittenIsFile(cfg: Config, recordLen: nat, file: seq<byte>)
    requires recordLen >= 1 && CarriesFile(cfg, recordLen, file)
    ensures Delivered(cfg.format, cfg.arts) == file <==> !cfg.format.IsText() || TextKept(cfg.format, recordLen, file)
  {
    hide Cut, TextKept;
    match cfg.format {
      case Bu => BinaryTrip(cfg.format, recordLen, file);
      case Bv => BinaryTrip(cfg.format, recordLen, file);
      case Bf => FixedTrip(recordLen, file);
      case _ => TextTrip(cfg.format, recordLen, file);
    }
  }

  /** Through any damage, resynchronisation, loss of the connection and restart: a transfer that completes leaves
      a file that is the source's octet for octet in the binary formats, and in the text formats exactly when the
      source is line-feed terminated and all its lines are kept. */
  lemma {:induction false} FileArrives(cfg: Config, recordLen: nat, file: seq<byte>, actions: seq<Action>)
    requires recordLen >= 1 && CarriesFile(cfg, recordLen, file) && cfg.Valid() && AllAllowed(cfg, actions)
    ensures var r := DataPhase.Run(cfg, actions).receiver;
      r.phase == Completed ==> (r.file == file <==> !cfg.format.IsText() || TextKept(cfg.format, recordLen, file))
  {
    hide Cut, DataPhase.Run, AllAllowed, TextKept;
    ExactDelivery(cfg, actions);
    WrittenIsFile(cfg, recordLen, file);
  }

  /** Text written on another system: through all of that, its lines arrive with a line feed behind each, whichever line
      end they had, exactly when every one of them fits its record, is not empty in variable format and does not end in
      a space in fixed format. */
  lemma {:induction false} TextFileArrives(cfg: Config, recordLen: nat, lines: seq<seq<byte>>, end: seq<byte>,
                                           actions: seq<Action>)
    requires recordLen >= 1 && cfg.format.IsText() && (end == [10] || end == [13, 10])
    requires forall l :: l in lines ==> Line(l)
    requires CarriesFile(cfg, recordLen, Text(lines, end)) && cfg.Valid() && AllAllowed(cfg, actions)
    ensures var r := DataPhase.Run(cfg, actions).receiver;
      r.phase == Completed ==>
        (r.file == Text(lines, [10]) <==> forall l :: l in lines ==> Survives(cfg.format, recordLen, l))
  {
    hide Cut, DataPhase.Run, AllAllowed, Survives, Line;
    ExactDelivery(cfg, actions);
    TextComesBack(cfg.format, recordLen, lines, end);
  }

  /** The same under any coding and any article limit, as long as every attempt starts from a point that stands at the
      same article in both stores and damage ends it. */
  lemma {:induction false} AgreedFileArrives(cfg: Config, recordLen: nat, file: seq<byte>, actions: seq<Action>)
    requires recordLen >= 1 && CarriesFile(cfg, recordLen, file) && cfg.Built() && AllAgreed(cfg, actions)
    ensures var r := DataPhase.Run(cfg, actions).receiver;
      r.phase == Completed ==> (r.file == file <==> !cfg.format.IsText() || TextKept(cfg.format, recordLen, file))
  {
    hide Cut, DataPhase.Run, AllAgreed, TextKept;
    AgreedDelivery(cfg, actions);
    WrittenIsFile(cfg, recordLen, file);
  }

  /** A file whose lines are kept, restarted from any point that the partial file reaches and completed without damage,
      arrives if and only if that point stands at the same article in both stores. */
  lemma {:induction false} RestartedFileArrives(cfg: Config, recordLen: nat, file: seq<byte>, past: seq<Action>, len: nat,
                                                p: nat, turns: seq<Action>)
    requires recordLen >= 1 && CarriesFile(cfg, recordLen, file) && cfg.Built() && Trusted(cfg, past)
    requires cfg.format.IsText() ==> TextKept(cfg.format, recordLen, file)
    requires forall a :: a in turns ==> Quiet(cfg, a)
    requires var s := DoLose(DataPhase.Run(cfg, past), len);
      && s.sender.store.Get(p).Some? && s.receiver.store.Get(p).Some?
      && s.receiver.store.Get(p).value.fileOffset <= |s.receiver.file|
    ensures var s := DataPhase.Run(cfg, past);
      var r := DataPhase.Run(cfg, past + Restart(len, p) + turns).receiver;
      r.phase == Completed ==>
        (r.file == file <==> s.sender.store.Get(p).value.articles == s.receiver.store.Get(p).value.articles)
  {
    hide Cut, DataPhase.Run, Trusted, TextKept, Quiet, FileAt, ZeroFrom;
    forall k | 0 <= k < |cfg.arts| ensures cfg.arts[k] != [] {
      CutFits(cfg.format, recordLen, file, k);
    }
    RestartIsRight(cfg, past, len, p, turns);
    WrittenIsFile(cfg, recordLen, file);
  }

  /** Whatever has happened, a transfer of fewer than 2^24 points can be restarted from the beginning and brought to
      completion with the very file that was sent, and no empty entity on the way; one of more points never
      completes. */
  lemma {:induction false} FileGetsThrough(cfg: Config, recordLen: nat, file: seq<byte>, past: seq<Action>)
    returns (actions: seq<Action>)
    requires recordLen >= 1 && CarriesFile(cfg, recordLen, file) && cfg.Valid() && AllAllowed(cfg, past)
    requires cfg.packing.maxDtf >= ROOM
    requires cfg.format.IsText() ==> TextKept(cfg.format, recordLen, file)
    ensures AllAllowed(cfg, past + actions)
    ensures |actions| >= 3 && actions[..3] == Restart(0, 0)
    ensures AllFilled(cfg, DataPhase.Run(cfg, past + Restart(0, 0)), actions[3..])
    ensures var r := DataPhase.Run(cfg, past + actions).receiver;
      if Points(cfg) < MAX_SYNC_NUMBER then r.phase == Completed && r.file == file
      else forall more :: AllAllowed(cfg, past + more) ==> DataPhase.Run(cfg, past + more).receiver.phase != Completed
  {
    hide DataPhase.Run, AllAllowed, TextKept, CarriesFile, Points, AllFilled;
    var turns := RestartCompletes(cfg, past, 0, 0);
    actions := Restart(0, 0) + turns;
    assert actions[..3] == Restart(0, 0) && actions[3..] == turns;
    assert past + Restart(0, 0) + turns == past + actions;
    FileArrives(cfg, recordLen, file, past + actions);
  }
}
