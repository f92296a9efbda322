/** The canonical log of a transfer: what is sent, in which order, and where the synchronisation points fall. */
module Canon {
  import opened Bytes
  import opened Params
  import opened Cutter
  import opened Compress
  import opened Compressors
  import opened Checkpoints
  import A = Articles

  /** Default interval when the peers left it undefined. */
  const DEFAULT_SYNC_INTERVAL: nat := 1024 * 1024

  /** A source cut into articles (`srcOff[k]` is where article `k` starts) and what was negotiated. */
  datatype Config = Config(arts: seq<seq<byte>>, srcOff: seq<nat>, format: RecordFormat,
                           compression: Compression, maxArticle: nat, packing: A.Packing,
                           sync: SyncOption, resync: bool, crc: bool) {
    function Interval(): Option<nat> {
      if !sync.Enabled() then None
      else if sync.IntervalBytes().None? then Some(DEFAULT_SYNC_INTERVAL)
      else sync.IntervalBytes()
    }

    /** Whether a receiver acknowledges synchronisation points. */
    predicate Acks() { sync.window != 0 || !sync.Enabled() }

    /** Size both compression references start with. */
    function RefSize(): nat { Max(maxArticle, 1) }

    predicate UsesRef() { UsesReference(ModeOf(compression)) }

    /** No article is longer than the longest since its point: what is coded against the reference is coded
        against octets written since then. */
    ghost predicate Covered() { forall i: nat :: CoveredAt(this, Reach(this, i)) }

    /** A rewind leaves both references usable: nothing is coded against them, or only what the articles since
        the point have realigned. */
    ghost predicate Tolerant() { !UsesRef() || Covered() }

    predicate WellCut() {
      && |srcOff| == |arts| + 1 && srcOff[0] == 0
      && forall j, k :: 0 <= j < k <= |arts| ==> srcOff[j] < srcOff[k]
    }

    /** A well-cut source, a packing with room for data, and references that hold every article. */
    predicate Built() {
      && WellCut()
      && packing.Valid()
      && (compression != NoCompression ==> forall k :: 0 <= k < |arts| ==> |arts[k]| <= RefSize())
    }

    /** The hypotheses the code needs of its parameters, the last being that the receiver admits every wire form the
        log has. */
    ghost predicate Valid() {
      && Built()
      && forall i: nat :: EntryNo(this, i).Wire? ==> A.Admitted(maxArticle, packing, EntryNo(this, i).octets)
    }
  }

  // ---- wires ----

  /** The reference after the first `k` articles of a transfer from scratch. */
  function RefAt(cfg: Config, k: nat): (r: seq<byte>)
    requires k <= |cfg.arts|
    ensures |r| >= cfg.RefSize()
  {
    if k == 0 then Repeat(cfg.RefSize(), 0) else Overwrite(RefAt(cfg, k - 1), cfg.arts[k - 1])
  }

  /** Article `k` as it goes out, literally after a synchronisation point. */
  function WireAt(cfg: Config, k: nat, literal: bool): seq<byte>
    requires k < |cfg.arts|
  {
    var a := cfg.arts[k];
    if cfg.compression == NoCompression then a
    else SenderState(cfg.compression, RefAt(cfg, k), literal).WireOf(a)
  }

  /** A reference that serves for article `k` as well as the one of a transfer from scratch, as far as the `m`
      octets written since the last point. */
  ghost predicate RefGood(cfg: Config, r: seq<byte>, k: nat, m: nat)
    requires k <= |cfg.arts|
  {
    cfg.compression != NoCompression ==>
      && |r| == cfg.RefSize()
      && (cfg.UsesRef() ==> if cfg.Covered() then Agree(r, RefAt(cfg, k), m) else r == RefAt(cfg, k))
  }

  lemma {:induction false} RefAtSize(cfg: Config, k: nat)
    requires k <= |cfg.arts| && cfg.compression != NoCompression
    requires forall j :: 0 <= j < |cfg.arts| ==> |cfg.arts[j]| <= cfg.RefSize()
    ensures |RefAt(cfg, k)| == cfg.RefSize()
  {
    if k > 0 {
      RefAtSize(cfg, k - 1);
    }
  }

  lemma SharedPieces(r: seq<byte>, s: seq<byte>, n: nat, m: nat)
    requires n <= m <= |r| && m <= |s| && r[..m] == s[..m]
    ensures r[..n] == s[..n] && r[n..][..m - n] == s[n..][..m - n]
  {
    forall i | 0 <= i < m ensures r[i] == s[i] {
      assert r[i] == r[..m][i] && s[i] == s[..m][i];
    }
  }

  lemma {:induction false} StringsAgree(mode: Mode, a: seq<byte>, r: seq<byte>, s: seq<byte>)
    requires |a| <= |r| && |a| <= |s| && (UsesReference(mode) ==> r[..|a|] == s[..|a|])
    ensures Strings(mode, a, r) == Strings(mode, a, s)
    decreases |a|
  {
    if a != [] {
      var n := Min(CHUNK, |a|);
      if UsesReference(mode) {
        SharedPieces(r, s, n, |a|);
      }
      assert ChunkStrings(mode, a[..n], r[..n]) == ChunkStrings(mode, a[..n], s[..n]);
      StringsAgree(mode, a[n..], r[n..], s[n..]);
    }
  }

  lemma AgreePrefix(x: seq<byte>, y: seq<byte>, n: nat, m: nat)
    requires Agree(x, y, n) && m <= n
    ensures Agree(x, y, m)
  {
    assert x[..m] == x[..n][..m] && y[..m] == y[..n][..m];
  }

  lemma GoodSize(cfg: Config, r: seq<byte>, k: nat, m: nat)
    requires cfg.Valid() && k < |cfg.arts| && cfg.compression != NoCompression && RefGood(cfg, r, k, m)
    ensures |RefAt(cfg, k)| == cfg.RefSize() == |r| >= |cfg.arts[k]|
  {
    RefAtSize(cfg, k);
  }

  /** A good reference is as good as the canonical one for coding the next article of the log. */
  lemma GoodAgrees(cfg: Config, r: seq<byte>, i: nat)
    requires cfg.Valid() && Reach(cfg, i).k < |cfg.arts| && cfg.compression != NoCompression
    requires RefGood(cfg, r, Reach(cfg, i).k, Reach(cfg, i).longest)
    ensures var c := Reach(cfg, i);
      && |RefAt(cfg, c.k)| == cfg.RefSize() == |r| >= |cfg.arts[c.k]|
      && (cfg.UsesRef() && !c.literal ==> Agree(r, RefAt(cfg, c.k), |cfg.arts[c.k]|))
  {
    hide Reach, RefAt;
    var c := Reach(cfg, i);
    GoodSize(cfg, r, c.k, c.longest);
    if cfg.UsesRef() && !c.literal && cfg.Covered() {
      assert CoveredAt(cfg, c);
      AgreePrefix(r, RefAt(cfg, c.k), c.longest, |cfg.arts[c.k]|);
    }
  }

  /** The compressor's output depends on its history only through a good reference. */
  lemma SenderWire(cfg: Config, r: seq<byte>, i: nat)
    requires cfg.Valid() && Reach(cfg, i).k < |cfg.arts| && cfg.compression != NoCompression
    requires RefGood(cfg, r, Reach(cfg, i).k, Reach(cfg, i).longest)
    ensures var c := Reach(cfg, i);
      SenderState(cfg.compression, r, c.literal).WireOf(cfg.arts[c.k]) == WireAt(cfg, c.k, c.literal)
  {
    hide Reach, RefAt, RefGood;
    var c := Reach(cfg, i);
    GoodAgrees(cfg, r, i);
    var s := SenderState(cfg.compression, r, c.literal);
    StringsAgree(s.Mode(), cfg.arts[c.k], r, RefAt(cfg, c.k));
  }

  /** The receiver gets the next article of the log out of its wire form. */
  lemma ReceiverArticle(cfg: Config, r: seq<byte>, i: nat)
    requires cfg.Valid() && Reach(cfg, i).k < |cfg.arts| && cfg.compression != NoCompression
    requires RefGood(cfg, r, Reach(cfg, i).k, Reach(cfg, i).longest)
    ensures var c := Reach(cfg, i);
      ReceiverState(r, cfg.RefSize()).Decoded(WireAt(cfg, c.k, c.literal)) == Ok(cfg.arts[c.k])
  {
    hide Reach, RefAt, RefGood;
    var c := Reach(cfg, i);
    GoodAgrees(cfg, r, i);
    var s := SenderState(cfg.compression, RefAt(cfg, c.k), c.literal);
    var a := cfg.arts[c.k];
    OtherReference(s.Mode(), a, RefAt(cfg, c.k), r, cfg.RefSize());
    if UsesReference(s.Mode()) {
      forall j | 0 <= j < |a| ensures RefAt(cfg, c.k)[j] == r[j] {
        assert RefAt(cfg, c.k)[..|a|][j] == r[..|a|][j];
      }
    }
  }

  /** Coding or decoding article `k` leaves a reference good for the next one, as far as that article too. */
  lemma RefNext(cfg: Config, r: seq<byte>, k: nat, m: nat)
    requires cfg.Valid() && k < |cfg.arts| && RefGood(cfg, r, k, m)
    ensures RefGood(cfg, Overwrite(r, cfg.arts[k]), k + 1, Max(m, |cfg.arts[k]|))
  {
    if cfg.compression != NoCompression {
      GoodSize(cfg, r, k, m);
      if cfg.UsesRef() && cfg.Covered() {
        AgreeAfter(r, RefAt(cfg, k), m, cfg.arts[k]);
      }
    }
  }

  /** An article compressed before a point is decided on is compressed again, literally, after it. */
  lemma WireAtPoint(cfg: Config, r: seq<byte>, k: nat, m: nat)
    requires cfg.Valid() && k < |cfg.arts| && cfg.compression != NoCompression && RefGood(cfg, r, k, m)
    ensures var again := Overwrite(r, cfg.arts[k]);
      && SenderState(cfg.compression, again, true).WireOf(cfg.arts[k]) == WireAt(cfg, k, true)
      && Overwrite(again, cfg.arts[k]) == again
  {
    GoodSize(cfg, r, k, m);
    TwiceIsOnce(r, cfg.arts[k]);
    StringsAgree(Literal, cfg.arts[k], Overwrite(r, cfg.arts[k]), RefAt(cfg, k));
  }

  lemma RefIrrelevant(cfg: Config, r: seq<byte>, k: nat, m: nat)
    requires k <= |cfg.arts| && cfg.compression == NoCompression
    ensures RefGood(cfg, r, k, m)
  {
  }

  /** A reference good so far is good as far as less. */
  lemma RefLess(cfg: Config, r: seq<byte>, k: nat, m: nat, n: nat)
    requires k <= |cfg.arts| && RefGood(cfg, r, k, m) && n <= m
    ensures RefGood(cfg, r, k, n)
  {
    if cfg.compression != NoCompression && cfg.UsesRef() && cfg.Covered() {
      AgreePrefix(r, RefAt(cfg, k), m, n);
    }
  }

  /** A synchronisation point spoils no reference; when rewinds are tolerated any reference will do
      after one. */
  lemma RefAtPoint(cfg: Config, r: seq<byte>, j: nat, m: nat, k: nat)
    requires j <= |cfg.arts| && k <= |cfg.arts| && RefGood(cfg, r, j, m)
    ensures RefGood(cfg, r, j, 0)
    ensures cfg.Tolerant() ==> RefGood(cfg, r, k, 0)
  {
    RefLess(cfg, r, j, m, 0);
  }

  lemma RefFromScratch(cfg: Config, k: nat)
    requires k <= |cfg.arts| && (k == 0 || cfg.Tolerant())
    ensures RefGood(cfg, Repeat(cfg.RefSize(), 0), k, 0)
  {
  }

  // ---- the log ----

  /** Progress along the log: next article, last point, octets on the wire and longest article since it, octets
      in all, whether the next article goes out literally, whether the end was sent. */
  datatype Progress = Progress(k: nat, n: nat, since: nat, longest: nat, bytes: nat, literal: bool, done: bool)

  const BEGINNING: Progress := Progress(0, 0, 0, 0, 0, true, false)

  /** The next article is within what was written since the last point, or goes out literally. */
  predicate CoveredAt(cfg: Config, c: Progress)
  {
    c.k < |cfg.arts| && !c.literal ==> |cfg.arts[c.k]| <= c.longest
  }

  datatype Entry = Wire(octets: seq<byte>) | Mark(n: nat) | Finish

  /** Whether a point goes before the next article, its wire form being `w`. */
  predicate Due(cfg: Config, since: nat, w: seq<byte>)
  {
    cfg.Interval().Some? && since > 0 && since + |w| > cfg.Interval().value
  }

  function EntryAt(cfg: Config, c: Progress): Entry
    requires c.k <= |cfg.arts|
  {
    if c.done || c.k == |cfg.arts| then Finish
    else
      var w := WireAt(cfg, c.k, c.literal);
      if Due(cfg, c.since, w) then Mark(c.n + 1) else Wire(w)
  }

  function Advance(cfg: Config, c: Progress): (d: Progress)
    requires c.k <= |cfg.arts|
    ensures d.k <= |cfg.arts|
  {
    match EntryAt(cfg, c)
    case Wire(w) =>
      Progress(c.k + 1, c.n, c.since + |w|, Max(c.longest, |cfg.arts[c.k]|), c.bytes + |w|, false, false)
    case Mark(n) => Progress(c.k, n, 0, 0, c.bytes, true, false)
    case Finish => c.(done := true)
  }

  function Reach(cfg: Config, i: nat): (c: Progress)
    ensures c.k <= |cfg.arts|
  {
    if i == 0 then BEGINNING else Advance(cfg, Reach(cfg, i - 1))
  }

  function EntryNo(cfg: Config, i: nat): Entry
  {
    EntryAt(cfg, Reach(cfg, i))
  }

  /** The log stands right behind point `n` (the beginning for 0) after `i` entries. */
  predicate PointAt(cfg: Config, n: nat, i: nat)
  {
    var c := Reach(cfg, i);
    c.n == n && c.literal && !c.done
  }

  /** Articles never fewer than points; a point is due only after an article of its own. */
  lemma {:induction false} ReachOrder(cfg: Config, i: nat)
    ensures var c := Reach(cfg, i);
      c.n <= c.k && (c.since > 0 ==> c.n < c.k) && (c.literal ==> c.since == c.longest == 0)
  {
    hide WireAt;
    if i > 0 {
      ReachOrder(cfg, i - 1);
    }
  }

  /** `d` comes after `c`: it is behind another point, behind an article, or at the end. */
  predicate Later(c: Progress, d: Progress)
  {
    && c.n <= d.n && c.k <= d.k && c.bytes <= d.bytes
    && (c.done ==> d == c)
    && (c.n == d.n && !c.done ==> !d.literal || d.done)
  }

  lemma LaterStep(cfg: Config, c: Progress)
    requires c.k <= |cfg.arts|
    ensures Later(c, Advance(cfg, c))
  {
  }

  lemma LaterTrans(c: Progress, d: Progress, e: Progress)
    requires Later(c, d) && Later(d, e)
    ensures Later(c, e)
  {
  }

  lemma {:induction false} ReachGrows(cfg: Config, i: nat, j: nat)
    requires i < j
    ensures Later(Reach(cfg, i), Reach(cfg, j))
    decreases j
  {
    hide WireAt, Later, Advance;
    LaterStep(cfg, Reach(cfg, j - 1));
    if i < j - 1 {
      ReachGrows(cfg, i, j - 1);
      LaterTrans(Reach(cfg, i), Reach(cfg, j - 1), Reach(cfg, j));
    }
  }

  /** A point number names one place of the log. */
  lemma PointUnique(cfg: Config, n: nat, i: nat, j: nat)
    requires PointAt(cfg, n, i) && PointAt(cfg, n, j)
    ensures i == j
  {
    if i < j {
      ReachGrows(cfg, i, j);
    } else if j < i {
      ReachGrows(cfg, j, i);
    }
  }

  /** Entries are articles and points until the end is reached, after at most two entries an article. */
  lemma {:induction false} EntriesCounted(cfg: Config, i: nat)
    ensures !Reach(cfg, i).done ==> i == Reach(cfg, i).k + Reach(cfg, i).n
  {
    hide WireAt;
    if i > 0 {
      EntriesCounted(cfg, i - 1);
    }
  }

  /** The number of points of the whole log. */
  function Points(cfg: Config): nat { Reach(cfg, 2 * |cfg.arts| + 1).n }

  /** The log ends, and its points are numbered up to `Points`, no more than the articles. */
  lemma PointsBound(cfg: Config, i: nat)
    ensures Reach(cfg, i).n <= Points(cfg) <= |cfg.arts|
    ensures Reach(cfg, i).done ==> Reach(cfg, i).n == Points(cfg)
  {
    hide WireAt, Advance;
    var last := 2 * |cfg.arts| + 1;
    EntriesCounted(cfg, last);
    ReachOrder(cfg, last);
    if i < last {
      ReachGrows(cfg, i, last);
    } else if last < i {
      ReachGrows(cfg, last, i);
    }
  }

  /** How far apart points are for a negotiated number of kilobytes, 0xFFFF leaving it undefined. */
  function Spacing(kb: nat): nat { if kb == 0xFFFF then 1048576 else 1024 * kb }

  /** The octets on the wire of the articles from `j` on that come before `k`, the first of them right behind a point. */
  function Octets(cfg: Config, j: nat, k: nat): nat
    requires j <= k <= |cfg.arts|
    decreases k
  {
    if j == k then 0 else Octets(cfg, j, k - 1) + |WireAt(cfg, k - 1, k - 1 == j)|
  }

  /** The octets since the last point exceed the interval only when those of its last article do; without the option
      there is no point. */
  lemma {:induction false} Paced(cfg: Config, i: nat) returns (j: nat)
    ensures var c, kb := Reach(cfg, i), cfg.sync.intervalKb;
      && (kb == 0 ==> c.n == 0)
      && j <= i && PointAt(cfg, c.n, j) && Reach(cfg, j).k <= c.k
      && c.since == Octets(cfg, Reach(cfg, j).k, c.k)
      && (!c.done ==> (c.literal <==> c.k == Reach(cfg, j).k))
      && (kb != 0 && c.since > Spacing(kb) ==> c.k > Reach(cfg, j).k && Octets(cfg, Reach(cfg, j).k, c.k - 1) == 0)
  {
    hide WireAt;
    j := 0;
    if i > 0 {
      j := Paced(cfg, i - 1);
      if EntryNo(cfg, i - 1).Mark? {
        j := i;
      }
    }
  }

  /** Points come as late as the interval allows: the articles between two of them keep within it, unless the octets are
      all those of one article, and the article behind the second would not have. */
  lemma PointPaced(cfg: Config, n: nat, i: nat) returns (j: nat)
    requires n >= 1 && PointAt(cfg, n, i)
    ensures var kb, from, to := cfg.sync.intervalKb, Reach(cfg, j).k, Reach(cfg, i).k;
      && kb != 0 && PointAt(cfg, n - 1, j) && from < to < |cfg.arts|
      && (Octets(cfg, from, to) <= Spacing(kb) || Octets(cfg, from, to - 1) == 0)
      && Octets(cfg, from, to) + |WireAt(cfg, to, false)| > Spacing(kb)
      && Reach(cfg, i).bytes == Reach(cfg, j).bytes + Octets(cfg, from, to)
  {
    hide WireAt;
    j := Paced(cfg, i - 1);
    Counted(cfg, i - 1, j);
  }

  /** The octets in all are those of the last point and those since. */
  lemma {:induction false} Counted(cfg: Config, i: nat, j: nat)
    requires PointAt(cfg, Reach(cfg, i).n, j) && j <= i
    ensures Reach(cfg, i).bytes == Reach(cfg, j).bytes + Reach(cfg, i).since
  {
    hide WireAt;
    if j < i {
      var b := Reach(cfg, i - 1);
      if EntryAt(cfg, b).Mark? {
        PointUnique(cfg, b.n + 1, i, j);
      } else {
        Counted(cfg, i - 1, j);
      }
    }
  }

  // ---- points as the two sides record them ----

  /** The file a receiver has written after `k` articles. */
  function FileAt(cfg: Config, k: nat): seq<byte>
    requires k <= |cfg.arts|
  {
    Delivered(cfg.format, cfg.arts[..k])
  }

  function SenderPoint(cfg: Config, i: nat): Checkpoint
    requires cfg.WellCut()
  {
    var c := Reach(cfg, i);
    Checkpoint(c.n, cfg.srcOff[c.k], c.bytes, c.k)
  }

  function ReceiverPoint(cfg: Config, i: nat): Checkpoint
  {
    var c := Reach(cfg, i);
    Checkpoint(c.n, |FileAt(cfg, c.k)|, c.bytes, c.k)
  }

  lemma FileNext(cfg: Config, k: nat)
    requires k < |cfg.arts|
    ensures FileAt(cfg, k + 1) == FileAt(cfg, k) + ArticleToBytes(cfg.format, cfg.arts[k])
  {
    assert cfg.arts[..k + 1] == cfg.arts[..k] + [cfg.arts[k]];
    DeliveredSnoc(cfg.format, cfg.arts[..k], cfg.arts[k]);
  }

  lemma {:induction false} FilePrefix(cfg: Config, j: nat, k: nat)
    requires j <= k <= |cfg.arts|
    ensures FileAt(cfg, j) <= FileAt(cfg, k)
    decreases k
  {
    if j < k {
      FilePrefix(cfg, j, k - 1);
      FileNext(cfg, k - 1);
    }
  }

  /** The article that starts at an offset of the source. */
  function Rewound(cfg: Config, offset: nat, k: nat): (j: nat)
    requires cfg.WellCut() && k <= |cfg.arts|
    ensures j <= |cfg.arts|
    decreases |cfg.arts| - k
  {
    if k == |cfg.arts| || cfg.srcOff[k] >= offset then k else Rewound(cfg, offset, k + 1)
  }

  lemma {:induction false} RewoundTo(cfg: Config, k: nat, j: nat)
    requires cfg.WellCut() && j <= k <= |cfg.arts|
    ensures Rewound(cfg, cfg.srcOff[k], j) == k
    decreases k - j
  {
    if j < k {
      RewoundTo(cfg, k, j + 1);
    }
  }
}
