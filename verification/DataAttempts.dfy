/** One attempt, from any two points and under any coding, in which no point is asked for again: what the receiver
    writes is the articles behind the point the sender starts from. */
module DataAttempts {
  import opened Bytes
  import opened Params
  import opened Cutter
  import opened Compressors
  import opened Checkpoints
  import opened Canon
  import opened DataPhase
  import opened LogFollowing
  import C = Compress
  import F = Fpdu
  import A = Articles

  /** The file the receiver opened, the article the sender starts at, the articles the receiver had counted, and the
      octets the sender had counted beyond those. */
  datatype Attempt = Attempt(base: seq<byte>, from: nat, articles: nat, ahead: int)

  /** The receiver's file once the articles before `k` have come through. */
  function Grown(cfg: Config, at: Attempt, k: nat): seq<byte>
    requires at.from <= k <= |cfg.arts|
  {
    at.base + Delivered(cfg.format, cfg.arts[at.from..k])
  }

  lemma GrownNext(cfg: Config, at: Attempt, k: nat)
    requires at.from <= k < |cfg.arts|
    ensures Grown(cfg, at, k + 1) == Grown(cfg, at, k) + ArticleToBytes(cfg.format, cfg.arts[k])
  {
    assert cfg.arts[at.from..k + 1] == cfg.arts[at.from..k] + [cfg.arts[k]];
    DeliveredSnoc(cfg.format, cfg.arts[at.from..k], cfg.arts[k]);
  }

  /** The article a receiver is due, by its count. */
  function Reached(at: Attempt, r: Receiver): int { at.from + r.articles - at.articles }

  /** The file is what has come through by the receiver's own count, and all of it on completion. */
  predicate Sane(cfg: Config, at: Attempt, r: Receiver)
  {
    && at.from <= Reached(at, r) <= |cfg.arts|
    && r.file == Grown(cfg, at, Reached(at, r))
    && (r.phase == Completed ==> Reached(at, r) == |cfg.arts|)
  }

  // ---- what a receiver makes of units ----

  /** The receiver after units, up to its end or failure. */
  function Absorb(cfg: Config, r: Receiver, ps: seq<Pdu>): Receiver
    decreases |ps|
  {
    if ps == [] || r.phase != Receiving then r else Absorb(cfg, Receive(cfg, r, ps[0]).0, ps[1..])
  }

  predicate AllSane(cfg: Config, at: Attempt, r: Receiver, ps: seq<Pdu>)
    decreases |ps|
  {
    && Sane(cfg, at, r)
    && (ps != [] && r.phase == Receiving ==> AllSane(cfg, at, Receive(cfg, r, ps[0]).0, ps[1..]))
  }

  lemma {:induction false} AbsorbAppend(cfg: Config, at: Attempt, r: Receiver, xs: seq<Pdu>, ys: seq<Pdu>)
    ensures Absorb(cfg, r, xs + ys) == Absorb(cfg, Absorb(cfg, r, xs), ys)
    ensures AllSane(cfg, at, r, xs + ys) <==> AllSane(cfg, at, r, xs) && AllSane(cfg, at, Absorb(cfg, r, xs), ys)
    decreases |xs|
  {
    hide Receive, Sane;
    if xs == [] {
      assert xs + ys == ys;
    } else {
      assert (xs + ys)[0] == xs[0] && (xs + ys)[1..] == xs[1..] + ys;
      if r.phase == Receiving {
        AbsorbAppend(cfg, at, Receive(cfg, r, xs[0]).0, xs[1..], ys);
      } else {
        assert AllSane(cfg, at, r, ys) <==> Sane(cfg, at, r);
      }
    }
  }

  lemma AbsorbOne(cfg: Config, at: Attempt, r: Receiver, p: Pdu)
    requires Sane(cfg, at, r)
    requires r.phase == Receiving ==> Sane(cfg, at, Receive(cfg, r, p).0)
    ensures AllSane(cfg, at, r, [p])
    ensures Absorb(cfg, r, [p]) == if r.phase == Receiving then Receive(cfg, r, p).0 else r
  {
    hide Receive, Sane;
    assert [p][1..] == [];
  }

  /** Wires decompressed one after the other keep the file right, as far as they decompress. */
  predicate Right(cfg: Config, at: Attempt, r: Receiver, ws: seq<seq<byte>>)
    decreases |ws|
  {
    && Sane(cfg, at, r)
    && (ws != [] && TakeOne(cfg, r, ws[0]).Some? ==> Right(cfg, at, TakeOne(cfg, r, ws[0]).value, ws[1..]))
  }

  lemma {:induction false} TakeAppend(cfg: Config, at: Attempt, r: Receiver, xs: seq<seq<byte>>, ys: seq<seq<byte>>)
    ensures var (t, all) := Take(cfg, r, xs);
      && Take(cfg, r, xs + ys) == (if all then Take(cfg, t, ys) else (t, false))
      && (Right(cfg, at, r, xs + ys) <==> Right(cfg, at, r, xs) && (all ==> Right(cfg, at, t, ys)))
      && (Right(cfg, at, r, xs) ==> Sane(cfg, at, t))
    decreases |xs|
  {
    hide TakeOne, Sane;
    if xs == [] {
      assert xs + ys == ys;
      assert Right(cfg, at, r, ys) ==> Sane(cfg, at, r);
    } else {
      assert (xs + ys)[0] == xs[0] && (xs + ys)[1..] == xs[1..] + ys;
      var one := TakeOne(cfg, r, xs[0]);
      if one.Some? {
        TakeAppend(cfg, at, one.value, xs[1..], ys);
      }
    }
  }

  /** Decompressing does not look at the segments held, and only moves file, counters and reference. */
  lemma {:induction false} TakeKeeps(cfg: Config, r: Receiver, ws: seq<seq<byte>>, partial: A.Progress)
    ensures var (t, all) := Take(cfg, r, ws);
      && Take(cfg, r.(partial := partial), ws) == (t.(partial := partial), all)
      && t.phase == r.phase && t.partial == r.partial && t.lastSync == r.lastSync && t.store == r.store
        && t.durable == r.durable
    decreases |ws|
  {
    hide ReceiverState.Decoded, Overwrite, ArticleToBytes;
    if ws != [] {
      var one := TakeOne(cfg, r, ws[0]);
      if one.Some? {
        assert TakeOne(cfg, r.(partial := partial), ws[0]) == Some(one.value.(partial := partial));
        TakeKeeps(cfg, one.value, ws[1..], partial);
      }
    }
  }

  lemma {:induction false} RightAnyPartial(cfg: Config, at: Attempt, r: Receiver, ws: seq<seq<byte>>,
                                           partial: A.Progress)
    requires Right(cfg, at, r, ws)
    ensures Right(cfg, at, r.(partial := partial), ws)
    decreases |ws|
  {
    hide ReceiverState.Decoded, Overwrite, ArticleToBytes;
    assert Sane(cfg, at, r.(partial := partial));
    if ws != [] {
      var one := TakeOne(cfg, r, ws[0]);
      if one.Some? {
        assert TakeOne(cfg, r.(partial := partial), ws[0]) == Some(one.value.(partial := partial));
        RightAnyPartial(cfg, at, one.value, ws[1..], partial);
      }
    }
  }

  /** A limit can only refuse. */
  lemma FedUnlimited(limit: nat, partial: A.Progress, f: F.Fpdu)
    ensures A.Fed(limit, partial, f).Ok? ==> A.Fed(limit, partial, f) == A.Fed(0, partial, f)
  {
  }

  /** One data FPDU: refused, stopped at an article that does not decompress, or all of it taken. */
  lemma DataAbsorbed(cfg: Config, at: Attempt, r: Receiver, f: F.Fpdu, mid: A.Progress, ws: seq<seq<byte>>)
    requires r.phase == Receiving && f.kind.IsData() && A.Fed(0, r.partial, f) == Ok((mid, ws)) && Right(cfg, at, r, ws)
    ensures var t := Receive(cfg, r, Data(f)).0;
      && Sane(cfg, at, t)
      && (t.phase == ReceiveFailed || (Take(cfg, r, ws).1 && t == Take(cfg, r, ws).0.(partial := mid)))
  {
    hide A.Fed, Take, TakeOne;
    FedUnlimited(cfg.maxArticle, r.partial, f);
    TakeKeeps(cfg, r, ws, mid);
    RightIsSane(cfg, at, r, ws);
  }

  lemma RightIsSane(cfg: Config, at: Attempt, r: Receiver, ws: seq<seq<byte>>)
    requires Right(cfg, at, r, ws)
    ensures Sane(cfg, at, r) && Sane(cfg, at, Take(cfg, r, ws).0)
  {
    hide TakeOne, Sane;
    TakeAppend(cfg, at, r, ws, []);
  }

  /** Data FPDUs that would reassemble to these wires: refused on the way, or all of them taken. */
  lemma {:induction false} DatasAbsorbed(cfg: Config, at: Attempt, r: Receiver, fs: seq<F.Fpdu>, end: A.Progress,
                                         ws: seq<seq<byte>>)
    requires r.phase == Receiving && A.AllDataKinds(fs) && A.FeedAll(0, r.partial, fs) == Ok((end, ws))
    requires Right(cfg, at, r, ws)
    ensures AllSane(cfg, at, r, Datas(fs))
    ensures var t := Absorb(cfg, r, Datas(fs));
      t.phase == ReceiveFailed || (Take(cfg, r, ws).1 && t == Take(cfg, r, ws).0.(partial := end))
    decreases |fs|
  {
    hide A.Fed, Receive, Sane, TakeOne;
    if fs == [] {
      assert Take(cfg, r, []) == (r, true);
    } else {
      hide A.FeedAll;
      var mid, first, rest := FeedHead(0, r.partial, fs, end, ws);
      assert fs[0] in fs && A.AllDataKinds(fs[1..]);
      assert Datas(fs)[0] == Data(fs[0]) && Datas(fs)[1..] == Datas(fs[1..]);
      TakeAppend(cfg, at, r, first, rest);
      DataAbsorbed(cfg, at, r, fs[0], mid, first);
      var t := Receive(cfg, r, Data(fs[0])).0;
      if t.phase != ReceiveFailed {
        var taken := Take(cfg, r, first).0;
        TakeKeeps(cfg, r, first, mid);
        RightAnyPartial(cfg, at, taken, rest, mid);
        TakeKeeps(cfg, taken, rest, mid);
        TakeKeeps(cfg, taken, rest, end);
        DatasAbsorbed(cfg, at, t, fs[1..], end, rest);
      }
    }
  }

  // ---- sender and receiver in step ----

  /** A receiver that has taken everything the sender has sent stands where the sender stands. */
  predicate Level(cfg: Config, at: Attempt, v: Sender, u: Receiver)
  {
    && Reached(at, u) == v.next && v.dataBytes == u.dataBytes + at.ahead
    && (cfg.compression != NoCompression ==>
          && u.reference == v.comp.reference && |u.reference| == cfg.RefSize()
          && v.comp.compression == cfg.compression)
  }

  /** The next article sent, if it is decompressed at all, leaves the receiver level with the sender. */
  predicate NextRight(cfg: Config, at: Attempt, v: Sender, u: Receiver)
    requires cfg.WellCut() && cfg.packing.Valid() && v.next < |cfg.arts|
  {
    var y := TakeOne(cfg, u, WireOut(cfg, v.comp, cfg.arts[v.next]));
    y.Some? ==> Sane(cfg, at, y.value) && Level(cfg, at, WithArticle(cfg, v), y.value)
  }

  lemma PlainNextRight(cfg: Config, at: Attempt, v: Sender, u: Receiver)
    requires cfg.Built() && v.next < |cfg.arts| && Sane(cfg, at, u) && u.phase == Receiving && Level(cfg, at, v, u)
    ensures NextRight(cfg, at, v, u)
  {
    hide C.Decode, C.Wire, Grown, A.Pushed;
    var a := cfg.arts[v.next];
    GrownNext(cfg, at, v.next);
    if cfg.compression != NoCompression {
      TwiceIsOnce(v.comp.reference, a);
      C.RoundTrip(v.comp.Mode(), a, u.reference, cfg.RefSize());
    }
  }

  /** Behind a point the article goes out literally, coded a second time. */
  lemma PointNextRight(cfg: Config, at: Attempt, v: Sender, u: Receiver)
    requires cfg.Built() && v.next < |cfg.arts| && Sane(cfg, at, u) && u.phase == Receiving && Level(cfg, at, v, u)
    ensures NextRight(cfg, at, AtPoint(cfg, v), u)
  {
    hide C.Decode, C.Wire, Grown, A.Pushed;
    var a := cfg.arts[v.next];
    GrownNext(cfg, at, v.next);
    if cfg.compression != NoCompression {
      TwiceIsOnce(v.comp.reference, a);
      C.OtherReference(C.Literal, a, Overwrite(v.comp.reference, a), u.reference, cfg.RefSize());
    }
  }

  /** What is in flight leaves a receiver that, with what the packer holds back, is level with the sender. */
  predicate Ready(cfg: Config, at: Attempt, v: Sender, x: Receiver)
  {
    x.phase == ReceiveFailed
    || (&& x.phase == Receiving && x.partial == None && Right(cfg, at, x, v.pending)
        && (Take(cfg, x, v.pending).1 ==> Level(cfg, at, v, Take(cfg, x, v.pending).0)))
  }

  /** Only what is held back, counted and coded matters. */
  lemma ReadyAlike(cfg: Config, at: Attempt, v: Sender, w: Sender, x: Receiver)
    requires Ready(cfg, at, v, x)
    requires w.pending == v.pending && w.next == v.next && w.dataBytes == v.dataBytes && w.comp == v.comp
    ensures Ready(cfg, at, w, x)
  {
    hide Right;
  }

  /** An article handed to the packer. */
  lemma ArticleAbsorbed(cfg: Config, at: Attempt, v: Sender, x: Receiver)
    requires cfg.Built() && v.next < |cfg.arts| && A.Pendable(cfg.packing, v.pending)
    requires x.phase == Receiving && x.partial == None && Right(cfg, at, x, v.pending)
    requires Take(cfg, x, v.pending).1 ==> NextRight(cfg, at, v, Take(cfg, x, v.pending).0)
    ensures var w := WithArticle(cfg, v);
      var out := A.Pushed(cfg.packing, v.pending, WireOut(cfg, v.comp, cfg.arts[v.next])).1;
      && A.Pendable(cfg.packing, w.pending)
      && AllSane(cfg, at, x, Datas(out)) && Ready(cfg, at, w, Absorb(cfg, x, Datas(out)))
  {
    hide A.Pushed, A.FeedAll, A.AllDataKinds, A.Early, A.Pendable, Receive, Sane, TakeOne, WireOut, Level, CompSent;
    var wire := WireOut(cfg, v.comp, cfg.arts[v.next]);
    var (now, out) := A.Pushed(cfg.packing, v.pending, wire);
    var early := A.Early(cfg.packing, v.pending, wire);
    A.PushKeepsPendable(cfg.packing, v.pending, wire);
    A.PushFeeds(0, cfg.packing, v.pending, wire);
    A.PushedData(cfg.packing, v.pending, wire);
    OneMore(cfg, at, v, x, wire);
    TakeAppend(cfg, at, x, early, now);
    DatasAbsorbed(cfg, at, x, out, None, early);
    TakeKeeps(cfg, x, early, None);
    var t := Absorb(cfg, x, Datas(out));
    assert t.phase == ReceiveFailed || t == Take(cfg, x, early).0;
  }

  lemma OneMore(cfg: Config, at: Attempt, v: Sender, x: Receiver, wire: seq<byte>)
    requires cfg.Built() && v.next < |cfg.arts| && wire == WireOut(cfg, v.comp, cfg.arts[v.next])
    requires Right(cfg, at, x, v.pending)
    requires Take(cfg, x, v.pending).1 ==> NextRight(cfg, at, v, Take(cfg, x, v.pending).0)
    ensures Right(cfg, at, x, v.pending + [wire])
    ensures var (t, all) := Take(cfg, x, v.pending + [wire]); all ==> Level(cfg, at, WithArticle(cfg, v), t)
  {
    hide WithArticle, WireOut, Sane, TakeOne, Level;
    TakeAppend(cfg, at, x, v.pending, [wire]);
    var u := Take(cfg, x, v.pending).0;
    assert [wire][1..] == [];
    var y := TakeOne(cfg, u, wire);
    if y.Some? {
      assert Take(cfg, y.value, []) == (y.value, true);
    }
  }

  /** What the packer holds back, flushed. */
  lemma FlushAbsorbed(cfg: Config, at: Attempt, v: Sender, x: Receiver)
    requires cfg.packing.Valid() && A.Pendable(cfg.packing, v.pending)
    requires x.phase == Receiving && Ready(cfg, at, v, x)
    ensures var ds := Datas(A.Flushed(cfg.packing, v.pending));
      var t := Absorb(cfg, x, ds);
      && AllSane(cfg, at, x, ds) && Sane(cfg, at, t)
      && (t.phase == ReceiveFailed || (t.phase == Receiving && t.partial == None && Level(cfg, at, v, t)))
  {
    hide A.Pushed, A.FeedAll, A.AllDataKinds, A.Pendable, A.Flushed, Receive, Sane, TakeOne, Level;
    A.FlushFeeds(0, cfg.packing, v.pending);
    A.PushedData(cfg.packing, v.pending, []);
    DatasAbsorbed(cfg, at, x, A.Flushed(cfg.packing, v.pending), None, v.pending);
    TakeKeeps(cfg, x, v.pending, None);
    AbsorbAppend(cfg, at, x, Datas(A.Flushed(cfg.packing, v.pending)), []);
    assert Datas(A.Flushed(cfg.packing, v.pending)) + [] == Datas(A.Flushed(cfg.packing, v.pending));
  }
}
