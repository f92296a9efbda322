/** Packing of articles into data FPDUs, segmentation of long ones and their reassembly. */
module Articles {
  import opened Bytes
  import opened Params
  import opened Fpdu

  type Article = seq<byte>

  const MAX_ARTICLES_PER_DTF: nat := 255

  // ---- packing ----

  datatype Packing = Packing(idDst: byte, maxDtf: nat, multi: bool) {
    /** Room for an octet of data. */
    predicate Usable() { HEADER_LEN < maxDtf }

    /** Usable, and within what the two octets of an FPDU's length can say. */
    predicate Valid() { Usable() && maxDtf <= MAX_FPDU_LEN }

    /** Largest article carried by one DTF of its own. */
    function MaxSingle(): nat
      requires Usable()
    {
      maxDtf - HEADER_LEN
    }
  }

  /** The packing an `ArticlePacker` is built with: at least one octet of data per FPDU. */
  function NewPacking(idDst: byte, maxDtf: nat, multi: bool): Packing
  {
    Packing(idDst, Max(maxDtf, HEADER_LEN + 1), multi)
  }

  /** An article behind its two-octet length. */
  function Prefixed(a: Article): (r: seq<byte>)
    ensures |r| == 2 + |a|
  {
    Be16(if |a| < 0x10000 then |a| else |a| % 0x10000) + a
  }

  /** Articles behind two-octet length prefixes. */
  function MultiBody(arts: seq<Article>): seq<byte>
  {
    if arts == [] then [] else MultiBody(arts[..|arts| - 1]) + Prefixed(arts[|arts| - 1])
  }

  /** An article count in one octet. */
  function Count8(n: nat): byte { if n < 256 then n else n % 256 }

  /** The pending articles as one FPDU; a single one goes without its length prefix. */
  function Flushed(p: Packing, pending: seq<Article>): seq<Fpdu>
  {
    if pending == [] then []
    else if |pending| == 1 then [DataFpdu(Dtf, p.idDst, 0, pending[0])]
    else [DataFpdu(Dtf, p.idDst, Count8(|pending|), MultiBody(pending))]
  }

  /** An article cut into a DTFDA, DTFMAs and a DTFFA of at most `m` octets. */
  function Segments(idDst: byte, m: nat, a: Article, first: bool): seq<Fpdu>
    requires m > 0
    decreases |a|
  {
    if |a| <= m then [DataFpdu(if first then DtfDa else DtfFa, idDst, 0, a)]
    else [DataFpdu(if first then DtfDa else DtfMa, idDst, 0, a[..m])] + Segments(idDst, m, a[m..], false)
  }

  lemma MultiBodyOne(a: Article)
    ensures MultiBody([a]) == Prefixed(a) && Prefixed(a)[2..] == a
  {
    assert [a][..0] == [];
    assert MultiBody([]) == [];
    assert [] + Prefixed(a) == Prefixed(a);
  }

  predicate FlushFirst(p: Packing, pending: seq<Article>, a: Article)
  {
    pending != []
    && (HEADER_LEN + |MultiBody(pending)| + (2 + |a|) > p.maxDtf || |pending| >= MAX_ARTICLES_PER_DTF)
  }

  /** What becomes pending and which FPDUs are ready when an article is pushed. */
  function Pushed(p: Packing, pending: seq<Article>, a: Article): (seq<Article>, seq<Fpdu>)
    requires p.Usable()
  {
    if |a| > p.MaxSingle() then ([], Flushed(p, pending) + Segments(p.idDst, p.MaxSingle(), a, true))
    else if !p.multi then (pending, [DataFpdu(Dtf, p.idDst, 0, a)])
    else if FlushFirst(p, pending, a) then ([a], Flushed(p, pending))
    else (pending + [a], [])
  }

  /** What a packer holds between two calls. */
  predicate Pendable(p: Packing, pending: seq<Article>)
    requires p.Usable()
  {
    && |pending| <= MAX_ARTICLES_PER_DTF
    && (forall i :: 0 <= i < |pending| ==> |pending[i]| <= p.MaxSingle())
    && (|pending| >= 2 ==> HEADER_LEN + |MultiBody(pending)| <= p.maxDtf)
    && (!p.multi ==> pending == [])
  }

  lemma PushKeepsPendable(p: Packing, pending: seq<Article>, a: Article)
    requires p.Usable() && Pendable(p, pending)
    ensures Pendable(p, Pushed(p, pending, a).0)
  {
    var now := Pushed(p, pending, a).0;
    if now == pending + [a] {
      assert now[..|now| - 1] == pending;
      assert |MultiBody(now)| == |MultiBody(pending)| + 2 + |a|;
    }
  }

  // ---- reassembly ----

  datatype ReassemblyError = NoStart(kind: FpduKind) | Interleaved(kind: FpduKind) | ArticleTooLong(limit: nat)

  type Progress = Option<seq<byte>>

  /** Articles behind length prefixes; `None` when a prefix or an article is cut short. */
  function ParseMulti(data: seq<byte>): Option<seq<Article>>
    decreases |data|
  {
    if data == [] then Some([])
    else if |data| < 2 then None
    else
      var len := ReadBe16(data[0], data[1]);
      if 2 + len > |data| then None
      else
        match ParseMulti(data[2 + len..])
        case None => None
        case Some(rest) => Some([data[2..2 + len]] + rest)
  }

  function ArticlesOf(f: Fpdu): Option<seq<Article>>
  {
    if f.kind == Dtf && f.idSrc > 0 then
      match ParseMulti(f.data)
      case None => None
      case Some(arts) => if |arts| == f.idSrc then Some(arts) else None
    else Some([f.data])
  }

  predicate Exceeds(limit: nat, n: nat) { limit > 0 && n > limit }

  /** One data FPDU through a reassembler of the given limit (0 for none). */
  function Fed(limit: nat, partial: Progress, f: Fpdu): Result<(Progress, seq<Article>), ReassemblyError>
  {
    match f.kind
    case Dtf =>
      if partial.Some? || ArticlesOf(f).None? then Err(Interleaved(f.kind))
      else Ok((None, ArticlesOf(f).value))
    case DtfDa =>
      if partial.Some? then Err(Interleaved(f.kind))
      else if Exceeds(limit, |f.data|) then Err(ArticleTooLong(limit))
      else Ok((Some(f.data), []))
    case DtfMa =>
      if partial.None? then Err(NoStart(f.kind))
      else if Exceeds(limit, |partial.value| + |f.data|) then Err(ArticleTooLong(limit))
      else Ok((Some(partial.value + f.data), []))
    case DtfFa =>
      if partial.None? then Err(NoStart(f.kind))
      else if Exceeds(limit, |partial.value| + |f.data|) then Err(ArticleTooLong(limit))
      else Ok((None, [partial.value + f.data]))
    case _ => Ok((partial, []))
  }

  function FeedAll(limit: nat, partial: Progress, fs: seq<Fpdu>): Result<(Progress, seq<Article>), ReassemblyError>
    decreases |fs|
  {
    if fs == [] then Ok((partial, []))
    else
      match Fed(limit, partial, fs[0])
      case Err(e) => Err(e)
      case Ok((partial', arts)) =>
        match FeedAll(limit, partial', fs[1..])
        case Err(e) => Err(e)
        case Ok((partial'', rest)) => Ok((partial'', arts + rest))
  }

  lemma {:induction false} FeedAllAppend(limit: nat, partial: Progress, xs: seq<Fpdu>, ys: seq<Fpdu>)
    ensures FeedAll(limit, partial, xs + ys)
         == match FeedAll(limit, partial, xs)
            case Err(e) => Err(e)
            case Ok((mid, arts)) =>
              match FeedAll(limit, mid, ys)
              case Err(e) => Err(e)
              case Ok((end, rest)) => Ok((end, arts + rest))
    decreases |xs|
  {
    if xs == [] {
      assert xs + ys == ys;
      if FeedAll(limit, partial, ys).Ok? {
        var rest := FeedAll(limit, partial, ys).value.1;
        assert [] + rest == rest;
      }
    } else {
      assert (xs + ys)[1..] == xs[1..] + ys;
      var head := Fed(limit, partial, xs[0]);
      if head.Ok? {
        FeedAllAppend(limit, head.value.0, xs[1..], ys);
        var mid := FeedAll(limit, head.value.0, xs[1..]);
        if mid.Ok? && FeedAll(limit, mid.value.0, ys).Ok? {
          Assoc(head.value.1, mid.value.1, FeedAll(limit, mid.value.0, ys).value.1);
        }
      }
    }
  }

  lemma FeedOne(limit: nat, partial: Progress, f: Fpdu)
    ensures FeedAll(limit, partial, [f]) == Fed(limit, partial, f)
  {
    assert [f][1..] == [];
    var r := Fed(limit, partial, f);
    if r.Ok? {
      assert r.value.1 + [] == r.value.1;
    }
  }

  // ---- reassembling what was packed ----

  lemma {:induction false} ParseAppend(u: seq<byte>, v: seq<byte>)
    requires ParseMulti(u).Some? && ParseMulti(v).Some?
    ensures ParseMulti(u + v) == Some(ParseMulti(u).value + ParseMulti(v).value)
    decreases |u|
  {
    if u == [] {
      assert u + v == v;
      assert [] + ParseMulti(v).value == ParseMulti(v).value;
    } else {
      var n := 2 + ReadBe16(u[0], u[1]);
      assert (u + v)[2..n] == u[2..n] && (u + v)[n..] == u[n..] + v;
      ParseAppend(u[n..], v);
      Assoc([u[2..n]], ParseMulti(u[n..]).value, ParseMulti(v).value);
    }
  }

  lemma ParseOne(a: Article)
    requires |a| < 0x10000
    ensures ParseMulti(Prefixed(a)) == Some([a])
  {
    var b := Be16(|a|);
    var d := Prefixed(a);
    assert d[0] == b[0] && d[1] == b[1];
    assert d[2..2 + |a|] == a;
    assert d[2 + |a|..] == [];
    assert ParseMulti([]) == Some([]);
    assert [a] + [] == [a];
  }

  lemma {:induction false} ParseMultiBody(arts: seq<Article>)
    requires forall i :: 0 <= i < |arts| ==> |arts[i]| < 0x10000
    ensures ParseMulti(MultiBody(arts)) == Some(arts)
  {
    if arts != [] {
      var init, last := arts[..|arts| - 1], arts[|arts| - 1];
      ParseMultiBody(init);
      ParseOne(last);
      ParseAppend(MultiBody(init), Prefixed(last));
      assert init + [last] == arts;
    }
  }

  lemma FlushFeeds(limit: nat, p: Packing, pending: seq<Article>)
    requires p.Valid() && Pendable(p, pending)
    ensures FeedAll(limit, None, Flushed(p, pending)) == Ok((None, pending))
  {
    if pending != [] {
      var f := Flushed(p, pending)[0];
      assert Flushed(p, pending) == [f];
      assert ArticlesOf(f) == Some(pending) by {
        if |pending| == 1 {
          assert [pending[0]] == pending;
        } else {
          ParseMultiBody(pending);
        }
      }
      FeedOne(limit, None, f);
    }
  }

  /** A reassembler accepts the segments of an article exactly when its limit admits the article. */
  lemma {:induction false} SegmentsFeed(limit: nat, idDst: byte, m: nat, a: Article, partial: Progress)
    requires m > 0 && (partial.None? ==> |a| > m)
    requires partial.Some? ==> !Exceeds(limit, |partial.value|)
    ensures var whole := (if partial.Some? then partial.value else []) + a;
      var r := FeedAll(limit, partial, Segments(idDst, m, a, partial.None?));
      if Exceeds(limit, |whole|) then r == Err(ArticleTooLong(limit)) else r == Ok((None, [whole]))
    decreases |a|
  {
    var first := partial.None?;
    var got := if partial.Some? then partial.value else [];
    var fs := Segments(idDst, m, a, first);
    if |a| <= m {
      FeedOne(limit, partial, fs[0]);
    } else {
      var f, rest := fs[0], Segments(idDst, m, a[m..], false);
      assert fs[1..] == rest;
      Assoc(got, a[..m], a[m..]);
      assert a[..m] + a[m..] == a;
      assert [] + a[..m] == a[..m];
      if !Exceeds(limit, |got| + m) {
        SegmentsFeed(limit, idDst, m, a[m..], Some(got + a[..m]));
        var r := FeedAll(limit, Some(got + a[..m]), rest);
        if r.Ok? {
          assert [] + r.value.1 == r.value.1;
        }
      }
    }
  }

  /** Whether a reassembler of this limit lets the article through: only segments are checked. */
  predicate Admitted(limit: nat, p: Packing, a: Article)
    requires p.Valid()
  {
    |a| <= p.MaxSingle() || !Exceeds(limit, |a|)
  }

  /** What a receiver has got out of the FPDUs of a push. */
  function Early(p: Packing, pending: seq<Article>, a: Article): seq<Article>
    requires p.Valid()
  {
    if |a| > p.MaxSingle() then pending + [a]
    else if !p.multi then [a]
    else if FlushFirst(p, pending, a) then pending
    else []
  }

  /** The FPDUs of a push deliver, with what stays pending, what was pending and the new article. */
  lemma PushFeeds(limit: nat, p: Packing, pending: seq<Article>, a: Article)
    requires p.Valid() && Pendable(p, pending)
    ensures Early(p, pending, a) + Pushed(p, pending, a).0 == pending + [a]
    ensures FeedAll(limit, None, Pushed(p, pending, a).1)
         == if Admitted(limit, p, a) then Ok((None, Early(p, pending, a))) else Err(ArticleTooLong(limit))
  {
    var out := Pushed(p, pending, a).1;
    FlushFeeds(limit, p, pending);
    if |a| > p.MaxSingle() {
      var segments := Segments(p.idDst, p.MaxSingle(), a, true);
      FeedAllAppend(limit, None, Flushed(p, pending), segments);
      SegmentsFeed(limit, p.idDst, p.MaxSingle(), a, None);
      assert [] + a == a;
      assert (pending + [a]) + [] == pending + [a];
    } else if !p.multi {
      FeedOne(limit, None, out[0]);
      assert [a] + [] == [] + [a];
    }
  }

  predicate AllDataKinds(fs: seq<Fpdu>)
  {
    forall f :: f in fs ==> f.kind.IsData()
  }

  lemma {:induction false} SegmentsData(idDst: byte, m: nat, a: Article, first: bool)
    requires m > 0
    ensures AllDataKinds(Segments(idDst, m, a, first))
    decreases |a|
  {
    if |a| > m {
      SegmentsData(idDst, m, a[m..], false);
    }
  }

  /** A packer emits data FPDUs only. */
  lemma PushedData(p: Packing, pending: seq<Article>, a: Article)
    requires p.Valid()
    ensures AllDataKinds(Flushed(p, pending)) && AllDataKinds(Pushed(p, pending, a).1)
  {
    SegmentsData(p.idDst, p.MaxSingle(), a, true);
  }

  /** Every FPDU of a sending run. */
  function PushAll(p: Packing, pending: seq<Article>, arts: seq<Article>): seq<Fpdu>
    requires p.Valid()
    decreases |arts|
  {
    if arts == [] then Flushed(p, pending)
    else Pushed(p, pending, arts[0]).1 + PushAll(p, Pushed(p, pending, arts[0]).0, arts[1..])
  }

  predicate AllAdmitted(limit: nat, p: Packing, arts: seq<Article>)
    requires p.Valid()
  {
    forall i :: 0 <= i < |arts| ==> Admitted(limit, p, arts[i])
  }

  lemma AllAdmittedSplit(limit: nat, p: Packing, arts: seq<Article>)
    requires p.Valid() && arts != []
    ensures AllAdmitted(limit, p, arts) <==> Admitted(limit, p, arts[0]) && AllAdmitted(limit, p, arts[1..])
  {
    if Admitted(limit, p, arts[0]) && AllAdmitted(limit, p, arts[1..]) {
      forall i | 0 <= i < |arts| ensures Admitted(limit, p, arts[i]) {
        assert i == 0 || arts[i] == arts[1..][i - 1];
      }
    }
  }

  /** Packing then reassembling any articles gives them back in order, exactly when every segmented
      one is within the reassembler's limit. */
  lemma {:induction false} PackThenReassemble(limit: nat, p: Packing, pending: seq<Article>, arts: seq<Article>)
    requires p.Valid() && Pendable(p, pending)
    ensures FeedAll(limit, None, PushAll(p, pending, arts))
         == if AllAdmitted(limit, p, arts) then Ok((None, pending + arts)) else Err(ArticleTooLong(limit))
    decreases |arts|
  {
    if arts == [] {
      FlushFeeds(limit, p, pending);
      assert pending + [] == pending;
    } else {
      var a, rest := arts[0], arts[1..];
      var now, out := Pushed(p, pending, a).0, Pushed(p, pending, a).1;
      PushKeepsPendable(p, pending, a);
      PushFeeds(limit, p, pending, a);
      FeedAllAppend(limit, None, out, PushAll(p, now, rest));
      AllAdmittedSplit(limit, p, arts);
      PackThenReassemble(limit, p, now, rest);
      assert Early(p, pending, a) + (now + rest) == pending + arts by {
        Assoc(Early(p, pending, a), now, rest);
        Assoc(pending, [a], rest);
        assert [a] + rest == arts;
      }
    }
  }

  // ---- sizes ----

  /** A data FPDU the packer may emit: it fits the entity, announces as many articles as it holds,
      and it counts them only when several articles may share it. */
  predicate Shippable(p: Packing, f: Fpdu)
  {
    && f.kind.IsData()
    && f.params == []
    && f.idDst == p.idDst
    && EncodedLen(f) <= p.maxDtf
    && (f.kind != Dtf || !p.multi ==> f.idSrc == 0)
    && ArticlesOf(f).Some?
    && 1 <= |ArticlesOf(f).value| <= 255
  }

  predicate AllShippable(p: Packing, fs: seq<Fpdu>)
  {
    forall i :: 0 <= i < |fs| ==> Shippable(p, fs[i])
  }

  lemma AllShippableAppend(p: Packing, xs: seq<Fpdu>, ys: seq<Fpdu>)
    requires AllShippable(p, xs) && AllShippable(p, ys)
    ensures AllShippable(p, xs + ys)
  {
    forall i | 0 <= i < |xs + ys| ensures Shippable(p, (xs + ys)[i]) {
      assert (xs + ys)[i] == if i < |xs| then xs[i] else ys[i - |xs|];
    }
  }

  lemma FlushShippable(p: Packing, pending: seq<Article>)
    requires p.Valid() && Pendable(p, pending)
    ensures AllShippable(p, Flushed(p, pending))
  {
    if |pending| >= 2 {
      ParseMultiBody(pending);
    }
  }

  lemma {:induction false} SegmentsShippable(p: Packing, a: Article, first: bool)
    requires p.Valid()
    ensures AllShippable(p, Segments(p.idDst, p.MaxSingle(), a, first))
    decreases |a|
  {
    var m := p.MaxSingle();
    if |a| > m {
      SegmentsShippable(p, a[m..], false);
      AllShippableAppend(p, Segments(p.idDst, m, a, first)[..1], Segments(p.idDst, m, a[m..], false));
      assert Segments(p.idDst, m, a, first)[..1] + Segments(p.idDst, m, a[m..], false) == Segments(p.idDst, m, a, first);
    }
  }

  lemma PushShippable(p: Packing, pending: seq<Article>, a: Article)
    requires p.Valid() && Pendable(p, pending)
    ensures AllShippable(p, Pushed(p, pending, a).1)
  {
    FlushShippable(p, pending);
    if |a| > p.MaxSingle() {
      SegmentsShippable(p, a, true);
      AllShippableAppend(p, Flushed(p, pending), Segments(p.idDst, p.MaxSingle(), a, true));
    }
  }

  /** Every FPDU of every sending run is within the size it was packed for. */
  lemma {:induction false} PackedSizes(p: Packing, pending: seq<Article>, arts: seq<Article>)
    requires p.Valid() && Pendable(p, pending)
    ensures AllShippable(p, PushAll(p, pending, arts))
    decreases |arts|
  {
    FlushShippable(p, pending);
    if arts != [] {
      var a := arts[0];
      var now, out := Pushed(p, pending, a).0, Pushed(p, pending, a).1;
      PushKeepsPendable(p, pending, a);
      PackedSizes(p, now, arts[1..]);
      PushShippable(p, pending, a);
      AllShippableAppend(p, out, PushAll(p, now, arts[1..]));
    }
  }

  /** What articles take behind their length prefixes. */
  function Total(arts: seq<Article>): nat
  {
    if arts == [] then 0 else Total(arts[..|arts| - 1]) + 2 + |arts[|arts| - 1]|
  }

  lemma {:induction false} BodyTotal(arts: seq<Article>)
    ensures |MultiBody(arts)| == Total(arts)
  {
    if arts != [] {
      BodyTotal(arts[..|arts| - 1]);
    }
  }

  /** Two FPDUs sent one behind the other waste nothing: the first article of the second found no room in the first, which
      is full or holds as many articles as an octet can count, and no segment but the last of an article is short. */
  predicate Tight(p: Packing, f: Fpdu, g: Fpdu)
  {
    && (p.multi && f.kind == Dtf && g.kind == Dtf ==>
          && ArticlesOf(f).Some? && ArticlesOf(g).Some? && ArticlesOf(g).value != []
          && (|ArticlesOf(f).value| == 255
              || 6 + Total(ArticlesOf(f).value) + 2 + |ArticlesOf(g).value[0]| > p.maxDtf))
    && (f.kind == DtfDa || f.kind == DtfMa ==> |f.data| == p.maxDtf - 6)
  }

  lemma FlushHolds(p: Packing, pending: seq<Article>)
    requires p.Valid() && Pendable(p, pending) && pending != []
    ensures var f := Flushed(p, pending); |f| == 1 && f[0].kind == Dtf && ArticlesOf(f[0]) == Some(pending)
  {
    if |pending| == 1 {
      assert [pending[0]] == pending;
    } else {
      ParseMultiBody(pending);
    }
  }

  /** What is pending goes out first. */
  lemma {:induction false} PendingFirst(p: Packing, pending: seq<Article>, arts: seq<Article>)
    requires p.Valid() && Pendable(p, pending) && pending != []
    ensures var fs := PushAll(p, pending, arts);
      fs != [] && fs[0].kind == Dtf && ArticlesOf(fs[0]).Some? && pending <= ArticlesOf(fs[0]).value
    decreases |arts|
  {
    FlushHolds(p, pending);
    if arts != [] {
      var now := Pushed(p, pending, arts[0]).0;
      PushKeepsPendable(p, pending, arts[0]);
      if Pushed(p, pending, arts[0]).1 == [] {
        PendingFirst(p, now, arts[1..]);
      }
    }
  }

  lemma {:induction false} SegmentsTight(p: Packing, a: Article, first: bool, i: nat)
    requires p.Valid() && i < |Segments(p.idDst, p.MaxSingle(), a, first)| && (first ==> |a| > p.MaxSingle())
    ensures var fs := Segments(p.idDst, p.MaxSingle(), a, first);
      && (if i == |fs| - 1 then fs[i].kind == DtfFa else |fs[i].data| == p.maxDtf - 6)
      && fs[i].kind == (if i == |fs| - 1 then DtfFa else if first && i == 0 then DtfDa else DtfMa)
    decreases |a|
  {
    if i > 0 {
      SegmentsTight(p, a[p.MaxSingle()..], false, i - 1);
    } else if |a| > p.MaxSingle() {
      assert Segments(p.idDst, p.MaxSingle(), a[p.MaxSingle()..], false) != [];
    }
  }

  /** The articles of a run are packed as tightly as an FPDU allows. */
  lemma {:induction false} PackedTightly(p: Packing, pending: seq<Article>, arts: seq<Article>, i: nat)
    requires p.Valid() && Pendable(p, pending) && i + 1 < |PushAll(p, pending, arts)|
    ensures Tight(p, PushAll(p, pending, arts)[i], PushAll(p, pending, arts)[i + 1])
    decreases |arts|
  {
    if arts != [] {
      hide Segments, ArticlesOf, Tight, Pendable;
      var a, rest := arts[0], arts[1..];
      var now, out := Pushed(p, pending, a).0, Pushed(p, pending, a).1;
      var later := PushAll(p, now, rest);
      PushKeepsPendable(p, pending, a);
      if i >= |out| {
        assert (out + later)[i] == later[i - |out|] && (out + later)[i + 1] == later[i + 1 - |out|];
        PackedTightly(p, now, rest, i - |out|);
      } else {
        OutTight(p, pending, a, rest, i);
      }
    }
  }

  lemma SomeSegment(p: Packing, a: Article)
    requires p.Valid()
    ensures Segments(p.idDst, p.MaxSingle(), a, true) != []
  {
  }

  /** An article cut into segments, behind what was pending. */
  lemma LongTight(p: Packing, pending: seq<Article>, a: Article, later: seq<Fpdu>, i: nat)
    requires p.Valid() && Pendable(p, pending) && |a| > p.MaxSingle() && i < |Pushed(p, pending, a).1|
    requires var fs := Pushed(p, pending, a).1 + later; i + 1 < |fs|
    ensures var fs := Pushed(p, pending, a).1 + later; Tight(p, fs[i], fs[i + 1])
  {
    hide Segments, ArticlesOf, FlushFirst;
    SomeSegment(p, a);
    SegmentsTight(p, a, true, 0);
    var fs, k := Pushed(p, pending, a).1 + later, i - |Flushed(p, pending)|;
    if k >= 0 {
      SegmentsTight(p, a, true, k);
    } else {
      FlushHolds(p, pending);
      assert fs[i + 1] == Segments(p.idDst, p.MaxSingle(), a, true)[0];
    }
  }

  lemma OutTight(p: Packing, pending: seq<Article>, a: Article, rest: seq<Article>, i: nat)
    requires p.Valid() && Pendable(p, pending) && i < |Pushed(p, pending, a).1|
    requires i + 1 < |PushAll(p, pending, [a] + rest)|
    ensures Tight(p, PushAll(p, pending, [a] + rest)[i], PushAll(p, pending, [a] + rest)[i + 1])
  {
    hide Segments, ArticlesOf;
    assert ([a] + rest)[0] == a && ([a] + rest)[1..] == rest;
    PushKeepsPendable(p, pending, a);
    if |a| > p.MaxSingle() {
      LongTight(p, pending, a, PushAll(p, Pushed(p, pending, a).0, rest), i);
    } else if p.multi {
      FlushHolds(p, pending);
      BodyTotal(pending);
      PendingFirst(p, [a], rest);
    }
  }

  /** One turn of the chunk loop. */
  lemma SegmentStep(idDst: byte, a: Article, pos: nat, m: nat, first: bool)
    requires m > 0 && pos < |a| && (first ==> |a| - pos > m)
    ensures var end := if pos + m < |a| then pos + m else |a|;
      var kind := if first then DtfDa else if end == |a| then DtfFa else DtfMa;
      Segments(idDst, m, a[pos..], first)
        == [DataFpdu(kind, idDst, 0, a[pos..end])] + if end == |a| then [] else Segments(idDst, m, a[end..], false)
  {
    if pos + m < |a| {
      Window(a, pos, m);
    } else {
      assert a[pos..|a|] == a[pos..];
    }
  }

  /** One turn of the loop over length prefixes, and its exits. */
  lemma ParseStep(data: seq<byte>, pos: nat, out: seq<Article>)
    requires pos <= |data|
    ensures pos == |data| ==> JoinParsed(out, ParseMulti(data[pos..])) == Some(out)
    ensures pos < |data| < pos + 2 ==> ParseMulti(data[pos..]).None?
    ensures pos + 2 <= |data| ==>
      var end := pos + 2 + ReadBe16(data[pos], data[pos + 1]);
      if end > |data| then ParseMulti(data[pos..]).None?
      else JoinParsed(out, ParseMulti(data[pos..])) == JoinParsed(out + [data[pos + 2..end]], ParseMulti(data[end..]))
  {
    var rest := data[pos..];
    if pos == |data| {
      assert ParseMulti(rest) == Some([]);
      assert out + [] == out;
    }
    if pos + 2 <= |data| {
      var n := 2 + ReadBe16(rest[0], rest[1]);
      if pos + n <= |data| {
        assert rest[2..n] == data[pos + 2..pos + n] && rest[n..] == data[pos + n..];
        var later := ParseMulti(data[pos + n..]);
        assert ParseMulti(rest[n..]) == later;
        if later.Some? {
          assert ParseMulti(rest) == Some([rest[2..n]] + later.value);
          Assoc(out, [rest[2..n]], later.value);
        }
      }
    }
  }

  function JoinParsed(out: seq<Article>, r: Option<seq<Article>>): Option<seq<Article>>
  {
    match r
    case None => None
    case Some(arts) => Some(out + arts)
  }

  lemma JoinNothing(data: seq<byte>)
    ensures JoinParsed([], ParseMulti(data[0..])) == ParseMulti(data)
  {
    assert data[0..] == data;
    if ParseMulti(data).Some? {
      assert [] + ParseMulti(data).value == ParseMulti(data).value;
    }
  }

  /** The articles of an FPDU, length prefixes decoded in a loop. */
  method ExtractArticles(f: Fpdu) returns (r: Option<seq<Article>>)
    ensures r == ArticlesOf(f)
  {
    hide ParseMulti;
    if f.kind != Dtf || f.idSrc == 0 {
      return Some([f.data]);
    }
    var out: seq<Article>, pos: nat := [], 0;
    JoinNothing(f.data);
    while pos < |f.data|
      invariant pos <= |f.data|
      invariant JoinParsed(out, ParseMulti(f.data[pos..])) == ParseMulti(f.data)
    {
      ParseStep(f.data, pos, out);
      if pos + 2 > |f.data| {
        return None;
      }
      var len := ReadBe16(f.data[pos], f.data[pos + 1]);
      var start := pos + 2;
      if start + len > |f.data| {
        return None;
      }
      out := out + [f.data[start..start + len]];
      pos := start + len;
    }
    ParseStep(f.data, pos, out);
    return if |out| != f.idSrc then None else Some(out);
  }

  // ---- packer and reassembler ----

  class ArticlePacker {
    const idDst: byte
    const maxDtf: nat
    const multi: bool
    var pending: seq<byte>
    var pendingCount: nat
    ghost var held: seq<Article>

    function Settings(): Packing { Packing(idDst, maxDtf, multi) }

    /** The octets waiting are the pending articles behind their lengths. */
    ghost predicate Valid()
      reads this
    {
      && Settings().Usable()
      && Pendable(Settings(), held)
      && pending == MultiBody(held)
      && pendingCount == |held|
    }

    constructor (idDst: byte, maxDtf: nat, multi: bool)
      ensures Valid() && held == [] && Settings() == NewPacking(idDst, maxDtf, multi)
    {
      this.idDst := idDst;
      this.maxDtf := Max(maxDtf, HEADER_LEN + 1);
      this.multi := multi;
      pending := [];
      pendingCount := 0;
      held := [];
    }

    /** What is held goes out behind `out`. */
    method FlushInto(out: seq<Fpdu>) returns (res: seq<Fpdu>)
      requires Valid()
      modifies this
      ensures Valid() && held == []
      ensures res == out + Flushed(Settings(), old(held))
    {
      if pendingCount == 0 {
        return out;
      }
      var fpdu;
      if pendingCount == 1 {
        assert pending[2..] == held[0] by {
          MultiBodyOne(held[0]);
          assert held == [held[0]];
        }
        fpdu := DataFpdu(Dtf, idDst, 0, pending[2..]);
      } else {
        fpdu := DataFpdu(Dtf, idDst, Count8(pendingCount), pending);
      }
      pending := [];
      pendingCount := 0;
      held := [];
      res := out + [fpdu];
    }

    method Flush() returns (fpdu: Option<Fpdu>)
      requires Valid()
      modifies this
      ensures Valid() && held == []
      ensures Flushed(Settings(), old(held)) == if fpdu.Some? then [fpdu.value] else []
    {
      var v := FlushInto([]);
      assert [] + Flushed(Settings(), old(held)) == Flushed(Settings(), old(held));
      fpdu := if v == [] then None else Some(v[|v| - 1]);
    }

    method Push(article: Article) returns (out: seq<Fpdu>)
      requires Valid()
      modifies this
      ensures Valid()
      ensures (held, out) == Pushed(Settings(), old(held), article)
    {
      PushKeepsPendable(Settings(), held, article);
      out := [];
      if |article| > maxDtf - HEADER_LEN {
        out := FlushInto(out);
        out := SegmentInto(out, article);
        assert [] + Flushed(Settings(), old(held)) == Flushed(Settings(), old(held));
        return;
      }
      if !multi {
        return [DataFpdu(Dtf, idDst, 0, article)];
      }
      if pendingCount > 0
        && (HEADER_LEN + |pending| + (2 + |article|) > maxDtf || pendingCount >= MAX_ARTICLES_PER_DTF) {
        out := FlushInto(out);
        assert [] + Flushed(Settings(), old(held)) == Flushed(Settings(), old(held));
        assert held + [article] == [article];
      }
      Append(article);
    }

    method Append(article: Article)
      requires Valid() && multi && Pendable(Settings(), held + [article])
      modifies this
      ensures Valid() && held == old(held) + [article]
    {
      pending := pending + Prefixed(article);
      pendingCount := pendingCount + 1;
      held := held + [article];
      assert held[..|held| - 1] == old(held);
    }

    /** A long article cut into segments behind `out`. */
    method SegmentInto(out: seq<Fpdu>, article: Article) returns (res: seq<Fpdu>)
      requires Settings().Usable() && |article| > Settings().MaxSingle()
      ensures res == out + Segments(idDst, Settings().MaxSingle(), article, true)
    {
      var m, pos, first := maxDtf - HEADER_LEN, 0, true;
      res := out;
      while pos < |article|
        invariant 0 <= pos <= |article| && first == (pos == 0)
        invariant pos < |article| ==>
          res + Segments(idDst, m, article[pos..], first) == out + Segments(idDst, m, article, true)
        invariant pos == |article| ==> res == out + Segments(idDst, m, article, true)
      {
        var end := Min(pos + m, |article|);
        var last := end == |article|;
        var kind := if first then DtfDa else if last then DtfFa else DtfMa;
        var f := DataFpdu(kind, idDst, 0, article[pos..end]);
        SegmentStep(idDst, article, pos, m, first);
        Assoc(res, [f], if last then [] else Segments(idDst, m, article[end..], false));
        res := res + [f];
        pos, first := end, false;
      }
    }
  }

  class Reassembler {
    const maxLen: nat
    var partial: Progress

    constructor (maxLen: nat)
      ensures partial == None && this.maxLen == maxLen
    {
      this.maxLen := maxLen;
      partial := None;
    }

    /** On an error nothing is returned; a start that was present is lost once it grew too long. */
    method Feed(fpdu: Fpdu) returns (r: Result<seq<Article>, ReassemblyError>)
      modifies this
      ensures match Fed(maxLen, old(partial), fpdu)
        case Ok((now, articles)) => r == Ok(articles) && partial == now
        case Err(e) => r == Err(e) && partial == if e.ArticleTooLong? then None else old(partial)
    {
      if fpdu.kind == Dtf {
        if partial.Some? {
          return Err(Interleaved(fpdu.kind));
        }
        var articles := ExtractArticles(fpdu);
        return if articles.None? then Err(Interleaved(fpdu.kind)) else Ok(articles.value);
      } else if fpdu.kind == DtfDa {
        if partial.Some? {
          return Err(Interleaved(fpdu.kind));
        }
        if Exceeds(maxLen, |fpdu.data|) {
          return Err(ArticleTooLong(maxLen));
        }
        partial := Some(fpdu.data);
        return Ok([]);
      } else if fpdu.kind == DtfMa || fpdu.kind == DtfFa {
        if partial.None? {
          return Err(NoStart(fpdu.kind));
        }
        var p := partial.value;
        partial := None;
        if Exceeds(maxLen, |p| + |fpdu.data|) {
          return Err(ArticleTooLong(maxLen));
        }
        p := p + fpdu.data;
        if fpdu.kind == DtfMa {
          partial := Some(p);
          return Ok([]);
        }
        return Ok([p]);
      }
      return Ok([]);
    }
  }
}
