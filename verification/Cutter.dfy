/** Cutting a file into articles by record format, and articles back into file octets. */
module Cutter {
  import opened Bytes
  import opened Params

  datatype RecordFormat = Bu | Bf | Bv | Tv | Tf {
    predicate IsText() { Tv? || Tf? }
  }

  datatype RecordError = UnfilledRecord(len: nat, recordLen: nat) | LineTooLong(len: nat, recordLen: nat)

  const LF: byte := 10
  const CR: byte := 13
  const SPACE: byte := 32

  // ---- one article ----

  /** Position of the first line feed, the length when there is none. */
  function LfAt(data: seq<byte>): (n: nat)
    ensures n <= |data|
    ensures n < |data| ==> data[n] == LF
    ensures LF !in data[..n]
  {
    if data == [] || data[0] == LF then 0
    else
      assert data[..1 + LfAt(data[1..])] == [data[0]] + data[1..][..LfAt(data[1..])];
      1 + LfAt(data[1..])
  }

  /** One trailing carriage return dropped. */
  function StripCr(line: seq<byte>): seq<byte>
  {
    if line != [] && line[|line| - 1] == CR then line[..|line| - 1] else line
  }

  /** A line as an article: padded in fixed format, an empty record replaced by a space. */
  function TextArticle(format: RecordFormat, recordLen: nat, line: seq<byte>): Result<seq<byte>, RecordError>
  {
    if |line| > recordLen then Err(LineTooLong(|line|, recordLen))
    else
      var a := if format == Tf then line + Repeat(recordLen - |line|, SPACE) else line;
      Ok(if a == [] then [SPACE] else a)
  }

  datatype Cutting = NotYet | Taken(article: seq<byte>, octets: nat) | Refused(error: RecordError)

  /** The article complete in `data`, with the octets it takes. */
  function NextOf(format: RecordFormat, recordLen: nat, data: seq<byte>): (c: Cutting)
    requires recordLen >= 1
    ensures c.Taken? ==> 1 <= c.octets <= |data|
  {
    if format.IsText() then
      var n := LfAt(data);
      if n == |data| then NotYet
      else
        match TextArticle(format, recordLen, StripCr(data[..n]))
        case Err(e) => Refused(e)
        case Ok(a) => Taken(a, n + 1)
    else if |data| >= recordLen then Taken(data[..recordLen], recordLen)
    else NotYet
  }

  /** What the octets left at end of stream make. */
  function LastOf(format: RecordFormat, recordLen: nat, data: seq<byte>): (c: Cutting)
  {
    if data == [] then NotYet
    else
      match format
      case Bf => Refused(UnfilledRecord(|data|, recordLen))
      case Bu | Bv => Taken(data, |data|)
      case Tv | Tf =>
        match TextArticle(format, recordLen, StripCr(data))
        case Err(e) => Refused(e)
        case Ok(a) => Taken(a, |data|)
  }

  /** The next article of a stream known to its end. */
  function StepOf(format: RecordFormat, recordLen: nat, data: seq<byte>): (c: Cutting)
    requires recordLen >= 1
    ensures c.Taken? ==> 1 <= c.octets <= |data|
    ensures c.NotYet? <==> data == []
  {
    var c := NextOf(format, recordLen, data);
    if c.NotYet? then LastOf(format, recordLen, data) else c
  }

  // ---- the whole stream ----

  /** The articles of a stream, up to the first record in error. */
  datatype Articles = Articles(list: seq<seq<byte>>, error: Option<RecordError>)

  function Before(first: seq<seq<byte>>, a: Articles): Articles
  {
    Articles(first + a.list, a.error)
  }

  function Cut(format: RecordFormat, recordLen: nat, data: seq<byte>): Articles
    requires recordLen >= 1
    decreases |data|
  {
    match StepOf(format, recordLen, data)
    case NotYet => Articles([], None)
    case Refused(e) => Articles([], Some(e))
    case Taken(a, n) => Before([a], Cut(format, recordLen, data[n..]))
  }

  /** A complete article stays the same whatever follows it. */
  lemma NextStable(format: RecordFormat, recordLen: nat, data: seq<byte>, more: seq<byte>)
    requires recordLen >= 1 && !NextOf(format, recordLen, data).NotYet?
    ensures NextOf(format, recordLen, data + more) == NextOf(format, recordLen, data)
  {
    if format.IsText() {
      LfStable(data, more);
      assert (data + more)[..LfAt(data)] == data[..LfAt(data)];
    } else {
      assert (data + more)[..recordLen] == data[..recordLen];
    }
  }

  lemma {:induction false} LfStable(data: seq<byte>, more: seq<byte>)
    requires LfAt(data) < |data|
    ensures LfAt(data + more) == LfAt(data)
  {
    if data[0] != LF {
      assert (data + more)[1..] == data[1..] + more;
      LfStable(data[1..], more);
    }
  }

  // ---- the cutter ----

  class ArticleCutter {
    const format: RecordFormat
    const recordLen: nat
    var buf: seq<byte>
    var pos: nat

    ghost predicate Valid()
      reads this
    {
      recordLen >= 1 && pos <= |buf|
    }

    /** The octets pushed and not yet consumed. */
    function Rest(): seq<byte>
      reads this
      requires pos <= |buf|
    {
      buf[pos..]
    }

    constructor (format: RecordFormat, recordLen: nat)
      ensures Valid() && Rest() == []
      ensures this.format == format && this.recordLen == Max(recordLen, 1)
    {
      this.format := format;
      this.recordLen := Max(recordLen, 1);
      buf := [];
      pos := 0;
    }

    method Push(data: seq<byte>)
      requires Valid()
      modifies this
      ensures Valid() && Rest() == old(Rest()) + data
    {
      if pos > 0 && pos >= |buf| / 2 {
        buf := buf[pos..];
        pos := 0;
      }
      buf := buf + data;
    }

    method NextArticle() returns (r: Result<Option<seq<byte>>, RecordError>)
      requires Valid()
      modifies `pos
      ensures Valid()
      ensures var c, rest := NextOf(format, recordLen, old(Rest())), old(Rest());
        if c.NotYet? then r == Ok(None) && Rest() == rest
        else if c.Taken? then r == Ok(Some(c.article)) && Rest() == rest[c.octets..]
        else r == Err(c.error) && Rest() == rest
    {
      var avail := buf[pos..];
      if !format.IsText() {
        if |avail| >= recordLen {
          pos := pos + recordLen;
          assert Rest() == avail[recordLen..];
          return Ok(Some(avail[..recordLen]));
        }
        return Ok(None);
      }
      var nl := FindLf(avail);
      if nl == |avail| {
        return Ok(None);
      }
      var article := TextArticle(format, recordLen, StripCr(avail[..nl]));
      if article.Err? {
        return Err(article.error);
      }
      pos := pos + (nl + 1);
      assert Rest() == avail[nl + 1..];
      return Ok(Some(article.value));
    }

    static method FindLf(data: seq<byte>) returns (n: nat)
      ensures n == LfAt(data)
    {
      n := 0;
      while n < |data| && data[n] != LF
        invariant n <= |data|
        invariant n + LfAt(data[n..]) == LfAt(data)
      {
        assert data[n..][1..] == data[n + 1..];
        n := n + 1;
      }
    }

    method Buffered() returns (n: nat)
      requires Valid()
      ensures n == |Rest()|
    {
      n := |buf| - pos;
    }

    method Finish() returns (r: Result<Option<seq<byte>>, RecordError>)
      requires Valid()
      modifies `pos
      ensures Valid() && Rest() == []
      ensures match LastOf(format, recordLen, old(Rest()))
        case NotYet => r == Ok(None)
        case Taken(a, _) => r == Ok(Some(a))
        case Refused(e) => r == Err(e)
    {
      var rest := buf[pos..];
      pos := |buf|;
      if rest == [] {
        return Ok(None);
      }
      match format
      case Bu | Bv => return Ok(Some(rest));
      case Bf => return Err(UnfilledRecord(|rest|, recordLen));
      case Tv | Tf =>
        var article := TextArticle(format, recordLen, StripCr(rest));
        return if article.Err? then Err(article.error) else Ok(Some(article.value));
    }
  }

  // ---- independence from chunking ----

  datatype Event = Pushed(data: seq<byte>) | Asked

  function AllPushed(events: seq<Event>): seq<byte>
  {
    if events == [] then []
    else (if events[0].Pushed? then events[0].data else []) + AllPushed(events[1..])
  }

  /** A cutter through pushes and requests: the articles it gave, the octets it keeps, and the error
      it stopped at. */
  function Run(format: RecordFormat, recordLen: nat, rest: seq<byte>, events: seq<Event>): (Articles, seq<byte>)
    requires recordLen >= 1
    decreases |events|
  {
    if events == [] then (Articles([], None), rest)
    else
      match events[0]
      case Pushed(data) => Run(format, recordLen, rest + data, events[1..])
      case Asked =>
        match NextOf(format, recordLen, rest)
        case NotYet => Run(format, recordLen, rest, events[1..])
        case Refused(e) => (Articles([], Some(e)), rest)
        case Taken(a, n) =>
          var later := Run(format, recordLen, rest[n..], events[1..]);
          (Before([a], later.0), later.1)
  }

  lemma CutFirst(format: RecordFormat, recordLen: nat, rest: seq<byte>, more: seq<byte>)
    requires recordLen >= 1
    ensures var c := NextOf(format, recordLen, rest);
      && (c.Refused? ==> Cut(format, recordLen, rest + more) == Articles([], Some(c.error)))
      && (c.Taken? ==>
           Cut(format, recordLen, rest + more)
             == Before([c.article], Cut(format, recordLen, rest[c.octets..] + more)))
  {
    var c := NextOf(format, recordLen, rest);
    if !c.NotYet? {
      NextStable(format, recordLen, rest, more);
      if c.Taken? {
        assert (rest + more)[c.octets..] == rest[c.octets..] + more;
      }
    }
  }

  /** However the stream is pushed and whenever articles are asked for, the cutter gives the first
      articles of the pure cut of the whole stream, keeps what the others are cut from, and refuses the
      record the pure cut refuses. */
  lemma {:induction false} ChunkIndependence(format: RecordFormat, recordLen: nat, rest: seq<byte>, events: seq<Event>)
    requires recordLen >= 1
    ensures var (given, end) := Run(format, recordLen, rest, events);
      Cut(format, recordLen, rest + AllPushed(events))
        == if given.error.Some? then given else Before(given.list, Cut(format, recordLen, end))
    decreases |events|
  {
    if events == [] {
      assert rest + [] == rest;
      var whole := Cut(format, recordLen, rest);
      assert [] + whole.list == whole.list;
    } else {
      var later := AllPushed(events[1..]);
      if events[0].Pushed? {
        Assoc(rest, events[0].data, later);
        ChunkIndependence(format, recordLen, rest + events[0].data, events[1..]);
      } else {
        assert [] + later == later;
        CutFirst(format, recordLen, rest, later);
        var c := NextOf(format, recordLen, rest);
        if c.NotYet? {
          ChunkIndependence(format, recordLen, rest, events[1..]);
        } else if c.Taken? {
          var (given, end) := Run(format, recordLen, rest[c.octets..], events[1..]);
          ChunkIndependence(format, recordLen, rest[c.octets..], events[1..]);
          Assoc([c.article], given.list, Cut(format, recordLen, end).list);
        }
      }
    }
  }

  // ---- back to file octets ----

  function TrimTrailingSpaces(a: seq<byte>): (r: seq<byte>)
    ensures |r| <= |a| && r == a[..|r|]
    ensures r != [] ==> r[|r| - 1] != SPACE
    ensures forall i :: |r| <= i < |a| ==> a[i] == SPACE
  {
    if a == [] || a[|a| - 1] != SPACE then a else TrimTrailingSpaces(a[..|a| - 1])
  }

  function ArticleToBytes(format: RecordFormat, a: seq<byte>): seq<byte>
  {
    match format
    case Tv => a + [LF]
    case Tf => TrimTrailingSpaces(a) + [LF]
    case _ => a
  }

  function Delivered(format: RecordFormat, list: seq<seq<byte>>): seq<byte>
  {
    if list == [] then [] else ArticleToBytes(format, list[0]) + Delivered(format, list[1..])
  }

  lemma {:induction false} DeliveredAppend(format: RecordFormat, xs: seq<seq<byte>>, ys: seq<seq<byte>>)
    ensures Delivered(format, xs + ys) == Delivered(format, xs) + Delivered(format, ys)
  {
    hide ArticleToBytes;
    if xs == [] {
      assert xs + ys == ys;
    } else {
      assert (xs + ys)[0] == xs[0] && (xs + ys)[1..] == xs[1..] + ys;
      DeliveredAppend(format, xs[1..], ys);
      Assoc(ArticleToBytes(format, xs[0]), Delivered(format, xs[1..]), Delivered(format, ys));
    }
  }

  lemma DeliveredSnoc(format: RecordFormat, list: seq<seq<byte>>, a: seq<byte>)
    ensures Delivered(format, list + [a]) == Delivered(format, list) + ArticleToBytes(format, a)
  {
    DeliveredAppend(format, list, [a]);
    assert [a][1..] == [];
  }

  /** The file cut, sent and written again. */
  function FileTrip(format: RecordFormat, recordLen: nat, file: seq<byte>): Option<seq<byte>>
    requires recordLen >= 1
  {
    var a := Cut(format, recordLen, file);
    if a.error.Some? then None else Some(Delivered(format, a.list))
  }

  lemma TripStep(format: RecordFormat, recordLen: nat, file: seq<byte>, a: seq<byte>, n: nat)
    requires recordLen >= 1 && StepOf(format, recordLen, file) == Taken(a, n)
    ensures var later := FileTrip(format, recordLen, file[n..]);
      FileTrip(format, recordLen, file)
        == if later.None? then None else Some(ArticleToBytes(format, a) + later.value)
  {
    var rest := Cut(format, recordLen, file[n..]);
    assert ([a] + rest.list)[1..] == rest.list;
  }

  /** Undefined and variable binary files come back octet for octet, at any record length. */
  lemma {:induction false} BinaryTrip(format: RecordFormat, recordLen: nat, file: seq<byte>)
    requires recordLen >= 1 && (format == Bu || format == Bv)
    ensures FileTrip(format, recordLen, file) == Some(file)
    decreases |file|
  {
    if file != [] {
      var c := StepOf(format, recordLen, file);
      TripStep(format, recordLen, file, c.article, c.octets);
      BinaryTrip(format, recordLen, file[c.octets..]);
      assert c.article == file[..c.octets] && file[..c.octets] + file[c.octets..] == file;
    }
  }

  /** Fixed binary files come back exactly when they fill their last record; otherwise the error tells
      the octets left over. */
  lemma {:induction false} FixedTrip(recordLen: nat, file: seq<byte>)
    requires recordLen >= 1
    ensures FileTrip(Bf, recordLen, file) == if |file| % recordLen == 0 then Some(file) else None
    ensures |file| % recordLen != 0 ==>
      Cut(Bf, recordLen, file).error == Some(UnfilledRecord(|file| % recordLen, recordLen))
    decreases |file|
  {
    if |file| >= recordLen {
      var c := StepOf(Bf, recordLen, file);
      TripStep(Bf, recordLen, file, c.article, recordLen);
      FixedTrip(recordLen, file[recordLen..]);
      ModuloLess(|file|, recordLen);
      assert file[..recordLen] + file[recordLen..] == file;
    } else {
      ModuloSmall(|file|, recordLen);
    }
  }

  lemma AtLeast(k: int, m: int)
    requires m >= 1
    ensures k >= 1 ==> k * m >= m
    ensures k <= -1 ==> k * m <= -m
  {
  }

  lemma Remainder(n: int, m: int, q: int, r: int)
    requires 0 <= r < m && n == q * m + r
    ensures n % m == r
  {
    var k := n / m - q;
    assert n == (n / m) * m + n % m;
    assert (n / m) * m == q * m + k * m;
    AtLeast(k, m);
    if k == 0 {
      assert k * m == 0;
    }
  }

  lemma ModuloLess(n: nat, m: nat)
    requires 1 <= m <= n
    ensures n % m == (n - m) % m
  {
    var q, r := (n - m) / m, (n - m) % m;
    assert n - m == q * m + r;
    assert (q + 1) * m == q * m + m;
    Remainder(n, m, q + 1, r);
  }

  lemma ModuloSmall(n: nat, m: nat)
    requires n < m
    ensures n % m == n
  {
    Remainder(n, m, 0, n);
  }

  /** A line that survives the trip: it fits, it does not end in the carriage return that is dropped,
      in the blanks that are trimmed, nor is it the empty record that becomes a space. */
  predicate LineKept(format: RecordFormat, recordLen: nat, line: seq<byte>)
  {
    && |line| <= recordLen
    && (line != [] ==> line[|line| - 1] != CR)
    && (format == Tv ==> line != [])
    && (format == Tf && line != [] ==> line[|line| - 1] != SPACE)
  }

  predicate TextKept(format: RecordFormat, recordLen: nat, file: seq<byte>)
    decreases |file|
  {
    file == [] ||
    (&& LfAt(file) < |file|
     && LineKept(format, recordLen, file[..LfAt(file)])
     && TextKept(format, recordLen, file[LfAt(file) + 1..]))
  }

  lemma PaddedTrim(line: seq<byte>, n: nat)
    ensures TrimTrailingSpaces(line + Repeat(n, SPACE)) == TrimTrailingSpaces(line)
  {
    var padded := line + Repeat(n, SPACE);
    if n == 0 {
      assert padded == line;
    } else {
      assert padded[..|padded| - 1] == line + Repeat(n - 1, SPACE);
      PaddedTrim(line, n - 1);
    }
  }

  /** What a line is written as, without its line feed. */
  function KeptOf(format: RecordFormat, recordLen: nat, line: seq<byte>): seq<byte>
  {
    var stripped := StripCr(line);
    if format == Tf then TrimTrailingSpaces(stripped) else if stripped == [] then [SPACE] else stripped
  }

  /** One line comes back exactly when it is kept. */
  lemma LineTrip(format: RecordFormat, recordLen: nat, line: seq<byte>)
    requires recordLen >= 1 && format.IsText() && LF !in line
    ensures LF !in KeptOf(format, recordLen, line)
    ensures var a := TextArticle(format, recordLen, StripCr(line));
      a.Ok? ==>
        && ArticleToBytes(format, a.value) == KeptOf(format, recordLen, line) + [LF]
        && (KeptOf(format, recordLen, line) == line <==> LineKept(format, recordLen, line))
    ensures LineKept(format, recordLen, line) ==> TextArticle(format, recordLen, StripCr(line)).Ok?
  {
    var stripped := StripCr(line);
    assert LF !in stripped;
    if format == Tf && |stripped| <= recordLen {
      PaddedTrim(stripped, recordLen - |stripped|);
    }
  }

  lemma {:induction false} FirstLf(k: seq<byte>, u: seq<byte>)
    requires LF !in k
    ensures LfAt(k + [LF] + u) == |k|
  {
    if k != [] {
      assert (k + [LF] + u)[1..] == k[1..] + [LF] + u;
      FirstLf(k[1..], u);
    }
  }

  lemma SameFirstLine(k: seq<byte>, l: seq<byte>, u: seq<byte>, v: seq<byte>)
    requires LF !in k && LF !in l
    ensures k + [LF] + u == l + [LF] + v <==> k == l && u == v
  {
    FirstLf(k, u);
    FirstLf(l, v);
    Sandwich(k, [LF], u);
    Sandwich(l, [LF], v);
  }

  /** A terminated line and what follows it. */
  lemma LineThenRest(format: RecordFormat, recordLen: nat, line: seq<byte>, rest: seq<byte>)
    requires recordLen >= 1 && format.IsText() && LF !in line
    ensures var file, later := line + [LF] + rest, FileTrip(format, recordLen, rest);
      FileTrip(format, recordLen, file) == Some(file) <==> LineKept(format, recordLen, line) && later == Some(rest)
  {
    var file := line + [LF] + rest;
    FirstLf(line, rest);
    Sandwich(line, [LF], rest);
    LineTrip(format, recordLen, line);
    var a := TextArticle(format, recordLen, StripCr(line));
    assert StepOf(format, recordLen, file) == if a.Ok? then Taken(a.value, |line| + 1) else Refused(a.error);
    if a.Ok? {
      TripStep(format, recordLen, file, a.value, |line| + 1);
      var kept := KeptOf(format, recordLen, line);
      var later := FileTrip(format, recordLen, rest);
      if later.Some? {
        SameFirstLine(kept, line, later.value, rest);
      }
    }
  }

  /** A file that ends without a line feed never comes back: one is added. */
  lemma UnterminatedTrip(format: RecordFormat, recordLen: nat, file: seq<byte>)
    requires recordLen >= 1 && format.IsText() && file != [] && LF !in file
    ensures FileTrip(format, recordLen, file) != Some(file)
  {
    assert LfAt(file) == |file|;
    var c := StepOf(format, recordLen, file);
    if c.Taken? {
      TripStep(format, recordLen, file, c.article, c.octets);
      LineTrip(format, recordLen, file);
      var sent := FileTrip(format, recordLen, file).value;
      assert file[c.octets..] == [] && sent == ArticleToBytes(format, c.article) + [];
      assert sent[|sent| - 1] == LF;
    }
  }

  /** A text file comes back octet for octet exactly when it is line-feed terminated and every line is
      kept. */
  lemma {:induction false} TextTrip(format: RecordFormat, recordLen: nat, file: seq<byte>)
    requires recordLen >= 1 && format.IsText()
    ensures FileTrip(format, recordLen, file) == Some(file) <==> TextKept(format, recordLen, file)
    decreases |file|
  {
    if file != [] {
      var n := LfAt(file);
      if n < |file| {
        var line, rest := file[..n], file[n + 1..];
        assert FileTrip(format, recordLen, file) == Some(file)
          <==> LineKept(format, recordLen, line) && FileTrip(format, recordLen, rest) == Some(rest) by {
          assert line + [LF] + rest == file;
          LineThenRest(format, recordLen, line, rest);
        }
        TextTrip(format, recordLen, rest);
      } else {
        assert FileTrip(format, recordLen, file) != Some(file) by {
          assert file[..n] == file;
          UnterminatedTrip(format, recordLen, file);
        }
      }
    }
  }
}
