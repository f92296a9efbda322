/** File-backed sources and sinks of articles, with positions to rewind and truncate to. */
module FileIo {
  import opened Bytes
  import opened Params
  import opened Cutter

  datatype Position = Position(fileOffset: nat, dataBytes: nat, articles: nat)

  const START: Position := Position(0, 0, 0)

  // ---- offsets of the cut ----

  /** The octets of a file from an offset on, none beyond its end. */
  function Tail(file: seq<byte>, offset: nat): seq<byte>
  {
    if offset <= |file| then file[offset..] else []
  }

  type Stepper = seq<byte> -> Cutting

  ghost predicate Progressive(step: Stepper)
  {
    forall d :: step(d).Taken? ==> 1 <= step(d).octets <= |d|
  }

  /** The cutting rule of a format, as a value. */
  function Rule(format: RecordFormat, recordLen: nat): Stepper
    requires recordLen >= 1
  {
    d => StepOf(format, recordLen, d)
  }

  ghost function CutBy(step: Stepper, data: seq<byte>): Articles
    requires Progressive(step)
    decreases |data|
  {
    match step(data)
    case NotYet => Articles([], None)
    case Refused(e) => Articles([], Some(e))
    case Taken(a, n) => Before([a], CutBy(step, data[n..]))
  }

  lemma {:induction false} CutIsCutBy(format: RecordFormat, recordLen: nat, data: seq<byte>)
    requires recordLen >= 1
    ensures Progressive(Rule(format, recordLen))
    ensures Cut(format, recordLen, data) == CutBy(Rule(format, recordLen), data)
    decreases |data|
  {
    var c := StepOf(format, recordLen, data);
    if c.Taken? {
      CutIsCutBy(format, recordLen, data[c.octets..]);
    }
  }

  /** Where the first `k` articles of a file end. */
  ghost function OffsetBy(step: Stepper, file: seq<byte>, k: nat): (n: nat)
    requires Progressive(step)
    ensures n <= |file|
    decreases k
  {
    if k == 0 || !step(file).Taken? then 0
    else step(file).octets + OffsetBy(step, file[step(file).octets..], k - 1)
  }

  lemma OneCut(step: Stepper, file: seq<byte>, k: nat)
    requires Progressive(step) && 1 <= k <= |CutBy(step, file).list|
    ensures var c := step(file);
      && c.Taken? && CutBy(step, file) == Before([c.article], CutBy(step, file[c.octets..]))
      && OffsetBy(step, file, k) == c.octets + OffsetBy(step, file[c.octets..], k - 1)
  {
  }

  lemma BehindFirst<T>(x: T, xs: seq<T>, k: nat)
    requires 1 <= k <= |xs| + 1
    ensures ([x] + xs)[k..] == xs[k - 1..]
  {
  }

  lemma {:induction false} CutFrom(step: Stepper, file: seq<byte>, k: nat)
    requires Progressive(step) && k <= |CutBy(step, file).list|
    ensures CutBy(step, file[OffsetBy(step, file, k)..])
         == Articles(CutBy(step, file).list[k..], CutBy(step, file).error)
    decreases k
  {
    var whole := CutBy(step, file);
    if k == 0 {
      assert file[0..] == file && whole.list[0..] == whole.list;
    } else {
      hide CutBy, OffsetBy;
      OneCut(step, file, k);
      var n := step(file).octets;
      var rest := file[n..];
      CutFrom(step, rest, k - 1);
      Window(file, n, OffsetBy(step, rest, k - 1));
      BehindFirst(step(file).article, CutBy(step, rest).list, k);
    }
  }

  lemma {:induction false} OffsetSnoc(step: Stepper, file: seq<byte>, k: nat)
    requires Progressive(step) && k < |CutBy(step, file).list|
    ensures var c := step(file[OffsetBy(step, file, k)..]);
      c.Taken? && OffsetBy(step, file, k + 1) == OffsetBy(step, file, k) + c.octets
    decreases k
  {
    var n := step(file).octets;
    var rest := file[n..];
    if k == 0 {
      assert file[0..] == file;
    } else {
      OffsetSnoc(step, rest, k - 1);
      var off := OffsetBy(step, rest, k - 1);
      assert rest[off..] == file[n + off..];
    }
  }

  ghost function OffsetOf(format: RecordFormat, recordLen: nat, file: seq<byte>, k: nat): (n: nat)
    requires recordLen >= 1
    ensures n <= |file|
  {
    CutIsCutBy(format, recordLen, file);
    OffsetBy(Rule(format, recordLen), file, k)
  }

  /** The file from the end of its first `k` articles on is cut into exactly the remaining ones. */
  lemma {:induction false} CutFromOffset(format: RecordFormat, recordLen: nat, file: seq<byte>, k: nat)
    requires recordLen >= 1 && k <= |Cut(format, recordLen, file).list|
    ensures var whole := Cut(format, recordLen, file);
      Cut(format, recordLen, file[OffsetOf(format, recordLen, file, k)..]) == Articles(whole.list[k..], whole.error)
  {
    CutIsCutBy(format, recordLen, file);
    CutIsCutBy(format, recordLen, file[OffsetOf(format, recordLen, file, k)..]);
    CutFrom(Rule(format, recordLen), file, k);
  }

  lemma NextBy(step: Stepper, file: seq<byte>, k: nat)
    requires Progressive(step) && k <= |CutBy(step, file).list|
    ensures var whole, c := CutBy(step, file), step(file[OffsetBy(step, file, k)..]);
      if k < |whole.list| then
        && c.Taken? && c.article == whole.list[k]
        && OffsetBy(step, file, k + 1) == OffsetBy(step, file, k) + c.octets
      else c == if whole.error.Some? then Refused(whole.error.value) else NotYet
  {
    CutFrom(step, file, k);
    if k < |CutBy(step, file).list| {
      OffsetSnoc(step, file, k);
    } else {
      var rest := file[OffsetBy(step, file, k)..];
      assert CutBy(step, rest).list == [];
      assert !step(rest).Taken?;
    }
  }

  /** Article `k` starts where the ones before it end. */
  lemma NextAtOffset(format: RecordFormat, recordLen: nat, file: seq<byte>, k: nat)
    requires recordLen >= 1 && k <= |Cut(format, recordLen, file).list|
    ensures var whole, off := Cut(format, recordLen, file), OffsetOf(format, recordLen, file, k);
      var c := StepOf(format, recordLen, file[off..]);
      if k < |whole.list| then
        && c.Taken? && c.article == whole.list[k]
        && OffsetOf(format, recordLen, file, k + 1) == off + c.octets
      else c == if whole.error.Some? then Refused(whole.error.value) else NotYet
  {
    CutIsCutBy(format, recordLen, file);
    NextBy(Rule(format, recordLen), file, k);
  }

  // ---- the source ----

  class FileSource {
    const file: seq<byte>
    const format: RecordFormat
    const recordLen: nat
    var cutter: ArticleCutter
    var pos: Position
    var filePos: nat
    var eof: bool

    /** What the cutter holds and what is left to read make up the file from the position on. */
    ghost predicate Valid()
      reads this, cutter
    {
      && recordLen >= 1
      && cutter.Valid() && cutter.format == format && cutter.recordLen == recordLen
      && filePos == pos.fileOffset + |cutter.Rest()|
      && cutter.Rest() + Tail(file, filePos) == Tail(file, pos.fileOffset)
      && (eof ==> Tail(file, filePos) == [])
    }

    constructor (file: seq<byte>, format: RecordFormat, recordLen: nat)
      requires recordLen >= 1
      ensures Valid() && fresh(cutter) && pos == START
      ensures this.file == file && this.format == format && this.recordLen == recordLen
    {
      this.file := file;
      this.format := format;
      this.recordLen := recordLen;
      cutter := new ArticleCutter(format, recordLen);
      pos := START;
      filePos := 0;
      eof := false;
    }

    /** Read some octets, as many as the reader happens to give; nothing at end of file only. */
    method Fill() returns (more: bool)
      requires Valid() && !eof
      modifies this, cutter
      ensures Valid() && cutter == old(cutter) && pos == old(pos)
      ensures more ==> filePos > old(filePos) && filePos <= |file| && !eof
      ensures !more ==> eof && filePos == old(filePos)
    {
      var left := Tail(file, filePos);
      if left == [] {
        eof := true;
        return false;
      }
      var n :| 1 <= n <= |left|;
      Window(file, filePos, n);
      Assoc(cutter.Rest(), left[..n], left[n..]);
      assert left[..n] + left[n..] == left;
      cutter.Push(left[..n]);
      filePos := filePos + n;
      more := true;
    }

    /** The articles as the cutter has them buffered, or nothing yet. */
    method TakeBuffered() returns (r: Result<Option<seq<byte>>, RecordError>)
      requires Valid()
      modifies this`pos, cutter
      ensures r == Ok(None) ==>
        && Valid() && pos == old(pos)
        && cutter.Rest() == old(cutter.Rest()) && NextOf(format, recordLen, cutter.Rest()).NotYet?
      ensures r.Err? ==> StepOf(format, recordLen, old(Tail(file, pos.fileOffset))) == Refused(r.error)
      ensures r.Ok? && r.value.Some? ==> Valid() && Advanced(old(pos), r.value.value)
    {
      hide StepOf, NextOf;
      var rest := cutter.Rest();
      ghost var ahead := Tail(file, filePos);
      NextIsStep(format, recordLen, rest, ahead);
      r := cutter.NextArticle();
      if r.Ok? && r.value.Some? {
        var a := r.value.value;
        ghost var n := NextOf(format, recordLen, rest).octets;
        TailLater(file, pos.fileOffset, rest, ahead, n);
        var buffered := cutter.Buffered();
        pos := Position(filePos - buffered, pos.dataBytes + |a|, pos.articles + 1);
      }
    }

    /** The position moved from `from` behind the article `a` of the pure cut. */
    ghost predicate Advanced(from: Position, a: seq<byte>)
      reads this
      requires recordLen >= 1
    {
      var c := StepOf(format, recordLen, Tail(file, from.fileOffset));
      && c.Taken? && c.article == a
      && pos == Position(from.fileOffset + c.octets, from.dataBytes + |a|, from.articles + 1)
    }

    method TakeLast() returns (r: Result<Option<seq<byte>>, RecordError>)
      requires Valid() && eof && NextOf(format, recordLen, cutter.Rest()).NotYet?
      modifies this`pos, cutter
      ensures r == Ok(None) ==> Valid() && pos == old(pos) && Tail(file, pos.fileOffset) == []
      ensures r.Err? ==> StepOf(format, recordLen, old(Tail(file, pos.fileOffset))) == Refused(r.error)
      ensures r.Ok? && r.value.Some? ==> Valid() && Advanced(old(pos), r.value.value)
    {
      ghost var rest := cutter.Rest();
      assert rest + [] == rest;
      r := cutter.Finish();
      if r.Ok? && r.value.Some? {
        TailLater(file, pos.fileOffset, rest, [], |rest|);
        pos := Position(filePos, pos.dataBytes + |r.value.value|, pos.articles + 1);
      }
    }

    /** The next article of the pure cut, whatever the reads; the position moves behind it. */
    method NextArticle() returns (r: Result<Option<seq<byte>>, RecordError>)
      requires Valid()
      modifies this, cutter
      ensures cutter == old(cutter)
      ensures r == Ok(None) ==> Valid() && pos == old(pos) && Tail(file, pos.fileOffset) == []
      ensures r.Err? ==> StepOf(format, recordLen, old(Tail(file, pos.fileOffset))) == Refused(r.error)
      ensures r.Ok? && r.value.Some? ==> Valid() && Advanced(old(pos), r.value.value)
    {
      while true
        invariant Valid() && cutter == old(cutter) && pos == old(pos)
        decreases |file| - filePos, !eof
      {
        r := TakeBuffered();
        if r != Ok(None) {
          return;
        }
        if eof {
          r := TakeLast();
          return;
        }
        var _ := Fill();
      }
    }

    /** The next article is again the one that follows `to`. */
    method Rewind(to: Position)
      requires Valid()
      modifies this
      ensures Valid() && fresh(cutter) && pos == to
    {
      cutter := new ArticleCutter(format, recordLen);
      filePos := to.fileOffset;
      pos := to;
      eof := false;
    }
  }

  lemma NextIsStep(format: RecordFormat, recordLen: nat, rest: seq<byte>, ahead: seq<byte>)
    requires recordLen >= 1
    ensures var c := NextOf(format, recordLen, rest);
      !c.NotYet? ==> StepOf(format, recordLen, rest + ahead) == c
  {
    if !NextOf(format, recordLen, rest).NotYet? {
      NextStable(format, recordLen, rest, ahead);
    }
  }

  /** What is left of a tail once its first `n` octets are taken. */
  lemma TailLater(file: seq<byte>, offset: nat, rest: seq<byte>, ahead: seq<byte>, n: nat)
    requires rest + ahead == Tail(file, offset) && n <= |rest|
    ensures rest[n..] + ahead == (rest + ahead)[n..]
    ensures n > 0 ==> rest[n..] + ahead == Tail(file, offset + n)
  {
    assert (rest + ahead)[n..] == rest[n..] + ahead;
    if n > 0 {
      assert file[offset..][n..] == file[offset + n..];
    }
  }

  /** Reading a file to its end gives its cut; rewinding to the position left by article `k` and reading
      on gives exactly the articles after `k`. */
  method ReadRewindRead(source: FileSource, k: nat) returns (first: seq<seq<byte>>, again: seq<seq<byte>>)
    requires source.Valid() && source.pos == START
    requires Cut(source.format, source.recordLen, source.file).error.None?
    requires k <= |Cut(source.format, source.recordLen, source.file).list|
    modifies source, source.cutter
    ensures first == Cut(source.format, source.recordLen, source.file).list
    ensures again == first[k..]
  {
    var mark: Position;
    assert OffsetOf(source.format, source.recordLen, source.file, 0) == 0;
    first, mark := ReadOn(source, 0, k);
    source.Rewind(mark);
    again, mark := ReadOn(source, k, k);
  }

  /** The articles of a source that stands behind article `i`, and the position behind article `k`. */
  method ReadOn(source: FileSource, i: nat, k: nat) returns (list: seq<seq<byte>>, mark: Position)
    requires source.Valid() && Cut(source.format, source.recordLen, source.file).error.None?
    requires i <= k <= |Cut(source.format, source.recordLen, source.file).list|
    requires source.pos.fileOffset == OffsetOf(source.format, source.recordLen, source.file, i)
    modifies source, source.cutter
    ensures source.Valid() && source.cutter == old(source.cutter)
    ensures list == Cut(source.format, source.recordLen, source.file).list[i..]
    ensures mark.fileOffset == OffsetOf(source.format, source.recordLen, source.file, k)
  {
    hide Cut, OffsetOf, StepOf;
    ghost var all := Cut(source.format, source.recordLen, source.file).list;
    var at := i;
    list, mark := [], source.pos;
    while true
      invariant source.Valid() && source.cutter == old(source.cutter)
      invariant i <= at <= |all| && list == all[i..at]
      invariant At(source, at)
      invariant at > k ==> mark.fileOffset == OffsetOf(source.format, source.recordLen, source.file, k)
      decreases |all| - at
    {
      if at == k {
        mark := source.pos;
      }
      var a := ReadOne(source, at);
      if a.None? {
        return;
      }
      SliceSnoc(all, i, at);
      list, at := list + [a.value], at + 1;
    }
  }

  lemma SliceSnoc<T>(s: seq<T>, i: nat, j: nat)
    requires i <= j < |s|
    ensures s[i..j] + [s[j]] == s[i..j + 1]
  {
  }

  method ReadOne(source: FileSource, ghost k: nat) returns (a: Option<seq<byte>>)
    requires source.Valid() && Cut(source.format, source.recordLen, source.file).error.None?
    requires k <= |Cut(source.format, source.recordLen, source.file).list| && At(source, k)
    modifies source, source.cutter
    ensures source.Valid() && source.cutter == old(source.cutter)
    ensures var all := Cut(source.format, source.recordLen, source.file).list;
      if k < |all| then a == Some(all[k]) && At(source, k + 1) else a == None && At(source, k)
  {
    NextAtOffset(source.format, source.recordLen, source.file, k);
    var r := source.NextArticle();
    a := if r.Ok? then r.value else None;
  }

  /** The source stands behind its first `k` articles. */
  ghost predicate At(source: FileSource, k: nat)
    reads source
    requires source.recordLen >= 1
  {
    source.pos.fileOffset == OffsetOf(source.format, source.recordLen, source.file, k)
  }

  // ---- the sink ----

  /** Cut to `n` octets, or extended to them with zeros. */
  function Resized(s: seq<byte>, n: nat): (r: seq<byte>)
    ensures |r| == n
  {
    if n <= |s| then s[..n] else s + Repeat(n - |s|, 0)
  }

  class FileSink {
    const format: RecordFormat
    /** The file on disk and the octets the writer still buffers. */
    var disk: seq<byte>
    var buffered: seq<byte>
    var pos: Position

    ghost predicate Valid()
      reads this
    {
      pos.fileOffset == |disk| + |buffered|
    }

    function Contents(): seq<byte>
      reads this
    {
      disk + buffered
    }

    /** A new partial file, or the existing one cut (or extended) to where the transfer resumes. */
    constructor (format: RecordFormat, existing: seq<byte>, resumeFrom: Option<Position>)
      ensures Valid() && this.format == format
      ensures resumeFrom.None? ==> Contents() == [] && pos == START
      ensures resumeFrom.Some? ==>
        Contents() == Resized(existing, resumeFrom.value.fileOffset) && pos == resumeFrom.value
    {
      this.format := format;
      if resumeFrom.Some? {
        disk := Resized(existing, resumeFrom.value.fileOffset);
        pos := resumeFrom.value;
      } else {
        disk := [];
        pos := START;
      }
      buffered := [];
    }

    method WriteArticle(article: seq<byte>)
      requires Valid()
      modifies this
      ensures Valid() && Contents() == old(Contents()) + ArticleToBytes(format, article) && disk == old(disk)
      ensures pos.dataBytes == old(pos).dataBytes + |article| && pos.articles == old(pos).articles + 1
    {
      var bytes := ArticleToBytes(format, article);
      Assoc(disk, buffered, bytes);
      buffered := buffered + bytes;
      pos := Position(pos.fileOffset + |bytes|, pos.dataBytes + |article|, pos.articles + 1);
    }

    /** Everything written so far is on disk. */
    method Checkpoint() returns (p: Position)
      requires Valid()
      modifies this
      ensures Valid() && disk == Contents() == old(Contents()) && p == pos == old(pos) && p.fileOffset == |disk|
    {
      disk := disk + buffered;
      buffered := [];
      p := pos;
    }

    method Truncate(to: Position)
      requires Valid()
      modifies this
      ensures Valid() && disk == Contents() == Resized(old(Contents()), to.fileOffset) && pos == to
    {
      disk := disk + buffered;
      buffered := [];
      disk := Resized(disk, to.fileOffset);
      pos := to;
    }
  }

  /** Articles written after a truncation take the place of those that followed it. */
  method Rewrite(sink: FileSink, kept: seq<byte>, to: Position, list: seq<seq<byte>>)
    requires sink.Valid() && kept <= sink.Contents() && to.fileOffset == |kept|
    modifies sink
    ensures sink.Valid() && sink.Contents() == kept + Delivered(sink.format, list)
  {
    sink.Truncate(to);
    var i := 0;
    assert kept + [] == kept && list[..0] == [];
    while i < |list|
      invariant 0 <= i <= |list| && sink.Valid()
      invariant sink.Contents() == kept + Delivered(sink.format, list[..i])
    {
      sink.WriteArticle(list[i]);
      DeliveredSnoc(sink.format, list[..i], list[i]);
      assert list[..i + 1] == list[..i] + [list[i]];
      i := i + 1;
    }
    assert list[..i] == list;
  }
}
