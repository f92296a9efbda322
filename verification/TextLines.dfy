/** Text files by their lines: what a line end costs, what a line becomes, and what arrives of a whole text. */
module TextLines {
  import opened Bytes
  import opened Cutter

  /** Lines, each followed by its line end. */
  function Text(lines: seq<seq<byte>>, end: seq<byte>): seq<byte>
  {
    if lines == [] then [] else lines[0] + end + Text(lines[1..], end)
  }

  /** A line without its line end: no line feed in it, and no carriage return behind it. */
  predicate Line(line: seq<byte>)
  {
    10 !in line && (line != [] ==> line[|line| - 1] != 13)
  }

  /** What a line is sent as: itself, filled with spaces to the record in fixed format, to one octet otherwise. */
  predicate SentAs(format: RecordFormat, recordLen: nat, line: seq<byte>, a: seq<byte>)
  {
    && |a| == (if format == Tf then recordLen else if line == [] then 1 else |line|)
    && |line| <= |a| && a[..|line|] == line
    && forall i :: |line| <= i < |a| ==> a[i] == 32
  }

  /** A line is cut the same whether a line feed ends it or carriage return and line feed do: into an article that is the
      line, or an error that gives its length. */
  lemma LineEnds(format: RecordFormat, recordLen: nat, line: seq<byte>, rest: seq<byte>) returns (a: seq<byte>)
    requires recordLen >= 1 && format.IsText() && Line(line)
    ensures if |line| <= recordLen then
        && SentAs(format, recordLen, line, a)
        && NextOf(format, recordLen, line + [10] + rest) == Taken(a, |line| + 1)
        && NextOf(format, recordLen, line + [13, 10] + rest) == Taken(a, |line| + 2)
      else
        && NextOf(format, recordLen, line + [10] + rest) == Refused(LineTooLong(|line|, recordLen))
        && NextOf(format, recordLen, line + [13, 10] + rest) == Refused(LineTooLong(|line|, recordLen))
  {
    var lf, crlf := line + [10] + rest, line + [13] + [10] + rest;
    assert line + [13, 10] + rest == crlf;
    FirstLf(line, rest);
    FirstLf(line + [13], rest);
    assert lf[..|line|] == line && crlf[..|line| + 1] == line + [13] && (line + [13])[..|line|] == line;
    a := match TextArticle(format, recordLen, line) case Ok(x) => x case Err(_) => [];
  }

  /** Only one carriage return is part of a line end: those before it stay. */
  lemma OneCarriageReturn(format: RecordFormat, recordLen: nat, line: seq<byte>, rest: seq<byte>)
    returns (a: seq<byte>)
    requires recordLen >= 1 && format.IsText() && 10 !in line && |line| <= recordLen
    ensures SentAs(format, recordLen, line, a)
    ensures NextOf(format, recordLen, line + [13, 10] + rest) == Taken(a, |line| + 2)
  {
    var crlf := line + [13] + [10] + rest;
    assert line + [13, 10] + rest == crlf;
    FirstLf(line + [13], rest);
    assert crlf[..|line| + 1] == line + [13] && (line + [13])[..|line|] == line;
    a := TextArticle(format, recordLen, line).value;
  }

  /** The last line of a file needs no line feed, and a carriage return alone behind it is dropped too. */
  lemma LastLine(format: RecordFormat, recordLen: nat, line: seq<byte>) returns (a: seq<byte>)
    requires recordLen >= 1 && format.IsText() && Line(line) && |line| <= recordLen
    ensures SentAs(format, recordLen, line, a)
    ensures LastOf(format, recordLen, line + [13]) == Taken(a, |line| + 1)
    ensures LastOf(format, recordLen, line) == if line == [] then NotYet else Taken(a, |line|)
  {
    assert (line + [13])[..|line|] == line;
    a := TextArticle(format, recordLen, line).value;
  }

  lemma CutOne(format: RecordFormat, recordLen: nat, head: seq<byte>, rest: seq<byte>)
    requires recordLen >= 1
    ensures var c := NextOf(format, recordLen, head + rest);
      && (c.Refused? ==> Cut(format, recordLen, head + rest) == Articles([], Some(c.error)))
      && (c.Taken? && c.octets == |head| ==>
            Cut(format, recordLen, head + rest) == Before([c.article], Cut(format, recordLen, rest)))
  {
    hide NextOf;
    assert (head + rest)[|head|..] == rest;
  }

  lemma TextFirst(lines: seq<seq<byte>>, end: seq<byte>, last: seq<byte>)
    requires lines != []
    ensures Text(lines, end) + last == lines[0] + end + (Text(lines[1..], end) + last)
  {
    Assoc(lines[0] + end, Text(lines[1..], end), last);
  }

  lemma TailLines(lines: seq<seq<byte>>)
    requires lines != [] && forall l :: l in lines ==> Line(l)
    ensures Line(lines[0]) && forall l :: l in lines[1..] ==> Line(l)
  {
    assert lines[0] in lines && forall l :: l in lines[1..] ==> l in lines;
  }

  /** The articles of a text do not depend on its line ends, nor does the error of the first line too long. */
  lemma {:induction false} SameArticles(format: RecordFormat, recordLen: nat, lines: seq<seq<byte>>, last: seq<byte>)
    requires recordLen >= 1 && format.IsText() && forall l :: l in lines ==> Line(l)
    ensures Cut(format, recordLen, Text(lines, [13, 10]) + last) == Cut(format, recordLen, Text(lines, [10]) + last)
    decreases |lines|
  {
    hide Cut, NextOf, Line;
    if lines != [] {
      TailLines(lines);
      var line, more := lines[0], lines[1..];
      var dos, unix := Text(more, [13, 10]) + last, Text(more, [10]) + last;
      TextFirst(lines, [13, 10], last);
      TextFirst(lines, [10], last);
      var a := LineEnds(format, recordLen, line, dos);
      var b := LineEnds(format, recordLen, line, unix);
      CutOne(format, recordLen, line + [13, 10], dos);
      CutOne(format, recordLen, line + [10], unix);
      SentOnce(format, recordLen, line, a, b);
      SameArticles(format, recordLen, more, last);
    }
  }

  lemma SentOnce(format: RecordFormat, recordLen: nat, line: seq<byte>, a: seq<byte>, b: seq<byte>)
    ensures SentAs(format, recordLen, line, a) && SentAs(format, recordLen, line, b) ==> a == b
  {
    if SentAs(format, recordLen, line, a) && SentAs(format, recordLen, line, b) {
      assert a == a[..|line|] + a[|line|..] && b == b[..|line|] + b[|line|..];
    }
  }

  /** What a line is written as at the other end: an empty line as one space in variable format, any line without its
      trailing spaces in fixed format. */
  predicate WrittenAs(format: RecordFormat, line: seq<byte>, w: seq<byte>)
  {
    if format == Tf then
      && |w| <= |line| && line[..|w|] == w && (w != [] ==> w[|w| - 1] != 32)
      && forall i :: |w| <= i < |line| ==> line[i] == 32
    else w == if line == [] then [32] else line
  }

  lemma OneArrives(format: RecordFormat, recordLen: nat, line: seq<byte>, a: seq<byte>) returns (w: seq<byte>)
    requires format.IsText() && |line| <= recordLen && SentAs(format, recordLen, line, a)
    ensures WrittenAs(format, line, w) && ArticleToBytes(format, a) == w + [10]
  {
    if format == Tf {
      w := TrimTrailingSpaces(line);
      PaddedTrim(line, recordLen - |line|);
      assert a == line + Repeat(recordLen - |line|, SPACE);
    } else {
      w := a;
      assert line != [] ==> a == line;
    }
  }

  lemma ArrivesFirst(format: RecordFormat, recordLen: nat, head: seq<byte>, rest: seq<byte>, a: seq<byte>)
    requires recordLen >= 1 && NextOf(format, recordLen, head + rest) == Taken(a, |head|)
    ensures var later := FileTrip(format, recordLen, rest);
      FileTrip(format, recordLen, head + rest)
        == if later.None? then None else Some(ArticleToBytes(format, a) + later.value)
  {
    hide NextOf;
    TripStep(format, recordLen, head + rest, a, |head|);
    assert (head + rest)[|head|..] == rest;
  }

  /** A text whose lines fit their records arrives line by line, every line ended by a line feed, whichever line end it
      had. */
  lemma {:induction false} TextArrives(format: RecordFormat, recordLen: nat, lines: seq<seq<byte>>, end: seq<byte>)
    returns (written: seq<seq<byte>>)
    requires recordLen >= 1 && format.IsText() && (end == [10] || end == [13, 10])
    requires forall l :: l in lines ==> Line(l) && |l| <= recordLen
    ensures |written| == |lines| && forall i :: 0 <= i < |lines| ==> WrittenAs(format, lines[i], written[i])
    ensures FileTrip(format, recordLen, Text(lines, end)) == Some(Text(written, [10]))
    decreases |lines|
  {
    hide NextOf, FileTrip, Line, WrittenAs;
    if lines == [] {
      written := [];
      NothingArrives(format, recordLen);
    } else {
      TailLines(lines);
      var line, rest := lines[0], Text(lines[1..], end);
      var a := LineEnds(format, recordLen, line, rest);
      var w := OneArrives(format, recordLen, line, a);
      ArrivesFirst(format, recordLen, line + end, rest, a);
      var more := TextArrives(format, recordLen, lines[1..], end);
      written := [w] + more;
      assert written[1..] == more;
      Assoc(w, [10], Text(more, [10]));
    }
  }

  lemma NothingArrives(format: RecordFormat, recordLen: nat)
    requires recordLen >= 1
    ensures FileTrip(format, recordLen, []) == Some([])
  {
  }

  /** A line that arrives as it was. */
  predicate Survives(format: RecordFormat, recordLen: nat, line: seq<byte>)
  {
    && |line| <= recordLen
    && if format == Tf then line != [] ==> line[|line| - 1] != 32 else line != []
  }

  lemma {:induction false} KeptByLine(format: RecordFormat, recordLen: nat, lines: seq<seq<byte>>)
    requires recordLen >= 1 && format.IsText() && forall l :: l in lines ==> Line(l)
    ensures TextKept(format, recordLen, Text(lines, [10])) <==> forall l :: l in lines ==> Survives(format, recordLen, l)
    decreases |lines|
  {
    hide LineKept, Survives, Line;
    if lines != [] {
      TailLines(lines);
      var line, rest := lines[0], Text(lines[1..], [10]);
      KeptFirst(format, recordLen, line, rest);
      KeptByLine(format, recordLen, lines[1..]);
      if forall l :: l in lines[1..] ==> Survives(format, recordLen, l) {
        forall l | l in lines && l != line ensures l in lines[1..] {
        }
      } else {
        forall l | l in lines[1..] ensures l in lines {
        }
      }
      assert line in lines;
    }
  }

  lemma KeptFirst(format: RecordFormat, recordLen: nat, line: seq<byte>, rest: seq<byte>)
    requires recordLen >= 1 && format.IsText() && Line(line)
    ensures TextKept(format, recordLen, line + [10] + rest)
      <==> Survives(format, recordLen, line) && TextKept(format, recordLen, rest)
  {
    FirstLf(line, rest);
    Sandwich(line, [10], rest);
    assert (line + [10] + rest)[..|line|] == line;
  }

  /** A text arrives as the same lines, each ended by a line feed, exactly when every line survives, whichever line end it
      had. */
  lemma {:induction false} TextComesBack(format: RecordFormat, recordLen: nat, lines: seq<seq<byte>>, end: seq<byte>)
    requires recordLen >= 1 && format.IsText() && (end == [10] || end == [13, 10])
    requires forall l :: l in lines ==> Line(l)
    ensures FileTrip(format, recordLen, Text(lines, end)) == Some(Text(lines, [10]))
      <==> forall l :: l in lines ==> Survives(format, recordLen, l)
  {
    hide Cut, Survives, Line, TextKept;
    SameArticles(format, recordLen, lines, []);
    assert Text(lines, [13, 10]) + [] == Text(lines, [13, 10]) && Text(lines, [10]) + [] == Text(lines, [10]);
    TextTrip(format, recordLen, Text(lines, [10]));
    KeptByLine(format, recordLen, lines);
  }
}
