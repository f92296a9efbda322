/** Data compression of one article (PI 21, annex A): run-length and vertical strings. */
module Compress {
  import opened Bytes
  import opened Params

  /** Longest chunk and largest string count: six bits. */
  const CHUNK: nat := 63

  datatype Mode = Literal | Horizontal | Vertical | Mixed

  function ModeOf(c: Compression): Mode
  {
    match c
    case NoCompression => Literal
    case HorizontalOnly => Horizontal
    case VerticalOnly => Vertical
    case MixedBoth => Mixed
  }

  datatype DecompressError = InvalidHeader(header: byte) | Truncated | TooLong(limit: nat)

  // ---- strings: the structure behind the flat output ----

  /** A string: literal octets, one octet repeated, or octets equal to the reference. */
  datatype Str = Lit(data: seq<byte>) | Run(count: nat, value: byte) | Same(count: nat)

  function Width(t: Str): nat
  {
    match t
    case Lit(d) => |d|
    case Run(n, _) => n
    case Same(n) => n
  }

  predicate Valid(t: Str)
  {
    1 <= Width(t) <= CHUNK && (t.Run? ==> t.count >= 2)
  }

  predicate AllValid(ts: seq<Str>)
  {
    forall i :: 0 <= i < |ts| ==> Valid(ts[i])
  }

  predicate Plain(ts: seq<Str>)
  {
    forall i :: 0 <= i < |ts| ==> !ts[i].Same?
  }

  /** An octet value; the counts of valid strings always fit. */
  function Octet(n: int): byte { if 0 <= n < 0x100 then n else 0 }

  /** Header octet: `n`, `0x80 | n` or `0xC0 | n`; counts fit six bits. */
  function Header(t: Str): byte
  {
    match t
    case Lit(d) => Octet(|d|)
    case Run(n, _) => Octet(0x80 + n)
    case Same(n) => Octet(0xC0 + n)
  }

  function Content(t: Str): seq<byte>
  {
    match t
    case Lit(d) => d
    case Run(_, v) => [v]
    case Same(_) => []
  }

  function Emit1(t: Str): seq<byte>
  {
    [Header(t)] + Content(t)
  }

  function Emit(ts: seq<Str>): seq<byte>
  {
    if ts == [] then [] else Emit(ts[..|ts| - 1]) + Emit1(ts[|ts| - 1])
  }

  /** The octets a string stands for when it lands at offset `at` (0 past the reference, which a
      successful decompression never reads). */
  function Expand1(t: Str, ref: seq<byte>, at: nat): (r: seq<byte>)
    ensures |r| == Width(t)
  {
    match t
    case Lit(d) => d
    case Run(n, v) => Repeat(n, v)
    case Same(n) => seq(n, i requires 0 <= i < n => if at + i < |ref| then ref[at + i] else 0)
  }

  /** `out` followed by what the strings stand for. */
  function Expand(ts: seq<Str>, ref: seq<byte>, out: seq<byte>): seq<byte>
  {
    if ts == [] then out
    else
      var sofar := Expand(ts[..|ts| - 1], ref, out);
      sofar + Expand1(ts[|ts| - 1], ref, |sofar|)
  }

  lemma EmitSnoc(ts: seq<Str>, t: Str)
    ensures Emit(ts + [t]) == Emit(ts) + Emit1(t)
  {
    assert (ts + [t])[..|ts|] == ts;
  }

  lemma ExpandSnoc(ts: seq<Str>, t: Str, ref: seq<byte>, out: seq<byte>)
    ensures Expand(ts + [t], ref, out) == Expand(ts, ref, out) + Expand1(t, ref, |Expand(ts, ref, out)|)
  {
    assert (ts + [t])[..|ts|] == ts;
  }

  lemma {:induction false} EmitAppend(xs: seq<Str>, ys: seq<Str>)
    ensures Emit(xs + ys) == Emit(xs) + Emit(ys)
  {
    if ys == [] {
      assert xs + ys == xs;
    } else {
      var init, last := ys[..|ys| - 1], ys[|ys| - 1];
      assert xs + ys == (xs + init) + [last];
      EmitAppend(xs, init);
      EmitSnoc(xs + init, last);
      Assoc(Emit(xs), Emit(init), Emit1(last));
    }
  }

  lemma {:induction false} ExpandAppend(xs: seq<Str>, ys: seq<Str>, ref: seq<byte>, out: seq<byte>)
    ensures Expand(xs + ys, ref, out) == Expand(ys, ref, Expand(xs, ref, out))
  {
    if ys == [] {
      assert xs + ys == xs;
    } else {
      var init, last := ys[..|ys| - 1], ys[|ys| - 1];
      assert xs + ys == (xs + init) + [last];
      ExpandAppend(xs, init, ref, out);
      ExpandSnoc(xs + init, last, ref, out);
    }
  }

  /** Without vertical strings the reference and the offset do not matter. */
  lemma {:induction false} PlainExpands(ts: seq<Str>, ref: seq<byte>, out: seq<byte>)
    requires Plain(ts)
    ensures Expand(ts, ref, out) == out + Expand(ts, [], [])
  {
    if ts == [] {
      assert out + [] == out;
    } else {
      var init, last := ts[..|ts| - 1], ts[|ts| - 1];
      PlainExpands(init, ref, out);
      var e := Expand1(last, [], 0);
      Assoc(out, Expand(init, [], []), e);
    }
  }

  // ---- horizontal strings ----

  /** Run-length coding in progress: finished strings and the open one, whose header may change. */
  datatype HorState = HorState(closed: seq<Str>, open: Str) {
    function Step(b: byte): HorState
      requires Valid(open)
    {
      match open
      case Lit(d) =>
        if d[|d| - 1] != b then HorState(closed, Lit(d + [b]))
        else if |d| == 1 then HorState(closed, Run(2, b))
        else HorState(closed + [Lit(d[..|d| - 1])], Run(2, b))
      case Run(n, v) =>
        if v == b then HorState(closed, Run(n + 1, v)) else HorState(closed + [open], Lit([b]))
      case Same(_) => this
    }

    function Output(): seq<byte> { Emit(closed) + Emit1(open) }

    function Text(): seq<byte> { Expand(closed, [], []) + Expand1(open, [], 0) }

    /** Cost: four thirds of the width; an open literal string of `k` octets may owe `3 - k` thirds. */
    predicate Cheap()
    {
      3 * |Output()| <= 4 * |Text()| + (if open.Lit? then 3 - |open.data| else 0)
    }

    ghost predicate Codes(chunk: seq<byte>)
    {
      AllValid(closed) && Plain(closed) && Valid(open) && !open.Same? && Text() == chunk && Cheap()
    }
  }

  function HorStart(b: byte): HorState
  {
    HorState([], Lit([b]))
  }

  lemma StepKeeps(h: HorState, chunk: seq<byte>, b: byte)
    requires h.Codes(chunk) && |chunk| < CHUNK
    ensures h.Step(b).Codes(chunk + [b])
  {
    StepText(h, b);
    StepCost(h, b);
    assert Width(h.open) <= |chunk|;
  }

  lemma StepText(h: HorState, b: byte)
    requires Valid(h.open) && !h.open.Same?
    ensures h.Step(b).Text() == h.Text() + [b]
  {
    var e := Expand(h.closed, [], []);
    match h.open
    case Lit(d) =>
      var d' := d[..|d| - 1];
      if d[|d| - 1] != b {
        Assoc(e, d, [b]);
      } else if |d| == 1 {
        RepeatSnoc(1, b);
        RepeatSnoc(0, b);
        assert Repeat(2, b) == d + [b];
        Assoc(e, d, [b]);
      } else {
        ExpandSnoc(h.closed, Lit(d'), [], []);
        RepeatTwo(b);
        Assoc(e, d', [b]);
        Assoc(e + d', [b], [b]);
        assert d == d' + [b];
      }
    case Run(n, v) =>
      ExpandSnoc(h.closed, h.open, [], []);
      RepeatSnoc(n, v);
      Assoc(e, Repeat(n, v), [v]);
  }

  lemma RepeatTwo(b: byte)
    ensures Repeat(2, b) == [b] + [b]
  {
  }

  lemma StepCost(h: HorState, b: byte)
    requires Valid(h.open) && !h.open.Same? && h.Cheap() && |h.Step(b).Text()| == |h.Text()| + 1
    ensures h.Step(b).Cheap()
  {
    match h.open
    case Lit(d) => EmitSnoc(h.closed, Lit(d[..|d| - 1]));
    case Run(_, _) => EmitSnoc(h.closed, h.open);
  }

  lemma RepeatSnoc(n: nat, v: byte)
    ensures Repeat(n + 1, v) == Repeat(n, v) + [v]
  {
  }

  /** Run-length coding of a chunk, octet by octet. */
  function HorOf(chunk: seq<byte>): (h: HorState)
    requires 1 <= |chunk| <= CHUNK
    ensures Valid(h.open) && !h.open.Same? && Width(h.open) <= |chunk|
  {
    var n := |chunk| - 1;
    if n == 0 then HorStart(chunk[0]) else HorOf(chunk[..n]).Step(chunk[n])
  }

  lemma {:induction false} HorOfCodes(chunk: seq<byte>)
    requires 1 <= |chunk| <= CHUNK
    ensures HorOf(chunk).Codes(chunk)
  {
    var n := |chunk| - 1;
    if n == 0 {
      assert chunk == [chunk[0]];
    } else {
      var pre, b := chunk[..n], chunk[n];
      assert chunk == pre + [b];
      HorOfCodes(pre);
      StepKeeps(HorOf(pre), pre, b);
    }
  }

  function HorStrings(chunk: seq<byte>): (ts: seq<Str>)
    requires 1 <= |chunk| <= CHUNK
  {
    HorOf(chunk).closed + [HorOf(chunk).open]
  }

  lemma HorStringsCode(chunk: seq<byte>, ref: seq<byte>, out: seq<byte>)
    requires 1 <= |chunk| <= CHUNK
    ensures AllValid(HorStrings(chunk)) && Plain(HorStrings(chunk))
    ensures Emit(HorStrings(chunk)) == HorOf(chunk).Output()
    ensures Expand(HorStrings(chunk), ref, out) == out + chunk
    ensures 3 * |Emit(HorStrings(chunk))| <= 4 * |chunk| + 2
  {
    var h := HorOf(chunk);
    HorOfCodes(chunk);
    EmitSnoc(h.closed, h.open);
    ExpandSnoc(h.closed, h.open, [], []);
    PlainExpands(HorStrings(chunk), ref, out);
  }

  /** Counts live in headers already written, which are patched in place. */
  method HorizontalInto(out: seq<byte>, chunk: seq<byte>) returns (res: seq<byte>)
    requires |chunk| <= CHUNK
    ensures res == out + (if chunk == [] then [] else Emit(HorStrings(chunk)))
  {
    res := out;
    if chunk == [] {
      return;
    }
    var header: nat, literal, cur := |res|, true, chunk[0];
    ghost var h := HorStart(chunk[0]);
    res := res + ([1] + [cur]);
    WrittenStart(out, cur);
    assert chunk[..1] == [chunk[0]];
    for i := 1 to |chunk|
      invariant h == HorOf(chunk[..i])
      invariant Valid(h.open) && !h.open.Same? && Width(h.open) <= i
      invariant literal == h.open.Lit? && cur == LastOf(h.open)
      invariant Written(res, out, header, h)
    {
      assert chunk[..i + 1][..i] == chunk[..i] && chunk[..i + 1][i] == chunk[i];
      StepWidth(h, chunk[i]);
      res, header, literal := HorizontalOctet(res, header, literal, cur, chunk[i], out, h);
      h := h.Step(chunk[i]);
      cur := chunk[i];
    }
    assert chunk[..|chunk|] == chunk;
    Assoc(out, Emit(h.closed), Emit1(h.open));
    EmitSnoc(h.closed, h.open);
  }

  lemma WrittenStart(out: seq<byte>, b: byte)
    ensures Written(out + ([1] + [b]), out, |out|, HorStart(b))
  {
    assert out + [] == out;
  }

  lemma StepWidth(h: HorState, b: byte)
    requires Valid(h.open) && !h.open.Same? && Width(h.open) < CHUNK
    ensures var open := h.Step(b).open;
      Valid(open) && !open.Same? && Width(open) <= Width(h.open) + 1 && LastOf(open) == b
  {
  }

  /** One octet of the scan. */
  method HorizontalOctet(out0: seq<byte>, header0: nat, literal0: bool, cur: byte, b: byte,
                         ghost out: seq<byte>, ghost h: HorState)
    returns (res: seq<byte>, header: nat, literal: bool)
    requires Valid(h.open) && !h.open.Same? && Width(h.open) < CHUNK
    requires literal0 == h.open.Lit? && cur == LastOf(h.open) && Written(out0, out, header0, h)
    ensures literal == h.Step(b).open.Lit? && Written(res, out, header, h.Step(b))
  {
    if b == cur {
      literal := false;
      res, header := RepeatOctet(out0, header0, literal0, cur, out, h);
    } else {
      literal := true;
      res, header := NewOctet(out0, header0, literal0, cur, b, out, h);
    }
  }

  method RepeatOctet(out0: seq<byte>, header0: nat, literal: bool, cur: byte, ghost out: seq<byte>, ghost h: HorState)
    returns (res: seq<byte>, header: nat)
    requires Valid(h.open) && !h.open.Same? && Width(h.open) < CHUNK
    requires literal == h.open.Lit? && cur == LastOf(h.open) && Written(out0, out, header0, h)
    ensures h.Step(cur).open.Run? && Written(res, out, header, h.Step(cur))
  {
    res, header := out0, header0;
    ghost var base := out + Emit(h.closed);
    if literal {
      if res[header] == 1 {
        Patch(base, 1, [cur], 0x82);
        assert Content(h.open) == [cur];
        res := res[header := 0x82];
      } else {
        res := DetachInto(res, header, base, h.open.data);
        header := |res| - 2;
        Detached(res, out, h);
      }
    } else {
      Patch(base, Header(h.open), Content(h.open), Header(h.open) + 1);
      res := res[header := res[header] + 1];
    }
  }

  method NewOctet(out0: seq<byte>, header0: nat, literal: bool, cur: byte, b: byte,
                  ghost out: seq<byte>, ghost h: HorState)
    returns (res: seq<byte>, header: nat)
    requires Valid(h.open) && !h.open.Same? && Width(h.open) < CHUNK
    requires literal == h.open.Lit? && cur == LastOf(h.open) && b != cur && Written(out0, out, header0, h)
    ensures h.Step(b).open.Lit? && Written(res, out, header, h.Step(b))
  {
    res, header := out0, header0;
    if literal {
      Extend(out + Emit(h.closed), h.open.data, b);
      res := res[header := res[header] + 1];
      res := res + [b];
    } else {
      Closed(res, out, h, b);
      header := |res|;
      res := res + ([1] + [b]);
    }
  }

  lemma Extend(base: seq<byte>, d: seq<byte>, b: byte)
    requires |d| < CHUNK
    ensures (base + Emit1(Lit(d)))[|base| := |d| + 1] + [b] == base + Emit1(Lit(d + [b]))
  {
    Patch(base, |d|, d, |d| + 1);
    Assoc(base, [|d| + 1] + d, [b]);
    Assoc([|d| + 1], d, [b]);
  }

  /** The run is finished; a new literal string opens after it. */
  lemma Closed(res: seq<byte>, out: seq<byte>, h: HorState, b: byte)
    requires res == out + Emit(h.closed) + Emit1(h.open)
    ensures Written(res + ([1] + [b]), out, |res|, HorState(h.closed + [h.open], Lit([b])))
  {
    EmitSnoc(h.closed, h.open);
    Assoc(out, Emit(h.closed), Emit1(h.open));
  }

  /** Back-patching a header leaves everything else in place. */
  lemma Patch(base: seq<byte>, header: byte, content: seq<byte>, x: byte)
    ensures (base + ([header] + content))[|base| := x] == base + ([x] + content)
  {
  }

  /** The output so far: what was there, the finished strings, the open string at `header`. */
  ghost predicate Written(res: seq<byte>, out: seq<byte>, header: nat, h: HorState)
  {
    header == |out| + |Emit(h.closed)| && res == out + Emit(h.closed) + Emit1(h.open)
  }

  function LastOf(t: Str): byte
    requires Valid(t) && !t.Same?
  {
    if t.Lit? then t.data[|t.data| - 1] else t.value
  }

  /** The last literal octet turned into the header of a run of two. */
  lemma Detached(res: seq<byte>, out: seq<byte>, was: HorState)
    requires was.open.Lit? && 2 <= |was.open.data| <= CHUNK
    requires var d := was.open.data;
      res == (out + Emit(was.closed)) + Emit1(Lit(d[..|d| - 1])) + Emit1(Run(2, d[|d| - 1]))
    ensures var d := was.open.data;
      Written(res, out, |res| - 2, HorState(was.closed + [Lit(d[..|d| - 1])], Run(2, d[|d| - 1])))
  {
    var lit := Lit(was.open.data[..|was.open.data| - 1]);
    EmitSnoc(was.closed, lit);
    Assoc(out, Emit(was.closed), Emit1(lit));
  }

  /** The patched octets of a literal string that loses its last octet to a new run. */
  method DetachInto(out: seq<byte>, header: nat, ghost base: seq<byte>, ghost d: seq<byte>) returns (res: seq<byte>)
    requires 2 <= |d| <= CHUNK && out == base + ([|d|] + d) && header == |base|
    ensures res == base + ([|d| - 1] + d[..|d| - 1]) + ([0x82] + [d[|d| - 1]])
  {
    var cur := out[|out| - 1];
    res := out[header := out[header] - 1];
    res := res[|res| - 1 := 0x82];
    res := res + [cur];
  }

  // ---- vertical strings ----

  /** Number of leading octets equal to the reference (`equal`), or different from it. */
  function Prefix(a: seq<byte>, r: seq<byte>, equal: bool): (n: nat)
    requires |a| == |r|
    ensures n <= |a|
  {
    if a == [] || (a[0] == r[0]) != equal then 0 else Prefix(a[1..], r[1..], equal) + 1
  }

  lemma {:induction false} PrefixIsUniform(a: seq<byte>, r: seq<byte>, equal: bool)
    requires |a| == |r|
    ensures forall i :: 0 <= i < Prefix(a, r, equal) ==> (a[i] == r[i]) == equal
    ensures Prefix(a, r, equal) < |a| ==> (a[Prefix(a, r, equal)] == r[Prefix(a, r, equal)]) != equal
  {
    if a != [] && (a[0] == r[0]) == equal {
      PrefixIsUniform(a[1..], r[1..], equal);
      forall i | 0 <= i < Prefix(a, r, equal) ensures (a[i] == r[i]) == equal {
        if i > 0 {
          assert a[i] == a[1..][i - 1] && r[i] == r[1..][i - 1];
        }
      }
    }
  }

  /** Length of the leading stretch that is all equal to, or all different from, the reference. */
  function Stretch(chunk: seq<byte>, ref: seq<byte>): (n: nat)
    requires 1 <= |chunk| == |ref|
    ensures 1 <= n <= |chunk|
  {
    Prefix(chunk, ref, chunk[0] == ref[0])
  }

  function StretchStrings(chunk: seq<byte>, ref: seq<byte>, mixed: bool): seq<Str>
    requires 1 <= |chunk| == |ref| <= CHUNK
  {
    var n := Stretch(chunk, ref);
    if chunk[0] == ref[0] then [Same(n)] else if mixed then HorStrings(chunk[..n]) else [Lit(chunk[..n])]
  }

  function VertStrings(chunk: seq<byte>, ref: seq<byte>, mixed: bool): seq<Str>
    requires |chunk| == |ref| <= CHUNK
    decreases |chunk|
  {
    if chunk == [] then []
    else
      var n := Stretch(chunk, ref);
      StretchStrings(chunk, ref, mixed) + VertStrings(chunk[n..], ref[n..], mixed)
  }

  /** What a receiver holding `s` rebuilds at offset `at` when the sender coded `a` against `r`. */
  function Blend(a: seq<byte>, r: seq<byte>, s: seq<byte>, at: nat): (b: seq<byte>)
    requires |a| <= |r| && at + |a| <= |s|
    ensures |b| == |a|
  {
    if a == [] then [] else [if a[0] == r[0] then s[at] else a[0]] + Blend(a[1..], r[1..], s, at + 1)
  }

  lemma {:induction false} BlendAt(a: seq<byte>, r: seq<byte>, s: seq<byte>, at: nat, i: nat)
    requires i < |a| <= |r| && at + |a| <= |s|
    ensures Blend(a, r, s, at)[i] == if a[i] == r[i] then s[at + i] else a[i]
  {
    if i > 0 {
      BlendAt(a[1..], r[1..], s, at + 1, i - 1);
    }
  }

  lemma BlendSplit(a: seq<byte>, r: seq<byte>, s: seq<byte>, at: nat, n: nat)
    requires n <= |a| <= |r| && at + |a| <= |s|
    ensures Blend(a, r, s, at) == Blend(a[..n], r[..n], s, at) + Blend(a[n..], r[n..], s, at + n)
  {
    forall i | 0 <= i < |a|
      ensures Blend(a, r, s, at)[i] == (Blend(a[..n], r[..n], s, at) + Blend(a[n..], r[n..], s, at + n))[i]
    {
      BlendAt(a, r, s, at, i);
      if i < n {
        BlendAt(a[..n], r[..n], s, at, i);
      } else {
        BlendAt(a[n..], r[n..], s, at + n, i - n);
      }
    }
  }

  lemma ExpandUnit(t: Str, ref: seq<byte>, out: seq<byte>)
    ensures Expand([t], ref, out) == out + Expand1(t, ref, |out|)
    ensures Emit([t]) == Emit1(t)
  {
    assert [t] == [] + [t];
    ExpandSnoc([], t, ref, out);
    EmitSnoc([], t);
    assert [] + Emit1(t) == Emit1(t);
  }

  lemma StretchExpands(chunk: seq<byte>, ref: seq<byte>, mixed: bool, s: seq<byte>, out: seq<byte>)
    requires 1 <= |chunk| == |ref| <= CHUNK && |out| + |chunk| <= |s|
    ensures var n := Stretch(chunk, ref);
      && AllValid(StretchStrings(chunk, ref, mixed))
      && Expand(StretchStrings(chunk, ref, mixed), s, out) == out + Blend(chunk[..n], ref[..n], s, |out|)
  {
    var n := Stretch(chunk, ref);
    PrefixIsUniform(chunk, ref, chunk[0] == ref[0]);
    if chunk[0] == ref[0] {
      ExpandUnit(Same(n), s, out);
      SameBlends(chunk[..n], ref[..n], s, |out|);
    } else {
      OtherBlends(chunk[..n], ref[..n], s, |out|);
      if mixed {
        HorStringsCode(chunk[..n], s, out);
      } else {
        ExpandUnit(Lit(chunk[..n]), s, out);
      }
    }
  }

  lemma SameBlends(a: seq<byte>, r: seq<byte>, s: seq<byte>, at: nat)
    requires |a| == |r| && at + |a| <= |s| && forall i :: 0 <= i < |a| ==> a[i] == r[i]
    ensures Expand1(Same(|a|), s, at) == Blend(a, r, s, at)
  {
    forall i | 0 <= i < |a| ensures Blend(a, r, s, at)[i] == s[at + i] {
      BlendAt(a, r, s, at, i);
    }
  }

  lemma OtherBlends(a: seq<byte>, r: seq<byte>, s: seq<byte>, at: nat)
    requires |a| == |r| && at + |a| <= |s| && forall i :: 0 <= i < |a| ==> a[i] != r[i]
    ensures Blend(a, r, s, at) == a
  {
    forall i | 0 <= i < |a| ensures Blend(a, r, s, at)[i] == a[i] {
      BlendAt(a, r, s, at, i);
    }
  }

  lemma {:induction false} VertValid(chunk: seq<byte>, ref: seq<byte>, mixed: bool)
    requires |chunk| == |ref| <= CHUNK
    ensures AllValid(VertStrings(chunk, ref, mixed))
    decreases |chunk|
  {
    if chunk != [] {
      var n := Stretch(chunk, ref);
      StretchExpands(chunk, ref, mixed, ref, []);
      VertValid(chunk[n..], ref[n..], mixed);
    }
  }

  lemma ThenExpands(first: seq<Str>, rest: seq<Str>, s: seq<byte>, out: seq<byte>, head: seq<byte>, tail: seq<byte>)
    requires Expand(first, s, out) == out + head
    requires Expand(rest, s, out + head) == (out + head) + tail
    ensures Expand(first + rest, s, out) == out + (head + tail)
  {
    ExpandAppend(first, rest, s, out);
    Assoc(out, head, tail);
  }

  lemma {:induction false} VertExpands(chunk: seq<byte>, ref: seq<byte>, mixed: bool, s: seq<byte>, out: seq<byte>)
    requires |chunk| == |ref| <= CHUNK && |out| + |chunk| <= |s|
    ensures Expand(VertStrings(chunk, ref, mixed), s, out) == out + Blend(chunk, ref, s, |out|)
    decreases |chunk|
  {
    if chunk == [] {
      assert out + Blend(chunk, ref, s, |out|) == out;
    } else {
      var n := Stretch(chunk, ref);
      var first, rest := StretchStrings(chunk, ref, mixed), VertStrings(chunk[n..], ref[n..], mixed);
      var head, tail := Blend(chunk[..n], ref[..n], s, |out|), Blend(chunk[n..], ref[n..], s, |out| + n);
      assert Expand(first, s, out) == out + head by {
        StretchExpands(chunk, ref, mixed, s, out);
      }
      assert Expand(rest, s, out + head) == (out + head) + tail by {
        VertExpands(chunk[n..], ref[n..], mixed, s, out + head);
      }
      assert Blend(chunk, ref, s, |out|) == head + tail by {
        BlendSplit(chunk, ref, s, |out|, n);
      }
      ThenExpands(first, rest, s, out, head, tail);
    }
  }

  lemma StretchCost(chunk: seq<byte>, ref: seq<byte>, mixed: bool)
    requires 1 <= |chunk| == |ref| <= CHUNK
    ensures var c, n := |Emit(StretchStrings(chunk, ref, mixed))|, Stretch(chunk, ref);
      if chunk[0] == ref[0] then c == 1 else 2 * c <= 3 * n + 1
  {
    var n := Stretch(chunk, ref);
    if chunk[0] == ref[0] {
      ExpandUnit(Same(n), [], []);
    } else if mixed {
      HorStringsCode(chunk[..n], [], []);
    } else {
      ExpandUnit(Lit(chunk[..n]), [], []);
    }
  }

  /** One octet and a half per octet, and half an octet more when the chunk opens with a difference. */
  lemma {:induction false} VertCost(chunk: seq<byte>, ref: seq<byte>, mixed: bool)
    requires |chunk| == |ref| <= CHUNK
    ensures 2 * |Emit(VertStrings(chunk, ref, mixed))|
         <= 3 * |chunk| + (if chunk == [] || chunk[0] == ref[0] then 0 else 1)
    decreases |chunk|
  {
    if chunk != [] {
      var n := Stretch(chunk, ref);
      StretchCost(chunk, ref, mixed);
      PrefixIsUniform(chunk, ref, chunk[0] == ref[0]);
      VertCost(chunk[n..], ref[n..], mixed);
      EmitAppend(StretchStrings(chunk, ref, mixed), VertStrings(chunk[n..], ref[n..], mixed));
    }
  }

  function VertWire(chunk: seq<byte>, ref: seq<byte>, mixed: bool): seq<byte>
    requires |chunk| == |ref| <= CHUNK
  {
    Emit(VertStrings(chunk, ref, mixed))
  }

  lemma VertWireStep(chunk: seq<byte>, ref: seq<byte>, mixed: bool, n: nat)
    requires 1 <= |chunk| == |ref| <= CHUNK && n == Stretch(chunk, ref)
    ensures VertWire(chunk, ref, mixed)
         == Emit(StretchStrings(chunk, ref, mixed)) + VertWire(chunk[n..], ref[n..], mixed)
  {
    EmitAppend(StretchStrings(chunk, ref, mixed), VertStrings(chunk[n..], ref[n..], mixed));
  }

  lemma NothingLeft(chunk: seq<byte>, ref: seq<byte>, mixed: bool)
    requires chunk == [] && ref == []
    ensures VertWire(chunk, ref, mixed) == []
  {
  }

  /** The strings of one stretch of equal or of different octets. */
  method StretchInto(out: seq<byte>, chunk: seq<byte>, ref: seq<byte>, mixed: bool) returns (res: seq<byte>, n: nat)
    requires 1 <= |chunk| == |ref| <= CHUNK
    ensures n == Stretch(chunk, ref) && res == out + Emit(StretchStrings(chunk, ref, mixed))
  {
    n := Prefix(chunk, ref, true);
    if n > 0 {
      ExpandUnit(Same(n), [], []);
      assert Emit1(Same(n)) == [0xC0 + n];
      res := out + [0xC0 + n];
    } else {
      n := Prefix(chunk, ref, false);
      if mixed {
        res := HorizontalInto(out, chunk[..n]);
      } else {
        ExpandUnit(Lit(chunk[..n]), [], []);
        res := out + ([n] + chunk[..n]);
      }
    }
  }

  /** The scan of one chunk; runs of differences nest horizontal coding in mixed mode. */
  method VerticalInto(out: seq<byte>, chunk: seq<byte>, ref: seq<byte>, mixed: bool) returns (res: seq<byte>)
    requires |chunk| == |ref| <= CHUNK
    ensures res == out + VertWire(chunk, ref, mixed)
  {
    hide StretchStrings, VertStrings;
    res := out;
    var pos := 0;
    assert chunk[0..] == chunk && ref[0..] == ref;
    while pos < |chunk|
      invariant 0 <= pos <= |chunk|
      invariant res + VertWire(chunk[pos..], ref[pos..], mixed) == out + VertWire(chunk, ref, mixed)
    {
      ghost var was, strings := res, Emit(StretchStrings(chunk[pos..], ref[pos..], mixed));
      var n: nat;
      res, n := StretchInto(res, chunk[pos..], ref[pos..], mixed);
      VertWireStep(chunk[pos..], ref[pos..], mixed, n);
      Window(chunk, pos, n);
      Window(ref, pos, n);
      Assoc(was, strings, VertWire(chunk[pos + n..], ref[pos + n..], mixed));
      pos := pos + n;
    }
    NothingLeft(chunk[pos..], ref[pos..], mixed);
    assert res + [] == res;
  }

  // ---- one article ----

  function ChunkStrings(mode: Mode, chunk: seq<byte>, ref: seq<byte>): seq<Str>
    requires 1 <= |chunk| == |ref| <= CHUNK
  {
    match mode
    case Literal => [Lit(chunk)]
    case Horizontal => HorStrings(chunk)
    case Vertical => VertStrings(chunk, ref, false)
    case Mixed => VertStrings(chunk, ref, true)
  }

  function Strings(mode: Mode, article: seq<byte>, ref: seq<byte>): seq<Str>
    requires |article| <= |ref|
    decreases |article|
  {
    if article == [] then []
    else
      var n := Min(CHUNK, |article|);
      ChunkStrings(mode, article[..n], ref[..n]) + Strings(mode, article[n..], ref[n..])
  }

  /** The wire form of an article. */
  function Wire(mode: Mode, article: seq<byte>, ref: seq<byte>): seq<byte>
    requires |article| <= |ref|
  {
    Emit(Strings(mode, article, ref))
  }

  lemma WireStep(mode: Mode, a: seq<byte>, r: seq<byte>, n: nat)
    requires 1 <= |a| <= |r| && n == Min(CHUNK, |a|)
    ensures Wire(mode, a, r) == Emit(ChunkStrings(mode, a[..n], r[..n])) + Wire(mode, a[n..], r[n..])
  {
    EmitAppend(ChunkStrings(mode, a[..n], r[..n]), Strings(mode, a[n..], r[n..]));
  }

  method CompressChunk(mode: Mode, out: seq<byte>, chunk: seq<byte>, ref: seq<byte>) returns (res: seq<byte>)
    requires 1 <= |chunk| == |ref| <= CHUNK
    ensures res == out + Emit(ChunkStrings(mode, chunk, ref))
  {
    match mode {
      case Literal =>
        res := out + ([|chunk|] + chunk);
        ExpandUnit(Lit(chunk), [], []);
      case Horizontal => res := HorizontalInto(out, chunk);
      case Vertical => res := VerticalInto(out, chunk, ref, false);
      case Mixed => res := VerticalInto(out, chunk, ref, true);
    }
  }

  method Compress(mode: Mode, article: seq<byte>, reference: seq<byte>) returns (out: seq<byte>)
    requires |article| <= |reference|
    ensures out == Wire(mode, article, reference)
  {
    out := [];
    var pos := 0;
    assert article[0..] == article && reference[0..] == reference;
    while pos < |article|
      invariant 0 <= pos <= |article|
      invariant out + Wire(mode, article[pos..], reference[pos..]) == Wire(mode, article, reference)
    {
      var n := Min(CHUNK, |article| - pos);
      WireStep(mode, article[pos..], reference[pos..], n);
      Window(article, pos, n);
      Window(reference, pos, n);
      Assoc(out, Emit(ChunkStrings(mode, article[pos..pos + n], reference[pos..pos + n])),
            Wire(mode, article[pos + n..], reference[pos + n..]));
      out := CompressChunk(mode, out, article[pos..pos + n], reference[pos..pos + n]);
      pos := pos + n;
    }
    assert out + [] == out;
  }

  predicate UsesReference(mode: Mode) { mode == Vertical || mode == Mixed }

  /** What lands at offset `at` of a receiver holding `s` when the sender coded `a` against `r`. */
  function Received(mode: Mode, a: seq<byte>, r: seq<byte>, s: seq<byte>, at: nat): seq<byte>
    requires |a| <= |r| && (UsesReference(mode) ==> at + |a| <= |s|)
    ensures |Received(mode, a, r, s, at)| == |a|
  {
    if UsesReference(mode) then Blend(a, r, s, at) else a
  }

  lemma ReceivedSplit(mode: Mode, a: seq<byte>, r: seq<byte>, s: seq<byte>, at: nat, n: nat)
    requires n <= |a| <= |r| && (UsesReference(mode) ==> at + |a| <= |s|)
    ensures Received(mode, a, r, s, at)
         == Received(mode, a[..n], r[..n], s, at) + Received(mode, a[n..], r[n..], s, at + n)
    ensures |Received(mode, a[..n], r[..n], s, at)| == n
  {
    if UsesReference(mode) {
      BlendSplit(a, r, s, at, n);
    }
  }

  lemma ChunkExpands(mode: Mode, chunk: seq<byte>, ref: seq<byte>, s: seq<byte>, out: seq<byte>)
    requires 1 <= |chunk| == |ref| <= CHUNK
    requires UsesReference(mode) ==> |out| + |chunk| <= |s|
    ensures Expand(ChunkStrings(mode, chunk, ref), s, out) == out + Received(mode, chunk, ref, s, |out|)
  {
    match mode
    case Literal => ExpandUnit(Lit(chunk), s, out);
    case Horizontal => HorStringsCode(chunk, s, out);
    case Vertical => VertExpands(chunk, ref, false, s, out);
    case Mixed => VertExpands(chunk, ref, true, s, out);
  }

  lemma {:induction false} StringsValid(mode: Mode, a: seq<byte>, r: seq<byte>)
    requires |a| <= |r|
    ensures AllValid(Strings(mode, a, r))
    ensures !UsesReference(mode) ==> Plain(Strings(mode, a, r))
    decreases |a|
  {
    if a != [] {
      var n := Min(CHUNK, |a|);
      StringsValid(mode, a[n..], r[n..]);
      match mode
      case Literal =>
      case Horizontal => HorStringsCode(a[..n], [], []);
      case Vertical => VertValid(a[..n], r[..n], false);
      case Mixed => VertValid(a[..n], r[..n], true);
    }
  }

  lemma {:induction false} StringsExpand(mode: Mode, a: seq<byte>, r: seq<byte>, s: seq<byte>, out: seq<byte>)
    requires |a| <= |r| && (UsesReference(mode) ==> |out| + |a| <= |s|)
    ensures Expand(Strings(mode, a, r), s, out) == out + Received(mode, a, r, s, |out|)
    decreases |a|
  {
    if a == [] {
      assert out + Received(mode, a, r, s, |out|) == out;
    } else {
      var n := Min(CHUNK, |a|);
      ReceivedSplit(mode, a, r, s, |out|, n);
      StringsExpand(mode, a[n..], r[n..], s, out + Received(mode, a[..n], r[..n], s, |out|));
      ChunkThen(mode, a, r, s, out, n, Strings(mode, a[n..], r[n..]));
    }
  }

  lemma ChunkThen(mode: Mode, a: seq<byte>, r: seq<byte>, s: seq<byte>, out: seq<byte>, n: nat, rest: seq<Str>)
    requires 1 <= |a| <= |r| && (UsesReference(mode) ==> |out| + |a| <= |s|) && n == Min(CHUNK, |a|)
    requires var head := Received(mode, a[..n], r[..n], s, |out|);
      Expand(rest, s, out + head) == (out + head) + Received(mode, a[n..], r[n..], s, |out + head|)
    ensures Expand(ChunkStrings(mode, a[..n], r[..n]) + rest, s, out) == out + Received(mode, a, r, s, |out|)
  {
    hide ChunkStrings, Received;
    var first := ChunkStrings(mode, a[..n], r[..n]);
    var head, tail := Received(mode, a[..n], r[..n], s, |out|), Received(mode, a[n..], r[n..], s, |out| + n);
    assert Received(mode, a, r, s, |out|) == head + tail && |head| == n by {
      ReceivedSplit(mode, a, r, s, |out|, n);
    }
    assert Expand(first, s, out) == out + head by {
      ChunkExpands(mode, a[..n], r[..n], s, out);
    }
    assert |out + head| == |out| + n;
    ThenExpands(first, rest, s, out, head, tail);
  }

  // ---- decompression ----

  /** The first string of `c`: how many octets it takes and what the output becomes. */
  function ReadString(c: seq<byte>, ref: seq<byte>, max: nat, out: seq<byte>)
    : (r: Result<(nat, seq<byte>), DecompressError>)
    requires c != []
    ensures r.Ok? ==> 1 <= r.value.0 <= |c|
  {
    var n := c[0] % 0x40;
    if c[0] >= 0xC0 then
      if |out| + n > max then Err(TooLong(max))
      else if |out| + n > |ref| then Err(TooLong(|ref|))
      else Ok((1, out + ref[|out|..|out| + n]))
    else if c[0] >= 0x80 then
      if |c| < 2 then Err(Truncated)
      else if |out| + n > max then Err(TooLong(max))
      else Ok((2, out + Repeat(n, c[1])))
    else if c[0] < 0x40 then
      if |c| < 1 + n then Err(Truncated)
      else if |out| + n > max then Err(TooLong(max))
      else Ok((1 + n, out + c[1..1 + n]))
    else Err(InvalidHeader(c[0]))
  }

  /** Strings read one after the other; `out` is what earlier ones gave. */
  function Decode(c: seq<byte>, ref: seq<byte>, max: nat, out: seq<byte>): Result<seq<byte>, DecompressError>
    decreases |c|
  {
    if c == [] then Ok(out)
    else
      match ReadString(c, ref, max, out)
      case Err(e) => Err(e)
      case Ok((k, out')) => Decode(c[k..], ref, max, out')
  }

  method Decompress(compressed: seq<byte>, reference: seq<byte>, max: nat)
    returns (r: Result<seq<byte>, DecompressError>)
    ensures r == Decode(compressed, reference, max, [])
  {
    var out: seq<byte>, pos := [], 0;
    assert compressed[0..] == compressed;
    while pos < |compressed|
      invariant 0 <= pos <= |compressed|
      invariant Decode(compressed[pos..], reference, max, out) == Decode(compressed, reference, max, [])
    {
      var step := TakeString(compressed, pos, reference, max, out);
      if step.Err? {
        return Err(step.error);
      }
      Window(compressed, pos, step.value.0);
      pos, out := pos + step.value.0, step.value.1;
    }
    r := Ok(out);
  }

  method TakeString(compressed: seq<byte>, start: nat, reference: seq<byte>, max: nat, out: seq<byte>)
    returns (r: Result<(nat, seq<byte>), DecompressError>)
    requires start < |compressed|
    ensures r == ReadString(compressed[start..], reference, max, out)
  {
    var h := compressed[start];
    var n := h % 0x40;
    var pos := start + 1;
    if h / 0x40 == 3 {
      if |out| + n > max {
        return Err(TooLong(max));
      }
      if |out| + n > |reference| {
        return Err(TooLong(|reference|));
      }
      r := Ok((1, out + reference[|out|..|out| + n]));
    } else if h / 0x40 == 2 {
      if pos >= |compressed| {
        return Err(Truncated);
      }
      n := h % 0x80;
      if |out| + n > max {
        return Err(TooLong(max));
      }
      r := Ok((2, out + Repeat(n, compressed[pos])));
    } else if h / 0x40 == 0 {
      if pos + n > |compressed| {
        return Err(Truncated);
      }
      if |out| + n > max {
        return Err(TooLong(max));
      }
      assert compressed[start..][1..1 + n] == compressed[pos..pos + n];
      r := Ok((1 + n, out + compressed[pos..pos + n]));
    } else {
      r := Err(InvalidHeader(h));
    }
  }

  lemma ReadLit(d: seq<byte>, rest: seq<byte>, ref: seq<byte>, max: nat, out: seq<byte>)
    requires Valid(Lit(d)) && |out| + |d| <= max
    ensures ReadString(Emit1(Lit(d)) + rest, ref, max, out) == Ok((1 + |d|, out + d))
  {
    var c := Emit1(Lit(d)) + rest;
    assert c[0] == |d| && c[1..1 + |d|] == d;
  }

  lemma ReadRun(n: nat, v: byte, rest: seq<byte>, ref: seq<byte>, max: nat, out: seq<byte>)
    requires Valid(Run(n, v)) && |out| + n <= max
    ensures ReadString(Emit1(Run(n, v)) + rest, ref, max, out) == Ok((2, out + Repeat(n, v)))
  {
    hide Repeat;
    var c := Emit1(Run(n, v)) + rest;
    assert c[0] == 0x80 + n && c[1] == v;
  }

  lemma ReadSame(n: nat, rest: seq<byte>, ref: seq<byte>, max: nat, out: seq<byte>)
    requires Valid(Same(n)) && |out| + n <= max && |out| + n <= |ref|
    ensures ReadString(Emit1(Same(n)) + rest, ref, max, out) == Ok((1, out + Expand1(Same(n), ref, |out|)))
  {
    assert (Emit1(Same(n)) + rest)[0] == 0xC0 + n;
    assert ref[|out|..|out| + n] == Expand1(Same(n), ref, |out|);
  }

  lemma DecodeOne(t: Str, rest: seq<byte>, ref: seq<byte>, max: nat, out: seq<byte>)
    requires Valid(t) && |out| + Width(t) <= max
    requires t.Same? ==> |out| + Width(t) <= |ref|
    ensures Decode(Emit1(t) + rest, ref, max, out) == Decode(rest, ref, max, out + Expand1(t, ref, |out|))
  {
    match t
    case Lit(d) => ReadLit(d, rest, ref, max, out);
    case Run(n, v) => ReadRun(n, v, rest, ref, max, out);
    case Same(n) => ReadSame(n, rest, ref, max, out);
    assert (Emit1(t) + rest)[|Emit1(t)|..] == rest;
  }

  /** Decoding emitted strings, whatever follows them, rebuilds what they stand for. */
  lemma {:induction false} DecodeEmitted(ts: seq<Str>, rest: seq<byte>, ref: seq<byte>, max: nat, out: seq<byte>)
    requires AllValid(ts) && |Expand(ts, ref, out)| <= max
    requires Plain(ts) || |Expand(ts, ref, out)| <= |ref|
    ensures Decode(Emit(ts) + rest, ref, max, out) == Decode(rest, ref, max, Expand(ts, ref, out))
  {
    if ts == [] {
      assert Emit(ts) + rest == rest;
    } else {
      var init, last := ts[..|ts| - 1], ts[|ts| - 1];
      Assoc(Emit(init), Emit1(last), rest);
      DecodeEmitted(init, Emit1(last) + rest, ref, max, out);
      DecodeOne(last, rest, ref, max, Expand(init, ref, out));
    }
  }

  lemma NothingMore(ref: seq<byte>, max: nat, out: seq<byte>)
    ensures Decode([], ref, max, out) == Ok(out)
  {
  }

  /** Coding against one reference and decoding against another: exactly which octets come out. */
  lemma CrossReference(mode: Mode, a: seq<byte>, r: seq<byte>, s: seq<byte>, max: nat)
    requires |a| <= |r| && |a| <= max && (UsesReference(mode) ==> |a| <= |s|)
    ensures Decode(Wire(mode, a, r), s, max, []) == Ok(Received(mode, a, r, s, 0))
  {
    hide Strings, Expand, Emit, Received, Decode;
    var ts, got := Strings(mode, a, r), Received(mode, a, r, s, 0);
    assert Expand(ts, s, []) == got by {
      StringsExpand(mode, a, r, s, []);
      assert [] + got == got;
    }
    StringsValid(mode, a, r);
    assert |got| == |a|;
    DecodeEmitted(ts, [], s, max, []);
    assert Emit(ts) + [] == Emit(ts);
    NothingMore(s, max, got);
  }

  /** Nothing longer than the limit is ever decompressed, and nothing written is taken back. */
  lemma {:induction false} DecodedWithin(c: seq<byte>, ref: seq<byte>, max: nat, out: seq<byte>)
    requires |out| <= max
    ensures var r := Decode(c, ref, max, out); r.Ok? ==> |out| <= |r.value| <= max
    decreases |c|
  {
    if c != [] {
      var step := ReadString(c, ref, max, out);
      if step.Ok? {
        DecodedWithin(c[step.value.0..], ref, max, step.value.1);
      }
    }
  }

  /** Every mode, article and reference at least as long: decompression undoes compression if and only if the article
      is within the receiver's limit. */
  lemma RoundTrip(mode: Mode, a: seq<byte>, r: seq<byte>, max: nat)
    requires |a| <= |r|
    ensures Decode(Wire(mode, a, r), r, max, []) == Ok(a) <==> |a| <= max
  {
    DecodedWithin(Wire(mode, a, r), r, max, []);
    if |a| <= max {
      CrossReference(mode, a, r, r, max);
      if UsesReference(mode) {
        forall i | 0 <= i < |a| ensures Blend(a, r, r, 0)[i] == a[i] {
          BlendAt(a, r, r, 0, i);
        }
        assert Blend(a, r, r, 0) == a;
      }
    }
  }

  /** With another reference, the article comes out right exactly when the two references agree
      wherever the article matches the sender's; never a condition without vertical strings. */
  lemma OtherReference(mode: Mode, a: seq<byte>, r: seq<byte>, s: seq<byte>, max: nat)
    requires |a| <= |r| && |a| <= max && (UsesReference(mode) ==> |a| <= |s|)
    ensures Decode(Wire(mode, a, r), s, max, []) == Ok(a)
       <==> (UsesReference(mode) ==> forall i :: 0 <= i < |a| && a[i] == r[i] ==> s[i] == r[i])
  {
    CrossReference(mode, a, r, s, max);
    if UsesReference(mode) {
      forall i | 0 <= i < |a| ensures Blend(a, r, s, 0)[i] == if a[i] == r[i] then s[i] else a[i] {
        BlendAt(a, r, s, 0, i);
      }
      if forall i :: 0 <= i < |a| && a[i] == r[i] ==> s[i] == r[i] {
        assert Blend(a, r, s, 0) == a;
      }
    }
  }

  // ---- expansion ----

  /** Chunks of 63 octets, the last one perhaps short. */
  function Chunks(n: nat): nat { (n + 62) / 63 }

  lemma ChunkCost(mode: Mode, chunk: seq<byte>, ref: seq<byte>)
    requires 1 <= |chunk| == |ref| <= CHUNK
    ensures 2 * |Emit(ChunkStrings(mode, chunk, ref))| <= 3 * |chunk| + 1
    ensures mode == Horizontal ==> 3 * |Emit(ChunkStrings(mode, chunk, ref))| <= 4 * |chunk| + 2
    ensures mode == Literal ==> |Emit(ChunkStrings(mode, chunk, ref))| == |chunk| + 1
  {
    match mode
    case Literal => ExpandUnit(Lit(chunk), [], []);
    case Horizontal => HorStringsCode(chunk, [], []);
    case Vertical => VertCost(chunk, ref, false);
    case Mixed => VertCost(chunk, ref, true);
  }

  /** Worst-case expansion of every mode. */
  lemma {:induction false} Expansion(mode: Mode, a: seq<byte>, r: seq<byte>)
    requires |a| <= |r|
    ensures 2 * |Wire(mode, a, r)| <= 3 * |a| + Chunks(|a|)
    ensures mode == Horizontal ==> 3 * |Wire(mode, a, r)| <= 4 * |a| + 2 * Chunks(|a|)
    ensures mode == Literal ==> |Wire(mode, a, r)| == |a| + Chunks(|a|)
    decreases |a|
  {
    if a != [] {
      var n := Min(CHUNK, |a|);
      WireStep(mode, a, r, n);
      ChunkCost(mode, a[..n], r[..n]);
      Expansion(mode, a[n..], r[n..]);
      assert Chunks(|a|) == Chunks(|a| - n) + 1;
    }
  }

  lemma UniformChunk(chunk: seq<byte>, ref: seq<byte>, equal: bool)
    requires 1 <= |chunk| == |ref| <= CHUNK && forall i :: 0 <= i < |chunk| ==> (chunk[i] == ref[i]) == equal
    ensures VertStrings(chunk, ref, false) == if equal then [Same(|chunk|)] else [Lit(chunk)]
  {
    PrefixIsUniform(chunk, ref, equal);
    var n := Stretch(chunk, ref);
    assert n == |chunk|;
    assert chunk[..n] == chunk && chunk[n..] == [] == ref[n..];
    assert VertStrings(chunk[n..], ref[n..], false) == [];
  }

  /** Coded against a reference that agrees at every octet an article takes one octet a chunk; against one that agrees
      nowhere it goes out as it would literally. */
  lemma {:induction false} UniformWire(a: seq<byte>, r: seq<byte>, equal: bool)
    requires |a| <= |r| && forall i :: 0 <= i < |a| ==> (a[i] == r[i]) == equal
    ensures |Wire(Vertical, a, r)| == if equal then Chunks(|a|) else |a| + Chunks(|a|)
    decreases |a|
  {
    hide VertStrings;
    if a != [] {
      var n := Min(CHUNK, |a|);
      WireStep(Vertical, a, r, n);
      UniformChunk(a[..n], r[..n], equal);
      ExpandUnit(if equal then Same(n) else Lit(a[..n]), [], []);
      UniformWire(a[n..], r[n..], equal);
      assert Chunks(|a|) == Chunks(|a| - n) + 1;
    }
  }
}
