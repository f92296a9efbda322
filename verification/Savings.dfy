/** What compression leaves out: runs are never spelt out, nor octets the reference already holds. */
module Savings {
  import opened Bytes
  import opened Compress

  // ---- strings as octets ----

  lemma LiteralOctets(d: seq<byte>, ref: seq<byte>, max: nat, out: seq<byte>, rest: seq<byte>)
    requires 1 <= |d| <= 63 && |out| + |d| <= max
    ensures Decode([|d|] + d + rest, ref, max, out) == Decode(rest, ref, max, out + d)
  {
    var c := [|d|] + d + rest;
    assert c[0] == |d| && c[1..1 + |d|] == d && c[1 + |d|..] == rest;
  }

  lemma RunOctets(n: nat, v: byte, ref: seq<byte>, max: nat, out: seq<byte>, rest: seq<byte>)
    requires 1 <= n <= 63 && |out| + n <= max
    ensures Decode([128 + n, v] + rest, ref, max, out) == Decode(rest, ref, max, out + Repeat(n, v))
  {
    hide Repeat;
    var c := [128 + n, v] + rest;
    assert c[0] == 128 + n && c[1] == v && c[2..] == rest;
  }

  lemma ReferenceOctets(n: nat, ref: seq<byte>, max: nat, out: seq<byte>, rest: seq<byte>)
    requires 1 <= n <= 63 && |out| + n <= max && |out| + n <= |ref|
    ensures Decode([192 + n] + rest, ref, max, out) == Decode(rest, ref, max, out + ref[|out|..|out| + n])
  {
    var c := [192 + n] + rest;
    assert c[0] == 192 + n && c[1..] == rest;
  }

  /** The three kinds of string on the wire: the count, 0x80 and the count, 0xC0 and the count. */
  lemma StringOctets(n: nat, v: byte, d: seq<byte>, ref: seq<byte>, max: nat, out: seq<byte>, rest: seq<byte>)
    requires 1 <= n <= 63 && |d| == n && |out| + n <= max && |out| + n <= |ref|
    ensures Decode([n] + d + rest, ref, max, out) == Decode(rest, ref, max, out + d)
    ensures Decode([128 + n, v] + rest, ref, max, out) == Decode(rest, ref, max, out + Repeat(n, v))
    ensures Decode([192 + n] + rest, ref, max, out) == Decode(rest, ref, max, out + ref[|out|..|out| + n])
  {
    hide Decode, Repeat;
    LiteralOctets(d, ref, max, out, rest);
    RunOctets(n, v, ref, max, out, rest);
    ReferenceOctets(n, ref, max, out, rest);
  }

  lemma {:induction false} HeaderInError(c: seq<byte>, ref: seq<byte>, max: nat, out: seq<byte>, h: byte)
    requires Decode(c, ref, max, out) == Err(InvalidHeader(h))
    ensures 64 <= h < 128
    decreases |c|
  {
    var step := ReadString(c, ref, max, out);
    if step.Ok? {
      HeaderInError(c[step.value.0..], ref, max, step.value.1, h);
    }
  }

  /** An octet begins a string unless it is one of 64 to 127. */
  lemma BadHeader(h: byte, rest: seq<byte>, ref: seq<byte>, max: nat, out: seq<byte>)
    ensures Decode([h] + rest, ref, max, out) == Err(InvalidHeader(h)) <==> 64 <= h < 128
  {
    if Decode([h] + rest, ref, max, out) == Err(InvalidHeader(h)) {
      HeaderInError([h] + rest, ref, max, out, h);
    }
  }

  // ---- runs ----

  /** No octet is followed by itself. */
  predicate NoPair(d: seq<byte>)
  {
    forall i :: 0 <= i < |d| - 1 ==> d[i] != d[i + 1]
  }

  /** No string of literal octets holds a pair of equal neighbours. */
  predicate RunsFound(ts: seq<Str>)
  {
    forall i :: 0 <= i < |ts| ==> ts[i].Lit? ==> NoPair(ts[i].data)
  }

  lemma StepFindsRuns(h: HorState, b: byte)
    requires Compress.Valid(h.open) && RunsFound(h.closed) && RunsFound([h.open])
    ensures var s := h.Step(b); RunsFound(s.closed) && RunsFound([s.open])
  {
    var s := h.Step(b);
    assert [h.open][0] == h.open;
    if h.open.Lit? {
      var d := h.open.data;
      assert NoPair(d) && NoPair(d[..|d| - 1]);
    }
    assert s.open.Lit? ==> NoPair(s.open.data);
  }

  lemma {:induction false} HorFindsRuns(chunk: seq<byte>)
    requires 1 <= |chunk| <= CHUNK
    ensures RunsFound(HorOf(chunk).closed) && RunsFound([HorOf(chunk).open])
  {
    var n := |chunk| - 1;
    if n > 0 {
      HorFindsRuns(chunk[..n]);
      StepFindsRuns(HorOf(chunk[..n]), chunk[n]);
    }
  }

  lemma RunsFoundAppend(xs: seq<Str>, ys: seq<Str>)
    requires RunsFound(xs) && RunsFound(ys)
    ensures RunsFound(xs + ys)
  {
  }

  lemma ChunkRuns(chunk: seq<byte>)
    requires 1 <= |chunk| <= CHUNK
    ensures RunsFound(HorStrings(chunk))
  {
    HorFindsRuns(chunk);
    RunsFoundAppend(HorOf(chunk).closed, [HorOf(chunk).open]);
  }

  lemma {:induction false} MixedRuns(chunk: seq<byte>, ref: seq<byte>)
    requires |chunk| == |ref| <= CHUNK
    ensures RunsFound(VertStrings(chunk, ref, true))
    decreases |chunk|
  {
    hide HorStrings, RunsFound;
    if chunk == [] {
      assert RunsFound([]) by {
        NoStrings();
      }
    } else {
      var n := Stretch(chunk, ref);
      if chunk[0] == ref[0] {
        OneSame(n);
      } else {
        ChunkRuns(chunk[..n]);
      }
      MixedRuns(chunk[n..], ref[n..]);
      RunsFoundAppend(StretchStrings(chunk, ref, true), VertStrings(chunk[n..], ref[n..], true));
    }
  }

  lemma NoStrings()
    ensures RunsFound([])
  {
  }

  lemma OneSame(n: nat)
    ensures RunsFound([Same(n)])
  {
  }

  /** Whatever goes out in the horizontal and mixed modes, no two equal octets stand side by side in a string of literal
      octets: every such pair is part of a run, or of two strings. */
  lemma {:induction false} RunsCoded(mode: Mode, a: seq<byte>, r: seq<byte>)
    requires |a| <= |r| && (mode == Horizontal || mode == Mixed)
    ensures RunsFound(Strings(mode, a, r))
    decreases |a|
  {
    hide RunsFound, HorStrings, VertStrings;
    if a == [] {
      NoStrings();
    } else {
      var n := if |a| < CHUNK then |a| else CHUNK;
      if mode == Horizontal {
        ChunkRuns(a[..n]);
      } else {
        MixedRuns(a[..n], r[..n]);
      }
      RunsCoded(mode, a[n..], r[n..]);
      RunsFoundAppend(ChunkStrings(mode, a[..n], r[..n]), Strings(mode, a[n..], r[n..]));
    }
  }

  // ---- octets the reference holds ----

  /** The octets of an article that differ from the reference, in order. */
  function Differences(a: seq<byte>, r: seq<byte>): seq<byte>
    requires |a| <= |r|
  {
    if a == [] then [] else (if a[0] == r[0] then [] else [a[0]]) + Differences(a[1..], r[1..])
  }

  /** The octets that strings carry or repeat themselves, without the reference. */
  function Carried(ts: seq<Str>): seq<byte>
  {
    if ts == [] then []
    else Carried(ts[..|ts| - 1]) + (if ts[|ts| - 1].Same? then [] else Expand1(ts[|ts| - 1], [], 0))
  }

  lemma {:induction false} CarriedAppend(xs: seq<Str>, ys: seq<Str>)
    ensures Carried(xs + ys) == Carried(xs) + Carried(ys)
  {
    hide Expand1;
    if ys == [] {
      assert xs + ys == xs;
    } else {
      var init, last := ys[..|ys| - 1], ys[|ys| - 1];
      assert xs + ys == (xs + init) + [last] && (xs + ys)[..|xs + ys| - 1] == xs + init;
      CarriedAppend(xs, init);
      Assoc(Carried(xs), Carried(init), if last.Same? then [] else Expand1(last, [], 0));
    }
  }

  lemma {:induction false} CarriedPlain(ts: seq<Str>)
    requires Plain(ts)
    ensures Carried(ts) == Expand(ts, [], [])
  {
    if ts != [] {
      CarriedPlain(ts[..|ts| - 1]);
    }
  }

  lemma {:induction false} DifferencesSplit(a: seq<byte>, r: seq<byte>, n: nat)
    requires n <= |a| <= |r|
    ensures Differences(a, r) == Differences(a[..n], r[..n]) + Differences(a[n..], r[n..])
  {
    if n > 0 {
      DifferencesSplit(a[1..], r[1..], n - 1);
      assert a[..n][1..] == a[1..][..n - 1] && r[..n][1..] == r[1..][..n - 1];
      assert a[1..][n - 1..] == a[n..] && r[1..][n - 1..] == r[n..];
      Assoc(if a[0] == r[0] then [] else [a[0]], Differences(a[..n][1..], r[..n][1..]), Differences(a[n..], r[n..]));
    }
  }

  lemma {:induction false} UniformDifferences(a: seq<byte>, r: seq<byte>, equal: bool)
    requires |a| <= |r| && forall i :: 0 <= i < |a| ==> (a[i] == r[i]) == equal
    ensures Differences(a, r) == if equal then [] else a
  {
    if a != [] {
      UniformDifferences(a[1..], r[1..], equal);
    }
  }

  lemma StretchCarries(chunk: seq<byte>, ref: seq<byte>, mixed: bool)
    requires 1 <= |chunk| == |ref| <= CHUNK
    ensures var n := Stretch(chunk, ref);
      Carried(StretchStrings(chunk, ref, mixed)) == Differences(chunk[..n], ref[..n])
  {
    hide HorStrings;
    var n := Stretch(chunk, ref);
    PrefixIsUniform(chunk, ref, chunk[0] == ref[0]);
    UniformDifferences(chunk[..n], ref[..n], chunk[0] == ref[0]);
    if chunk[0] != ref[0] {
      if mixed {
        HorStringsCode(chunk[..n], [], []);
        CarriedPlain(HorStrings(chunk[..n]));
        assert [] + chunk[..n] == chunk[..n];
      } else {
        assert [Lit(chunk[..n])][..0] == [] && [] + chunk[..n] == chunk[..n];
      }
    } else {
      assert [Same(n)][..0] == [];
    }
  }

  lemma {:induction false} VertCarries(chunk: seq<byte>, ref: seq<byte>, mixed: bool)
    requires |chunk| == |ref| <= CHUNK
    ensures Carried(VertStrings(chunk, ref, mixed)) == Differences(chunk, ref)
    decreases |chunk|
  {
    hide StretchStrings, Carried;
    if chunk == [] {
      NothingCarried();
    } else {
      var n := Stretch(chunk, ref);
      StretchCarries(chunk, ref, mixed);
      VertCarries(chunk[n..], ref[n..], mixed);
      CarriedAppend(StretchStrings(chunk, ref, mixed), VertStrings(chunk[n..], ref[n..], mixed));
      DifferencesSplit(chunk, ref, n);
    }
  }

  lemma NothingCarried()
    ensures Carried([]) == []
  {
  }

  /** What goes out in the vertical and mixed modes is the octets that differ from the reference, all of them and no
      other. */
  lemma {:induction false} OnlyDifferences(mode: Mode, a: seq<byte>, r: seq<byte>)
    requires |a| <= |r| && UsesReference(mode)
    ensures Carried(Strings(mode, a, r)) == Differences(a, r)
    decreases |a|
  {
    hide Carried, VertStrings;
    if a == [] {
      NothingCarried();
    } else {
      var n := if |a| < CHUNK then |a| else CHUNK;
      VertCarries(a[..n], r[..n], mode == Mixed);
      OnlyDifferences(mode, a[n..], r[n..]);
      CarriedAppend(ChunkStrings(mode, a[..n], r[..n]), Strings(mode, a[n..], r[n..]));
      DifferencesSplit(a, r, n);
    }
  }
}
