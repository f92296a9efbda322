/** The stateful ends of a compressed transfer and the reference article they share. */
module Compressors {
  import opened Bytes
  import opened Params
  import opened Compress

  // ---- specification ----

  /** The buffer extended with zeros to `n` octets when it is shorter. */
  function Grow(buf: seq<byte>, n: nat): (r: seq<byte>)
    ensures |r| == Max(|buf|, n) && buf <= r
  {
    if n > |buf| then buf + Repeat(n - |buf|, 0) else buf
  }

  /** The article overwrites the beginning of the buffer; what lies beyond it stays. */
  function Overwrite(buf: seq<byte>, article: seq<byte>): (r: seq<byte>)
    ensures |r| == Max(|buf|, |article|)
    ensures r[..|article|] == article
    ensures forall i :: |article| <= i < |buf| ==> r[i] == buf[i]
  {
    if |article| >= |buf| then article else article + buf[|article|..]
  }

  datatype SenderState = SenderState(compression: Compression, reference: seq<byte>, afterSync: bool) {
    function Mode(): Mode { if afterSync then Literal else ModeOf(compression) }

    function WireOf(article: seq<byte>): seq<byte> {
      Wire(Mode(), article, Grow(reference, |article|))
    }

    function Sent(article: seq<byte>): SenderState {
      SenderState(compression, Overwrite(reference, article), false)
    }

    function AtSync(): SenderState { this.(afterSync := true) }
  }

  datatype ReceiverState = ReceiverState(reference: seq<byte>, maxArticle: nat) {
    function Decoded(wire: seq<byte>): Result<seq<byte>, DecompressError> {
      Decode(wire, reference, maxArticle, [])
    }

    function Got(article: seq<byte>): ReceiverState {
      ReceiverState(Overwrite(reference, article), maxArticle)
    }
  }

  function NewSender(c: Compression, maxArticle: nat): SenderState {
    SenderState(c, Repeat(Max(maxArticle, 1), 0), true)
  }

  function NewReceiver(maxArticle: nat): ReceiverState {
    ReceiverState(Repeat(Max(maxArticle, 1), 0), Max(maxArticle, 1))
  }

  // ---- reference, compressor, decompressor ----

  class Reference {
    var buf: seq<byte>

    constructor (maxArticle: nat)
      ensures buf == Repeat(Max(maxArticle, 1), 0)
    {
      buf := Repeat(Max(maxArticle, 1), 0);
    }

    method Resize(n: nat)
      modifies this
      ensures buf == Grow(old(buf), n)
    {
      if n > |buf| {
        buf := buf + Repeat(n - |buf|, 0);
      }
    }

    method Update(article: seq<byte>)
      modifies this
      ensures buf == Overwrite(old(buf), article)
    {
      Resize(|article|);
      buf := article + buf[|article|..];
    }
  }

  class Compressor {
    const compression: Compression
    const reference: Reference
    var afterSync: bool

    function View(): SenderState
      reads this, reference
    {
      SenderState(compression, reference.buf, afterSync)
    }

    constructor (compression: Compression, maxArticle: nat)
      ensures fresh(reference) && View() == NewSender(compression, maxArticle)
    {
      this.compression := compression;
      reference := new Reference(maxArticle);
      afterSync := true;
    }

    method SyncPoint()
      modifies this
      ensures View() == old(View()).AtSync()
    {
      afterSync := true;
    }

    method CompressArticle(article: seq<byte>) returns (out: seq<byte>)
      modifies this, reference
      ensures out == old(View()).WireOf(article)
      ensures View() == old(View()).Sent(article)
    {
      reference.Resize(|article|);
      var mode := if afterSync then Literal else ModeOf(compression);
      out := Compress.Compress(mode, article, reference.buf);
      assert Overwrite(reference.buf, article) == Overwrite(old(reference.buf), article);
      reference.Update(article);
      afterSync := false;
    }
  }

  class Decompressor {
    const reference: Reference
    const maxArticle: nat

    function View(): ReceiverState
      reads this, reference
    {
      ReceiverState(reference.buf, maxArticle)
    }

    constructor (maxArticle: nat)
      ensures fresh(reference) && View() == NewReceiver(maxArticle)
    {
      reference := new Reference(maxArticle);
      this.maxArticle := Max(maxArticle, 1);
    }

    method DecompressArticle(compressed: seq<byte>) returns (r: Result<seq<byte>, DecompressError>)
      modifies reference
      ensures r == old(View()).Decoded(compressed)
      ensures View() == if r.Ok? then old(View()).Got(r.value) else old(View())
    {
      r := Decompress(compressed, reference.buf, maxArticle);
      if r.Ok? {
        reference.Update(r.value);
      }
    }
  }

  // ---- runs ----

  /** What a sending loop does with its compressor: an article; an article before which a
      synchronisation point is placed (it is compressed, then compressed again after the point);
      a rewind, which only marks a synchronisation point. */
  datatype Op = Send(article: seq<byte>) | SendAtSync(article: seq<byte>) | Rewind

  function After(s: SenderState, op: Op): SenderState {
    match op
    case Send(a) => s.Sent(a)
    case SendAtSync(a) => s.Sent(a).AtSync().Sent(a)
    case Rewind => s.AtSync()
  }

  /** The wire form handed to the packer, if the operation sends one. */
  function WireFor(s: SenderState, op: Op): Option<seq<byte>> {
    match op
    case Send(a) => Some(s.WireOf(a))
    case SendAtSync(a) => Some(s.Sent(a).AtSync().WireOf(a))
    case Rewind => None
  }

  /** Every article of the run comes out of the receiver as it went in. */
  ghost predicate AllArrive(s: SenderState, r: ReceiverState, ops: seq<Op>)
    decreases |ops|
  {
    ops == [] ||
    (if ops[0].Rewind? then AllArrive(After(s, ops[0]), r, ops[1..])
     else
       && r.Decoded(WireFor(s, ops[0]).value) == Ok(ops[0].article)
       && AllArrive(After(s, ops[0]), r.Got(ops[0].article), ops[1..]))
  }

  function FinalSender(s: SenderState, ops: seq<Op>): SenderState
    decreases |ops|
  {
    if ops == [] then s else FinalSender(After(s, ops[0]), ops[1..])
  }

  function FinalReceiver(r: ReceiverState, ops: seq<Op>): ReceiverState
    decreases |ops|
  {
    if ops == [] then r
    else FinalReceiver(if ops[0].Rewind? then r else r.Got(ops[0].article), ops[1..])
  }

  predicate Within(ops: seq<Op>, max: nat)
  {
    forall i :: 0 <= i < |ops| && !ops[i].Rewind? ==> |ops[i].article| <= max
  }

  lemma WithinSplit(ops: seq<Op>, max: nat)
    requires ops != []
    ensures Within(ops, max) <==> (!ops[0].Rewind? ==> |ops[0].article| <= max) && Within(ops[1..], max)
  {
    if Within(ops[1..], max) && (!ops[0].Rewind? ==> |ops[0].article| <= max) {
      forall i | 0 <= i < |ops| && !ops[i].Rewind? ensures |ops[i].article| <= max {
        assert i > 0 ==> ops[i] == ops[1..][i - 1];
      }
    }
  }

  /** Built alike, the two ends never drift apart: wherever the synchronisation points fall, every article arrives
      if and only if all are within the receiver's limit, and then the references stay equal. */
  lemma {:induction false} Lockstep(s: SenderState, r: ReceiverState, ops: seq<Op>)
    requires s.reference == r.reference && |s.reference| == r.maxArticle
    ensures AllArrive(s, r, ops) <==> Within(ops, r.maxArticle)
    ensures Within(ops, r.maxArticle) ==> FinalSender(s, ops).reference == FinalReceiver(r, ops).reference
    decreases |ops|
  {
    if ops != [] {
      hide Within, Decode, Wire;
      var op := ops[0];
      WithinSplit(ops, r.maxArticle);
      if op.Rewind? {
        Lockstep(After(s, op), r, ops[1..]);
      } else {
        var a := op.article;
        DecodedWithin(WireFor(s, op).value, r.reference, r.maxArticle, []);
        if |a| <= r.maxArticle {
          TwiceIsOnce(s.reference, a);
          RoundTrip(s.Mode(), a, r.reference, r.maxArticle);
          CrossReference(Literal, a, Overwrite(s.reference, a), r.reference, r.maxArticle);
          Lockstep(After(s, op), r.Got(a), ops[1..]);
        }
      }
    } else {
      assert Within(ops, r.maxArticle);
    }
  }

  /** The first article of two ends built for articles of `max` octets arrives if and only if it has no more, or,
      without a limit, one octet at most. */
  lemma FirstArticle(c: Compression, max: nat, a: seq<byte>)
    ensures NewReceiver(max).Decoded(NewSender(c, max).WireOf(a)) == Ok(a) <==> |a| <= Max(max, 1)
  {
    hide Decode, Wire;
    var s, r := NewSender(c, max), NewReceiver(max);
    DecodedWithin(s.WireOf(a), r.reference, r.maxArticle, []);
    if |a| <= Max(max, 1) {
      RoundTrip(Literal, a, r.reference, r.maxArticle);
    }
  }

  /** An article length of 0 admits no article of two octets once compression is on. */
  lemma NoLimitIsOneOctet(c: Compression, x: byte, y: byte)
    ensures NewReceiver(0).Decoded(NewSender(c, 0).WireOf([x, y])) == Err(TooLong(1))
  {
    var s, a, r := NewSender(c, 0), [x, y], NewReceiver(0);
    var grown := Grow(s.reference, 2);
    assert Strings(Literal, a, grown) == [Lit(a)] by {
      assert a[..2] == a && a[2..] == [];
      assert [Lit(a)] + [] == [Lit(a)];
    }
    assert s.WireOf(a) == Emit([Lit(a)]);
    assert Emit([Lit(a)])[0] == 2;
  }

  lemma TwiceIsOnce(buf: seq<byte>, a: seq<byte>)
    ensures Overwrite(Overwrite(buf, a), a) == Overwrite(buf, a)
    ensures |a| <= |buf| ==> Grow(buf, |a|) == buf
    ensures Grow(Overwrite(buf, a), |a|) == Overwrite(buf, a)
  {
    var o := Overwrite(buf, a);
    assert Overwrite(o, a) == o;
  }

  /** After a synchronisation point (`atSync`), an article that may be coded against the reference is
      no longer than the longest one sent since (`longest`). */
  predicate Covered(c: Compression, ops: seq<Op>, longest: nat, atSync: bool)
    decreases |ops|
  {
    ops == [] ||
    match ops[0]
    case Send(a) =>
      && (UsesReference(ModeOf(c)) && !atSync ==> |a| <= longest)
      && Covered(c, ops[1..], Max(longest, |a|), false)
    case SendAtSync(a) => Covered(c, ops[1..], Max(longest, |a|), false)
    case Rewind => Covered(c, ops[1..], longest, true)
  }

  predicate Agree(x: seq<byte>, y: seq<byte>, n: nat)
  {
    n <= |x| && n <= |y| && x[..n] == y[..n]
  }

  /** From two different references, every covered article after a synchronisation point arrives:
      the literal article realigns as much of the references as it is long. */
  lemma {:induction false} Realign(s: SenderState, r: ReceiverState, ops: seq<Op>, longest: nat)
    requires |s.reference| == |r.reference| == r.maxArticle
    requires Agree(s.reference, r.reference, longest)
    requires Within(ops, r.maxArticle) && Covered(s.compression, ops, longest, s.afterSync)
    ensures AllArrive(s, r, ops)
    decreases |ops|
  {
    if ops != [] {
      var op := ops[0];
      assert Within(ops[1..], r.maxArticle);
      if op.Rewind? {
        Realign(After(s, op), r, ops[1..], longest);
      } else {
        var a := op.article;
        TwiceIsOnce(s.reference, a);
        CrossReference(Literal, a, Overwrite(s.reference, a), r.reference, r.maxArticle);
        AgreeAfter(s.reference, r.reference, longest, a);
        if op.Send? {
          AgreeDecodes(s, r, a, longest);
        }
        Realign(After(s, op), r.Got(a), ops[1..], Max(longest, |a|));
      }
    }
  }

  lemma AgreeAfter(x: seq<byte>, y: seq<byte>, n: nat, a: seq<byte>)
    requires Agree(x, y, n) && |x| == |y| && |a| <= |x|
    ensures Agree(Overwrite(x, a), Overwrite(y, a), Max(n, |a|))
  {
    var u, v, m := Overwrite(x, a), Overwrite(y, a), Max(n, |a|);
    forall i | 0 <= i < m ensures u[i] == v[i] {
      if i < |a| {
        assert u[i] == u[..|a|][i] && v[i] == v[..|a|][i];
      } else {
        assert x[..n][i] == y[..n][i];
      }
    }
  }

  lemma AgreeDecodes(s: SenderState, r: ReceiverState, a: seq<byte>, n: nat)
    requires |s.reference| == |r.reference| == r.maxArticle && |a| <= r.maxArticle
    requires Agree(s.reference, r.reference, n)
    requires UsesReference(s.Mode()) ==> |a| <= n
    ensures r.Decoded(s.WireOf(a)) == Ok(a)
  {
    OtherReference(s.Mode(), a, s.reference, r.reference, r.maxArticle);
    if UsesReference(s.Mode()) {
      forall i | 0 <= i < |a| ensures s.reference[i] == r.reference[i] {
        assert s.reference[..n][i] == r.reference[..n][i];
      }
    }
  }

  /** Vertical coding after a rewind, with references that drifted apart beyond a short first
      article: the next, longer article comes out wrong although both ends carry on. */
  lemma LongerArticleMayBeWrong()
    ensures var s := SenderState(VerticalOnly, [9, 7], true);
      var r := ReceiverState([9, 5], 2);
      && r.Decoded(s.WireOf([9])) == Ok([9])
      && r.Got([9]).Decoded(s.Sent([9]).WireOf([9, 7])) == Ok([9, 5])
  {
    hide Decode, Wire, Blend;
    var s, r := SenderState(VerticalOnly, [9, 7], true), ReceiverState([9, 5], 2);
    CrossReference(Literal, [9], [9, 7], [9, 5], 2);
    assert s.Sent([9]).reference == [9, 7] && r.Got([9]).reference == [9, 5];
    CrossReference(Vertical, [9, 7], [9, 7], [9, 5], 2);
    SecondOctetBlends();
  }

  /** The wire form of an article depends on where an attempt began: two ends restarted behind a first article stay in
      step, but need three octets for what takes one in a transfer from the beginning, so that the points of the two
      attempts need not fall at the same articles. */
  lemma RestartChangesLengths()
    ensures var whole := NewSender(VerticalOnly, 2).Sent([7, 7]).Sent([7]);
      var restarted := NewSender(VerticalOnly, 2).Sent([7]);
      |whole.WireOf([7, 7])| == 1 && |restarted.WireOf([7, 7])| == 3
  {
    hide Wire, Emit, VertStrings, Overwrite, Repeat;
    TwoReferences();
    TwiceIsOnce([7, 7], [7, 7]);
    TwiceIsOnce([7, 0], [7, 7]);
    OneChunk([7, 7], [7, 7]);
    OneChunk([7, 7], [7, 0]);
    MatchingStrings();
    DifferingStrings();
    EmittedLengths();
  }

  lemma TwoReferences()
    ensures NewSender(VerticalOnly, 2).Sent([7, 7]).Sent([7]) == SenderState(VerticalOnly, [7, 7], false)
    ensures NewSender(VerticalOnly, 2).Sent([7]) == SenderState(VerticalOnly, [7, 0], false)
  {
    var zeros: seq<byte> := Repeat(2, 0);
    assert zeros == [0, 0];
    assert Overwrite(zeros, [7, 7]) == [7, 7] && Overwrite([7, 7], [7]) == [7, 7] && Overwrite(zeros, [7]) == [7, 0];
  }

  lemma OneChunk(a: seq<byte>, r: seq<byte>)
    requires 1 <= |a| == |r| <= CHUNK
    ensures Wire(Vertical, a, r) == Emit(VertStrings(a, r, false))
  {
    hide VertStrings, Emit;
    assert a[..|a|] == a && r[..|r|] == r && a[|a|..] == [] && r[|r|..] == [];
    assert Strings(Vertical, a[|a|..], r[|r|..]) == [];
    assert VertStrings(a, r, false) + [] == VertStrings(a, r, false);
  }

  lemma MatchingStrings()
    ensures VertStrings([7, 7], [7, 7], false) == [Same(2)]
  {
    PrefixIsUniform([7, 7], [7, 7], true);
    assert Stretch([7, 7], [7, 7]) == 2 by {
      assert [7, 7][1] == 7;
    }
  }

  lemma DifferingStrings()
    ensures VertStrings([7, 7], [7, 0], false) == [Same(1), Lit([7])]
  {
    PrefixIsUniform([7, 7], [7, 0], true);
    PrefixIsUniform([7], [0], false);
    var a, r: seq<byte> := [7, 7], [7, 0];
    assert a[1..] == [7] && r[1..] == [0];
    assert VertStrings([7], [0], false) == [Lit([7])] by {
      assert Stretch([7], [0]) == 1;
      assert [7][..1] == [7];
    }
  }

  lemma EmittedLengths()
    ensures |Emit([Same(2)])| == 1 && |Emit([Same(1), Lit([7])])| == 3
  {
    assert [Same(1), Lit([7])][..1] == [Same(1)];
  }

  lemma SecondOctetBlends()
    ensures Blend([9, 7], [9, 7], [9, 5], 0) == [9, 5]
  {
    hide Blend;
    BlendAt([9, 7], [9, 7], [9, 5], 0, 0);
    BlendAt([9, 7], [9, 7], [9, 5], 0, 1);
  }
}
