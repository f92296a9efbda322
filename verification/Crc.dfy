/** The ISO 8073 (transport class 4) checksum over one FPDU, check bytes at the end. */
module Crc {
  import opened Bytes

  const CRC_LEN: nat := 2

  /** Plain sum of the octets. */
  function Sum1(s: seq<byte>): (n: nat)
  {
    if s == [] then 0 else Sum1(s[..|s| - 1]) + s[|s| - 1]
  }

  /** Sum of the prefix sums: octet `i` weighs `|s| - i`. */
  function Sum2(s: seq<byte>): (n: nat)
  {
    if s == [] then 0 else Sum2(s[..|s| - 1]) + Sum1(s)
  }

  lemma SumsSnoc(s: seq<byte>, b: byte)
    ensures Sum1(s + [b]) == Sum1(s) + b
    ensures Sum2(s + [b]) == Sum2(s) + Sum1(s) + b
  {
    assert (s + [b])[..|s|] == s;
  }

  lemma SumsAt(s: seq<byte>, i: nat)
    requires i < |s|
    ensures Sum1(s[..i + 1]) == Sum1(s[..i]) + s[i]
    ensures Sum2(s[..i + 1]) == Sum2(s[..i]) + Sum1(s[..i + 1])
  {
    assert s[..i + 1] == s[..i] + [s[i]];
    SumsSnoc(s[..i], s[i]);
  }

  lemma AddResidues(x: int, y: int)
    ensures (x % 255 + y) % 255 == (x + y) % 255
    ensures (x % 255 + y % 255) % 255 == (x + y) % 255
  {
  }

  /** The running sums, each reduced modulo 255 at every octet. */
  method Sums(bytes: seq<byte>) returns (s1: nat, s2: nat)
    ensures s1 == Sum1(bytes) % 255 && s2 == Sum2(bytes) % 255
  {
    s1, s2 := 0, 0;
    for i := 0 to |bytes|
      invariant s1 == Sum1(bytes[..i]) % 255
      invariant s2 == Sum2(bytes[..i]) % 255
    {
      SumsAt(bytes, i);
      AddResidues(Sum1(bytes[..i]), bytes[i]);
      AddResidues(Sum2(bytes[..i]), Sum1(bytes[..i + 1]));
      s1 := (s1 + bytes[i]) % 255;
      s2 := (s2 + s1) % 255;
    }
    assert bytes[..|bytes|] == bytes;
  }

  /** The two check bytes of an FPDU. */
  function Check(fpdu: seq<byte>): (c: seq<byte>)
    ensures |c| == 2 && c[0] < 255 && c[1] < 255
  {
    var s1 := Sum1(fpdu + [0, 0]) % 255;
    var s2 := Sum2(fpdu + [0, 0]) % 255;
    [(s1 + 255 - s2) % 255, (s2 + 2 * (255 - s1)) % 255]
  }

  /** An FPDU followed by its check bytes is intact when both sums vanish modulo 255. */
  predicate Intact(withCrc: seq<byte>)
  {
    |withCrc| >= CRC_LEN && Sum1(withCrc) % 255 == 0 && Sum2(withCrc) % 255 == 0
  }

  method Compute(fpdu: seq<byte>) returns (c: seq<byte>)
    ensures c == Check(fpdu)
  {
    var s1, s2 := Sums(fpdu + [0, 0]);
    c := [(s1 + 255 - s2) % 255, (s2 + 2 * (255 - s1)) % 255];
  }

  method Verify(withCrc: seq<byte>) returns (ok: bool)
    ensures ok == Intact(withCrc)
  {
    if |withCrc| < CRC_LEN {
      return false;
    }
    var s1, s2 := Sums(withCrc);
    ok := s1 == 0 && s2 == 0;
  }

  function Append(fpdu: seq<byte>): (r: seq<byte>)
    ensures |r| == |fpdu| + CRC_LEN
  {
    fpdu + Check(fpdu)
  }

  /** Effect on both sums of one octet changed by `d`, at weight `w`. */
  lemma {:induction false} SumsUpdate(m: seq<byte>, i: nat, b: byte, w: int, d: int)
    requires i < |m| && w == |m| - i && d == b - m[i]
    ensures Sum1(m[i := b]) == Sum1(m) + d
    ensures Sum2(m[i := b]) == Sum2(m) + w * d
  {
    var n := |m| - 1;
    var u, last := m[..n], m[n];
    assert m == u + [last];
    SumsSnoc(u, last);
    if i == n {
      assert m[i := b] == u + [b];
      SumsSnoc(u, b);
    } else {
      SumsUpdate(u, i, b, w - 1, d);
      assert m[i := b] == u[i := b] + [last];
      SumsSnoc(u[i := b], last);
      OneMore(w - 1, d);
    }
  }

  lemma OneMore(k: int, d: int)
    ensures (k + 1) * d == k * d + d
  {
  }

  lemma SumsTwo(s: seq<byte>, x: byte, y: byte)
    ensures Sum1(s + [x, y]) == Sum1(s) + x + y
    ensures Sum2(s + [x, y]) == Sum2(s) + 2 * Sum1(s) + 2 * x + y
  {
    assert s + [x, y] == (s + [x]) + [y];
    SumsSnoc(s, x);
    SumsSnoc(s + [x], y);
  }

  /** The check bytes make both sums vanish. */
  lemma Vanish(s1: nat, s2: nat, c0: nat, c1: nat)
    requires c0 == (s1 % 255 + 255 - s2 % 255) % 255
    requires c1 == (s2 % 255 + 2 * (255 - s1 % 255)) % 255
    ensures (s1 + c0 + c1) % 255 == 0
    ensures (s2 + 2 * c0 + c1) % 255 == 0
  {
    var a, b := s1 % 255, s2 % 255;
    assert exists k: int :: c0 == a - b + 255 * k by {
      assert c0 == a - b + 255 * (if a < b then 1 else 0);
    }
    assert exists k: int :: c1 == b - 2 * a + 255 * k by {
      var q := (b + 2 * (255 - a)) / 255;
      assert c1 == b - 2 * a + 255 * (2 - q);
    }
  }

  /** Every message with its check bytes behind it is accepted. */
  lemma AppendIsIntact(m: seq<byte>)
    ensures Intact(Append(m))
  {
    var c := Check(m);
    SumsTwo(m, 0, 0);
    SumsTwo(m, c[0], c[1]);
    Vanish(Sum1(m), Sum2(m) + 2 * Sum1(m), c[0], c[1]);
    assert m + c == m + [c[0], c[1]];
  }

  lemma Unnoticed(d: int, w: int)
    requires -255 <= d <= 255
    ensures (d % 255 == 0 && (w * d) % 255 == 0) <==> (d == 0 || d == 255 || d == -255)
  {
    if d == 255 {
      assert w * d == 255 * w;
    } else if d == -255 {
      assert w * d == 255 * -w;
    }
  }

  /** Changing one octet goes unnoticed exactly when the two values agree modulo 255 (0x00 and 0xFF). */
  lemma SingleByteChange(m: seq<byte>, i: nat, b: byte)
    requires Intact(m) && i < |m|
    ensures Intact(m[i := b]) <==> (b == m[i] || {b, m[i]} == {0, 255})
  {
    var d, w := b - m[i], |m| - i;
    assert Intact(m[i := b]) <==> d % 255 == 0 && (w * d) % 255 == 0 by {
      SumsUpdate(m, i, b, w, d);
      AddMultiple(Sum1(m), d);
      AddMultiple(Sum2(m), w * d);
    }
    Unnoticed(d, w);
    ZeroOrAllOnes(b, m[i]);
  }

  lemma ZeroOrAllOnes(a: byte, b: byte)
    ensures {a, b} == {0, 255} <==> (a - b == 255 || a - b == -255)
  {
    if {a, b} == {0, 255} {
      assert a in {0, 255} && b in {0, 255} && 0 in {a, b} && 255 in {a, b};
    }
  }

  /** The octets at `i` and `j` exchanged. */
  function Swapped(m: seq<byte>, i: nat, j: nat): (r: seq<byte>)
    requires i < |m| && j < |m|
    ensures |r| == |m|
  {
    m[i := m[j]][j := m[i]]
  }

  lemma SwapSums(m: seq<byte>, i: nat, j: nat, u: int, v: int, d: int)
    requires i < j < |m| && u == |m| - i && v == |m| - j && d == m[j] as int - m[i]
    ensures Sum1(Swapped(m, i, j)) == Sum1(m)
    ensures Sum2(Swapped(m, i, j)) == Sum2(m) + u * d + v * -d
  {
    hide Sum1, Sum2;
    SumsUpdate(m, i, m[j], u, d);
    SumsUpdate(m[i := m[j]], j, m[i], v, -d);
  }

  lemma WeightDifference(u: int, v: int, w: int, d: int)
    requires u == v + w
    ensures u * d + v * -d == w * d
  {
  }

  lemma AddMultiple(x: int, k: int)
    requires x % 255 == 0
    ensures (x + k) % 255 == 0 <==> k % 255 == 0
  {
  }

  /** Exchanging two octets goes unnoticed exactly when 255 divides their difference times their
      distance. */
  lemma Swap(m: seq<byte>, i: nat, j: nat)
    requires Intact(m) && i < j < |m|
    ensures Intact(Swapped(m, i, j)) <==> ((j - i) * (m[j] as int - m[i])) % 255 == 0
  {
    var u, v, d := |m| - i, |m| - j, m[j] as int - m[i];
    SwapSums(m, i, j, u, v, d);
    WeightDifference(u, v, j - i, d);
    AddMultiple(Sum2(m), (j - i) * d);
  }

  /** Exchanging neighbours goes unnoticed exactly when they agree modulo 255. */
  lemma NeighbourSwap(m: seq<byte>, i: nat)
    requires Intact(m) && i + 1 < |m|
    ensures Intact(Swapped(m, i, i + 1)) <==> (m[i] == m[i + 1] || {m[i], m[i + 1]} == {0, 255})
  {
    Swap(m, i, i + 1);
    ZeroOrAllOnes(m[i], m[i + 1]);
  }

  /** Conditional subtraction is reduction of a sum of two residues. */
  lemma Subtracted(x: int, y: int)
    ensures 0 <= x % 255 + y % 255 < 510
    ensures (x + y) % 255 == if x % 255 + y % 255 > 0xFE then x % 255 + y % 255 - 0xFF else x % 255 + y % 255
  {
  }

  method SumsBySubtraction(buf: seq<byte>) returns (s1: nat, s2: nat)
    ensures s1 < 255 && s1 == Sum1(buf) % 255
    ensures s2 < 255 && s2 == Sum2(buf) % 255
  {
    s1, s2 := 0, 0;
    for i := 0 to |buf|
      invariant s1 < 255 && s1 == Sum1(buf[..i]) % 255
      invariant s2 < 255 && s2 == Sum2(buf[..i]) % 255
    {
      ghost var sum1, sum2 := Sum1(buf[..i]), Sum2(buf[..i]);
      s1 := AddOctet(s1, buf[i], sum1);
      s2 := AddResidue(s2, s1, sum2, sum1 + buf[i]);
      SumsAt(buf, i);
    }
    assert buf[..|buf|] == buf;
  }

  method AddOctet(s: nat, b: byte, ghost sum: nat) returns (r: nat)
    requires s == sum % 255
    ensures r < 255 && r == (sum + b) % 255
  {
    r := s + b;
    if r > 0xFE {
      r := r - 0xFF;
    }
    if b == 255 {
      assert r == s && (sum + 255) % 255 == sum % 255;
    } else {
      assert b % 255 == b;
      Subtracted(sum, b);
    }
  }

  method AddResidue(s: nat, t: nat, ghost sum: nat, ghost more: nat) returns (r: nat)
    requires s == sum % 255 && t == more % 255
    ensures r < 255 && r == (sum + more) % 255
  {
    Subtracted(sum, more);
    r := s + t;
    if r > 0xFE {
      r := r - 0xFF;
    }
  }

  /** The Connect:Express form of the checksum: 16-bit sums reduced by conditional subtraction and
      check bytes taken by wrapping subtraction with an end-around borrow. */
  method ConnectExpress(msg: seq<byte>) returns (c: seq<byte>)
    ensures c == Check(msg)
  {
    var s1, s2 := SumsBySubtraction(msg + [0, 0]);
    var c0 := EndAroundBorrow(s1, s2);
    var c1 := EndAroundBorrow(s2, (2 * s1) % 255);
    DoubledBorrow(s1, s2);
    c := [c0, c1];
  }

  function WrappingSub8(x: byte, y: byte): (r: byte)
    ensures (r + y - x) % 256 == 0
  {
    (x - y) % 256
  }

  /** The difference of two octets when it is not negative, else its low octet less one. */
  function EndAroundBorrow(p: nat, q: nat): (r: byte)
    requires p < 255 && q < 255
    ensures r == (p + 255 - q) % 255
  {
    if p >= q then p - q else WrappingSub8((p - q + 0x10000) % 256, 1)
  }

  lemma DoubledBorrow(s1: nat, s2: nat)
    requires s1 < 255 && s2 < 255
    ensures (s2 + 255 - (2 * s1) % 255) % 255 == (s2 + 2 * (255 - s1)) % 255
  {
  }
}
