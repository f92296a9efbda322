/** Octets, big-endian 16-bit fields and the result types shared by every module. */
module Bytes {
  type byte = b: int | 0 <= b < 256

  datatype Option<+T> = None | Some(value: T)

  datatype Result<+T, +E> = Ok(value: T) | Err(error: E)

  /** A length in two octets, the high one first. */
  function Be16(n: nat): (r: seq<byte>)
    requires n < 0x10000
    ensures |r| == 2 && ReadBe16(r[0], r[1]) == n
  {
    [n / 256, n % 256]
  }

  /** The length that two octets stand for, the high one first. */
  function ReadBe16(hi: byte, lo: byte): (n: nat)
    ensures n < 0x10000
    ensures n / 256 == hi && n % 256 == lo
  {
    hi * 256 + lo
  }

  function Repeat<T>(n: nat, x: T): (s: seq<T>)
    ensures |s| == n
    ensures forall i :: 0 <= i < n ==> s[i] == x
  {
    if n == 0 then [] else [x] + Repeat(n - 1, x)
  }

  lemma Assoc<T>(a: seq<T>, b: seq<T>, c: seq<T>)
    ensures (a + b) + c == a + (b + c)
  {
  }

  lemma Window<T>(s: seq<T>, pos: nat, n: nat)
    requires pos + n <= |s|
    ensures s[pos..][..n] == s[pos..pos + n] && s[pos..][n..] == s[pos + n..]
  {
  }

  lemma Sandwich<T>(a: seq<T>, b: seq<T>, c: seq<T>)
    ensures (a + b + c)[..|a|] == a
    ensures (a + b + c)[|a|..|a| + |b|] == b
    ensures (a + b + c)[|a| + |b|..] == c
  {
  }

  function Flatten<T>(ss: seq<seq<T>>): (s: seq<T>)
  {
    if ss == [] then [] else ss[0] + Flatten(ss[1..])
  }

  lemma {:induction false} FlattenAppend<T>(xs: seq<seq<T>>, ys: seq<seq<T>>)
    ensures Flatten(xs + ys) == Flatten(xs) + Flatten(ys)
  {
    if xs == [] {
      assert xs + ys == ys;
    } else {
      assert (xs + ys)[1..] == xs[1..] + ys;
      FlattenAppend(xs[1..], ys);
      Assoc(xs[0], Flatten(xs[1..]), Flatten(ys));
    }
  }

  lemma FlattenOne<T>(x: seq<T>)
    ensures Flatten([x]) == x
  {
    assert [x][1..] == [];
  }

  lemma {:induction false} FlattenSnoc<T>(xs: seq<seq<T>>, y: seq<T>)
    ensures Flatten(xs + [y]) == Flatten(xs) + y
  {
    FlattenAppend(xs, [y]);
    FlattenOne(y);
  }
}
