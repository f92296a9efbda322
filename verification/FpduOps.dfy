/** The loops behind FPDU values: canonical parameter lists, encoding, decoding, numbers. */
module FpduOps {
  import opened Bytes
  import opened Fpdu
  import opened Codec

  // ---- numbers ----

  /** Minimal big-endian form, at least one octet. */
  function EncodeNum(n: nat): (r: seq<byte>)
    ensures r != [] && (|r| > 1 ==> r[0] != 0)
    decreases n
  {
    if n < 256 then [n] else EncodeNum(n / 256) + [n % 256]
  }

  const TWO64: nat := 0x1_0000_0000_0000_0000

  /** Big-endian value of the last eight octets: the accumulator is 64 bits wide. */
  function DecodeNum(b: seq<byte>): nat
  {
    if b == [] then 0 else (DecodeNum(b[..|b| - 1]) * 256) % TWO64 + b[|b| - 1]
  }

  lemma {:induction false} NumRoundTrip(n: nat)
    requires n < TWO64
    ensures DecodeNum(EncodeNum(n)) == n
    decreases n
  {
    var e := EncodeNum(n);
    if n < 256 {
      assert e[..|e| - 1] == [];
    } else {
      NumRoundTrip(n / 256);
      assert e[..|e| - 1] == EncodeNum(n / 256);
    }
  }

  /** The high octet comes first. */
  lemma NumOrder(hi: byte, lo: byte)
    ensures DecodeNum([hi, lo]) == 256 * hi + lo && (hi > 0 ==> EncodeNum(256 * hi + lo) == [hi, lo])
  {
    assert [hi, lo][..1] == [hi] && [hi][..0] == [];
    assert DecodeNum([hi]) == hi;
  }

  function Power256(k: nat): nat { if k == 0 then 1 else 256 * Power256(k - 1) }

  /** A number takes at most `k` octets exactly when it is below 256 to the `k`. */
  lemma {:induction false} NumLength(n: nat, k: nat)
    requires k >= 1
    ensures |EncodeNum(n)| <= k <==> n < Power256(k)
    decreases n
  {
    if n < 256 {
      PowerAtLeast(k);
    } else if k == 1 {
      assert Power256(1) == 256 * Power256(0);
    } else {
      NumLength(n / 256, k - 1);
    }
  }

  lemma {:induction false} PowerAtLeast(k: nat)
    requires k >= 1
    ensures Power256(k) >= 256
  {
    if k > 1 {
      PowerAtLeast(k - 1);
    } else {
      assert Power256(1) == 256 * Power256(0);
    }
  }

  // ---- canonical parameter lists ----

  /** Insertion by code, behind items of the same code. */
  function InsertItem(items: seq<Item>, x: Item): seq<Item>
  {
    if items == [] || items[|items| - 1].pi <= x.pi then items + [x]
    else InsertItem(items[..|items| - 1], x) + [items[|items| - 1]]
  }

  function SortItems(items: seq<Item>): seq<Item>
  {
    if items == [] then [] else InsertItem(SortItems(items[..|items| - 1]), items[|items| - 1])
  }

  predicate Sorted(items: seq<Item>)
  {
    forall i, j :: 0 <= i < j < |items| ==> items[i].pi <= items[j].pi
  }

  lemma {:induction false} InsertKeeps(items: seq<Item>, x: Item)
    ensures multiset(InsertItem(items, x)) == multiset(items) + multiset{x}
  {
    if items != [] && items[|items| - 1].pi > x.pi {
      var init, last := items[..|items| - 1], items[|items| - 1];
      assert items == init + [last];
      InsertKeeps(init, x);
    }
  }

  lemma {:induction false} InsertSorted(items: seq<Item>, x: Item)
    requires Sorted(items)
    ensures Sorted(InsertItem(items, x))
  {
    if items != [] && items[|items| - 1].pi > x.pi {
      var init, last := items[..|items| - 1], items[|items| - 1];
      InsertSorted(init, x);
      InsertKeeps(init, x);
      var inner := InsertItem(init, x);
      forall i | 0 <= i < |inner| ensures inner[i].pi <= last.pi {
        assert inner[i] in multiset(inner);
        if inner[i] != x {
          assert inner[i] in init;
        }
      }
    }
  }

  lemma {:induction false} SortSorts(items: seq<Item>)
    ensures Sorted(SortItems(items)) && multiset(SortItems(items)) == multiset(items)
  {
    if items != [] {
      var init, last := items[..|items| - 1], items[|items| - 1];
      assert items == init + [last];
      SortSorts(init);
      InsertSorted(SortItems(init), last);
      InsertKeeps(SortItems(init), last);
    }
  }

  lemma Replaced(params: seq<Param>, at: nat, p: Param)
    requires Ascending(params) && at < |params| && params[at].Code() == p.Code()
    ensures Ascending(params[at := p])
    ensures forall q :: q in params[at := p] <==> q == p || (q in params && q.Code() != p.Code())
  {
    var now := params[at := p];
    forall q ensures q in now <==> q == p || (q in params && q.Code() != p.Code()) {
      if q in params && q.Code() != p.Code() {
        var i :| 0 <= i < |params| && params[i] == q;
        assert now[i] == q;
      }
      assert now[at] == p;
    }
  }

  lemma InsertedAt<T>(s: seq<T>, at: nat, x: T, i: nat)
    requires at <= |s| && i <= |s|
    ensures |s[..at] + [x] + s[at..]| == |s| + 1
    ensures (s[..at] + [x] + s[at..])[i] == if i < at then s[i] else if i == at then x else s[i - 1]
  {
  }

  lemma Inserted(params: seq<Param>, at: nat, p: Param)
    requires Ascending(params) && at <= |params|
    requires forall i :: 0 <= i < at ==> params[i].Code() < p.Code()
    requires forall i :: at <= i < |params| ==> params[i].Code() > p.Code()
    ensures Ascending(params[..at] + [p] + params[at..])
    ensures forall q :: q in params[..at] + [p] + params[at..] <==> q == p || (q in params && q.Code() != p.Code())
  {
    var now := params[..at] + [p] + params[at..];
    assert |now| == |params| + 1;
    forall i, j | 0 <= i < j < |now| ensures now[i].Code() < now[j].Code() {
      InsertedAt(params, at, p, i);
      InsertedAt(params, at, p, j);
    }
    forall q ensures q in now <==> q == p || (q in params && q.Code() != p.Code()) {
      InsertedMembers(params, at, p, q);
    }
  }

  lemma InsertedMembers(params: seq<Param>, at: nat, p: Param, q: Param)
    requires at <= |params|
    requires forall i :: 0 <= i < |params| ==> params[i].Code() != p.Code()
    ensures q in params[..at] + [p] + params[at..] <==> q == p || (q in params && q.Code() != p.Code())
  {
    assert q in params <==> q in params[..at] || q in params[at..] by {
      assert params == params[..at] + params[at..];
    }
  }

  class FpduDraft {
    var kind: FpduKind
    var idDst: byte
    var idSrc: byte
    var params: seq<Param>
    var data: seq<byte>

    function View(): Fpdu
      reads this
    {
      Fpdu(kind, idDst, idSrc, params, data)
    }

    constructor (kind: FpduKind)
      ensures View() == Fpdu(kind, 0, 0, [], [])
    {
      this.kind := kind;
      idDst, idSrc, params, data := 0, 0, [], [];
    }

    /** Position of a code in the canonical list, or where it belongs. */
    method Search(code: byte) returns (found: bool, at: nat)
      requires Ascending(params)
      ensures at <= |params|
      ensures found ==> at < |params| && params[at].Code() == code
      ensures forall i :: 0 <= i < at ==> params[i].Code() < code
      ensures forall i :: at <= i < |params| ==> params[i].Code() > code || (found && i == at)
    {
      var lo, hi := 0, |params|;
      while lo < hi
        invariant 0 <= lo <= hi <= |params|
        invariant forall i :: 0 <= i < lo ==> params[i].Code() < code
        invariant forall i :: hi <= i < |params| ==> params[i].Code() > code
      {
        var mid := (lo + hi) / 2;
        var c := params[mid].Code();
        if c < code {
          lo := mid + 1;
        } else if c > code {
          hi := mid;
        } else {
          return true, mid;
        }
      }
      return false, lo;
    }

    method Put(p: Param)
      requires Ascending(params)
      modifies `params
      ensures Ascending(params)
      ensures forall q :: q in params <==> q == p || (q in old(params) && q.Code() != p.Code())
    {
      var found, at := Search(p.Code());
      if found {
        Replaced(params, at, p);
        params := params[at := p];
      } else {
        Inserted(params, at, p);
        params := params[..at] + [p] + params[at..];
      }
    }

    /** Insert or replace a top-level parameter; the list stays canonical and nothing else moves. */
    method Set(pi: byte, value: seq<byte>)
      requires Ascending(params)
      modifies `params
      ensures Ascending(params)
      ensures forall q :: q in params <==> q == PiParam(pi, value) || (q in old(params) && q.Code() != pi)
    {
      Put(PiParam(pi, value));
    }

    /** Insert or replace a group, its items in canonical order. */
    method SetPgi(pgi: byte, items: seq<Item>)
      requires Ascending(params)
      modifies `params
      ensures Ascending(params) && Sorted(SortItems(items)) && multiset(SortItems(items)) == multiset(items)
      ensures forall q :: q in params <==> q == PgiParam(pgi, SortItems(items)) || (q in old(params) && q.Code() != pgi)
    {
      SortSorts(items);
      Put(PgiParam(pgi, SortItems(items)));
    }
  }

  // ---- encoding ----

  method PushUnit(out: seq<byte>, code: byte, value: seq<byte>) returns (res: seq<byte>)
    ensures res == out + Unit(code, value)
  {
    var n := |value|;
    res := out + [code];
    if n < 255 {
      res := res + [n];
    } else {
      res := res + [0xFF];
      res := res + Be16(if n < 0x10000 then n else n % 0x10000);
    }
    assert res == out + ([code] + LengthOctets(n));
    Assoc(out, [code] + LengthOctets(n), value);
    res := res + value;
  }

  function Following<T, E>(prefix: seq<T>, r: Result<seq<T>, E>): Result<seq<T>, E>
  {
    match r
    case Err(e) => Err(e)
    case Ok(rest) => Ok(prefix + rest)
  }

  lemma FollowingNothing<T, E>(r: Result<seq<T>, E>)
    ensures Following([], r) == r
  {
    if r.Ok? {
      assert [] + r.value == r.value;
    }
  }

  lemma FollowingAssoc<T, E>(a: seq<T>, b: seq<T>, r: Result<seq<T>, E>)
    ensures Following(a, Following(b, r)) == Following(a + b, r)
  {
    if r.Ok? {
      Assoc(a, b, r.value);
    }
  }

  method EncodeItemsInto(items: seq<Item>) returns (r: Result<seq<byte>, EncodeError>)
    ensures r == EncodeItems(items)
  {
    var inner: seq<byte> := [];
    var i := 0;
    assert items[0..] == items;
    FollowingNothing(EncodeItems(items));
    while i < |items|
      invariant 0 <= i <= |items|
      invariant Following(inner, EncodeItems(items[i..])) == EncodeItems(items)
    {
      assert items[i..][1..] == items[i + 1..];
      if items[i].value == [] {
        return Err(EmptyValue(items[i].pi));
      }
      FollowingAssoc(inner, Unit(items[i].pi, items[i].value), EncodeItems(items[i + 1..]));
      inner := PushUnit(inner, items[i].pi, items[i].value);
      i := i + 1;
    }
    assert inner + [] == inner;
    r := Ok(inner);
  }

  method EncodeParamsInto(out: seq<byte>, params: seq<Param>) returns (r: Result<seq<byte>, EncodeError>)
    ensures r == Following(out, EncodeParams(params))
  {
    var res := out;
    var i := 0;
    assert params[0..] == params;
    while i < |params|
      invariant 0 <= i <= |params|
      invariant Following(res, EncodeParams(params[i..])) == Following(out, EncodeParams(params))
    {
      assert params[i..][1..] == params[i + 1..];
      match params[i] {
        case PiParam(pi, value) =>
          if value == [] {
            return Err(EmptyValue(pi));
          }
          FollowingAssoc(res, Unit(pi, value), EncodeParams(params[i + 1..]));
          res := PushUnit(res, pi, value);
        case PgiParam(pgi, items) =>
          var inner := EncodeItemsInto(items);
          if inner.Err? {
            return Err(inner.error);
          }
          FollowingAssoc(res, Unit(pgi, inner.value), EncodeParams(params[i + 1..]));
          res := PushUnit(res, pgi, inner.value);
      }
      i := i + 1;
    }
    assert res + [] == res;
    r := Ok(res);
  }

  /** Append the encoded FPDU to `out`. */
  method EncodeInto(f: Fpdu, out: seq<byte>) returns (r: Result<seq<byte>, EncodeError>)
    ensures r == Following(out, Encode(f))
  {
    if EncodedLen(f) > MAX_FPDU_LEN {
      return Err(TooLong(EncodedLen(f)));
    }
    var res := out + Header(f);
    if f.kind.IsData() {
      Assoc(out, Header(f), f.data);
      r := Ok(res + f.data);
    } else {
      r := EncodeParamsInto(res, f.params);
      FollowingAssoc(out, Header(f), EncodeParams(f.params));
    }
  }

  // ---- decoding ----

  method DecodeItemsOf(pgi: byte, value: seq<byte>, strict: bool) returns (r: Result<seq<Item>, DecodeError>)
    ensures r == DecodeItems(pgi, value, 0, strict)
  {
    var items: seq<Item> := [];
    var pos: nat, last: byte := 0, 0;
    assert value[0..] == value;
    FollowingNothing(DecodeItems(pgi, value, 0, strict));
    while pos < |value|
      invariant pos <= |value|
      invariant Following(items, DecodeItems(pgi, value[pos..], last, strict)) == DecodeItems(pgi, value, 0, strict)
      decreases |value| - pos
    {
      var unit := ReadUnit(value[pos..]);
      if unit.Err? {
        return Err(unit.error);
      }
      var (code, v, n) := unit.value;
      if !IsPi(code) {
        return Err(InvalidParameter);
      }
      if strict {
        if code !in Members(pgi) || code <= last {
          return Err(InvalidParameter);
        }
      }
      Window(value, pos, n);
      FollowingAssoc(items, [Item(code, v)], DecodeItems(pgi, value[pos + n..], code, strict));
      last := code;
      items := items + [Item(code, v)];
      pos := pos + n;
    }
    assert items + [] == items;
    r := Ok(items);
  }

  method DecodeParamsOf(body: seq<byte>, strict: bool) returns (r: Result<seq<Param>, DecodeError>)
    ensures r == DecodeParams(body, 0, strict)
  {
    hide ReadUnit, DecodeParam;
    var params: seq<Param> := [];
    var pos: nat, last: byte := 0, 0;
    assert body[0..] == body;
    FollowingNothing(DecodeParams(body, 0, strict));
    while pos < |body|
      invariant pos <= |body|
      invariant Following(params, DecodeParams(body[pos..], last, strict)) == DecodeParams(body, 0, strict)
      decreases |body| - pos
    {
      var unit := ReadUnit(body[pos..]);
      if unit.Err? {
        return Err(unit.error);
      }
      var (code, v, n) := unit.value;
      var before := last;
      if code <= last && last > 0 {
        if strict {
          return Err(InvalidParameter);
        }
      } else {
        last := code;
      }
      assert last == if code <= before then before else code;
      var p := DecodeParamOf(code, v, strict);
      if p.Err? {
        return Err(p.error);
      }
      Window(body, pos, n);
      FollowingAssoc(params, [p.value], DecodeParams(body[pos + n..], last, strict));
      params := params + [p.value];
      pos := pos + n;
    }
    assert params + [] == params;
    r := Ok(params);
  }

  method DecodeParamOf(code: byte, value: seq<byte>, strict: bool) returns (r: Result<Param, DecodeError>)
    ensures r == DecodeParam(code, value, strict)
  {
    if IsPgi(code) {
      var items := DecodeItemsOf(code, value, strict);
      if items.Err? {
        return Err(items.error);
      }
      r := Ok(PgiParam(code, items.value));
    } else if IsPi(code) {
      r := Ok(PiParam(code, value));
    } else {
      r := Err(InvalidParameter);
    }
  }

  method DecodeWith(bytes: seq<byte>, strict: bool) returns (r: Result<Fpdu, DecodeError>)
    ensures r == Decode(bytes, strict)
  {
    if |bytes| < HEADER_LEN || ReadBe16(bytes[0], bytes[1]) != |bytes| {
      return Err(RemoteProtocolError);
    }
    var kind := KindOf(bytes[2], bytes[3]);
    if kind.None? {
      return Err(RemoteProtocolError);
    }
    if kind.value.IsData() {
      return Ok(Fpdu(kind.value, bytes[4], bytes[5], [], bytes[HEADER_LEN..]));
    }
    var params := DecodeParamsOf(bytes[HEADER_LEN..], strict);
    if params.Err? {
      return Err(params.error);
    }
    if strict && !Conforms(kind.value, params.value) {
      return Err(InvalidParameter);
    }
    r := Ok(Fpdu(kind.value, bytes[4], bytes[5], params.value, []));
  }
}
