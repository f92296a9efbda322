/** Negotiated session and transfer options: PI 7, PI 21 and PI 25. */
module Params {
  import opened Bytes

  /** Synchronisation points: interval in kilobytes (0 none, 0xFFFF undefined) and window. */
  datatype SyncOption = SyncOption(intervalKb: nat, window: nat) {
    predicate Valid() { intervalKb < 0x10000 && window < 0x100 }

    predicate Enabled() { intervalKb != 0 }

    /** Interval in octets; `None` when disabled or undefined. */
    function IntervalBytes(): Option<nat> {
      if intervalKb == 0 || intervalKb == UNDEFINED_INTERVAL then None else Some(intervalKb * 1024)
    }

    function ToBytes(): seq<byte>
      requires Valid()
    {
      Be16(intervalKb) + [window]
    }
  }

  const UNDEFINED_INTERVAL: nat := 0xFFFF
  const NO_SYNC: SyncOption := SyncOption(0, 0)

  function SyncFromBytes(v: seq<byte>): (r: Option<SyncOption>)
    ensures r.Some? ==> r.value.Valid()
  {
    if |v| < 2 then None
    else if |v| == 2 then Some(SyncOption(ReadBe16(v[0], v[1]), 0))
    else Some(SyncOption(ReadBe16(v[0], v[1]), v[2]))
  }

  function NegotiateSync(proposed: SyncOption, local: SyncOption): SyncOption
  {
    if !proposed.Enabled() || !local.Enabled() then NO_SYNC
    else
      var interval :=
        if proposed.intervalKb == UNDEFINED_INTERVAL then local.intervalKb
        else if local.intervalKb == UNDEFINED_INTERVAL then proposed.intervalKb
        else Min(proposed.intervalKb, local.intervalKb);
      SyncOption(interval, Min(proposed.window, local.window))
  }

  function Min(a: int, b: int): int { if a < b then a else b }

  function Max(a: int, b: int): int { if a < b then b else a }

  datatype Compression = NoCompression | HorizontalOnly | VerticalOnly | MixedBoth {
    function ToBytes(): seq<byte> {
      match this
      case NoCompression => [0, 0]
      case HorizontalOnly => [1, 1]
      case VerticalOnly => [1, 2]
      case MixedBoth => [1, 3]
    }
  }

  function CompressionFromBytes(v: seq<byte>): Option<Compression>
  {
    if v == [] || v[0] == 0 then Some(NoCompression)
    else if v == [1, 1] || v == [1] then Some(HorizontalOnly)
    else if v == [1, 2] then Some(VerticalOnly)
    else if v == [1, 3] then Some(MixedBoth)
    else None
  }

  function NegotiateCompression(requested: Compression, local: Compression): Compression
  {
    if requested == NoCompression || local == NoCompression then NoCompression
    else if requested == local then requested
    else if requested == MixedBoth then local
    else if local == MixedBoth then requested
    else NoCompression
  }

  // ---- properties ----

  /** The three octets of PI 7 carry any option, whatever follows them; two octets leave the window at 0, and fewer say
      nothing. */
  lemma SyncCoding(s: SyncOption, more: seq<byte>)
    requires s.Valid()
    ensures SyncFromBytes(s.ToBytes()) == SyncFromBytes(s.ToBytes() + more) == Some(s)
    ensures SyncFromBytes(s.ToBytes()[..2]) == Some(SyncOption(s.intervalKb, 0))
    ensures SyncFromBytes(more) == None <==> |more| < 2
  {
    var b := Be16(s.intervalKb);
    assert s.ToBytes()[0] == b[0] && s.ToBytes()[1] == b[1];
    assert s.ToBytes()[..2] == b;
    assert (s.ToBytes() + more)[..3] == s.ToBytes();
  }

  /** PI 21 carries any compression. A first octet of 0 or no octet is none, 1 alone the horizontal one, and nothing else
      is read that is not written so. */
  lemma CompressionCoding(c: Compression, v: seq<byte>)
    ensures CompressionFromBytes(c.ToBytes()) == Some(c)
    ensures CompressionFromBytes(v) == Some(NoCompression) <==> v == [] || v[0] == 0
    ensures v == [1] ==> CompressionFromBytes(v) == Some(HorizontalOnly)
    ensures c != NoCompression && v != [1] ==> (CompressionFromBytes(v) == Some(c) <==> v == c.ToBytes())
  {
  }

  /** How far apart points may be, 0xFFFF standing for no bound. */
  predicate Within(kb: nat, bound: nat) { bound == 0xFFFF || kb <= bound }

  /** The agreed option is on exactly when both sides want it, and then asks no more of either side than it
      offered: its interval is the shorter one, its window the smaller one, whichever side proposes. */
  lemma SyncAgreement(p: SyncOption, l: SyncOption)
    requires p.Valid() && l.Valid()
    ensures var r := NegotiateSync(p, l);
      && (r.Enabled() <==> p.Enabled() && l.Enabled())
      && (r.Enabled() ==> Within(r.intervalKb, p.intervalKb) && Within(r.intervalKb, l.intervalKb)
                          && r.intervalKb in {p.intervalKb, l.intervalKb}
                          && r.window in {p.window, l.window})
      && (!r.Enabled() ==> r == SyncOption(0, 0))
      && r.window <= p.window && r.window <= l.window
      && r == NegotiateSync(l, p)
      && NegotiateSync(p, r) == r
  {
  }

  /** `c` is no more than what `d` allows. */
  predicate Allows(d: Compression, c: Compression) { c == NoCompression || c == d || d == MixedBoth }

  /** The agreed compression is the most that both the request and the server allow. */
  lemma CompressionAgreement(requested: Compression, local: Compression, c: Compression)
    ensures var r := NegotiateCompression(requested, local);
      && Allows(requested, r) && Allows(local, r)
      && (Allows(requested, c) && Allows(local, c) ==> Allows(r, c))
      && NegotiateCompression(requested, r) == r
  {
  }
}
