/** FPDUs from the sending loop to the receiving one: shipped as entities, written, read, decoded, queued. */
module Shipping {
  import opened Bytes
  import opened Params
  import opened Fpdu
  import opened Codec
  import opened FpduOps
  import opened Entities
  import opened Transport
  import opened Links

  /** All entities of a sending loop: those it sent and, if anything is left in it, the last one. */
  function AllSent(max: nat, crc: bool, ops: seq<ShipOp>): seq<Held>
  {
    var (end, sent) := ShipAll(max, crc, [], ops);
    sent + if end == [] then [] else [end]
  }

  /** The FPDUs of entities decoded one after the other. */
  function DecodeEach(es: seq<seq<byte>>, crc: bool): Result<seq<Fpdu>, DecodeError>
  {
    if es == [] then Ok([])
    else
      match DecodeEntity(es[0], crc)
      case Err(e) => Err(e)
      case Ok(fs) => Following(fs, DecodeEach(es[1..], crc))
  }

  function Arrivals(es: seq<seq<byte>>): (r: seq<Arrival>)
    ensures |r| == |es| && forall i :: 0 <= i < |es| ==> r[i] == Ok(es[i])
  {
    if es == [] then [] else [Ok(es[0])] + Arrivals(es[1..])
  }

  /** What a stream brings: its entities decode to the FPDUs, and a link fed with them hands those FPDUs over one by
      one and has nothing left. */
  predicate Brings(st: Reading, stream: seq<byte>, crc: bool, fs: seq<Fpdu>)
  {
    match ReadAll(st, stream)
    case Err(_) => false
    case Ok(es) =>
      && DecodeEach(es, crc) == Ok(fs)
      && NextAll(Queue([], Arrivals(es), false, false), crc, |fs|) == (Queue([], [], false, false), Ok(fs))
  }

  // ---- groups of FPDUs ----

  function PackedGroups(gs: seq<seq<Fpdu>>, crc: bool): (r: seq<seq<byte>>)
    ensures |r| == |gs|
  {
    if gs == [] then [] else [Packed(OctetsOf(gs[0]), crc)] + PackedGroups(gs[1..], crc)
  }

  predicate Groups(gs: seq<seq<Fpdu>>)
  {
    forall g :: g in gs ==> g != [] && AllWellFormed(g)
  }

  lemma {:induction false} GroupsDecode(gs: seq<seq<Fpdu>>, crc: bool)
    requires Groups(gs)
    ensures DecodeEach(PackedGroups(gs, crc), crc) == Ok(Flatten(gs))
  {
    if gs != [] {
      hide AllWellFormed, DecodeEntity, Packed, OctetsOf;
      EntityRoundTrip(gs[0], crc);
      GroupsDecode(gs[1..], crc);
    }
  }

  lemma {:induction false} PackedGroupAt(gs: seq<seq<Fpdu>>, crc: bool, i: nat)
    requires i < |gs|
    ensures PackedGroups(gs, crc)[i] == Packed(OctetsOf(gs[i]), crc)
  {
    if i > 0 {
      PackedGroupAt(gs[1..], crc, i - 1);
    }
  }

  /** A link fed with packed groups drains into the FPDUs. */
  lemma GroupsDrain(gs: seq<seq<Fpdu>>, crc: bool)
    requires Groups(gs)
    ensures var all := Flatten(gs);
      NextAll(Queue([], Arrivals(PackedGroups(gs, crc)), false, false), crc, |all|)
        == (Queue([], [], false, false), Ok(all))
  {
    hide Packed, OctetsOf, Enqueued, AllWellFormed, NextAll;
    var q := Queue([], Arrivals(PackedGroups(gs, crc)), false, false);
    forall i | 0 <= i < |gs|
      ensures q.rx[i].Ok? && gs[i] != [] && Enqueued(q.rx[i].value, crc) == (gs[i], None)
    {
      PackedGroupAt(gs, crc, i);
      QueuesPacked(gs[i], crc);
    }
    assert [] + Flatten(gs) == Flatten(gs);
    DrainsInOrder(q, crc, gs);
  }

  /** Entities of encoded FPDUs, seen as groups of FPDUs. */
  function Regroup(es: seq<Held>, fs: seq<Fpdu>): seq<seq<Fpdu>>
    requires |Flatten(es)| == |fs|
  {
    if es == [] then [] else [fs[..|es[0]|]] + Regroup(es[1..], fs[|es[0]|..])
  }

  lemma {:induction false} OctetsCount(fs: seq<Fpdu>)
    ensures |OctetsOf(fs)| == |fs|
  {
    if fs != [] {
      OctetsCount(fs[1..]);
    }
  }

  lemma {:induction false} OctetsSplit(fs: seq<Fpdu>, n: nat)
    requires n <= |fs|
    ensures |OctetsOf(fs)| == |fs|
    ensures OctetsOf(fs)[..n] == OctetsOf(fs[..n]) && OctetsOf(fs)[n..] == OctetsOf(fs[n..])
  {
    hide Octets;
    if n == 0 {
      OctetsCount(fs);
      assert fs[0..] == fs && fs[..0] == [];
    } else {
      OctetsSplit(fs[1..], n - 1);
      assert fs[n..] == fs[1..][n - 1..];
      assert fs[..n][1..] == fs[1..][..n - 1];
    }
  }

  lemma TailIn<T>(s: seq<T>)
    requires s != []
    ensures s[0] in s && forall x :: x in s[1..] ==> x in s
  {
  }

  /** A first entity and the octets behind it, as a first group and the FPDUs behind it. */
  lemma FirstGroup(e: Held, later: Held, fs: seq<Fpdu>)
    requires e != [] && e + later == OctetsOf(fs) && AllWellFormed(fs)
    ensures |e| <= |fs| == |e + later| && fs[..|e|] != [] && fs[..|e|] + fs[|e|..] == fs
    ensures OctetsOf(fs[..|e|]) == e && OctetsOf(fs[|e|..]) == later
    ensures AllWellFormed(fs[..|e|]) && AllWellFormed(fs[|e|..])
  {
    hide WellFormed, OctetsOf;
    OctetsSplit(fs, 0);
    OctetsSplit(fs, |e|);
    assert (e + later)[..|e|] == e && (e + later)[|e|..] == later;
  }

  lemma OneMoreGroup(g: seq<Fpdu>, gs: seq<seq<Fpdu>>, crc: bool)
    requires Groups(gs) && g != [] && AllWellFormed(g)
    ensures Groups([g] + gs) && Flatten([g] + gs) == g + Flatten(gs)
    ensures PackedGroups([g] + gs, crc) == [Packed(OctetsOf(g), crc)] + PackedGroups(gs, crc)
  {
    hide AllWellFormed, OctetsOf, Packed;
    assert ([g] + gs)[1..] == gs;
  }

  lemma {:induction false} Regrouped(es: seq<Held>, fs: seq<Fpdu>, crc: bool)
    requires Flatten(es) == OctetsOf(fs) && AllWellFormed(fs)
    requires forall e :: e in es ==> e != []
    ensures |Flatten(es)| == |fs|
    ensures var gs := Regroup(es, fs);
      Groups(gs) && Flatten(gs) == fs && PackedGroups(gs, crc) == PackedEach(es, crc)
    decreases |es|
  {
    OctetsSplit(fs, 0);
    if es != [] {
      hide WellFormed, OctetsOf, Packed;
      var e, n := es[0], |es[0]|;
      TailIn(es);
      FirstGroup(e, Flatten(es[1..]), fs);
      Regrouped(es[1..], fs[n..], crc);
      OneMoreGroup(fs[..n], Regroup(es[1..], fs[n..]), crc);
    }
  }

  // ---- the whole way ----

  /** What the sending rule needs to hold the FPDUs: room for one octet of data, and for each FPDU alone. */
  predicate Loaded(max: nat, crc: bool, ops: seq<ShipOp>, fs: seq<Fpdu>)
  {
    && HEADER_LEN + 1 + Trailer(crc) <= max <= 0xFFFF
    && (forall op :: op in ops ==> Sendable(max, crc, op))
    && PartsOfAll(ops) == OctetsOf(fs) && AllWellFormed(fs)
  }

  /** The entities of a sending loop: non-empty, within the size, and made of the FPDUs in order. */
  lemma SentWhole(max: nat, crc: bool, ops: seq<ShipOp>, fs: seq<Fpdu>)
    requires Loaded(max, crc, ops, fs)
    ensures var es := AllSent(max, crc, ops);
      AllAdmissible(max, crc, es) && Flatten(es) == OctetsOf(fs)
  {
    var (end, sent) := ShipAll(max, crc, [], ops);
    ShippedEntities(max, crc, [], ops);
    assert [] + PartsOfAll(ops) == PartsOfAll(ops);
    if end != [] {
      FlattenSnoc(sent, end);
    } else {
      assert sent + [] == sent && Flatten(sent) + [] == Flatten(sent);
    }
  }

  lemma {:induction false} EntitySizes(max: nat, crc: bool, es: seq<Held>)
    requires AllAdmissible(max, crc, es) && AllDelimited(Flatten(es))
    ensures forall e :: e in PackedEach(es, crc) ==> 1 <= |e| <= max
    decreases |es|
  {
    if es != [] {
      TailIn(es);
      EntitySize(max, crc, es[0], Flatten(es[1..]));
      EntitySizes(max, crc, es[1..]);
    }
  }

  lemma EntitySize(max: nat, crc: bool, e: Held, later: Held)
    requires e != [] && Admissible(max, crc, e) && AllDelimited(e + later)
    ensures 1 <= |Packed(e, crc)| <= max && AllDelimited(later)
  {
    assert (e + later)[0] == e[0] && e[0] in e + later;
    assert Delimited(e[0]) && Packed(e, crc) == Sealed(e[0], crc) + Packed(e[1..], crc);
    assert forall o :: o in later ==> o in e + later;
  }

  lemma LoadedEntities(max: nat, crc: bool, ops: seq<ShipOp>, fs: seq<Fpdu>)
    requires Loaded(max, crc, ops, fs)
    ensures forall e :: e in PackedEach(AllSent(max, crc, ops), crc) ==> 1 <= |e| <= max
  {
    hide Loaded, AllSent, AllAdmissible;
    SentWhole(max, crc, ops, fs);
    LoadedFacts(max, crc, ops, fs);
    DecodeOctets(fs);
    EntitySizes(max, crc, AllSent(max, crc, ops));
  }

  /** Shipped by the rule of the sending loop, written behind length prefixes, read, decoded and queued, the FPDUs
      arrive as they were, in order; the reader finds the very entities if and only if the first has no length that
      reads as a pre-connection message. */
  lemma ShippedPrefixed(max: nat, crc: bool, ops: seq<ShipOp>, fs: seq<Fpdu>, st: Reading)
    requires Loaded(max, crc, ops, fs) && st.framing == LengthPrefixed && max <= st.maxLen
    ensures var es := PackedEach(AllSent(max, crc, ops), crc);
      && (forall e :: e in es ==> 1 <= |e| <= max)
      && (ReadAll(st, Written(LengthPrefixed, es)) == Ok(es) <==> (st.first && es != [] ==> !Mistakable(|es[0]|)))
      && ((st.first && es != [] ==> !Mistakable(|es[0]|)) ==> Brings(st, Written(LengthPrefixed, es), crc, fs))
  {
    hide Loaded, AllSent, AllAdmissible, Written, ReadAll, Mistakable, NextAll, DecodeEach, PackedEach, PackedGroups;
    var held := AllSent(max, crc, ops);
    SentWhole(max, crc, ops, fs);
    assert AllWellFormed(fs) by { LoadedFacts(max, crc, ops, fs); }
    DecodeOctets(fs);
    EntitySizes(max, crc, held);
    var es := PackedEach(held, crc);
    LoadedFacts(max, crc, ops, fs);
    LengthPrefixedRoundTrip(st, es);
    NoneEmpty(max, crc, held);
    Regrouped(held, fs, crc);
    GroupsDecode(Regroup(held, fs), crc);
    GroupsDrain(Regroup(held, fs), crc);
  }

  lemma LoadedFacts(max: nat, crc: bool, ops: seq<ShipOp>, fs: seq<Fpdu>)
    requires Loaded(max, crc, ops, fs)
    ensures max <= 0xFFFF && AllWellFormed(fs)
  {
  }

  lemma NoneEmpty(max: nat, crc: bool, es: seq<Held>)
    requires AllAdmissible(max, crc, es)
    ensures forall e :: e in es ==> e != []
  {
  }

  function Singles(fs: seq<Fpdu>): (r: seq<seq<Fpdu>>)
    ensures |r| == |fs|
  {
    if fs == [] then [] else [[fs[0]]] + Singles(fs[1..])
  }

  lemma {:induction false} SinglesWhole(fs: seq<Fpdu>, crc: bool)
    requires AllWellFormed(fs)
    ensures Groups(Singles(fs)) && Flatten(Singles(fs)) == fs
    ensures PackedGroups(Singles(fs), crc) == SealedEach(OctetsOf(fs), crc)
  {
    if fs != [] {
      hide WellFormed;
      assert AllWellFormed(fs[1..]) && AllWellFormed([fs[0]]);
      SinglesWhole(fs[1..], crc);
      assert [fs[0]] + fs[1..] == fs && OctetsOf(fs)[1..] == OctetsOf(fs[1..]);
      assert [fs[0]][1..] == [] && OctetsOf([fs[0]]) == [Octets(fs[0])];
      PackedOne(Octets(fs[0]), crc);
    }
  }

  /** The same through raw framing, where entities leave no trace and each FPDU is found by its own length. */
  lemma ShippedRaw(max: nat, crc: bool, ops: seq<ShipOp>, fs: seq<Fpdu>, st: Reading)
    requires Loaded(max, crc, ops, fs) && st.framing == Raw && max <= st.maxLen
    requires Expecting(st, OctetsOf(fs), crc)
    ensures var es := PackedEach(AllSent(max, crc, ops), crc);
      && (forall e :: e in es ==> 1 <= |e| <= max)
      && ReadAll(st, Written(Raw, es)) == Ok(SealedEach(OctetsOf(fs), crc))
      && Brings(st, Written(Raw, es), crc, fs)
  {
    hide Loaded, AllSent, AllAdmissible, Written, ReadAll, NextAll, DecodeEach, PackedEach, PackedGroups, Expecting;
    var held := AllSent(max, crc, ops);
    SentWhole(max, crc, ops, fs);
    LoadedFacts(max, crc, ops, fs);
    DecodeOctets(fs);
    EntitySizes(max, crc, held);
    WrittenRaw(PackedEach(held, crc));
    RawBoundaries(held, crc);
    assert forall o :: o in OctetsOf(fs) ==> |Sealed(o, crc)| <= st.maxLen by {
      assert PartsOfAll(ops) == OctetsOf(fs) by { LoadedParts(max, crc, ops, fs); }
      assert forall op :: op in ops ==> Sendable(max, crc, op) by { LoadedParts(max, crc, ops, fs); }
      LoadedSizes(max, crc, ops);
    }
    RawRoundTrip(st, OctetsOf(fs), crc);
    SinglesWhole(fs, crc);
    GroupsDecode(Singles(fs), crc);
    GroupsDrain(Singles(fs), crc);
  }

  lemma LoadedParts(max: nat, crc: bool, ops: seq<ShipOp>, fs: seq<Fpdu>)
    requires Loaded(max, crc, ops, fs)
    ensures PartsOfAll(ops) == OctetsOf(fs) && forall op :: op in ops ==> Sendable(max, crc, op)
  {
  }

  lemma {:induction false} LoadedSizes(max: nat, crc: bool, ops: seq<ShipOp>)
    requires forall op :: op in ops ==> Sendable(max, crc, op)
    ensures forall o :: o in PartsOfAll(ops) ==> |Sealed(o, crc)| <= max
  {
    if ops != [] {
      assert ops[0] in ops;
      LoadedSizes(max, crc, ops[1..]);
    }
  }
}
