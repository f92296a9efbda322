/** The units of the data phase as entities on the wire: shipped, written, read, decoded and taken in order. */
module DataWire {
  import opened Bytes
  import opened Params
  import opened Cutter
  import opened Canon
  import opened DataPhase
  import opened LogFollowing
  import opened DataSafety
  import opened DataSteps
  import opened DataTheorems
  import opened DataNumbers
  import opened DataUnits
  import opened Shipping
  import opened Transport
  import E = Entities
  import F = Fpdu
  import A = Articles

  // ---- entities of units ----

  /** The entities sent while operations are performed. */
  function Sent(cfg: Config, entity: seq<Pdu>, ops: seq<ShipOp>): seq<seq<Pdu>>
    decreases |ops|
  {
    if ops == [] then []
    else
      match ops[0]
      case SendIfFull =>
        if Room(cfg, entity) < F.HEADER_LEN + 1 then [entity] + Sent(cfg, [], ops[1..]) else Sent(cfg, entity, ops[1..])
      case Put(p) =>
        if PduLen(p) <= Room(cfg, entity) then Sent(cfg, entity + [p], ops[1..])
        else [entity] + Sent(cfg, [p], ops[1..])
      case PutAndSend(p) =>
        if PduLen(p) <= Room(cfg, entity) then [entity + [p]] + Sent(cfg, [], ops[1..])
        else [entity, [p]] + Sent(cfg, [], ops[1..])
  }

  lemma {:induction false} SoundAppend(xs: seq<Pdu>, ys: seq<Pdu>)
    ensures Sound(xs + ys) == Sound(xs) + Sound(ys)
  {
    if xs == [] {
      assert xs + ys == ys;
    } else {
      assert (xs + ys)[1..] == xs[1..] + ys;
      SoundAppend(xs[1..], ys);
    }
  }

  /** One entity sent, then those that follow. */
  lemma QueueGrows(fwd: seq<Packet>, e: seq<Pdu>, later: seq<seq<Pdu>>)
    ensures fwd + Sound(Flatten([e] + later)) == (fwd + Sound(e)) + Sound(Flatten(later))
  {
    assert ([e] + later)[1..] == later;
    SoundAppend(e, Flatten(later));
    Assoc(fwd, Sound(e), Sound(Flatten(later)));
  }

  /** The queue takes the units of the entities sent, in order. */
  lemma {:induction false} SentQueued(cfg: Config, entity: seq<Pdu>, fwd: seq<Packet>, ops: seq<ShipOp>)
    ensures Perform(cfg, entity, fwd, ops).1 == fwd + Sound(Flatten(Sent(cfg, entity, ops)))
    decreases |ops|
  {
    hide Room, PduLen, Sound, Flatten;
    if ops == [] {
      NothingQueued(fwd);
    } else {
      var rest := ops[1..];
      match ops[0] {
        case SendIfFull =>
          if Room(cfg, entity) < F.HEADER_LEN + 1 {
            SentQueued(cfg, [], fwd + Sound(entity), rest);
            QueueGrows(fwd, entity, Sent(cfg, [], rest));
          } else {
            SentQueued(cfg, entity, fwd, rest);
          }
        case Put(p) =>
          if PduLen(p) <= Room(cfg, entity) {
            SentQueued(cfg, entity + [p], fwd, rest);
          } else {
            SentQueued(cfg, [p], fwd + Sound(entity), rest);
            QueueGrows(fwd, entity, Sent(cfg, [p], rest));
          }
        case PutAndSend(p) =>
          if PduLen(p) <= Room(cfg, entity) {
            SentQueued(cfg, [], fwd + Sound(entity + [p]), rest);
            QueueGrows(fwd, entity + [p], Sent(cfg, [], rest));
          } else {
            SentQueued(cfg, [], fwd + Sound(entity) + Sound([p]), rest);
            QueueGrows(fwd + Sound(entity), [p], Sent(cfg, [], rest));
            QueueGrows(fwd, entity, [[p]] + Sent(cfg, [], rest));
            assert [entity] + ([[p]] + Sent(cfg, [], rest)) == [entity, [p]] + Sent(cfg, [], rest);
          }
      }
    }
  }

  lemma NothingQueued(fwd: seq<Packet>)
    ensures fwd + Sound(Flatten([])) == fwd
  {
  }

  // ---- the same on octets ----

  /** Units the strict decoder takes back: data in order, numbers of three octets. */
  predicate Encodable(p: Pdu)
  {
    if p.Data? then p.f.kind.IsData() && F.WellFormed(p.f) else !TooHigh(p)
  }

  predicate AllEncodable(ps: seq<Pdu>)
  {
    forall p :: p in ps ==> Encodable(p)
  }

  function OctetsOf(p: Pdu, peer: byte): seq<byte> { E.Octets(FpduOf(p, peer)) }

  lemma UnitOctets(p: Pdu, peer: byte)
    requires Encodable(p)
    ensures F.WellFormed(FpduOf(p, peer)) && |OctetsOf(p, peer)| == PduLen(p) >= F.HEADER_LEN
    ensures UnitOf(FpduOf(p, peer)) == Some(p)
  {
    hide F.WellFormed;
    if p.Data? {
      assert F.WellFormed(FpduOf(p, peer));
    } else if p == DtfEnd {
      EndWellFormed(peer);
      UnitRoundTrip(p, peer);
    } else {
      UnitWellFormed(p, peer);
      UnitRoundTrip(p, peer);
    }
    E.OctetsDelimited(FpduOf(p, peer));
  }

  function Fpdus(ps: seq<Pdu>, peer: byte): (r: seq<F.Fpdu>)
    ensures |r| == |ps|
  {
    if ps == [] then [] else [FpduOf(ps[0], peer)] + Fpdus(ps[1..], peer)
  }

  function Octets(ps: seq<Pdu>, peer: byte): (r: seq<seq<byte>>)
    ensures |r| == |ps|
  {
    if ps == [] then [] else [OctetsOf(ps[0], peer)] + Octets(ps[1..], peer)
  }

  function OctetsEach(es: seq<seq<Pdu>>, peer: byte): (r: seq<seq<seq<byte>>>)
    ensures |r| == |es|
  {
    if es == [] then [] else [Octets(es[0], peer)] + OctetsEach(es[1..], peer)
  }

  function OnWire(op: ShipOp, peer: byte): E.ShipOp
  {
    match op
    case Put(p) => E.Append(OctetsOf(p, peer))
    case PutAndSend(p) => E.AppendAndSend(OctetsOf(p, peer))
    case SendIfFull => E.SendIfFull
  }

  function AllOnWire(ops: seq<ShipOp>, peer: byte): (r: seq<E.ShipOp>)
    ensures |r| == |ops|
  {
    if ops == [] then [] else [OnWire(ops[0], peer)] + AllOnWire(ops[1..], peer)
  }

  /** The negotiated entity size: what the packer was given, and the check bytes. */
  function MaxEntity(cfg: Config): nat { cfg.packing.maxDtf + E.Trailer(cfg.crc) }

  lemma {:induction false} OctetsSnoc(ps: seq<Pdu>, p: Pdu, peer: byte)
    ensures Octets(ps + [p], peer) == Octets(ps, peer) + [OctetsOf(p, peer)]
  {
    if ps == [] {
      assert ([] + [p])[1..] == [];
    } else {
      assert (ps + [p])[1..] == ps[1..] + [p];
      OctetsSnoc(ps[1..], p, peer);
    }
  }

  /** The size reckoned with is the size of the entity. */
  lemma {:induction false} SizeIs(cfg: Config, ps: seq<Pdu>, peer: byte)
    requires AllEncodable(ps)
    ensures |E.Packed(Octets(ps, peer), cfg.crc)| == Size(cfg, ps)
  {
    hide Encodable, OctetsOf, PduLen;
    if ps != [] {
      var init, p := ps[..|ps| - 1], ps[|ps| - 1];
      assert p in ps && forall q :: q in init ==> q in ps;
      SizeIs(cfg, init, peer);
      UnitOctets(p, peer);
      assert init + [p] == ps;
      OctetsSnoc(init, p, peer);
      E.PackedSnoc(Octets(init, peer), OctetsOf(p, peer), cfg.crc);
    }
  }

  /** The two ways of asking whether a unit fits agree, and so do the two measures of what is left. */
  lemma RoomIs(cfg: Config, entity: seq<Pdu>, p: Pdu, peer: byte)
    requires cfg.packing.Valid() && AllEncodable(entity) && Encodable(p)
    ensures E.Fits(MaxEntity(cfg), cfg.crc, Octets(entity, peer), |OctetsOf(p, peer)|) <==> PduLen(p) <= Room(cfg, entity)
  {
    hide Encodable, E.Packed, Size, PduLen, OctetsOf, Octets;
    SizeIs(cfg, entity, peer);
    UnitOctets(p, peer);
    NothingHeld(cfg, peer);
  }

  lemma NothingHeld(cfg: Config, peer: byte)
    ensures Octets([], peer) == [] && E.Packed([], cfg.crc) == [] && Size(cfg, []) == 0
  {
  }

  lemma FullIs(cfg: Config, entity: seq<Pdu>, peer: byte)
    requires cfg.packing.Valid() && AllEncodable(entity)
    ensures E.Remaining(MaxEntity(cfg), cfg.crc, Octets(entity, peer)) < F.HEADER_LEN + 1
       <==> Room(cfg, entity) < F.HEADER_LEN + 1
  {
    hide Encodable, E.Packed, Size, PduLen, OctetsOf, Octets;
    SizeIs(cfg, entity, peer);
    NothingHeld(cfg, peer);
  }

  /** One operation of the data phase is the shipping rule's on octets. */
  lemma OneShips(cfg: Config, entity: seq<Pdu>, op: ShipOp, peer: byte)
    requires cfg.packing.Valid() && AllEncodable(entity) && (!op.SendIfFull? ==> Encodable(op.p))
    ensures E.Ship(MaxEntity(cfg), cfg.crc, Octets(entity, peer), OnWire(op, peer))
         == (Octets(Perform(cfg, entity, [], [op]).0, peer), OctetsEach(Sent(cfg, entity, [op]), peer))
    ensures AllEncodable(Perform(cfg, entity, [], [op]).0)
  {
    hide Encodable, Room, PduLen, OctetsOf, E.Packed, E.Remaining, E.Fits;
    assert [op][1..] == [];
    Singly(entity, peer);
    match op {
      case SendIfFull => FullIs(cfg, entity, peer);
      case Put(p) =>
        RoomIs(cfg, entity, p, peer);
        OctetsSnoc(entity, p, peer);
        Alone(p, peer);
        assert [entity] + [] == [entity];
      case PutAndSend(p) =>
        RoomIs(cfg, entity, p, peer);
        OctetsSnoc(entity, p, peer);
        Alone(p, peer);
        Singly(entity + [p], peer);
        Singly([p], peer);
        assert [entity + [p]] + [] == [entity + [p]] && [entity, [p]] + [] == [entity, [p]];
        assert [entity, [p]][1..] == [[p]];
        assert OctetsEach([entity, [p]], peer) == [Octets(entity, peer)] + [Octets([p], peer)];
        assert [] + [Octets(entity + [p], peer)] == [Octets(entity + [p], peer)];
    }
  }

  lemma Singly(e: seq<Pdu>, peer: byte)
    ensures OctetsEach([e], peer) == [Octets(e, peer)] && OctetsEach([], peer) == []
  {
    assert [e][1..] == [];
  }

  lemma Alone(p: Pdu, peer: byte)
    ensures Octets([p], peer) == [OctetsOf(p, peer)]
  {
    assert [p][1..] == [];
  }

  lemma PerformsOne(cfg: Config, entity: seq<Pdu>, fwd: seq<Packet>, ops: seq<ShipOp>)
    requires ops != []
    ensures var now := Perform(cfg, entity, [], [ops[0]]).0;
      && Perform(cfg, entity, fwd, ops).0 == Perform(cfg, now, fwd, ops[1..]).0
      && Sent(cfg, entity, ops) == Sent(cfg, entity, [ops[0]]) + Sent(cfg, now, ops[1..])
  {
    hide Room, PduLen;
    assert [ops[0]][1..] == [];
    HeldAlike(cfg, entity, fwd, fwd + Sound(entity), ops[1..]);
    match ops[0] {
      case SendIfFull =>
        HeldAlike(cfg, [], fwd + Sound(entity), fwd, ops[1..]);
        assert [entity] + [] == [entity] && [] + Sent(cfg, entity, ops[1..]) == Sent(cfg, entity, ops[1..]);
      case Put(p) =>
        HeldAlike(cfg, [p], fwd + Sound(entity), fwd, ops[1..]);
        assert [entity] + [] == [entity] && [] + Sent(cfg, entity + [p], ops[1..]) == Sent(cfg, entity + [p], ops[1..]);
      case PutAndSend(p) =>
        HeldAlike(cfg, [], fwd + Sound(entity + [p]), fwd, ops[1..]);
        HeldAlike(cfg, [], fwd + Sound(entity) + Sound([p]), fwd, ops[1..]);
        assert [entity + [p]] + [] == [entity + [p]] && [entity, [p]] + [] == [entity, [p]];
    }
  }

  /** What the entity becomes does not depend on the queue. */
  lemma {:induction false} HeldAlike(cfg: Config, entity: seq<Pdu>, fwd: seq<Packet>, other: seq<Packet>, ops: seq<ShipOp>)
    ensures Perform(cfg, entity, fwd, ops).0 == Perform(cfg, entity, other, ops).0
    decreases |ops|
  {
    hide Room, PduLen, Sound;
    if ops != [] {
      var rest := ops[1..];
      match ops[0] {
        case SendIfFull =>
          HeldAlike(cfg, [], fwd + Sound(entity), other + Sound(entity), rest);
          HeldAlike(cfg, entity, fwd, other, rest);
        case Put(p) =>
          HeldAlike(cfg, entity + [p], fwd, other, rest);
          HeldAlike(cfg, [p], fwd + Sound(entity), other + Sound(entity), rest);
        case PutAndSend(p) =>
          HeldAlike(cfg, [], fwd + Sound(entity + [p]), other + Sound(entity + [p]), rest);
          HeldAlike(cfg, [], fwd + Sound(entity) + Sound([p]), other + Sound(entity) + Sound([p]), rest);
      }
    }
  }

  lemma {:induction false} OctetsEachAppend(xs: seq<seq<Pdu>>, ys: seq<seq<Pdu>>, peer: byte)
    ensures OctetsEach(xs + ys, peer) == OctetsEach(xs, peer) + OctetsEach(ys, peer)
  {
    if xs == [] {
      assert xs + ys == ys;
    } else {
      assert (xs + ys)[1..] == xs[1..] + ys;
      OctetsEachAppend(xs[1..], ys, peer);
    }
  }

  /** The entities of the data phase are, octet for octet, those of the shipping rule, and so is what is held. */
  lemma {:induction false} ShipsAlike(cfg: Config, entity: seq<Pdu>, fwd: seq<Packet>, ops: seq<ShipOp>, peer: byte)
    requires cfg.packing.Valid() && AllEncodable(entity) && AllEncodable(PdusOf(ops))
    ensures E.ShipAll(MaxEntity(cfg), cfg.crc, Octets(entity, peer), AllOnWire(ops, peer))
         == (Octets(Perform(cfg, entity, fwd, ops).0, peer), OctetsEach(Sent(cfg, entity, ops), peer))
    decreases |ops|
  {
    if ops != [] {
      hide Encodable, Perform, Sent, OnWire, Octets, OctetsEach, E.Ship;
      var op, now := ops[0], Perform(cfg, entity, [], [ops[0]]).0;
      FirstUnit(ops);
      OneShips(cfg, entity, op, peer);
      ShipsAlike(cfg, now, fwd, ops[1..], peer);
      PerformsOne(cfg, entity, fwd, ops);
      OctetsEachAppend(Sent(cfg, entity, [op]), Sent(cfg, now, ops[1..]), peer);
      assert AllOnWire(ops, peer)[1..] == AllOnWire(ops[1..], peer);
    }
  }

  lemma FirstUnit(ops: seq<ShipOp>)
    requires ops != [] && AllEncodable(PdusOf(ops))
    ensures (!ops[0].SendIfFull? ==> Encodable(ops[0].p)) && AllEncodable(PdusOf(ops[1..]))
  {
    hide Encodable;
    if !ops[0].SendIfFull? {
      assert PdusOf(ops)[0] == ops[0].p;
    }
    assert forall p :: p in PdusOf(ops[1..]) ==> p in PdusOf(ops);
  }

  // ---- arrival ----

  lemma {:induction false} PartsAre(ops: seq<ShipOp>, peer: byte)
    ensures E.PartsOfAll(AllOnWire(ops, peer)) == E.OctetsOf(Fpdus(PdusOf(ops), peer))
  {
    hide OctetsOf, E.Octets;
    if ops != [] {
      PartsAre(ops[1..], peer);
      assert AllOnWire(ops, peer)[1..] == AllOnWire(ops[1..], peer);
      if !ops[0].SendIfFull? {
        assert PdusOf(ops) == [ops[0].p] + PdusOf(ops[1..]);
        assert PdusOf(ops)[1..] == PdusOf(ops[1..]);
        assert OctetsOf(ops[0].p, peer) == E.Octets(FpduOf(ops[0].p, peer)) by { OctetsAre(ops[0].p, peer); }
      } else {
        assert [] + PdusOf(ops[1..]) == PdusOf(ops[1..]);
      }
    }
  }

  lemma OctetsAre(p: Pdu, peer: byte)
    ensures OctetsOf(p, peer) == E.Octets(FpduOf(p, peer))
  {
  }

  /** The units a receiver makes of FPDUs, as long as it knows them. */
  function Units(fs: seq<F.Fpdu>): Option<seq<Pdu>>
  {
    if fs == [] then Some([])
    else
      var p, rest := UnitOf(fs[0]), Units(fs[1..]);
      if p.None? || rest.None? then None else Some([p.value] + rest.value)
  }

  lemma {:induction false} UnitsBack(ps: seq<Pdu>, peer: byte)
    requires AllEncodable(ps)
    ensures Units(Fpdus(ps, peer)) == Some(ps) && E.AllWellFormed(Fpdus(ps, peer))
  {
    hide Encodable, FpduOf, UnitOf, F.WellFormed;
    if ps != [] {
      assert ps[0] in ps && forall p :: p in ps[1..] ==> p in ps;
      UnitOctets(ps[0], peer);
      UnitsBack(ps[1..], peer);
      assert Fpdus(ps, peer)[1..] == Fpdus(ps[1..], peer) && [ps[0]] + ps[1..] == ps;
    }
  }

  /** Units no longer than what an entity may hold. */
  predicate AllFit(cfg: Config, ps: seq<Pdu>)
  {
    forall p :: p in ps ==> PduLen(p) <= cfg.packing.maxDtf
  }

  lemma {:induction false} WireSendable(cfg: Config, ops: seq<ShipOp>, peer: byte)
    requires AllEncodable(PdusOf(ops)) && AllFit(cfg, PdusOf(ops))
    ensures forall op :: op in AllOnWire(ops, peer) ==> E.Sendable(MaxEntity(cfg), cfg.crc, op)
  {
    hide Encodable, PduLen, OctetsOf;
    if ops != [] {
      FirstUnit(ops);
      assert forall p :: p in PdusOf(ops[1..]) ==> p in PdusOf(ops);
      WireSendable(cfg, ops[1..], peer);
      if !ops[0].SendIfFull? {
        assert PdusOf(ops)[0] == ops[0].p;
        UnitOctets(ops[0].p, peer);
      }
    }
  }

  /** Units sent by a loop that starts with an empty entity, as a receiver gets them through either framing: shipped,
      written, read, decoded and taken from the link, they are the FPDUs that stand for the units, and are read as
      those units. */
  lemma UnitsArrive(cfg: Config, ops: seq<ShipOp>, peer: byte, st: Reading)
    requires cfg.packing.Valid() && MaxEntity(cfg) <= 0xFFFF && MaxEntity(cfg) <= st.maxLen
    requires AllEncodable(PdusOf(ops)) && AllFit(cfg, PdusOf(ops))
    ensures var fs, es := Fpdus(PdusOf(ops), peer),
                          E.PackedEach(AllSent(MaxEntity(cfg), cfg.crc, AllOnWire(ops, peer)), cfg.crc);
      && Units(fs) == Some(PdusOf(ops))
      && (forall e :: e in es ==> 1 <= |e| <= MaxEntity(cfg))
      && (st.framing == LengthPrefixed && (st.first && es != [] ==> !Mistakable(|es[0]|)) ==>
            Brings(st, Written(LengthPrefixed, es), cfg.crc, fs))
      && (st.framing == Raw && Expecting(st, E.OctetsOf(fs), cfg.crc) ==> Brings(st, Written(Raw, es), cfg.crc, fs))
  {
    hide AllEncodable, AllFit, Brings, AllSent, Expecting, Mistakable, E.Sendable, E.AllWellFormed;
    var fs := Fpdus(PdusOf(ops), peer);
    UnitsBack(PdusOf(ops), peer);
    PartsAre(ops, peer);
    WireSendable(cfg, ops, peer);
    assert Loaded(MaxEntity(cfg), cfg.crc, AllOnWire(ops, peer), fs);
    if st.framing == LengthPrefixed {
      ShippedPrefixed(MaxEntity(cfg), cfg.crc, AllOnWire(ops, peer), fs, st);
    } else {
      LoadedEntities(MaxEntity(cfg), cfg.crc, AllOnWire(ops, peer), fs);
      if Expecting(st, E.OctetsOf(fs), cfg.crc) {
        ShippedRaw(MaxEntity(cfg), cfg.crc, AllOnWire(ops, peer), fs, st);
      }
    }
  }
}
