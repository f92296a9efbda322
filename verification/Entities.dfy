/** Data entities: FPDUs one behind the other with their check bytes, and the way back. */
module Entities {
  import opened Bytes
  import opened Params
  import opened Fpdu
  import opened Codec
  import opened FpduOps
  import Crc

  function Trailer(crc: bool): nat { if crc then Crc.CRC_LEN else 0 }

  // ---- splitting ----

  /** Length of the FPDU an entity starts with, check bytes verified. */
  function FirstLen(e: seq<byte>, crc: bool): (r: Result<nat, DecodeError>)
    ensures r.Ok? ==> HEADER_LEN <= r.value && r.value + Trailer(crc) <= |e|
  {
    if |e| < HEADER_LEN then Err(RemoteProtocolError)
    else
      var len := ReadBe16(e[0], e[1]);
      if len < HEADER_LEN || len > |e| then Err(RemoteProtocolError)
      else if crc && (len + Crc.CRC_LEN > |e| || !Crc.Intact(e[..len + Crc.CRC_LEN])) then Err(TransmissionError)
      else Ok(len)
  }

  /** The FPDUs of an entity, check bytes stripped. */
  function Split(e: seq<byte>, crc: bool): Result<seq<seq<byte>>, DecodeError>
    decreases |e|
  {
    if e == [] then Ok([])
    else
      match FirstLen(e, crc)
      case Err(error) => Err(error)
      case Ok(len) => Following([e[..len]], Split(e[len + Trailer(crc)..], crc))
  }

  /** What is left of a split after its first `pos` octets, behind the FPDUs already found. */
  function SplitFrom(e: seq<byte>, crc: bool, pos: nat, out: seq<seq<byte>>): Result<seq<seq<byte>>, DecodeError>
    requires pos <= |e|
  {
    Following(out, Split(e[pos..], crc))
  }

  lemma SplitEnds(e: seq<byte>, crc: bool, out: seq<seq<byte>>)
    ensures SplitFrom(e, crc, 0, []) == Split(e, crc)
    ensures SplitFrom(e, crc, |e|, out) == Ok(out)
  {
    FollowingNothing(Split(e, crc));
    assert e[0..] == e && e[|e|..] == [] && out + [] == out;
  }

  /** One turn of the splitting loop. */
  lemma SplitStep(e: seq<byte>, crc: bool, pos: nat, out: seq<seq<byte>>)
    requires pos < |e|
    ensures match FirstLen(e[pos..], crc)
      case Err(error) => SplitFrom(e, crc, pos, out) == Err(error)
      case Ok(len) =>
        SplitFrom(e, crc, pos, out) == SplitFrom(e, crc, pos + len + Trailer(crc), out + [e[pos..pos + len]])
  {
    var rest := e[pos..];
    assert rest != [];
    match FirstLen(rest, crc)
    case Err(error) =>
    case Ok(len) =>
      var end := pos + len + Trailer(crc);
      assert rest[..len] == e[pos..pos + len] && rest[len + Trailer(crc)..] == e[end..];
      FollowingAssoc(out, [e[pos..pos + len]], Split(e[end..], crc));
  }

  method NextLen(entity: seq<byte>, crc: bool, pos: nat) returns (r: Result<nat, DecodeError>)
    requires pos < |entity|
    ensures r == FirstLen(entity[pos..], crc)
  {
    if |entity| - pos < HEADER_LEN {
      return Err(RemoteProtocolError);
    }
    var len := ReadBe16(entity[pos], entity[pos + 1]);
    if len < HEADER_LEN || pos + len > |entity| {
      return Err(RemoteProtocolError);
    }
    if crc {
      if pos + len + Crc.CRC_LEN > |entity| {
        return Err(TransmissionError);
      }
      Window(entity, pos, len + Crc.CRC_LEN);
      var ok := Crc.Verify(entity[pos..pos + len + Crc.CRC_LEN]);
      if !ok {
        return Err(TransmissionError);
      }
    }
    return Ok(len);
  }

  method SplitEntity(entity: seq<byte>, crc: bool) returns (r: Result<seq<seq<byte>>, DecodeError>)
    ensures r == Split(entity, crc)
  {
    var out: seq<seq<byte>>, pos: nat := [], 0;
    SplitEnds(entity, crc, []);
    while pos < |entity|
      invariant pos <= |entity|
      invariant SplitFrom(entity, crc, pos, out) == Split(entity, crc)
    {
      SplitStep(entity, crc, pos, out);
      var len := NextLen(entity, crc, pos);
      if len.Err? {
        return Err(len.error);
      }
      out := out + [entity[pos..pos + len.value]];
      pos := pos + len.value + if crc then Crc.CRC_LEN else 0;
    }
    SplitEnds(entity, crc, out);
    return Ok(out);
  }

  function DecodeAll(parts: seq<seq<byte>>): Result<seq<Fpdu>, DecodeError>
  {
    if parts == [] then Ok([])
    else
      match Decode(parts[0], true)
      case Err(e) => Err(e)
      case Ok(f) =>
        match DecodeAll(parts[1..])
        case Err(e) => Err(e)
        case Ok(fs) => Ok([f] + fs)
  }

  /** The FPDUs of an entity, split and decoded one by one. */
  function DecodeEntity(entity: seq<byte>, crc: bool): Result<seq<Fpdu>, DecodeError>
  {
    match Split(entity, crc)
    case Err(e) => Err(e)
    case Ok(parts) => DecodeAll(parts)
  }

  // ---- packing ----

  /** An encoded FPDU as it stands in an entity; alone, it makes an entity of one FPDU. */
  function Sealed(o: seq<byte>, crc: bool): (r: seq<byte>)
    ensures |r| == |o| + Trailer(crc)
  {
    if crc then Crc.Append(o) else o
  }

  function Packed(parts: seq<seq<byte>>, crc: bool): seq<byte>
  {
    if parts == [] then [] else Sealed(parts[0], crc) + Packed(parts[1..], crc)
  }

  lemma {:induction false} PackedSnoc(parts: seq<seq<byte>>, o: seq<byte>, crc: bool)
    ensures Packed(parts + [o], crc) == Packed(parts, crc) + Sealed(o, crc)
  {
    if parts == [] {
      assert ([] + [o])[1..] == [];
    } else {
      assert (parts + [o])[1..] == parts[1..] + [o];
      PackedSnoc(parts[1..], o, crc);
      Assoc(Sealed(parts[0], crc), Packed(parts[1..], crc), Sealed(o, crc));
    }
  }

  lemma PackedOne(o: seq<byte>, crc: bool)
    ensures Packed([o], crc) == Sealed(o, crc)
  {
    assert [o][1..] == [] && Sealed(o, crc) + [] == Sealed(o, crc);
  }

  /** The octets delimit themselves: they start with their own length. */
  predicate Delimited(o: seq<byte>)
  {
    |o| >= HEADER_LEN && ReadBe16(o[0], o[1]) == |o|
  }

  predicate AllDelimited(parts: seq<seq<byte>>)
  {
    forall o :: o in parts ==> Delimited(o)
  }

  /** An entity that starts with a sealed FPDU splits into that FPDU and the rest. */
  lemma SplitSealed(o: seq<byte>, crc: bool, rest: seq<byte>)
    requires Delimited(o)
    ensures Split(Sealed(o, crc) + rest, crc) == Following([o], Split(rest, crc))
  {
    var s := Sealed(o, crc);
    var e := s + rest;
    if crc {
      Crc.AppendIsIntact(o);
    }
    assert s[..|o|] == o;
    assert e[0] == o[0] && e[1] == o[1];
    assert e[..|s|] == s && e[|s|..] == rest && e[..|o|] == o;
  }

  /** Every entity packed from delimited FPDUs splits into them, in order. */
  lemma {:induction false} SplitPacked(parts: seq<seq<byte>>, crc: bool)
    requires AllDelimited(parts)
    ensures Split(Packed(parts, crc), crc) == Ok(parts)
  {
    if parts != [] {
      assert AllDelimited(parts[1..]);
      SplitPacked(parts[1..], crc);
      SplitSealed(parts[0], crc, Packed(parts[1..], crc));
      assert [parts[0]] + parts[1..] == parts;
    }
  }

  /** Behind intact length octets, one changed octet is reported as a transmission error unless it
      turns 0x00 into 0xFF or back. */
  lemma DamageDetected(o: seq<byte>, i: nat, b: byte)
    requires Delimited(o) && 2 <= i < |Sealed(o, true)|
    requires (b - Sealed(o, true)[i]) % 255 != 0
    ensures Split(Sealed(o, true)[i := b], true) == Err(TransmissionError)
  {
    Crc.AppendIsIntact(o);
    DamagedEntity(Crc.Append(o), i, b);
  }

  lemma DamagedEntity(e: seq<byte>, i: nat, b: byte)
    requires |e| >= HEADER_LEN + Crc.CRC_LEN && ReadBe16(e[0], e[1]) + Crc.CRC_LEN == |e| && Crc.Intact(e)
    requires 2 <= i < |e| && (b - e[i]) % 255 != 0
    ensures Split(e[i := b], true) == Err(TransmissionError)
  {
    var bad := e[i := b];
    assert !Crc.Intact(bad) by {
      Crc.SingleByteChange(e, i, b);
    }
    assert bad[..|bad|] == bad;
    assert FirstLen(bad, true) == Err(TransmissionError);
  }

  // ---- FPDUs ----

  function Octets(f: Fpdu): seq<byte>
  {
    match Encode(f)
    case Ok(octets) => octets
    case Err(_) => []
  }

  function OctetsOf(fs: seq<Fpdu>): (r: seq<seq<byte>>)
  {
    if fs == [] then [] else [Octets(fs[0])] + OctetsOf(fs[1..])
  }

  predicate AllWellFormed(fs: seq<Fpdu>)
  {
    forall f :: f in fs ==> WellFormed(f)
  }

  lemma OctetsDelimited(f: Fpdu)
    requires WellFormed(f)
    ensures Encode(f) == Ok(Octets(f)) && |Octets(f)| == EncodedLen(f) && Delimited(Octets(f))
    ensures Decode(Octets(f), true) == Ok(f)
  {
    EncodeThenDecode(f);
  }

  lemma {:induction false} DecodeOctets(fs: seq<Fpdu>)
    requires AllWellFormed(fs)
    ensures AllDelimited(OctetsOf(fs)) && DecodeAll(OctetsOf(fs)) == Ok(fs)
  {
    if fs != [] {
      var f, rest := fs[0], fs[1..];
      assert AllWellFormed(rest);
      DecodeOctets(rest);
      OctetsDelimited(f);
      assert OctetsOf(fs)[1..] == OctetsOf(rest);
      assert [f] + rest == fs;
    }
  }

  /** Every entity of well-formed FPDUs is split and decoded into the same FPDUs, in order. */
  lemma EntityRoundTrip(fs: seq<Fpdu>, crc: bool)
    requires AllWellFormed(fs)
    ensures DecodeEntity(Packed(OctetsOf(fs), crc), crc) == Ok(fs)
  {
    DecodeOctets(fs);
    SplitPacked(OctetsOf(fs), crc);
  }

  // ---- the sending rule ----

  /** What the send loop does with its entity: append an encoded FPDU (sending first when it does not
      fit), the same and send at once, or send when no further data FPDU would fit. */
  datatype ShipOp = Append(o: seq<byte>) | AppendAndSend(o: seq<byte>) | SendIfFull

  type Held = seq<seq<byte>>

  predicate Fits(max: nat, crc: bool, held: Held, len: nat)
  {
    !(crc && held != []) && |Packed(held, crc)| + len + Trailer(crc) <= max
  }

  function Remaining(max: nat, crc: bool, held: Held): nat
  {
    if crc && held != [] then 0 else Max(max - (|Packed(held, crc)| + Trailer(crc)), 0)
  }

  /** What is held after an FPDU was appended and the entities sent first, an empty one included. */
  function Appended(max: nat, crc: bool, held: Held, o: seq<byte>): (Held, seq<Held>)
  {
    if Fits(max, crc, held, |o|) then (held + [o], []) else ([o], [held])
  }

  function Ship(max: nat, crc: bool, held: Held, op: ShipOp): (Held, seq<Held>)
  {
    match op
    case Append(o) => Appended(max, crc, held, o)
    case AppendAndSend(o) => var (now, sent) := Appended(max, crc, held, o); ([], sent + [now])
    case SendIfFull => if Remaining(max, crc, held) < HEADER_LEN + 1 then ([], [held]) else (held, [])
  }

  function ShipAll(max: nat, crc: bool, held: Held, ops: seq<ShipOp>): (Held, seq<Held>)
    decreases |ops|
  {
    if ops == [] then (held, [])
    else
      var (now, sent) := Ship(max, crc, held, ops[0]);
      var (end, later) := ShipAll(max, crc, now, ops[1..]);
      (end, sent + later)
  }

  function PartsOf(op: ShipOp): seq<seq<byte>>
  {
    if op.SendIfFull? then [] else [op.o]
  }

  function PartsOfAll(ops: seq<ShipOp>): seq<seq<byte>>
  {
    if ops == [] then [] else PartsOf(ops[0]) + PartsOfAll(ops[1..])
  }

  /** An FPDU the negotiated size admits alone. */
  predicate Sendable(max: nat, crc: bool, op: ShipOp)
  {
    op.SendIfFull? || |op.o| + Trailer(crc) <= max
  }

  /** An entity the negotiated size admits, of one FPDU when check bytes follow. */
  predicate Admissible(max: nat, crc: bool, held: Held)
  {
    |Packed(held, crc)| <= max && (crc ==> |held| <= 1)
  }

  predicate AllAdmissible(max: nat, crc: bool, sent: seq<Held>)
  {
    forall e :: e in sent ==> e != [] && Admissible(max, crc, e)
  }

  lemma AppendStep(max: nat, crc: bool, held: Held, o: seq<byte>)
    requires Admissible(max, crc, held) && |o| + Trailer(crc) <= max
    ensures var (now, sent) := Appended(max, crc, held, o);
      now != [] && Admissible(max, crc, now) && AllAdmissible(max, crc, sent) && Flatten(sent) + now == held + [o]
  {
    if Fits(max, crc, held, |o|) {
      PackedSnoc(held, o, crc);
      assert [] + (held + [o]) == held + [o];
    } else {
      PackedOne(o, crc);
      FlattenOne(held);
      assert held != [];
    }
  }

  lemma ShipStep(max: nat, crc: bool, held: Held, op: ShipOp)
    requires HEADER_LEN + 1 + Trailer(crc) <= max
    requires Admissible(max, crc, held) && Sendable(max, crc, op)
    ensures var (now, sent) := Ship(max, crc, held, op);
      Admissible(max, crc, now) && AllAdmissible(max, crc, sent) && Flatten(sent) + now == held + PartsOf(op)
  {
    if op.SendIfFull? {
      FlattenOne(held);
      assert held + [] == held && [] + held == held;
    } else {
      AppendStep(max, crc, held, op.o);
      var (now, sent) := Appended(max, crc, held, op.o);
      FlattenSnoc(sent, now);
      assert Flatten(sent + [now]) + [] == Flatten(sent) + now;
    }
  }

  /** Whatever the operations, each entity sent is non-empty, within the negotiated size and, with
      check bytes, one FPDU; together they hold the FPDUs in order. */
  lemma {:induction false} ShippedEntities(max: nat, crc: bool, held: Held, ops: seq<ShipOp>)
    requires HEADER_LEN + 1 + Trailer(crc) <= max
    requires Admissible(max, crc, held)
    requires forall op :: op in ops ==> Sendable(max, crc, op)
    ensures var (end, sent) := ShipAll(max, crc, held, ops);
      Admissible(max, crc, end) && AllAdmissible(max, crc, sent) && Flatten(sent) + end == held + PartsOfAll(ops)
    decreases |ops|
  {
    if ops == [] {
      assert [] + held == held + [];
    } else {
      var op, rest := ops[0], ops[1..];
      var (now, sent) := Ship(max, crc, held, op);
      var (end, later) := ShipAll(max, crc, now, rest);
      ShipStep(max, crc, held, op);
      ShippedEntities(max, crc, now, rest);
      assert AllAdmissible(max, crc, sent + later);
      FlattenAppend(sent, later);
      ShipOrder(Flatten(sent), Flatten(later), now, end, held, PartsOf(op), PartsOfAll(rest));
    }
  }

  lemma ShipOrder<T>(sent: seq<T>, later: seq<T>, now: seq<T>, end: seq<T>, held: seq<T>, first: seq<T>, rest: seq<T>)
    requires sent + now == held + first && later + end == now + rest
    ensures (sent + later) + end == held + (first + rest)
  {
    Assoc(sent, later, end);
    Assoc(sent, now, rest);
    Assoc(held, first, rest);
  }

  /** On an empty builder an empty entity is sent exactly when the FPDU alone exceeds the size:
      with check bytes a SYN of 12 octets needs 14. */
  lemma EmptyEntity(max: nat, crc: bool, o: seq<byte>)
    ensures Ship(max, crc, [], Append(o)).1 == [[]] <==> |o| + Trailer(crc) > max
    ensures Ship(max, crc, [], SendIfFull).1 == [[]] <==> max < HEADER_LEN + 1 + Trailer(crc)
  {
    var one: seq<Held>, none: seq<Held> := [[]], [];
    assert |one| == 1 && |none| == 0;
  }

  function PackedEach(es: seq<Held>, crc: bool): (r: seq<seq<byte>>)
    ensures |r| == |es|
  {
    if es == [] then [] else [Packed(es[0], crc)] + PackedEach(es[1..], crc)
  }

  /** No room is left behind in an entity: with check bytes it holds one FPDU, else the next FPDU, of `len` octets, would
      have made it too long, or no octet of data would have fitted any more. */
  predicate Crowded(max: nat, crc: bool, held: Held, len: nat)
  {
    crc || |Packed(held, crc)| + len > max || |Packed(held, crc)| + 7 > max
  }

  /** The entities of operations, the one still held among them. */
  function Shipped(max: nat, crc: bool, held: Held, ops: seq<ShipOp>): seq<Held>
  {
    var (end, sent) := ShipAll(max, crc, held, ops);
    if end == [] then sent else sent + [end]
  }

  /** An entity and the one behind it. */
  predicate Followed(max: nat, crc: bool, e: Held, f: Held) { f != [] && Crowded(max, crc, e, |f[0]|) }

  ghost predicate AllCrowded(max: nat, crc: bool, es: seq<Held>)
  {
    forall i, j :: 0 <= i < j < |es| && j == i + 1 ==> Followed(max, crc, es[i], es[j])
  }

  lemma CrowdedCons(max: nat, crc: bool, e: Held, es: seq<Held>)
    requires AllCrowded(max, crc, es) && (es != [] ==> Followed(max, crc, e, es[0]))
    ensures AllCrowded(max, crc, [e] + es)
  {
    hide Followed;
    var all := [e] + es;
    forall i, j | 0 <= i < j < |all| && j == i + 1 ensures Followed(max, crc, all[i], all[j]) {
      assert all[j] == es[i] && (i > 0 ==> all[i] == es[i - 1]);
    }
  }

  /** Entities that the loop is not told to send at once waste no room. */
  lemma {:induction false} EntitiesCrowded(max: nat, crc: bool, held: Held, ops: seq<ShipOp>)
    requires 7 + Trailer(crc) <= max && Admissible(max, crc, held)
    requires forall op :: op in ops ==> Sendable(max, crc, op) && !op.AppendAndSend?
    ensures AllCrowded(max, crc, Shipped(max, crc, held, ops))
    ensures held != [] ==> Shipped(max, crc, held, ops) != [] && held <= Shipped(max, crc, held, ops)[0]
    decreases |ops|
  {
    hide AllCrowded, Packed, Ship, Shipped, Admissible, Sendable, Followed;
    if ops == [] {
      OneCrowded(max, crc, held);
    } else {
      var op, rest := ops[0], ops[1..];
      assert op in ops && forall o :: o in rest ==> o in ops;
      var (now, sent) := Ship(max, crc, held, op);
      var later := Shipped(max, crc, now, rest);
      ShipStep(max, crc, held, op);
      EntitiesCrowded(max, crc, now, rest);
      ShippedCons(max, crc, held, ops);
      ShipOne(max, crc, held, op);
      if sent == [] {
        assert sent + later == later;
      } else {
        ShippedFilled(max, crc, now, rest);
        HeldCrowded(max, crc, held, op, later);
        CrowdedCons(max, crc, held, later);
      }
    }
  }

  lemma ShippedFilled(max: nat, crc: bool, held: Held, ops: seq<ShipOp>)
    requires 7 + Trailer(crc) <= max && Admissible(max, crc, held)
    requires forall op :: op in ops ==> Sendable(max, crc, op)
    ensures forall i :: 0 <= i < |Shipped(max, crc, held, ops)| ==> Shipped(max, crc, held, ops)[i] != []
  {
    ShippedEntities(max, crc, held, ops);
    var sent := ShipAll(max, crc, held, ops).1;
    forall i | 0 <= i < |sent| ensures sent[i] != [] {
      assert sent[i] in sent;
    }
  }

  lemma ShipOne(max: nat, crc: bool, held: Held, op: ShipOp)
    requires !op.AppendAndSend?
    ensures var (now, sent) := Ship(max, crc, held, op); sent == [held] || (sent == [] && held <= now)
  {
  }

  lemma OneCrowded(max: nat, crc: bool, held: Held)
    ensures var es := Shipped(max, crc, held, []);
      AllCrowded(max, crc, es) && (held != [] ==> es != [] && held <= es[0])
  {
  }

  lemma ShippedCons(max: nat, crc: bool, held: Held, ops: seq<ShipOp>)
    requires ops != []
    ensures var (now, sent) := Ship(max, crc, held, ops[0]);
      Shipped(max, crc, held, ops) == sent + Shipped(max, crc, now, ops[1..])
  {
    hide Ship;
    var (now, sent) := Ship(max, crc, held, ops[0]);
    var (end, later) := ShipAll(max, crc, now, ops[1..]);
    if end != [] {
      Assoc(sent, later, [end]);
    }
  }

  lemma HeldCrowded(max: nat, crc: bool, held: Held, op: ShipOp, later: seq<Held>)
    requires 7 + Trailer(crc) <= max && Admissible(max, crc, held) && Sendable(max, crc, op) && !op.AppendAndSend?
    requires var (now, sent) := Ship(max, crc, held, op); sent != [] && (now != [] ==> later != [] && now <= later[0])
    requires forall i :: 0 <= i < |later| ==> later[i] != []
    ensures held != [] && (later != [] ==> Followed(max, crc, held, later[0]))
  {
    if op.Append? {
      assert [op.o] <= later[0];
    }
  }

  // ---- the builder ----

  class EntityBuilder {
    const maxLen: nat
    const crc: bool
    var buf: seq<byte>
    var count: nat

    constructor (maxLen: nat, crc: bool)
      ensures this.maxLen == maxLen && this.crc == crc && buf == [] && count == 0
    {
      this.maxLen := maxLen;
      this.crc := crc;
      buf := [];
      count := 0;
    }

    /** The builder holds exactly these encoded FPDUs. */
    predicate Holds(held: Held)
      reads this
    {
      buf == Packed(held, crc) && count == |held|
    }

    method FitsLen(len: nat, ghost held: Held) returns (b: bool)
      requires Holds(held)
      ensures b == Fits(maxLen, crc, held, len)
    {
      if crc && count > 0 {
        return false;
      }
      b := |buf| + (if crc then len + Crc.CRC_LEN else len) <= maxLen;
    }

    method RemainingLen(ghost held: Held) returns (n: nat)
      requires Holds(held)
      ensures n == Remaining(maxLen, crc, held)
    {
      if crc && count > 0 {
        return 0;
      }
      var used := |buf| + if crc then Crc.CRC_LEN else 0;
      n := if maxLen > used then maxLen - used else 0;
    }

    method Push(f: Fpdu, ghost held: Held) returns (r: Result<(), EncodeError>)
      requires Holds(held)
      modifies this
      ensures r == match Encode(f) case Ok(_) => Ok(()) case Err(e) => Err(e)
      ensures r.Ok? ==> Holds(held + [Octets(f)])
    {
      var start := |buf|;
      var encoded := EncodeInto(f, buf);
      if encoded.Err? {
        return Err(encoded.error);
      }
      buf := encoded.value;
      if crc {
        assert buf[start..] == Octets(f);
        var c := Crc.Compute(buf[start..]);
        Assoc(old(buf), Octets(f), c);
        buf := buf + c;
      }
      count := count + 1;
      PackedSnoc(held, Octets(f), crc);
      r := Ok(());
    }

    method Take(ghost held: Held) returns (entity: seq<byte>)
      requires Holds(held)
      modifies this
      ensures entity == Packed(held, crc) && Holds([])
    {
      count := 0;
      entity := buf;
      buf := [];
    }

    /** The send loop's way with one more FPDU: send first when it does not fit. */
    method SendThenPush(f: Fpdu, ghost held: Held) returns (r: Result<seq<seq<byte>>, EncodeError>)
      requires Holds(held) && Encode(f) == Ok(Octets(f)) && |Octets(f)| == EncodedLen(f)
      modifies this
      ensures r == Ok(PackedEach(Appended(maxLen, crc, held, Octets(f)).1, crc))
      ensures Holds(Appended(maxLen, crc, held, Octets(f)).0)
    {
      var sent := [];
      ghost var kept := held;
      var fits := FitsLen(EncodedLen(f), held);
      if !fits {
        var e := Take(held);
        sent, kept := [e], [];
        assert [held][1..] == [] && PackedEach([held], crc) == [Packed(held, crc)];
      }
      var pushed := Push(f, kept);
      assert [] + [Octets(f)] == [Octets(f)];
      r := Ok(sent);
    }
  }
}
