/** Room for every unit: from which size on a sending loop never sends an empty entity. */
module DataRoom {
  import opened Bytes
  import opened Params
  import opened Checkpoints
  import opened Compressors
  import opened Cutter
  import opened Canon
  import opened DataPhase
  import opened LogFollowing
  import opened DataSafety
  import opened DataSteps
  import opened DataReception
  import opened DataTheorems
  import opened DataNumbers
  import opened DataUnits
  import opened DataWire
  import E = Entities
  import F = Fpdu
  import T = Transport
  import A = Articles

  /** No entity sent while operations are performed is empty. */
  predicate Filled(cfg: Config, entity: seq<Pdu>, ops: seq<ShipOp>)
  {
    forall e :: e in Sent(cfg, entity, ops) ==> e != []
  }

  /** The longest unit but data: a number of three octets, or the diagnostic of DTF.END. */
  const ROOM: nat := 11

  lemma {:induction false} FilledWhenFit(cfg: Config, entity: seq<Pdu>, ops: seq<ShipOp>)
    requires cfg.packing.Valid() && AllFit(cfg, PdusOf(ops))
    ensures Filled(cfg, entity, ops)
    decreases |ops|
  {
    hide PduLen, Perform;
    if ops != [] {
      var now := Perform(cfg, entity, [], [ops[0]]).0;
      LaterFit(cfg, ops);
      PerformsOne(cfg, entity, [], ops);
      FilledWhenFit(cfg, now, ops[1..]);
      OneFilled(cfg, entity, ops[0]);
    }
  }

  lemma LaterFit(cfg: Config, ops: seq<ShipOp>)
    requires ops != [] && AllFit(cfg, PdusOf(ops))
    ensures AllFit(cfg, PdusOf(ops[1..]))
    ensures !ops[0].SendIfFull? ==> PduLen(ops[0].p) <= cfg.packing.maxDtf
  {
    hide PduLen;
    assert forall p :: p in PdusOf(ops[1..]) ==> p in PdusOf(ops);
    if !ops[0].SendIfFull? {
      assert PdusOf(ops)[0] == ops[0].p;
    }
  }

  lemma OneFilled(cfg: Config, entity: seq<Pdu>, op: ShipOp)
    requires cfg.packing.Valid() && (!op.SendIfFull? ==> PduLen(op.p) <= cfg.packing.maxDtf)
    ensures Filled(cfg, entity, [op])
  {
    hide PduLen;
    assert [op][1..] == [];
    assert entity == [] ==> Room(cfg, entity) == cfg.packing.maxDtf;
    match op {
      case SendIfFull => assert Sent(cfg, entity, [op]) == if Room(cfg, entity) < F.HEADER_LEN + 1 then [entity] else [];
      case Put(p) => assert Sent(cfg, entity, [op]) == if PduLen(p) <= Room(cfg, entity) then [] else [entity];
      case PutAndSend(p) =>
        assert Sent(cfg, entity, [op]) == if PduLen(p) <= Room(cfg, entity) then [entity + [p]] else [entity, [p]];
    }
  }

  // ---- the units of a turn fit ----

  lemma {:induction false} DatasFit(cfg: Config, fs: seq<F.Fpdu>)
    requires cfg.packing.Valid() && A.AllShippable(cfg.packing, fs)
    ensures AllFit(cfg, Datas(fs)) && AllEncodable(Datas(fs))
  {
    hide F.WellFormed, A.Shippable, F.EncodedLen;
    if fs != [] {
      assert fs[0] in fs && forall f :: f in fs[1..] ==> f in fs;
      ShippableData(cfg.packing, fs[0]);
      DataWellFormed(cfg.packing, fs[0]);
      DatasFit(cfg, fs[1..]);
    }
  }

  lemma ShippableData(p: A.Packing, f: F.Fpdu)
    requires A.Shippable(p, f)
    ensures f.kind.IsData()
  {
  }

  /** Both of units taken together. */
  lemma BothFit(cfg: Config, xs: seq<Pdu>, ys: seq<Pdu>)
    requires AllFit(cfg, xs) && AllEncodable(xs) && AllFit(cfg, ys) && AllEncodable(ys)
    ensures AllFit(cfg, xs + ys) && AllEncodable(xs + ys)
  {
    hide PduLen, Encodable;
    forall p | p in xs + ys ensures PduLen(p) <= cfg.packing.maxDtf && Encodable(p) {
      assert p in xs || p in ys;
    }
  }

  lemma LastFits(cfg: Config, fs: seq<F.Fpdu>, p: Pdu)
    requires cfg.packing.Valid() && cfg.packing.maxDtf >= ROOM && A.AllShippable(cfg.packing, fs)
    requires p == DtfEnd || (p.Syn? && p.n < MAX_SYNC_NUMBER)
    ensures AllFit(cfg, Datas(fs) + [p]) && AllEncodable(Datas(fs) + [p])
  {
    DatasFit(cfg, fs);
    assert PduLen(p) <= ROOM by {
      if p.Syn? {
        NumLenIs(p.n);
        ThreeOctets(p.n);
      }
    }
    BothFit(cfg, Datas(fs), [p]);
  }

  lemma ArticleFits(cfg: Config, v: Sender)
    requires cfg.packing.Valid() && v.next < |cfg.arts| && A.Pendable(cfg.packing, v.pending)
    ensures AllFit(cfg, PdusOf(ArticleOps(cfg, v))) && AllEncodable(PdusOf(ArticleOps(cfg, v)))
  {
    hide WireOut, Puts, Datas, AllFit, AllEncodable, A.AllShippable;
    var w := WireOut(cfg, v.comp, cfg.arts[v.next]);
    A.PushShippable(cfg.packing, v.pending, w);
    ArticleUnits(A.Pushed(cfg.packing, v.pending, w).1);
    DatasFit(cfg, A.Pushed(cfg.packing, v.pending, w).1);
  }

  /** In a log of fewer than 2^24 points every unit a turn sends can be read back, and fits an entity of its own. */
  lemma TurnFits(cfg: Config, s: System, a: Action, si: nat, ri: nat)
    requires cfg.Valid() && Inv(cfg, s, si, ri)
    requires Points(cfg) < MAX_SYNC_NUMBER && cfg.packing.maxDtf >= ROOM
    ensures AllFit(cfg, PdusOf(TurnOps(cfg, s, a))) && AllEncodable(PdusOf(TurnOps(cfg, s, a)))
  {
    hide Inv, PointDue, PointOps, ArticleOps, EndOps, SenderAt, WireOut, Points, Puts, AllFit, AllEncodable,
      A.AllShippable, A.Flushed;
    var v := s.sender;
    NothingFits(cfg);
    if CanSend(cfg, s) {
      SenderPlaced(cfg, s, si, ri);
      var flushed := A.Flushed(cfg.packing, v.pending);
      A.FlushShippable(cfg.packing, v.pending);
      EndUnits(cfg, v);
      LastFits(cfg, flushed, DtfEnd);
      if v.next < |cfg.arts| {
        if PointDue(cfg, v) {
          var at := AtPoint(cfg, v);
          NextPointWithin(cfg, v, si);
          PointUnits(cfg, v);
          LastFits(cfg, flushed, Syn(v.syncNo + 1));
          ArticleFits(cfg, at);
          PdusOfAppend(PointOps(cfg, v), ArticleOps(cfg, at));
          BothFit(cfg, PdusOf(PointOps(cfg, v)), PdusOf(ArticleOps(cfg, at)));
        } else {
          ArticleFits(cfg, v);
        }
      }
    }
  }

  lemma NothingFits(cfg: Config)
    ensures AllFit(cfg, PdusOf([])) && AllEncodable(PdusOf([]))
  {
  }

  // ---- exactly when ----

  /** Under this packing no turn of any run, of any transfer with fewer than 2^24 points, sends an empty entity. */
  ghost predicate NeverEmpty(p: A.Packing)
    requires p.Valid()
  {
    forall cfg: Config, past: seq<Action>, a: Action |
        cfg.packing == p && cfg.Valid() && Points(cfg) < MAX_SYNC_NUMBER && AllAllowed(cfg, past) ::
      var s := DataPhase.Run(cfg, past); Filled(cfg, s.sender.entity, TurnOps(cfg, s, a))
  }

  /** Entities are never empty if and only if each unit finds room in one: 11 octets, two more with check bytes. */
  lemma {:induction false} RoomNeeded(p: A.Packing)
    requires p.Valid()
    ensures NeverEmpty(p) <==> p.maxDtf >= ROOM
  {
    hide DataPhase.Run, AllAllowed, TurnOps, Points;
    if p.maxDtf >= ROOM {
      forall cfg: Config, past: seq<Action>, a: Action |
        cfg.packing == p && cfg.Valid() && Points(cfg) < MAX_SYNC_NUMBER && AllAllowed(cfg, past)
        ensures var s := DataPhase.Run(cfg, past); Filled(cfg, s.sender.entity, TurnOps(cfg, s, a))
      {
        var si, ri := RunKeeps(cfg, past);
        TurnFits(cfg, DataPhase.Run(cfg, past), a, si, ri);
        FilledWhenFit(cfg, DataPhase.Run(cfg, past).sender.entity, TurnOps(cfg, DataPhase.Run(cfg, past), a));
      }
    } else {
      EmptyFileFails(p);
    }
  }

  function EmptyFile(p: A.Packing): Config
  {
    Config([], [0], Bu, NoCompression, 0, p, NO_SYNC, false, false)
  }

  const STARTED: seq<Action> := [BeginReceiver(0), BeginSender(0)]

  /** The loops of an empty file, both started. */
  lemma EmptyFileStarts(p: A.Packing)
    requires p.Valid()
    ensures var cfg := EmptyFile(p);
      && cfg.Valid() && Points(cfg) < MAX_SYNC_NUMBER && AllAllowed(cfg, STARTED)
      && var s := DataPhase.Run(cfg, STARTED);
         CanSend(cfg, s) && s.sender.next == 0 && s.sender.pending == [] && s.sender.entity == []
  {
    var cfg, first := EmptyFile(p), [BeginReceiver(0)];
    PointsBound(cfg, 0);
    RunSnoc(cfg, [], BeginReceiver(0));
    assert [] + first == first && first + [BeginSender(0)] == STARTED;
    RunSnoc(cfg, first, BeginSender(0));
  }

  /** Of an empty file DTF.END is all there is, behind an empty entity when it finds no room. */
  lemma EmptyFileSends(p: A.Packing)
    requires p.Valid() && p.maxDtf < ROOM
    ensures var cfg := EmptyFile(p);
      && cfg.Valid() && Points(cfg) < MAX_SYNC_NUMBER && AllAllowed(cfg, STARTED)
      && var s := DataPhase.Run(cfg, STARTED); Sent(cfg, s.sender.entity, TurnOps(cfg, s, SendEnd)) == [[], [DtfEnd]]
  {
    hide DataPhase.Run, AllAllowed, Points;
    EmptyFileStarts(p);
    var cfg := EmptyFile(p);
    var ops := [PutAndSend(DtfEnd)];
    assert Puts(Datas([])) + ops == ops && ops[1..] == [];
    assert EndOps(cfg, DataPhase.Run(cfg, STARTED).sender) == ops;
  }

  lemma EmptyFileFails(p: A.Packing)
    requires p.Valid() && p.maxDtf < ROOM
    ensures var cfg := EmptyFile(p);
      && cfg.Valid() && Points(cfg) < MAX_SYNC_NUMBER && AllAllowed(cfg, STARTED)
      && var s := DataPhase.Run(cfg, STARTED); !Filled(cfg, s.sender.entity, TurnOps(cfg, s, SendEnd))
  {
    hide DataPhase.Run, AllAllowed, Points, TurnOps, Sent;
    EmptyFileSends(p);
    var es: seq<seq<Pdu>> := [[], [DtfEnd]];
    assert es[0] in es;
  }

  /** Behind length prefixes that is the end of the session: the reader takes no empty entity. */
  lemma EmptyFileUnread(p: A.Packing, peer: byte, st: T.Reading)
    requires p.Valid() && p.maxDtf < ROOM && st.framing == T.LengthPrefixed
    ensures var cfg := EmptyFile(p);
      var s := DataPhase.Run(cfg, STARTED);
      var es := E.PackedEach(OctetsEach(Sent(cfg, s.sender.entity, TurnOps(cfg, s, SendEnd)), peer), cfg.crc);
      && (forall e :: e in es ==> |e| <= 0xFFFF)
      && T.ReadAll(st, T.Written(T.LengthPrefixed, es)) == Err(T.Invalid(0))
  {
    hide DataPhase.Run, TurnOps, Sent, OctetsOf, T.ReadAll, T.Written, AllAllowed, Points;
    EmptyFileSends(p);
    var units: seq<seq<Pdu>>, o := [[], [DtfEnd]], OctetsOf(DtfEnd, peer);
    UnitOctets(DtfEnd, peer);
    Alone(DtfEnd, peer);
    Singly([DtfEnd], peer);
    assert units[1..] == [[DtfEnd]];
    var held: seq<E.Held> := [[], [o]];
    assert OctetsEach(units, peer) == held && held[1..] == [[o]] && held[1..][1..] == [];
    E.PackedOne(o, false);
    var es: seq<seq<byte>> := [[]] + [o];
    assert E.PackedEach(held, false) == es;
    T.EmptyEntityUnread(st, [o]);
  }
}
