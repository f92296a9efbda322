/** Protocol data units read against the canonical log: what a receiver is due to find, and what a sender adds
    to it. */
module LogFollowing {
  import opened Bytes
  import opened Params
  import opened Checkpoints
  import opened Canon
  import opened DataPhase
  import F = Fpdu
  import A = Articles

  /** The next entries of the log are these wires. */
  predicate WiresFrom(cfg: Config, i: nat, wires: seq<seq<byte>>)
  {
    forall t :: 0 <= t < |wires| ==> EntryNo(cfg, i + t) == Wire(wires[t])
  }

  lemma WiresSplit(cfg: Config, i: nat, xs: seq<seq<byte>>, ys: seq<seq<byte>>)
    ensures WiresFrom(cfg, i, xs + ys) <==> WiresFrom(cfg, i, xs) && WiresFrom(cfg, i + |xs|, ys)
  {
    var all := xs + ys;
    if WiresFrom(cfg, i, xs) && WiresFrom(cfg, i + |xs|, ys) {
      forall t | 0 <= t < |all| ensures EntryNo(cfg, i + t) == Wire(all[t]) {
        if t >= |xs| {
          assert EntryNo(cfg, i + |xs| + (t - |xs|)) == Wire(ys[t - |xs|]);
        }
      }
    }
    if WiresFrom(cfg, i, all) {
      forall t | 0 <= t < |xs| ensures EntryNo(cfg, i + t) == Wire(xs[t]) {
        assert all[t] == xs[t];
      }
      forall t | 0 <= t < |ys| ensures EntryNo(cfg, i + |xs| + t) == Wire(ys[t]) {
        assert all[|xs| + t] == ys[t];
        assert EntryNo(cfg, i + (|xs| + t)) == Wire(all[|xs| + t]);
      }
    }
  }

  lemma WiresOne(cfg: Config, i: nat, w: seq<byte>)
    ensures WiresFrom(cfg, i, [w]) <==> EntryNo(cfg, i) == Wire(w)
  {
    hide EntryNo;
    if WiresFrom(cfg, i, [w]) {
      assert EntryNo(cfg, i + 0) == Wire([w][0]);
    }
  }

  type Place = (nat, A.Progress)

  /** One unit read at a place of the log; `None` when it is not what the log says. */
  function FollowOne(cfg: Config, at: Place, p: Pdu): Option<Place>
  {
    match p
    case Data(f) =>
      if !f.kind.IsData() then None
      else
        (match A.Fed(cfg.maxArticle, at.1, f)
         case Err(_) => None
         case Ok((partial, wires)) => if WiresFrom(cfg, at.0, wires) then Some((at.0 + |wires|, partial)) else None)
    case Syn(n) => if at.1.None? && EntryNo(cfg, at.0) == Mark(n) then Some((at.0 + 1, None)) else None
    case DtfEnd =>
      if at.1.None? && EntryNo(cfg, at.0) == Finish && !Reach(cfg, at.0).done then Some((at.0 + 1, None)) else None
    case _ => None
  }

  function Follow(cfg: Config, at: Place, ps: seq<Pdu>): Option<Place>
    decreases |ps|
  {
    if ps == [] then Some(at)
    else
      var next := FollowOne(cfg, at, ps[0]);
      if next.None? then None else Follow(cfg, next.value, ps[1..])
  }

  lemma {:induction false} FollowAppend(cfg: Config, at: Place, xs: seq<Pdu>, ys: seq<Pdu>)
    ensures Follow(cfg, at, xs + ys)
         == if Follow(cfg, at, xs).None? then None else Follow(cfg, Follow(cfg, at, xs).value, ys)
    decreases |xs|
  {
    if xs == [] {
      assert xs + ys == ys;
    } else {
      assert (xs + ys)[0] == xs[0] && (xs + ys)[1..] == xs[1..] + ys;
      var next := FollowOne(cfg, at, xs[0]);
      if next.Some? {
        FollowAppend(cfg, next.value, xs[1..], ys);
      }
    }
  }

  lemma FollowSingle(cfg: Config, at: Place, p: Pdu)
    ensures Follow(cfg, at, [p]) == FollowOne(cfg, at, p)
  {
    assert [p][1..] == [];
  }

  /** Reading only moves on. */
  lemma {:induction false} FollowGrows(cfg: Config, at: Place, ps: seq<Pdu>)
    requires Follow(cfg, at, ps).Some?
    ensures at.0 <= Follow(cfg, at, ps).value.0
    decreases |ps|
  {
    if ps != [] {
      FollowGrows(cfg, FollowOne(cfg, at, ps[0]).value, ps[1..]);
    }
  }

  lemma FeedHead(limit: nat, partial: A.Progress, fs: seq<F.Fpdu>, end: A.Progress, wires: seq<seq<byte>>)
    returns (mid: A.Progress, first: seq<seq<byte>>, rest: seq<seq<byte>>)
    requires fs != [] && A.FeedAll(limit, partial, fs) == Ok((end, wires))
    ensures A.Fed(limit, partial, fs[0]) == Ok((mid, first)) && A.FeedAll(limit, mid, fs[1..]) == Ok((end, rest))
    ensures wires == first + rest
  {
    var head := A.Fed(limit, partial, fs[0]).value;
    mid, first, rest := head.0, head.1, A.FeedAll(limit, head.0, fs[1..]).value.1;
  }

  lemma FollowOneData(cfg: Config, at: Place, f: F.Fpdu, end: A.Progress, wires: seq<seq<byte>>)
    requires f.kind.IsData() && A.Fed(cfg.maxArticle, at.1, f) == Ok((end, wires)) && WiresFrom(cfg, at.0, wires)
    ensures FollowOne(cfg, at, Data(f)) == Some((at.0 + |wires|, end))
  {
  }

  /** Data FPDUs that reassemble to the next wires are read as those wires. */
  lemma {:induction false} FollowData(cfg: Config, i: nat, partial: A.Progress, fs: seq<F.Fpdu>,
                                      end: A.Progress, wires: seq<seq<byte>>)
    requires A.FeedAll(cfg.maxArticle, partial, fs) == Ok((end, wires)) && WiresFrom(cfg, i, wires)
    requires A.AllDataKinds(fs)
    ensures Follow(cfg, (i, partial), Datas(fs)) == Some((i + |wires|, end))
    decreases |fs|
  {
    hide A.Fed, FollowOne, WiresFrom;
    if fs != [] {
      hide A.FeedAll;
      var mid, first, rest := FeedHead(cfg.maxArticle, partial, fs, end, wires);
      WiresSplit(cfg, i, first, rest);
      assert fs[0] in fs && A.AllDataKinds(fs[1..]);
      FollowOneData(cfg, (i, partial), fs[0], mid, first);
      FollowData(cfg, i + |first|, mid, fs[1..], end, rest);
      assert Datas(fs)[0] == Data(fs[0]) && Datas(fs)[1..] == Datas(fs[1..]);
    }
  }

  // ---- what a sender adds ----

  /** The wires a packer holds back are the last entries before place `i`. */
  predicate Holds(cfg: Config, i: nat, pending: seq<seq<byte>>)
  {
    cfg.packing.Valid() && A.Pendable(cfg.packing, pending)
    && |pending| <= i && WiresFrom(cfg, i - |pending|, pending)
  }

  /** The flushed packer completes what is in flight. */
  lemma FollowFlush(cfg: Config, i: nat, pending: seq<seq<byte>>)
    requires Holds(cfg, i, pending)
    ensures Follow(cfg, (i - |pending|, None), Datas(A.Flushed(cfg.packing, pending))) == Some((i, None))
  {
    hide A.Fed, FollowOne, Follow, A.FeedAll, A.AllDataKinds, A.Flushed, A.Pushed, WiresFrom;
    A.FlushFeeds(cfg.maxArticle, cfg.packing, pending);
    A.PushedData(cfg.packing, pending, []);
    FollowData(cfg, i - |pending|, None, A.Flushed(cfg.packing, pending), None, pending);
  }

  lemma WiresRegroup(cfg: Config, i: nat, pending: seq<seq<byte>>, w: seq<byte>,
                     early: seq<seq<byte>>, now: seq<seq<byte>>)
    requires |pending| <= i && WiresFrom(cfg, i - |pending|, pending) && EntryNo(cfg, i) == Wire(w)
    requires early + now == pending + [w]
    ensures |early| + |now| == |pending| + 1
    ensures WiresFrom(cfg, i - |pending|, early) && WiresFrom(cfg, i + 1 - |now|, now)
  {
    hide EntryNo;
    var m := i - |pending|;
    assert |early + now| == |pending + [w]|;
    WiresOne(cfg, i, w);
    hide WiresFrom;
    WiresSplit(cfg, m, pending, [w]);
    WiresSplit(cfg, m, early, now);
    assert m + |early| == i + 1 - |now|;
  }

  /** A wire pushed to the packer moves what is in flight, with what stays behind, one entry on. */
  lemma FollowPush(cfg: Config, i: nat, pending: seq<seq<byte>>, w: seq<byte>)
    requires Holds(cfg, i, pending) && EntryNo(cfg, i) == Wire(w) && A.Admitted(cfg.maxArticle, cfg.packing, w)
    ensures var (now, out) := A.Pushed(cfg.packing, pending, w);
      && Holds(cfg, i + 1, now)
      && Follow(cfg, (i - |pending|, None), Datas(out)) == Some((i + 1 - |now|, None))
  {
    hide A.Fed, FollowOne, A.Pushed, Follow, A.FeedAll, A.AllDataKinds, A.Early, WiresFrom, A.Flushed, A.Pendable,
      A.Admitted, EntryNo, Datas;
    A.PushKeepsPendable(cfg.packing, pending, w);
    A.PushFeeds(cfg.maxArticle, cfg.packing, pending, w);
    A.PushedData(cfg.packing, pending, w);
    FollowPushed(cfg, i, pending, w, A.Early(cfg.packing, pending, w),
                 A.Pushed(cfg.packing, pending, w).0, A.Pushed(cfg.packing, pending, w).1);
  }

  lemma FollowPushed(cfg: Config, i: nat, pending: seq<seq<byte>>, w: seq<byte>,
                     early: seq<seq<byte>>, now: seq<seq<byte>>, out: seq<F.Fpdu>)
    requires Holds(cfg, i, pending) && EntryNo(cfg, i) == Wire(w)
    requires early + now == pending + [w] && A.Pendable(cfg.packing, now)
    requires A.FeedAll(cfg.maxArticle, None, out) == Ok((None, early)) && A.AllDataKinds(out)
    ensures Holds(cfg, i + 1, now)
    ensures Follow(cfg, (i - |pending|, None), Datas(out)) == Some((i + 1 - |now|, None))
  {
    hide A.Fed, FollowOne, Follow, A.FeedAll, A.AllDataKinds, WiresFrom, EntryNo, A.Pendable;
    WiresRegroup(cfg, i, pending, w, early, now);
    FollowData(cfg, i - |pending|, None, out, None, early);
  }

  // ---- entities and queues ----

  lemma {:induction false} PdusSound(ps: seq<Pdu>)
    ensures Pdus(Sound(ps)) == ps
  {
    if ps != [] {
      PdusSound(ps[1..]);
      assert Sound(ps)[1..] == Sound(ps[1..]);
    }
  }

  lemma {:induction false} PdusAppend(xs: seq<Packet>, ys: seq<Packet>)
    ensures Pdus(xs + ys) == Pdus(xs) + Pdus(ys)
  {
    if xs == [] {
      assert xs + ys == ys;
    } else {
      assert (xs + ys)[1..] == xs[1..] + ys;
      PdusAppend(xs[1..], ys);
    }
  }

  lemma {:induction false} PdusAt(ps: seq<Packet>, i: nat)
    requires i < |ps|
    ensures Pdus(ps)[i] == ps[i].pdu
  {
    if i > 0 {
      PdusAt(ps[1..], i - 1);
    }
  }

  lemma DamageKeepsPdus(ps: seq<Packet>, i: nat)
    requires i < |ps|
    ensures Pdus(ps[i := Packet(ps[i].pdu, true)]) == Pdus(ps)
  {
    var qs := ps[i := Packet(ps[i].pdu, true)];
    forall j | 0 <= j < |ps| ensures Pdus(qs)[j] == Pdus(ps)[j] {
      PdusAt(ps, j);
      PdusAt(qs, j);
    }
  }

  lemma {:induction false} PdusOfAppend(xs: seq<ShipOp>, ys: seq<ShipOp>)
    ensures PdusOf(xs + ys) == PdusOf(xs) + PdusOf(ys)
  {
    if xs == [] {
      assert xs + ys == ys;
    } else {
      assert (xs + ys)[1..] == xs[1..] + ys;
      PdusOfAppend(xs[1..], ys);
    }
  }

  lemma {:induction false} PdusOfPuts(ps: seq<Pdu>)
    ensures PdusOf(Puts(ps)) == ps
  {
    if ps != [] {
      PdusOfPuts(ps[1..]);
      assert Puts(ps)[1..] == Puts(ps[1..]);
    }
  }

  /** What is in flight: the queue, then the entity being built. */
  function Flow(fwd: seq<Packet>, entity: seq<Pdu>): seq<Pdu>
  {
    Pdus(fwd) + entity
  }

  lemma FlowSend(fwd: seq<Packet>, entity: seq<Pdu>)
    ensures Flow(fwd + Sound(entity), []) == Flow(fwd, entity)
  {
    PdusAppend(fwd, Sound(entity));
    PdusSound(entity);
  }

  /** However units are grouped into entities, the flow grows by exactly the units, in order. */
  lemma {:induction false} PerformFlow(cfg: Config, entity: seq<Pdu>, fwd: seq<Packet>, ops: seq<ShipOp>)
    ensures var (entity', fwd') := Perform(cfg, entity, fwd, ops);
      Flow(fwd', entity') == Flow(fwd, entity) + PdusOf(ops) && fwd <= fwd'
    decreases |ops|
  {
    if ops == [] {
      assert Flow(fwd, entity) + [] == Flow(fwd, entity);
    } else {
      var (entity1, fwd1) := Perform(cfg, entity, fwd, ops[..1]);
      PerformOne(cfg, entity, fwd, ops[0]);
      assert ops[..1] == [ops[0]];
      PerformFlow(cfg, entity1, fwd1, ops[1..]);
      PerformSplit(cfg, entity, fwd, ops);
      assert PdusOf([ops[0]]) + PdusOf(ops[1..]) == PdusOf(ops) by {
        PdusOfAppend([ops[0]], ops[1..]);
        assert [ops[0]] + ops[1..] == ops;
      }
      Assoc(Flow(fwd, entity), PdusOf([ops[0]]), PdusOf(ops[1..]));
    }
  }

  lemma PerformNothing(cfg: Config, entity: seq<Pdu>, fwd: seq<Packet>)
    ensures Perform(cfg, entity, fwd, []) == (entity, fwd)
  {
  }

  lemma PerformSplit(cfg: Config, entity: seq<Pdu>, fwd: seq<Packet>, ops: seq<ShipOp>)
    requires ops != []
    ensures var (entity1, fwd1) := Perform(cfg, entity, fwd, [ops[0]]);
      Perform(cfg, entity, fwd, ops) == Perform(cfg, entity1, fwd1, ops[1..])
  {
    assert [ops[0]][1..] == [];
  }

  lemma PerformOne(cfg: Config, entity: seq<Pdu>, fwd: seq<Packet>, op: ShipOp)
    ensures var (entity', fwd') := Perform(cfg, entity, fwd, [op]);
      Flow(fwd', entity') == Flow(fwd, entity) + PdusOf([op]) && fwd <= fwd'
  {
    assert [op][1..] == [];
    FlowSend(fwd, entity);
    if op.SendIfFull? {
      assert PdusOf([op]) == [];
      assert Flow(fwd, entity) + [] == Flow(fwd, entity);
    } else {
      assert PdusOf([op]) == [op.p];
      FlowSend(fwd, entity + [op.p]);
      FlowSend(fwd + Sound(entity), [op.p]);
      assert Pdus(fwd) + (entity + [op.p]) == (Pdus(fwd) + entity) + [op.p];
      assert Flow(fwd + Sound(entity), [op.p]) == Flow(fwd, entity) + [op.p] by {
        PdusAppend(fwd, Sound(entity));
        PdusSound(entity);
      }
    }
  }
}
