/** The FPDU link: entities that arrived, and the FPDUs of the current one still to be taken. */
module Links {
  import opened Bytes
  import opened Fpdu
  import opened Codec
  import opened FpduOps
  import opened Entities
  import opened Transport

  datatype LinkError = TransportFailed(cause: TransportError) | Undecodable(cause_: DecodeError) | Timeout

  type Arrival = Result<seq<byte>, TransportError>

  /** FPDUs still to be taken, entities that arrived, whether the reader behind them has ended, and whether the
      link knows it. */
  datatype Queue = Queue(pending: seq<Fpdu>, rx: seq<Arrival>, ended: bool, closed: bool)

  /** The FPDUs decoded from the parts, up to the first that does not decode. */
  function Decoded(parts: seq<seq<byte>>): (seq<Fpdu>, Option<DecodeError>)
  {
    if parts == [] then ([], None)
    else
      match Decode(parts[0], true)
      case Err(e) => ([], Some(e))
      case Ok(f) => var (fs, e) := Decoded(parts[1..]); ([f] + fs, e)
  }

  /** What an entity adds to the queue, and the error it ends with. */
  function Enqueued(entity: seq<byte>, crc: bool): (seq<Fpdu>, Option<DecodeError>)
  {
    match Split(entity, crc)
    case Err(e) => ([], Some(e))
    case Ok(parts) => Decoded(parts)
  }

  /** The next FPDU, of the next entity when none is pending. */
  function Next(q: Queue, crc: bool): (Queue, Result<Fpdu, LinkError>)
  {
    if q.pending != [] then (q.(pending := q.pending[1..]), Ok(q.pending[0]))
    else if q.closed then (q, Err(TransportFailed(Closed)))
    else if q.rx == [] then
      if q.ended then (q.(closed := true), Err(TransportFailed(Closed))) else (q, Err(Timeout))
    else
      match q.rx[0]
      case Err(e) => (Queue([], q.rx[1..], q.ended, true), Err(TransportFailed(e)))
      case Ok(entity) =>
        var (fs, bad) := Enqueued(entity, crc);
        if bad.Some? then (Queue(fs, q.rx[1..], q.ended, false), Err(Undecodable(bad.value)))
        else if fs == [] then (Queue([], q.rx[1..], q.ended, false), Err(TransportFailed(Invalid(|entity|))))
        else (Queue(fs[1..], q.rx[1..], q.ended, false), Ok(fs[0]))
  }

  class Link {
    var pending: seq<Fpdu>
    var rx: seq<Arrival>
    const ended: bool
    var closed: bool
    const crc: bool

    function View(): Queue
      reads this
    {
      Queue(pending, rx, ended, closed)
    }

    constructor (rx: seq<Arrival>, ended: bool, crc: bool)
      ensures View() == Queue([], rx, ended, false) && this.crc == crc
    {
      pending, closed := [], false;
      this.rx := rx;
      this.ended := ended;
      this.crc := crc;
    }

    /** An entity decoded into the queue. */
    method QueueEntity(entity: seq<byte>) returns (bad: Option<DecodeError>)
      requires pending == []
      modifies `pending
      ensures (pending, bad) == Enqueued(entity, crc)
    {
      var parts := SplitEntity(entity, crc);
      if parts.Err? {
        return Some(parts.error);
      }
      assert parts.value[0..] == parts.value && [] + Decoded(parts.value).0 == Decoded(parts.value).0;
      for i := 0 to |parts.value|
        invariant (pending + Decoded(parts.value[i..]).0, Decoded(parts.value[i..]).1) == Decoded(parts.value)
      {
        assert parts.value[i..][1..] == parts.value[i + 1..];
        var f := DecodeWith(parts.value[i], true);
        if f.Err? {
          assert pending + [] == pending;
          return Some(f.error);
        }
        Assoc(pending, [f.value], Decoded(parts.value[i + 1..]).0);
        pending := pending + [f.value];
      }
      assert pending + [] == pending;
      return None;
    }

    method Recv() returns (r: Result<Fpdu, LinkError>)
      modifies this
      ensures (View(), r) == Next(old(View()), crc)
    {
      if pending != [] {
        r := Ok(pending[0]);
        pending := pending[1..];
        return;
      }
      if closed {
        return Err(TransportFailed(Closed));
      }
      if rx == [] {
        if ended {
          closed := true;
          return Err(TransportFailed(Closed));
        }
        return Err(Timeout);
      }
      var item := rx[0];
      rx := rx[1..];
      if item.Err? {
        closed := true;
        return Err(TransportFailed(item.error));
      }
      var bad := QueueEntity(item.value);
      if bad.Some? {
        return Err(Undecodable(bad.value));
      }
      if pending == [] {
        return Err(TransportFailed(Invalid(|item.value|)));
      }
      r := Ok(pending[0]);
      pending := pending[1..];
    }

    /** Without waiting: nothing when nothing has arrived, an error once when the reader has ended, nothing after
        that. */
    method TryRecv() returns (r: Result<Option<Fpdu>, LinkError>)
      modifies this
      ensures if old(pending == [] && (closed || (rx == [] && !ended))) then r == Ok(None) && View() == old(View())
        else
          var (now, next) := Next(old(View()), crc);
          View() == now && r == match next
            case Ok(f) => Ok(Some(f))
            case Err(TransportFailed(Invalid(_))) =>
              if old(rx[0]).Ok? && Enqueued(old(rx[0]).value, crc) == ([], None) then Ok(None) else Err(next.error)
            case Err(e) => Err(e)
    {
      if pending != [] {
        r := Ok(Some(pending[0]));
        pending := pending[1..];
        return;
      }
      if closed {
        return Ok(None);
      }
      if rx == [] {
        if ended {
          closed := true;
          return Err(TransportFailed(Closed));
        }
        return Ok(None);
      }
      var item := rx[0];
      rx := rx[1..];
      if item.Err? {
        closed := true;
        return Err(TransportFailed(item.error));
      }
      var bad := QueueEntity(item.value);
      if bad.Some? {
        return Err(Undecodable(bad.value));
      }
      if pending == [] {
        return Ok(None);
      }
      r := Ok(Some(pending[0]));
      pending := pending[1..];
    }
  }

  // ---- the link as a queue of FPDUs ----

  /** The arrivals are entities holding exactly these FPDUs, in order. */
  ghost predicate Carries(q: Queue, crc: bool, fss: seq<seq<Fpdu>>)
  {
    && !q.closed
    && |q.rx| == |fss|
    && forall i :: 0 <= i < |fss| ==>
         q.rx[i].Ok? && fss[i] != [] && Enqueued(q.rx[i].value, crc) == (fss[i], None)
  }

  lemma {:induction false} DecodedAll(parts: seq<seq<byte>>, fs: seq<Fpdu>)
    requires DecodeAll(parts) == Ok(fs)
    ensures Decoded(parts) == (fs, None)
    decreases |parts|
  {
    if parts != [] {
      DecodedAll(parts[1..], fs[1..]);
      assert fs == [fs[0]] + fs[1..];
    }
  }

  /** An entity built from well-formed FPDUs is queued as those FPDUs. */
  lemma QueuesPacked(fs: seq<Fpdu>, crc: bool)
    requires AllWellFormed(fs)
    ensures Enqueued(Packed(OctetsOf(fs), crc), crc) == (fs, None)
  {
    DecodeOctets(fs);
    SplitPacked(OctetsOf(fs), crc);
    DecodedAll(OctetsOf(fs), fs);
  }

  /** The entities left when the next FPDU has been taken. */
  function Left(q: Queue, fss: seq<seq<Fpdu>>): seq<seq<Fpdu>>
  {
    if q.pending != [] || fss == [] then fss else fss[1..]
  }

  lemma HeadOf<T>(xs: seq<T>, ys: seq<T>)
    requires xs != []
    ensures (xs + ys)[0] == xs[0] && (xs + ys)[1..] == xs[1..] + ys
  {
  }

  /** However the FPDUs were grouped into entities, the link hands them over one by one, in order. */
  lemma DeliversInOrder(q: Queue, crc: bool, fss: seq<seq<Fpdu>>)
    requires Carries(q, crc, fss) && q.pending + Flatten(fss) != []
    ensures var (now, r) := Next(q, crc);
      && Carries(now, crc, Left(q, fss))
      && r == Ok((q.pending + Flatten(fss))[0])
      && now.pending + Flatten(Left(q, fss)) == (q.pending + Flatten(fss))[1..]
  {
    if q.pending != [] {
      HeadOf(q.pending, Flatten(fss));
    } else {
      assert fss != [];
      HeadOf(fss[0], Flatten(fss[1..]));
      assert [] + Flatten(fss) == Flatten(fss);
    }
  }

  /** The next `n` FPDUs. */
  function NextAll(q: Queue, crc: bool, n: nat): (Queue, Result<seq<Fpdu>, LinkError>)
    decreases n
  {
    if n == 0 then (q, Ok([]))
    else
      var (now, r) := Next(q, crc);
      if r.Err? then (now, Err(r.error))
      else var (end, rest) := NextAll(now, crc, n - 1); (end, Following([r.value], rest))
  }

  /** The whole queue comes out: as many FPDUs as were sent, those FPDUs in their order, and nothing is left. */
  lemma {:induction false} DrainsInOrder(q: Queue, crc: bool, fss: seq<seq<Fpdu>>)
    requires Carries(q, crc, fss)
    ensures var all := q.pending + Flatten(fss);
      NextAll(q, crc, |all|) == (Queue([], [], q.ended, false), Ok(all))
    decreases |q.pending| + |Flatten(fss)|
  {
    hide Carries, Next, Left, Flatten, NextAll, Following;
    var all := q.pending + Flatten(fss);
    if all == [] {
      NothingCarried(q, crc, fss);
    } else {
      DeliversInOrder(q, crc, fss);
      NextKeepsEnd(q, crc);
      var (now, r) := Next(q, crc);
      TailLength(all, now.pending + Flatten(Left(q, fss)));
      DrainsInOrder(now, crc, Left(q, fss));
      NextThenAll(q, crc, |all|);
      HeadThenTail(all);
    }
  }

  lemma TailLength(all: seq<Fpdu>, tail: seq<Fpdu>)
    requires all != [] && tail == all[1..]
    ensures |tail| == |all| - 1
  {
  }

  lemma HeadThenTail(all: seq<Fpdu>)
    requires all != []
    ensures Following<Fpdu, LinkError>([all[0]], Ok(all[1..])) == Ok(all)
  {
    assert [all[0]] + all[1..] == all;
  }

  lemma NextThenAll(q: Queue, crc: bool, n: nat)
    requires n > 0 && Next(q, crc).1.Ok?
    ensures var (now, r) := Next(q, crc);
      var (end, rest) := NextAll(now, crc, n - 1);
      NextAll(q, crc, n) == (end, Following([r.value], rest))
  {
  }

  lemma NothingCarried(q: Queue, crc: bool, fss: seq<seq<Fpdu>>)
    requires Carries(q, crc, fss) && q.pending + Flatten(fss) == []
    ensures NextAll(q, crc, 0) == (Queue([], [], q.ended, false), Ok([]))
  {
    if fss != [] {
      assert false;
    }
  }

  lemma NextKeepsEnd(q: Queue, crc: bool)
    ensures Next(q, crc).0.ended == q.ended
  {
  }
}
