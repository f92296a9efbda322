/** Synchronisation points of a transfer: the store both sides keep for resynchronisation and restarts. */
module Checkpoints {
  import opened Bytes
  import opened Params

  datatype Checkpoint = Checkpoint(sync: nat, fileOffset: nat, dataBytes: nat, articles: nat)

  /** The beginning of the file. */
  const ORIGIN: Checkpoint := Checkpoint(0, 0, 0, 0)

  // ---- specification ----

  datatype Store = Store(points: map<nat, Checkpoint>, acknowledged: nat) {
    function Record(cp: Checkpoint): Store { Store(points[cp.sync := cp], acknowledged) }

    function Get(sync: nat): Option<Checkpoint> {
      if sync == 0 then Some(ORIGIN) else if sync in points then Some(points[sync]) else None
    }

    /** The points from the highest acknowledged one on are kept. */
    function Acknowledge(sync: nat): Store {
      var high := Max(acknowledged, sync);
      Store(map n | n in points && n >= high :: points[n], high)
    }

    /** The point `n` is the last one. */
    predicate IsLast(n: nat) {
      n in points && forall m :: m in points ==> m <= n
    }

    /** Keys name their points and none lies before the acknowledged one. */
    predicate Valid() {
      forall n :: n in points ==> points[n].sync == n && n >= 1 && n >= acknowledged
    }
  }

  const NO_POINTS: Store := Store(map[], 0)

  /** Recording at or after the acknowledged point and acknowledging keep the store valid; no point from
      the acknowledged one on is ever lost. */
  lemma StoreKeeps(s: Store, cp: Checkpoint, sync: nat)
    requires s.Valid()
    ensures cp.sync >= 1 && cp.sync >= s.acknowledged ==> s.Record(cp).Valid() && s.Record(cp).Get(cp.sync) == Some(cp)
    ensures s.Acknowledge(sync).Valid()
    ensures forall n :: n >= Max(s.acknowledged, sync) ==> s.Acknowledge(sync).Get(n) == s.Get(n)
    ensures forall n :: 1 <= n < Max(s.acknowledged, sync) ==> s.Acknowledge(sync).Get(n) == None
    ensures forall n :: n != cp.sync ==> s.Record(cp).Get(n) == s.Get(n)
  {
  }

  // ---- the store in memory ----

  class MemoryCheckpoints {
    var points: map<nat, Checkpoint>
    var acknowledged: nat

    function View(): Store
      reads this
    {
      Store(points, acknowledged)
    }

    constructor ()
      ensures View() == NO_POINTS
    {
      points, acknowledged := map[], 0;
    }

    method Record(cp: Checkpoint)
      modifies this
      ensures View() == old(View()).Record(cp)
    {
      points := points[cp.sync := cp];
    }

    method Get(sync: nat) returns (cp: Option<Checkpoint>)
      ensures cp == View().Get(sync)
    {
      if sync == 0 {
        return Some(ORIGIN);
      }
      return if sync in points then Some(points[sync]) else None;
    }

    /** The point of the highest number. */
    method Last() returns (cp: Option<Checkpoint>)
      ensures cp.None? <==> points == map[]
      ensures cp.Some? ==> exists n :: View().IsLast(n) && cp == Some(points[n])
    {
      if points == map[] {
        return None;
      }
      var keys := points.Keys;
      assert keys != {};
      var best :| best in keys;
      var left := keys - {best};
      while left != {}
        invariant left <= keys && best in keys
        invariant forall n :: n in keys && n !in left ==> n <= best
        decreases |left|
      {
        var n :| n in left;
        if n > best {
          best := n;
        }
        left := left - {n};
      }
      assert View().IsLast(best);
      cp := Some(points[best]);
    }

    method LastAcknowledged() returns (cp: Option<Checkpoint>)
      ensures cp == if acknowledged == 0 || acknowledged !in points then None else Some(points[acknowledged])
    {
      if acknowledged == 0 {
        return None;
      }
      return if acknowledged in points then Some(points[acknowledged]) else None;
    }

    method Acknowledge(sync: nat)
      modifies this
      ensures View() == old(View()).Acknowledge(sync)
    {
      acknowledged := Max(acknowledged, sync);
      points := map n | n in points && n >= acknowledged :: points[n];
    }

    method Clear()
      modifies this
      ensures View() == NO_POINTS
    {
      points, acknowledged := map[], 0;
    }
  }
}
