/** Rules of an attempt step by step: who answers points, which counts are believed, in which order a transfer is closed,
    and what ABORT does to it. */
module SessionRules {
  import opened Bytes
  import opened Params
  import opened Session
  import opened SessionSafety
  import opened SessionLoops
  import F = Fpdu
  import T = StateTable

  // ---- points and counts ----

  lemma TakesPoint()
    ensures T.Apply(T.Tdl02A, T.R(F.Syn)) == T.Next(T.Tdl02A)
    ensures T.Apply(T.Tde02B, T.R(F.Syn)) == T.Next(T.Tde02B)
    ensures T.Apply(T.Tdl02A, T.Local(T.DoAccept)) == T.Next(T.Tdl02A)
    ensures T.Apply(T.Tde02B, T.Local(T.DoAccept)) == T.Next(T.Tde02B)
  {
  }

  /** A receiving side answers a point unless points were agreed without a window. */
  lemma PointAnswered(cfg: Config, s: System)
    ensures s.req == ReqReceiving && s.reqState == T.Tdl02A && s.down != [] && s.down[0] == Syn ==>
      ReqTakes(cfg, s).up
        == s.up + if s.reqAgreed.sync.window == 0 && s.reqAgreed.sync.intervalKb != 0 then [] else [AckSyn]
    ensures s.res == ResReceiving && s.resState == T.Tde02B && s.up != [] && s.up[0] == Syn ==>
      ResTakes(cfg, s).down
        == s.down + if s.resAgreed.sync.window == 0 && s.resAgreed.sync.intervalKb != 0 then [] else [AckSyn]
  {
    hide T.Apply;
    TakesPoint();
  }

  lemma CloseRow()
    ensures T.Apply(T.Of02, T.Local(T.DoClose)) == T.Next(T.Of03A)
  {
  }

  /** A requester believes a positive end of transfer only with its own counts, and closes the file in any other
      case. */
  lemma CountsChecked(cfg: Config, s: System)
    requires s.req == WaitEnd && s.reqState == ReqState(cfg.write, WaitEnd) && !s.broken
    requires s.down != [] && s.down[0].AckTransEnd?
    ensures var m, t := s.down[0], ReqTakes(cfg, s);
      && (t.broken <==> m.ok && (m.octets != s.reqCount.octets || m.articles != s.reqCount.articles))
      && (!t.broken ==> t.up == s.up + [Crf] && t.req == WaitClose && t.reqState == T.Of03A)
  {
    hide T.Apply, ReqState, EventOf;
    ReqTable(cfg.write, WaitEnd, s.down[0]);
    CloseRow();
  }

  // ---- the closing of a transfer ----

  /** How far a closing has come: its state and the answers given. */
  predicate Underway(write: bool, count: Count, c: Closing)
  {
    && c.end == Open
    && match |c.answers|
       case 0 => c.state == ResState(write, ExpectEnd)
       case 1 => c.state == T.Of02 && Ended(count, c.answers[0])
       case 2 => c.state == T.Sf03 && Ended(count, c.answers[0]) && c.answers[1] == AckCrf
       case _ => false
  }

  predicate Ended(count: Count, m: Msg) { m.AckTransEnd? && m.octets == count.octets && m.articles == count.articles }

  /** Data FPDUs are of a data kind. */
  predicate Genuine(a: Arrival) { a.Unit? && a.m.Data? ==> a.m.kind.IsData() }

  lemma EndEvents(state: T.State, k: F.FpduKind, negative: bool)
    requires state == T.Tde07B || state == T.Tdl07B
    ensures var o := T.Apply(state, T.Received(k, negative));
      o.Next? ==> k == F.TransEnd || k == F.Idt || k == F.Abort || k == F.Resyn
  {
    hide T.ApplyConnection, T.ApplyMessage, T.ApplySelection, T.ApplyOpen, T.ApplySendingResyncing,
      T.ApplySendingResynced, T.ApplyReceivingResyncing, T.ApplyReceivingResynced, T.ApplyInterrupted,
      T.ApplySendingData, T.ApplyReceivingData;
  }

  lemma EndAnswered(state: T.State, negative: bool)
    requires state == T.Tde07B || state == T.Tdl07B
    ensures var o := T.Apply(state, T.Received(F.TransEnd, negative));
      o.Next? ==> T.Apply(o.state, T.Local(T.DoAccept)) == T.Next(T.Of02)
  {
    hide T.ApplyConnection, T.ApplyMessage, T.ApplySelection, T.ApplyOpen, T.ApplySendingResyncing,
      T.ApplySendingResynced, T.ApplyReceivingResyncing, T.ApplyReceivingResynced, T.ApplyInterrupted,
      T.ApplySendingData, T.ApplyReceivingData;
  }

  lemma EndRow(write: bool, m: Msg, negative: bool)
    requires m.Data? ==> m.kind.IsData()
    ensures var o := T.Apply(ResState(write, ExpectEnd), T.Received(KindOf(write, m), negative));
      o.Next? ==> m.TransEnd? && T.Apply(o.state, T.Local(T.DoAccept)) == T.Next(T.Of02)
  {
    hide T.Apply;
    EndEvents(ResState(write, ExpectEnd), KindOf(write, m), negative);
    EndAnswered(ResState(write, ExpectEnd), negative);
  }

  lemma CrfRow(write: bool, m: Msg, negative: bool)
    requires m.Data? ==> m.kind.IsData()
    ensures var o := T.Apply(T.Of02, T.Received(KindOf(write, m), negative));
      && (o.Next? ==> m.Crf? || m.Start?)
      && (o.Next? && m.Crf? ==> T.Apply(o.state, T.Local(T.DoAccept)) == T.Next(T.Sf03))
  {
    hide T.ApplyConnection, T.ApplyMessage, T.ApplySelection, T.ApplySending, T.ApplyReceiving;
  }

  lemma DeselectRow(write: bool, m: Msg, negative: bool)
    requires m.Data? ==> m.kind.IsData()
    ensures var o := T.Apply(T.Sf03, T.Received(KindOf(write, m), negative));
      && (o.Next? ==> m.Deselect? || m.Orf?)
      && (o.Next? && m.Deselect? ==> T.Apply(o.state, T.Local(T.DoAccept)) == T.Next(T.Cn03))
  {
    hide T.ApplyConnection, T.ApplyMessage, T.ApplyOpen, T.ApplySending, T.ApplyReceiving, T.FamilyOf;
  }

  /** One arrival in a closing that is under way: answered in its turn, ignored, or the end of it. */
  lemma CloseOneStep(write: bool, count: Count, c: Closing, a: Arrival)
    requires Underway(write, count, c) && Genuine(a)
    ensures var d := CloseOne(write, c, count, a);
      && (a.Abort? ==> d.end == AbortedBy(a.diag) && d.state == T.Cn01)
      && (a.Unit? ==> !d.end.AbortedBy?)
      && (d.end == Open ==> Underway(write, count, d) && c.answers <= d.answers)
      && (d.end == Over ==> Closed(count, d))
  {
    hide T.Apply, ResState, KindOf, F.FpduKind.IsAck;
    match a {
      case Abort(_) => AbortsTo(c.state);
      case Unit(m, d) =>
        var negative := Negative(write, a);
        EndRow(write, m, negative);
        CrfRow(write, m, negative);
        DeselectRow(write, m, negative);
    }
  }

  lemma AbortsTo(state: T.State)
    ensures AfterAbort(state) == T.Cn01
  {
    hide T.ApplyConnection, T.ApplyMessage, T.ApplySelection, T.ApplyOpen, T.ApplySending, T.ApplyReceiving, T.Layer,
      T.FamilyOf;
  }

  /** A transfer closed: connected, with an answer to TRANS.END, one to CRF and one to DESELECT. */
  predicate Closed(count: Count, c: Closing)
  {
    c.state == T.Cn03 && |c.answers| == 3 && Ended(count, c.answers[0]) && c.answers[1..] == [AckCrf, AckDeselect]
  }

  /** However FPDUs arrive, a server closes a transfer in one order: it answers TRANS.END with its own counts, then CRF,
      then DESELECT, and only then is the transfer over; ABORT alone ends it otherwise without a protocol error. */
  lemma {:induction false} ClosingInOrder(write: bool, count: Count, c: Closing, arrivals: seq<Arrival>)
    requires Underway(write, count, c) && forall a :: a in arrivals ==> Genuine(a)
    ensures var d := CloseAll(write, c, count, arrivals);
      && (d.end == Over ==> Closed(count, d))
      && (d.end == Open ==> Underway(write, count, d))
      && (d.end.AbortedBy? ==> d.state == T.Cn01 && exists a :: a in arrivals && a == Abort(d.end.diag))
    decreases |arrivals|
  {
    hide CloseOne, Underway, Closed, Genuine;
    Begun(write, count, c);
    if arrivals != [] {
      var a, rest := arrivals[0], arrivals[1..];
      assert a in arrivals && forall b :: b in rest ==> b in arrivals;
      CloseOneStep(write, count, c, a);
      var d := CloseOne(write, c, count, a);
      if d.end == Open {
        ClosingInOrder(write, count, d, rest);
      } else {
        StaysEnded(write, count, d, rest);
      }
    }
  }

  lemma Begun(write: bool, count: Count, c: Closing)
    requires Underway(write, count, c)
    ensures c.end == Open
  {
  }

  lemma StaysEnded(write: bool, count: Count, c: Closing, arrivals: seq<Arrival>)
    requires c.end != Open
    ensures CloseAll(write, c, count, arrivals) == c
  {
  }
}
