/** The waiting loops of the requester and the responder, on their automata. */
module SessionLoops {
  import opened Bytes
  import opened Session
  import opened SessionSafety
  import F = Fpdu
  import T = StateTable

  /** Diagnostics: class and reason. */
  datatype Diag = Diag(class_: nat, reason: nat)

  const DIAG_OK: Diag := Diag(0, 0)
  const INVALID_COUNTS: Diag := Diag(3, 319)

  /** What arrives: an FPDU with its diagnostic, or ABORT. */
  datatype Arrival = Unit(m: Msg, diag: Diag) | Abort(diag: Diag)

  /** An acknowledgement with a diagnostic other than success. */
  predicate Negative(write: bool, a: Arrival)
  {
    a.Unit? && KindOf(write, a.m).IsAck() && a.diag != DIAG_OK
  }

  function EventFor(write: bool, a: Arrival): T.Event
  {
    if a.Abort? then T.R(F.Abort) else T.Received(KindOf(write, a.m), Negative(write, a))
  }

  /** What waiting for an FPDU comes to: the one expected, its negative form, another one, ABORT, or none yet. */
  datatype Reply = Got(m: Msg) | Refusal(m: Msg, diag: Diag) | Unexpected(m: Msg) | Aborted(diag: Diag) | Nothing

  /** The outcome of waiting among what arrives: the automaton's state, the reply, and how much was taken. */
  datatype Wait = Wait(state: T.State, reply: Reply, taken: nat)

  /** The automaton after ABORT. */
  function AfterAbort(state: T.State): T.State
  {
    match T.Apply(state, T.R(F.Abort))
    case Next(t) => t
    case _ => state
  }

  function Awaited(write: bool, state: T.State, arrivals: seq<Arrival>, expected: F.FpduKind): Wait
    decreases |arrivals|
  {
    if arrivals == [] then Wait(state, Nothing, 0)
    else
      match arrivals[0]
      case Abort(d) => Wait(AfterAbort(state), Aborted(d), 1)
      case Unit(m, d) =>
        (match T.Apply(state, EventFor(write, arrivals[0]))
         case Refuse => Wait(state, Unexpected(m), 1)
         case Ignore => var w := Awaited(write, state, arrivals[1..], expected); w.(taken := w.taken + 1)
         case Next(t) =>
           Wait(t,
                if KindOf(write, m) != expected then Unexpected(m)
                else if Negative(write, arrivals[0]) then Refusal(m, d)
                else Got(m),
                1))
  }

  // ---- what a wait answers, read off the arrivals ----

  /** Refused by the peer: an acknowledgement with a class or a reason other than zero. */
  predicate Refusing(write: bool, m: Msg, d: Diag)
  {
    KindOf(write, m).IsAck() && !(d.class_ == 0 && d.reason == 0)
  }

  /** What the automaton says to an arrival. */
  function Verdict(write: bool, state: T.State, a: Arrival): T.Outcome
  {
    match a
    case Abort(_) => T.Next(T.Cn01)
    case Unit(m, d) => T.Apply(state, T.Received(KindOf(write, m), Refusing(write, m, d)))
  }

  /** The first arrival the automaton does not ignore. */
  predicate Decides(write: bool, state: T.State, arrivals: seq<Arrival>, k: nat)
  {
    && k < |arrivals| && Verdict(write, state, arrivals[k]) != T.Ignore
    && forall i :: 0 <= i < k ==> Verdict(write, state, arrivals[i]) == T.Ignore
  }

  /** A wait ends with the first arrival the automaton does not ignore, and says what it was: the FPDU awaited only if
      the automaton accepts it and the peer refuses nothing by it, a refusal with the peer's own diagnostic, an FPDU
      out of place, or ABORT. */
  lemma {:induction false} WaitDecided(write: bool, state: T.State, arrivals: seq<Arrival>, expected: F.FpduKind,
                                       k: nat, m: Msg, d: Diag)
    requires Decides(write, state, arrivals, k)
    ensures var a, v, w := arrivals[k], Verdict(write, state, arrivals[k]), Awaited(write, state, arrivals, expected);
      && w.taken == k + 1
      && w.state == (if v.Next? then v.state else state)
      && (w.reply == Got(m) <==> a.Unit? && a.m == m && v.Next? && KindOf(write, m) == expected
                                 && !Refusing(write, m, a.diag))
      && (w.reply == Refusal(m, d) <==> a == Unit(m, d) && v.Next? && KindOf(write, m) == expected
                                        && Refusing(write, m, d))
      && (w.reply == Unexpected(m) <==> a.Unit? && a.m == m && (v.Refuse? || KindOf(write, m) != expected))
      && (w.reply == Aborted(d) <==> a == Abort(d))
      && w.reply != Nothing
    decreases |arrivals|
  {
    hide T.Apply, F.FpduKind.IsAck, Verdict;
    if k == 0 {
      DecidedFirst(write, state, arrivals, expected, m, d);
    } else {
      assert Verdict(write, state, arrivals[0]) == T.Ignore;
      NoAbortIgnored(write, state, arrivals[0]);
      IgnoredFirst(write, state, arrivals, expected);
      assert Decides(write, state, arrivals[1..], k - 1) by {
        forall i | 0 <= i < k - 1 ensures Verdict(write, state, arrivals[1..][i]) == T.Ignore {
          assert arrivals[1..][i] == arrivals[i + 1];
        }
      }
      WaitDecided(write, state, arrivals[1..], expected, k - 1, m, d);
    }
  }

  lemma DecidedFirst(write: bool, state: T.State, arrivals: seq<Arrival>, expected: F.FpduKind, m: Msg, d: Diag)
    requires arrivals != [] && Verdict(write, state, arrivals[0]) != T.Ignore
    ensures var a, v, w := arrivals[0], Verdict(write, state, arrivals[0]), Awaited(write, state, arrivals, expected);
      && w.taken == 1
      && w.state == (if v.Next? then v.state else state)
      && (w.reply == Got(m) <==> a.Unit? && a.m == m && v.Next? && KindOf(write, m) == expected
                                 && !Refusing(write, m, a.diag))
      && (w.reply == Refusal(m, d) <==> a == Unit(m, d) && v.Next? && KindOf(write, m) == expected
                                        && Refusing(write, m, d))
      && (w.reply == Unexpected(m) <==> a.Unit? && a.m == m && (v.Refuse? || KindOf(write, m) != expected))
      && (w.reply == Aborted(d) <==> a == Abort(d))
      && w.reply != Nothing
  {
    hide Awaited, Verdict, KindOf, Refusing;
    FirstOf(write, state, arrivals, expected);
  }

  /** What the first arrival that is not ignored comes to. */
  lemma FirstOf(write: bool, state: T.State, arrivals: seq<Arrival>, expected: F.FpduKind)
    requires arrivals != [] && Verdict(write, state, arrivals[0]) != T.Ignore
    ensures Awaited(write, state, arrivals, expected)
         == match arrivals[0]
            case Abort(d) => Wait(T.Cn01, Aborted(d), 1)
            case Unit(m, d) =>
              if Verdict(write, state, arrivals[0]).Refuse? then Wait(state, Unexpected(m), 1)
              else
                Wait(Verdict(write, state, arrivals[0]).state,
                     if KindOf(write, m) != expected then Unexpected(m)
                     else if Refusing(write, m, d) then Refusal(m, d) else Got(m), 1)
    ensures arrivals[0].Abort? ==> Verdict(write, state, arrivals[0]) == T.Next(T.Cn01)
  {
    hide T.Apply, F.FpduKind.IsAck, KindOf;
    if arrivals[0].Abort? {
      AbortDisconnects(write, state, expected, arrivals[0].diag, arrivals[1..]);
      assert [arrivals[0]] + arrivals[1..] == arrivals;
    }
  }

  lemma IgnoredFirst(write: bool, state: T.State, arrivals: seq<Arrival>, expected: F.FpduKind)
    requires arrivals != [] && Verdict(write, state, arrivals[0]) == T.Ignore
    ensures var w := Awaited(write, state, arrivals[1..], expected);
      Awaited(write, state, arrivals, expected) == w.(taken := w.taken + 1)
  {
    hide T.Apply, F.FpduKind.IsAck, KindOf;
  }

  lemma NoAbortIgnored(write: bool, state: T.State, a: Arrival)
    requires Verdict(write, state, a) == T.Ignore
    ensures a.Unit?
  {
  }

  /** A wait goes on exactly while the automaton ignores whatever arrives, and leaves the automaton as it was. */
  lemma {:induction false} WaitGoesOn(write: bool, state: T.State, arrivals: seq<Arrival>, expected: F.FpduKind)
    ensures var w := Awaited(write, state, arrivals, expected);
      && (w.reply == Nothing <==>
            forall i :: 0 <= i < |arrivals| ==> Verdict(write, state, arrivals[i]) == T.Ignore)
      && (w.reply == Nothing ==> w == Wait(state, Nothing, |arrivals|))
    decreases |arrivals|
  {
    hide T.Apply, F.FpduKind.IsAck, Verdict, KindOf;
    if arrivals != [] {
      if Verdict(write, state, arrivals[0]) == T.Ignore {
        IgnoredFirst(write, state, arrivals, expected);
        WaitGoesOn(write, state, arrivals[1..], expected);
        forall i | 0 < i < |arrivals| ensures arrivals[i] == arrivals[1..][i - 1] {
        }
      } else {
        DecidedFirst(write, state, arrivals, expected, AckSyn, DIAG_OK);
      }
    }
  }

  /** ABORT leaves no connection, whatever was awaited. */
  lemma AbortDisconnects(write: bool, state: T.State, expected: F.FpduKind, d: Diag, more: seq<Arrival>)
    ensures Awaited(write, state, [Abort(d)] + more, expected) == Wait(T.Cn01, Aborted(d), 1)
  {
  }

  class Peer {
    const write: bool
    const machine: T.Machine
    /** What was sent. */
    var link: seq<Msg>

    constructor (write: bool)
      ensures this.write == write && fresh(machine) && machine.state == T.Cn01 && link == []
    {
      this.write := write;
      machine := new T.Machine();
      link := [];
    }

    /** The loop that waits for an FPDU, dropping what the automaton ignores. */
    method AwaitReply(expected: F.FpduKind, arrivals: seq<Arrival>) returns (reply: Reply, taken: nat)
      modifies machine
      ensures Wait(machine.state, reply, taken) == Awaited(write, old(machine.state), arrivals, expected)
    {
      hide T.Apply;
      taken := 0;
      assert arrivals[0..] == arrivals;
      while taken < |arrivals|
        invariant taken <= |arrivals| && machine.state == old(machine.state)
        invariant var w := Awaited(write, machine.state, arrivals[taken..], expected);
          w.(taken := w.taken + taken) == Awaited(write, old(machine.state), arrivals, expected)
      {
        var a := arrivals[taken];
        assert arrivals[taken..][0] == a && arrivals[taken..][1..] == arrivals[taken + 1..];
        taken := taken + 1;
        if a.Abort? {
          var aborted := machine.Apply(T.R(F.Abort));
          return Aborted(a.diag), taken;
        }
        var ignored := machine.Apply(EventFor(write, a));
        if ignored.Err? {
          return Unexpected(a.m), taken;
        }
        if !ignored.value {
          if KindOf(write, a.m) != expected {
            return Unexpected(a.m), taken;
          }
          return if Negative(write, a) then Refusal(a.m, a.diag) else Got(a.m), taken;
        }
      }
      return Nothing, taken;
    }

    /** A local event, an FPDU sent, and the wait for its answer. */
    method Request(q: T.Request, m: Msg, expected: F.FpduKind, arrivals: seq<Arrival>)
      returns (reply: Reply, taken: nat)
      modifies this`link, machine
      ensures match T.Apply(old(machine.state), T.Local(q))
        case Refuse => machine.state == old(machine.state) && link == old(link) && reply == Nothing && taken == 0
        case Ignore =>
          && link == old(link) + [m]
          && Wait(machine.state, reply, taken) == Awaited(write, old(machine.state), arrivals, expected)
        case Next(t) =>
          link == old(link) + [m] && Wait(machine.state, reply, taken) == Awaited(write, t, arrivals, expected)
    {
      hide T.Apply;
      var applied := machine.Apply(T.Local(q));
      if applied.Err? {
        return Nothing, 0;
      }
      link := link + [m];
      reply, taken := AwaitReply(expected, arrivals);
    }
  }

  /** An FPDU sent in order: its diagnostic is success. */
  function Fine(m: Msg): Arrival { Unit(m, DIAG_OK) }

  predicate LateAcks(acks: seq<Arrival>)
  {
    forall a :: a in acks ==> a == Fine(AckSyn)
  }

  lemma LateAcksTail(acks: seq<Arrival>)
    requires LateAcks(acks) && acks != []
    ensures acks[0] == Fine(AckSyn) && LateAcks(acks[1..])
  {
    assert acks[0] in acks && forall a :: a in acks[1..] ==> a in acks;
  }

  /** However many acknowledgements of points are still on their way, the wait for the end of a written transfer
      drops them all and finds the answer. */
  lemma {:induction false} LateAcksDropped(acks: seq<Arrival>, octets: nat, articles: nat)
    requires LateAcks(acks)
    ensures Awaited(true, T.Tde08A, acks + [Fine(AckTransEnd(true, octets, articles))], F.AckTransEnd)
         == Wait(T.Of02, Got(AckTransEnd(true, octets, articles)), |acks| + 1)
  {
    hide T.Apply;
    var all := acks + [Fine(AckTransEnd(true, octets, articles))];
    if acks == [] {
      ReqTable(true, WaitEnd, all[0].m);
    } else {
      LateAcksTail(acks);
      assert all[0] == acks[0] && all[1..] == acks[1..] + [Fine(AckTransEnd(true, octets, articles))];
      LateAckIgnored();
      LateAcksDropped(acks[1..], octets, articles);
    }
  }

  // ---- the responder's closing loop ----

  datatype End = Open | Over | Failed | AbortedBy(diag: Diag)

  /** The closing of a transfer: state, answers, the diagnostic it will report, and whether it is over. */
  datatype Closing = Closing(state: T.State, answers: seq<Msg>, diag: Diag, end: End)

  /** A diagnostic other than success takes the place of the one so far. */
  function Reported(sofar: Diag, d: Diag): Diag { if d != DIAG_OK then d else sofar }

  /** One arrival in the closing loop. */
  function CloseOne(write: bool, c: Closing, count: Count, a: Arrival): Closing
  {
    match a
    case Abort(d) => c.(state := AfterAbort(c.state), end := AbortedBy(d))
    case Unit(m, d) =>
      match T.Apply(c.state, EventFor(write, a))
      case Refuse => c.(end := Failed)
      case Ignore => c
      case Next(t) =>
        if m.TransEnd? then
          var ok := CountsMatch(count, m.octets, m.articles);
          Accepted(c.(state := t, diag := if ok then Reported(c.diag, d) else INVALID_COUNTS),
                   AckTransEnd(ok, count.octets, count.articles), Open)
        else if m.Crf? then Accepted(c.(state := t, diag := Reported(c.diag, d)), AckCrf, Open)
        else if m.Deselect? then Accepted(c.(state := t), AckDeselect, Over)
        else c.(state := t, end := Failed)
  }

  function Accepted(c: Closing, answer: Msg, end: End): Closing
  {
    match T.Apply(c.state, T.Local(T.DoAccept))
    case Refuse => c.(end := Failed)
    case Ignore => c.(answers := c.answers + [answer], end := end)
    case Next(t) => c.(state := t, answers := c.answers + [answer], end := end)
  }

  function CloseAll(write: bool, c: Closing, count: Count, arrivals: seq<Arrival>): Closing
    decreases |arrivals|
  {
    if arrivals == [] || c.end != Open then c
    else CloseAll(write, CloseOne(write, c, count, arrivals[0]), count, arrivals[1..])
  }

  function Closes(state: T.State): Closing { Closing(state, [], DIAG_OK, Open) }

  /** The responder's end of a transfer: a loop over what arrives until DESELECT. */
  method CloseTransfer(write: bool, machine: T.Machine, count: Count, arrivals: seq<Arrival>) returns (c: Closing)
    modifies machine
    ensures c == CloseAll(write, Closes(old(machine.state)), count, arrivals)
    ensures machine.state == c.state
  {
    hide T.Apply;
    c := Closing(machine.state, [], DIAG_OK, Open);
    var i := 0;
    assert arrivals[0..] == arrivals;
    while i < |arrivals| && c.end == Open
      invariant 0 <= i <= |arrivals| && machine.state == c.state
      invariant CloseAll(write, c, count, arrivals[i..])
             == CloseAll(write, Closes(old(machine.state)), count, arrivals)
    {
      var a := arrivals[i];
      assert arrivals[i..][0] == a && arrivals[i..][1..] == arrivals[i + 1..];
      i := i + 1;
      c := TakeClosing(write, machine, c, count, a);
    }
  }

  method TakeClosing(write: bool, machine: T.Machine, c: Closing, count: Count, a: Arrival) returns (r: Closing)
    requires machine.state == c.state
    modifies machine
    ensures r == CloseOne(write, c, count, a) && machine.state == r.state
  {
    hide T.Apply;
    if a.Abort? {
      var aborted := machine.Apply(T.R(F.Abort));
      return c.(state := machine.state, end := AbortedBy(a.diag));
    }
    var ignored := machine.Apply(EventFor(write, a));
    if ignored.Err? {
      return c.(end := Failed);
    }
    if ignored.value {
      return c;
    }
    r := c.(state := machine.state);
    match a.m
    case TransEnd(octets, articles) =>
      var ok := octets == count.octets && articles == count.articles;
      if a.diag != DIAG_OK {
        r := r.(diag := a.diag);
      }
      if !ok {
        r := r.(diag := INVALID_COUNTS);
      }
      r := Answer(machine, r, AckTransEnd(ok, count.octets, count.articles), Open);
    case Crf =>
      if a.diag != DIAG_OK {
        r := r.(diag := a.diag);
      }
      r := Answer(machine, r, AckCrf, Open);
    case Deselect => r := Answer(machine, r, AckDeselect, Over);
    case _ => r := r.(end := Failed);
  }

  method Answer(machine: T.Machine, c: Closing, answer: Msg, end: End) returns (r: Closing)
    requires machine.state == c.state
    modifies machine
    ensures r == Accepted(c, answer, end) && machine.state == r.state
  {
    hide T.Apply;
    var accepted := machine.Apply(T.Local(T.DoAccept));
    if accepted.Err? {
      return c.(end := Failed);
    }
    r := c.(state := machine.state, answers := c.answers + [answer], end := end);
  }

  /** The diagnostic of a closing: that of CRF if it has one, else 3-319 when the counts differ, else that of
      TRANS.END. */
  function FinalDiag(ok: bool, ended: Diag, closed: Diag): Diag
  {
    if closed.class_ != 0 || closed.reason != 0 then closed else if !ok then Diag(3, 319) else ended
  }

  /** The closing exchange of a transfer ends connected, with an answer each, and reports the diagnostics the peer gave
      and counts that differ. */
  lemma {:induction false} ClosesConnected(write: bool, count: Count, octets: nat, articles: nat, ended: Diag,
                                           closed: Diag, deselected: Diag)
    ensures var ok := octets == count.octets && articles == count.articles;
      CloseAll(write, Closes(ResState(write, ExpectEnd)), count,
               [Unit(TransEnd(octets, articles), ended), Unit(Crf, closed), Unit(Deselect, deselected)])
        == Closing(T.Cn03, [AckTransEnd(ok, count.octets, count.articles), AckCrf, AckDeselect],
                   FinalDiag(ok, ended, closed), Over)
  {
    hide T.Apply, ResState, EventOf, CloseOne;
    var start := Closes(ResState(write, ExpectEnd));
    var ok := octets == count.octets && articles == count.articles;
    var answer := AckTransEnd(ok, count.octets, count.articles);
    ClosesEnd(write, count, octets, articles, ended);
    ClosesCrf(write, count, Closing(T.Of02, [answer], if ok then ended else INVALID_COUNTS, Open), closed);
    ClosesDeselect(write, count, Closing(T.Sf03, [answer, AckCrf], FinalDiag(ok, ended, closed), Open), deselected);
    assert [answer] + [AckCrf] == [answer, AckCrf] && [answer, AckCrf] + [AckDeselect] == [answer, AckCrf, AckDeselect];
    ThreeClose(write, start, count, Unit(TransEnd(octets, articles), ended), Unit(Crf, closed),
               Unit(Deselect, deselected));
  }

  lemma ClosesEnd(write: bool, count: Count, octets: nat, articles: nat, ended: Diag)
    ensures var ok := octets == count.octets && articles == count.articles;
      CloseOne(write, Closes(ResState(write, ExpectEnd)), count, Unit(TransEnd(octets, articles), ended))
        == Closing(T.Of02, [AckTransEnd(ok, count.octets, count.articles)], if ok then ended else INVALID_COUNTS, Open)
  {
    hide T.Apply, ResState, EventOf;
    ResTable(write, ExpectEnd, TransEnd(octets, articles));
    ResLocalEnd(write);
    Plain(write, Unit(TransEnd(octets, articles), ended));
  }

  lemma ClosesCrf(write: bool, count: Count, c: Closing, closed: Diag)
    requires c.state == T.Of02 && c.end == Open
    ensures CloseOne(write, c, count, Unit(Crf, closed))
         == Closing(T.Sf03, c.answers + [AckCrf], Reported(c.diag, closed), Open)
  {
    hide T.Apply, ResState, EventOf;
    ResTable(write, ExpectCrf, Crf);
    ResLocalEnd(write);
    States(write);
    Plain(write, Unit(Crf, closed));
  }

  lemma ClosesDeselect(write: bool, count: Count, c: Closing, deselected: Diag)
    requires c.state == T.Sf03 && c.end == Open
    ensures CloseOne(write, c, count, Unit(Deselect, deselected))
         == Closing(T.Cn03, c.answers + [AckDeselect], c.diag, Over)
  {
    hide T.Apply, ResState, EventOf;
    ResTable(write, ExpectDeselect, Deselect);
    ResLocalEnd(write);
    States(write);
    Plain(write, Unit(Deselect, deselected));
  }

  lemma ThreeClose(write: bool, c: Closing, count: Count, x: Arrival, y: Arrival, z: Arrival)
    ensures var c1 := CloseOne(write, c, count, x);
      var c2 := CloseOne(write, c1, count, y);
      c.end == c1.end == c2.end == Open ==>
        CloseAll(write, c, count, [x, y, z]) == CloseOne(write, c2, count, z)
  {
    hide CloseOne;
    assert [x, y, z][1..] == [y, z] && [y, z][1..] == [z] && [z][1..] == [];
    var c1 := CloseOne(write, c, count, x);
    var c2 := CloseOne(write, c1, count, y);
    if c.end == c1.end == c2.end == Open {
      assert CloseAll(write, c, count, [x, y, z]) == CloseAll(write, c1, count, [y, z]);
      assert CloseAll(write, c1, count, [y, z]) == CloseAll(write, c2, count, [z]);
    }
  }

  /** FPDUs that acknowledge nothing are never negative. */
  lemma Plain(write: bool, a: Arrival)
    requires a.Unit? && (a.m.TransEnd? || a.m.Crf? || a.m.Deselect?)
    ensures EventFor(write, a) == EventOf(write, a.m)
  {
  }

  lemma States(write: bool)
    ensures ResState(write, ExpectCrf) == T.Of02 && ResState(write, ExpectDeselect) == T.Sf03
  {
  }

  /** Late acknowledgements of the points of a file that was read do not disturb its closing. */
  lemma {:induction false} LateAcksBeforeClosing(count: Count, acks: seq<Arrival>, rest: seq<Arrival>)
    requires LateAcks(acks)
    ensures CloseAll(false, Closes(T.Tdl07B), count, acks + rest) == CloseAll(false, Closes(T.Tdl07B), count, rest)
  {
    hide T.Apply;
    if acks == [] {
      assert acks + rest == rest;
    } else {
      LateAcksTail(acks);
      LateAckIgnoredByServer();
      assert (acks + rest)[0] == acks[0] && (acks + rest)[1..] == acks[1..] + rest;
      LateAcksBeforeClosing(count, acks[1..], rest);
    }
  }
}
