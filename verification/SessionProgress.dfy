/** An attempt can always be brought to its end by the two sides' own turns. */
module SessionProgress {
  import opened Params
  import opened Session
  import opened SessionSafety
  import T = StateTable

  /** How far the requester is. */
  function Rank(pc: ReqPc): (r: nat)
    ensures r <= 9 && (r == 9 <==> pc == ReqDone)
  {
    match pc
    case AtStart => 0
    case WaitConnect => 1
    case WaitAnswer => 2
    case WaitOpen => 3
    case WaitStart => 4
    case ReqSending => 5
    case ReqReceiving => 5
    case WaitEnd => 6
    case WaitClose => 7
    case WaitDeselect => 8
    case ReqDone => 9
  }

  /** The turns an FPDU in flight may still cause. */
  function Weight(m: Msg): nat
  {
    match m
    case Start => 4
    case Connect(_, _) => 2
    case Request(_) => 2
    case Orf(_) => 2
    case Data(_, _, _) => 2
    case Syn => 2
    case TransEnd(_, _) => 2
    case Crf => 2
    case Deselect => 2
    case _ => 1
  }

  function Weigh(ms: seq<Msg>): nat
  {
    if ms == [] then 0 else Weight(ms[0]) + Weigh(ms[1..])
  }

  lemma {:induction false} WeighSnoc(ms: seq<Msg>, m: Msg)
    ensures Weigh(ms + [m]) == Weigh(ms) + Weight(m)
  {
    if ms == [] {
      assert ([] + [m])[1..] == [];
    } else {
      assert (ms + [m])[0] == ms[0] && (ms + [m])[1..] == ms[1..] + [m];
      WeighSnoc(ms[1..], m);
    }
  }

  /** What is still in flight, and the end a sending responder has still to send. */
  function Ahead(s: System): nat
  {
    Weigh(s.up) + Weigh(s.down) + if s.res == ResSending then 2 else 0
  }

  predicate Nearer(s: System, t: System)
  {
    Rank(t.req) > Rank(s.req) || (Rank(t.req) == Rank(s.req) && Ahead(t) < Ahead(s))
  }

  /** The turns that do not put off the end. */
  predicate Turn(a: Action) { a == Begin || a == ReqTurn || a == ResTurn || a == SendLast }

  lemma WeighHead(ms: seq<Msg>)
    requires ms != []
    ensures Weigh(ms) == Weight(ms[0]) + Weigh(ms[1..])
  {
  }

  /** What a requester takes brings it on, or leaves less in flight. */
  lemma ReqTurnNearer(cfg: Config, s: System)
    requires s.down != [] && !ReqTakes(cfg, s).broken
    ensures Nearer(s, ReqTakes(cfg, s))
  {
    hide T.Apply, Weigh, ReqReply, Rank;
    var m, rest := s.down[0], s.down[1..];
    WeighHead(s.down);
    match T.Apply(s.reqState, EventOf(cfg.write, m)) {
      case Next(state) => ReplyNearer(cfg, s, s.(down := rest, reqState := state), m);
      case _ =>
    }
  }

  lemma ReplyNearer(cfg: Config, s: System, t: System, m: Msg)
    requires !ReqReply(cfg, t, m).broken && t.req == s.req && t.res == s.res && t.up == s.up
    requires Weigh(s.down) == Weight(m) + Weigh(t.down)
    ensures Nearer(s, ReqReply(cfg, t, m))
  {
    hide T.Apply, NegotiateSync, NegotiateCompression, Weigh;
    WeighSnoc(t.up, AckSyn);
  }

  /** What a responder takes is answered with less. */
  lemma ResTurnNearer(cfg: Config, s: System)
    requires s.up != [] && !ResTakes(cfg, s).broken
    ensures Nearer(s, ResTakes(cfg, s))
  {
    hide T.Apply, Weigh, ResReply;
    var m, rest := s.up[0], s.up[1..];
    WeighHead(s.up);
    match T.Apply(s.resState, EventOf(cfg.write, m)) {
      case Next(state) => AnswerNearer(cfg, s, s.(up := rest, resState := state), m);
      case _ =>
    }
  }

  lemma AnswerNearer(cfg: Config, s: System, t: System, m: Msg)
    requires !ResReply(cfg, t, m).broken && t.req == s.req && t.res == s.res && t.down == s.down
    requires Weigh(s.up) == Weight(m) + Weigh(t.up)
    ensures Nearer(s, ResReply(cfg, t, m))
  {
    hide T.Apply, NegotiateSync, NegotiateCompression, Weigh;
    var r := ResReply(cfg, t, m);
    if r.down != t.down {
      WeighSnoc(t.down, r.down[|r.down| - 1]);
    }
  }

  /** The last unit of a sending responder takes the place of what was still to come. */
  lemma LastNearer(cfg: Config, s: System)
    requires Inv(cfg, s) && (s.req == ReqSending || s.res == ResSending) && !Step(cfg, s, SendLast).broken
    ensures Nearer(s, Step(cfg, s, SendLast))
  {
    hide T.Apply, Inv;
    WeighSnoc(s.down, DtfEnd);
  }

  /** While the attempt is not over there is a turn that brings it nearer to its end. */
  lemma {:induction false} NextTurn(cfg: Config, s: System) returns (a: Action)
    requires Inv(cfg, s) && s.req != ReqDone
    requires s.req == AtStart || s.up != [] || s.down != [] || s.req == ReqSending || s.res == ResSending
    ensures Turn(a) && Nearer(s, Step(cfg, s, a))
  {
    hide T.Apply, Placed, ReqTakes, ResTakes, Rank;
    a := if s.req == AtStart then Begin else if s.down != [] then ReqTurn else if s.up != [] then ResTurn else SendLast;
    KeepsStep(cfg, s, a);
    if s.req == AtStart {
      BeginNearer(cfg, s);
    } else if s.down != [] {
      ReqTurnNearer(cfg, s);
    } else if s.up != [] {
      ResTurnNearer(cfg, s);
    } else {
      LastNearer(cfg, s);
    }
  }

  lemma BeginNearer(cfg: Config, s: System)
    requires s.req == AtStart && !Step(cfg, s, Begin).broken
    ensures Nearer(s, Step(cfg, s, Begin))
  {
    hide T.Apply;
  }

  /** Wherever an attempt stands, turns of the two sides lead the requester to its end, both sides connected and
      with nothing left in flight. */
  lemma {:induction false} AttemptCanFinish(cfg: Config, past: seq<Action>) returns (actions: seq<Action>)
    ensures forall a :: a in actions ==> Turn(a)
    ensures var s := Session.Run(cfg, past + actions);
      s.req == ReqDone && s.reqState == T.Cn03 && s.resState == T.Cn03 && s.up == [] && s.down == []
    decreases 9 - Rank(Session.Run(cfg, past).req), Ahead(Session.Run(cfg, past))
  {
    hide Inv, Step, Session.Run, Rank, Ahead;
    var s := Session.Run(cfg, past);
    RunKeeps(cfg, past);
    if s.req == ReqDone {
      actions := [];
      assert past + [] == past;
      AttemptIsSafe(cfg, past);
    } else {
      AttemptGoesOn(cfg, past);
      var a := NextTurn(cfg, s);
      RunStep(cfg, past, a);
      var rest := AttemptCanFinish(cfg, past + [a]);
      actions := [a] + rest;
      assert past + actions == past + [a] + rest;
    }
  }

  lemma RunStep(cfg: Config, past: seq<Action>, a: Action)
    ensures Session.Run(cfg, past + [a]) == Step(cfg, Session.Run(cfg, past), a)
  {
    assert (past + [a])[..|past|] == past;
  }

  // ---- whatever the order ----

  /** A turn that does something. */
  predicate Counts(cfg: Config, s: System, a: Action) { Turn(a) && Step(cfg, s, a) != s }

  /** Turns that each do something. */
  predicate Schedule(cfg: Config, s: System, turns: seq<Action>)
    decreases |turns|
  {
    turns == [] || (Counts(cfg, s, turns[0]) && Schedule(cfg, Step(cfg, s, turns[0]), turns[1..]))
  }

  function RunFrom(cfg: Config, s: System, turns: seq<Action>): System
    decreases |turns|
  {
    if turns == [] then s else RunFrom(cfg, Step(cfg, s, turns[0]), turns[1..])
  }

  lemma {:induction false} RunJoin(cfg: Config, past: seq<Action>, turns: seq<Action>)
    ensures Session.Run(cfg, past + turns) == RunFrom(cfg, Session.Run(cfg, past), turns)
    decreases |turns|
  {
    hide Session.Run, Step;
    if turns == [] {
      assert past + [] == past;
    } else {
      RunStep(cfg, past, turns[0]);
      RunJoin(cfg, past + [turns[0]], turns[1..]);
      assert past + turns == past + [turns[0]] + turns[1..];
    }
  }

  /** Every turn that does something brings an attempt nearer to its end. */
  lemma EveryTurnNearer(cfg: Config, s: System, a: Action)
    requires Inv(cfg, s) && Counts(cfg, s, a)
    ensures Nearer(s, Step(cfg, s, a)) && Inv(cfg, Step(cfg, s, a))
  {
    hide T.Apply, Placed, ReqTakes, ResTakes, Rank, ReqSends, ResSends;
    KeepsStep(cfg, s, a);
    match a {
      case Begin => BeginNearer(cfg, s);
      case ReqTurn => ReqTurnNearer(cfg, s);
      case ResTurn => ResTurnNearer(cfg, s);
      case SendLast => LastNearer(cfg, s);
    }
  }

  lemma {:induction false} ScheduleKeeps(cfg: Config, s: System, turns: seq<Action>)
    requires Inv(cfg, s) && Schedule(cfg, s, turns)
    ensures Inv(cfg, RunFrom(cfg, s, turns))
    decreases |turns|
  {
    hide Inv, Step;
    if turns != [] {
      EveryTurnNearer(cfg, s, turns[0]);
      ScheduleKeeps(cfg, Step(cfg, s, turns[0]), turns[1..]);
    }
  }

  /** Whatever the order of turns that each do something: carried on until none is left that does, they end both sides in
      CN03 with nothing in flight. */
  lemma {:induction false} EveryScheduleFinishes(cfg: Config, past: seq<Action>, turns: seq<Action>)
    requires Schedule(cfg, Session.Run(cfg, past), turns)
    requires forall a :: !Counts(cfg, Session.Run(cfg, past + turns), a)
    ensures var s := Session.Run(cfg, past + turns);
      s.req == ReqDone && s.reqState == T.Cn03 && s.resState == T.Cn03 && s.up == [] && s.down == []
  {
    hide Inv, Step, Session.Run, Schedule, Rank, Ahead;
    var s := Session.Run(cfg, past + turns);
    RunKeeps(cfg, past + turns);
    if s.req != ReqDone {
      AttemptGoesOn(cfg, past + turns);
      var a := SomethingCounts(cfg, s);
    } else {
      AttemptIsSafe(cfg, past + turns);
    }
  }

  lemma SomethingCounts(cfg: Config, s: System) returns (a: Action)
    requires Inv(cfg, s) && s.req != ReqDone
    requires s.req == AtStart || s.up != [] || s.down != [] || s.req == ReqSending || s.res == ResSending
    ensures Counts(cfg, s, a)
  {
    hide Inv, Step, Rank, Ahead;
    a := NextTurn(cfg, s);
    NotNearer(s);
  }

  lemma NotNearer(s: System)
    ensures !Nearer(s, s)
  {
  }

  function FirstTurns(f: nat -> Action, n: nat): seq<Action> { seq(n, i requires 0 <= i < n => f(i)) }

  /** No schedule goes on for ever: any endless sequence of turns comes to one that does nothing. */
  lemma NoEndlessSchedule(cfg: Config, past: seq<Action>, f: nat -> Action) returns (n: nat)
    ensures var s := Session.Run(cfg, past);
      Schedule(cfg, s, FirstTurns(f, n)) && !Counts(cfg, RunFrom(cfg, s, FirstTurns(f, n)), f(n))
  {
    hide Inv, Session.Run, Schedule, RunFrom, Counts;
    RunKeeps(cfg, past);
    n := Ends(cfg, Session.Run(cfg, past), f);
  }

  lemma {:induction false} Ends(cfg: Config, s: System, f: nat -> Action) returns (n: nat)
    requires Inv(cfg, s)
    ensures Schedule(cfg, s, FirstTurns(f, n)) && !Counts(cfg, RunFrom(cfg, s, FirstTurns(f, n)), f(n))
    decreases 9 - Rank(s.req), Ahead(s)
  {
    hide Inv, Counts, Step, Rank, Ahead;
    if !Counts(cfg, s, f(0)) {
      n := 0;
      assert FirstTurns(f, 0) == [];
    } else {
      EveryTurnNearer(cfg, s, f(0));
      var g := (i: nat) => f(i + 1);
      var m := Ends(cfg, Step(cfg, s, f(0)), g);
      n := m + 1;
      assert FirstTurns(f, n)[0] == f(0) && FirstTurns(f, n)[1..] == FirstTurns(g, m);
    }
  }
}
