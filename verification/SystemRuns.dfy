/** A run of the whole system, seen from one record: the events that touch the record make a run
    of that record, so everything proved of single records holds in the system. */
module SystemRuns {
  import opened Arrivals
  import opened Chains
  import opened GateNetwork
  import opened Octets
  import Options
  import opened ProtocolSpec
  import opened RemoteRuns
  import opened Timing
  import opened Visits

  /** The event a move is for gate g's record of a remote, if any. */
  function EventFor(w: World, m: Move, g: Id, to: Id): seq<Event> {
    if !Enabled(w, m) then []
    else
      match m
      case Deliver(i, env) => if w.flight[i].to == g && w.flight[i].from == to then [Arrive(w.flight[i], env)] else []
      case Redeliver(p, env) => if p.to == g && p.from == to then [Arrive(p, env)] else []
      case AdminVisit(g', to', now, later, connectDue, pingID, others) =>
        if g' == g && to' == to then [Admin(now, later, connectDue, pingID, others)] else []
      case WrapOut(g', to', payload) => if g' == g && to' == to then [Outbound(payload)] else []
      case Lose(_) => []
  }

  function EventsOf(w: World, ms: seq<Move>, g: Id, to: Id): seq<Event> {
    if ms == [] then []
    else
      var init := ms[..|ms| - 1];
      EventsOf(w, init, g, to) + EventFor(GateNetwork.Run(w, init), ms[|ms| - 1], g, to)
  }

  /** The record as configured, or as made when the gate was learned of. */
  function FirstRecord(w: World, g: Id, to: Id): Remote {
    if Knows(w, g, to) then NewRemote(to) else StartConnection(NewRemote(to))
  }

  /** One move is one event of the record, or none; a record that appears is a new one. */
  lemma MoveIsEvent(w: World, owns: seq<Local>, m: Move, g: Id, to: Id)
    requires Inv(w, owns) && Knows(Next(w, m), g, to)
    ensures var r' := Next(w, m).gates[g].remotes[to]; var e := EventFor(w, m, g, to);
      if Knows(w, g, to)
      then r' == if e == [] then w.gates[g].remotes[to] else Step(w.gates[g].own, to, w.gates[g].remotes[to], e[0]).0
      else e == [] && r' == StartConnection(NewRemote(to))
  {
    hide Receive, Visit, Wrap, Honest, RightRecord;
    if Enabled(w, m) {
      match m
      case Deliver(i, env) =>
        assert w.flight[i] in w.flight;
        ArrivalIsEvent(w.(flight := Without(w.flight, i)), owns, w.flight[i], env, g, to);
      case Redeliver(p, env) => ArrivalIsEvent(w, owns, p, env, g, to);
      case _ =>
    }
  }

  lemma ArrivalIsEvent(w: World, owns: seq<Local>, p: Packet, env: Env, g: Id, to: Id)
    requires Inv(w, owns) && Knows(w, p.to, p.from) && (p in w.sent || p.seal == Broken)
    requires Knows(Arrived(w, p, env), g, to)
    ensures var r' := Arrived(w, p, env).gates[g].remotes[to];
      if Knows(w, g, to)
      then r' == if p.to == g && p.from == to then Step(w.gates[g].own, to, w.gates[g].remotes[to], Arrive(p, env)).0
                 else w.gates[g].remotes[to]
      else r' == StartConnection(NewRemote(to)) && !(p.to == g && p.from == to)
  {
    hide Receive, Honest, RightRecord;
    var gate := w.gates[p.to];
    ReceiveKeeps(owns, gate.own, gate.remotes[p.from], p, env);
  }

  lemma StaysKnown(w: World, m: Move, g: Id, to: Id)
    requires Knows(w, g, to)
    ensures Knows(Next(w, m), g, to)
  {
    hide Receive, Visit, Wrap;
  }

  /** Before a record exists nothing happens to it. */
  lemma {:induction false} NothingBefore(w: World, ms: seq<Move>, g: Id, to: Id)
    requires !Knows(GateNetwork.Run(w, ms), g, to)
    ensures EventsOf(w, ms, g, to) == [] && !Knows(w, g, to)
  {
    if ms != [] {
      hide Next, EventFor;
      var init := ms[..|ms| - 1];
      if Knows(GateNetwork.Run(w, init), g, to) {
        StaysKnown(GateNetwork.Run(w, init), ms[|ms| - 1], g, to);
      }
      NothingBefore(w, init, g, to);
      NoEvent(GateNetwork.Run(w, init), ms[|ms| - 1], g, to);
    }
  }

  lemma NoEvent(w: World, m: Move, g: Id, to: Id)
    requires !Knows(w, g, to)
    ensures EventFor(w, m, g, to) == []
  {
  }

  lemma AtMostOne(w: World, m: Move, g: Id, to: Id)
    ensures |EventFor(w, m, g, to)| <= 1
  {
  }

  lemma RunSnoc(own: Local, to: Id, r: Remote, es: seq<Event>, e: seq<Event>)
    requires |e| <= 1
    ensures RemoteRuns.Run(own, to, r, es + e)
            == if e == [] then RemoteRuns.Run(own, to, r, es) else Step(own, to, RemoteRuns.Run(own, to, r, es), e[0]).0
  {
    if e == [] {
      assert es + e == es;
    } else {
      assert (es + e)[..|es|] == es;
    }
  }

  /** In every reachable state each record is what a run of its own events makes of a new one. */
  lemma {:induction false} RecordIsRun(w: World, ms: seq<Move>, g: Id, to: Id)
    requires Initial(w) && Knows(GateNetwork.Run(w, ms), g, to)
    ensures g < |w.gates|
    ensures GateNetwork.Run(w, ms).gates[g].remotes[to]
            == RemoteRuns.Run(w.gates[g].own, to, FirstRecord(w, g, to), EventsOf(w, ms, g, to))
  {
    RunKeeps(w, ms);
    if ms != [] {
      hide Next, EventFor, Step;
      var init, m := ms[..|ms| - 1], ms[|ms| - 1];
      var s := GateNetwork.Run(w, init);
      RunKeeps(w, init);
      MoveIsEvent(s, Owns(w), m, g, to);
      AtMostOne(s, m, g, to);
      if Knows(s, g, to) {
        RecordIsRun(w, init, g, to);
        RunSnoc(w.gates[g].own, to, FirstRecord(w, g, to), EventsOf(w, init, g, to), EventFor(s, m, g, to));
      } else {
        NothingBefore(w, init, g, to);
      }
    }
  }

  /** So in every reachable state of the system a remote is connected exactly when connection data
      of it and an answer to our ping were accepted since the connection last ended. */
  lemma ConnectedInSystem(w: World, ms: seq<Move>, g: Id, to: Id)
    requires Initial(w) && Knows(GateNetwork.Run(w, ms), g, to)
    ensures g < |w.gates|
    ensures var r0, es := FirstRecord(w, g, to), EventsOf(w, ms, g, to); var own := w.gates[g].own;
      GateNetwork.Run(w, ms).gates[g].remotes[to].connected
      <==> SinceEnd(false, own, to, r0, es) && SinceEnd(true, own, to, r0, es)
  {
    RecordIsRun(w, ms, g, to);
    ConnectedIff(w.gates[g].own, to, FirstRecord(w, g, to), EventsOf(w, ms, g, to));
  }

  /** A gate learned of is asked for its connection data, and sent nothing else, in the first visit more
      than a minute after the clock's start. */
  lemma LearnedIsAsked(gate: GateNetwork.Gate, id: Id, rsa: Id, now: Timespec, later: Timespec, connectDue: bool,
                       pingID: Uint32, others: seq<(Id, Id)>)
    requires id != gate.own.id && id !in gate.remotes && TimeOffset(Timespec(0, 0), later) > 60_000
    ensures var g := WithLearned(gate, Options.Some((id, rsa)));
      && id in g.remotes
      && Bodies(Visit(g.own, g.remotes[id], id, now, later, connectDue, pingID, others).1)
         == [ConnData(false, gate.own.keys)]
  {
    var r := WithLearned(gate, Options.Some((id, rsa))).remotes[id];
    VisitSends(gate.own, r, id, now, later, connectDue, pingID, others);
    hide Visit, Consecutive, TimeOffset, FewGood;
  }
}
