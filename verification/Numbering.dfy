/** Sequence numbers in the whole system: as long as no damaged packet arrives and no counter wraps,
    a gate has never seen a number its sender has not used, so the sender's next packet is in
    order. One damaged packet is enough to end that. */
module Numbering {
  import opened GateNetwork
  import opened Octets
  import opened Options
  import opened ProtocolSpec
  import opened RemoteRuns
  import opened Timing

  // What a record counts

  /** The packets carry the next numbers, and the record has moved past them. */
  predicate Counted(r: Remote, r': Remote, ps: seq<Packet>, from: Id, to: Id) {
    && r'.outSeqNum == r.outSeqNum + |ps|
    && forall p :: p in ps ==> r.outSeqNum <= p.seqNum < r'.outSeqNum && p.from == from && p.to == to
  }

  lemma {:induction false} TrustCounts(own: Local, r: Remote, to: Id, others: seq<(Id, Id)>)
    requires r.outSeqNum + |others| < TWO_32
    ensures var (r', ps) := SendAllTrust(own, r, to, others); |ps| == |others| && Counted(r, r', ps, own.id, to)
  {
    if others != [] {
      TrustCounts(own, r, to, others[..|others| - 1]);
    }
  }

  lemma {:induction false} TrustSendsAll(own: Local, r: Remote, to: Id, others: seq<(Id, Id)>)
    ensures |SendAllTrust(own, r, to, others).1| == |others|
  {
    if others != [] {
      TrustSendsAll(own, r, to, others[..|others| - 1]);
    }
  }

  lemma ActionsCount(own: Local, r: Remote, to: Id, now: Timespec, pingID: Uint32, others: seq<(Id, Id)>)
    requires r.outSeqNum + 1 < TWO_32
    ensures var (r', ps) := PingAction(own, r, to, now, pingID); |ps| <= 1 && Counted(r, r', ps, own.id, to)
    ensures var (r', ps) := ConnDataAction(own, r, to, now); |ps| <= 1 && Counted(r, r', ps, own.id, to)
  {
    hide PingDue, ConnDataDue, LocalOffset;
  }

  lemma TrustActionCounts(own: Local, r: Remote, to: Id, others: seq<(Id, Id)>)
    requires r.outSeqNum + |TrustAction(own, r, to, others).1| < TWO_32
    ensures var (r', ps) := TrustAction(own, r, to, others); Counted(r, r', ps, own.id, to)
  {
    TrustSendsAll(own, r, to, others);
    if r.sendTrust && r.connected {
      TrustCounts(own, r, to, others);
    }
    hide SendAllTrust;
  }

  lemma VisitCounts(own: Local, r: Remote, to: Id, now: Timespec, later: Timespec, connectDue: bool, pingID: Uint32,
                    others: seq<(Id, Id)>)
    requires r.outSeqNum + |Visit(own, r, to, now, later, connectDue, pingID, others).1| < TWO_32 - 1
    ensures var (r', ps) := Visit(own, r, to, now, later, connectDue, pingID, others);
      Counted(r, r', ps, own.id, to) && r'.inSeqNum == r.inSeqNum
  {
    var r0 := AdminCheck(r, now, connectDue);
    CheckKeepsNumbers(r, now, connectDue);
    hide AdminCheck, PingAction, ConnDataAction, TrustAction;
    ActionKeepsFlags(own, r0, to, later, pingID, others);
    ActionsCount(own, r0, to, later, pingID, others);
    var r1 := PingAction(own, r0, to, later, pingID).0;
    ActionsCount(own, r1, to, later, pingID, others);
    TrustActionCounts(own, ConnDataAction(own, r1, to, later).0, to, others);
  }

  lemma CheckKeepsNumbers(r: Remote, now: Timespec, connectDue: bool)
    ensures var s := AdminCheck(r, now, connectDue); s.outSeqNum == r.outSeqNum && s.inSeqNum == r.inSeqNum
  {
    hide TimedOut, ManyBadIPs, TimeOffset;
  }

  lemma ReceiveCounts(own: Local, r: Remote, p: Packet, env: Env)
    requires r.outSeqNum + 1 < TWO_32
    ensures var effect := Receive(own, r, p, env);
      Counted(r, effect.r, effect.sent, own.id, p.from) && effect.r.inSeqNum in {0, r.inSeqNum, p.seqNum}
  {
    hide CheckPacket, ProcessPing, ProcessConnData;
    if p.body.Ping? {
      PingCounts(own, r, p, env);
    } else if p.body.ConnData? {
      ConnDataCounts(own, r, p, env);
    }
    ReceiveSeq(own, r, p, env);
    hide Counted;
  }

  lemma ReceiveSeq(own: Local, r: Remote, p: Packet, env: Env)
    ensures Receive(own, r, p, env).r.inSeqNum in {0, r.inSeqNum, p.seqNum}
  {
    hide Receive, Resets, Checked, InOrder;
    ArriveSeq(own, r, p, env);
  }

  lemma PingCounts(own: Local, r: Remote, p: Packet, env: Env)
    requires p.body.Ping? && r.outSeqNum + 1 < TWO_32
    ensures var (r', ps) := ProcessPing(own, r, p, env); Counted(r, r', ps, own.id, p.from)
  {
    hide CheckPacket, TruncDiv, ToInt32, TimeOffset, Abs, LocalOffset;
  }

  lemma ConnDataCounts(own: Local, r: Remote, p: Packet, env: Env)
    requires p.body.ConnData? && r.outSeqNum + 1 < TWO_32
    ensures var (r', ps) := ProcessConnData(own, r, p, env); Counted(r, r', ps, own.id, p.from)
  {
    hide CheckPacket;
  }

  lemma WrapCounts(own: Local, r: Remote, to: Id, payload: Bytes)
    requires r.outSeqNum + 1 < TWO_32
    ensures var (r', ps) := Wrap(own, r, to, payload);
      Counted(r, r', ps, own.id, to) && r'.inSeqNum == r.inSeqNum
  {
  }

  // The whole system

  /** The number gate g will give its next packet for a remote; 1 for one it does not know yet. */
  function NextNumber(w: World, g: Id, to: Id): nat {
    if Knows(w, g, to) then w.gates[g].remotes[to].outSeqNum else 1
  }

  /** Nothing sent is ahead of its sender's counter, and nothing seen is. */
  ghost predicate Numbered(w: World) {
    && (forall g: Id, to: Id :: Knows(w, g, to) ==>
          && 1 <= NextNumber(w, g, to) <= w.total + 1
          && w.gates[g].remotes[to].inSeqNum < NextNumber(w, to, g))
    && (forall p :: p in w.sent ==> Knows(w, p.from, p.to) && p.seqNum < NextNumber(w, p.from, p.to))
  }

  /** The world after a gate updates one record, sends packets, and may learn of a gate. */
  function Updated(w: World, g: Id, to: Id, r: Remote, learned: Option<(Id, Id)>, ps: seq<Packet>, started: nat): World
    requires Knows(w, g, to)
  {
    Posted(w, g, WithLearned(WithRemote(w.gates[g], to, r), learned), ps, started)
  }

  lemma UpdatedRecord(w: World, g: Id, to: Id, r: Remote, learned: Option<(Id, Id)>, ps: seq<Packet>, started: nat,
                      g': Id, to': Id)
    requires Knows(w, g, to)
    ensures var w' := Updated(w, g, to, r, learned, ps, started);
      && (Knows(w, g', to') ==> Knows(w', g', to'))
      && (Knows(w', g', to') && !Knows(w, g', to') ==> learned.Some?)
      && (Knows(w', g', to') ==>
            w'.gates[g'].remotes[to']
            == (if g' == g && to' == to then r
                else if Knows(w, g', to') then w.gates[g'].remotes[to']
                else StartConnection(NewRemote(learned.value.1))))
  {
  }

  /** Counters never fall. */
  lemma CounterGrows(w: World, g: Id, to: Id, r: Remote, learned: Option<(Id, Id)>, ps: seq<Packet>, started: nat,
                     g': Id, to': Id)
    requires Numbered(w) && Knows(w, g, to) && r.outSeqNum >= w.gates[g].remotes[to].outSeqNum
    ensures var w' := Updated(w, g, to, r, learned, ps, started);
      && 1 <= NextNumber(w, g', to') <= NextNumber(w', g', to')
      && (!(g' == g && to' == to) ==> NextNumber(w', g', to') == NextNumber(w, g', to'))
  {
    UpdatedRecord(w, g, to, r, learned, ps, started, g', to');
    hide Updated;
  }

  lemma UpdatedNumbers(w: World, g: Id, to: Id, r: Remote, learned: Option<(Id, Id)>, ps: seq<Packet>, started: nat)
    requires Numbered(w) && Knows(w, g, to) && to != g
    requires Counted(w.gates[g].remotes[to], r, ps, g, to)
    requires r.inSeqNum < NextNumber(w, to, g)
    ensures Numbered(Updated(w, g, to, r, learned, ps, started))
  {
    var w' := Updated(w, g, to, r, learned, ps, started);
    assert w'.total == w.total + |ps|;
    assert forall p :: p in w'.sent <==> p in w.sent || p in ps;
    forall g': Id, to': Id | Knows(w', g', to')
      ensures 1 <= NextNumber(w', g', to') <= w'.total + 1
      ensures w'.gates[g'].remotes[to'].inSeqNum < NextNumber(w', to', g')
    {
      UpdatedRecord(w, g, to, r, learned, ps, started, g', to');
      CounterGrows(w, g, to, r, learned, ps, started, g', to');
      CounterGrows(w, g, to, r, learned, ps, started, to', g');
      hide Updated;
    }
    forall p | p in w'.sent
      ensures Knows(w', p.from, p.to) && p.seqNum < NextNumber(w', p.from, p.to)
    {
      UpdatedRecord(w, g, to, r, learned, ps, started, p.from, p.to);
      CounterGrows(w, g, to, r, learned, ps, started, p.from, p.to);
      hide Updated;
    }
    hide Updated;
  }

  lemma ArrivalNumbers(w: World, owns: seq<Local>, p: Packet, env: Env)
    requires Inv(w, owns) && Numbered(w) && Knows(w, p.to, p.from) && p in w.sent
    requires Arrived(w, p, env).total < TWO_32 - 2
    ensures Numbered(Arrived(w, p, env))
  {
    var gate := w.gates[p.to];
    var r := gate.remotes[p.from];
    assert RightGate(owns, p.to, gate) && RightRecord(owns, p.to, p.from, r);
    assert NextNumber(w, p.to, p.from) <= w.total + 1;
    hide Receive, Inv, RightGate, RightRecord, WithLearned;
    ReceiveCounts(gate.own, r, p, env);
    var effect := Receive(gate.own, r, p, env);
    UpdatedNumbers(w, p.to, p.from, effect.r, effect.learned, effect.sent, 0);
  }

  lemma StepNumbers(w: World, owns: seq<Local>, m: Move)
    requires Inv(w, owns) && Numbered(w) && (m.Redeliver? ==> m.p.seal != Broken)
    requires Next(w, m).total < TWO_32 - 2
    ensures Numbered(Next(w, m))
  {
    if Enabled(w, m) {
      hide Receive, Visit, Wrap, Inv, WithLearned;
      match m
      case Deliver(i, env) => DeliveredNumbers(w, owns, i, env);
      case Lose(i) => SameNumbers(w, Next(w, m));
      case Redeliver(p, env) => ArrivalNumbers(w, owns, p, env);
      case AdminVisit(g, to, now, later, connectDue, pingID, others) => VisitNumbers(w, owns, m);
      case WrapOut(g, to, payload) => WrapNumbers(w, owns, g, to, payload);
    }
  }

  lemma SameNumbers(w: World, w': World)
    requires Numbered(w) && w'.gates == w.gates && w'.sent == w.sent && w'.total == w.total
    ensures Numbered(w')
  {
    assert forall g: Id, to: Id ::
        NextNumber(w', g, to) == NextNumber(w, g, to) && (Knows(w', g, to) <==> Knows(w, g, to));
  }

  lemma DeliveredNumbers(w: World, owns: seq<Local>, i: nat, env: Env)
    requires Inv(w, owns) && Numbered(w) && Enabled(w, Deliver(i, env)) && Next(w, Deliver(i, env)).total < TWO_32 - 2
    ensures Numbered(Next(w, Deliver(i, env)))
  {
    hide Receive, RightGate, Honest, WithLearned;
    var w0 := w.(flight := w.flight[..i] + w.flight[i + 1..]);
    assert w.flight[i] in w.flight;
    SameNumbers(w, w0);
    ArrivalNumbers(w0, owns, w.flight[i], env);
  }

  lemma VisitTotal(w: World, m: Move)
    requires m.AdminVisit? && Enabled(w, m)
    ensures Next(w, m).total == w.total + |Visit(w.gates[m.g].own, w.gates[m.g].remotes[m.to], m.to, m.now, m.later,
                                                m.connectDue, m.pingID, m.others).1|
  {
    hide Visit;
  }

  lemma VisitNumbers(w: World, owns: seq<Local>, m: Move)
    requires Inv(w, owns) && Numbered(w) && m.AdminVisit? && Enabled(w, m) && Next(w, m).total < TWO_32 - 2
    ensures Numbered(Next(w, m))
  {
    var gate := w.gates[m.g];
    var r := gate.remotes[m.to];
    assert RightGate(owns, m.g, gate) && RightRecord(owns, m.g, m.to, r);
    assert NextNumber(w, m.g, m.to) <= w.total + 1;
    hide Visit, Inv, RightGate, RightRecord;
    VisitTotal(w, m);
    VisitCounts(gate.own, r, m.to, m.now, m.later, m.connectDue, m.pingID, m.others);
    var (r', ps) := Visit(gate.own, r, m.to, m.now, m.later, m.connectDue, m.pingID, m.others);
    hide Counted;
    UpdatedNumbers(w, m.g, m.to, r', None, ps, |ps|);
  }

  lemma WrapTotal(w: World, g: Id, to: Id, payload: Bytes)
    requires Knows(w, g, to)
    ensures Next(w, WrapOut(g, to, payload)).total
            == w.total + |Wrap(w.gates[g].own, w.gates[g].remotes[to], to, payload).1|
  {
    hide Wrap;
  }

  lemma WrapNumbers(w: World, owns: seq<Local>, g: Id, to: Id, payload: Bytes)
    requires Inv(w, owns) && Numbered(w) && Knows(w, g, to) && Next(w, WrapOut(g, to, payload)).total < TWO_32 - 2
    ensures Numbered(Next(w, WrapOut(g, to, payload)))
  {
    var gate := w.gates[g];
    var r := gate.remotes[to];
    assert RightGate(owns, g, gate) && RightRecord(owns, g, to, r);
    assert NextNumber(w, g, to) <= w.total + 1;
    hide Inv, RightGate, RightRecord, Wrap, Counted;
    WrapTotal(w, g, to, payload);
    var (r', ps) := Wrap(gate.own, r, to, payload);
    WrapCounts(gate.own, r, to, payload);
    UpdatedNumbers(w, g, to, r', None, ps, |ps|);
  }

  lemma TotalGrows(w: World, m: Move)
    ensures Next(w, m).total >= w.total
  {
    hide Receive, Visit, Wrap, WithLearned;
  }

  predicate Undamaged(ms: seq<Move>) {
    forall m :: m in ms && m.Redeliver? ==> m.p.seal != Broken
  }

  lemma {:induction false} RunNumbers(w: World, ms: seq<Move>)
    requires Initial(w) && Undamaged(ms) && GateNetwork.Run(w, ms).total < TWO_32 - 2
    ensures Numbered(GateNetwork.Run(w, ms))
  {
    if ms != [] {
      hide Next;
      var init := ms[..|ms| - 1];
      TotalGrows(GateNetwork.Run(w, init), ms[|ms| - 1]);
      RunNumbers(w, init);
      RunKeeps(w, init);
      StepNumbers(GateNetwork.Run(w, init), Owns(w), ms[|ms| - 1]);
    }
  }

  /** Without damaged packets, and with fewer packets sent than the counters can count, the next
      packet of any gate is in order at its receiver, whatever was lost, duplicated or reordered. */
  lemma NextIsInOrder(w: World, ms: seq<Move>, a: Id, b: Id)
    requires Initial(w) && Undamaged(ms) && GateNetwork.Run(w, ms).total < TWO_32 - 2
    requires Knows(GateNetwork.Run(w, ms), a, b) && Knows(GateNetwork.Run(w, ms), b, a)
    ensures var now := GateNetwork.Run(w, ms);
      InOrder(now.gates[a].remotes[b].outSeqNum, now.gates[b].remotes[a].inSeqNum)
  {
    RunNumbers(w, ms);
    var now := GateNetwork.Run(w, ms);
    assert now.gates[b].remotes[a].inSeqNum < NextNumber(now, a, b);
  }

  // One damaged packet

  /** A packet that cannot move the number any further and brings no new keys. */
  predicate Stuck(e: Event) {
    e.Arrive? ==> e.p.seqNum >= SEQ_NUM_WRAP_ALLOWANCE && !e.p.body.ConnData?
  }

  lemma StuckStep(own: Local, to: Id, r: Remote, e: Event)
    requires r.inSeqNum == TWO_32 - 1 && Stuck(e)
    ensures Step(own, to, r, e).0.inSeqNum == TWO_32 - 1 && !Takes(own, r, e)
  {
    hide Step, CheckPacket;
    SeqStep(own, to, r, e);
  }

  lemma {:induction false} StuckStays(own: Local, to: Id, r: Remote, es: seq<Event>)
    requires r.inSeqNum == TWO_32 - 1 && forall e :: e in es ==> Stuck(e)
    ensures RemoteRuns.Run(own, to, r, es).inSeqNum == TWO_32 - 1
  {
    if es != [] {
      hide Step, Stuck;
      StuckStays(own, to, r, es[..|es| - 1]);
      StuckStep(own, to, RemoteRuns.Run(own, to, r, es[..|es| - 1]), es[|es| - 1]);
    }
  }

  /** The number is recorded before the seal is looked at. So after one ping with the highest
      number, sealed or not, every ping, trust packet and wrapped packet is refused, until connection
      data or a number below the wrap allowance arrives. */
  lemma DamageBlocks(own: Local, to: Id, r: Remote, first: Event, es: seq<Event>, e: Event)
    requires first.Arrive? && first.p.body.Ping? && first.p.seqNum == TWO_32 - 1
    requires (forall e' :: e' in es ==> Stuck(e')) && Stuck(e)
    ensures !Takes(own, RemoteRuns.Run(own, to, Step(own, to, r, first).0, es), e)
  {
    SeqStep(own, to, r, first);
    hide Step, Takes, Stuck, RemoteRuns.Run;
    var r1 := Step(own, to, r, first).0;
    StuckStays(own, to, r1, es);
    StuckStep(own, to, RemoteRuns.Run(own, to, r1, es), e);
  }
}
