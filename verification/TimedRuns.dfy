/** System runs in real time. Each gate has its own clock; when every accepted ping and pong takes
    between a least and a most time, every pong a gate accepts is genuine, so all connected gates
    know each other's time base. */
module TimedRuns {
  import opened GateNetwork
  import opened Octets
  import opened ProtocolSpec
  import opened RemoteRuns
  import opened SyncRuns
  import opened SystemRuns
  import opened Timing
  import opened TimeSync

  /** How far each gate's clock is ahead of a common one, in nanoseconds. */
  type Clocks = Id -> int

  /** The state before the n-th move. */
  function StateAt(w: World, ms: seq<Move>, n: nat): World
    requires n <= |ms|
  {
    GateNetwork.Run(w, ms[..n])
  }

  lemma NextState(w: World, ms: seq<Move>, n: nat)
    requires n < |ms|
    ensures StateAt(w, ms, n + 1) == Next(StateAt(w, ms, n), ms[n])
  {
    assert ms[..n + 1][..n] == ms[..n];
  }

  // What one move sends and takes

  function SentBy(w: World, m: Move): seq<Packet> {
    if !Enabled(w, m) then []
    else
      match m
      case Deliver(i, env) => AnswersTo(w, w.flight[i], env)
      case Redeliver(p, env) => AnswersTo(w, p, env)
      case AdminVisit(g, to, now, later, connectDue, pingID, others) =>
        Visit(w.gates[g].own, w.gates[g].remotes[to], to, now, later, connectDue, pingID, others).1
      case WrapOut(g, to, payload) => Wrap(w.gates[g].own, w.gates[g].remotes[to], to, payload).1
      case Lose(_) => []
  }

  function AnswersTo(w: World, p: Packet, env: Env): seq<Packet>
    requires Knows(w, p.to, p.from)
  {
    Receive(w.gates[p.to].own, w.gates[p.to].remotes[p.from], p, env).sent
  }

  lemma SentGrows(w: World, m: Move)
    ensures forall p :: p in Next(w, m).sent <==> p in w.sent || p in SentBy(w, m)
  {
    hide Receive, Visit, Wrap, WithLearned;
  }

  /** Packet p arrives in this move, and its receiver's environment. */
  predicate Arrives(w: World, m: Move, p: Packet) {
    Enabled(w, m) && ((m.Deliver? && w.flight[m.i] == p) || (m.Redeliver? && m.p == p))
  }

  function EnvOf(m: Move): Env
    requires m.Deliver? || m.Redeliver?
  {
    m.env
  }

  /** It arrives and passes all checks. */
  predicate Taken(w: World, m: Move, p: Packet) {
    Arrives(w, m, p) && Knows(w, p.to, p.from)
    && CheckPacket(w.gates[p.to].own, w.gates[p.to].remotes[p.from], p, EnvOf(m).noise).1.Accepted?
  }

  /** Gate g pings a remote in this move. */
  predicate PingsIn(w: World, m: Move, g: Id, to: Id) {
    m.AdminVisit? && Enabled(w, m) && m.g == g && m.to == to
    && PingDue(AdminCheck(w.gates[g].remotes[to], m.now, m.connectDue), m.later)
  }

  /** The first and the last clock reading of a move that reads the clock. */
  predicate Reads(m: Move) {
    m.Deliver? || m.Redeliver? || m.AdminVisit?
  }

  function FirstReading(m: Move): Timespec
    requires Reads(m)
  {
    if m.AdminVisit? then m.now else m.env.now
  }

  function LastReading(m: Move): Timespec
    requires Reads(m)
  {
    if m.AdminVisit? then m.later else m.env.later
  }

  // Where pings and pongs come from

  lemma VisitPings(own: Local, r: Remote, to: Id, now: Timespec, later: Timespec, connectDue: bool, pingID: Uint32,
                   others: seq<(Id, Id)>, p: Packet)
    requires p in Visit(own, r, to, now, later, connectDue, pingID, others).1 && p.body.Ping?
    ensures PingDue(AdminCheck(r, now, connectDue), later)
    ensures p.from == own.id && p.to == to && p.body.requestID == pingID && p.body.responseID == 0
  {
    hide AdminCheck, ToUint32, LocalOffset, PingDue, ConnDataDue, SendAllTrust;
    var r1 := PingAction(own, AdminCheck(r, now, connectDue), to, later, pingID).0;
    var r2 := ConnDataAction(own, r1, to, later).0;
    TrustOnly(own, r2, to, others);
  }

  lemma {:induction false} TrustOnly(own: Local, r: Remote, to: Id, others: seq<(Id, Id)>)
    ensures forall p :: p in SendAllTrust(own, r, to, others).1 ==> p.body.Trust?
  {
    if others != [] {
      TrustOnly(own, r, to, others[..|others| - 1]);
    }
  }

  /** Whatever is sent on arrival of p and is a ping, answers p. */
  lemma AnswerPings(own: Local, r: Remote, p: Packet, env: Env, q: Packet)
    requires q in Receive(own, r, p, env).sent && q.body.Ping?
    ensures p.body.Ping? && p.body.requestID != 0 && CheckPacket(own, r, p, env.noise).1.Accepted?
    ensures q.from == own.id && q.to == p.from
    ensures q.body == Ping(0, p.body.requestID, LocalOffset(own, env.later))
  {
    hide CheckPacket, PongAccepted, ToUint32, LocalOffset;
  }

  /** A packet that is taken was sent: seals are not forged. */
  lemma TakenWasSent(w: World, owns: seq<Local>, m: Move, p: Packet)
    requires Inv(w, owns) && Taken(w, m, p)
    ensures p in w.sent
  {
    hide InOrder, Opened;
    if m.Deliver? {
      assert w.flight[m.i] in w.flight;
    }
  }

  /** Move i sends the ping q. */
  predicate PingSentAt(w: World, ms: seq<Move>, i: nat, q: Packet) {
    && i < |ms| && q.body.Ping? && PingsIn(StateAt(w, ms, i), ms[i], q.from, q.to)
    && ms[i].pingID == q.body.requestID && q in SentBy(StateAt(w, ms, i), ms[i])
  }

  lemma {:induction false} PingOrigin(w: World, ms: seq<Move>, n: nat, q: Packet) returns (i: nat)
    requires Initial(w) && n <= |ms| && q in StateAt(w, ms, n).sent && q.body.Ping? && q.body.requestID != 0
    ensures i < n && PingSentAt(w, ms, i, q)
  {
    assert ms[..0] == [];
    hide Next, SentBy, PingsIn;
    var s, m := StateAt(w, ms, n - 1), ms[n - 1];
    NextState(w, ms, n - 1);
    SentGrows(s, m);
    if q in s.sent {
      i := PingOrigin(w, ms, n - 1, q);
    } else {
      i := n - 1;
      RunKeeps(w, ms[..n - 1]);
      NewPing(s, Owns(w), m, q);
    }
  }

  lemma NewPing(s: World, owns: seq<Local>, m: Move, q: Packet)
    requires Inv(s, owns) && q in SentBy(s, m) && q.body.Ping? && q.body.requestID != 0
    ensures PingsIn(s, m, q.from, q.to) && m.pingID == q.body.requestID
  {
    hide Receive, Visit, Wrap, Honest, RightRecord;
    match m
    case Deliver(i, env) =>
      var p := s.flight[i];
      AnswerPings(s.gates[p.to].own, s.gates[p.to].remotes[p.from], p, env, q);
    case Redeliver(p, env) => AnswerPings(s.gates[p.to].own, s.gates[p.to].remotes[p.from], p, env, q);
    case AdminVisit(g, to, now, later, connectDue, pingID, others) =>
      VisitPings(s.gates[g].own, s.gates[g].remotes[to], to, now, later, connectDue, pingID, others, q);
    case WrapOut(g, to, payload) => NoPings(s.gates[g].own, s.gates[g].remotes[to], to, payload);
    case Lose(_) =>
  }

  lemma NoPings(own: Local, r: Remote, to: Id, payload: Bytes)
    ensures forall p :: p in Wrap(own, r, to, payload).1 ==> p.body.Wrapped?
  {
  }

  /** Move j sends the pong p in answer to the ping q. */
  predicate PongSentAt(w: World, ms: seq<Move>, j: nat, q: Packet, p: Packet) {
    && j < |ms| && p.body.Ping? && q.body.Ping?
    && var s := StateAt(w, ms, j);
       && Taken(s, ms[j], q) && q in s.sent && p in SentBy(s, ms[j])
       && q.body.requestID == p.body.responseID && q.from == p.to && q.to == p.from
       && p.body.timeOffset == LocalOffset(s.gates[q.to].own, EnvOf(ms[j]).later)
  }

  lemma {:induction false} PongOrigin(w: World, ms: seq<Move>, n: nat, p: Packet) returns (j: nat, q: Packet)
    requires Initial(w) && n <= |ms| && p in StateAt(w, ms, n).sent && p.body.Ping? && p.body.responseID != 0
    ensures j < n && PongSentAt(w, ms, j, q, p)
  {
    assert ms[..0] == [];
    hide Next, SentBy, Taken;
    var s, m := StateAt(w, ms, n - 1), ms[n - 1];
    NextState(w, ms, n - 1);
    SentGrows(s, m);
    if p in s.sent {
      j, q := PongOrigin(w, ms, n - 1, p);
    } else {
      j := n - 1;
      RunKeeps(w, ms[..n - 1]);
      q := NewPong(s, Owns(w), m, p);
    }
  }

  lemma NewPong(s: World, owns: seq<Local>, m: Move, p: Packet) returns (q: Packet)
    requires Inv(s, owns) && p in SentBy(s, m) && p.body.Ping? && p.body.responseID != 0
    ensures Taken(s, m, q) && q in s.sent && q.body.Ping?
    ensures q.body.requestID == p.body.responseID && q.from == p.to && q.to == p.from
    ensures p.body.timeOffset == LocalOffset(s.gates[q.to].own, EnvOf(m).later)
  {
    hide Receive, Visit, Wrap, Honest, RightRecord, CheckPacket, LocalOffset;
    match m
    case Deliver(i, env) =>
      q := s.flight[i];
      AnswerPings(s.gates[q.to].own, s.gates[q.to].remotes[q.from], q, env, p);
      TakenWasSent(s, owns, m, q);
    case Redeliver(q', env) =>
      q := q';
      AnswerPings(s.gates[q.to].own, s.gates[q.to].remotes[q.from], q, env, p);
      TakenWasSent(s, owns, m, q);
    case AdminVisit(g, to, now, later, connectDue, pingID, others) =>
      VisitPings(s.gates[g].own, s.gates[g].remotes[to], to, now, later, connectDue, pingID, others, p);
    case WrapOut(g, to, payload) => NoPings(s.gates[g].own, s.gates[g].remotes[to], to, payload);
    case Lose(_) =>
  }

  /** The record's ping id and time are those of the last ping sent. */
  lemma {:induction false} LastPing(w: World, ms: seq<Move>, n: nat, g: Id, to: Id) returns (i: nat)
    requires Initial(w) && n <= |ms| && Knows(StateAt(w, ms, n), g, to)
    requires StateAt(w, ms, n).gates[g].remotes[to].sentPingID != 0
    ensures i < n && PingsIn(StateAt(w, ms, i), ms[i], g, to)
    ensures var r := StateAt(w, ms, n).gates[g].remotes[to];
      ms[i].pingID == r.sentPingID && ms[i].later == r.pingSentTime
  {
    assert ms[..0] == [];
    hide Next, PingsIn, EventFor, Step, Sends;
    var s, m := StateAt(w, ms, n - 1), ms[n - 1];
    NextState(w, ms, n - 1);
    RunKeeps(w, ms[..n - 1]);
    MoveIsEvent(s, Owns(w), m, g, to);
    AtMostOne(s, m, g, to);
    assert Knows(s, g, to);
    var e := EventFor(s, m, g, to);
    if e != [] {
      PingStep(s.gates[g].own, to, s.gates[g].remotes[to], e[0]);
      PingsAreSends(s, m, g, to);
    }
    if e != [] && Sends(false, s.gates[g].remotes[to], e[0]) {
      i := n - 1;
    } else {
      i := LastPing(w, ms, n - 1, g, to);
    }
  }

  lemma PingsAreSends(s: World, m: Move, g: Id, to: Id)
    requires Knows(s, g, to) && EventFor(s, m, g, to) != []
    ensures var e := EventFor(s, m, g, to)[0];
      Sends(false, s.gates[g].remotes[to], e) ==> PingsIn(s, m, g, to) && m.pingID == e.pingID && m.later == e.later
  {
  }

  // Runs in time

  /** A reading of gate g's clock, on the common clock. */
  function Common(clocks: Clocks, g: Id, t: Timespec): int {
    Nanos(t) - clocks(g)
  }

  /** Every move that reads the clock twice does so within gap. */
  predicate QuickHandlers(ms: seq<Move>, gap: nat) {
    forall k :: 0 <= k < |ms| && Reads(ms[k]) ==>
      Nanos(FirstReading(ms[k])) <= Nanos(LastReading(ms[k])) <= Nanos(FirstReading(ms[k])) + gap
  }

  /** A gate draws no ping id for the same remote twice, except zero, which asks for nothing. */
  predicate SamePing(w: World, ms: seq<Move>, i: nat, j: nat)
    requires i < j < |ms|
  {
    && ms[i].AdminVisit? && ms[j].AdminVisit? && ms[i].pingID == ms[j].pingID != 0
    && PingsIn(StateAt(w, ms, i), ms[i], ms[i].g, ms[i].to)
    && PingsIn(StateAt(w, ms, j), ms[j], ms[i].g, ms[i].to)
  }

  predicate FreshIDs(w: World, ms: seq<Move>) {
    forall i, j :: 0 <= i < j < |ms| ==> !SamePing(w, ms, i, j)
  }

  /** Ping or pong p leaves in move i and is accepted in move j. */
  predicate Leg(w: World, ms: seq<Move>, i: nat, j: nat, p: Packet)
    requires i < j < |ms|
  {
    && p.body.Ping? && Reads(ms[i]) && p in SentBy(StateAt(w, ms, i), ms[i])
    && Taken(StateAt(w, ms, j), ms[j], p)
  }

  /** Every such leg takes its time. */
  ghost predicate LegsTake(w: World, clocks: Clocks, ms: seq<Move>, legs: Legs) {
    forall i: nat, j: nat, p: Packet :: i < j < |ms| && Leg(w, ms, i, j, p) ==>
      && legs.least <= Common(clocks, p.to, FirstReading(ms[j])) - Common(clocks, p.from, LastReading(ms[i]))
      && Common(clocks, p.to, LastReading(ms[j])) - Common(clocks, p.from, LastReading(ms[i])) <= legs.most
  }

  /** When a gate answers a ping it is not older than the 32-bit offset arithmetic can tell. */
  ghost predicate Young(w: World, ms: seq<Move>, legs: Legs) {
    forall j, q: Packet :: 0 <= j < |ms| && q.body.Ping? && Taken(StateAt(w, ms, j), ms[j], q) ==>
      0 <= TimeOffset(StateAt(w, ms, j).gates[q.to].own.base, LastReading(ms[j])) <= TWO_31 - legs.most / MS - 2
  }

  ghost predicate InTime(w: World, clocks: Clocks, ms: seq<Move>, legs: Legs, gap: nat) {
    && 0 <= legs.least && QuickHandlers(ms, gap) && FreshIDs(w, ms)
    && LegsTake(w, clocks, ms, legs) && Young(w, ms, legs)
  }

  /** The remote's time base, on the clock of gate g. */
  function BaseSeenBy(w: World, clocks: Clocks, g: Id, to: Id): int
    requires to < |w.gates|
  {
    Nanos(w.gates[to].own.base) - clocks(to) + clocks(g)
  }

  /** The ping a pong answers is the last one sent, and both legs took their time. */
  lemma PongTrip(w: World, clocks: Clocks, ms: seq<Move>, legs: Legs, gap: nat, n: nat, p: Packet)
    returns (i: nat, j: nat, q: Packet)
    requires Initial(w) && InTime(w, clocks, ms, legs, gap) && n < |ms|
    requires Taken(StateAt(w, ms, n), ms[n], p) && p.body.Ping?
    requires Answers(p.body, StateAt(w, ms, n).gates[p.to].remotes[p.from])
    ensures i < j < n && Leg(w, ms, i, j, q) && PongSentAt(w, ms, j, q, p) && Leg(w, ms, j, n, p)
    ensures ms[i].AdminVisit? && ms[i].later == StateAt(w, ms, n).gates[p.to].remotes[p.from].pingSentTime
  {
    hide PingsIn, SentBy, CheckPacket, LegsTake, Young, QuickHandlers;
    var s := StateAt(w, ms, n);
    RunKeeps(w, ms[..n]);
    TakenWasSent(s, Owns(w), ms[n], p);
    j, q := PongOrigin(w, ms, n, p);
    i := PingOrigin(w, ms, j, q);
    var k := LastPing(w, ms, n, p.to, p.from);
    PingsAreVisits(StateAt(w, ms, i), ms[i], q.from, q.to);
    PingsAreVisits(StateAt(w, ms, k), ms[k], q.from, q.to);
    assert i < k ==> !SamePing(w, ms, i, k);
    assert k < i ==> !SamePing(w, ms, k, i);
    assert Reads(ms[j]);
  }

  lemma PingsAreVisits(w: World, m: Move, g: Id, to: Id)
    requires PingsIn(w, m, g, to)
    ensures m.AdminVisit? && m.g == g && m.to == to
  {
  }

  lemma OwnStays(w: World, ms: seq<Move>, n: nat, g: Id)
    requires Initial(w) && n <= |ms| && g < |StateAt(w, ms, n).gates|
    ensures g < |w.gates| && StateAt(w, ms, n).gates[g].own == w.gates[g].own
  {
    RunKeeps(w, ms[..n]);
    assert RightGate(Owns(w), g, StateAt(w, ms, n).gates[g]);
  }

  /** The numbers of one exchange. */
  lemma ExchangeIsGenuine(pong: Pong, base: Timespec, answered: Timespec, replied: int, truth: int, legs: Legs,
                          gap: nat)
    requires 0 <= legs.least <= replied - Nanos(pong.sent) <= legs.most
    requires legs.least <= Nanos(pong.now) - replied <= legs.most
    requires Nanos(pong.now) <= Nanos(pong.later) <= Nanos(pong.now) + gap
    requires replied - truth == Nanos(answered) - Nanos(base)
    requires pong.timeOffset == TimeOffset(base, answered)
    requires 0 <= pong.timeOffset <= TWO_31 - legs.most / MS - 2
    ensures Genuine(pong, truth, legs) && NoWrap(pong) && PongError(pong, legs) <= SyncError(legs, gap)
  {
    assert RepliedAt(pong, replied, truth, legs);
    var trip := TimeOffset(pong.sent, pong.now);
    assert trip * MS < 2 * legs.most + MS;
    hide TimeOffset;
    assert trip <= 2 * (legs.most / MS) + 3;
  }

  lemma LegTimes(w: World, clocks: Clocks, ms: seq<Move>, legs: Legs, i: nat, j: nat, p: Packet)
    requires LegsTake(w, clocks, ms, legs) && i < j < |ms| && Leg(w, ms, i, j, p)
    ensures Reads(ms[i]) && Reads(ms[j])
    ensures legs.least <= Common(clocks, p.to, FirstReading(ms[j])) - Common(clocks, p.from, LastReading(ms[i]))
    ensures Common(clocks, p.to, LastReading(ms[j])) - Common(clocks, p.from, LastReading(ms[i])) <= legs.most
  {
    hide Common, SentBy, StateAt;
  }

  lemma AnswerTime(w: World, ms: seq<Move>, legs: Legs, j: nat, q: Packet, p: Packet)
    requires Initial(w) && Young(w, ms, legs) && PongSentAt(w, ms, j, q, p) && legs.most >= 0
    ensures q.to < |w.gates|
    ensures var base, answered := w.gates[q.to].own.base, EnvOf(ms[j]).later;
      p.body.timeOffset == TimeOffset(base, answered) && 0 <= p.body.timeOffset <= TWO_31 - legs.most / MS - 2
  {
    hide SentBy, TimeOffset;
    OwnStays(w, ms, j, q.to);
    assert EnvOf(ms[j]).later == LastReading(ms[j]);
  }

  /** Every pong a gate accepts as an answer is genuine, is computed without overflow, and is good
      to the spread of the legs. */
  lemma TakenPongIsGenuine(w: World, clocks: Clocks, ms: seq<Move>, legs: Legs, gap: nat, n: nat, p: Packet)
    requires Initial(w) && InTime(w, clocks, ms, legs, gap) && n < |ms|
    requires Taken(StateAt(w, ms, n), ms[n], p) && p.body.Ping?
    requires Answers(p.body, StateAt(w, ms, n).gates[p.to].remotes[p.from])
    ensures p.from < |w.gates|
    ensures var pong := PongOf(StateAt(w, ms, n).gates[p.to].remotes[p.from], Arrive(p, EnvOf(ms[n])));
      && Genuine(pong, BaseSeenBy(w, clocks, p.to, p.from), legs)
      && NoWrap(pong) && PongError(pong, legs) <= SyncError(legs, gap)
  {
    var i, j, q := PongTrip(w, clocks, ms, legs, gap, n, p);
    LegTimes(w, clocks, ms, legs, i, j, q);
    LegTimes(w, clocks, ms, legs, j, n, p);
    assert legs.most >= 0;
    AnswerTime(w, ms, legs, j, q, p);
    var answered := EnvOf(ms[j]).later;
    var pong := PongOf(StateAt(w, ms, n).gates[p.to].remotes[p.from], Arrive(p, EnvOf(ms[n])));
    var replied := Nanos(answered) - clocks(p.from) + clocks(p.to);
    assert q.from == p.to && q.to == p.from;
    hide Leg, PongSentAt, FreshIDs, Taken, Answers, StateAt, Genuine, NoWrap, PongError, SyncError, TimeOffset, Young,
         LegsTake;
    ExchangeIsGenuine(pong, w.gates[p.from].own.base, answered, replied, BaseSeenBy(w, clocks, p.to, p.from),
                      legs, gap);
  }

  /** All pongs a record of a reachable state has accepted are genuine. */
  lemma {:induction false} PongsAreGood(w: World, clocks: Clocks, ms: seq<Move>, legs: Legs, gap: nat, n: nat, g: Id,
                                        to: Id)
    requires Initial(w) && InTime(w, clocks, ms, legs, gap) && n <= |ms| && to < |w.gates|
    requires Knows(StateAt(w, ms, n), g, to)
    ensures g < |w.gates|
    ensures GoodPongs(PongsOf(w.gates[g].own, to, FirstRecord(w, g, to), EventsOf(w, ms[..n], g, to)),
                      BaseSeenBy(w, clocks, g, to), legs, SyncError(legs, gap))
  {
    RecordIsRun(w, ms[..n], g, to);
    if n == 0 {
      assert ms[..0] == [];
    } else {
      assert ms[..n][..n - 1] == ms[..n - 1];
      NextState(w, ms, n - 1);
      if Knows(StateAt(w, ms, n - 1), g, to) {
        PongsAreGood(w, clocks, ms, legs, gap, n - 1, g, to);
        RecordIsRun(w, ms[..n - 1], g, to);
        OneMorePong(w, clocks, ms, legs, gap, n - 1, g, to);
      } else {
        NothingBefore(w, ms[..n - 1], g, to);
        NoEvent(StateAt(w, ms, n - 1), ms[n - 1], g, to);
      }
    }
  }

  lemma OneMorePong(w: World, clocks: Clocks, ms: seq<Move>, legs: Legs, gap: nat, n: nat, g: Id, to: Id)
    requires Initial(w) && InTime(w, clocks, ms, legs, gap) && n < |ms| && to < |w.gates| && g < |w.gates|
    requires Knows(StateAt(w, ms, n), g, to)
    requires StateAt(w, ms, n).gates[g].remotes[to]
             == RemoteRuns.Run(w.gates[g].own, to, FirstRecord(w, g, to), EventsOf(w, ms[..n], g, to))
    requires GoodPongs(PongsOf(w.gates[g].own, to, FirstRecord(w, g, to), EventsOf(w, ms[..n], g, to)),
                       BaseSeenBy(w, clocks, g, to), legs, SyncError(legs, gap))
    ensures GoodPongs(PongsOf(w.gates[g].own, to, FirstRecord(w, g, to),
                              EventsOf(w, ms[..n], g, to) + EventFor(StateAt(w, ms, n), ms[n], g, to)),
                      BaseSeenBy(w, clocks, g, to), legs, SyncError(legs, gap))
  {
    hide StateAt, InTime, Genuine, NoWrap, PongError, SyncError, BaseSeenBy, EventsOf, FirstRecord;
    var s := StateAt(w, ms, n);
    var es, e := EventsOf(w, ms[..n], g, to), EventFor(s, ms[n], g, to);
    AtMostOne(s, ms[n], g, to);
    OwnStays(w, ms, n, g);
    if e == [] {
      assert es + e == es;
    } else {
      assert (es + e)[..|es|] == es;
      if TakesPong(w.gates[g].own, s.gates[g].remotes[to], e[0]) {
        TakenEvent(s, ms[n], g, to);
        TakenPongIsGenuine(w, clocks, ms, legs, gap, n, e[0].p);
      }
    }
  }

  lemma TakenEvent(s: World, m: Move, g: Id, to: Id)
    requires Knows(s, g, to) && EventFor(s, m, g, to) != []
    ensures var e := EventFor(s, m, g, to)[0];
      TakesPong(s.gates[g].own, s.gates[g].remotes[to], e) ==>
        && e.p.to == g && e.p.from == to && Taken(s, m, e.p) && EnvOf(m) == e.env
  {
    hide CheckPacket, Answers;
  }

  /** In every reachable state of a run in time, a gate knows the time base of every remote it is
      connected to, to half the spread of the legs and a constant. */
  lemma SyncedInTime(w: World, clocks: Clocks, ms: seq<Move>, legs: Legs, gap: nat, g: Id, to: Id)
    requires Initial(w) && InTime(w, clocks, ms, legs, gap) && Knows(GateNetwork.Run(w, ms), g, to)
    requires 2 * SyncError(legs, gap) < (TWO_31 - 1) * MS
    ensures to < |w.gates|
    ensures var r := GateNetwork.Run(w, ms).gates[g].remotes[to];
      r.connected ==> Within(r.timeBase, BaseSeenBy(w, clocks, g, to), SyncError(legs, gap))
  {
    KeyAgreement(w, ms, g, to);
    RecordIsRun(w, ms, g, to);
    assert ms[..|ms|] == ms;
    PongsAreGood(w, clocks, ms, legs, gap, |ms|, g, to);
    ConnectedMeansSynced(w.gates[g].own, to, FirstRecord(w, g, to), EventsOf(w, ms, g, to),
                         BaseSeenBy(w, clocks, g, to), legs, SyncError(legs, gap));
  }
}
