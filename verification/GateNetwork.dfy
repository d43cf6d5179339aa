/** Any number of gates that do not restart, and a network that may lose, duplicate, reorder and
    damage packets but not forge seals. */
module GateNetwork {
  import opened Chains
  import opened Octets
  import opened Options
  import opened ProtocolSpec
  import opened RemoteRuns
  import opened Timing
  import opened TimeSync

  datatype Gate = Gate(own: Local, remotes: map<Id, Remote>)

  /** All gates, every packet ever sent, the packets on their way when each is delivered at most
      once, and how many packets were sent in all and without being a reply. */
  datatype World = World(gates: seq<Gate>, sent: set<Packet>, flight: seq<Packet>, total: nat, started: nat)

  datatype Move =
    | Deliver(i: nat, env: Env)             // one packet in flight arrives
    | Lose(i: nat)                          // or never will
    | Redeliver(p: Packet, env: Env)        // any packet ever sent, or a damaged one, arrives (again)
    | AdminVisit(g: Id, to: Id, now: Timespec, later: Timespec, connectDue: bool, pingID: Uint32, others: seq<(Id, Id)>)
    | WrapOut(g: Id, to: Id, payload: Bytes)

  predicate Knows(w: World, g: Id, to: Id) {
    g < |w.gates| && to in w.gates[g].remotes
  }

  /** Trust data is about gates the sender has on record. */
  predicate OnRecord(gate: Gate, others: seq<(Id, Id)>) {
    forall o :: o in others ==> o.0 in gate.remotes && gate.remotes[o.0].rsa == o.1
  }

  predicate Enabled(w: World, m: Move) {
    match m
    case Deliver(i, _) => i < |w.flight| && Knows(w, w.flight[i].to, w.flight[i].from)
    case Lose(i) => i < |w.flight|
    case Redeliver(p, _) => Knows(w, p.to, p.from) && (p in w.sent || p.seal == Broken)
    case AdminVisit(g, to, _, _, _, _, others) => Knows(w, g, to) && OnRecord(w.gates[g], others)
    case WrapOut(g, to, _) => Knows(w, g, to)
  }

  function WithRemote(gate: Gate, to: Id, r: Remote): Gate {
    gate.(remotes := gate.remotes[to := r])
  }

  /** A gate learned of from trust data is added unless it is known, and will be connected to. */
  function WithLearned(gate: Gate, learned: Option<(Id, Id)>): Gate {
    if learned.None? || learned.value.0 == gate.own.id || learned.value.0 in gate.remotes then gate
    else WithRemote(gate, learned.value.0, StartConnection(NewRemote(learned.value.1)))
  }

  function Posted(w: World, g: Id, gate: Gate, sent: seq<Packet>, started: nat): World
    requires g < |w.gates|
  {
    World(w.gates[g := gate], w.sent + (set p | p in sent), w.flight + sent, w.total + |sent|, w.started + started)
  }

  function Arrived(w: World, p: Packet, env: Env): World
    requires Knows(w, p.to, p.from)
  {
    var gate := w.gates[p.to];
    var effect := Receive(gate.own, gate.remotes[p.from], p, env);
    Posted(w, p.to, WithLearned(WithRemote(gate, p.from, effect.r), effect.learned), effect.sent, 0)
  }

  function Next(w: World, m: Move): World {
    if !Enabled(w, m) then w
    else
      match m
      case Deliver(i, env) => Arrived(w.(flight := Without(w.flight, i)), w.flight[i], env)
      case Lose(i) => w.(flight := Without(w.flight, i))
      case Redeliver(p, env) => Arrived(w, p, env)
      case AdminVisit(g, to, now, later, connectDue, pingID, others) =>
        var gate := w.gates[g];
        var (r, sent) := Visit(gate.own, gate.remotes[to], to, now, later, connectDue, pingID, others);
        Posted(w, g, WithRemote(gate, to, r), sent, |sent|)
      case WrapOut(g, to, payload) =>
        var gate := w.gates[g];
        var (r, sent) := Wrap(gate.own, gate.remotes[to], to, payload);
        Posted(w, g, WithRemote(gate, to, r), sent, |sent|)
  }

  function Run(w: World, ms: seq<Move>): World {
    if ms == [] then w else Next(Run(w, ms[..|ms| - 1]), ms[|ms| - 1])
  }

  /** At the start every gate has only new records, each with the right public key. */
  predicate Initial(w: World) {
    && w.sent == {} && w.flight == [] && w.total == w.started == 0
    && forall g :: 0 <= g < |w.gates| ==>
         && w.gates[g].own.id == g
         && forall to :: to in w.gates[g].remotes ==>
              to != g && to < |w.gates| && w.gates[g].remotes[to] == NewRemote(to)
  }

  // What every reachable state keeps

  /** A record is right: the public key is the remote's, and so are the keys once there is
      connection data. */
  predicate RightRecord(owns: seq<Local>, g: Id, to: Id, r: Remote) {
    && to < |owns| && to != g && r.rsa == to && Consistent(r)
    && (r.connDataAvailable ==> r.keys == owns[to].keys)
  }

  /** A packet says what its sender is entitled to say, sealed by the sender and closed for the
      receiver. */
  predicate Honest(owns: seq<Local>, p: Packet) {
    && p.from < |owns| && p.to < |owns|
    && p.seal == (if p.body.Wrapped? then ByMac(owns[p.from].keys.symKey) else ByRsa(p.from))
    && p.lock == (if Symmetric(p.body) then ForKeys(owns[p.to].keys.symKey, owns[p.to].keys.iv) else ForRsa(p.to))
    && (p.body.ConnData? ==> p.body.keys == owns[p.from].keys)
    && (p.body.Trust? ==> p.body.about == p.body.rsa < |owns|)
  }

  function Owns(w: World): (owns: seq<Local>)
    ensures |owns| == |w.gates| && forall g :: 0 <= g < |owns| ==> owns[g] == w.gates[g].own
  {
    seq(|w.gates|, g requires 0 <= g < |w.gates| => w.gates[g].own)
  }

  predicate RightGate(owns: seq<Local>, g: Id, gate: Gate) {
    && g < |owns| && gate.own == owns[g] && gate.own.id == g
    && forall to :: to in gate.remotes ==> RightRecord(owns, g, to, gate.remotes[to])
  }

  predicate Inv(w: World, owns: seq<Local>) {
    && |w.gates| == |owns|
    && (forall g :: 0 <= g < |w.gates| ==> RightGate(owns, g, w.gates[g]))
    && (forall p :: p in w.sent ==> Honest(owns, p))
    && (forall p :: p in w.flight ==> p in w.sent)
  }

  predicate AllHonest(owns: seq<Local>, ps: seq<Packet>) {
    forall p :: p in ps ==> Honest(owns, p)
  }

  /** A right record sends honest packets. */
  lemma SendHonest(owns: seq<Local>, own: Local, r: Remote, to: Id, body: Body)
    requires own.id < |owns| && own == owns[own.id] && RightRecord(owns, own.id, to, r)
    requires Symmetric(body) ==> r.connDataAvailable
    requires body.ConnData? ==> body.keys == own.keys
    requires body.Trust? ==> body.about == body.rsa < |owns|
    ensures var (r', p) := Send(own, r, to, body);
      RightRecord(owns, own.id, to, r') && SameFlags(r, r') && Honest(owns, p)
  {
    hide ToUint32;
  }

  lemma {:induction false} TrustHonest(owns: seq<Local>, own: Local, r: Remote, to: Id, others: seq<(Id, Id)>)
    requires own.id < |owns| && own == owns[own.id] && RightRecord(owns, own.id, to, r) && r.connDataAvailable
    requires forall o :: o in others ==> o.0 == o.1 < |owns|
    ensures var (r', ps) := SendAllTrust(own, r, to, others);
      RightRecord(owns, own.id, to, r') && SameFlags(r, r') && AllHonest(owns, ps)
  {
    if others != [] {
      TrustHonest(owns, own, r, to, others[..|others| - 1]);
      var r1 := SendAllTrust(own, r, to, others[..|others| - 1]).0;
      var o := others[|others| - 1];
      SendHonest(owns, own, r1, to, Trust(o.0, o.1));
    }
  }

  lemma VisitKeeps(owns: seq<Local>, own: Local, r: Remote, to: Id, now: Timespec, later: Timespec, connectDue: bool,
                   pingID: Uint32, others: seq<(Id, Id)>)
    requires own.id < |owns| && own == owns[own.id] && RightRecord(owns, own.id, to, r)
    requires forall o :: o in others ==> o.0 == o.1 < |owns|
    ensures var (r', ps) := Visit(own, r, to, now, later, connectDue, pingID, others);
      RightRecord(owns, own.id, to, r') && AllHonest(owns, ps)
  {
    hide ToUint32, ToInt32, TimeOffset, LocalOffset, ManyBadIPs, SendAllTrust, Honest;
    var r0 := AdminCheck(r, now, connectDue);
    assert RightRecord(owns, own.id, to, r0);
    hide AdminCheck;
    ActionKeeps(owns, own, r0, to, later, pingID, others);
    hide NextAction;
  }

  lemma ActionKeeps(owns: seq<Local>, own: Local, r: Remote, to: Id, now: Timespec, pingID: Uint32,
                    others: seq<(Id, Id)>)
    requires own.id < |owns| && own == owns[own.id] && RightRecord(owns, own.id, to, r)
    requires forall o :: o in others ==> o.0 == o.1 < |owns|
    ensures var (r', ps) := NextAction(own, r, to, now, pingID, others);
      RightRecord(owns, own.id, to, r') && AllHonest(owns, ps)
  {
    hide ToUint32, TimeOffset, LocalOffset, Honest, Send;
    SendHonest(owns, own, r, to, Ping(pingID, 0, LocalOffset(own, now)));
    var r1 := PingAction(own, r, to, now, pingID).0;
    SendHonest(owns, own, r1, to, ConnData(false, own.keys));
    var r2 := ConnDataAction(own, r1, to, now).0;
    if r2.connected {
      TrustHonest(owns, own, r2, to, others);
    }
    hide SendAllTrust;
  }

  /** An accepted packet is genuine, and opening it gives its contents. */
  lemma AcceptedIsHonest(owns: seq<Local>, own: Local, r: Remote, p: Packet, noise: Noise)
    requires own.id < |owns| && own == owns[own.id] && p.to == own.id
    requires Honest(owns, p) || p.seal == Broken
    ensures var check := CheckPacket(own, r, p, noise).1;
      check.Accepted? ==> Honest(owns, p) && check.body == p.body
  {
    hide InOrder;
  }

  lemma ReceiveKeeps(owns: seq<Local>, own: Local, r: Remote, p: Packet, env: Env)
    requires own.id < |owns| && own == owns[own.id] && p.to == own.id && RightRecord(owns, own.id, p.from, r)
    requires Honest(owns, p) || p.seal == Broken
    ensures var effect := Receive(own, r, p, env);
      && RightRecord(owns, own.id, p.from, effect.r) && AllHonest(owns, effect.sent)
      && (effect.learned.Some? ==> effect.learned.value.0 == effect.learned.value.1 < |owns|)
  {
    hide ToUint32, CheckPacket, ProcessPing, ProcessConnData;
    AcceptedIsHonest(owns, own, r, p, env.noise);
    match p.body
    case Ping(_, _, _) =>
      PingSummary(own, r, p, env);
      PingReplies(owns, own, r, p, env);
    case ConnData(_, _) =>
      ConnDataSummary(own, r, p, env);
      ConnDataReplies(owns, own, r, p, env);
    case _ =>
  }

  lemma PingReplies(owns: seq<Local>, own: Local, r: Remote, p: Packet, env: Env)
    requires own.id < |owns| && own == owns[own.id] && p.to == own.id && RightRecord(owns, own.id, p.from, r)
    requires p.body.Ping?
    ensures AllHonest(owns, ProcessPing(own, r, p, env).1)
  {
    hide ToUint32, CheckPacket, TruncDiv, ToInt32, TimeOffset, Abs, LocalOffset, Adjust, Latency;
  }

  lemma ConnDataReplies(owns: seq<Local>, own: Local, r: Remote, p: Packet, env: Env)
    requires own.id < |owns| && own == owns[own.id] && p.to == own.id && RightRecord(owns, own.id, p.from, r)
    requires p.body.ConnData?
    ensures AllHonest(owns, ProcessConnData(own, r, p, env).1)
  {
    hide ToUint32, CheckPacket;
  }

  lemma PostedKeeps(w: World, owns: seq<Local>, g: Id, gate: Gate, sent: seq<Packet>, started: nat)
    requires Inv(w, owns) && g < |owns| && RightGate(owns, g, gate) && AllHonest(owns, sent)
    ensures Inv(Posted(w, g, gate, sent, started), owns)
  {
    hide Honest, RightGate;
  }

  lemma ArrivedKeeps(w: World, owns: seq<Local>, p: Packet, env: Env)
    requires Inv(w, owns) && Knows(w, p.to, p.from) && (p in w.sent || p.seal == Broken)
    ensures Inv(Arrived(w, p, env), owns)
  {
    hide Receive, Honest;
    var gate := w.gates[p.to];
    ReceiveKeeps(owns, gate.own, gate.remotes[p.from], p, env);
    var effect := Receive(gate.own, gate.remotes[p.from], p, env);
    var gate1 := WithRemote(gate, p.from, effect.r);
    assert RightGate(owns, p.to, gate1);
    assert RightGate(owns, p.to, WithLearned(gate1, effect.learned));
    PostedKeeps(w, owns, p.to, WithLearned(gate1, effect.learned), effect.sent, 0);
  }

  lemma NextKeeps(w: World, owns: seq<Local>, m: Move)
    requires Inv(w, owns)
    ensures Inv(Next(w, m), owns)
  {
    if Enabled(w, m) {
      hide Receive, Visit, Honest, RightRecord, Arrived, Posted;
      match m
      case Deliver(i, env) =>
        assert w.flight[i] in w.flight;
        ArrivedKeeps(w.(flight := Without(w.flight, i)), owns, w.flight[i], env);
      case Lose(i) =>
      case Redeliver(p, env) => ArrivedKeeps(w, owns, p, env);
      case AdminVisit(g, to, now, later, connectDue, pingID, others) => AdminKeeps(w, owns, m);
      case WrapOut(g, to, payload) => WrapKeeps(w, owns, g, to, payload);
    }
  }

  lemma AdminKeeps(w: World, owns: seq<Local>, m: Move)
    requires Inv(w, owns) && m.AdminVisit? && Enabled(w, m)
    ensures Inv(Next(w, m), owns)
  {
    hide Visit, Honest;
    var gate := w.gates[m.g];
    forall o | o in m.others ensures o.0 == o.1 < |owns| {
      assert RightRecord(owns, m.g, o.0, gate.remotes[o.0]);
    }
    VisitKeeps(owns, gate.own, gate.remotes[m.to], m.to, m.now, m.later, m.connectDue, m.pingID, m.others);
    var (r, sent) := Visit(gate.own, gate.remotes[m.to], m.to, m.now, m.later, m.connectDue, m.pingID, m.others);
    PostedKeeps(w, owns, m.g, WithRemote(gate, m.to, r), sent, |sent|);
  }

  lemma WrapKeeps(w: World, owns: seq<Local>, g: Id, to: Id, payload: Bytes)
    requires Inv(w, owns) && Knows(w, g, to)
    ensures Inv(Next(w, WrapOut(g, to, payload)), owns)
  {
    hide Honest, Send;
    var gate := w.gates[g];
    var r := gate.remotes[to];
    if r.connected {
      SendHonest(owns, gate.own, r, to, Wrapped(payload));
    }
    var (r1, sent) := Wrap(gate.own, r, to, payload);
    PostedKeeps(w, owns, g, WithRemote(gate, to, r1), sent, |sent|);
  }

  lemma {:induction false} RunKeeps(w: World, ms: seq<Move>)
    requires Initial(w)
    ensures Inv(Run(w, ms), Owns(w))
  {
    if ms != [] {
      RunKeeps(w, ms[..|ms| - 1]);
      NextKeeps(Run(w, ms[..|ms| - 1]), Owns(w), ms[|ms| - 1]);
    }
  }

  /** Key agreement: in every reachable state, a gate that holds a remote as connected (or just
      has connection data of it) holds exactly the remote's own keys. */
  lemma KeyAgreement(w: World, ms: seq<Move>, g: Id, to: Id)
    requires Initial(w) && Knows(Run(w, ms), g, to)
    ensures var now := Run(w, ms);
      && to < |w.gates| == |now.gates| && now.gates[to].own == w.gates[to].own
      && var r := now.gates[g].remotes[to];
         && r.rsa == to
         && (r.connected <==> r.connDataAvailable && r.timeBaseAvailable)
         && (r.connected || r.connDataAvailable ==> r.keys == now.gates[to].own.keys)
  {
    RunKeeps(w, ms);
    var now := Run(w, ms);
    assert RightGate(Owns(w), g, now.gates[g]) && RightRecord(Owns(w), g, to, now.gates[g].remotes[to]);
    assert RightGate(Owns(w), to, now.gates[to]);
  }

  /** In every reachable state, what one of two mutually connected gates wraps for the other is
      put out unchanged, when it arrives in order and at valid addresses. */
  lemma WrappedArrives(w: World, ms: seq<Move>, a: Id, b: Id, payload: Bytes, env: Env)
    requires Initial(w) && Knows(Run(w, ms), a, b) && Knows(Run(w, ms), b, a)
    requires var now := Run(w, ms);
      && now.gates[a].remotes[b].connected && now.gates[b].remotes[a].connected
      && InOrder(now.gates[a].remotes[b].outSeqNum, now.gates[b].remotes[a].inSeqNum)
    requires env.localOk && env.sourceOk
    ensures var now := Run(w, ms); var A, B := now.gates[a], now.gates[b];
      var (_, sent) := Wrap(A.own, A.remotes[b], b, payload);
      && |sent| == 1 && sent[0].from == a && sent[0].to == b
      && Receive(B.own, B.remotes[a], sent[0], env).emitted == Some(payload)
  {
    hide InOrder, ToUint32;
    KeyAgreement(w, ms, a, b);
    KeyAgreement(w, ms, b, a);
    RunKeeps(w, ms);
    var now := Run(w, ms);
    assert RightGate(Owns(w), a, now.gates[a]) && RightGate(Owns(w), b, now.gates[b]);
    hide Run;
  }

  // Message cascades

  /** Requests ask for an answer, answers do not. */
  predicate Asks(p: Packet) {
    (p.body.Ping? && p.body.requestID != 0) || (p.body.ConnData? && !p.body.response)
  }

  function Weight(p: Packet): nat {
    if Asks(p) then 2 else 1
  }

  function Load(ps: seq<Packet>): (n: nat)
    ensures |ps| <= n <= 2 * |ps|
  {
    if ps == [] then 0 else Load(ps[..|ps| - 1]) + Weight(ps[|ps| - 1])
  }

  lemma {:induction false} LoadAppend(a: seq<Packet>, b: seq<Packet>)
    ensures Load(a + b) == Load(a) + Load(b)
  {
    if b == [] {
      assert a + b == a;
    } else {
      assert (a + b)[..|a + b| - 1] == a + b[..|b| - 1];
      LoadAppend(a, b[..|b| - 1]);
    }
  }

  lemma {:induction false} LoadWithout(s: seq<Packet>, i: nat)
    requires i < |s|
    ensures Load(Without(s, i)) == Load(s) - Weight(s[i])
  {
    hide Weight;
    var n := |s| - 1;
    if i == n {
      assert Without(s, i) == s[..n];
    } else {
      LoadWithout(s[..n], i);
      assert Without(s, i)[..n - 1] == Without(s[..n], i);
    }
  }

  /** Handling a packet sends at most one, and only an answer to a request. */
  lemma ReplyLighter(own: Local, r: Remote, p: Packet, env: Env)
    ensures var sent := Receive(own, r, p, env).sent; |sent| == 0 || (|sent| == 1 && Asks(p) && !Asks(sent[0]))
  {
    hide ToUint32, TruncDiv, ToInt32, TimeOffset, Abs, LocalOffset, Adjust, Latency, CheckPacket;
  }

  /** Handling a packet that is delivered once makes what is in flight lighter. */
  lemma DeliveryLightens(w: World, i: nat, env: Env)
    requires Enabled(w, Deliver(i, env))
    ensures var w' := Next(w, Deliver(i, env));
      Load(w'.flight) < Load(w.flight) && w'.started == w.started
      && w'.total + Load(w'.flight) - |w'.flight| <= w.total + Load(w.flight) - |w.flight|
  {
    hide Receive, Load;
    var p := w.flight[i];
    var gate := w.gates[p.to];
    var sent := Receive(gate.own, gate.remotes[p.from], p, env).sent;
    ReplyLighter(gate.own, gate.remotes[p.from], p, env);
    LoadWithout(w.flight, i);
    LoadAppend(Without(w.flight, i), sent);
    LoadOfFew(sent);
  }

  lemma LoadOfFew(s: seq<Packet>)
    ensures s == [] ==> Load(s) == 0
    ensures |s| == 1 ==> Load(s) == Weight(s[0])
  {
    if |s| == 1 {
      assert s[..0] == [];
    }
  }

  /** No packet arrives twice, and none that was not sent. */
  predicate NoDuplicates(ms: seq<Move>) {
    forall m :: m in ms ==> !m.Redeliver?
  }

  lemma StepCount(w: World, m: Move)
    requires !m.Redeliver?
    requires w.total + Load(w.flight) - |w.flight| <= 2 * w.started
    ensures var w' := Next(w, m); w'.total + Load(w'.flight) - |w'.flight| <= 2 * w'.started
  {
    if Enabled(w, m) {
      hide Load, Visit, Wrap, Receive;
      match m
      case Deliver(i, env) => DeliveryLightens(w, i, env);
      case Lose(i) => LoadWithout(w.flight, i);
      case AdminVisit(g, to, now, later, connectDue, pingID, others) =>
        var (r, sent) := Visit(w.gates[g].own, w.gates[g].remotes[to], to, now, later, connectDue, pingID, others);
        LoadAppend(w.flight, sent);
      case WrapOut(g, to, payload) =>
        var (r, sent) := Wrap(w.gates[g].own, w.gates[g].remotes[to], to, payload);
        LoadAppend(w.flight, sent);
      case Redeliver(_, _) =>
    }
  }

  /** Cascades are short: without duplication, k packets that gates send on their own cause at
      most 2k packets in all. */
  lemma {:induction false} AtMostTwice(w: World, ms: seq<Move>)
    requires Initial(w) && NoDuplicates(ms)
    ensures var w' := Run(w, ms);
      w'.total + Load(w'.flight) - |w'.flight| <= 2 * w'.started && w'.total <= 2 * w'.started
  {
    if ms != [] {
      AtMostTwice(w, ms[..|ms| - 1]);
      StepCount(Run(w, ms[..|ms| - 1]), ms[|ms| - 1]);
    }
  }

  /** And they end: once no gate sends on its own, there are at most as many deliveries as what
      is in flight weighs. */
  lemma {:induction false} CascadeEnds(w: World, ms: seq<Move>)
    requires forall i :: 0 <= i < |ms| ==> (ms[i].Deliver? || ms[i].Lose?) && Enabled(Run(w, ms[..i]), ms[i])
    ensures |ms| + Load(Run(w, ms).flight) <= Load(w.flight)
  {
    if ms != [] {
      var n := |ms| - 1;
      var init := ms[..n];
      assert forall i :: 0 <= i <= n ==> init[..i] == ms[..i];
      CascadeEnds(w, init);
      var s := Run(w, init);
      if ms[n].Deliver? {
        DeliveryLightens(s, ms[n].i, ms[n].env);
      } else {
        LoadWithout(s.flight, ms[n].i);
      }
    }
  }
}
