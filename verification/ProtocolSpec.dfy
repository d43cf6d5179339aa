/** The gateway protocol as a step function on what one gate keeps of one remote (protocol.c, the
    admin loop and dispatch of hopper.c, the gating of director.c). Cryptography is ideal: a seal
    passes only under the key that made it, and a lock opens only for the key it was closed for. */
module ProtocolSpec {
  import opened Octets
  import opened Options
  import opened Timing
  import opened TimeSync

  const SEQ_NUM_WRAP_ALLOWANCE: nat := 10
  const UINT16_MAX: nat := 65535
  const MIN_PING_TIME: int := 5
  const CONNECT_WAIT_TIME: int := 60
  const MAX_UPDATE_TIME: int := 180
  const MAX_PING_TIME: int := 30
  const MIN_VALID_IP_PROP: int := 20

  const AES_KEY_SIZE: nat := 32
  const AES_BLOCK_SIZE: nat := 16
  const HOP_KEY_SIZE: nat := 16

  type Id = nat

  type SymKey = s: Bytes | |s| == AES_KEY_SIZE witness Zeros(AES_KEY_SIZE)
  type Block = s: Bytes | |s| == AES_BLOCK_SIZE witness Zeros(AES_BLOCK_SIZE)
  type HopKey = s: Bytes | |s| == HOP_KEY_SIZE witness Zeros(HOP_KEY_SIZE)

  /** What connection data carries. */
  datatype Keys = Keys(symKey: SymKey, iv: Block, hopKey: HopKey, hopInterval: nat)

  /** The keys of a record without connection data. */
  const NO_KEYS := Keys(Zeros(AES_KEY_SIZE), Zeros(AES_BLOCK_SIZE), Zeros(HOP_KEY_SIZE), TWO_32 - 1)

  /** A gate's own record: its identity (its RSA key pair), its keys and its time base. */
  datatype Local = Local(id: Id, keys: Keys, base: Timespec)

  /** What a gate keeps of a remote. rsa is the owner of the public key on record. */
  datatype Remote = Remote(rsa: Id, connected: bool, connDataAvailable: bool, timeBaseAvailable: bool,
                           sendPing: bool, sendConnData: bool, sendTrust: bool,
                           inSeqNum: Uint32, outSeqNum: Uint32, keys: Keys, timeBase: Timespec, latency: int,
                           pingSentTime: Timespec, sentPingID: Uint32,
                           lastConnAttemptTime: Timespec, lastDataUpdate: Timespec,
                           goodIPCount: Uint32, badIPCount: Uint32)

  datatype Body =
    | Ping(requestID: Uint32, responseID: Uint32, timeOffset: Uint32)
    | ConnData(response: bool, keys: Keys)
    | Trust(about: Id, rsa: Id)
    | Wrapped(payload: Bytes)
    | Unknown

  datatype Seal = ByRsa(owner: Id) | ByMac(symKey: SymKey) | Broken
  datatype Lock = ForRsa(owner: Id) | ForKeys(symKey: SymKey, iv: Block)

  datatype Packet = Packet(from: Id, to: Id, seqNum: Uint32, body: Body, seal: Seal, lock: Lock)

  /** What decrypting with the wrong symmetric key happens to yield. */
  datatype Noise = Noise(about: Id, rsa: Id, payload: Bytes)

  /** What a packet meets on arrival: two clock samples, the verdicts of the two address checks,
      and the noise of a failing decryption. */
  datatype Env = Env(now: Timespec, later: Timespec, localOk: bool, sourceOk: bool, noise: Noise)

  datatype Error = SeqBad | NotConnected | SigCheckFailed | DecryptFailed
  datatype Check = Accepted(body: Body) | Refused(error: Error)

  /** create_arg_network_info, with the public key that is then read into it. */
  function NewRemote(rsa: Id): Remote {
    var zero := Timespec(0, 0);
    Remote(rsa, false, false, false, false, false, false, 0, 1, NO_KEYS, zero, 0,
           zero, 0, zero, zero, 0, 0)
  }

  predicate Symmetric(body: Body) {
    body.Wrapped? || body.Trust?
  }

  /** create_arg_packet and send_packet: the next sequence number, a lock for the receiver, a seal
      of the sender. */
  function Send(own: Local, r: Remote, to: Id, body: Body): (Remote, Packet) {
    (r.(outSeqNum := ToUint32(r.outSeqNum + 1)),
     Packet(own.id, to, r.outSeqNum, body,
            if body.Wrapped? then ByMac(own.keys.symKey) else ByRsa(own.id),
            if Symmetric(body) then ForKeys(r.keys.symKey, r.keys.iv) else ForRsa(r.rsa)))
  }

  // Receiving: process_arg_packet

  /** The sequence number moves on, or wraps: the wrap is tested against 2^16. */
  predicate InOrder(seqNum: Uint32, inSeqNum: Uint32) {
    || seqNum > inSeqNum
    || (seqNum < SEQ_NUM_WRAP_ALLOWANCE && inSeqNum > UINT16_MAX - SEQ_NUM_WRAP_ALLOWANCE)
  }

  predicate SealHolds(p: Packet, r: Remote) {
    p.seal == if p.body.Wrapped? then ByMac(r.keys.symKey) else ByRsa(r.rsa)
  }

  function Opened(own: Local, p: Packet, noise: Noise): Body {
    if p.lock == ForKeys(own.keys.symKey, own.keys.iv) then p.body
    else if p.body.Trust? then Trust(noise.about, noise.rsa)
    else Wrapped(noise.payload)
  }

  /** The sequence number to record, and the verdict. A packet that passes the sequence check is
      recorded before its seal is looked at; connection data that does not pass still resets the
      number if it brings a new IV. */
  function CheckPacket(own: Local, r: Remote, p: Packet, noise: Noise): (Uint32, Check) {
    var inOrder := InOrder(p.seqNum, r.inSeqNum);
    var seqNum := if inOrder then p.seqNum else r.inSeqNum;
    if !inOrder && !p.body.ConnData? then (seqNum, Refused(SeqBad))
    else if p.body.Wrapped? && !r.connected then (seqNum, Refused(NotConnected))
    else if !SealHolds(p, r) then (seqNum, Refused(SigCheckFailed))
    else if Symmetric(p.body) then (seqNum, Accepted(Opened(own, p, noise)))
    else if p.lock != ForRsa(own.id) then (seqNum, Refused(DecryptFailed))
    else if inOrder then (seqNum, Accepted(p.body))
    else if p.body.keys.iv == r.keys.iv then (seqNum, Refused(SeqBad))
    else (0, Accepted(p.body))
  }

  function ProcessPacket(own: Local, r: Remote, p: Packet, noise: Noise): (Remote, Check) {
    var (seqNum, check) := CheckPacket(own, r, p, noise);
    (r.(inSeqNum := seqNum), check)
  }

  // Pings

  /** A pong that answers our last ping: new time base and latency, and a new ping soon if the
      latency is far from the average. */
  function PongAccepted(r: Remote, timeOffset: Uint32, env: Env): Remote {
    var pong := Pong(r.pingSentTime, env.now, env.later, timeOffset);
    var sample := Latency(pong);
    var latency := if r.latency > 0 then TruncDiv(3 * r.latency + sample, 4) else sample;
    r.(timeBase := Adjust(r.timeBase, pong), latency := latency,
       sendPing := r.sendPing || Abs(ToInt32(latency - sample)) > TruncDiv(latency, 4),
       timeBaseAvailable := true, connected := r.connected || r.connDataAvailable)
  }

  predicate Answers(ping: Body, r: Remote)
    requires ping.Ping?
  {
    ping.responseID != 0 && ping.responseID == r.sentPingID
  }

  function LocalOffset(own: Local, now: Timespec): Uint32 {
    ToUint32(TimeOffset(own.base, now))
  }

  function ProcessPing(own: Local, r: Remote, p: Packet, env: Env): (Remote, seq<Packet>)
    requires p.body.Ping?
  {
    var (r1, check) := ProcessPacket(own, r, p, env.noise);
    if check.Refused? then (r1, [])
    else
      var r2 := if Answers(p.body, r1) then PongAccepted(r1, p.body.timeOffset, env) else r1;
      if p.body.requestID == 0 then (r2, [])
      else
        var (r3, pong) := Send(own, r2, p.from, Ping(0, p.body.requestID, LocalOffset(own, env.later)));
        (r3, [pong])
  }

  // Connection data

  function ConnDataAccepted(r: Remote, keys: Keys, now: Timespec): Remote {
    r.(keys := keys, lastDataUpdate := now, connDataAvailable := true,
       connected := r.connected || r.timeBaseAvailable, sendPing := true, sendTrust := true)
  }

  function SendConnData(own: Local, r: Remote, to: Id, response: bool, now: Timespec): (Remote, Packet) {
    var (r1, p) := Send(own, r, to, ConnData(response, own.keys));
    (r1.(lastConnAttemptTime := now), p)
  }

  /** A request is answered with our own data at once; a response is not. */
  function ProcessConnData(own: Local, r: Remote, p: Packet, env: Env): (Remote, seq<Packet>)
    requires p.body.ConnData?
  {
    var (r1, check) := ProcessPacket(own, r, p, env.noise);
    if check.Refused? then (r1, [])
    else
      var r2 := ConnDataAccepted(r1, p.body.keys, env.now);
      if p.body.response then (r2, [])
      else
        var (r3, reply) := SendConnData(own, r2, p.from, true, env.later);
        (r3, [reply])
  }

  // Everything that comes in: direct_inbound, process_admin_msg

  /** What handling a packet does: the new record, packets sent, a gate learned of, and a packet
      put into the internal network. */
  datatype Effect = Effect(r: Remote, sent: seq<Packet>, learned: Option<(Id, Id)>, emitted: Option<Bytes>)

  function Receive(own: Local, r: Remote, p: Packet, env: Env): Effect {
    match p.body
    case Ping(_, _, _) =>
      var (r1, sent) := ProcessPing(own, r, p, env);
      Effect(r1, sent, None, None)
    case ConnData(_, _) =>
      var (r1, sent) := ProcessConnData(own, r, p, env);
      Effect(r1, sent, None, None)
    case Trust(_, _) =>
      var (r1, check) := ProcessPacket(own, r, p, env.noise);
      Effect(r1, [],
             if check.Accepted? && check.body.Trust? then Some((check.body.about, check.body.rsa)) else None, None)
    case Wrapped(_) =>
      if !r.connected then Effect(r, [], None, None)
      else if !env.localOk || !env.sourceOk then
        Effect(r.(badIPCount := ToUint32(r.badIPCount + 1)), [], None, None)
      else
        var (r1, check) := ProcessPacket(own, r.(goodIPCount := ToUint32(r.goodIPCount + 1)), p, env.noise);
        Effect(r1, [], None, if check.Accepted? && check.body.Wrapped? then Some(check.body.payload) else None)
    case Unknown => Effect(r, [], None, None)
  }

  // The admin loop

  function EndConnection(r: Remote): Remote {
    r.(timeBaseAvailable := false, connDataAvailable := false, connected := false)
  }

  predicate TimedOut(r: Remote, now: Timespec) {
    r.connected && TimeOffset(r.lastDataUpdate, now) > MAX_UPDATE_TIME * 1000
  }

  /** Fewer than MIN_VALID_IP_PROP good addresses per bad one; without bad ones, fewer good ones
      than that in all. */
  predicate ManyBadIPs(r: Remote) {
    MIN_VALID_IP_PROP > ToInt32(if r.badIPCount != 0 then r.goodIPCount / r.badIPCount else r.goodIPCount)
  }

  function StartTimeSync(r: Remote): Remote {
    r.(sendPing := true)
  }

  function StartConnection(r: Remote): Remote {
    r.(sendConnData := true)
  }

  /** The loop body of hopper_admin_thread up to the protocol action. */
  function AdminCheck(r: Remote, now: Timespec, connectDue: bool): Remote {
    var r1 := if TimedOut(r, now) then EndConnection(r) else r;
    var r2 := if connectDue then StartConnection(r1) else r1;
    if r2.connected && (ManyBadIPs(r2) || TimeOffset(r2.pingSentTime, now) > MAX_PING_TIME * 1000)
    then StartTimeSync(r2).(goodIPCount := 0, badIPCount := 0)
    else r2
  }

  predicate PingDue(r: Remote, now: Timespec) {
    r.sendPing && TimeOffset(r.pingSentTime, now) > MIN_PING_TIME * 1000
  }

  predicate ConnDataDue(r: Remote, now: Timespec) {
    r.sendConnData && TimeOffset(r.lastConnAttemptTime, now) > CONNECT_WAIT_TIME * 1000
  }

  function SendPing(own: Local, r: Remote, to: Id, pingID: Uint32, now: Timespec): (Remote, Packet) {
    var (r1, p) := Send(own, r, to, Ping(pingID, 0, LocalOffset(own, now)));
    (r1.(sentPingID := pingID, pingSentTime := now, sendPing := false), p)
  }

  function SendAllTrust(own: Local, r: Remote, to: Id, others: seq<(Id, Id)>): (Remote, seq<Packet>) {
    if others == [] then (r, [])
    else
      var (r1, sent) := SendAllTrust(own, r, to, others[..|others| - 1]);
      var other := others[|others| - 1];
      var (r2, p) := Send(own, r1, to, Trust(other.0, other.1));
      (r2, sent + [p])
  }

  function PingAction(own: Local, r: Remote, to: Id, now: Timespec, pingID: Uint32): (Remote, seq<Packet>) {
    if !PingDue(r, now) then (r, [])
    else
      var (s, p) := SendPing(own, r, to, pingID, now);
      (s, [p])
  }

  function ConnDataAction(own: Local, r: Remote, to: Id, now: Timespec): (Remote, seq<Packet>) {
    if !ConnDataDue(r, now) then (r, [])
    else
      var (s, p) := SendConnData(own, r, to, false, now);
      (s.(sendConnData := false), [p])
  }

  function TrustAction(own: Local, r: Remote, to: Id, others: seq<(Id, Id)>): (Remote, seq<Packet>) {
    if !r.sendTrust || !r.connected then (r, [])
    else
      var (s, ps) := SendAllTrust(own, r, to, others);
      (s.(sendTrust := false), ps)
  }

  /** do_next_protocol_action; pingID is the random number drawn, others the remaining gates. */
  function NextAction(own: Local, r: Remote, to: Id, now: Timespec, pingID: Uint32, others: seq<(Id, Id)>)
    : (Remote, seq<Packet>)
  {
    var (r1, pings) := PingAction(own, r, to, now, pingID);
    var (r2, conns) := ConnDataAction(own, r1, to, now);
    var (r3, trusts) := TrustAction(own, r2, to, others);
    (r3, pings + conns + trusts)
  }

  function Visit(own: Local, r: Remote, to: Id, now: Timespec, later: Timespec, connectDue: bool, pingID: Uint32,
                 others: seq<(Id, Id)>): (Remote, seq<Packet>)
  {
    NextAction(own, AdminCheck(r, now, connectDue), to, later, pingID, others)
  }

  /** do_arg_wrap: nothing leaves while the remote is not connected. */
  function Wrap(own: Local, r: Remote, to: Id, payload: Bytes): (Remote, seq<Packet>) {
    if !r.connected then (r, [])
    else
      var (r1, p) := Send(own, r, to, Wrapped(payload));
      (r1, [p])
  }
}
