/** What an arriving packet achieves, stated at once for every packet and every record: when it is
    accepted, what is sent, learned and put out because of it, and what it leaves in the record. */
module Arrivals {
  import opened Octets
  import opened Options
  import opened ProtocolSpec
  import opened RemoteRuns
  import opened Timing
  import opened TimeSync

  /** All guards a packet has to pass: the sequence number (connection data may bring a new IV
      instead), the sender's seal, for what is not encrypted with our symmetric key our lock, and for
      a wrapped packet a live connection and two valid addresses. */
  predicate Admissible(own: Local, r: Remote, p: Packet, env: Env) {
    var newer := p.seqNum > r.inSeqNum || (p.seqNum < 10 && r.inSeqNum > 65525);
    match p.body
    case Ping(_, _, _) => newer && p.seal == ByRsa(r.rsa) && p.lock == ForRsa(own.id)
    case Trust(_, _) => newer && p.seal == ByRsa(r.rsa)
    case ConnData(_, keys) => (newer || keys.iv != r.keys.iv) && p.seal == ByRsa(r.rsa) && p.lock == ForRsa(own.id)
    case Wrapped(_) => newer && r.connected && env.localOk && env.sourceOk && p.seal == ByMac(r.keys.symKey)
    case Unknown => false
  }

  lemma TakesIff(own: Local, r: Remote, p: Packet, env: Env)
    ensures Takes(own, r, Arrive(p, env)) <==> Admissible(own, r, p, env)
  {
    hide Opened;
  }

  /** What is sent because of a packet. */
  function Answer(own: Local, p: Packet, env: Env): seq<Body> {
    if p.body.Ping? && p.body.requestID != 0 then
      [Ping(0, p.body.requestID, ToUint32(TimeOffset(own.base, env.later)))]
    else if p.body.ConnData? && !p.body.response then [ConnData(true, own.keys)]
    else []
  }

  function Bodies(ps: seq<Packet>): (r: seq<Body>)
    ensures |r| == |ps| && forall i :: 0 <= i < |r| ==> r[i] == ps[i].body
  {
    seq(|ps|, i requires 0 <= i < |ps| => ps[i].body)
  }

  /** A ping that asks and a connection request are answered, if admissible, and nothing else is: by
      one packet with the next sequence number, sealed by us, locked for the remote. */
  lemma AnswersIff(own: Local, r: Remote, p: Packet, env: Env)
    ensures var sent := Receive(own, r, p, env).sent;
      && Bodies(sent) == (if Admissible(own, r, p, env) then Answer(own, p, env) else [])
      && forall q :: q in sent ==>
           q == Packet(own.id, p.from, r.outSeqNum, q.body, ByRsa(own.id), ForRsa(r.rsa))
  {
    TakesIff(own, r, p, env);
    if p.body.Ping? || p.body.ConnData? {
      OpensAsItself(own, r, p, env.noise);
    }
    hide Admissible, CheckPacket, ToUint32, TimeOffset, PongAccepted;
    if p.body.Ping? {
      PongKeepsRest(own, r, p, env);
    }
  }

  /** A wrapped packet is put out exactly if it is admissible, as it was sent if it was locked for us;
      a trust packet teaches exactly if it is. */
  lemma PutsOutIff(own: Local, r: Remote, p: Packet, env: Env)
    ensures var effect := Receive(own, r, p, env);
      var opens := p.lock == ForKeys(own.keys.symKey, own.keys.iv);
      && effect.emitted == (if p.body.Wrapped? && Admissible(own, r, p, env)
                            then Some(if opens then p.body.payload else env.noise.payload) else None)
      && effect.learned == (if p.body.Trust? && Admissible(own, r, p, env)
                            then Some(if opens then (p.body.about, p.body.rsa) else (env.noise.about, env.noise.rsa))
                            else None)
  {
    hide ToUint32, ProcessPing, ProcessConnData;
    TakesIff(own, r, p, env);
    if p.body.Wrapped? {
      CheckIgnoresCounts(own, r, p, env.noise, ToUint32(r.goodIPCount + 1));
    }
    hide Admissible, InOrder;
  }

  lemma PongKeepsRest(own: Local, r: Remote, p: Packet, env: Env)
    requires p.body.Ping?
    ensures var r' := PongAccepted(r, p.body.timeOffset, env);
      r'.outSeqNum == r.outSeqNum && r'.rsa == r.rsa
  {
    hide Adjust, Latency, TruncDiv, ToInt32;
  }

  /** The record after a ping: everything below except the sequence numbers and the clock. */
  lemma PingLeaves(own: Local, r: Remote, p: Packet, env: Env)
    requires p.body.Ping?
    ensures var r', pong := ProcessPing(own, r, p, env).0, TakesPong(own, r, Arrive(p, env));
      var s := if pong then PongAccepted(r, p.body.timeOffset, env) else r;
      && r'.goodIPCount == r.goodIPCount && r'.badIPCount == r.badIPCount
      && r'.sendTrust == r.sendTrust && r'.sendPing == s.sendPing && r'.latency == s.latency
  {
    OpensAsItself(own, r, p, env.noise);
    PongIgnoresNumber(r, CheckPacket(own, r, p, env.noise).0, p.body.timeOffset, env);
    hide CheckPacket, ToUint32, LocalOffset, PongAccepted;
  }

  lemma PongIgnoresNumber(r: Remote, seqNum: Uint32, timeOffset: Uint32, env: Env)
    ensures var s := PongAccepted(r, timeOffset, env);
      && PongAccepted(r.(inSeqNum := seqNum), timeOffset, env) == s.(inSeqNum := seqNum)
      && s.goodIPCount == r.goodIPCount && s.badIPCount == r.badIPCount && s.sendTrust == r.sendTrust
  {
    hide Adjust, Latency, TruncDiv, ToInt32, Abs;
  }

  lemma DataLeaves(own: Local, r: Remote, p: Packet, env: Env)
    requires p.body.ConnData?
    ensures var r', taken := ProcessConnData(own, r, p, env).0, TakesConnData(own, r, Arrive(p, env));
      && r'.goodIPCount == r.goodIPCount && r'.badIPCount == r.badIPCount && r'.latency == r.latency
      && r'.sendTrust == (r.sendTrust || taken) && r'.sendPing == (r.sendPing || taken)
  {
    hide CheckPacket, ToUint32;
  }

  /** A wrapped packet from a connected remote is counted by its two addresses, and by nothing else;
      what it contains does not matter. */
  lemma CountsStep(own: Local, r: Remote, p: Packet, env: Env)
    ensures var r' := Receive(own, r, p, env).r; var counted := p.body.Wrapped? && r.connected;
      var good := env.localOk && env.sourceOk;
      && r'.goodIPCount == (if counted && good then ToUint32(r.goodIPCount + 1) else r.goodIPCount)
      && r'.badIPCount == (if counted && !good then ToUint32(r.badIPCount + 1) else r.badIPCount)
  {
    hide CheckPacket, ToUint32, ProcessPing, ProcessConnData, PongAccepted;
    if p.body.Ping? {
      PingLeaves(own, r, p, env);
    } else if p.body.ConnData? {
      DataLeaves(own, r, p, env);
    }
  }

  /** An admissible answer to our last ping. */
  predicate Pongs(own: Local, r: Remote, p: Packet, env: Env) {
    p.body.Ping? && Admissible(own, r, p, env) && p.body.responseID != 0 && p.body.responseID == r.sentPingID
  }

  lemma TakesPongIff(own: Local, r: Remote, p: Packet, env: Env)
    ensures TakesPong(own, r, Arrive(p, env)) <==> Pongs(own, r, p, env)
    ensures Pongs(own, r, p, env) ==> p.body.Ping?
    ensures TakesConnData(own, r, Arrive(p, env)) <==> p.body.ConnData? && Admissible(own, r, p, env)
  {
    TakesIff(own, r, p, env);
    hide Admissible, CheckPacket;
  }

  /** Accepted connection data asks for a ping and for trust packets; an answer to our ping asks for
      another exactly if its latency is off by more than a quarter of the new average. */
  lemma AsksIff(own: Local, r: Remote, p: Packet, env: Env)
    ensures var r', data := Receive(own, r, p, env).r, p.body.ConnData? && Admissible(own, r, p, env);
      var far := Abs(ToInt32(r'.latency - Sample(r, env))) > TruncDiv(r'.latency, 4);
      && (r'.sendTrust <==> r.sendTrust || data)
      && (r'.sendPing <==> r.sendPing || data || (Pongs(own, r, p, env) && far))
  {
    hide ToInt32, ToUint32, Abs, TruncDiv, ProcessPing, ProcessConnData, PongAccepted, CheckPacket, Pongs, Admissible;
    TakesPongIff(own, r, p, env);
    hide TakesPong, TakesConnData;
    if p.body.Ping? {
      PingLeaves(own, r, p, env);
      PongAverages(r, p.body.timeOffset, env);
    } else if p.body.ConnData? {
      DataLeaves(own, r, p, env);
    }
  }

  /** Half the round trip of a pong, in milliseconds. */
  function Sample(r: Remote, env: Env): int {
    TruncDiv(TimeOffset(r.pingSentTime, env.now), 2)
  }

  /** Only an answer to our ping moves the latency: a quarter of the way to the sample, or onto it when
      there was none. */
  lemma LatencyStep(own: Local, r: Remote, p: Packet, env: Env)
    ensures var r', pong := Receive(own, r, p, env).r, Pongs(own, r, p, env);
      && (!pong ==> r'.latency == r.latency)
      && (pong && r.latency <= 0 ==> r'.latency == Sample(r, env))
      && (pong && r.latency > 0 ==> Abs(4 * r'.latency - (3 * r.latency + Sample(r, env))) < 4)
  {
    hide ToInt32, ToUint32, Abs, Sample, ProcessPing, ProcessConnData, PongAccepted, CheckPacket, Pongs;
    TakesPongIff(own, r, p, env);
    hide TakesPong, TakesConnData;
    if p.body.Ping? {
      PingLeaves(own, r, p, env);
      PongAverages(r, p.body.timeOffset, env);
    } else if p.body.ConnData? {
      DataLeaves(own, r, p, env);
    }
  }

  lemma PongAverages(r: Remote, timeOffset: Uint32, env: Env)
    ensures var s, sample := PongAccepted(r, timeOffset, env), Sample(r, env);
      && s.sendPing == (r.sendPing || Abs(ToInt32(s.latency - sample)) > TruncDiv(s.latency, 4))
      && (r.latency <= 0 ==> s.latency == sample)
      && (r.latency > 0 ==> Abs(4 * s.latency - (3 * r.latency + sample)) < 4)
  {
    hide ToInt32, TimeOffset, Adjust;
    QuarterStep(r.latency, TruncDiv(TimeOffset(r.pingSentTime, env.now), 2));
    hide TruncDiv, Abs;
  }

  lemma QuarterStep(average: int, sample: int)
    ensures Abs(4 * TruncDiv(3 * average + sample, 4) - (3 * average + sample)) < 4
  {
  }
}
