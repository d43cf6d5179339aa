/** The handlers of protocol.c and their callers in hopper.c and director.c, changing a remote's
    record in place; each does what ProtocolSpec says. */
module Protocol {
  import opened Octets
  import opened Options
  import opened ProtocolSpec
  import opened Timing
  import opened TimeSync

  /** Where send_packet puts things. */
  class Wire {
    var sent: seq<Packet>

    constructor ()
      ensures sent == []
    {
      sent := [];
    }
  }

  /** The protocol part of arg_network_info. */
  class Peer {
    var rsa: Id
    var connected: bool
    var connDataAvailable: bool
    var timeBaseAvailable: bool
    var sendPing: bool
    var sendConnData: bool
    var sendTrust: bool
    var inSeqNum: Uint32
    var outSeqNum: Uint32
    var keys: Keys
    var timeBase: Timespec
    var latency: int
    var pingSentTime: Timespec
    var sentPingID: Uint32
    var lastConnAttemptTime: Timespec
    var lastDataUpdate: Timespec
    var goodIPCount: Uint32
    var badIPCount: Uint32

    function View(): Remote
      reads this
    {
      Remote(rsa, connected, connDataAvailable, timeBaseAvailable, sendPing, sendConnData, sendTrust,
             inSeqNum, outSeqNum, keys, timeBase, latency, pingSentTime, sentPingID,
             lastConnAttemptTime, lastDataUpdate, goodIPCount, badIPCount)
    }

    constructor (rsa: Id)
      ensures View() == NewRemote(rsa)
    {
      this.rsa, connected, connDataAvailable, timeBaseAvailable := rsa, false, false, false;
      sendPing, sendConnData, sendTrust, inSeqNum, outSeqNum := false, false, false, 0, 1;
      keys, timeBase, latency := NO_KEYS, Timespec(0, 0), 0;
      pingSentTime, sentPingID := Timespec(0, 0), 0;
      lastConnAttemptTime, lastDataUpdate, goodIPCount, badIPCount := Timespec(0, 0), Timespec(0, 0), 0, 0;
    }

    method StartTimeSync()
      modifies this
      ensures View() == ProtocolSpec.StartTimeSync(old(View()))
    {
      sendPing := true;
    }

    method StartConnection()
      modifies this
      ensures View() == ProtocolSpec.StartConnection(old(View()))
    {
      sendConnData := true;
    }

    method EndConnection()
      modifies this
      ensures View() == ProtocolSpec.EndConnection(old(View()))
    {
      timeBaseAvailable := false;
      connDataAvailable := false;
      connected := false;
    }

    // Sending

    /** send_arg_packet with create_arg_packet. */
    method SendArgPacket(own: Local, to: Id, body: Body, wire: Wire)
      modifies this, wire
      ensures var (r, p) := Send(own, old(View()), to, body); View() == r && wire.sent == old(wire.sent) + [p]
    {
      var seqNum := outSeqNum;
      outSeqNum := ToUint32(outSeqNum + 1);
      var lock := if Symmetric(body) then ForKeys(keys.symKey, keys.iv) else ForRsa(rsa);
      var seal := if body.Wrapped? then ByMac(own.keys.symKey) else ByRsa(own.id);
      wire.sent := wire.sent + [Packet(own.id, to, seqNum, body, seal, lock)];
    }

    method SendArgPing(own: Local, to: Id, pingID: Uint32, now: Timespec, wire: Wire)
      modifies this, wire
      ensures var (r, p) := SendPing(own, old(View()), to, pingID, now);
        View() == r.(sendPing := old(sendPing)) && wire.sent == old(wire.sent) + [p]
    {
      sentPingID := pingID;
      pingSentTime := now;
      SendArgPacket(own, to, Ping(pingID, 0, LocalOffset(own, now)), wire);
    }

    method SendArgConnData(own: Local, to: Id, isResponse: bool, now: Timespec, wire: Wire)
      modifies this, wire
      ensures var (r, p) := SendConnData(own, old(View()), to, isResponse, now);
        View() == r && wire.sent == old(wire.sent) + [p]
    {
      SendArgPacket(own, to, ConnData(isResponse, own.keys), wire);
      lastConnAttemptTime := now;
    }

    /** send_all_trust over the gates other than ourselves and this remote. */
    method SendTrust(own: Local, to: Id, others: seq<(Id, Id)>, wire: Wire)
      modifies this, wire
      ensures var (r, ps) := SendAllTrust(own, old(View()), to, others);
        View() == r && wire.sent == old(wire.sent) + ps
    {
      ghost var before, sent0 := View(), wire.sent;
      var i := 0;
      while i < |others|
        invariant 0 <= i <= |others|
        invariant View() == SendAllTrust(own, before, to, others[..i]).0
        invariant wire.sent == sent0 + SendAllTrust(own, before, to, others[..i]).1
      {
        assert others[..i + 1][..i] == others[..i];
        SendArgPacket(own, to, Trust(others[i].0, others[i].1), wire);
        i := i + 1;
      }
      assert others[..i] == others;
    }

    /** do_next_protocol_action */
    method DoNextProtocolAction(own: Local, to: Id, now: Timespec, pingID: Uint32, others: seq<(Id, Id)>, wire: Wire)
      modifies this, wire
      ensures var (r, ps) := NextAction(own, old(View()), to, now, pingID, others);
        View() == r && wire.sent == old(wire.sent) + ps
    {
      hide PingAction, ConnDataAction, TrustAction;
      PingIfDue(own, to, now, pingID, wire);
      ConnectIfDue(own, to, now, wire);
      TrustIfAsked(own, to, others, wire);
    }

    method PingIfDue(own: Local, to: Id, now: Timespec, pingID: Uint32, wire: Wire)
      modifies this, wire
      ensures var (r, ps) := PingAction(own, old(View()), to, now, pingID);
        View() == r && wire.sent == old(wire.sent) + ps
    {
      hide TimeOffset, ToUint32, LocalOffset;
      if sendPing && TimeOffset(pingSentTime, now) > MIN_PING_TIME * 1000 {
        SendArgPing(own, to, pingID, now, wire);
        sendPing := false;
      }
    }

    method ConnectIfDue(own: Local, to: Id, now: Timespec, wire: Wire)
      modifies this, wire
      ensures var (r, ps) := ConnDataAction(own, old(View()), to, now); View() == r && wire.sent == old(wire.sent) + ps
    {
      hide TimeOffset, ToUint32;
      if sendConnData && TimeOffset(lastConnAttemptTime, now) > CONNECT_WAIT_TIME * 1000 {
        SendArgConnData(own, to, false, now, wire);
        sendConnData := false;
      }
    }

    method TrustIfAsked(own: Local, to: Id, others: seq<(Id, Id)>, wire: Wire)
      modifies this, wire
      ensures var (r, ps) := TrustAction(own, old(View()), to, others); View() == r && wire.sent == old(wire.sent) + ps
    {
      hide SendAllTrust;
      if sendTrust && connected {
        SendTrust(own, to, others, wire);
        sendTrust := false;
      }
    }

    /** The body of hopper_admin_thread's loop over the gates. */
    method Visit(own: Local, to: Id, now: Timespec, later: Timespec, connectDue: bool, pingID: Uint32,
                 others: seq<(Id, Id)>, wire: Wire)
      modifies this, wire
      ensures var (r, ps) := ProtocolSpec.Visit(own, old(View()), to, now, later, connectDue, pingID, others);
        View() == r && wire.sent == old(wire.sent) + ps
    {
      hide TimeOffset, ToInt32, NextAction;
      var offset := TimeOffset(lastDataUpdate, now);
      if connected && offset > MAX_UPDATE_TIME * 1000 {
        EndConnection();
      }
      if connectDue {
        StartConnection();
      }
      offset := TimeOffset(pingSentTime, now);
      if connected {
        var prop := ToInt32(goodIPCount);
        if badIPCount != 0 {
          prop := ToInt32(goodIPCount / badIPCount);
        }
        if MIN_VALID_IP_PROP > prop || offset > MAX_PING_TIME * 1000 {
          StartTimeSync();
          goodIPCount, badIPCount := 0, 0;
        }
      }
      assert View() == AdminCheck(old(View()), now, connectDue);
      DoNextProtocolAction(own, to, later, pingID, others, wire);
    }

    // Receiving

    /** process_arg_packet */
    method ProcessArgPacket(own: Local, p: Packet, noise: Noise) returns (check: Check)
      modifies this
      ensures (View(), check) == ProcessPacket(own, old(View()), p, noise)
    {
      hide Opened;
      var recheckSeq := false;
      if p.seqNum > inSeqNum || (p.seqNum < SEQ_NUM_WRAP_ALLOWANCE && inSeqNum > UINT16_MAX - SEQ_NUM_WRAP_ALLOWANCE) {
        inSeqNum := p.seqNum;
      } else if p.body.ConnData? {
        recheckSeq := true;
      } else {
        return Refused(SeqBad);
      }

      if p.body.Wrapped? {
        if !connected {
          return Refused(NotConnected);
        }
        if p.seal != ByMac(keys.symKey) {
          return Refused(SigCheckFailed);
        }
      } else if p.seal != ByRsa(rsa) {
        return Refused(SigCheckFailed);
      }

      if Symmetric(p.body) {
        check := Accepted(Opened(own, p, noise));
      } else if p.lock != ForRsa(own.id) {
        return Refused(DecryptFailed);
      } else {
        check := Accepted(p.body);
      }

      if recheckSeq {
        if p.body.keys.iv == keys.iv {
          return Refused(SeqBad);
        }
        inSeqNum := 0;
      }
    }

    /** The part of process_arg_ping that handles an answer to our last ping. */
    method AcceptPong(timeOffset: Uint32, env: Env)
      modifies this
      ensures View() == PongAccepted(old(View()), timeOffset, env)
    {
      hide TruncDiv, ToInt32, ToUint32, TimeOffset, Plus, Abs;
      var sample := TruncDiv(TimeOffset(pingSentTime, env.now), 2);
      var negated := ToUint32(0 - timeOffset as int);
      var newBase := Plus(env.later, ToInt32(negated - sample));
      var diff := ToInt32(TimeOffset(timeBase, newBase));
      if timeBase.sec > 0 {
        timeBase := Plus(timeBase, TruncDiv(diff, 2));
      } else {
        timeBase := newBase;
      }
      if latency > 0 {
        latency := TruncDiv(3 * latency + sample, 4);
      } else {
        latency := sample;
      }
      if Abs(ToInt32(latency - sample)) > TruncDiv(latency, 4) {
        sendPing := true;
      }
      timeBaseAvailable := true;
      if connDataAvailable {
        connected := true;
      }
    }

    /** The ids of an answer: their id echoed, and an id of our own only if there was none to
        echo, since responseID is set before it is looked at. */
    method PongIds(requested: Uint32, newID: Uint32) returns (requestID: Uint32, responseID: Uint32)
      modifies this
      ensures requested != 0 ==> View() == old(View()) && requestID == 0 && responseID == requested
    {
      responseID := requested;
      if responseID == 0 {
        sentPingID := newID;
        requestID := newID;
      } else {
        requestID := 0;
      }
    }

    /** process_arg_ping; newID is the random number for a second round trip. No answer ever asks
        for one. */
    method ProcessArgPing(own: Local, p: Packet, env: Env, newID: Uint32, wire: Wire)
      requires p.body.Ping?
      modifies this, wire
      ensures var (r, ps) := ProcessPing(own, old(View()), p, env);
        View() == r && wire.sent == old(wire.sent) + ps
    {
      hide PongAccepted, CheckPacket, ToUint32, LocalOffset;
      var check := ProcessArgPacket(own, p, env.noise);
      if check.Refused? {
        return;
      }
      if p.body.responseID != 0 && sentPingID == p.body.responseID {
        AcceptPong(p.body.timeOffset, env);
      }
      if p.body.requestID != 0 {
        var requestID, responseID := PongIds(p.body.requestID, newID);
        SendArgPacket(own, p.from, Ping(requestID, responseID, LocalOffset(own, env.later)), wire);
      }
    }

    /** process_arg_conn_data_resp */
    method ProcessArgConnDataResp(own: Local, p: Packet, env: Env) returns (ok: bool)
      requires p.body.ConnData?
      modifies this
      ensures var (r, check) := ProcessPacket(own, old(View()), p, env.noise);
        && ok == check.Accepted?
        && View() == if ok then ConnDataAccepted(r, p.body.keys, env.now) else r
    {
      hide CheckPacket;
      var check := ProcessArgPacket(own, p, env.noise);
      if check.Refused? {
        return false;
      }
      keys := p.body.keys;
      lastDataUpdate := env.now;
      connDataAvailable := true;
      if timeBaseAvailable {
        connected := true;
      }
      sendPing := true;
      sendTrust := true;
      ok := true;
    }

    /** process_arg_conn_data_req */
    method ProcessArgConnDataReq(own: Local, p: Packet, env: Env, wire: Wire)
      requires p.body.ConnData? && !p.body.response
      modifies this, wire
      ensures var (r, ps) := ProcessConnData(own, old(View()), p, env);
        View() == r && wire.sent == old(wire.sent) + ps
    {
      hide CheckPacket, ToUint32;
      var ok := ProcessArgConnDataResp(own, p, env);
      if ok {
        SendArgConnData(own, p.from, true, env.later, wire);
        sendPing := true;
        sendTrust := true;
      }
    }

    method NoteIp(good: bool)
      modifies this
      ensures View() == if good then old(View()).(goodIPCount := ToUint32(old(goodIPCount) + 1))
                        else old(View()).(badIPCount := ToUint32(old(badIPCount) + 1))
    {
      if good {
        goodIPCount := ToUint32(goodIPCount + 1);
      } else {
        badIPCount := ToUint32(badIPCount + 1);
      }
    }

    /** direct_inbound for a packet from a known gate, with process_admin_msg. */
    method DirectInbound(own: Local, p: Packet, env: Env, newID: Uint32, wire: Wire)
      returns (learned: Option<(Id, Id)>, emitted: Option<Bytes>)
      modifies this, wire
      ensures var effect := Receive(own, old(View()), p, env);
        && View() == effect.r && wire.sent == old(wire.sent) + effect.sent
        && learned == effect.learned && emitted == effect.emitted
    {
      hide CheckPacket, ToUint32, PongAccepted, LocalOffset;
      learned, emitted := None, None;
      match p.body
      case Ping(_, _, _) => ProcessArgPing(own, p, env, newID, wire);
      case ConnData(response, _) =>
        if response {
          var ok := ProcessArgConnDataResp(own, p, env);
        } else {
          ProcessArgConnDataReq(own, p, env, wire);
        }
      case Trust(_, _) =>
        var check := ProcessArgPacket(own, p, env.noise);
        if check.Accepted? && check.body.Trust? {
          learned := Some((check.body.about, check.body.rsa));
        }
      case Wrapped(_) => emitted := Unwrap(own, p, env);
      case Unknown =>
    }

    /** The gating of wrapped packets, and process_arg_wrapped. */
    method Unwrap(own: Local, p: Packet, env: Env) returns (emitted: Option<Bytes>)
      requires p.body.Wrapped?
      modifies this
      ensures var effect := Receive(own, old(View()), p, env);
        View() == effect.r && effect.sent == [] && effect.learned == None && emitted == effect.emitted
    {
      hide CheckPacket, ToUint32;
      emitted := None;
      if !connected {
        return;
      }
      if !env.localOk || !env.sourceOk {
        NoteIp(false);
        return;
      }
      NoteIp(true);
      var check := ProcessArgPacket(own, p, env.noise);
      if check.Accepted? && check.body.Wrapped? {
        emitted := Some(check.body.payload);
      }
    }

    /** direct_outbound for a packet to a known gate. */
    method WrapOut(own: Local, to: Id, payload: Bytes, wire: Wire)
      modifies this, wire
      ensures var (r, ps) := Wrap(own, old(View()), to, payload);
        View() == r && wire.sent == old(wire.sent) + ps
    {
      if connected {
        SendArgPacket(own, to, Wrapped(payload), wire);
      }
    }
  }
}
