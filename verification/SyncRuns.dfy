/** The clock estimate over whole runs of a remote's record: it is what its accepted pongs make of
    it, so a connected remote's clock is known as well as the round trips allow. */
module SyncRuns {
  import opened Octets
  import opened ProtocolSpec
  import opened RemoteRuns
  import opened Timing
  import opened TimeSync

  /** An accepted pong as the time arithmetic sees it. */
  function PongOf(r: Remote, e: Event): Pong
    requires e.Arrive? && e.p.body.Ping?
  {
    Pong(r.pingSentTime, e.env.now, e.env.later, e.p.body.timeOffset)
  }

  /** The pongs accepted in a run, in order. */
  function PongsOf(own: Local, to: Id, r: Remote, es: seq<Event>): seq<Pong> {
    if es == [] then []
    else
      var init, last := es[..|es| - 1], es[|es| - 1];
      var s := Run(own, to, r, init);
      PongsOf(own, to, r, init) + if TakesPong(own, s, last) then [PongOf(s, last)] else []
  }

  lemma {:induction false} TrustKeepsBase(own: Local, r: Remote, to: Id, others: seq<(Id, Id)>)
    ensures SendAllTrust(own, r, to, others).0.timeBase == r.timeBase
  {
    if others != [] {
      TrustKeepsBase(own, r, to, others[..|others| - 1]);
    }
  }

  lemma CheckKeepsBase(r: Remote, now: Timespec, connectDue: bool)
    ensures AdminCheck(r, now, connectDue).timeBase == r.timeBase
  {
    hide TimeOffset, ManyBadIPs, TimedOut;
  }

  lemma PartsKeepBase(own: Local, r: Remote, to: Id, now: Timespec, pingID: Uint32, others: seq<(Id, Id)>)
    ensures PingAction(own, r, to, now, pingID).0.timeBase == r.timeBase
    ensures ConnDataAction(own, r, to, now).0.timeBase == r.timeBase
    ensures TrustAction(own, r, to, others).0.timeBase == r.timeBase
  {
    hide PingDue, ConnDataDue, ToUint32, LocalOffset;
    TrustKeepsBase(own, r, to, others);
    hide SendAllTrust;
  }

  lemma VisitKeepsBase(own: Local, r: Remote, to: Id, now: Timespec, later: Timespec, connectDue: bool, pingID: Uint32,
                       others: seq<(Id, Id)>)
    ensures Visit(own, r, to, now, later, connectDue, pingID, others).0.timeBase == r.timeBase
  {
    hide AdminCheck, PingAction, ConnDataAction, TrustAction;
    CheckKeepsBase(r, now, connectDue);
    var r0 := AdminCheck(r, now, connectDue);
    PartsKeepBase(own, r0, to, later, pingID, others);
    var r1 := PingAction(own, r0, to, later, pingID).0;
    PartsKeepBase(own, r1, to, later, pingID, others);
    PartsKeepBase(own, ConnDataAction(own, r1, to, later).0, to, later, pingID, others);
  }

  lemma PingBase(own: Local, r: Remote, p: Packet, env: Env)
    requires p.body.Ping?
    ensures var e := Arrive(p, env);
      ProcessPing(own, r, p, env).0.timeBase ==
          if TakesPong(own, r, e) then Adjust(r.timeBase, PongOf(r, e)) else r.timeBase
  {
    OpensAsItself(own, r, p, env.noise);
    hide CheckPacket, TruncDiv, ToInt32, ToUint32, TimeOffset, Abs, LocalOffset, Adjust, Latency;
  }

  /** Only an accepted pong moves the time base, and it does so by the averaging step. */
  lemma BaseStep(own: Local, to: Id, r: Remote, e: Event)
    ensures Step(own, to, r, e).0.timeBase ==
        if TakesPong(own, r, e) then Adjust(r.timeBase, PongOf(r, e)) else r.timeBase
  {
    hide ToUint32, CheckPacket, ProcessPing, Visit, Adjust;
    match e
    case Admin(now, later, connectDue, pingID, others) =>
      VisitKeepsBase(own, r, to, now, later, connectDue, pingID, others);
    case Arrive(p, env) =>
      if p.body.Ping? {
        PingBase(own, r, p, env);
      }
    case Outbound(_) =>
  }

  lemma TakesPings(own: Local, r: Remote, e: Event)
    requires TakesPong(own, r, e)
    ensures e.Arrive? && e.p.body.Ping?
  {
  }

  lemma OneMore(base: Timespec, pongs: seq<Pong>, p: Pong)
    ensures AdjustAll(base, pongs + [p]) == Adjust(AdjustAll(base, pongs), p)
  {
    assert (pongs + [p])[..|pongs|] == pongs;
  }

  lemma {:induction false} BaseOfRun(own: Local, to: Id, r0: Remote, es: seq<Event>)
    requires Consistent(r0) && !r0.timeBaseAvailable
    ensures var r := Run(own, to, r0, es); var pongs := PongsOf(own, to, r0, es);
      && r.timeBase == AdjustAll(r0.timeBase, pongs)
      && Consistent(r) && (r.timeBaseAvailable ==> pongs != [])
  {
    if es != [] {
      hide Step, TakesPong, TakesConnData, Ends, Adjust, AdjustAll, Consistent;
      var init, last := es[..|es| - 1], es[|es| - 1];
      var s := Run(own, to, r0, init);
      BaseOfRun(own, to, r0, init);
      BaseStep(own, to, s, last);
      FlagsStep(own, to, s, last);
      if TakesPong(own, s, last) {
        TakesPings(own, s, last);
        OneMore(r0.timeBase, PongsOf(own, to, r0, init), PongOf(s, last));
      } else {
        assert PongsOf(own, to, r0, es) == PongsOf(own, to, r0, init);
      }
    }
  }

  /** Whenever a remote is connected, its recorded time base is good to the worst of the accepted
      pongs, however many there were and whatever else happened. */
  lemma ConnectedMeansSynced(own: Local, to: Id, r0: Remote, es: seq<Event>, truth: int, legs: Legs, err: int)
    requires !r0.connected && !r0.timeBaseAvailable && r0.timeBase == Timespec(0, 0)
    requires 2 * err < (TWO_31 - 1) * MS && GoodPongs(PongsOf(own, to, r0, es), truth, legs, err)
    ensures var r := Run(own, to, r0, es); r.connected ==> Within(r.timeBase, truth, err)
  {
    BaseOfRun(own, to, r0, es);
    if Run(own, to, r0, es).connected {
      SyncBound(Timespec(0, 0), PongsOf(own, to, r0, es), truth, legs, err);
    }
  }

  /** The answer to a ping carries the answering gate's offset, right to a millisecond. */
  lemma AnswerOffset(own: Local, r: Remote, p: Packet, env: Env)
    requires p.body.Ping? && ProcessPing(own, r, p, env).1 != []
    requires 0 <= TimeOffset(own.base, env.later) < TWO_32
    ensures var sent := ProcessPing(own, r, p, env).1;
      && |sent| == 1 && sent[0].body.Ping? && sent[0].body.responseID == p.body.requestID
      && Abs(sent[0].body.timeOffset * MS - (Nanos(env.later) - Nanos(own.base))) < MS
  {
    hide CheckPacket, PongAccepted, TimeOffset;
    assert LocalOffset(own, env.later) == TimeOffset(own.base, env.later);
  }

  // What a ping leaves in the record

  lemma {:induction false} TrustKeepsPingID(own: Local, r: Remote, to: Id, others: seq<(Id, Id)>)
    ensures SendAllTrust(own, r, to, others).0.sentPingID == r.sentPingID
  {
    if others != [] {
      TrustKeepsPingID(own, r, to, others[..|others| - 1]);
    }
  }

  lemma VisitPingID(own: Local, r: Remote, to: Id, e: Event)
    requires e.Admin?
    ensures Step(own, to, r, e).0.sentPingID == if Sends(false, r, e) then e.pingID else r.sentPingID
  {
    hide TimeOffset, ToUint32, ToInt32, LocalOffset, ManyBadIPs, TimedOut;
    var r0 := AdminCheck(r, e.now, e.connectDue);
    assert r0.sentPingID == r.sentPingID;
    hide AdminCheck;
    var r1 := PingAction(own, r0, to, e.later, e.pingID).0;
    var r2 := ConnDataAction(own, r1, to, e.later).0;
    TrustKeepsPingID(own, r2, to, e.others);
    hide SendAllTrust;
  }

  lemma ArrivalPingID(own: Local, r: Remote, p: Packet, env: Env)
    ensures Receive(own, r, p, env).r.sentPingID == r.sentPingID
  {
    hide ToUint32, CheckPacket, ProcessPing, ProcessConnData;
    match p.body
    case Ping(_, _, _) => PingSummary(own, r, p, env);
    case ConnData(_, _) => ConnDataSummary(own, r, p, env);
    case _ =>
  }

  /** The record remembers the id and the time of the last ping sent. */
  lemma PingStep(own: Local, to: Id, r: Remote, e: Event)
    ensures var r' := Step(own, to, r, e).0;
      if Sends(false, r, e) then r'.sentPingID == e.pingID && r'.pingSentTime == e.later
      else r'.sentPingID == r.sentPingID && r'.pingSentTime == r.pingSentTime
  {
    hide Step, Sends;
    StampStep(false, own, to, r, e);
    SendsAreAdmin(r, e);
    assert Stamps(false, own, r, e) <==> Sends(false, r, e);
    match e
    case Admin(_, _, _, _, _) => VisitPingID(own, r, to, e);
    case Arrive(p, env) => ArrivalPingIDStep(own, to, r, e);
    case Outbound(_) => OutboundPingID(own, to, r, e);
  }

  lemma SendsAreAdmin(r: Remote, e: Event)
    ensures Sends(false, r, e) ==> e.Admin?
  {
  }

  lemma ArrivalPingIDStep(own: Local, to: Id, r: Remote, e: Event)
    requires e.Arrive?
    ensures Step(own, to, r, e).0.sentPingID == r.sentPingID
  {
    hide Receive;
    ArrivalPingID(own, r, e.p, e.env);
  }

  lemma OutboundPingID(own: Local, to: Id, r: Remote, e: Event)
    requires e.Outbound?
    ensures Step(own, to, r, e).0.sentPingID == r.sentPingID
  {
    hide ToUint32;
  }
}
