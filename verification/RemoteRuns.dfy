/** Whole runs of one gate's view of one remote: what connected means, which sequence numbers are
    let through, and how far apart pings are. */
module RemoteRuns {
  import opened Octets
  import opened ProtocolSpec
  import opened Timing
  import opened TimeSync

  /** Everything that touches the record of one remote: a packet from it, a visit of the admin
      loop, an internal packet to wrap. */
  datatype Event =
    | Arrive(p: Packet, env: Env)
    | Admin(now: Timespec, later: Timespec, connectDue: bool, pingID: Uint32, others: seq<(Id, Id)>)
    | Outbound(payload: Bytes)

  function Step(own: Local, to: Id, r: Remote, e: Event): (Remote, seq<Packet>) {
    match e
    case Arrive(p, env) =>
      var effect := Receive(own, r, p, env);
      (effect.r, effect.sent)
    case Admin(now, later, connectDue, pingID, others) => Visit(own, r, to, now, later, connectDue, pingID, others)
    case Outbound(payload) => Wrap(own, r, to, payload)
  }

  function Run(own: Local, to: Id, r: Remote, es: seq<Event>): Remote {
    if es == [] then r else Step(own, to, Run(own, to, r, es[..|es| - 1]), es[|es| - 1]).0
  }

  // What connected means

  predicate TakesConnData(own: Local, r: Remote, e: Event) {
    e.Arrive? && e.p.body.ConnData? && CheckPacket(own, r, e.p, e.env.noise).1.Accepted?
  }

  predicate TakesPong(own: Local, r: Remote, e: Event) {
    e.Arrive? && e.p.body.Ping? && CheckPacket(own, r, e.p, e.env.noise).1.Accepted? && Answers(e.p.body, r)
  }

  predicate Ends(r: Remote, e: Event) {
    e.Admin? && TimedOut(r, e.now)
  }

  predicate Consistent(r: Remote) {
    r.connected <==> r.connDataAvailable && r.timeBaseAvailable
  }

  /** Sending touches counters and nothing that this section talks about. */
  predicate SameFlags(r: Remote, r': Remote) {
    && r'.connected == r.connected && r'.connDataAvailable == r.connDataAvailable
    && r'.timeBaseAvailable == r.timeBaseAvailable && r'.keys == r.keys && r'.rsa == r.rsa
    && r'.inSeqNum == r.inSeqNum && r'.lastDataUpdate == r.lastDataUpdate
  }

  lemma {:induction false} TrustKeepsFlags(own: Local, r: Remote, to: Id, others: seq<(Id, Id)>)
    ensures var r' := SendAllTrust(own, r, to, others).0;
      SameFlags(r, r') && r'.pingSentTime == r.pingSentTime && r'.sentPingID == r.sentPingID
      && r'.lastConnAttemptTime == r.lastConnAttemptTime
  {
    if others != [] {
      TrustKeepsFlags(own, r, to, others[..|others| - 1]);
    }
  }

  lemma PartsKeepFlags(own: Local, r: Remote, to: Id, now: Timespec, pingID: Uint32, others: seq<(Id, Id)>)
    ensures SameFlags(r, PingAction(own, r, to, now, pingID).0)
    ensures SameFlags(r, ConnDataAction(own, r, to, now).0)
    ensures SameFlags(r, TrustAction(own, r, to, others).0)
  {
    hide ToUint32, TimeOffset, LocalOffset;
    TrustKeepsFlags(own, r, to, others);
    hide SendAllTrust;
  }

  lemma ActionKeepsFlags(own: Local, r: Remote, to: Id, now: Timespec, pingID: Uint32, others: seq<(Id, Id)>)
    ensures SameFlags(r, NextAction(own, r, to, now, pingID, others).0)
  {
    hide PingAction, ConnDataAction, TrustAction;
    var r1 := PingAction(own, r, to, now, pingID).0;
    var r2 := ConnDataAction(own, r1, to, now).0;
    PartsKeepFlags(own, r, to, now, pingID, others);
    PartsKeepFlags(own, r1, to, now, pingID, others);
    PartsKeepFlags(own, r2, to, now, pingID, others);
  }

  /** What one event does to the three flags. */
  lemma FlagsStep(own: Local, to: Id, r: Remote, e: Event)
    requires Consistent(r)
    ensures var r' := Step(own, to, r, e).0;
      && Consistent(r')
      && (r'.connDataAvailable <==> TakesConnData(own, r, e) || (r.connDataAvailable && !Ends(r, e)))
      && (r'.timeBaseAvailable <==> TakesPong(own, r, e) || (r.timeBaseAvailable && !Ends(r, e)))
  {
    hide TruncDiv, ToInt32, ToUint32, TimeOffset, Abs, LocalOffset, Adjust, Latency;
    match e
    case Admin(now, later, connectDue, pingID, others) =>
      hide NextAction, ManyBadIPs;
      ActionKeepsFlags(own, AdminCheck(r, now, connectDue), to, later, pingID, others);
    case Arrive(p, env) => ArriveFlags(own, r, p, env);
    case Outbound(_) =>
  }

  /** What a ping or pong changes in the record, short of time base, latency and counters. */
  lemma PingSummary(own: Local, r: Remote, p: Packet, env: Env)
    requires p.body.Ping?
    ensures var r', taken := ProcessPing(own, r, p, env).0, TakesPong(own, r, Arrive(p, env));
      && SameFlags(r', r.(inSeqNum := CheckPacket(own, r, p, env.noise).0,
                          timeBaseAvailable := r.timeBaseAvailable || taken,
                          connected := r.connected || (taken && r.connDataAvailable)))
      && r'.pingSentTime == r.pingSentTime && r'.lastConnAttemptTime == r.lastConnAttemptTime
      && r'.sentPingID == r.sentPingID
  {
    hide TruncDiv, ToInt32, ToUint32, TimeOffset, Abs, LocalOffset, Adjust, Latency;
    OpensAsItself(own, r, p, env.noise);
    hide CheckPacket;
  }

  lemma OpensAsItself(own: Local, r: Remote, p: Packet, noise: Noise)
    requires !Symmetric(p.body)
    ensures var check := CheckPacket(own, r, p, noise).1; check.Accepted? ==> check.body == p.body
  {
    hide InOrder;
  }

  lemma ConnDataSummary(own: Local, r: Remote, p: Packet, env: Env)
    requires p.body.ConnData?
    ensures var r', taken := ProcessConnData(own, r, p, env).0, TakesConnData(own, r, Arrive(p, env));
      && SameFlags(r', r.(inSeqNum := CheckPacket(own, r, p, env.noise).0,
                          keys := if taken then p.body.keys else r.keys,
                          lastDataUpdate := if taken then env.now else r.lastDataUpdate,
                          connDataAvailable := r.connDataAvailable || taken,
                          connected := r.connected || (taken && r.timeBaseAvailable)))
      && r'.pingSentTime == r.pingSentTime && r'.sentPingID == r.sentPingID
  {
    hide ToUint32, CheckPacket;
  }

  lemma ArriveFlags(own: Local, r: Remote, p: Packet, env: Env)
    requires Consistent(r)
    ensures var r' := Receive(own, r, p, env).r; var e := Arrive(p, env);
      && Consistent(r')
      && (r'.connDataAvailable <==> TakesConnData(own, r, e) || r.connDataAvailable)
      && (r'.timeBaseAvailable <==> TakesPong(own, r, e) || r.timeBaseAvailable)
  {
    hide ToUint32, CheckPacket, ProcessPing, ProcessConnData;
    match p.body
    case Ping(_, _, _) => PingSummary(own, r, p, env);
    case ConnData(_, _) => ConnDataSummary(own, r, p, env);
    case _ =>
  }

  /** The two things it takes to be connected. */
  predicate Accepts(pong: bool, own: Local, r: Remote, e: Event) {
    if pong then TakesPong(own, r, e) else TakesConnData(own, r, e)
  }

  /** One of them was accepted at some event, and the connection not ended after it. */
  ghost predicate SinceEnd(pong: bool, own: Local, to: Id, r: Remote, es: seq<Event>) {
    exists i :: AcceptedAt(pong, own, to, r, es, i)
  }

  ghost predicate AcceptedAt(pong: bool, own: Local, to: Id, r: Remote, es: seq<Event>, i: int) {
    && 0 <= i < |es| && Accepts(pong, own, Run(own, to, r, es[..i]), es[i])
    && forall j :: i < j < |es| ==> !Ends(Run(own, to, r, es[..j]), es[j])
  }

  lemma SinceExtends(pong: bool, own: Local, to: Id, r: Remote, es: seq<Event>)
    requires es != []
    ensures var init, last := es[..|es| - 1], es[|es| - 1]; var s := Run(own, to, r, init);
      SinceEnd(pong, own, to, r, es) <==>
          Accepts(pong, own, s, last) || (SinceEnd(pong, own, to, r, init) && !Ends(s, last))
  {
    hide Accepts, Ends, Run;
    var n := |es| - 1;
    var init := es[..n];
    assert forall i :: 0 <= i <= n ==> init[..i] == es[..i];
    assert Accepts(pong, own, Run(own, to, r, init), es[n]) ==> AcceptedAt(pong, own, to, r, es, n);
    forall i | 0 <= i < n
      ensures AcceptedAt(pong, own, to, r, es, i) <==>
        AcceptedAt(pong, own, to, r, init, i) && !Ends(Run(own, to, r, init), es[n])
    {
      assert es[..n] == init;
    }
  }

  /** In every run from a record without connection data and time base, a remote is connected
      exactly when connection data and an answer to our own ping were accepted since the
      connection last ended, in either order. */
  lemma {:induction false} ConnectedIff(own: Local, to: Id, r0: Remote, es: seq<Event>)
    requires !r0.connected && !r0.connDataAvailable && !r0.timeBaseAvailable
    ensures var r := Run(own, to, r0, es);
      && Consistent(r)
      && (r.connDataAvailable <==> SinceEnd(false, own, to, r0, es))
      && (r.timeBaseAvailable <==> SinceEnd(true, own, to, r0, es))
  {
    if es != [] {
      var init := es[..|es| - 1];
      ConnectedIff(own, to, r0, init);
      hide SinceEnd, Step, Ends, TakesConnData, TakesPong;
      FlagsStep(own, to, Run(own, to, r0, init), es[|es| - 1]);
      SinceExtends(false, own, to, r0, es);
      SinceExtends(true, own, to, r0, es);
    }
  }

  // Sequence numbers

  /** The packet gets as far as the sequence number check. */
  predicate Checked(r: Remote, e: Event) {
    e.Arrive? && !e.p.body.Unknown? && (e.p.body.Wrapped? ==> r.connected && e.env.localOk && e.env.sourceOk)
  }

  predicate Takes(own: Local, r: Remote, e: Event) {
    Checked(r, e) && CheckPacket(own, r, e.p, e.env.noise).1.Accepted?
  }

  /** Let through by the wrap clause only. */
  predicate Wraps(r: Remote, e: Event) {
    Checked(r, e) && e.p.seqNum <= r.inSeqNum && InOrder(e.p.seqNum, r.inSeqNum)
  }

  /** Connection data out of order, but with a changed IV: the sender may have restarted. */
  predicate Resets(own: Local, r: Remote, e: Event) {
    && Takes(own, r, e) && !InOrder(e.p.seqNum, r.inSeqNum)
    && e.p.body.ConnData? && e.p.body.keys.iv != r.keys.iv
  }

  /** The sequence number after any event. It moves before the seal is looked at. */
  lemma SeqStep(own: Local, to: Id, r: Remote, e: Event)
    ensures var r' := Step(own, to, r, e).0;
      r'.inSeqNum == if Resets(own, r, e) then 0
                     else if Checked(r, e) && InOrder(e.p.seqNum, r.inSeqNum) then e.p.seqNum
                     else r.inSeqNum
    ensures Takes(own, r, e) ==> InOrder(e.p.seqNum, r.inSeqNum) || Resets(own, r, e)
  {
    hide TruncDiv, ToInt32, ToUint32, TimeOffset, Abs, LocalOffset, Adjust, Latency;
    match e
    case Admin(now, later, connectDue, pingID, others) =>
      hide NextAction, ManyBadIPs;
      ActionKeepsFlags(own, AdminCheck(r, now, connectDue), to, later, pingID, others);
    case Arrive(p, env) => ArriveSeq(own, r, p, env);
    case Outbound(_) =>
  }

  /** Counting a good address changes no verdict. */
  lemma CheckIgnoresCounts(own: Local, r: Remote, p: Packet, noise: Noise, good: Uint32)
    ensures CheckPacket(own, r, p, noise) == CheckPacket(own, r.(goodIPCount := good), p, noise)
  {
    hide InOrder, Opened;
  }

  lemma CheckSeq(own: Local, r: Remote, p: Packet, noise: Noise)
    ensures var (seqNum, check) := CheckPacket(own, r, p, noise);
      && (check.Accepted? && !InOrder(p.seqNum, r.inSeqNum) ==> p.body.ConnData? && p.body.keys.iv != r.keys.iv)
      && seqNum == if InOrder(p.seqNum, r.inSeqNum) then p.seqNum else if check.Accepted? then 0 else r.inSeqNum
  {
    hide InOrder, Opened;
  }

  lemma ArriveSeq(own: Local, r: Remote, p: Packet, env: Env)
    ensures var e, r' := Arrive(p, env), Receive(own, r, p, env).r;
      r'.inSeqNum == if Resets(own, r, e) then 0
                     else if Checked(r, e) && InOrder(p.seqNum, r.inSeqNum) then p.seqNum
                     else r.inSeqNum
    ensures Takes(own, r, Arrive(p, env)) ==> InOrder(p.seqNum, r.inSeqNum) || Resets(own, r, Arrive(p, env))
  {
    hide ToUint32, InOrder, CheckPacket, ProcessPing, ProcessConnData;
    CheckSeq(own, r, p, env.noise);
    match p.body
    case Ping(_, _, _) => PingSummary(own, r, p, env);
    case ConnData(_, _) => ConnDataSummary(own, r, p, env);
    case Wrapped(_) => CheckIgnoresCounts(own, r, p, env.noise, ToUint32(r.goodIPCount + 1));
    case _ =>
  }

  /** The sequence number goes down only by a wrap or by a reset. */
  lemma OnlyWrapsAndResetsLower(own: Local, to: Id, r: Remote, e: Event)
    ensures Step(own, to, r, e).0.inSeqNum < r.inSeqNum ==> Wraps(r, e) || Resets(own, r, e)
  {
    SeqStep(own, to, r, e);
  }

  /** The events from i on keep to one epoch: no wrap, no reset. */
  ghost predicate OneEpoch(own: Local, to: Id, r: Remote, es: seq<Event>, i: nat) {
    forall j :: i <= j < |es| ==>
      var s := Run(own, to, r, es[..j]); !Wraps(s, es[j]) && !Resets(own, s, es[j])
  }

  lemma {:induction false} EpochRises(own: Local, to: Id, r: Remote, es: seq<Event>, i: nat)
    requires i <= |es| && OneEpoch(own, to, r, es, i)
    ensures Run(own, to, r, es[..i]).inSeqNum <= Run(own, to, r, es).inSeqNum
  {
    if i < |es| {
      var init := es[..|es| - 1];
      assert forall j :: 0 <= j <= |init| ==> init[..j] == es[..j];
      EpochRises(own, to, r, init, i);
      var s := Run(own, to, r, es[..|es| - 1]);
      OnlyWrapsAndResetsLower(own, to, s, es[|es| - 1]);
    } else {
      assert es[..i] == es;
    }
  }

  /** Within an epoch the accepted sequence numbers rise strictly. */
  lemma AcceptedRise(own: Local, to: Id, r: Remote, es: seq<Event>, i: nat, j: nat)
    requires i < j < |es| && OneEpoch(own, to, r, es, i)
    requires Takes(own, Run(own, to, r, es[..i]), es[i]) && Takes(own, Run(own, to, r, es[..j]), es[j])
    ensures es[i].p.seqNum < es[j].p.seqNum
  {
    var mid := es[..j];
    assert forall k :: 0 <= k <= j ==> mid[..k] == es[..k];
    EpochRises(own, to, r, mid, i + 1);
    assert es[..i + 1][..i] == es[..i];
    SeqStep(own, to, Run(own, to, r, es[..i]), es[i]);
    SeqStep(own, to, Run(own, to, r, es[..j]), es[j]);
  }

  /** So no packet is accepted twice in an epoch, however often the network delivers it. */
  lemma NoReplay(own: Local, to: Id, r: Remote, es: seq<Event>, i: nat, j: nat)
    requires i < j < |es| && OneEpoch(own, to, r, es, i)
    requires es[i].Arrive? && es[j].Arrive? && es[i].p == es[j].p
    ensures !Takes(own, Run(own, to, r, es[..i]), es[i]) || !Takes(own, Run(own, to, r, es[..j]), es[j])
  {
    if Takes(own, Run(own, to, r, es[..i]), es[i]) && Takes(own, Run(own, to, r, es[..j]), es[j]) {
      AcceptedRise(own, to, r, es, i, j);
    }
  }

  /** Across the end of the 32-bit range, the number k after the last one seen is let through
      exactly if fewer than ten numbers of the new round are gone. */
  lemma InOrderAfterLoss(last: Uint32, k: nat)
    requires 1 <= k <= TWO_31
    ensures InOrder(ToUint32(last + k), last) <==> last + k < TWO_32 + SEQ_NUM_WRAP_ALLOWANCE
  {
    if last + k >= TWO_32 {
      assert (last + k) % TWO_32 == last + k - TWO_32;
    }
  }

  // Rates

  /** The admin loop sends a ping (or, for conn, a connection request) in this event. */
  predicate Sends(conn: bool, r: Remote, e: Event) {
    e.Admin? && var s := AdminCheck(r, e.now, e.connectDue);
                if conn then ConnDataDue(s, e.later) else PingDue(s, e.later)
  }

  /** The time the rate is measured from is set to now: by such a send, or by the answer to the
      other side's connection request. */
  predicate Stamps(conn: bool, own: Local, r: Remote, e: Event) {
    Sends(conn, r, e) || (conn && TakesConnData(own, r, e) && !e.p.body.response)
  }

  function Stamp(conn: bool, r: Remote): Timespec {
    if conn then r.lastConnAttemptTime else r.pingSentTime
  }

  function TimeOf(e: Event): Timespec
    requires !e.Outbound?
  {
    if e.Admin? then e.later else e.env.later
  }

  function Gap(conn: bool): int {
    (if conn then CONNECT_WAIT_TIME else MIN_PING_TIME) * SECOND
  }

  /** The gate's clock does not run backwards. */
  predicate ClockRuns(es: seq<Event>) {
    forall i, j :: 0 <= i < j < |es| && !es[i].Outbound? && !es[j].Outbound? ==>
        Nanos(TimeOf(es[i])) <= Nanos(TimeOf(es[j]))
  }

  lemma StampStep(conn: bool, own: Local, to: Id, r: Remote, e: Event)
    ensures Stamp(conn, Step(own, to, r, e).0) == if Stamps(conn, own, r, e) then TimeOf(e) else Stamp(conn, r)
    ensures Sends(conn, r, e) ==> Nanos(TimeOf(e)) - Nanos(Stamp(conn, r)) > Gap(conn)
  {
    match e
    case Admin(now, later, connectDue, pingID, others) => AdminStamp(conn, own, to, r, e);
    case Arrive(p, env) =>
      hide ToUint32, CheckPacket, ProcessPing, ProcessConnData, TimeOffset;
      if p.body.Ping? {
        PingSummary(own, r, p, env);
      } else if p.body.ConnData? {
        ConnDataStamp(own, r, p, env);
      }
    case Outbound(_) =>
  }

  lemma ConnDataStamp(own: Local, r: Remote, p: Packet, env: Env)
    requires p.body.ConnData?
    ensures var r' := ProcessConnData(own, r, p, env).0;
      && r'.pingSentTime == r.pingSentTime
      && r'.lastConnAttemptTime ==
          if TakesConnData(own, r, Arrive(p, env)) && !p.body.response then env.later else r.lastConnAttemptTime
  {
    hide ToUint32, InOrder;
  }

  lemma CheckKeepsStamps(r: Remote, now: Timespec, connectDue: bool)
    ensures var s := AdminCheck(r, now, connectDue);
      s.pingSentTime == r.pingSentTime && s.lastConnAttemptTime == r.lastConnAttemptTime
  {
    hide TimedOut, ManyBadIPs, TimeOffset;
  }

  lemma AdminStamp(conn: bool, own: Local, to: Id, r: Remote, e: Event)
    requires e.Admin?
    ensures Stamp(conn, Step(own, to, r, e).0) == if Sends(conn, r, e) then e.later else Stamp(conn, r)
    ensures Sends(conn, r, e) ==> Nanos(e.later) - Nanos(Stamp(conn, r)) > Gap(conn)
  {
    var s := AdminCheck(r, e.now, e.connectDue);
    CheckKeepsStamps(r, e.now, e.connectDue);
    assert TimeOffset(Stamp(conn, r), e.later) * MS - (Nanos(e.later) - Nanos(Stamp(conn, r))) < MS;
    hide AdminCheck, ToUint32, TimeOffset, LocalOffset;
    var s1 := PingAction(own, s, to, e.later, e.pingID).0;
    var s2 := ConnDataAction(own, s1, to, e.later).0;
    TrustKeepsFlags(own, s2, to, e.others);
    hide SendAllTrust;
  }

  lemma {:induction false} StampStays(conn: bool, own: Local, to: Id, r: Remote, es: seq<Event>, i: nat)
    requires ClockRuns(es) && i < |es| && Stamps(conn, own, Run(own, to, r, es[..i]), es[i])
    ensures Nanos(Stamp(conn, Run(own, to, r, es))) >= Nanos(TimeOf(es[i]))
  {
    hide Step, Stamps, Stamp;
    var init := es[..|es| - 1];
    assert forall j :: 0 <= j <= |init| ==> init[..j] == es[..j];
    StampStep(conn, own, to, Run(own, to, r, init), es[|es| - 1]);
    if i < |init| {
      StampStays(conn, own, to, r, init, i);
      if Stamps(conn, own, Run(own, to, r, init), es[|es| - 1]) {
        StampsNow(conn, own, Run(own, to, r, init), es[|es| - 1]);
        StampsNow(conn, own, Run(own, to, r, es[..i]), es[i]);
      }
    } else {
      assert init == es[..i];
    }
  }

  lemma StampsNow(conn: bool, own: Local, r: Remote, e: Event)
    requires Stamps(conn, own, r, e)
    ensures !e.Outbound?
  {
  }

  /** Pings that the admin loop sends to one remote are more than MIN_PING_TIME apart, and a
      connection request leaves more than CONNECT_WAIT_TIME after any earlier connection data. */
  lemma SendsApart(conn: bool, own: Local, to: Id, r: Remote, es: seq<Event>, i: nat, j: nat)
    requires ClockRuns(es) && i < j < |es|
    requires Stamps(conn, own, Run(own, to, r, es[..i]), es[i]) && Sends(conn, Run(own, to, r, es[..j]), es[j])
    ensures !es[i].Outbound? && Nanos(TimeOf(es[j])) - Nanos(TimeOf(es[i])) > Gap(conn)
  {
    var mid := es[..j];
    assert mid[..i] == es[..i];
    StampsNow(conn, own, Run(own, to, r, es[..i]), es[i]);
    StampStays(conn, own, to, r, mid, i);
    StampStep(conn, own, to, Run(own, to, r, mid), es[j]);
  }
}
