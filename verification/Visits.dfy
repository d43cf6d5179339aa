/** What a visit of the admin loop achieves, stated at once for every record: whether the connection
    stands, which packets leave and in which order, and what stays asked for. */
module Visits {
  import opened Arrivals
  import opened Octets
  import opened ProtocolSpec
  import opened RemoteRuns
  import opened Timing

  /** Connection data was accepted in the last 180 s. */
  predicate Stands(r: Remote, now: Timespec) {
    r.connected && TimeOffset(r.lastDataUpdate, now) <= 180_000
  }

  /** Fewer than 20 good addresses per bad one, or in all when none was bad; or so many that the
      count no longer fits an int. */
  predicate FewGood(r: Remote) {
    || r.goodIPCount < 20 * (if r.badIPCount == 0 then 1 else r.badIPCount)
    || (r.goodIPCount >= TWO_31 && r.badIPCount <= 1)
  }

  /** The clock of a connected remote is to be measured anew: its addresses fail, or the last ping is
      older than 30 s. */
  predicate Renews(r: Remote, now: Timespec) {
    Stands(r, now) && (FewGood(r) || TimeOffset(r.pingSentTime, now) > 30_000)
  }

  predicate Pings(r: Remote, now: Timespec, later: Timespec) {
    (r.sendPing || Renews(r, now)) && TimeOffset(r.pingSentTime, later) > 5_000
  }

  predicate Connects(r: Remote, later: Timespec, connectDue: bool) {
    (r.sendConnData || connectDue) && TimeOffset(r.lastConnAttemptTime, later) > 60_000
  }

  predicate Trusts(r: Remote, now: Timespec) {
    r.sendTrust && Stands(r, now)
  }

  function TrustIn(others: seq<(Id, Id)>): (bodies: seq<Body>)
    ensures |bodies| == |others| && forall i :: 0 <= i < |others| ==> bodies[i] == Trust(others[i].0, others[i].1)
  {
    seq(|others|, i requires 0 <= i < |others| => Trust(others[i].0, others[i].1))
  }

  /** Consecutive packets of one gate to another: numbers from the counter on, our seal, and the lock
      that goes with what they carry. */
  predicate Consecutive(own: Local, r: Remote, to: Id, ps: seq<Packet>) {
    forall i :: 0 <= i < |ps| ==>
      ps[i] == Packet(own.id, to, ToUint32(r.outSeqNum + i), ps[i].body, ByRsa(own.id),
                      if ps[i].body.Trust? then ForKeys(r.keys.symKey, r.keys.iv) else ForRsa(r.rsa))
  }

  lemma ManyBadIff(r: Remote)
    ensures ManyBadIPs(r) <==> FewGood(r)
  {
    if r.badIPCount >= 1 {
      DividedBelow(r.goodIPCount, r.badIPCount);
      if r.badIPCount == 1 {
        assert r.goodIPCount / 1 == r.goodIPCount;
      } else {
        HalfFits(r.goodIPCount, r.badIPCount);
      }
    }
  }

  lemma DividedBelow(good: nat, bad: nat)
    requires bad > 0
    ensures good / bad < 20 <==> good < 20 * bad
  {
    var q := good / bad;
    assert good == q * bad + good % bad;
    assert q >= 20 ==> q * bad >= 20 * bad;
    assert q <= 19 ==> q * bad <= 19 * bad;
  }

  lemma HalfFits(good: Uint32, bad: nat)
    requires bad >= 2
    ensures ToInt32(good / bad) == good / bad
  {
    var q := good / bad;
    assert good == q * bad + good % bad;
    assert q * bad >= q * 2;
    hide ToInt32;
    FitsInt(q);
  }

  lemma FitsInt(x: nat)
    requires x < TWO_31
    ensures ToInt32(x) == x
  {
  }

  /** The part before the protocol action. */
  lemma CheckLeaves(r: Remote, now: Timespec, connectDue: bool)
    ensures var s := AdminCheck(r, now, connectDue);
      && s.connected == Stands(r, now)
      && s.sendPing == (r.sendPing || Renews(r, now)) && s.sendConnData == (r.sendConnData || connectDue)
      && s.goodIPCount == (if Renews(r, now) then 0 else r.goodIPCount)
      && s.badIPCount == (if Renews(r, now) then 0 else r.badIPCount)
      && s.sendTrust == r.sendTrust && s.outSeqNum == r.outSeqNum && s.keys == r.keys && s.rsa == r.rsa
      && s.pingSentTime == r.pingSentTime && s.lastConnAttemptTime == r.lastConnAttemptTime
      && s.sentPingID == r.sentPingID
  {
    var r1 := if TimedOut(r, now) then EndConnection(r) else r;
    var r2 := if connectDue then ProtocolSpec.StartConnection(r1) else r1;
    ManyBadIff(r);
    SameCounts(r, r2);
    hide TimeOffset, ManyBadIPs, FewGood;
  }

  lemma SameCounts(r: Remote, s: Remote)
    requires s.goodIPCount == r.goodIPCount && s.badIPCount == r.badIPCount
    ensures ManyBadIPs(s) <==> ManyBadIPs(r)
  {
  }

  lemma NextNumber(from: Uint32, n: nat)
    ensures ToUint32(ToUint32(from + n) + 1) == ToUint32(from + n + 1)
    ensures ToUint32(from) == from
  {
  }

  lemma NumbersAdd(from: Uint32, m: nat, n: nat)
    ensures ToUint32(ToUint32(from + m) + n) == ToUint32(from + m + n)
  {
  }

  lemma Joined(own: Local, r: Remote, s: Remote, to: Id, ps: seq<Packet>, qs: seq<Packet>)
    requires Consecutive(own, r, to, ps) && Consecutive(own, s, to, qs)
    requires s.keys == r.keys && s.rsa == r.rsa && (qs != [] ==> s.outSeqNum == ToUint32(r.outSeqNum + |ps|))
    ensures Consecutive(own, r, to, ps + qs) && Bodies(ps + qs) == Bodies(ps) + Bodies(qs)
  {
    hide ToUint32;
    forall i | 0 <= i < |qs|
      ensures qs[i].seqNum == ToUint32(r.outSeqNum + |ps| + i)
    {
      NumbersAdd(r.outSeqNum, |ps|, i);
    }
  }

  lemma {:induction false} TrustMoves(own: Local, r: Remote, to: Id, others: seq<(Id, Id)>)
    ensures var (s, ps) := SendAllTrust(own, r, to, others);
      && s == r.(outSeqNum := if others == [] then r.outSeqNum else ToUint32(r.outSeqNum + |others|))
      && |ps| == |others|
  {
    if others != [] {
      TrustMoves(own, r, to, others[..|others| - 1]);
      NextNumber(r.outSeqNum, |others| - 1);
      hide ToUint32;
    }
  }

  lemma {:induction false} AllTrust(own: Local, r: Remote, to: Id, others: seq<(Id, Id)>)
    ensures var ps := SendAllTrust(own, r, to, others).1;
      Bodies(ps) == TrustIn(others) && Consecutive(own, r, to, ps)
  {
    if others != [] {
      var n := |others| - 1;
      var (s, ps) := SendAllTrust(own, r, to, others[..n]);
      var p := Send(own, s, to, Trust(others[n].0, others[n].1)).1;
      TrustMoves(own, r, to, others[..n]);
      OneTrust(own, s, to, others[n]);
      NextNumber(r.outSeqNum, 0);
      assert SendAllTrust(own, r, to, others).1 == ps + [p];
      AllTrust(own, r, to, others[..n]);
      assert TrustIn(others) == TrustIn(others[..n]) + [p.body];
      hide ToUint32, Consecutive, TrustIn, Bodies, SendAllTrust;
      Joined(own, r, s, to, ps, [p]);
    }
  }

  lemma OneTrust(own: Local, s: Remote, to: Id, other: (Id, Id))
    ensures var p := Send(own, s, to, Trust(other.0, other.1)).1;
      p.body == Trust(other.0, other.1) && Consecutive(own, s, to, [p]) && Bodies([p]) == [p.body]
  {
    NextNumber(s.outSeqNum, 0);
  }

  lemma PingActs(own: Local, r: Remote, to: Id, now: Timespec, pingID: Uint32)
    ensures var (s, ps) := PingAction(own, r, to, now, pingID);
      var due := r.sendPing && TimeOffset(r.pingSentTime, now) > 5_000;
      && Bodies(ps) == (if due then [Ping(pingID, 0, ToUint32(TimeOffset(own.base, now)))] else [])
      && Consecutive(own, r, to, ps)
      && s == if due then r.(outSeqNum := ToUint32(r.outSeqNum + 1), sendPing := false, pingSentTime := now,
                             sentPingID := pingID)
              else r
  {
    hide TimeOffset;
    NextNumber(r.outSeqNum, 0);
  }

  lemma ConnectActs(own: Local, r: Remote, to: Id, now: Timespec)
    ensures var (s, ps) := ConnDataAction(own, r, to, now);
      var due := r.sendConnData && TimeOffset(r.lastConnAttemptTime, now) > 60_000;
      && Bodies(ps) == (if due then [ConnData(false, own.keys)] else [])
      && Consecutive(own, r, to, ps)
      && s == if due then r.(outSeqNum := ToUint32(r.outSeqNum + 1), sendConnData := false,
                             lastConnAttemptTime := now)
              else r
  {
    hide TimeOffset;
    NextNumber(r.outSeqNum, 0);
  }

  lemma TrustActs(own: Local, r: Remote, to: Id, others: seq<(Id, Id)>)
    ensures var (s, ps) := TrustAction(own, r, to, others); var due := r.sendTrust && r.connected;
      && Bodies(ps) == (if due then TrustIn(others) else [])
      && Consecutive(own, r, to, ps)
      && s.(outSeqNum := r.outSeqNum) == r.(sendTrust := r.sendTrust && !r.connected)
  {
    TrustMoves(own, r, to, others);
    AllTrust(own, r, to, others);
    hide SendAllTrust;
  }

  /** Exactly these packets leave, in this order: a ping with the number drawn, a request with our
      keys, and one trust packet per other gate. */
  lemma VisitSends(own: Local, r: Remote, to: Id, now: Timespec, later: Timespec, connectDue: bool, pingID: Uint32,
                   others: seq<(Id, Id)>)
    ensures var ps := Visit(own, r, to, now, later, connectDue, pingID, others).1;
      && Consecutive(own, r, to, ps)
      && Bodies(ps) == (if Pings(r, now, later) then [Ping(pingID, 0, ToUint32(TimeOffset(own.base, later)))] else [])
                       + (if Connects(r, later, connectDue) then [ConnData(false, own.keys)] else [])
                       + (if Trusts(r, now) then TrustIn(others) else [])
  {
    hide TimeOffset, AdminCheck, Renews, Stands, PingAction, ConnDataAction, TrustAction, Consecutive, Bodies;
    var r0 := AdminCheck(r, now, connectDue);
    CheckLeaves(r, now, connectDue);
    PingActs(own, r0, to, later, pingID);
    var (r1, pings) := PingAction(own, r0, to, later, pingID);
    ConnectActs(own, r1, to, later);
    var (r2, conns) := ConnDataAction(own, r1, to, later);
    TrustActs(own, r2, to, others);
    var trusts := TrustAction(own, r2, to, others).1;
    SameStart(own, r0, r, to, pings);
    hide ToUint32;
    NextNumber(r.outSeqNum, 0);
    NextNumber(r.outSeqNum, 1);
    Joined(own, r, r1, to, pings, conns);
    Joined(own, r, r2, to, pings + conns, trusts);
  }

  lemma SameStart(own: Local, r: Remote, s: Remote, to: Id, ps: seq<Packet>)
    requires Consecutive(own, r, to, ps) && s.outSeqNum == r.outSeqNum && s.keys == r.keys && s.rsa == r.rsa
    ensures Consecutive(own, s, to, ps)
  {
  }

  /** And this is what the record says afterwards. */
  lemma VisitLeaves(own: Local, r: Remote, to: Id, now: Timespec, later: Timespec, connectDue: bool, pingID: Uint32,
                    others: seq<(Id, Id)>)
    ensures var r' := Visit(own, r, to, now, later, connectDue, pingID, others).0;
      var pings, connects := Pings(r, now, later), Connects(r, later, connectDue);
      && r'.connected == Stands(r, now)
      && r'.sendPing == ((r.sendPing || Renews(r, now)) && !pings)
      && r'.sendConnData == ((r.sendConnData || connectDue) && !connects)
      && r'.sendTrust == (r.sendTrust && !Stands(r, now))
      && r'.pingSentTime == (if pings then later else r.pingSentTime)
      && r'.sentPingID == (if pings then pingID else r.sentPingID)
      && r'.lastConnAttemptTime == (if connects then later else r.lastConnAttemptTime)
      && r'.goodIPCount == (if Renews(r, now) then 0 else r.goodIPCount)
      && r'.badIPCount == (if Renews(r, now) then 0 else r.badIPCount)
  {
    hide TimeOffset, AdminCheck, Renews, Stands, PingAction, ConnDataAction, TrustAction, Consecutive, Bodies;
    var r0 := AdminCheck(r, now, connectDue);
    CheckLeaves(r, now, connectDue);
    PingActs(own, r0, to, later, pingID);
    var r1 := PingAction(own, r0, to, later, pingID).0;
    ConnectActs(own, r1, to, later);
    TrustActs(own, ConnDataAction(own, r1, to, later).0, to, others);
  }

  /** A remote that is connected after a visit was pinged in it, or at most 30 s before. */
  lemma PingsStayRecent(own: Local, r: Remote, to: Id, now: Timespec, later: Timespec, connectDue: bool,
                        pingID: Uint32, others: seq<(Id, Id)>)
    requires Normalised(now) && Normalised(later) && Nanos(now) <= Nanos(later)
    ensures var r' := Visit(own, r, to, now, later, connectDue, pingID, others).0;
      r'.connected ==> r'.pingSentTime == later || TimeOffset(r'.pingSentTime, now) <= 30_000
  {
    hide Visit, FewGood;
    VisitLeaves(own, r, to, now, later, connectDue, pingID, others);
    OffsetMonotone(r.pingSentTime, now, later);
    hide TimeOffset;
  }
}
