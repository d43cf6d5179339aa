/** How long a connection lasts, told by the events of a record's run: until a visit of the admin loop
    more than 180 s after the last connection data was accepted. */
module Sessions {
  import opened ProtocolSpec
  import opened RemoteRuns
  import opened Timing

  lemma DataStep(own: Local, to: Id, r: Remote, e: Event)
    ensures Step(own, to, r, e).0.lastDataUpdate == if TakesConnData(own, r, e) then e.env.now else r.lastDataUpdate
  {
    hide ToUint32, CheckPacket, ProcessPing, ProcessConnData, NextAction, AdminCheck;
    match e
    case Admin(now, later, connectDue, pingID, others) =>
      CheckKeepsData(r, now, connectDue);
      ActionKeepsFlags(own, AdminCheck(r, now, connectDue), to, later, pingID, others);
    case Arrive(p, env) =>
      if p.body.Ping? {
        PingSummary(own, r, p, env);
      } else if p.body.ConnData? {
        ConnDataSummary(own, r, p, env);
      }
    case Outbound(_) =>
  }

  lemma CheckKeepsData(r: Remote, now: Timespec, connectDue: bool)
    ensures AdminCheck(r, now, connectDue).lastDataUpdate == r.lastDataUpdate
  {
    hide TimedOut, ManyBadIPs, TimeOffset;
  }

  /** Connection data is accepted at i, and none after it up to j. */
  ghost predicate LastData(own: Local, to: Id, r: Remote, es: seq<Event>, i: int, j: int) {
    && 0 <= i < j <= |es| && TakesConnData(own, Run(own, to, r, es[..i]), es[i])
    && forall k :: i < k < j ==> !TakesConnData(own, Run(own, to, r, es[..k]), es[k])
  }

  lemma {:induction false} DataOfRun(own: Local, to: Id, r: Remote, es: seq<Event>, i: int, j: int)
    requires LastData(own, to, r, es, i, j)
    ensures Run(own, to, r, es[..j]).lastDataUpdate == es[i].env.now
    decreases j
  {
    assert es[i].Arrive? && (TakesConnData(own, Run(own, to, r, es[..j - 1]), es[j - 1]) ==> i == j - 1);
    hide Step, TakesConnData;
    assert es[..j][..j - 1] == es[..j - 1];
    DataStep(own, to, Run(own, to, r, es[..j - 1]), es[j - 1]);
    if i < j - 1 {
      DataOfRun(own, to, r, es, i, j - 1);
    }
  }

  lemma {:induction false} FindLast(own: Local, to: Id, r: Remote, es: seq<Event>, i: int, j: int) returns (k: int)
    requires 0 <= i < j <= |es| && TakesConnData(own, Run(own, to, r, es[..i]), es[i])
    ensures i <= k && LastData(own, to, r, es, k, j)
    decreases j
  {
    hide Run, TakesConnData;
    if TakesConnData(own, Run(own, to, r, es[..j - 1]), es[j - 1]) {
      k := j - 1;
    } else {
      k := FindLast(own, to, r, es, i, j - 1);
    }
  }

  /** The j-th event is a visit that ends the connection. */
  ghost predicate Disconnects(own: Local, to: Id, r: Remote, es: seq<Event>, j: int) {
    && 0 <= j < |es| && es[j].Admin?
    && Run(own, to, r, es[..j]).connected && !Run(own, to, r, es[..j + 1]).connected
  }

  lemma VisitConnected(own: Local, to: Id, r: Remote, e: Event)
    requires e.Admin?
    ensures Step(own, to, r, e).0.connected
            <==> r.connected && TimeOffset(r.lastDataUpdate, e.now) <= 180_000
  {
    hide NextAction, ManyBadIPs, TimeOffset;
    ActionKeepsFlags(own, AdminCheck(r, e.now, e.connectDue), to, e.later, e.pingID, e.others);
  }

  /** A visit ends a connection exactly when the last connection data was accepted more than 180 s
      before, to the millisecond. */
  lemma VisitEndsIff(own: Local, to: Id, r: Remote, es: seq<Event>, i: int, j: int)
    requires LastData(own, to, r, es, i, j) && j < |es| && es[j].Admin?
    requires Run(own, to, r, es[..j]).connected
    ensures Disconnects(own, to, r, es, j) <==> TimeOffset(es[i].env.now, es[j].now) > 180_000
  {
    hide TimeOffset, Step, TakesConnData;
    DataOfRun(own, to, r, es, i, j);
    assert es[..j + 1][..j] == es[..j];
    VisitConnected(own, to, Run(own, to, r, es[..j]), es[j]);
  }

  /** The events that read the clock read it forwards. */
  ghost predicate ClockRuns(es: seq<Event>) {
    forall i, j :: 0 <= i <= j < |es| && !es[i].Outbound? && !es[j].Outbound? ==>
      Nanos(Reading(es[i])) <= Nanos(Reading(es[j]))
  }

  function Reading(e: Event): Timespec
    requires !e.Outbound?
  {
    if e.Admin? then e.now else e.env.now
  }

  /** No visit ends a connection within 180 s of any connection data accepted. */
  lemma DataHoldsConnection(own: Local, to: Id, r: Remote, es: seq<Event>, i: int, j: int)
    requires ClockRuns(es) && 0 <= i < j < |es|
    requires TakesConnData(own, Run(own, to, r, es[..i]), es[i]) && Disconnects(own, to, r, es, j)
    ensures Nanos(es[j].now) - Nanos(es[i].env.now) > 180 * SECOND
  {
    var k := FindLast(own, to, r, es, i, j);
    VisitEndsIff(own, to, r, es, k, j);
    hide TimeOffset, Run, TakesConnData;
    assert Nanos(Reading(es[i])) <= Nanos(Reading(es[k]));
  }

  /** A visit later than that, to a millisecond, ends it. */
  lemma OverdueEnds(own: Local, to: Id, r0: Remote, es: seq<Event>, j: int)
    requires !r0.connected && !r0.connDataAvailable && !r0.timeBaseAvailable
    requires 0 <= j < |es| && es[j].Admin? && Run(own, to, r0, es[..j]).connected
    requires forall i :: 0 <= i < j && TakesConnData(own, Run(own, to, r0, es[..i]), es[i]) ==>
      Nanos(es[j].now) - Nanos(es[i].env.now) > 180 * SECOND + MS
    ensures Disconnects(own, to, r0, es, j)
  {
    var before := es[..j];
    ConnectedIff(own, to, r0, before);
    var i :| AcceptedAt(false, own, to, r0, before, i);
    assert before[..i] == es[..i];
    var k := FindLast(own, to, r0, es, i, j);
    VisitEndsIff(own, to, r0, es, k, j);
  }
}
