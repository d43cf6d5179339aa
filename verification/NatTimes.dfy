/** When NAT flows expire, told by the packets of a run: a flow lives as long as no cleaning pass
    comes more than 20 s after the last packet of the flow, in either direction. */
module NatTimes {
  import opened NatRuns
  import opened NatSpec
  import opened Options
  import opened Timing

  function TimeOf(e: Event): Timespec {
    e.now
  }

  /** The event is a packet of the flow: one its internal endpoint sends, or one from outside that
      the table translates to it. */
  predicate Uses(t: Table, e: Event, id: FlowId) {
    match e
    case Out(p, _, _) => IdOf(p) == id
    case In(p, _) =>
      var fs := FlowsAt(t, id.key);
      var i := FindExternal(fs, p.proto, p.daddr, p.dport);
      BucketKey(p.saddr, p.sport) == id.key && i < |fs| && Internal(fs[i], id.proto, id.ip, id.port)
    case Clean(_) => false
  }

  /** The j-th event of a run from the empty table is the last packet of the flow. */
  ghost predicate LastUse(es: seq<Event>, id: FlowId, j: int) {
    && 0 <= j < |es| && Uses(ApplyAll([], es[..j]), es[j], id)
    && forall k :: j < k < |es| ==> !Uses(ApplyAll([], es[..k]), es[k], id)
  }

  /** No cleaning pass since has come more than 20 s after it. */
  ghost predicate KeptSince(es: seq<Event>, j: int)
    requires 0 <= j < |es|
  {
    forall k :: j < k < |es| && es[k].Clean? ==> TimeOffset(TimeOf(es[j]), es[k].now) <= 20_000
  }

  lemma FlowInAbsent(fs: seq<Flow>, id: FlowId)
    requires FlowIn(fs, id).None?
    ensures forall f :: f in fs ==> !Internal(f, id.proto, id.ip, id.port)
  {
  }

  lemma FreshNone(fs: seq<Flow>, now: Timespec, id: FlowId)
    requires FlowIn(fs, id).None?
    ensures FlowIn(Fresh(fs, now), id).None?
  {
    FlowInAbsent(fs, id);
    FreshMembers(fs, now);
    FlowInNone(Fresh(fs, now), id);
  }

  /** Marking one flow as used marks that flow and no other. */
  lemma TouchIn(fs: seq<Flow>, i: nat, now: Timespec, id: FlowId)
    requires i < |fs| && UniqueFlows(fs)
    ensures FlowIn(Touch(fs, i, now), id).Some? <==> FlowIn(fs, id).Some?
    ensures FlowIn(fs, id).Some? ==>
      FlowIn(Touch(fs, i, now), id).value.lastUsed
      == if Internal(fs[i], id.proto, id.ip, id.port) then now else FlowIn(fs, id).value.lastUsed
  {
    TouchFinds(fs, i, now, id);
    var m := FindInternal(fs, id.proto, id.ip, id.port);
    assert m < i ==> !(Internal(fs[i], id.proto, id.ip, id.port));
  }

  /** The packet's own flow is there afterwards; the others are as before. */
  lemma WithFlowIn(fs: seq<Flow>, p: Packet, now: Timespec, gateIP: Ip, id: FlowId)
    requires UniqueFlows(fs)
    ensures var r, mine := WithFlow(fs, p, now, gateIP), p.proto == id.proto && p.saddr == id.ip && p.sport == id.port;
      var i := FindInternal(r, p.proto, p.saddr, p.sport);
      && UniqueFlows(r) && (Internal(r[i], id.proto, id.ip, id.port) <==> mine)
      && (mine ==> FlowIn(r, id).Some?) && (!mine ==> FlowIn(r, id) == FlowIn(fs, id))
  {
    var f := Flow(p.proto, p.saddr, p.sport, gateIP, p.sport, now);
    FlowInCons(f, fs, id);
  }

  lemma OutUse(t: Table, p: Packet, now: Timespec, gateIP: Ip, id: FlowId)
    requires WellFormed(t)
    ensures var f, f' := FlowOf(t, id), FlowOf(Outbound(t, p, now, gateIP).0, id);
      && (f'.Some? <==> IdOf(p) == id || f.Some?)
      && (f'.Some? ==> f'.value.lastUsed == if IdOf(p) == id then now else f.value.lastUsed)
  {
    OutboundFlows(t, p, now, gateIP, id.key);
    var own := BucketKey(p.daddr, p.dport);
    FlowsUnique(t, own);
    WithFlowIn(FlowsAt(t, own), p, now, gateIP, id);
    var fs := WithFlow(FlowsAt(t, own), p, now, gateIP);
    TouchIn(fs, FindInternal(fs, p.proto, p.saddr, p.sport), now, id);
    hide FlowsAt, Outbound, Touch, UniqueFlows, FlowIn, FindInternal, WithFlow, Internal, WellFormed, BucketKey;
  }

  lemma FlowsUnique(t: Table, key: Key)
    requires WellFormed(t)
    ensures UniqueFlows(FlowsAt(t, key))
  {
    var b := FindBucket(t, key);
    if b < |t| {
      assert t[b] in t;
    }
  }

  lemma InUse(t: Table, p: Packet, now: Timespec, id: FlowId)
    requires WellFormed(t)
    ensures var e := In(p, now); var f, f' := FlowOf(t, id), FlowOf(Apply(t, e), id);
      && (f'.Some? <==> f.Some?) && (Uses(t, e, id) ==> f.Some?)
      && (f.Some? ==> f'.value.lastUsed == if Uses(t, e, id) then now else f.value.lastUsed)
  {
    var fs := FlowsAt(t, id.key);
    var i := FindExternal(fs, p.proto, p.daddr, p.dport);
    InboundAnswer(t, p, now);
    FlowsUnique(t, id.key);
    if Inbound(t, p, now).Ok? {
      InboundFlows(t, p, now, id.key);
      if BucketKey(p.saddr, p.sport) == id.key {
        TouchIn(fs, i, now, id);
        if Uses(t, In(p, now), id) && FlowOf(t, id).None? {
          FlowInAbsent(fs, id);
        }
      }
    }
    hide FlowsAt, Inbound, Touch;
  }

  lemma CleanUse(t: Table, now: Timespec, id: FlowId)
    requires WellFormed(t)
    ensures var f, f' := FlowOf(t, id), FlowOf(Cleaned(t, now), id);
      && (f'.Some? <==> f.Some? && TimeOffset(f.value.lastUsed, now) <= 20_000)
      && (f'.Some? ==> f'.value.lastUsed == f.value.lastUsed)
  {
    CleanedFlows(t, now, id.key);
    FlowsUnique(t, id.key);
    var fs := FlowsAt(t, id.key);
    if FlowIn(fs, id).Some? {
      FreshFinds(fs, now, id);
    } else {
      FreshNone(fs, now, id);
    }
  }

  /** What one event does to one flow: only its packets make it and mark it used, only a cleaning
      pass more than 20 s after the last of them ends it. */
  lemma UseStep(t: Table, e: Event, id: FlowId)
    requires WellFormed(t)
    ensures var f, f' := FlowOf(t, id), FlowOf(Apply(t, e), id);
      && (f'.Some? <==> Uses(t, e, id) || (f.Some? && !(e.Clean? && TimeOffset(f.value.lastUsed, e.now) > 20_000)))
      && (f'.Some? ==> f'.value.lastUsed == if Uses(t, e, id) then TimeOf(e) else f.value.lastUsed)
  {
    hide FlowOf, TimeOffset, Outbound, Cleaned;
    match e
    case Out(p, now, gateIP) => OutUse(t, p, now, gateIP, id);
    case In(p, now) => InUse(t, p, now, id);
    case Clean(now) => CleanUse(t, now, id);
  }

  lemma LastUseSnoc(es: seq<Event>, id: FlowId, j: int)
    requires es != []
    ensures var n := |es| - 1; var now := Uses(ApplyAll([], es[..n]), es[n], id);
      LastUse(es, id, j) <==> if now then j == n else LastUse(es[..n], id, j)
  {
    hide Uses, ApplyAll;
    var n := |es| - 1;
    var init := es[..n];
    assert forall k :: 0 <= k <= n ==> init[..k] == es[..k];
  }

  lemma KeptNow(es: seq<Event>)
    requires es != []
    ensures KeptSince(es, |es| - 1)
  {
  }

  lemma KeptSnoc(es: seq<Event>, j: int)
    requires 0 <= j < |es| - 1
    ensures var n := |es| - 1;
      KeptSince(es, j)
      <==> KeptSince(es[..n], j) && (es[n].Clean? ==> TimeOffset(TimeOf(es[j]), es[n].now) <= 20_000)
  {
    hide TimeOffset;
    var n := |es| - 1;
    assert forall k :: 0 <= k < n ==> es[..n][k] == es[k];
  }

  /** In every table reachable from the empty one, a flow is there exactly when it has had a packet
      and no cleaning pass has come more than 20 s after the last one, and it carries the time of
      that packet. */
  lemma {:induction false} FlowIff(es: seq<Event>, id: FlowId)
    ensures var f := FlowOf(ApplyAll([], es), id);
      && (f.Some? <==> exists j :: LastUse(es, id, j) && KeptSince(es, j))
      && (forall j :: f.Some? && LastUse(es, id, j) ==> f.value.lastUsed == TimeOf(es[j]))
  {
    if es != [] {
      var n := |es| - 1;
      var init, last := es[..n], es[n];
      var t := ApplyAll([], init);
      FlowIff(init, id);
      RunKeeps(init);
      UseStep(t, last, id);
      hide ApplyAll, Apply, Uses, FlowOf, TimeOffset, WellFormed, LastUse, KeptSince;
      forall j
        ensures LastUse(es, id, j) <==> if Uses(t, last, id) then j == n else LastUse(init, id, j)
        ensures LastUse(init, id, j) ==> 0 <= j < n
      {
        LastUseSnoc(es, id, j);
        LastUseWithin(init, id, j);
      }
      var f := FlowOf(ApplyAll([], es), id);
      if Uses(t, last, id) {
        KeptNow(es);
        assert LastUse(es, id, n) && KeptSince(es, n);
      } else if f.Some? {
        var j :| LastUse(init, id, j) && KeptSince(init, j);
        KeptSnoc(es, j);
        assert LastUse(es, id, j) && KeptSince(es, j);
      } else if j :| LastUse(es, id, j) && KeptSince(es, j) {
        KeptSnoc(es, j);
        assert LastUse(init, id, j) && KeptSince(init, j);
      }
    }
  }

  lemma LastUseWithin(es: seq<Event>, id: FlowId, j: int)
    ensures LastUse(es, id, j) ==> 0 <= j < |es|
  {
  }

  /** So a cleaning pass takes away exactly the flows whose last packet is more than 20 s old. */
  lemma CleanRemovesIff(es: seq<Event>, id: FlowId, j: int, now: Timespec)
    requires LastUse(es, id, j) && FlowOf(ApplyAll([], es), id).Some?
    ensures FlowOf(ApplyAll([], es + [Clean(now)]), id).None? <==> TimeOffset(TimeOf(es[j]), now) > 20_000
  {
    var all := es + [Clean(now)];
    assert all[..|es|] == es;
    FlowIff(es, id);
    RunKeeps(es);
    UseStep(ApplyAll([], es), Clean(now), id);
    hide FlowOf, Uses, LastUse, TimeOffset, WellFormed;
  }
}
