/** What holds over every run of the NAT table. */
module NatRuns {
  import opened NatSpec
  import opened Options
  import opened Timing

  /** The flows an external endpoint's key has. */
  function FlowsAt(t: Table, key: Key): seq<Flow> {
    var b := FindBucket(t, key);
    if b < |t| then t[b].flows else []
  }

  ghost predicate GoodFlows(fs: seq<Flow>) {
    UniqueFlows(fs) && forall f :: f in fs ==> f.gatePort == f.intPort
  }

  lemma FindBucketUnique(t: Table, i: nat)
    requires UniqueKeys(t) && i < |t|
    ensures FindBucket(t, t[i].key) == i
  {
  }

  lemma TouchKeeps(fs: seq<Flow>, i: nat, now: Timespec)
    requires GoodFlows(fs) && i < |fs|
    ensures GoodFlows(Touch(fs, i, now))
  {
    var r := Touch(fs, i, now);
    forall f | f in r
      ensures f.gatePort == f.intPort
    {
      assert fs[i] in fs;
    }
  }

  lemma WithFlowKeeps(fs: seq<Flow>, p: Packet, now: Timespec, gateIP: Ip)
    requires GoodFlows(fs)
    ensures GoodFlows(WithFlow(fs, p, now, gateIP))
  {
  }

  lemma UpdateKeeps(t: Table, b: nat, fs: seq<Flow>)
    requires WellFormed(t) && b < |t| && fs != [] && GoodFlows(fs)
    ensures WellFormed(t[b := t[b].(flows := fs)])
  {
    var r := t[b := t[b].(flows := fs)];
    forall x | x in r
      ensures x.flows != [] && GoodFlows(x.flows)
    {
      assert x == r[b] || x in t;
    }
  }

  lemma OutboundKeeps(t: Table, p: Packet, now: Timespec, gateIP: Ip)
    requires WellFormed(t)
    ensures WellFormed(Outbound(t, p, now, gateIP).0)
  {
    var key := BucketKey(p.daddr, p.dport);
    var b := FindBucket(t, key);
    var fs := WithFlow(FlowsAt(t, key), p, now, gateIP);
    assert b < |t| ==> t[b] in t;
    WithFlowKeeps(FlowsAt(t, key), p, now, gateIP);
    var i := FindInternal(fs, p.proto, p.saddr, p.sport);
    TouchKeeps(fs, i, now);
    if b < |t| {
      UpdateKeeps(t, b, Touch(fs, i, now));
    } else {
      var r := Outbound(t, p, now, gateIP).0;
      assert r == t + [Bucket(key, Touch(fs, i, now))];
      assert forall x :: x in r ==> x in t || x == Bucket(key, Touch(fs, i, now));
    }
  }

  lemma InboundKeeps(t: Table, p: Packet, now: Timespec)
    requires WellFormed(t) && Inbound(t, p, now).Ok?
    ensures WellFormed(Inbound(t, p, now).value.0)
  {
    var b := FindBucket(t, BucketKey(p.saddr, p.sport));
    var i := FindExternal(t[b].flows, p.proto, p.daddr, p.dport);
    assert t[b] in t;
    TouchKeeps(t[b].flows, i, now);
    UpdateKeeps(t, b, Touch(t[b].flows, i, now));
  }

  lemma {:induction false} FreshMembers(fs: seq<Flow>, now: Timespec)
    ensures forall f :: f in Fresh(fs, now) <==> f in fs && !Expired(f, now)
  {
    if fs != [] {
      FreshMembers(fs[1..], now);
    }
  }

  lemma {:induction false} FreshKeeps(fs: seq<Flow>, now: Timespec)
    requires GoodFlows(fs)
    ensures GoodFlows(Fresh(fs, now))
  {
    if fs != [] {
      FreshKeeps(fs[1..], now);
      FreshMembers(fs[1..], now);
      assert fs[0] in fs;
      forall f | f in Fresh(fs[1..], now)
        ensures !Internal(f, fs[0].proto, fs[0].intIP, fs[0].intPort)
      {
        assert f in fs[1..];
      }
    }
  }

  lemma {:induction false} CleanedKeys(t: Table, now: Timespec)
    ensures forall b :: b in Cleaned(t, now) ==>
        exists a :: a in t && a.key == b.key && b.flows == Fresh(a.flows, now) && b.flows != []
  {
    if t != [] {
      CleanedKeys(t[1..], now);
      forall b | b in Cleaned(t, now)
        ensures exists a :: a in t && a.key == b.key && b.flows == Fresh(a.flows, now) && b.flows != []
      {
        if b in Cleaned(t[1..], now) {
          var a :| a in t[1..] && a.key == b.key && b.flows == Fresh(a.flows, now) && b.flows != [];
          assert a in t;
        } else {
          assert t[0] in t;
        }
      }
    }
  }

  lemma CleanedRest(t: Table, now: Timespec)
    requires UniqueKeys(t) && t != []
    ensures UniqueKeys(t[1..]) && forall b :: b in Cleaned(t[1..], now) ==> b.key != t[0].key
  {
    CleanedKeys(t[1..], now);
    forall b | b in Cleaned(t[1..], now)
      ensures b.key != t[0].key
    {
      var a :| a in t[1..] && a.key == b.key;
    }
  }

  lemma {:induction false} CleanedUnique(t: Table, now: Timespec)
    requires UniqueKeys(t)
    ensures UniqueKeys(Cleaned(t, now))
  {
    if t != [] {
      CleanedUnique(t[1..], now);
      CleanedRest(t, now);
    }
  }

  lemma FlowsAtCons(b: Bucket, t: Table, key: Key)
    ensures FlowsAt([b] + t, key) == if b.key == key then b.flows else FlowsAt(t, key)
  {
    assert ([b] + t)[1..] == t;
  }

  lemma FlowsAtAbsent(t: Table, key: Key)
    requires forall b :: b in t ==> b.key != key
    ensures FlowsAt(t, key) == []
  {
  }

  /** A cleaning pass leaves, under every key, exactly the flows that are not expired, in their
      order; buckets without any are gone. */
  lemma {:induction false} CleanedFlows(t: Table, now: Timespec, key: Key)
    requires UniqueKeys(t)
    ensures FlowsAt(Cleaned(t, now), key) == Fresh(FlowsAt(t, key), now)
  {
    hide FlowsAt;
    if t == [] {
      FlowsAtAbsent(t, key);
    } else {
      var fs := Fresh(t[0].flows, now);
      var rest := Cleaned(t[1..], now);
      assert t == [t[0]] + t[1..];
      FlowsAtCons(t[0], t[1..], key);
      FlowsAtCons(t[0].(flows := fs), rest, key);
      assert Cleaned(t, now) == if fs == [] then rest else [t[0].(flows := fs)] + rest;
      CleanedRest(t, now);
      CleanedFlows(t[1..], now, key);
      if t[0].key == key {
        FlowsAtAbsent(rest, key);
      }
    }
  }

  lemma CleanedKeeps(t: Table, now: Timespec)
    requires WellFormed(t)
    ensures WellFormed(Cleaned(t, now))
  {
    CleanedUnique(t, now);
    CleanedKeys(t, now);
    forall b | b in Cleaned(t, now)
      ensures b.flows != [] && GoodFlows(b.flows)
    {
      var a :| a in t && a.key == b.key && b.flows == Fresh(a.flows, now) && b.flows != [];
      FreshKeeps(a.flows, now);
    }
  }

  lemma ApplyKeeps(t: Table, e: Event)
    requires WellFormed(t)
    ensures WellFormed(Apply(t, e))
  {
    match e
    case Out(p, now, gateIP) => OutboundKeeps(t, p, now, gateIP);
    case In(p, now) => if Inbound(t, p, now).Ok? { InboundKeeps(t, p, now); }
    case Clean(now) => CleanedKeeps(t, now);
  }

  /** Every reachable table is well formed. */
  lemma {:induction false} RunKeeps(es: seq<Event>)
    ensures WellFormed(ApplyAll([], es))
  {
    if es != [] {
      RunKeeps(es[..|es| - 1]);
      ApplyKeeps(ApplyAll([], es[..|es| - 1]), es[|es| - 1]);
    }
  }

  /** An internal endpoint talking some protocol through one key. */
  datatype FlowId = FlowId(key: Key, proto: nat, ip: Ip, port: Port)

  function FlowIn(fs: seq<Flow>, id: FlowId): Option<Flow> {
    var i := FindInternal(fs, id.proto, id.ip, id.port);
    if i < |fs| then Some(fs[i]) else None
  }

  function FlowOf(t: Table, id: FlowId): Option<Flow> {
    FlowIn(FlowsAt(t, id.key), id)
  }

  predicate SameEndpoint(a: Option<Flow>, b: Option<Flow>) {
    a.Some? && b.Some? && a.value.gateIP == b.value.gateIP && a.value.gatePort == b.value.gatePort
  }

  lemma UpdateFlows(t: Table, b: nat, fs: seq<Flow>, key: Key)
    requires UniqueKeys(t) && b < |t|
    ensures FlowsAt(t[b := t[b].(flows := fs)], key) == if t[b].key == key then fs else FlowsAt(t, key)
  {
    var r := t[b := t[b].(flows := fs)];
    assert forall i :: 0 <= i < |t| ==> r[i].key == t[i].key;
    assert FindBucket(r, key) == FindBucket(t, key);
    if t[b].key == key {
      FindBucketUnique(t, b);
    }
  }

  lemma {:induction false} AddedFlows(t: Table, b: Bucket, key: Key)
    requires FindBucket(t, b.key) == |t| && b.flows == []
    ensures FlowsAt(t + [b], key) == FlowsAt(t, key)
  {
    if t == [] {
      assert t + [b] == [b];
    } else {
      assert (t + [b])[1..] == t[1..] + [b];
      AddedFlows(t[1..], b, key);
    }
  }

  /** Under its own key an outbound packet adds its flow if needed and marks it used; the flows
      under other keys stay. */
  lemma OutboundFlows(t: Table, p: Packet, now: Timespec, gateIP: Ip, key: Key)
    requires WellFormed(t)
    ensures var own := BucketKey(p.daddr, p.dport);
      var fs := WithFlow(FlowsAt(t, own), p, now, gateIP);
      var i := FindInternal(fs, p.proto, p.saddr, p.sport);
      FlowsAt(Outbound(t, p, now, gateIP).0, key) == if key == own then Touch(fs, i, now) else FlowsAt(t, key)
  {
    var own := BucketKey(p.daddr, p.dport);
    var b := FindBucket(t, own);
    var t1 := WithBucket(t, own);
    if b == |t| {
      assert UniqueKeys(t1);
      AddedFlows(t, Bucket(own, []), key);
    }
    var fs := WithFlow(t1[b].flows, p, now, gateIP);
    UpdateFlows(t1, b, Touch(fs, FindInternal(fs, p.proto, p.saddr, p.sport), now), key);
  }

  lemma InboundFlows(t: Table, p: Packet, now: Timespec, key: Key)
    requires WellFormed(t) && Inbound(t, p, now).Ok?
    ensures var own := BucketKey(p.saddr, p.sport);
      var i := FindExternal(FlowsAt(t, own), p.proto, p.daddr, p.dport);
      && i < |FlowsAt(t, own)|
      && FlowsAt(Inbound(t, p, now).value.0, key) ==
          if key == own then Touch(FlowsAt(t, own), i, now) else FlowsAt(t, key)
  {
    var own := BucketKey(p.saddr, p.sport);
    var b := FindBucket(t, own);
    var i := FindExternal(t[b].flows, p.proto, p.daddr, p.dport);
    UpdateFlows(t, b, Touch(t[b].flows, i, now), key);
  }

  lemma TouchFinds(fs: seq<Flow>, i: nat, now: Timespec, id: FlowId)
    requires i < |fs|
    ensures FindInternal(Touch(fs, i, now), id.proto, id.ip, id.port) == FindInternal(fs, id.proto, id.ip, id.port)
    ensures FlowIn(fs, id).Some? ==> SameEndpoint(FlowIn(Touch(fs, i, now), id), FlowIn(fs, id))
  {
    var r := Touch(fs, i, now);
    assert forall j :: 0 <= j < |fs| ==>
        (Internal(r[j], id.proto, id.ip, id.port) <==> Internal(fs[j], id.proto, id.ip, id.port));
  }

  lemma WithFlowFinds(fs: seq<Flow>, p: Packet, now: Timespec, gateIP: Ip, id: FlowId)
    requires FlowIn(fs, id).Some?
    ensures FlowIn(WithFlow(fs, p, now, gateIP), id) == FlowIn(fs, id)
  {
    var r := WithFlow(fs, p, now, gateIP);
    if r != fs {
      assert r[1..] == fs;
    }
  }

  lemma FlowInCons(f: Flow, s: seq<Flow>, id: FlowId)
    ensures FlowIn([f] + s, id) == if Internal(f, id.proto, id.ip, id.port) then Some(f) else FlowIn(s, id)
  {
    assert ([f] + s)[1..] == s;
  }

  lemma FlowInNone(s: seq<Flow>, id: FlowId)
    requires forall f :: f in s ==> !Internal(f, id.proto, id.ip, id.port)
    ensures FlowIn(s, id) == None
  {
  }

  lemma NoOther(fs: seq<Flow>, now: Timespec, id: FlowId)
    requires UniqueFlows(fs) && fs != [] && Internal(fs[0], id.proto, id.ip, id.port)
    ensures forall f :: f in Fresh(fs[1..], now) ==> !Internal(f, id.proto, id.ip, id.port)
  {
    FreshMembers(fs[1..], now);
    hide Fresh;
  }

  lemma {:induction false} FreshFinds(fs: seq<Flow>, now: Timespec, id: FlowId)
    requires UniqueFlows(fs) && FlowIn(fs, id).Some?
    ensures FlowIn(Fresh(fs, now), id) == if Expired(FlowIn(fs, id).value, now) then None else FlowIn(fs, id)
  {
    var rest := Fresh(fs[1..], now);
    assert Fresh(fs, now) == if Expired(fs[0], now) then rest else [fs[0]] + rest;
    assert fs == [fs[0]] + fs[1..];
    hide FlowIn, Fresh, Expired;
    FlowInCons(fs[0], fs[1..], id);
    FlowInCons(fs[0], rest, id);
    if Internal(fs[0], id.proto, id.ip, id.port) {
      NoOther(fs, now, id);
      hide UniqueFlows, Internal;
      FlowInNone(rest, id);
    } else {
      assert UniqueFlows(fs[1..]);
      hide UniqueFlows, Internal;
      FreshFinds(fs[1..], now, id);
    }
  }

  /** No event changes the gateway endpoint of a flow; only a cleaning pass removes it, and that
      exactly when it has been idle for more than NAT_CLEAN_TIME. */
  lemma StepStable(t: Table, e: Event, id: FlowId)
    requires WellFormed(t) && FlowOf(t, id).Some?
    ensures FlowOf(Apply(t, e), id).None? <==> e.Clean? && Expired(FlowOf(t, id).value, e.now)
    ensures FlowOf(Apply(t, e), id).Some? ==> SameEndpoint(FlowOf(Apply(t, e), id), FlowOf(t, id))
  {
    match e
    case Out(p, now, gateIP) =>
      var own := BucketKey(p.daddr, p.dport);
      OutboundFlows(t, p, now, gateIP, id.key);
      if id.key == own {
        var fs := WithFlow(FlowsAt(t, own), p, now, gateIP);
        WithFlowFinds(FlowsAt(t, own), p, now, gateIP, id);
        TouchFinds(fs, FindInternal(fs, p.proto, p.saddr, p.sport), now, id);
      }
    case In(p, now) =>
      if Inbound(t, p, now).Ok? {
        InboundFlows(t, p, now, id.key);
        var fs := FlowsAt(t, id.key);
        if id.key == BucketKey(p.saddr, p.sport) {
          TouchFinds(fs, FindExternal(fs, p.proto, p.daddr, p.dport), now, id);
        }
      }
    case Clean(now) =>
      CleanedFlows(t, now, id.key);
      var b := FindBucket(t, id.key);
      assert t[b] in t;
      FreshFinds(FlowsAt(t, id.key), now, id);
  }

  /** The flow is in the table after every event of the run. */
  ghost predicate Survives(t: Table, es: seq<Event>, id: FlowId) {
    forall n :: 0 <= n <= |es| ==> FlowOf(ApplyAll(t, es[..n]), id).Some?
  }

  lemma {:induction false} RunFrom(t: Table, es: seq<Event>)
    requires WellFormed(t)
    ensures WellFormed(ApplyAll(t, es))
  {
    if es != [] {
      RunFrom(t, es[..|es| - 1]);
      ApplyKeeps(ApplyAll(t, es[..|es| - 1]), es[|es| - 1]);
    }
  }

  lemma {:induction false} RunStable(t: Table, es: seq<Event>, id: FlowId)
    requires WellFormed(t) && Survives(t, es, id)
    ensures SameEndpoint(FlowOf(ApplyAll(t, es), id), FlowOf(t, id))
  {
    assert es[..0] == [] && es[..|es|] == es;
    if es != [] {
      var before := es[..|es| - 1];
      forall n | 0 <= n <= |before|
        ensures FlowOf(ApplyAll(t, before[..n]), id).Some?
      {
        assert before[..n] == es[..n];
      }
      RunStable(t, before, id);
      RunFrom(t, before);
      StepStable(ApplyAll(t, before), es[|es| - 1], id);
    }
  }

  function IdOf(p: Packet): FlowId {
    FlowId(BucketKey(p.daddr, p.dport), p.proto, p.saddr, p.sport)
  }

  lemma OutboundEndpoint(t: Table, p: Packet, now: Timespec, gateIP: Ip)
    ensures var f := FlowOf(t, IdOf(p));
      Outbound(t, p, now, gateIP).1 ==
        if f.Some? then WithSource(p, f.value.gateIP, f.value.gatePort) else WithSource(p, gateIP, p.sport)
  {
  }

  /** While a flow's entry survives, all its packets leave with the same gateway address and port,
      whatever address the gateway has hopped to by then. */
  lemma FlowStability(t: Table, p: Packet, now0: Timespec, gate0: Ip, es: seq<Event>, now1: Timespec, gate1: Ip)
    requires WellFormed(t)
    requires Survives(Outbound(t, p, now0, gate0).0, es, IdOf(p))
    ensures Outbound(ApplyAll(Outbound(t, p, now0, gate0).0, es), p, now1, gate1).1 == Outbound(t, p, now0, gate0).1
  {
    var t1 := Outbound(t, p, now0, gate0).0;
    OutboundKeeps(t, p, now0, gate0);
    OutboundEndpoint(t, p, now0, gate0);
    OutboundFlows(t, p, now0, gate0, IdOf(p).key);
    var fs := WithFlow(FlowsAt(t, IdOf(p).key), p, now0, gate0);
    TouchFinds(fs, FindInternal(fs, p.proto, p.saddr, p.sport), now0, IdOf(p));
    RunStable(t1, es, IdOf(p));
    OutboundEndpoint(ApplyAll(t1, es), p, now1, gate1);
  }

  /** The reply to p: it comes from the external endpoint p went to and is addressed to the
      gateway endpoint p left with. */
  function Reply(p: Packet, gateIP: Ip, gatePort: Port): Packet {
    Packet(p.proto, p.daddr, p.dport, gateIP, gatePort)
  }

  /** Flow i of the bucket is hidden from replies by a newer one. */
  predicate Shadowed(fs: seq<Flow>, i: nat)
    requires i < |fs|
  {
    exists j :: 0 <= j < i && External(fs[j], fs[i].proto, fs[i].gateIP, fs[i].gatePort)
  }

  lemma ShadowedFinds(fs: seq<Flow>, i: nat)
    requires i < |fs|
    ensures var j := FindExternal(fs, fs[i].proto, fs[i].gateIP, fs[i].gatePort);
      j <= i && (j == i <==> !Shadowed(fs, i))
  {
  }

  predicate HasPorts(p: Packet) {
    p.proto == TCP_PROTO || p.proto == UDP_PROTO || (p.sport == 0 && p.dport == 0)
  }

  /** A reply to a flow that is in the table is always translated, and it reaches the flow's own
      internal endpoint exactly when no newer flow of the same bucket has the same protocol and
      gateway endpoint. */
  lemma ReplyReaches(t: Table, p: Packet, now: Timespec)
    requires WellFormed(t) && HasPorts(p) && FlowOf(t, IdOf(p)).Some?
    ensures var fs := FlowsAt(t, IdOf(p).key);
      var i := FindInternal(fs, p.proto, p.saddr, p.sport);
      var r := Inbound(t, Reply(p, fs[i].gateIP, fs[i].gatePort), now);
      && r.Ok?
      && (r.value.1.daddr == p.saddr && r.value.1.dport == p.sport <==> !Shadowed(fs, i))
  {
    hide UniqueKeys, Shadowed;
    var fs := FlowsAt(t, IdOf(p).key);
    var i := FindInternal(fs, p.proto, p.saddr, p.sport);
    assert t[FindBucket(t, IdOf(p).key)] in t && fs[i] in fs;
    ShadowedFinds(fs, i);
    var j := FindExternal(fs, fs[i].proto, fs[i].gateIP, fs[i].gatePort);
    assert fs[j] in fs && fs[j].gatePort == fs[j].intPort;
    assert j < i ==> !Internal(fs[i], fs[j].proto, fs[j].intIP, fs[j].intPort);
  }

  /** A flow's first packet creates an entry that nothing shadows: its reply comes back. */
  lemma FirstReplyReturns(t: Table, p: Packet, now: Timespec, gateIP: Ip, later: Timespec)
    requires WellFormed(t) && HasPorts(p) && FlowOf(t, IdOf(p)).None?
    ensures var (t1, sent) := Outbound(t, p, now, gateIP);
      var r := Inbound(t1, Reply(p, sent.saddr, sent.sport), later);
      && sent.saddr == gateIP && sent.sport == p.sport
      && r.Ok? && r.value.1 == p.(saddr := p.daddr, sport := p.dport, daddr := p.saddr, dport := p.sport)
  {
    hide Outbound, Inbound, FlowsAt, UniqueKeys, FindBucket, FindInternal;
    OutboundEndpoint(t, p, now, gateIP);
    OutboundFlows(t, p, now, gateIP, IdOf(p).key);
    var (t1, sent) := Outbound(t, p, now, gateIP);
    var fs := FlowsAt(t1, IdOf(p).key);
    var f := Flow(p.proto, p.saddr, p.sport, gateIP, p.sport, now);
    FirstInternal(f, FlowsAt(t, IdOf(p).key));
    assert fs[0] == f;
    InboundAnswer(t1, Reply(p, sent.saddr, sent.sport), later);
  }

  lemma FirstInternal(f: Flow, fs: seq<Flow>)
    ensures FindInternal([f] + fs, f.proto, f.intIP, f.intPort) == 0
  {
  }

  /** What becomes of an inbound packet, told by its bucket's flows. */
  lemma InboundAnswer(t: Table, p: Packet, now: Timespec)
    ensures var fs := FlowsAt(t, BucketKey(p.saddr, p.sport));
      var i := FindExternal(fs, p.proto, p.daddr, p.dport);
      if i == |fs| then Inbound(t, p, now).Err?
      else Inbound(t, p, now).Ok? && Inbound(t, p, now).value.1 == WithDest(p, fs[i].intIP, fs[i].intPort)
  {
  }

  /** In a reachable table translation changes one address and nothing else, since gateway ports are
      the internal ones. */
  lemma OnlySourceChanges(t: Table, p: Packet, now: Timespec, gateIP: Ip)
    requires WellFormed(t)
    ensures var sent := Outbound(t, p, now, gateIP).1; sent == p.(saddr := sent.saddr)
  {
    hide Outbound, FlowsAt, WellFormed, FindInternal;
    OutboundEndpoint(t, p, now, gateIP);
    var fs := FlowsAt(t, IdOf(p).key);
    PortsKept(t, IdOf(p).key);
    var i := FindInternal(fs, p.proto, p.saddr, p.sport);
    assert i < |fs| ==> fs[i] in fs;
  }

  lemma OnlyDestinationChanges(t: Table, p: Packet, now: Timespec)
    requires WellFormed(t) && Inbound(t, p, now).Ok?
    ensures var passed := Inbound(t, p, now).value.1; passed == p.(daddr := passed.daddr)
  {
    hide Inbound, FlowsAt, WellFormed, FindExternal, BucketKey;
    InboundAnswer(t, p, now);
    var fs := FlowsAt(t, BucketKey(p.saddr, p.sport));
    PortsKept(t, BucketKey(p.saddr, p.sport));
    var i := FindExternal(fs, p.proto, p.daddr, p.dport);
    assert i < |fs| ==> fs[i] in fs;
  }

  lemma PortsKept(t: Table, key: Key)
    requires WellFormed(t)
    ensures forall f :: f in FlowsAt(t, key) ==> f.gatePort == f.intPort
  {
    var b := FindBucket(t, key);
    assert b < |t| ==> t[b] in t;
  }

  /** Two internal hosts with the same port, the same peer and the same gateway address: the
      reply to the older flow goes to the newer one's host. */
  lemma ShadowedReply(p: Packet, q: Packet, gateIP: Ip, now: Timespec)
    requires p.proto == TCP_PROTO && q == p.(saddr := q.saddr) && q.saddr != p.saddr
    ensures var (t1, sent) := Outbound([], p, now, gateIP);
      var t2 := Outbound(t1, q, now, gateIP).0;
      var r := Inbound(t2, Reply(p, sent.saddr, sent.sport), now);
      r.Ok? && r.value.1.daddr == q.saddr != p.saddr
  {
  }

  lemma XorMoves(a: bv32, x: bv32, b: bv32, y: bv32)
    ensures a ^ x == b ^ y ==> a ^ b == x ^ y
    ensures a ^ b == x ^ y ==> a ^ x == b ^ y
  {
    assert (a ^ x) ^ (b ^ x) == a ^ b;
    assert (b ^ y) ^ (b ^ x) == x ^ y;
    assert (a ^ b) ^ (b ^ x) == a ^ x;
    assert (x ^ y) ^ (b ^ x) == b ^ y;
  }

  /** Keys of different external endpoints collide exactly when addresses and ports differ in
      the same bits. */
  lemma KeyCollision(a: Ip, p: Port, b: Ip, q: Port)
    ensures BucketKey(a, p) == BucketKey(b, q) <==> a ^ b == Widen(p) ^ Widen(q)
  {
    hide Widen;
    XorMoves(a, Widen(p), b, Widen(q));
  }
}
