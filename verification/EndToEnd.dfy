/** All the gates' checks on one packet together (director.c): routing at both ends, the two address
    checks, the connection, the sequence number, the authentication code, in any reachable state of
    a run in time. */
module EndToEnd {
  import opened GateNetwork
  import opened Hopping
  import opened HopSync
  import opened Networks
  import opened Numbering
  import opened Octets
  import opened Options
  import opened ProtocolSpec
  import opened TimedRuns
  import opened Timing
  import opened TimeSync
  import Routing

  /** A gate's own hopping, and a remote's as far as it is on record. */
  function OwnHops(own: Local, net: Network): Hopping.Gate {
    Hopping.Gate(own.base, own.keys.hopKey, own.keys.hopInterval, net)
  }

  function RecordedHops(r: Remote, net: Network): Hopping.Gate {
    Hopping.Gate(r.timeBase, r.keys.hopKey, r.keys.hopInterval, net)
  }

  function CurrentAddress(hmac: HmacFn, g: Hopping.Gate, now: Timespec): Addr {
    Address(hmac, g, Hop(g, now, 0))
  }

  /** The gate list as it is searched: whose record, and which network. */
  type GateList = seq<(Id, Network)>

  function Nets(list: GateList): (nets: seq<Network>)
    ensures |nets| == |list| && forall i :: 0 <= i < |nets| ==> nets[i] == list[i].1
  {
    seq(|list|, i requires 0 <= i < |list| => list[i].1)
  }

  /** The gate itself comes first, then gates it has records of; no address belongs to two. */
  ghost predicate ListOf(g: GateNetwork.Gate, list: GateList) {
    && list != [] && list[0].0 == g.own.id
    && (forall i :: 1 <= i < |list| ==> list[i].0 in g.remotes)
    && Routing.PairwiseDisjoint(Nets(list))
  }

  /** get_arg_network: whose network an address is in. */
  function RoutedTo(list: GateList, ip: Addr): Option<Id> {
    var i := Routing.FirstMatch(Nets(list), ip);
    if i < |list| then Some(list[i].0) else None
  }

  /** Each of two gates lists itself with some network, and the other with the other's. */
  predicate ListEachOther(listA: GateList, listB: GateList, a: Id, b: Id)
    requires listA != [] && listB != []
  {
    (b, listB[0].1) in listA && (a, listA[0].1) in listB
  }

  lemma RoutesHome(list: GateList, entry: (Id, Network), ip: Addr)
    requires entry in list && Routing.PairwiseDisjoint(Nets(list)) && In(ip, entry.1)
    ensures RoutedTo(list, ip) == Some(entry.0)
  {
    var i :| 0 <= i < |list| && list[i] == entry;
    var k := Routing.FirstMatch(Nets(list), ip);
    assert Nets(list)[i] == entry.1;
    assert k <= i;
    assert k < i ==> Disjoint(Nets(list)[k], Nets(list)[i]);
    hide In;
  }

  /** What direct_inbound finds out about the addresses of a packet. */
  function AddressChecks(hmac: HmacFn, local: Hopping.Gate, remote: Hopping.Gate, src: Addr, dst: Addr, t: Transit,
                         noise: Noise): Env {
    Env(t.t3, t.t4, Accepts(hmac, local, dst, t.t1, t.t2), Accepts(hmac, remote, src, t.t3, t.t4), noise)
  }

  /** Two gates of a system, connected to each other, with their lists. */
  ghost predicate Connected(now: World, a: Id, b: Id, listA: GateList, listB: GateList) {
    && Knows(now, a, b) && Knows(now, b, a)
    && now.gates[a].remotes[b].connected && now.gates[b].remotes[a].connected
    && now.gates[a].own.id == a && now.gates[b].own.id == b
    && ListOf(now.gates[a], listA) && ListOf(now.gates[b], listB) && ListEachOther(listA, listB, a, b)
  }

  /** The network's delays fit the hop intervals of both, and the packet takes as long as any. */
  ghost predicate TravelsInTime(now: World, clocks: Clocks, a: Id, b: Id, legs: Legs, gap: nat, t: Transit)
    requires Knows(now, a, b) && Knows(now, b, a)
  {
    var keysA, keysB := now.gates[a].own.keys, now.gates[b].own.keys;
    && 0 < keysA.hopInterval <= TWO_31 && FitsHops(legs, gap, keysA.hopInterval)
    && 0 < keysB.hopInterval <= TWO_31 && FitsHops(legs, gap, keysB.hopInterval)
    && t.skew == clocks(b) - clocks(a) && Delivered(t, legs.least, legs.most + gap)
    && 0 <= TimeOffset(now.gates[a].remotes[b].timeBase, t.sent) < TWO_32
    && 0 <= TimeOffset(now.gates[a].own.base, t.sent) < TWO_32
  }

  /** What happens to one internal packet for an address in b's network: a routes it to b and wraps
      it from its current address to b's current address as a sees it; b routes the source address
      to its record of a, both address checks pass, and the packet comes out unchanged. */
  ghost predicate GetsThrough(hmac: HmacFn, now: World, a: Id, b: Id, listA: GateList, listB: GateList,
                              daddr: Addr, payload: Bytes, t: Transit, noise: Noise)
    requires Connected(now, a, b, listA, listB)
  {
    var A, B := now.gates[a], now.gates[b];
    var src := CurrentAddress(hmac, OwnHops(A.own, listA[0].1), t.sent);
    var dst := CurrentAddress(hmac, RecordedHops(A.remotes[b], listB[0].1), t.sent);
    var sent := Wrap(A.own, A.remotes[b], b, payload).1;
    && RoutedTo(listA, daddr) == Some(b)
    && |sent| == 1 && sent[0].from == a && sent[0].to == b
    && var from := RoutedTo(listB, src);
       && from == Some(a)
       && var record := B.remotes[from.value];
          var checkedOwn, checkedOther := OwnHops(B.own, listB[0].1), RecordedHops(record, listA[0].1);
          var env := AddressChecks(hmac, checkedOwn, checkedOther, src, dst, t, noise);
          Receive(B.own, record, sent[0], env).emitted == Some(payload)
  }

  lemma AddressesFit(hmac: HmacFn, w: World, clocks: Clocks, ms: seq<Move>, legs: Legs, gap: nat, a: Id, b: Id,
                     listA: GateList, listB: GateList, t: Transit)
    requires Initial(w) && InTime(w, clocks, ms, legs, gap)
    requires Connected(GateNetwork.Run(w, ms), a, b, listA, listB)
    requires TravelsInTime(GateNetwork.Run(w, ms), clocks, a, b, legs, gap, t)
    ensures var A, B := GateNetwork.Run(w, ms).gates[a], GateNetwork.Run(w, ms).gates[b];
      && Accepts(hmac, OwnHops(B.own, listB[0].1), CurrentAddress(hmac, RecordedHops(A.remotes[b], listB[0].1), t.sent),
                 t.t1, t.t2)
      && Accepts(hmac, RecordedHops(B.remotes[a], listA[0].1), CurrentAddress(hmac, OwnHops(A.own, listA[0].1), t.sent),
                 t.t3, t.t4)
  {
    var now := GateNetwork.Run(w, ms);
    assert listA != [] && listB != [];
    hide Accepts, ListOf, ListEachOther, InTime, GateNetwork.Run, Within;
    KeyAgreement(w, ms, a, b);
    KeyAgreement(w, ms, b, a);
    SyncedInTime(w, clocks, ms, legs, gap, a, b);
    SyncedInTime(w, clocks, ms, legs, gap, b, a);
    var A, B := now.gates[a], now.gates[b];
    BothAddressesAccepted(hmac, OwnHops(A.own, listA[0].1), RecordedHops(B.remotes[a], listA[0].1),
                          OwnHops(B.own, listB[0].1), RecordedHops(A.remotes[b], listB[0].1), t,
                          SyncError(legs, gap), legs.least, legs.most + gap);
  }

  /** In every reachable state of a run in time, mutually connected gates get packets through to
      each other, as long as the sequence number is in order. */
  lemma WrappedPacketGetsThrough(hmac: HmacFn, w: World, clocks: Clocks, ms: seq<Move>, legs: Legs, gap: nat,
                                 a: Id, b: Id, listA: GateList, listB: GateList, daddr: Addr, payload: Bytes,
                                 t: Transit, noise: Noise)
    requires Initial(w) && InTime(w, clocks, ms, legs, gap)
    requires Connected(GateNetwork.Run(w, ms), a, b, listA, listB)
    requires TravelsInTime(GateNetwork.Run(w, ms), clocks, a, b, legs, gap, t)
    requires var now := GateNetwork.Run(w, ms);
      InOrder(now.gates[a].remotes[b].outSeqNum, now.gates[b].remotes[a].inSeqNum)
    requires In(daddr, listB[0].1)
    ensures GetsThrough(hmac, GateNetwork.Run(w, ms), a, b, listA, listB, daddr, payload, t, noise)
  {
    AddressesFit(hmac, w, clocks, ms, legs, gap, a, b, listA, listB, t);
    var now := GateNetwork.Run(w, ms);
    var A, B := now.gates[a], now.gates[b];
    var ownA := OwnHops(A.own, listA[0].1);
    var src := CurrentAddress(hmac, ownA, t.sent);
    var dst := CurrentAddress(hmac, RecordedHops(A.remotes[b], listB[0].1), t.sent);
    GeneratedInNetwork(hmac, ownA, Hop(ownA, t.sent, 0));
    RoutesHome(listB, (a, listA[0].1), src);
    RoutesHome(listA, (b, listB[0].1), daddr);
    hide Receive, Wrap, InOrder, Accepts, RoutedTo, InTime, TravelsInTime, GateNetwork.Run, CurrentAddress, In;
    WrappedArrives(w, ms, a, b, payload,
                   AddressChecks(hmac, OwnHops(B.own, listB[0].1), RecordedHops(B.remotes[a], listA[0].1),
                                 src, dst, t, noise));
  }

  /** Without damaged packets and counter wraps it always is. */
  lemma UndamagedPacketsGetThrough(hmac: HmacFn, w: World, clocks: Clocks, ms: seq<Move>, legs: Legs, gap: nat,
                                   a: Id, b: Id, listA: GateList, listB: GateList, daddr: Addr, payload: Bytes,
                                   t: Transit, noise: Noise)
    requires Initial(w) && InTime(w, clocks, ms, legs, gap)
    requires Undamaged(ms) && GateNetwork.Run(w, ms).total < TWO_32 - 2
    requires Connected(GateNetwork.Run(w, ms), a, b, listA, listB)
    requires TravelsInTime(GateNetwork.Run(w, ms), clocks, a, b, legs, gap, t)
    requires In(daddr, listB[0].1)
    ensures GetsThrough(hmac, GateNetwork.Run(w, ms), a, b, listA, listB, daddr, payload, t, noise)
  {
    NextIsInOrder(w, ms, a, b);
    hide Initial, InTime, TravelsInTime, GetsThrough, In, InOrder, GateNetwork.Run;
    WrappedPacketGetsThrough(hmac, w, clocks, ms, legs, gap, a, b, listA, listB, daddr, payload, t, noise);
  }
}
