/** Which gate an address is routed to, as trust packets keep adding networks. */
module Routing {
  import opened Chains
  import opened GateList
  import opened Hopping
  import opened Networks

  /** The position get_arg_network stops at; |nets| when no gate matches. */
  function FirstMatch(nets: seq<Network>, ip: Addr): (i: nat)
    ensures i <= |nets|
    ensures forall k :: 0 <= k < i ==> !In(ip, nets[k])
    ensures i < |nets| ==> In(ip, nets[i])
  {
    if nets == [] || In(ip, nets[0]) then 0 else 1 + FirstMatch(nets[1..], ip)
  }

  ghost predicate PairwiseDisjoint(nets: seq<Network>) {
    forall i, j :: 0 <= i < j < |nets| ==> Disjoint(nets[i], nets[j])
  }

  /** What learning a network does to the list: nothing when its base is already covered. */
  function Learned(nets: seq<Network>, net: Network): seq<Network>
    requires nets != []
  {
    if FirstMatch(nets, net.base) < |nets| then nets else [nets[0], Masked(net)] + nets[1..]
  }

  /** The class refines these two functions. */
  method RouteAndLearn(gates: Gates, ip: Addr, name: string, net: Network) returns (g: Gate?, added: bool)
    requires gates.Valid() && gates.chain != []
    modifies gates, Elems(gates.chain)`next
    ensures gates.Valid() && NetsOf(gates.chain) == Learned(NetsOf(old(gates.chain)), net)
    ensures g == At(old(gates.chain), FirstMatch(NetsOf(old(gates.chain)), ip))
  {
    hide In, FirstMatch, Elems;
    ghost var i, s, nets := 0, gates.chain, NetsOf(gates.chain);
    g, i := gates.GetArgNetwork(ip);
    assert FirstMatch(nets, ip) == i;
    added := gates.Learn(name, net);
    ghost var k := FirstMatch(nets, net.base);
    assert k < |nets| ==> s[k] in s;
    assert added <==> k == |nets|;
  }

  predicate Comparable(a: Addr, b: Addr) {
    Covers(a, b) || Covers(b, a)
  }

  lemma DisjointSymmetric(a: Network, b: Network)
    ensures Disjoint(a, b) <==> Disjoint(b, a)
  {
    DisjointIffDiffer(a, b);
    DisjointIffDiffer(b, a);
  }

  lemma MaskedDisjoint(n: Network, net: Network)
    ensures Disjoint(n, Masked(net)) <==> Disjoint(n, net)
  {
    forall x: Addr ensures In(x, Masked(net)) <==> In(x, net) {
      MaskedSame(net, x);
    }
    hide In;
  }

  lemma InsertDisjoint(nets: seq<Network>, net: Network)
    requires nets != [] && PairwiseDisjoint(nets)
    ensures PairwiseDisjoint([nets[0], net] + nets[1..]) <==> forall n :: n in nets ==> Disjoint(n, net)
  {
    hide Disjoint;
    var r := [nets[0], net] + nets[1..];
    assert forall i :: 0 <= i < |r| ==> r[i] == if i == 0 then nets[0] else if i == 1 then net else nets[i - 1];
    assert forall k :: 0 <= k < |nets| ==> nets[k] == r[if k == 0 then 0 else k + 1];
    forall n | n in nets
      ensures Disjoint(n, net) <==> Disjoint(net, n)
    {
      DisjointSymmetric(n, net);
    }
    if PairwiseDisjoint(r) {
      forall n | n in nets
        ensures Disjoint(n, net)
      {
        var k :| 0 <= k < |nets| && nets[k] == n;
        assert if k == 0 then Disjoint(r[0], r[1]) else Disjoint(r[1], r[k + 1]);
      }
    }
  }

  /** Disjointness survives learning a new network exactly when no known base lies in it. */
  lemma LearnKeepsDisjoint(nets: seq<Network>, net: Network)
    requires nets != [] && PairwiseDisjoint(nets)
    requires forall n :: n in nets ==> Comparable(n.mask, net.mask)
    requires FirstMatch(nets, net.base) == |nets|
    ensures PairwiseDisjoint(Learned(nets, net)) <==> forall n :: n in nets ==> !In(n.base, net)
  {
    hide Disjoint, In, PairwiseDisjoint, Covers;
    forall n | n in nets
      ensures Disjoint(n, net) <==> !In(n.base, net)
    {
      LearnedDisjoint(n, net);
    }
    forall n | n in nets
      ensures Disjoint(n, Masked(net)) <==> Disjoint(n, net)
    {
      MaskedDisjoint(n, net);
    }
    InsertDisjoint(nets, Masked(net));
  }

  /** What process_arg_trust would need to check besides: the new mask contains every known one. */
  predicate Narrowest(nets: seq<Network>, net: Network) {
    forall n :: n in nets ==> Covers(n.mask, net.mask)
  }

  function LearnAll(nets: seq<Network>, learned: seq<Network>): seq<Network>
    requires nets != []
    decreases |learned|
  {
    if learned == [] then nets else LearnAll(Learned(nets, learned[0]), learned[1..])
  }

  ghost predicate AlwaysNarrowest(nets: seq<Network>, learned: seq<Network>)
    requires nets != []
    decreases |learned|
  {
    learned == [] || (Narrowest(nets, learned[0]) && AlwaysNarrowest(Learned(nets, learned[0]), learned[1..]))
  }

  /** Over any run of trust packets whose masks contain all masks known at the time, the
      networks stay pairwise disjoint. */
  lemma {:induction false} RunKeepsDisjoint(nets: seq<Network>, learned: seq<Network>)
    requires nets != [] && PairwiseDisjoint(nets) && AlwaysNarrowest(nets, learned)
    ensures PairwiseDisjoint(LearnAll(nets, learned))
    decreases |learned|
  {
    if learned != [] {
      var net := learned[0];
      if FirstMatch(nets, net.base) == |nets| {
        forall n | n in nets
          ensures Disjoint(n, Masked(net))
        {
          NarrowerIsDisjoint(n, net);
          MaskedDisjoint(n, net);
        }
        InsertDisjoint(nets, Masked(net));
      }
      RunKeepsDisjoint(Learned(nets, net), learned[1..]);
    }
  }

  /** With disjoint networks every address a gate hops to is routed to that gate. */
  lemma HopsRouteHome(nets: seq<Network>, i: nat, hmac: HmacFn, g: Hopping.Gate, hop: nat)
    requires i < |nets| && PairwiseDisjoint(nets) && nets[i] == g.net
    ensures FirstMatch(nets, Address(hmac, g, hop)) == i
  {
    var ip := Address(hmac, g, hop);
    GeneratedInNetwork(hmac, g, hop);
    var k := FirstMatch(nets, ip);
    assert k < i ==> Disjoint(nets[k], nets[i]);
  }

  lemma OutsideAt(x: Addr, n: Network, k: nat)
    requires k < ADDR_SIZE && n.base[k] & n.mask[k] != x[k] & n.mask[k]
    ensures !In(x, n)
  {
  }

  lemma ExampleNetworks(home: Network, narrow: Network, wide: Network, ip: Addr)
    requires home == Network([192, 168, 0, 0], [255, 255, 0, 0])
    requires narrow == Network([10, 0, 1, 0], [255, 255, 255, 0])
    requires wide == Network([10, 0, 0, 0], [255, 255, 0, 0]) && ip == [10, 0, 1, 5]
    ensures Disjoint(home, narrow) && !In(wide.base, home) && !In(wide.base, narrow)
    ensures !In(ip, home) && In(ip, narrow) && In(ip, wide) && Masked(wide) == wide
  {
    assert MaskedAddr(wide.base, wide.mask) == wide.base;
    OutsideAt(ip, home, 0);
    OutsideAt(wide.base, home, 0);
    OutsideAt(wide.base, narrow, 2);
    DisjointIffDiffer(home, narrow);
    assert home.base[0] & home.mask[0] & narrow.mask[0] != narrow.base[0] & narrow.mask[0] & home.mask[0];
  }

  /** Without that, a trust packet takes a known gate's addresses over: with ourselves at
      192.168.0.0/16, 10.0.0.0/16 is accepted although 10.0.1.0/24 is known, and 10.0.1.5 is
      then routed to the newcomer. */
  lemma WiderTrustMisroutes(home: Network, narrow: Network, wide: Network, ip: Addr)
    requires home == Network([192, 168, 0, 0], [255, 255, 0, 0])
    requires narrow == Network([10, 0, 1, 0], [255, 255, 255, 0])
    requires wide == Network([10, 0, 0, 0], [255, 255, 0, 0]) && ip == [10, 0, 1, 5]
    ensures PairwiseDisjoint([home, narrow]) && [home, narrow][FirstMatch([home, narrow], ip)..] == [narrow]
    ensures Learned([home, narrow], wide) == [home, wide, narrow]
    ensures [home, wide, narrow][FirstMatch([home, wide, narrow], ip)..] == [wide, narrow]
  {
    hide In, Disjoint;
    ExampleNetworks(home, narrow, wide, ip);
  }
}
