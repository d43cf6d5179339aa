/** Successor links between packets (scripts/process_run.py): walks, cycles and chain ends. */
module TraceLinks {
  import opened Chains
  import opened Options

  type Id = nat

  /** next_hop_id of every packet, by packet id. */
  type Links = seq<Option<Id>>

  /** No link leaves the table. */
  predicate Closed(links: Links) {
    forall i :: 0 <= i < |links| && links[i].Some? ==> links[i].value < |links|
  }

  /** No packet is the next hop of two packets. */
  predicate Injective(links: Links) {
    forall i, j :: 0 <= i < j < |links| && links[i].Some? ==> links[i] != links[j]
  }

  predicate Target(links: Links, id: Id) {
    exists p :: 0 <= p < |links| && links[p] == Some(id)
  }

  /** Where k hops lead. */
  function Walk(links: Links, id: Id, k: nat): (r: Option<Id>)
    requires Closed(links) && id < |links|
    ensures r.Some? ==> r.value < |links|
    decreases k
  {
    if k == 0 then Some(id)
    else if links[id].None? then None
    else Walk(links, links[id].value, k - 1)
  }

  lemma {:induction false} WalkAdd(links: Links, id: Id, i: nat, j: nat)
    requires Closed(links) && id < |links|
    ensures Walk(links, id, i + j) ==
        if Walk(links, id, i).None? then None else Walk(links, Walk(links, id, i).value, j)
    decreases i
  {
    if i > 0 && links[id].Some? {
      WalkAdd(links, links[id].value, i - 1, j);
    }
  }

  /** A chain that has run out stays run out. */
  lemma WalkStaysNone(links: Links, id: Id, i: nat, k: nat)
    requires Closed(links) && id < |links| && i <= k && Walk(links, id, i).None?
    ensures Walk(links, id, k).None?
  {
    WalkAdd(links, id, i, k - i);
  }

  ghost predicate OnCycle(links: Links, id: Id)
    requires Closed(links) && id < |links|
  {
    exists k :: k > 0 && Walk(links, id, k) == Some(id)
  }

  /** The chain from id runs out. */
  predicate Ends(links: Links, id: Id)
    requires Closed(links) && id < |links|
  {
    Walk(links, id, |links|).None?
  }

  /** e is the last packet of the chain from id. */
  ghost predicate IsEnd(links: Links, id: Id, e: Id)
    requires Closed(links) && id < |links|
  {
    e < |links| && links[e].None? && exists k :: Walk(links, id, k) == Some(e)
  }

  ghost predicate Reaches(links: Links, id: Id, to: Id)
    requires Closed(links) && id < |links|
  {
    exists k :: Walk(links, id, k) == Some(to)
  }

  /** The first k packets of a chain. */
  function Path(links: Links, id: Id, k: nat): (s: seq<Id>)
    requires Closed(links) && id < |links| && (k > 0 ==> Walk(links, id, k - 1).Some?)
    ensures |s| == k
    ensures forall i :: 0 <= i < k ==> s[i] < |links|
    decreases k
  {
    if k == 0 then []
    else if k == 1 then [id]
    else [id] + Path(links, links[id].value, k - 1)
  }

  lemma {:induction false} PathAt(links: Links, id: Id, k: nat, i: nat)
    requires Closed(links) && id < |links| && i < k && Walk(links, id, k - 1).Some?
    ensures Walk(links, id, i) == Some(Path(links, id, k)[i])
    decreases k
  {
    if i > 0 {
      PathAt(links, links[id].value, k - 1, i - 1);
    }
  }

  lemma DistinctBelow(s: seq<Id>, n: nat)
    requires forall i :: 0 <= i < |s| ==> s[i] < n
    requires Distinct(s)
    ensures |s| <= n
  {
    DistinctSize(s);
    SubsetSize(Elems(s), Below(n));
  }

  function Below(n: nat): (r: set<Id>)
    ensures |r| == n && forall x: Id :: x in r <==> x < n
  {
    if n == 0 then {} else Below(n - 1) + {n - 1}
  }

  lemma {:induction false} DistinctSize(s: seq<Id>)
    requires Distinct(s)
    ensures |Elems(s)| == |s|
  {
    if s != [] {
      DistinctSize(s[1..]);
      assert s[0] !in s[1..];
      assert Elems(s) == {s[0]} + Elems(s[1..]);
    }
  }

  lemma {:induction false} SubsetSize(a: set<Id>, b: set<Id>)
    requires a <= b
    ensures |a| <= |b|
  {
    if x :| x in a {
      SubsetSize(a - {x}, b - {x});
    }
  }

  /** A chain that does not run out within the table runs into a cycle. */
  lemma EndlessHasCycle(links: Links, id: Id) returns (c: Id, k: nat)
    requires Closed(links) && id < |links| && !Ends(links, id)
    ensures c < |links| && Walk(links, id, k) == Some(c) && OnCycle(links, c)
  {
    var n := |links|;
    var s := Path(links, id, n + 1);
    if forall i, j :: 0 <= i < j < |s| ==> s[i] != s[j] {
      DistinctBelow(s, n);
      assert false;
    }
    var i, j :| 0 <= i < j < |s| && s[i] == s[j];
    PathAt(links, id, n + 1, i);
    PathAt(links, id, n + 1, j);
    WalkAdd(links, id, i, j - i);
    c, k := s[i], i;
  }

  /** A chain that runs out touches no cycle. */
  lemma EndingHasNoCycle(links: Links, id: Id, k: nat)
    requires Closed(links) && id < |links| && Ends(links, id) && Walk(links, id, k).Some?
    ensures !OnCycle(links, Walk(links, id, k).value)
  {
    var c := Walk(links, id, k).value;
    if OnCycle(links, c) {
      var p: nat :| p > 0 && Walk(links, c, p) == Some(c);
      CycleRepeats(links, c, p, |links|);
      TimesAtLeast(p, |links|);
      WalkAdd(links, id, k, p * |links|);
      WalkStaysNone(links, id, |links|, k + p * |links|);
    }
  }

  lemma {:induction false} TimesAtLeast(p: nat, n: nat)
    requires p > 0
    ensures p * n >= n
  {
    if n > 0 {
      TimesAtLeast(p, n - 1);
    }
  }

  lemma {:induction false} CycleRepeats(links: Links, c: Id, p: nat, times: nat)
    requires Closed(links) && c < |links| && Walk(links, c, p) == Some(c)
    ensures Walk(links, c, p * times) == Some(c)
  {
    if times > 0 {
      CycleRepeats(links, c, p, times - 1);
      WalkAdd(links, c, p, p * (times - 1));
      assert p * times == p + p * (times - 1);
    }
  }

  ghost predicate Acyclic(links: Links)
    requires Closed(links)
  {
    forall id :: 0 <= id < |links| ==> !OnCycle(links, id)
  }

  /** Links are acyclic exactly when every chain runs out. */
  lemma AcyclicIffEnds(links: Links)
    requires Closed(links)
    ensures Acyclic(links) <==> forall id :: 0 <= id < |links| ==> Ends(links, id)
  {
    if Acyclic(links) {
      forall id | 0 <= id < |links| ensures Ends(links, id) {
        if !Ends(links, id) {
          var c, k := EndlessHasCycle(links, id);
        }
      }
    }
    if forall id :: 0 <= id < |links| ==> Ends(links, id) {
      forall id | 0 <= id < |links| ensures !OnCycle(links, id) {
        EndingHasNoCycle(links, id, 0);
      }
    }
  }

  /** A chain has at most one end, and it has one exactly when it runs out. */
  lemma EndUnique(links: Links, id: Id, d: Id, e: Id)
    requires Closed(links) && id < |links| && IsEnd(links, id, d) && IsEnd(links, id, e)
    ensures d == e
  {
    var i: nat :| Walk(links, id, i) == Some(d);
    var j: nat :| Walk(links, id, j) == Some(e);
    if i < j {
      WalkAdd(links, id, i, j - i);
    } else if j < i {
      WalkAdd(links, id, j, i - j);
    }
  }

  lemma EndsIffEnd(links: Links, id: Id)
    requires Closed(links) && id < |links|
    ensures Ends(links, id) <==> exists e :: IsEnd(links, id, e)
  {
    if Ends(links, id) {
      var e := LastOf(links, id, |links|);
    }
    if e: Id :| IsEnd(links, id, e) {
      if !Ends(links, id) {
        var c, k := EndlessHasCycle(links, id);
        var p: nat :| p > 0 && Walk(links, c, p) == Some(c);
        var j: nat :| Walk(links, id, j) == Some(e);
        CycleRepeats(links, c, p, j + 1);
        WalkAdd(links, id, k, p * (j + 1));
        assert Walk(links, e, 1).None?;
        WalkAdd(links, id, j, 1);
        TimesAtLeast(p, j + 1);
        WalkStaysNone(links, id, j + 1, k + p * (j + 1));
      }
    }
  }

  lemma {:induction false} LastOf(links: Links, id: Id, k: nat) returns (e: Id)
    requires Closed(links) && id < |links| && Walk(links, id, k).None?
    ensures IsEnd(links, id, e)
    decreases k
  {
    if links[id].None? {
      e := id;
      assert Walk(links, id, 0) == Some(id);
    } else {
      e := LastOf(links, links[id].value, k - 1);
      var j: nat :| Walk(links, links[id].value, j) == Some(e);
      assert Walk(links, id, j + 1) == Some(e);
    }
  }

  /** The end of a chain is the end of the chain one hop on. */
  lemma EndOfNext(links: Links, id: Id, e: Id)
    requires Closed(links) && id < |links| && links[id].Some? && IsEnd(links, links[id].value, e)
    ensures IsEnd(links, id, e)
  {
    var j: nat :| Walk(links, links[id].value, j) == Some(e);
    assert Walk(links, id, j + 1) == Some(e);
  }

  /** With injective links, chains that meet are one chain: one start lies on the other's chain.
      So traces are disjoint paths or cycles. */
  lemma {:induction false} MeetingChains(links: Links, a: Id, b: Id, i: nat, j: nat)
    requires Closed(links) && Injective(links) && a < |links| && b < |links| && i <= j
    requires Walk(links, a, i).Some? && Walk(links, a, i) == Walk(links, b, j)
    ensures Walk(links, b, j - i) == Some(a)
  {
    if i > 0 {
      WalkAdd(links, a, i - 1, 1);
      WalkAdd(links, b, j - 1, 1);
      var x, y := Walk(links, a, i - 1).value, Walk(links, b, j - 1).value;
      assert Walk(links, x, 1) == links[x] && Walk(links, y, 1) == links[y];
      assert x == y;
      MeetingChains(links, a, b, i - 1, j - 1);
    }
  }

  /** Two packets share their last packet exactly when one lies on the other's chain. */
  lemma SameEndIff(links: Links, a: Id, b: Id, e: Id)
    requires Closed(links) && Injective(links) && a < |links| && b < |links| && IsEnd(links, a, e)
    ensures IsEnd(links, b, e) <==> Reaches(links, a, b) || Reaches(links, b, a)
  {
    var i: nat :| Walk(links, a, i) == Some(e);
    if IsEnd(links, b, e) {
      var j: nat :| Walk(links, b, j) == Some(e);
      if i <= j {
        MeetingChains(links, a, b, i, j);
      } else {
        MeetingChains(links, b, a, j, i);
      }
    }
    if Reaches(links, b, a) {
      var j: nat :| Walk(links, b, j) == Some(a);
      WalkAdd(links, b, j, i);
    }
    if Reaches(links, a, b) {
      var j: nat :| Walk(links, a, j) == Some(b);
      if j <= i {
        WalkAdd(links, a, j, i - j);
      } else {
        WalkAdd(links, a, i, j - i);
        assert Walk(links, e, 1).None?;
        WalkStaysNone(links, e, 1, j - i);
      }
    }
  }

  /** With injective links, a chain from a packet nobody links to runs out: it cannot enter a
      cycle. The cycle check starts only from such packets. */
  lemma StartsNeverCycle(links: Links, id: Id)
    requires Closed(links) && Injective(links) && id < |links| && !Target(links, id)
    ensures Ends(links, id)
  {
    if !Ends(links, id) {
      var c, k := EndlessHasCycle(links, id);
      var p: nat :| p > 0 && Walk(links, c, p) == Some(c);
      CycleRepeats(links, c, p, k + 1);
      var m := p * (k + 1);
      TimesAtLeast(p, k + 1);
      MeetingChains(links, id, c, k, m);
      WalkAdd(links, c, m - k - 1, 1);
    }
  }

  /** Every packet on a cycle is somebody's next hop, so the cycle check starts at none of them
      and, by the lemma above, meets none of them. */
  lemma CycleIsTargeted(links: Links, id: Id)
    requires Closed(links) && id < |links| && OnCycle(links, id)
    ensures Target(links, id) && !Ends(links, id)
  {
    var p: nat :| p > 0 && Walk(links, id, p) == Some(id);
    WalkAdd(links, id, p - 1, 1);
    var q := Walk(links, id, p - 1).value;
    assert Walk(links, q, 1) == links[q];
    if Ends(links, id) {
      EndingHasNoCycle(links, id, 0);
    }
  }

  /** A plain chain of n packets. */
  function Line(n: nat): (links: Links)
    ensures Closed(links) && Injective(links) && |links| == n
  {
    seq(n, i => if i + 1 < n then Some(i + 1) else None)
  }

  /** A plain chain runs out only after its last packet: one of ten packets has no cycle and yet
      is followed for as long as the cycle check cares to look. */
  lemma {:induction false} LineWalk(n: nat, id: Id, k: nat)
    requires id < n
    ensures Walk(Line(n), id, k) == if id + k < n then Some(id + k) else None
    decreases k
  {
    if k > 0 && id + 1 < n {
      LineWalk(n, id + 1, k - 1);
    }
  }

  lemma LongChainLooksCyclic()
    ensures Acyclic(Line(10)) && !Target(Line(10), 0) && Walk(Line(10), 0, 9).Some?
  {
    LineWalk(10, 0, 9);
    forall id: Id | id < 10 ensures Ends(Line(10), id) {
      LineWalk(10, id, 10);
    }
    AcyclicIffEnds(Line(10));
  }
}
