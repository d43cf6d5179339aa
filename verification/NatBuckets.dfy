/** The entries of one NAT bucket: a doubly linked list that is changed in place (nat.c). */
module NatBuckets {
  import opened Chains
  import opened NatSpec
  import opened Timing

  class Entry {
    const proto: nat
    const intIP: Ip
    const intPort: Port
    const gateIP: Ip
    const gatePort: Port
    const bucket: NatBucket
    var lastUsed: Timespec
    var next: Entry?
    var prev: Entry?

    constructor (p: Packet, gateIP: Ip, now: Timespec, bucket: NatBucket)
      ensures AsFlow() == Flow(p.proto, p.saddr, p.sport, gateIP, p.sport, now) && this.bucket == bucket
    {
      proto, intIP, intPort, this.gateIP, gatePort := p.proto, p.saddr, p.sport, gateIP, p.sport;
      this.bucket, lastUsed, next, prev := bucket, now, null, null;
    }

    function AsFlow(): Flow
      reads this`lastUsed
    {
      Flow(proto, intIP, intPort, gateIP, gatePort, lastUsed)
    }
  }

  function At(s: seq<Entry>, i: int): Entry? {
    if 0 <= i < |s| then s[i] else null
  }

  ghost function FlowsOf(s: seq<Entry>): (fs: seq<Flow>)
    reads Elems(s)`lastUsed
    ensures |fs| == |s|
    ensures forall i :: 0 <= i < |fs| ==> fs[i] == s[i].AsFlow()
  {
    if s == [] then [] else [s[0].AsFlow()] + FlowsOf(s[1..])
  }

  class NatBucket {
    const key: Key
    const extIP: Ip
    const extPort: Port
    var first: Entry?
    ghost var entries: seq<Entry>

    constructor (p: Packet, key: Key)
      ensures Valid() && entries == [] && this.key == key && extIP == p.daddr && extPort == p.dport
    {
      this.key, extIP, extPort, first, entries := key, p.daddr, p.dport, null, [];
    }

    /** first, next and prev spell out the entries, and each entry points back to this bucket. */
    ghost predicate Valid()
      reads this, entries`next, entries`prev
    {
      && Distinct(entries)
      && (forall i :: 0 <= i < |entries| ==> entries[i].bucket == this)
      && first == At(entries, 0)
      && (forall i {:trigger entries[i].next} :: 0 <= i < |entries| ==> entries[i].next == At(entries, i + 1))
      && (forall i {:trigger entries[i].prev} :: 0 <= i < |entries| ==> entries[i].prev == At(entries, i - 1))
    }

    ghost function Flows(): seq<Flow>
      reads this`entries, Elems(entries)`lastUsed
    {
      FlowsOf(entries)
    }

    /** The search loop of do_nat_outbound_rewrite. */
    method FindByInternal(p: Packet) returns (e: Entry?, ghost i: nat)
      requires Valid()
      ensures i == FindInternal(Flows(), p.proto, p.saddr, p.sport) && e == At(entries, i)
    {
      e, i := first, 0;
      ghost var k := FindInternal(Flows(), p.proto, p.saddr, p.sport);
      while e != null && (p.proto != e.proto || p.sport != e.intPort || p.saddr != e.intIP)
        invariant i <= k <= |entries| && e == At(entries, i)
        decreases |entries| - i
      {
        e, i := e.next, i + 1;
      }
    }

    /** The search loop of do_nat_inbound_rewrite. */
    method FindByExternal(p: Packet) returns (e: Entry?, ghost i: nat)
      requires Valid()
      ensures i == FindExternal(Flows(), p.proto, p.daddr, p.dport) && e == At(entries, i)
    {
      e, i := first, 0;
      ghost var k := FindExternal(Flows(), p.proto, p.daddr, p.dport);
      while e != null && (p.proto != e.proto || p.dport != e.gatePort || p.daddr != e.gateIP)
        invariant i <= k <= |entries| && e == At(entries, i)
        decreases |entries| - i
      {
        e, i := e.next, i + 1;
      }
    }

    /** Link e in front of the old head. */
    method Prepend(e: Entry)
      requires Valid() && e !in entries && e.bucket == this
      modifies this`first, this`entries, e`next, e`prev, Elems(entries)`prev
      ensures Valid() && entries == [e] + old(entries)
    {
      var oldHead := first;
      first := e;
      e.next := oldHead;
      if oldHead != null {
        oldHead.prev := e;
      }
      e.prev := null;
      entries := [e] + entries;
    }

    /** create_nat_entry: the new entry becomes the head. */
    method CreateEntry(p: Packet, gateIP: Ip, now: Timespec) returns (e: Entry)
      requires Valid()
      modifies this`first, this`entries, Elems(entries)`prev
      ensures Valid() && fresh(e) && entries == [e] + old(entries)
      ensures Flows() == [Flow(p.proto, p.saddr, p.sport, gateIP, p.sport, now)] + old(Flows())
    {
      hide FlowsOf;
      e := new Entry(p, gateIP, now, this);
      FlowsCons(e, entries);
      Prepend(e);
    }

    /** update_nat_entry_time on the i-th entry. */
    method Update(e: Entry, now: Timespec, ghost i: nat)
      requires Valid() && i < |entries| && entries[i] == e
      modifies e`lastUsed
      ensures Valid() && entries == old(entries) && Flows() == Touch(old(Flows()), i, now)
    {
      e.lastUsed := now;
    }

    /** The bucket part of do_nat_outbound_rewrite: find or create the flow and mark it used. */
    method Translate(p: Packet, now: Timespec, gateIP: Ip) returns (e: Entry)
      requires Valid()
      modifies this`first, this`entries, Elems(entries)`prev, Elems(entries)`lastUsed
      ensures Valid() && fresh(Elems(entries) - old(Elems(entries)))
      ensures var fs := WithFlow(old(Flows()), p, now, gateIP);
        var i := FindInternal(fs, p.proto, p.saddr, p.sport);
        Flows() == Touch(fs, i, now) && e.AsFlow() == Touch(fs, i, now)[i]
    {
      hide FlowsOf;
      var found, k := FindByInternal(p);
      FlowsLength(entries);
      if found == null {
        e := CreateEntry(p, gateIP, now);
        k := 0;
      } else {
        e := found;
      }
      Update(e, now, k);
      FlowsLength(entries);
    }

    /** The bucket part of do_nat_inbound_rewrite: find the flow and mark it used, if there. */
    method Reverse(p: Packet, now: Timespec) returns (e: Entry?)
      requires Valid()
      modifies Elems(entries)`lastUsed
      ensures Valid()
      ensures var i := FindExternal(old(Flows()), p.proto, p.daddr, p.dport);
        if i == |old(Flows())| then e == null && Flows() == old(Flows())
        else Flows() == Touch(old(Flows()), i, now) && e != null && e.AsFlow() == Flows()[i]
    {
      hide FlowsOf;
      ghost var k;
      e, k := FindByExternal(p);
      FlowsLength(entries);
      if e != null {
        Update(e, now, k);
        FlowsLength(entries);
      }
    }
  }

  lemma FlowsLength(s: seq<Entry>)
    ensures |FlowsOf(s)| == |s| && forall i :: 0 <= i < |s| ==> FlowsOf(s)[i] == s[i].AsFlow()
  {
  }

  lemma FlowsCons(e: Entry, s: seq<Entry>)
    ensures FlowsOf([e] + s) == [e.AsFlow()] + FlowsOf(s)
  {
  }

  lemma FlowsCut(s: seq<Entry>, k: nat)
    requires k < |s|
    ensures FlowsOf(Without(s, k)) == Without(FlowsOf(s), k)
  {
    WithoutAt(s, k);
    WithoutAt(FlowsOf(s), k);
    hide Without;
    FlowsLength(s);
    FlowsLength(Without(s, k));
    hide FlowsOf;
  }

  /** The links of a bucket that has just lost the k-th entry of s, told by the indices of s. */
  ghost predicate Skipping(b: NatBucket, s: seq<Entry>, k: nat)
    requires k < |s|
    reads b`first, s`next, s`prev
  {
    && b.first == At(s, if k == 0 then 1 else 0)
    && (forall i {:trigger s[i].next} :: 0 <= i < |s| && i != k ==>
        s[i].next == At(s, if i + 1 == k then k + 1 else i + 1))
    && (forall i {:trigger s[i].prev} :: 0 <= i < |s| && i != k ==>
        s[i].prev == At(s, if i - 1 == k then k - 1 else i - 1))
  }

  lemma SkippingIsValid(b: NatBucket, s: seq<Entry>, k: nat)
    requires k < |s| && b.entries == Without(s, k) && Skipping(b, s, k)
    requires Distinct(s)
    requires forall i :: 0 <= i < |s| ==> s[i].bucket == b
    ensures b.Valid()
  {
    WithoutAt(s, k);
    hide Without;
    var d := b.entries;
    forall i | 0 <= i < |d|
      ensures d[i].next == At(d, i + 1)
    {
      var j := if i < k then i else i + 1;
      assert s[j].next == At(s, if j + 1 == k then k + 1 else j + 1);
      assert i + 1 < |d| ==> d[i + 1] == s[if i + 1 < k then i + 1 else i + 2];
    }
    forall i | 0 <= i < |d|
      ensures d[i].prev == At(d, i - 1)
    {
      var j := if i < k then i else i + 1;
      assert s[j].prev == At(s, if j - 1 == k then k - 1 else j - 1);
      assert i > 0 ==> d[i - 1] == s[if i - 1 < k then i - 1 else i];
    }
  }

  /** Connect the neighbours of the k-th entry. */
  method Bypass(e: Entry, ghost k: nat)
    requires e.bucket.Valid() && k < |e.bucket.entries| && e.bucket.entries[k] == e
    modifies e.bucket`first, Elems(e.bucket.entries)`next, Elems(e.bucket.entries)`prev
    ensures Skipping(e.bucket, e.bucket.entries, k)
  {
    if e.prev != null {
      e.prev.next := e.next;
    }
    if e.next != null {
      e.next.prev := e.prev;
    }
    if e.bucket.first == e {
      e.bucket.first := e.next;
    }
  }

  /** remove_nat_entry: unhook the k-th entry of its bucket and hand back its successor. */
  method RemoveEntry(e: Entry, ghost k: nat) returns (next: Entry?)
    requires e.bucket.Valid() && k < |e.bucket.entries| && e.bucket.entries[k] == e
    modifies e.bucket, Elems(e.bucket.entries)`next, Elems(e.bucket.entries)`prev
    ensures e.bucket.Valid() && e.bucket.entries == Without(old(e.bucket.entries), k)
    ensures next == At(e.bucket.entries, k)
    ensures e.bucket.Flows() == Without(old(e.bucket.Flows()), k)
  {
    hide FlowsOf, Without, Skipping;
    ghost var s := e.bucket.entries;
    WithoutAt(s, k);
    FlowsCut(s, k);
    next := e.next;
    Bypass(e, k);
    e.bucket.entries := Without(s, k);
    SkippingIsValid(e.bucket, s, k);
  }

  lemma SweepStep(fs: seq<Flow>, i: nat, now: Timespec)
    requires i < |fs|
    ensures Expired(fs[i], now) ==>
        Without(fs, i)[..i] + Fresh(Without(fs, i)[i..], now) == fs[..i] + Fresh(fs[i..], now)
    ensures !Expired(fs[i], now) ==> fs[..i + 1] + Fresh(fs[i + 1..], now) == fs[..i] + Fresh(fs[i..], now)
  {
    assert fs[i..][1..] == fs[i + 1..];
    assert Without(fs, i)[..i] == fs[..i] && Without(fs, i)[i..] == fs[i + 1..];
    assert fs[..i + 1] == fs[..i] + [fs[i]];
  }

  /** The inner loop of clean_nat_table: unhook the expired entries while walking the list. */
  method Sweep(b: NatBucket, now: Timespec)
    requires b.Valid()
    modifies b, Elems(b.entries)`next, Elems(b.entries)`prev
    ensures b.Valid() && b.Flows() == Fresh(old(b.Flows()), now)
    ensures Elems(b.entries) <= old(Elems(b.entries))
  {
    hide FlowsOf;
    var e := b.first;
    ghost var i := 0;
    while e != null
      invariant b.Valid() && i <= |b.entries| && e == At(b.entries, i)
      invariant Elems(b.entries) <= old(Elems(b.entries))
      invariant |b.Flows()| == |b.entries| && b.Flows()[..i] + Fresh(b.Flows()[i..], now) == Fresh(old(b.Flows()), now)
      decreases |b.entries| - i
    {
      FlowAt(b, i);
      SweepStep(b.Flows(), i, now);
      if TimeOffset(e.lastUsed, now) > NAT_CLEAN_TIME * 1000 {
        e := RemoveEntry(e, i);
      } else {
        e := e.next;
        i := i + 1;
      }
    }
    assert b.Flows()[..i] + [] == b.Flows();
  }

  lemma FlowAt(b: NatBucket, i: nat)
    requires i < |b.entries|
    ensures i < |b.Flows()| && b.Flows()[i] == b.entries[i].AsFlow()
  {
  }

  /** The entry loop of remove_nat_bucket. */
  method RemoveAllEntries(b: NatBucket)
    requires b.Valid()
    modifies b, Elems(b.entries)`next, Elems(b.entries)`prev
    ensures b.Valid() && b.entries == []
  {
    var e := b.first;
    while e != null
      invariant b.Valid() && e == b.first && Elems(b.entries) <= old(Elems(b.entries))
      decreases |b.entries|
    {
      e := RemoveEntry(e, 0);
    }
  }
}
