/** The NAT table of nat.c: a hash table of buckets, each with its list of entries, changed in
    place by every packet and by the cleaning pass. */
module Nat {
  import opened Chains
  import opened NatSpec
  import opened Timing
  import H = Handles
  import B = NatBuckets
  import U = UtHash

  type Link = H.Handle<B.NatBucket>

  /** The buckets of order are well linked and lie, with their entries, in the footprint. */
  ghost predicate Holds(order: seq<Link>, bs: set<B.NatBucket>, es: set<B.Entry>)
    reads bs, es
  {
    forall i {:trigger order[i]} :: 0 <= i < |order| ==>
      && order[i].elt in bs && order[i].elt.key == order[i].key
      && Elems(order[i].elt.entries) <= es && order[i].elt.Valid()
  }

  ghost function ViewOf(order: seq<Link>, bs: set<B.NatBucket>, es: set<B.Entry>): (t: Table)
    requires Holds(order, bs, es)
    reads bs, es
    ensures |t| == |order|
    ensures forall i :: 0 <= i < |t| ==> t[i] == Bucket(order[i].key, order[i].elt.Flows())
  {
    if order == [] then []
    else [Bucket(order[0].key, order[0].elt.Flows())] + ViewOf(order[1..], bs, es)
  }

  lemma HoldsMore(order: seq<Link>, bs: set<B.NatBucket>, es: set<B.Entry>, bs': set<B.NatBucket>, es': set<B.Entry>)
    requires Holds(order, bs, es) && bs <= bs' && es <= es'
    ensures Holds(order, bs', es') && ViewOf(order, bs', es') == ViewOf(order, bs, es)
  {
  }

  lemma HoldsSnoc(order: seq<Link>, h: Link, bs: set<B.NatBucket>, es: set<B.Entry>)
    requires Holds(order, bs, es) && h.elt.Valid() && h.elt.key == h.key && h.elt.entries == []
    ensures Holds(order + [h], bs + {h.elt}, es)
    ensures ViewOf(order + [h], bs + {h.elt}, es) == ViewOf(order, bs, es) + [Bucket(h.key, [])]
  {
    HoldsMore(order, bs, es, bs + {h.elt}, es);
  }

  /** What is known of the buckets other than the i-th. */
  ghost predicate RestHolds(order: seq<Link>, i: nat, t: Table, bs: set<B.NatBucket>, es: set<B.Entry>)
    reads bs, es
  {
    && |t| == |order|
    && forall j {:trigger order[j]} :: 0 <= j < |order| && j != i ==>
      && order[j].elt in bs && order[j].elt.key == order[j].key
      && Elems(order[j].elt.entries) <= es && order[j].elt.Valid()
      && t[j] == Bucket(order[j].key, order[j].elt.Flows())
  }

  lemma RestAndOne(order: seq<Link>, i: nat, t: Table, bs: set<B.NatBucket>, es: set<B.Entry>)
    requires i < |order| && RestHolds(order, i, t, bs, es)
    requires order[i].elt in bs && order[i].elt.key == order[i].key
    requires Elems(order[i].elt.entries) <= es && order[i].elt.Valid()
    ensures Holds(order, bs, es)
    ensures ViewOf(order, bs, es) == t[i := Bucket(order[i].key, order[i].elt.Flows())]
  {
  }

  class NatTable {
    const natTable: U.HashTable<B.NatBucket>
    ghost var bs: set<B.NatBucket>
    ghost var es: set<B.Entry>

    constructor (hashFcn: H.Key -> nat)
      ensures Valid() && View() == [] && fresh(Repr())
    {
      natTable := new U.HashTable<B.NatBucket>(hashFcn);
      bs, es := {}, {};
    }

    ghost function Frame(): set<object>
      reads this`bs, natTable
    {
      {this, natTable} + (set b | b in natTable.buckets) + (set h | h in natTable.order) + bs
    }

    ghost function Repr(): set<object>
      reads this`bs, this`es, natTable
    {
      Frame() + es
    }

    ghost predicate Valid()
      reads this, natTable, natTable.buckets, Elems(natTable.order), bs, es
    {
      natTable.Valid() && Holds(natTable.order, bs, es)
    }

    /** The table as a value. */
    ghost function View(): (t: Table)
      requires Holds(natTable.order, bs, es)
      reads this, natTable, bs, es
      ensures |t| == |natTable.order|
    {
      ViewOf(natTable.order, bs, es)
    }

    lemma KeysUnique()
      requires Valid()
      ensures UniqueLinks(natTable.order)
    {
    }

    /** A key is found in the value exactly where the handle with that key is linked. */
    lemma FindView(key: Key, j: nat)
      requires Valid() && j <= |natTable.order|
      requires j < |natTable.order| ==> natTable.order[j].key == key
      requires j == |natTable.order| ==> forall h :: h in natTable.order ==> h.key != key
      ensures FindBucket(View(), key) == j
    {
      hide U.HashTable.Listed, U.HashTable.Indexed, Holds;
      var i := FindBucket(View(), key);
      assert i < |View()| ==> natTable.order[i].key == key;
      assert i < |View()| ==> natTable.order[i] in natTable.order;
    }

    /** HASH_FIND_INT on the bucket table. */
    method FindTableBucket(key: Key) returns (h: H.Handle?<B.NatBucket>, ghost i: nat)
      requires Valid()
      ensures Valid() && View() == old(View()) && i == FindBucket(View(), key) && h == H.At(natTable.order, i)
    {
      hide U.HashTable.Listed, U.HashTable.Indexed, Holds, ViewOf;
      h := natTable.Find(key);
      if h != null {
        i :| 0 <= i < |natTable.order| && natTable.order[i] == h;
      } else {
        i := |natTable.order|;
      }
      FindView(key, i);
    }

    /** HASH_ADD_INT of a new empty bucket. */
    method AddHandle(h: Link)
      requires Valid() && h !in natTable.order && forall x :: x in natTable.order ==> x.key != h.key
      requires h.elt.Valid() && h.elt.key == h.key && h.elt.entries == []
      modifies this`bs, natTable, natTable.buckets, Elems(natTable.order), h
      ensures Valid() && bs == old(bs) + {h.elt} && es == old(es)
      ensures fresh(natTable.buckets) || natTable.buckets == old(natTable.buckets)
      ensures View() == old(View()) + [Bucket(h.key, [])]
      ensures natTable.order == old(natTable.order) + [h]
    {
      hide U.HashTable.Listed, U.HashTable.Indexed, U.HashTable.Crowds, ViewOf, Holds, Elems;
      ghost var s, t := natTable.order, View();
      natTable.Add(h);
      assert Holds(s, bs, es);
      assert ViewOf(s, bs, es) == t;
      HoldsSnoc(s, h, bs, es);
      bs := bs + {h.elt};
    }

    /** create_nat_bucket: link an empty bucket for a key that has none. */
    method CreateBucket(p: Packet, key: Key) returns (h: Link)
      requires Valid() && FindBucket(View(), key) == |View()|
      modifies Repr()
      ensures Valid() && fresh(Repr() - old(Repr()))
      ensures View() == old(View()) + [Bucket(key, [])]
      ensures natTable.order == old(natTable.order) + [h]
    {
      hide U.HashTable.Listed, U.HashTable.Indexed, U.HashTable.Crowds, ViewOf, Holds, FindBucket;
      AbsentKey(key);
      ghost var t := View();
      var bucket := new B.NatBucket(p, key);
      h := new H.Handle<B.NatBucket>(key, bucket);
      assert View() == t;
      AddHandle(h);
    }

    lemma AbsentKey(key: Key)
      requires Valid() && FindBucket(View(), key) == |View()|
      ensures forall h :: h in natTable.order ==> h.key != key
    {
      forall i | 0 <= i < |natTable.order|
        ensures natTable.order[i].key != key
      {
        assert View()[i].key == natTable.order[i].key;
      }
    }

    /** The table's own objects are not buckets or entries. */
    lemma Separate()
      ensures var own: set<object> := set b | b in natTable.buckets;
        var links: set<object> := Elems(natTable.order);
        var shown: set<object> := bs + es;
        own + links + {natTable} !! shown
    {
    }

    method TranslateAt(h: Link, p: Packet, now: Timespec, gateIP: Ip, ghost i: nat) returns (out: Packet)
      requires Valid() && i < |natTable.order| && natTable.order[i] == h
      modifies this`es, h.elt`first, h.elt`entries, Elems(h.elt.entries)`prev, Elems(h.elt.entries)`lastUsed
      ensures Valid() && fresh(es - old(es)) && old(es) <= es && Frame() == old(Frame())
      ensures (View(), out) == Translated(old(View()), i, p, now, gateIP)
    {
      hide U.HashTable.Valid, ViewOf, Holds, Translated, Frame;
      KeysUnique();
      Separate();
      ghost var es';
      out, es' := TranslateIn(h, p, now, gateIP, i, natTable.order, bs, es);
      es := es';
    }

    /** The bucket for a key, made if there is none. */
    method FindOrCreate(p: Packet, key: Key) returns (h: Link, ghost i: nat)
      requires Valid()
      modifies Repr()
      ensures Valid() && fresh(Repr() - old(Repr()))
      ensures View() == WithBucket(old(View()), key) && i == FindBucket(old(View()), key)
      ensures i < |natTable.order| && natTable.order[i] == h
      ensures this in Frame() && h.elt in Frame() && Elems(h.elt.entries) <= es
    {
      hide U.HashTable.Valid, ViewOf, Holds, Elems;
      var found;
      found, i := FindTableBucket(key);
      if found == null {
        h := CreateBucket(p, key);
      } else {
        h := found;
      }
      InFootprint(i);
    }

    lemma InFootprint(i: nat)
      requires Holds(natTable.order, bs, es) && i < |natTable.order|
      ensures natTable.order[i].elt in bs && Elems(natTable.order[i].elt.entries) <= es
      ensures View()[i] == Bucket(natTable.order[i].key, natTable.order[i].elt.Flows())
    {
    }

    /** do_nat_outbound_rewrite; gateIP is the address the gateway has hopped to. */
    method OutboundRewrite(p: Packet, now: Timespec, gateIP: Ip) returns (out: Packet)
      requires Valid()
      modifies Repr()
      ensures Valid()
      ensures fresh(Repr() - old(Repr()))
      ensures (View(), out) == Outbound(old(View()), p, now, gateIP)
    {
      hide U.HashTable.Valid, ViewOf, Holds, Translated, FindBucket, WithBucket, Frame;
      var h, i := FindOrCreate(p, BucketKey(p.daddr, p.dport));
      out := TranslateAt(h, p, now, gateIP, i);
    }

    method ReverseAt(h: Link, p: Packet, now: Timespec, ghost i: nat) returns (e: B.Entry?)
      requires Valid() && i < |natTable.order| && natTable.order[i] == h
      modifies Elems(h.elt.entries)`lastUsed
      ensures Valid()
      ensures var fs := old(View()[i].flows);
        var k := FindExternal(fs, p.proto, p.daddr, p.dport);
        if k == |fs| then e == null && View() == old(View())
        else
          && e != null && e.AsFlow() == Touch(fs, k, now)[k]
          && View() == old(View())[i := Bucket(h.key, Touch(fs, k, now))]
    {
      hide U.HashTable.Valid, ViewOf, Holds;
      KeysUnique();
      Separate();
      e := ReverseIn(h, p, now, i, natTable.order, bs, es);
    }

    /** do_nat_inbound_rewrite. */
    method InboundRewrite(p: Packet, now: Timespec) returns (r: Result<Packet>)
      requires Valid()
      modifies es`lastUsed
      ensures Valid() && Repr() == old(Repr())
      ensures match Inbound(old(View()), p, now)
        case Ok(x) => View() == x.0 && r == Ok(x.1)
        case Err(e) => View() == old(View()) && r == Err(e)
    {
      hide U.HashTable.Valid, ViewOf, Holds, FindBucket, FindExternal, Touch;
      var key := BucketKey(p.saddr, p.sport);
      var h, i := FindTableBucket(key);
      if h == null {
        return Err(BucketNotFound);
      }
      InFootprint(i);
      var e := ReverseAt(h, p, now, i);
      if e == null {
        return Err(EntryNotFound);
      }
      r := Ok(WithDest(p, e.intIP, e.intPort));
    }

    /** Walk the table in insertion order. */
    lemma NextLink(i: nat)
      requires natTable.Valid() && i < |natTable.order|
      ensures natTable.head == natTable.order[0] && natTable.order[i].next == H.At(natTable.order, i + 1)
    {
    }

    /** Take the expired entries out of the i-th bucket. */
    method SweepAt(h: Link, now: Timespec, ghost i: nat)
      requires Valid() && i < |natTable.order| && natTable.order[i] == h
      modifies h.elt, Elems(h.elt.entries)`next, Elems(h.elt.entries)`prev
      ensures Valid()
      ensures View() == old(View())[i := Bucket(h.key, Fresh(old(View()[i].flows), now))]
      ensures h.elt.first == null <==> View()[i].flows == []
    {
      hide U.HashTable.Valid, ViewOf, Holds, Fresh;
      KeysUnique();
      Separate();
      SweepIn(h, now, i, natTable.order, bs, es);
    }

    /** Free the entries of the i-th bucket. */
    method EmptyAt(h: Link, ghost i: nat)
      requires Valid() && i < |natTable.order| && natTable.order[i] == h
      modifies h.elt, Elems(h.elt.entries)`next, Elems(h.elt.entries)`prev
      ensures Valid() && View() == old(View())[i := Bucket(h.key, [])]
    {
      hide U.HashTable.Valid, ViewOf, Holds;
      KeysUnique();
      Separate();
      EmptyIn(h, i, natTable.order, bs, es);
    }

    /** HASH_DEL of the i-th bucket. */
    method DeleteAt(h: Link, ghost i: nat)
      requires Valid() && i < |natTable.order| && natTable.order[i] == h
      modifies natTable, natTable.buckets, Elems(natTable.order)
      ensures Valid() && natTable.buckets == old(natTable.buckets)
      ensures natTable.order == Without(old(natTable.order), i)
      ensures View() == Without(old(View()), i)
    {
      hide U.HashTable.Valid, ViewOf, Holds;
      KeysUnique();
      Separate();
      HoldsWithout(natTable.order, i, bs, es);
      ghost var rest := Without(natTable.order, i);
      ghost var k := natTable.Delete(h);
      assert k == i;
    }

    /** remove_nat_bucket: free the entries, unlink the i-th bucket, hand back its successor. */
    method RemoveBucket(h: Link, ghost i: nat) returns (next: H.Handle?<B.NatBucket>)
      requires Valid() && i < |natTable.order| && natTable.order[i] == h
      modifies Repr()
      ensures Valid() && Repr() <= old(Repr())
      ensures natTable.order == Without(old(natTable.order), i)
      ensures View() == Without(old(View()), i)
      ensures next == H.At(natTable.order, i)
    {
      hide U.HashTable.Valid, ViewOf, Holds, View;
      NextLink(i);
      InFootprint(i);
      next := h.next;
      EmptyAt(h, i);
      DeleteAt(h, i);
    }

    /** Clean the bucket b, the i-th, and move on to the next one. */
    method CleanNext(b: Link, now: Timespec, ghost i: nat, ghost goal: Table)
      returns (next: H.Handle?<B.NatBucket>, ghost n: nat)
      requires Valid() && i < |natTable.order| && natTable.order[i] == b
      requires View()[..i] + Cleaned(View()[i..], now) == goal
      modifies Repr()
      ensures Valid() && Repr() <= old(Repr())
      ensures n <= |natTable.order| == |View()| && next == H.At(natTable.order, n)
      ensures |natTable.order| - n < |old(natTable.order)| - i
      ensures View()[..n] + Cleaned(View()[n..], now) == goal
    {
      hide U.HashTable.Valid, ViewOf, Holds, Cleaned, Fresh;
      CleanStep(View(), i, now);
      InFootprint(i);
      SweepAt(b, now, i);
      if b.elt.first == null {
        next := RemoveBucket(b, i);
        n := i;
      } else {
        NextLink(i);
        next := b.next;
        n := i + 1;
      }
    }

    /** clean_nat_table. */
    method Clean(now: Timespec)
      requires Valid()
      modifies Repr()
      ensures Valid() && Repr() <= old(Repr())
      ensures View() == Cleaned(old(View()), now)
    {
      hide U.HashTable.Valid, ViewOf, Holds, Fresh, Cleaned;
      HeadLink();
      CleanedNothing(now);
      var b := natTable.head;
      ghost var i: nat := 0;
      ghost var t := View();
      ghost var goal := Cleaned(t, now);
      assert t[..0] + Cleaned(t[0..], now) == goal;
      while b != null
        invariant Valid() && Repr() <= old(Repr()) && t == View()
        invariant i <= |t| && |t| == |natTable.order| && b == H.At(natTable.order, i)
        invariant t[..i] + Cleaned(t[i..], now) == goal
        decreases |t| - i
      {
        b, i := CleanNext(b, now, i, goal);
        t := View();
      }
      assert t[..i] + [] == t;
    }

    lemma HeadLink()
      requires natTable.Valid()
      ensures natTable.head == H.At(natTable.order, 0)
    {
    }

    /** empty_nat_table. */
    method Empty()
      requires Valid()
      modifies Repr()
      ensures Valid() && Repr() <= old(Repr()) && View() == []
    {
      hide U.HashTable.Valid, ViewOf, Holds;
      HeadLink();
      var b := natTable.head;
      while b != null
        invariant Valid() && Repr() <= old(Repr()) && b == H.At(natTable.order, 0)
        decreases |natTable.order|
      {
        b := RemoveBucket(b, 0);
      }
    }
  }

  ghost predicate UniqueLinks(order: seq<Link>) {
    forall i, j :: 0 <= i < j < |order| ==> order[i].key != order[j].key
  }

  /** Translate an outbound packet in the i-th bucket; the others are not disturbed. */
  method TranslateIn(h: Link, p: Packet, now: Timespec, gateIP: Ip, ghost i: nat,
                     ghost order: seq<Link>, ghost bs: set<B.NatBucket>, ghost es: set<B.Entry>)
    returns (out: Packet, ghost es': set<B.Entry>)
    requires Holds(order, bs, es) && UniqueLinks(order) && i < |order| && order[i] == h
    modifies h.elt`first, h.elt`entries, Elems(h.elt.entries)`prev, Elems(h.elt.entries)`lastUsed
    ensures Holds(order, bs, es') && fresh(es' - es) && es <= es'
    ensures (ViewOf(order, bs, es'), out) == Translated(old(ViewOf(order, bs, es)), i, p, now, gateIP)
  {
    hide ViewOf, B.FlowsOf;
    ghost var t := ViewOf(order, bs, es);
    var e := h.elt.Translate(p, now, gateIP);
    out := WithSource(p, e.gateIP, e.gatePort);
    es' := es + Elems(h.elt.entries);
    forall j | 0 <= j < |order| && j != i
      ensures order[j].elt.Valid() && order[j].elt.Flows() == t[j].flows
    {
      assert order[j].elt != h.elt;
    }
    RestAndOne(order, i, t, bs, es');
  }

  /** Look an inbound packet up in the i-th bucket; the others are not disturbed. */
  method ReverseIn(h: Link, p: Packet, now: Timespec, ghost i: nat,
                   ghost order: seq<Link>, ghost bs: set<B.NatBucket>, ghost es: set<B.Entry>)
    returns (e: B.Entry?)
    requires Holds(order, bs, es) && UniqueLinks(order) && i < |order| && order[i] == h
    modifies Elems(h.elt.entries)`lastUsed
    ensures Holds(order, bs, es)
    ensures var fs := old(ViewOf(order, bs, es)[i].flows);
      var k := FindExternal(fs, p.proto, p.daddr, p.dport);
      if k == |fs| then e == null && ViewOf(order, bs, es) == old(ViewOf(order, bs, es))
      else e != null && ViewOf(order, bs, es) == old(ViewOf(order, bs, es))[i := Bucket(h.key, Touch(fs, k, now))]
           && e.AsFlow() == Touch(fs, k, now)[k]
  {
    hide ViewOf, B.FlowsOf;
    ghost var t := ViewOf(order, bs, es);
    e := h.elt.Reverse(p, now);
    forall j | 0 <= j < |order| && j != i
      ensures order[j].elt.Valid() && order[j].elt.Flows() == t[j].flows
    {
      assert order[j].elt != h.elt;
    }
    RestAndOne(order, i, t, bs, es);
  }

  /** Sweep the i-th bucket; the others are not disturbed. */
  method SweepIn(h: Link, now: Timespec, ghost i: nat,
                 ghost order: seq<Link>, ghost bs: set<B.NatBucket>, ghost es: set<B.Entry>)
    requires Holds(order, bs, es) && UniqueLinks(order) && i < |order| && order[i] == h
    modifies h.elt, Elems(h.elt.entries)`next, Elems(h.elt.entries)`prev
    ensures Holds(order, bs, es)
    ensures ViewOf(order, bs, es) ==
        old(ViewOf(order, bs, es))[i := Bucket(h.key, Fresh(old(ViewOf(order, bs, es)[i].flows), now))]
    ensures h.elt.first == null <==> ViewOf(order, bs, es)[i].flows == []
  {
    hide ViewOf, B.FlowsOf, Fresh;
    ghost var t := ViewOf(order, bs, es);
    B.Sweep(h.elt, now);
    forall j | 0 <= j < |order| && j != i
      ensures order[j].elt.Valid() && order[j].elt.Flows() == t[j].flows
    {
      assert order[j].elt != h.elt;
    }
    RestAndOne(order, i, t, bs, es);
    B.FlowsLength(h.elt.entries);
  }

  lemma HoldsWithout(order: seq<Link>, i: nat, bs: set<B.NatBucket>, es: set<B.Entry>)
    requires Holds(order, bs, es) && i < |order|
    ensures Holds(Without(order, i), bs, es)
    ensures ViewOf(Without(order, i), bs, es) == Without(ViewOf(order, bs, es), i)
  {
    hide ViewOf;
    var rest := Without(order, i);
    assert forall j :: 0 <= j < |rest| ==> rest[j] == order[if j < i then j else j + 1];
    var t := Without(ViewOf(order, bs, es), i);
    assert forall j :: 0 <= j < |t| ==> t[j] == ViewOf(order, bs, es)[if j < i then j else j + 1];
  }

  /** Free the entries of the i-th bucket; the others are not disturbed. */
  method EmptyIn(h: Link, ghost i: nat, ghost order: seq<Link>, ghost bs: set<B.NatBucket>, ghost es: set<B.Entry>)
    requires Holds(order, bs, es) && UniqueLinks(order) && i < |order| && order[i] == h
    modifies h.elt, Elems(h.elt.entries)`next, Elems(h.elt.entries)`prev
    ensures Holds(order, bs, es)
    ensures ViewOf(order, bs, es) == old(ViewOf(order, bs, es))[i := Bucket(h.key, [])]
  {
    hide ViewOf;
    ghost var t := ViewOf(order, bs, es);
    B.RemoveAllEntries(h.elt);
    forall j | 0 <= j < |order| && j != i
      ensures order[j].elt.Valid() && order[j].elt.Flows() == t[j].flows
    {
      assert order[j].elt != h.elt;
    }
    RestAndOne(order, i, t, bs, es);
  }

  /** One bucket of a cleaning pass: swept in place, and unlinked if that leaves it empty. */
  lemma CleanStep(t: Table, i: nat, now: Timespec)
    requires i < |t|
    ensures var fs := Fresh(t[i].flows, now);
      var swept := t[i := Bucket(t[i].key, fs)];
      var all := t[..i] + Cleaned(t[i..], now);
      && (fs == [] ==> Without(swept, i)[..i] + Cleaned(Without(swept, i)[i..], now) == all)
      && (fs != [] ==> swept[..i + 1] + Cleaned(swept[i + 1..], now) == all)
  {
    var fs := Fresh(t[i].flows, now);
    var swept := t[i := Bucket(t[i].key, fs)];
    assert t[i..][1..] == t[i + 1..];
    assert Without(swept, i)[..i] == t[..i] && Without(swept, i)[i..] == t[i + 1..];
    assert swept[i + 1..] == t[i + 1..] && swept[..i + 1] == t[..i] + [Bucket(t[i].key, fs)];
  }

  lemma CleanedNothing(now: Timespec)
    ensures Cleaned([], now) == []
  {
  }
}
