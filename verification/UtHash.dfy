/** The intrusive hash table of uthash.h: bucket chains threaded through hhPrev/hhNext and an
    insertion-order list threaded through prev/next, both over the same handles. */
module UtHash {
  import opened Chains
  import opened Handles
  import opened ListSort
  import opened MergeSort

  const INITIAL_NUM_BUCKETS: nat := 32
  const INITIAL_NUM_BUCKETS_LOG2: nat := 5
  const BKT_CAPACITY_THRESH: nat := 10

  class Bucket<T> {
    var hhHead: Handle?<T>
    var count: nat
    var expandMult: nat

    constructor ()
      ensures Chained([]) && expandMult == 0
    {
      hhHead, count, expandMult := null, 0, 0;
    }

    /** This bucket's pointers and counter spell out the chain c. */
    ghost predicate Chained(c: seq<Handle<T>>)
      reads this`hhHead, this`count, c`hhPrev, c`hhNext
    {
      && count == |c|
      && hhHead == At(c, 0)
      && Distinct(c)
      && (forall i {:trigger c[i].hhNext} :: 0 <= i < |c| ==> c[i].hhNext == At(c, i + 1))
      && (forall i {:trigger c[i].hhPrev} :: 0 <= i < |c| ==> c[i].hhPrev == At(c, i - 1))
    }

    method Push(h: Handle<T>, ghost c: seq<Handle<T>>)
      requires Chained(c) && h !in c
      modifies this`hhHead, this`count, h`hhPrev, h`hhNext, Elems(c)`hhPrev
      ensures Chained([h] + c)
    {
      count := count + 1;
      h.hhNext := hhHead;
      h.hhPrev := null;
      if hhHead != null {
        hhHead.hhPrev := h;
      }
      hhHead := h;
    }

    method Remove(h: Handle<T>, ghost c: seq<Handle<T>>, ghost k: nat)
      requires Chained(c) && k < |c| && c[k] == h
      modifies this`hhHead, this`count, Elems(c)`hhPrev, Elems(c)`hhNext
      ensures Chained(Without(c, k))
    {
      count := count - 1;
      if hhHead == h {
        hhHead := h.hhNext;
      }
      if h.hhPrev != null {
        h.hhPrev.hhNext := h.hhNext;
      }
      if h.hhNext != null {
        h.hhNext.hhPrev := h.hhPrev;
      }
    }
  }

  ghost predicate Within<T>(cs: seq<seq<Handle<T>>>, hs: set<Handle<T>>) {
    forall j, h :: 0 <= j < |cs| && h in cs[j] ==> h in hs
  }

  /** Every bucket spells out its chain of handles taken from hs; buckets are not shared. */
  ghost predicate AllChained<T>(bs: seq<Bucket<T>>, cs: seq<seq<Handle<T>>>, hs: set<Handle<T>>)
    reads bs`hhHead, bs`count, hs`hhPrev, hs`hhNext
  {
    && |bs| == |cs|
    && Distinct(bs)
    && Within(cs, hs)
    && (forall j :: 0 <= j < |bs| ==> bs[j].Chained(cs[j]))
  }

  method NewBuckets<T>(n: nat) returns (bs: seq<Bucket<T>>)
    ensures |bs| == n && fresh(bs)
    ensures AllChained(bs, Empties(n), {})
    ensures forall j :: 0 <= j < n ==> bs[j].expandMult == 0
  {
    bs := [];
    while |bs| < n
      invariant |bs| <= n && fresh(bs) && Distinct(bs)
      invariant forall j :: 0 <= j < |bs| ==> bs[j].Chained([]) && bs[j].expandMult == 0
    {
      var b := new Bucket<T>();
      bs := bs + [b];
    }
  }

  /** Push h on bucket b, the j-th; the other buckets are not disturbed. */
  method PushAt<T>(b: Bucket<T>, h: Handle<T>, ghost bs: seq<Bucket<T>>, ghost j: nat,
                   ghost cs: seq<seq<Handle<T>>>, ghost hs: set<Handle<T>>)
    requires AllChained(bs, cs, hs) && Apart(cs) && j < |bs| && b == bs[j]
    requires h in hs && forall i :: 0 <= i < |cs| ==> h !in cs[i]
    modifies b`hhHead, b`count, h`hhPrev, h`hhNext, Elems(cs[j])`hhPrev
    ensures AllChained(bs, cs[j := [h] + cs[j]], hs) && Apart(cs[j := [h] + cs[j]])
  {
    b.Push(h, cs[j]);
    ghost var r := cs[j := [h] + cs[j]];
    forall i | 0 <= i < |bs|
      ensures bs[i].Chained(r[i])
    {
      if i != j {
        assert cs[i] == r[i] && h !in cs[i] && bs[i] != b;
        assert forall x :: x in cs[i] ==> x !in cs[j];
      }
    }
  }

  /** Take h off bucket b, the j-th; the other buckets are not disturbed. */
  method RemoveAt<T>(b: Bucket<T>, h: Handle<T>, ghost bs: seq<Bucket<T>>, ghost j: nat, ghost i: nat,
                     ghost cs: seq<seq<Handle<T>>>, ghost hs: set<Handle<T>>)
    requires AllChained(bs, cs, hs) && Apart(cs) && j < |bs| && b == bs[j]
    requires i < |cs[j]| && cs[j][i] == h
    modifies b`hhHead, b`count, Elems(cs[j])`hhPrev, Elems(cs[j])`hhNext
    ensures AllChained(bs, DropAt(cs, j, i), hs)
  {
    WithoutMembers(cs[j], i);
    b.Remove(h, cs[j], i);
    ghost var r := DropAt(cs, j, i);
    forall k | 0 <= k < |bs|
      ensures bs[k].Chained(r[k])
    {
      if k != j {
        assert cs[k] == r[k] && bs[k] != b;
        assert forall x :: x in cs[k] ==> x !in cs[j];
      }
    }
  }

  class HashTable<T> {
    const hashFcn: Key -> nat
    var head: Handle?<T>
    var tail: Handle?<T>
    var buckets: seq<Bucket<T>>
    var numBuckets: nat
    var log2NumBuckets: nat
    var numItems: nat
    var idealChainMaxlen: nat
    var nonidealItems: nat
    var ineffExpands: nat
    var noexpand: bool

    ghost var order: seq<Handle<T>>           // the elements in insertion order
    ghost var chains: seq<seq<Handle<T>>>     // the bucket chains, front to back

    constructor (hashFcn: Key -> nat)
      ensures Valid() && order == [] && buckets == [] && this.hashFcn == hashFcn
    {
      this.hashFcn := hashFcn;
      head, tail, buckets := null, null, [];
      numBuckets, log2NumBuckets, numItems, idealChainMaxlen := 0, 0, 0, 0;
      nonidealItems, ineffExpands, noexpand := 0, 0, false;
      order, chains := [], [];
    }

    ghost function Hash(): Handle<T> -> nat {
      (h: Handle<T>) => hashFcn(h.key)
    }

    /** head, tail, prev and next spell out s (tail means nothing in an empty table). */
    ghost predicate Listed(s: seq<Handle<T>>)
      reads this`head, this`tail, s`prev, s`next
    {
      head == At(s, 0) && (s != [] ==> Whole(head, tail, s))
    }

    static ghost predicate DistinctKeys(s: seq<Handle<T>>) {
      forall i, j :: 0 <= i < j < |s| ==> s[i].key != s[j].key
    }

    ghost predicate Indexed(hs: set<Handle<T>>)
      reads this`buckets, this`chains, this`numBuckets, this`log2NumBuckets, this`numItems, buckets`hhHead,
            buckets`count, hs`hhPrev, hs`hhNext
    {
      && numBuckets == |buckets| == Pow2(log2NumBuckets)
      && AllChained(buckets, chains, hs)
      && Placed(chains, hs, Hash())
      && TotalLen(chains) == numItems
    }

    ghost predicate Valid()
      reads this, buckets, Elems(order)
    {
      && Listed(order)
      && DistinctKeys(order)
      && numItems == |order|
      && (order != [] ==> Indexed(Elems(order)))
    }

    /** Append to the insertion-order list. */
    method Append(h: Handle<T>)
      requires Listed(order) && order != [] && h !in order
      modifies this`tail, this`order, h`prev, h`next, Elems(order)`next
      ensures order == old(order) + [h] && Listed(order)
    {
      h.next := null;
      tail.next := h;
      h.prev := tail;
      tail := h;
      order := order + [h];
    }

    /** head, tail, prev and next spell out s without its k-th handle, told by s's indices. */
    ghost predicate Skipping(s: seq<Handle<T>>, k: nat)
      requires k < |s|
      reads this`head, this`tail, s`prev, s`next
    {
      && head == At(s, if k == 0 then 1 else 0)
      && (|s| > 1 ==> tail == At(s, if k == |s| - 1 then |s| - 2 else |s| - 1))
      && (forall i {:trigger s[i].next} :: 0 <= i < |s| && i != k ==>
          s[i].next == At(s, if i + 1 == k then k + 1 else i + 1))
      && (forall i {:trigger s[i].prev} :: 0 <= i < |s| && i != k ==>
          s[i].prev == At(s, if i - 1 == k then k - 1 else i - 1))
    }

    lemma SkippingIsListed(s: seq<Handle<T>>, k: nat)
      requires k < |s| && Distinct(s) && Skipping(s, k)
      ensures Listed(Without(s, k))
    {
      WithoutMembers(s, k);
      var d := Without(s, k);
      assert forall i :: 0 <= i < |d| ==> d[i] == s[if i < k then i else i + 1];
      forall i | 0 <= i < |d|
        ensures d[i].next == At(d, i + 1)
      {
        var j := if i < k then i else i + 1;
        assert s[j].next == At(s, if j + 1 == k then k + 1 else j + 1);
      }
      forall i | 0 <= i < |d|
        ensures d[i].prev == At(d, i - 1)
      {
        var j := if i < k then i else i + 1;
        assert s[j].prev == At(s, if j - 1 == k then k - 1 else j - 1);
      }
      assert d != [] ==> Whole(head, tail, d);
    }

    /** Take h out of the insertion-order list. */
    method Unlist(h: Handle<T>, ghost k: nat)
      requires Listed(order) && |order| > 1 && k < |order| && order[k] == h
      modifies this`head, this`tail, this`order, Elems(order)`prev, Elems(order)`next
      ensures order == Without(old(order), k) && Listed(order)
    {
      if h == tail {
        tail := h.prev;
      }
      if h.prev != null {
        h.prev.next := h.next;
      } else {
        head := h.next;
      }
      if h.next != null {
        h.next.prev := h.prev;
      }
      SkippingIsListed(order, k);
      order := Without(order, k);
    }

    method InitBuckets(n: nat, log2: nat)
      requires n == Pow2(log2) > 0
      modifies this`buckets, this`numBuckets, this`log2NumBuckets, this`numItems, this`chains
      ensures fresh(buckets) && numItems == 0 && numBuckets == n && log2NumBuckets == log2
      ensures Indexed({})
      ensures forall b :: b in buckets ==> b.expandMult == 0
      ensures forall j :: 0 <= j < |chains| ==> chains[j] == []
    {
      buckets := NewBuckets(n);
      numBuckets, log2NumBuckets, numItems := n, log2, 0;
      chains := Empties(n);
      EmptiesPlaced(chains, Hash());
    }

    method MakeTable()
      modifies this`tail, this`buckets, this`numBuckets, this`log2NumBuckets, this`numItems, this`chains,
        this`idealChainMaxlen, this`nonidealItems, this`ineffExpands, this`noexpand
      ensures tail == head && fresh(buckets) && numItems == 0 && Indexed({})
      ensures numBuckets == INITIAL_NUM_BUCKETS == 32 && log2NumBuckets == INITIAL_NUM_BUCKETS_LOG2 == 5
      ensures idealChainMaxlen == nonidealItems == ineffExpands == 0 && !noexpand
      ensures forall b :: b in buckets ==> b.expandMult == 0
      ensures forall j :: 0 <= j < |chains| ==> chains[j] == []
    {
      tail := head;
      Pow2Five();
      InitBuckets(INITIAL_NUM_BUCKETS, INITIAL_NUM_BUCKETS_LOG2);
      idealChainMaxlen, nonidealItems, ineffExpands, noexpand := 0, 0, 0, false;
    }

    method Find(key: Key) returns (out: Handle?<T>)
      requires Valid()
      ensures out == null ==> forall h :: h in order ==> h.key != key
      ensures out != null ==> out in order && out.key == key
    {
      out := null;
      if head != null {
        var bkt := hashFcn(key) % numBuckets;
        out := buckets[bkt].hhHead;
        ghost var c := chains[bkt];
        ghost var i := 0;
        assert forall h :: h in order && h.key == key ==> h in c by {
          forall h | h in order && h.key == key ensures h in c {
            assert Has(chains, h, Hash());
          }
        }
        while out != null
          invariant 0 <= i <= |c| && out == At(c, i)
          invariant forall j :: 0 <= j < i ==> c[j].key != key
          decreases |c| - i
        {
          if out.key == key {
            assert c[i] in c && c[i] in Elems(order);
            break;
          }
          out := out.hhNext;
          i := i + 1;
        }
      }
    }

    static function Multiplier(len: nat, ideal: nat): (r: nat)
      requires ideal > 0
      ensures if len <= ideal then r == 0 else r * ideal <= len < (r + 1) * ideal
    {
      assert len == len / ideal * ideal + len % ideal && (len / ideal + 1) * ideal == len / ideal * ideal + ideal;
      if len > ideal then len / ideal else 0
    }

    static ghost predicate Multipliers(bs: seq<Bucket<T>>, cs: seq<seq<Handle<T>>>, ideal: nat)
      requires ideal > 0 && |bs| == |cs|
      reads bs`expandMult
    {
      forall j :: 0 <= j < |bs| ==> bs[j].expandMult == Multiplier(|cs[j]|, ideal)
    }

    /** Put h in its new bucket, counting it when it lands beyond the ideal length. */
    method Rehome(b: Bucket<T>, h: Handle<T>, ghost j: nat, ghost nb: seq<Bucket<T>>, ghost nc: seq<seq<Handle<T>>>,
                  ghost hs: set<Handle<T>>)
      requires AllChained(nb, nc, hs) && Apart(nc) && idealChainMaxlen > 0
      requires j < |nb| && b == nb[j]
      requires h in hs && forall i :: 0 <= i < |nc| ==> h !in nc[i]
      requires Multipliers(nb, nc, idealChainMaxlen)
      modifies this`nonidealItems, b, h`hhPrev, h`hhNext, Elems(nc[j])`hhPrev
      ensures AllChained(nb, nc[j := [h] + nc[j]], hs)
      ensures Multipliers(nb, nc[j := [h] + nc[j]], idealChainMaxlen)
      ensures nonidealItems == old(nonidealItems) + (if 1 + |nc[j]| > idealChainMaxlen then 1 else 0)
    {
      PushAt(b, h, nb, j, nc, hs);
      if b.count > idealChainMaxlen {
        nonidealItems := nonidealItems + 1;
        b.expandMult := b.count / idealChainMaxlen;
      }
    }

    /** The state of a doubling under way: cs is what the new buckets hold so far. */
    ghost predicate Rehashing(nb: seq<Bucket<T>>, cs: seq<seq<Handle<T>>>, hs: set<Handle<T>>)
      reads this`idealChainMaxlen, this`nonidealItems, nb, hs`hhPrev, hs`hhNext
    {
      && AllChained(nb, cs, hs)
      && Sorted(cs, Hash())
      && idealChainMaxlen > 0
      && Multipliers(nb, cs, idealChainMaxlen)
      && nonidealItems == Excess(cs, idealChainMaxlen)
    }

    /** The handles of c can be walked through hhNext from first. */
    static ghost predicate Walkable(first: Handle?<T>, c: seq<Handle<T>>)
      reads c`hhNext
    {
      && Distinct(c)
      && first == At(c, 0)
      && (forall i {:trigger c[i].hhNext} :: 0 <= i < |c| ==> c[i].hhNext == At(c, i + 1))
    }

    method RehashOne(h: Handle<T>, nb: seq<Bucket<T>>, ghost cs: seq<seq<Handle<T>>>, ghost hs: set<Handle<T>>)
      requires Rehashing(nb, cs, hs) && h in hs && !Has(cs, h, Hash())
      modifies this`nonidealItems, nb, hs`hhPrev, h`hhNext
      ensures Rehashing(nb, PushOn(cs, h, Hash()), hs)
    {
      var j := hashFcn(h.key) % |nb|;
      SortedApart(cs, Hash());
      ExcessGrow(cs, j, [h] + cs[j], idealChainMaxlen);
      PushOnMembers(cs, h, Hash());
      Rehome(nb[j], h, j, nb, cs, hs);
    }

    /** The handles of c still wait to be moved. */
    ghost predicate Pending(c: seq<Handle<T>>, cs: seq<seq<Handle<T>>>, hs: set<Handle<T>>)
      requires |cs| > 0
    {
      forall h :: h in c ==> h in hs && !Has(cs, h, Hash())
    }

    lemma PendingStep(c: seq<Handle<T>>, cs: seq<seq<Handle<T>>>, hs: set<Handle<T>>)
      requires Sorted(cs, Hash()) && Distinct(c) && c != [] && Pending(c, cs, hs)
      ensures Distinct(c[1..]) && Pending(c[1..], PushOn(cs, c[0], Hash()), hs)
    {
      PushOnMembers(cs, c[0], Hash());
    }

    lemma WalkStep(c: seq<Handle<T>>)
      requires c != [] && Walkable(c[0], c)
      ensures Walkable(c[0].hhNext, c[1..])
      ensures c[0] !in c[1..]
    {
      forall i | 0 <= i < |c[1..]|
        ensures c[1..][i].hhNext == At(c[1..], i + 1)
      {
        assert c[1..][i] == c[i + 1];
      }
    }

    /** Move one old chain over. */
    method Drain(first: Handle?<T>, nb: seq<Bucket<T>>, ghost c: seq<Handle<T>>, ghost cs: seq<seq<Handle<T>>>,
                 ghost hs: set<Handle<T>>)
      requires Rehashing(nb, cs, hs) && Walkable(first, c) && Pending(c, cs, hs)
      modifies this`nonidealItems, nb, hs`hhPrev, Elems(c)`hhNext
      ensures Rehashing(nb, Spread(c, cs, Hash()), hs)
    {
      var thh := first;
      ghost var rest: seq<Handle<T>> := c;
      ghost var cur: seq<seq<Handle<T>>> := cs;
      while thh != null
        invariant Walkable(thh, rest) && Elems(rest) <= Elems(c)
        invariant Rehashing(nb, cur, hs) && Pending(rest, cur, hs)
        invariant Spread(rest, cur, Hash()) == Spread(c, cs, Hash())
        decreases |rest|
      {
        var nxt := thh.hhNext;
        WalkStep(rest);
        PendingStep(rest, cur, hs);
        RehashOne(thh, nb, cur, hs);
        cur := PushOn(cur, rest[0], Hash());
        rest := rest[1..];
        thh := nxt;
      }
    }

    /** The old chains not yet walked, and everything on them still to be moved. */
    ghost predicate Waiting(bs: seq<Bucket<T>>, cs: seq<seq<Handle<T>>>, cur: seq<seq<Handle<T>>>, hs: set<Handle<T>>)
      reads bs`hhHead, hs`hhNext
    {
      && |bs| == |cs| && |cur| > 0
      && Within(cs, hs)
      && (forall j :: 0 <= j < |cs| ==> Walkable(bs[j].hhHead, cs[j]) && Pending(cs[j], cur, hs))
      && Apart(cs)
    }

    lemma WaitingStep(bs: seq<Bucket<T>>, cs: seq<seq<Handle<T>>>, cur: seq<seq<Handle<T>>>, hs: set<Handle<T>>)
      requires Waiting(bs, cs, cur, hs) && Sorted(cur, Hash()) && cs != []
      ensures Waiting(bs[1..], cs[1..], Spread(cs[0], cur, Hash()), hs)
    {
      var next := Spread(cs[0], cur, Hash());
      SpreadMembers(cs[0], cur, Hash());
      assert forall j :: 0 <= j < |cs[1..]| ==> cs[1..][j] == cs[j + 1] && bs[1..][j] == bs[j + 1];
    }

    /** Move the first waiting chain; the others keep waiting. */
    method DrainFirst(first: Handle?<T>, nb: seq<Bucket<T>>, ghost bs: seq<Bucket<T>>, ghost cs: seq<seq<Handle<T>>>,
                      ghost cur: seq<seq<Handle<T>>>, ghost hs: set<Handle<T>>)
      requires Rehashing(nb, cur, hs) && Waiting(bs, cs, cur, hs) && cs != [] && first == bs[0].hhHead
      requires forall b :: b in nb ==> b !in bs
      modifies this`nonidealItems, nb, hs`hhPrev, hs`hhNext
      ensures Rehashing(nb, Spread(cs[0], cur, Hash()), hs)
      ensures Waiting(bs[1..], cs[1..], Spread(cs[0], cur, Hash()), hs)
    {
      WaitingStep(bs, cs, cur, hs);
      ghost var rest := cs[1..];
      assert forall j, h :: 0 <= j < |rest| && h in rest[j] ==> h !in cs[0] by {
        assert forall j :: 0 <= j < |rest| ==> rest[j] == cs[j + 1];
      }
      Drain(first, nb, cs[0], cur, hs);
      forall j | 0 <= j < |rest|
        ensures Walkable(bs[1..][j].hhHead, rest[j])
      {
        ghost var c := rest[j];
        assert bs[1..][j] == bs[j + 1] && c == cs[j + 1];
        forall i | 0 <= i < |c|
          ensures c[i].hhNext == At(c, i + 1)
        {
          assert c[i] in c && old(c[i].hhNext) == At(c, i + 1);
        }
        assert bs[j + 1] in bs && bs[j + 1] !in nb;
        assert bs[j + 1].hhHead == old(bs[j + 1].hhHead);
        assert Walkable(bs[j + 1].hhHead, c);
      }
    }

    /** Move the handles of all old chains, chain by chain. */
    method MoveAll(nb: seq<Bucket<T>>, ghost empty: seq<seq<Handle<T>>>, ghost hs: set<Handle<T>>)
      requires Rehashing(nb, empty, hs)
      requires Waiting(buckets, chains, empty, hs)
      requires forall b :: b in nb ==> b !in buckets
      requires |buckets| == numBuckets
      modifies this`nonidealItems, nb, hs`hhPrev, hs`hhNext
      ensures Rehashing(nb, Spread(Walk(chains), empty, Hash()), hs)
    {
      var i := 0;
      ghost var cur: seq<seq<Handle<T>>> := empty;
      while i < numBuckets
        invariant 0 <= i <= numBuckets
        invariant Rehashing(nb, cur, hs)
        invariant Waiting(buckets[i..], chains[i..], cur, hs)
        invariant Spread(Walk(chains[i..]), cur, Hash()) == Spread(Walk(chains), empty, Hash())
      {
        SpreadAppend(chains[i], Walk(chains[i + 1..]), cur, Hash());
        assert chains[i..][1..] == chains[i + 1..] && buckets[i..][1..] == buckets[i + 1..];
        DrainFirst(buckets[i].hhHead, nb, buckets[i..], chains[i..], cur, hs);
        cur := Spread(chains[i], cur, Hash());
        i := i + 1;
      }
    }

    lemma WaitingAtFirst(empty: seq<seq<Handle<T>>>, hs: set<Handle<T>>)
      requires AllChained(buckets, chains, hs) && Sorted(chains, Hash())
      requires |empty| > 0 && forall j :: 0 <= j < |empty| ==> empty[j] == []
      ensures Waiting(buckets, chains, empty, hs)
    {
      SortedApart(chains, Hash());
    }

    /** Replace the buckets by nb, which start out empty, and move every handle over. */
    method Redistribute(nb: seq<Bucket<T>>, ghost empty: seq<seq<Handle<T>>>, ghost hs: set<Handle<T>>)
      requires Rehashing(nb, empty, hs) && forall j :: 0 <= j < |empty| ==> empty[j] == []
      requires |buckets| == numBuckets && AllChained(buckets, chains, hs) && Placed(chains, hs, Hash())
      requires forall b :: b in nb ==> b !in buckets
      modifies this`nonidealItems, this`buckets, this`chains, nb, hs`hhPrev, hs`hhNext
      ensures buckets == nb && chains == Spread(Walk(old(chains)), empty, Hash())
      ensures Rehashing(buckets, chains, hs) && Placed(chains, hs, Hash())
      ensures TotalLen(chains) == TotalLen(old(chains))
    {
      RehashPlaces(chains, empty, hs, Hash());
      assert Sorted(chains, Hash());
      hide Placed, Sorted, Apart;
      WaitingAtFirst(empty, hs);
      MoveAll(nb, empty, hs);
      buckets := nb;
      chains := Spread(Walk(chains), empty, Hash());
    }

    /** The chain length an even spread over n buckets would need. */
    function IdealLen(n: nat): (r: nat)
      requires n > 0
      reads this`numItems
      ensures r * n - n < numItems <= r * n
    {
      assert numItems == numItems / n * n + numItems % n && (numItems / n + 1) * n == numItems / n * n + n;
      numItems / n + (if numItems % n != 0 then 1 else 0)
    }

    method PlanBuckets(n: nat, ghost hs: set<Handle<T>>) returns (nb: seq<Bucket<T>>)
      requires n > 0 && numItems > 0
      modifies this`idealChainMaxlen, this`nonidealItems
      ensures |nb| == n && fresh(nb)
      ensures idealChainMaxlen == IdealLen(n)
      ensures Rehashing(nb, Empties(n), hs)
    {
      nb := NewBuckets<T>(n);
      idealChainMaxlen := IdealLen(n);
      nonidealItems := 0;
      EmptiesPlaced(Empties<Handle<T>>(n), Hash());
      EmptiesTotal(Empties<Handle<T>>(n), idealChainMaxlen);
    }

    method ReplaceBuckets(n: nat)
      requires n > 0 && numItems > 0 && Indexed(Elems(order))
      modifies this`buckets, this`chains, this`idealChainMaxlen, this`nonidealItems, Elems(order)`hhPrev,
               Elems(order)`hhNext
      ensures fresh(buckets) && |buckets| == n
      ensures chains == Spread(Walk(old(chains)), Empties<Handle<T>>(n), Hash())
      ensures Rehashing(buckets, chains, Elems(order))
      ensures Placed(chains, Elems(order), Hash()) && TotalLen(chains) == numItems
      ensures idealChainMaxlen == IdealLen(n)
    {
      ghost var empty := Empties<Handle<T>>(n);
      var nb := PlanBuckets(n, Elems(order));
      Redistribute(nb, empty, Elems(order));
    }

    /** Two doublings in a row that leave most items beyond the ideal length end all doubling. */
    method FinishExpansion(ghost hs: set<Handle<T>>)
      requires |buckets| == 2 * numBuckets && numBuckets == Pow2(log2NumBuckets)
      requires Rehashing(buckets, chains, hs) && Placed(chains, hs, Hash()) && TotalLen(chains) == numItems
      modifies this`numBuckets, this`log2NumBuckets, this`ineffExpands, this`noexpand
      ensures numBuckets == 2 * old(numBuckets) && log2NumBuckets == old(log2NumBuckets) + 1
      ensures Indexed(hs) && Rehashing(buckets, chains, hs)
      ensures ineffExpands == if nonidealItems > numItems / 2 then old(ineffExpands) + 1 else 0
      ensures noexpand == (old(noexpand) || ineffExpands > 1)
    {
      numBuckets, log2NumBuckets := 2 * numBuckets, log2NumBuckets + 1;
      ineffExpands := if nonidealItems > numItems / 2 then ineffExpands + 1 else 0;
      if ineffExpands > 1 {
        noexpand := true;
      }
    }

    /** Double the number of buckets. */
    method Expand()
      requires Indexed(Elems(order)) && numItems > 0
      modifies this`buckets, this`chains, this`numBuckets, this`log2NumBuckets, this`idealChainMaxlen,
        this`nonidealItems, this`ineffExpands, this`noexpand, Elems(order)`hhPrev, Elems(order)`hhNext
      ensures fresh(buckets) && Indexed(Elems(order))
      ensures chains == Spread(Walk(old(chains)), Empties<Handle<T>>(2 * old(numBuckets)), Hash())
      ensures numBuckets == 2 * old(numBuckets)
      ensures idealChainMaxlen == IdealLen(numBuckets)
      ensures Rehashing(buckets, chains, Elems(order))
      ensures ineffExpands == if nonidealItems > numItems / 2 then old(ineffExpands) + 1 else 0
      ensures noexpand == (old(noexpand) || ineffExpands > 1)
    {
      ReplaceBuckets(2 * numBuckets);
      FinishExpansion(Elems(order));
    }

    /** Count h in and push it on its bucket. */
    method Enter(h: Handle<T>, ghost hs: set<Handle<T>>) returns (b: Bucket<T>)
      requires Indexed(hs) && h !in hs
      modifies this`numItems, this`chains, buckets`hhHead, buckets`count, hs`hhPrev, h`hhPrev, h`hhNext
      ensures numItems == old(numItems) + 1
      ensures Indexed(hs + {h}) && chains == PushOn(old(chains), h, Hash())
      ensures b == buckets[Bkt(Hash(), h, numBuckets)] && b.count == |old(chains)[Bkt(Hash(), h, numBuckets)]| + 1
    {
      numItems := numItems + 1;
      var bkt := hashFcn(h.key) % numBuckets;
      b := buckets[bkt];
      SortedApart(chains, Hash());
      PushOnMembers(chains, h, Hash());
      EnterPlaces(chains, hs, h);
      PushAt(b, h, buckets, bkt, chains, hs + {h});
      chains := PushOn(chains, h, Hash());
    }

    lemma EnterPlaces(cs: seq<seq<Handle<T>>>, hs: set<Handle<T>>, h: Handle<T>)
      requires Placed(cs, hs, Hash()) && h !in hs
      ensures Placed(PushOn(cs, h, Hash()), hs + {h}, Hash())
      ensures forall i :: 0 <= i < |cs| ==> h !in cs[i]
    {
      PushOnMembers(cs, h, Hash());
      var r := PushOn(cs, h, Hash());
      forall j, x | 0 <= j < |r| && x in r[j]
        ensures x in hs + {h}
      {
        assert Has(r, x, Hash());
      }
    }

    /** Whether adding h fills its bucket enough to double the table. */
    ghost predicate Crowds(h: Handle<T>)
      requires numBuckets == |buckets| == |chains| > 0
      reads this, buckets
    {
      var j := Bkt(Hash(), h, numBuckets);
      !noexpand && |chains[j]| + 1 >= (buckets[j].expandMult + 1) * BKT_CAPACITY_THRESH
    }

    /** Ten elements per bucket, and as many more for each multiple of the ideal length that the bucket
        had after the last doubling. */
    lemma CrowdsIff(h: Handle<T>)
      requires Valid() && order != []
      ensures numBuckets == |buckets| == |chains| > 0
      ensures var j := Bkt(Hash(), h, numBuckets);
        Crowds(h) <==> !noexpand && |chains[j]| + 1 >= 10 * (buckets[j].expandMult + 1)
    {
    }

    /** Make the first element the whole list, with a new table. */
    method EnlistFirst(h: Handle<T>)
      requires order == []
      modifies this, h`prev, h`next
      ensures order == [h] && Listed(order) && numItems == 0 && Indexed({}) && fresh(buckets)
      ensures numBuckets == INITIAL_NUM_BUCKETS && !Crowds(h)
    {
      h.next := null;
      head := h;
      h.prev := null;
      MakeTable();
      order := [h];
    }

    lemma DistinctKeysSnoc(s: seq<Handle<T>>, h: Handle<T>)
      requires DistinctKeys(s) && forall x :: x in s ==> x.key != h.key
      ensures DistinctKeys(s + [h]) && Elems(s + [h]) == Elems(s) + {h}
    {
    }

    /** Put a listed handle in its bucket, doubling the table when the bucket is crowded. */
    method Index(h: Handle<T>, ghost hs: set<Handle<T>>)
      requires Indexed(hs) && h !in hs && Elems(order) == hs + {h}
      modifies this`numItems, this`buckets, this`chains, this`numBuckets, this`log2NumBuckets, this`idealChainMaxlen,
        this`nonidealItems, this`ineffExpands, this`noexpand, buckets`hhHead, buckets`count,
        Elems(order)`hhPrev, Elems(order)`hhNext
      ensures Indexed(Elems(order)) && numItems == old(numItems) + 1
      ensures old(Crowds(h)) ==> fresh(buckets) && numBuckets == 2 * old(numBuckets)
      ensures !old(Crowds(h)) ==> buckets == old(buckets) && numBuckets == old(numBuckets)
    {
      var b := Enter(h, hs);
      if b.count >= (b.expandMult + 1) * BKT_CAPACITY_THRESH && !noexpand {
        Expand();
      }
    }

    /** Link h last in insertion order, making the table first if there is none. */
    method Enlist(h: Handle<T>)
      requires Valid() && h !in order
      modifies this, Elems(order)`next, h`prev, h`next
      ensures order == old(order) + [h] && Listed(order)
      ensures Indexed(Elems(old(order))) && numItems == |old(order)|
      ensures old(order) == [] ==> fresh(buckets) && numBuckets == INITIAL_NUM_BUCKETS && !Crowds(h)
      ensures old(order) != [] ==>
          buckets == old(buckets) && numBuckets == old(numBuckets) && Crowds(h) == old(Crowds(h))
    {
      if head == null {
        assert Elems(order) == {};
        EnlistFirst(h);
      } else {
        Append(h);
      }
    }

    /** Add an element whose key is not in the table yet. */
    method Add(h: Handle<T>)
      requires Valid() && h !in order && forall x :: x in order ==> x.key != h.key
      modifies this, buckets, Elems(order), h
      ensures Valid() && order == old(order) + [h]
      ensures fresh(buckets) || buckets == old(buckets)
      ensures old(order) == [] ==> numBuckets == INITIAL_NUM_BUCKETS
      ensures old(order) != [] ==> numBuckets == if old(Crowds(h)) then 2 * old(numBuckets) else old(numBuckets)
    {
      hide Indexed, Listed, DistinctKeys, Crowds;
      ghost var hs := Elems(order);
      DistinctKeysSnoc(order, h);
      Enlist(h);
      Index(h, hs);
    }

    /** Take h off its bucket. */
    method Leave(h: Handle<T>, ghost hs: set<Handle<T>>)
      requires Indexed(hs) && h in hs && numItems > 0
      modifies this`numItems, this`chains, buckets`hhHead, buckets`count, hs`hhPrev, hs`hhNext
      ensures numItems == old(numItems) - 1 && Indexed(hs - {h})
    {
      var bkt := hashFcn(h.key) % numBuckets;
      assert Has(chains, h, Hash());
      ghost var i :| 0 <= i < |chains[bkt]| && chains[bkt][i] == h;
      SortedApart(chains, Hash());
      DropAtPlaces(chains, bkt, i, hs, Hash());
      hide Apart, Placed, Sorted, Has;
      RemoveAt(buckets[bkt], h, buckets, bkt, i, chains, hs);
      numItems := numItems - 1;
      chains := DropAt(chains, bkt, i);
    }

    lemma WithoutKeys(s: seq<Handle<T>>, k: nat)
      requires k < |s| && Distinct(s) && DistinctKeys(s)
      ensures DistinctKeys(Without(s, k)) && Elems(Without(s, k)) == Elems(s) - {s[k]}
    {
      WithoutMembers(s, k);
    }

    /** Remove h, the k-th element; removing the only element tears the table down. */
    method Delete(h: Handle<T>) returns (ghost k: nat)
      requires Valid() && h in order
      modifies this, buckets, Elems(order)
      ensures Valid() && k < |old(order)| && old(order)[k] == h && order == Without(old(order), k)
      ensures buckets == old(buckets) && numBuckets == old(numBuckets)
    {
      hide Indexed, DistinctKeys;
      k :| 0 <= k < |order| && order[k] == h;
      WithoutKeys(order, k);
      if h.prev == null && h.next == null {
        head := null;
        numItems := 0;
        order := Without(order, k);
      } else {
        ghost var hs := Elems(order);
        Unlist(h, k);
        Leave(h, hs);
      }
    }

    lemma SortKeeps(s: seq<Handle<T>>, t: seq<Handle<T>>)
      requires DistinctKeys(s) && Distinct(t) && multiset(s) == multiset(t)
      ensures DistinctKeys(t) && Elems(t) == Elems(s) && |t| == |s|
    {
      SameMembers(s, t);
      assert |multiset(s)| == |s| && |multiset(t)| == |t|;
      forall i, j | 0 <= i < j < |t|
        ensures t[i].key != t[j].key
      {
        assert t[i] in s && t[j] in s;
      }
    }

    /** Rewire the insertion-order list into cmp order. */
    method Rewire(cmp: (T, T) -> int) returns (ghost t: seq<Handle<T>>)
      requires Listed(order) && DistinctKeys(order)
      modifies this`head, this`tail, Elems(order)`next, Elems(order)`prev
      ensures Listed(t) && SortedFrom(order, t, cmp)
      ensures DistinctKeys(t) && Elems(t) == Elems(order) && |t| == |order|
    {
      t := order;
      if head != null {
        head, tail, t := SortHandles(head, cmp, order);
        SortKeeps(order, t);
      }
    }

    /** Sort the elements in place; the buckets are left as they are. */
    method Sort(cmp: (T, T) -> int)
      requires Valid()
      modifies this`head, this`tail, this`order, Elems(order)`next, Elems(order)`prev
      ensures Valid() && SortedFrom(old(order), order, cmp)
    {
      hide Indexed, Listed, SortedFrom, DistinctKeys;
      ghost var t := Rewire(cmp);
      order := t;
    }

    /** The forward links of a bucket lead through the handles of c to null. */
    static ghost predicate Threads(b: Bucket<T>, c: seq<Handle<T>>)
      reads b`hhHead, c`hhNext
    {
      b.hhHead == At(c, 0) && forall i {:trigger c[i].hhNext} :: 0 <= i < |c| ==> c[i].hhNext == At(c, i + 1)
    }

    /** All that the integrity check relies on: forward links lead through insertion order and chains. */
    ghost predicate Traversable(hs: set<Handle<T>>)
      reads this`head, this`order, this`buckets, this`chains, this`numBuckets
      reads buckets`hhHead, order`next, hs`hhNext
    {
      && head == At(order, 0)
      && (forall i {:trigger order[i].next} :: 0 <= i < |order| ==> order[i].next == At(order, i + 1))
      && (head != null ==>
            && numBuckets == |buckets| == |chains| && Within(chains, hs)
            && forall j :: 0 <= j < |chains| ==> Threads(buckets[j], chains[j]))
    }

    /** Count and backward links of a bucket fit its chain. */
    static ghost predicate SoundBucket(b: Bucket<T>, c: seq<Handle<T>>)
      reads b`count, c`hhPrev
    {
      b.count == |c| && forall i {:trigger c[i].hhPrev} :: 0 <= i < |c| ==> c[i].hhPrev == At(c, i - 1)
    }

    /** What it checks, of all buckets and of the insertion order. */
    ghost predicate Sound(hs: set<Handle<T>>)
      requires |buckets| == |chains| && Within(chains, hs)
      reads this`order, this`buckets, this`chains, this`numItems, buckets`count, order`prev, hs`hhPrev
    {
      && (forall j :: 0 <= j < |chains| ==> SoundBucket(buckets[j], chains[j]))
      && TotalLen(chains) == numItems
      && (forall i {:trigger order[i].prev} :: 0 <= i < |order| ==> order[i].prev == At(order, i - 1))
      && |order| == numItems
    }

    /** The integrity check of the debug build, run on every bucket and on the list: on any table that
        can be walked forwards it passes exactly if all counts and backward links are right. */
    method Fsck(ghost hs: set<Handle<T>>) returns (ok: bool)
      requires Traversable(hs)
      ensures head == null ==> ok
      ensures head != null ==> (ok <==> Sound(hs))
    {
      ok := true;
      if head != null {
        var total, i := 0, 0;
        while i < numBuckets
          invariant 0 <= i <= numBuckets
          invariant total == TotalLen(chains[..i])
          invariant ok <==> forall j :: 0 <= j < i ==> SoundBucket(buckets[j], chains[j])
        {
          var n, good := CheckChain(buckets[i], chains[i]);
          ok := ok && good && buckets[i].count == n;
          TotalLenSnoc(chains[..i], chains[i]);
          assert chains[..i] + [chains[i]] == chains[..i + 1];
          total := total + n;
          i := i + 1;
        }
        assert chains[..i] == chains;
        ok := ok && total == numItems;
        var n, good := CheckList();
        ok := ok && good && n == numItems;
      }
    }

    /** Every table that satisfies the invariant can be walked and is sound. */
    lemma ValidIsSound()
      requires Valid()
      ensures Traversable(Elems(order)) && (head != null ==> Sound(Elems(order)))
    {
    }

    /** Walk one bucket: count it and check every backward link. */
    method CheckChain(b: Bucket<T>, ghost c: seq<Handle<T>>) returns (n: nat, good: bool)
      requires Threads(b, c)
      ensures n == |c| && (good <==> forall i {:trigger c[i].hhPrev} :: 0 <= i < |c| ==> c[i].hhPrev == At(c, i - 1))
    {
      var thh, prev_ := b.hhHead, null;
      n, good := 0, true;
      while thh != null
        invariant n <= |c| && thh == At(c, n) && prev_ == At(c, n - 1)
        invariant good <==> forall i {:trigger c[i].hhPrev} :: 0 <= i < n ==> c[i].hhPrev == At(c, i - 1)
        decreases |c| - n
      {
        good := good && thh.hhPrev == prev_;
        n := n + 1;
        prev_, thh := thh, thh.hhNext;
      }
    }

    /** Walk the insertion-order list: count it and check every backward link. */
    method CheckList() returns (n: nat, good: bool)
      requires head == At(order, 0)
      requires forall i {:trigger order[i].next} :: 0 <= i < |order| ==> order[i].next == At(order, i + 1)
      ensures n == |order|
      ensures good <==> forall i {:trigger order[i].prev} :: 0 <= i < |order| ==> order[i].prev == At(order, i - 1)
    {
      var thh, prev_ := head, null;
      n, good := 0, true;
      while thh != null
        invariant n <= |order| && thh == At(order, n) && prev_ == At(order, n - 1)
        invariant good <==> forall i {:trigger order[i].prev} :: 0 <= i < n ==> order[i].prev == At(order, i - 1)
        decreases |order| - n
      {
        good := good && thh.prev == prev_;
        n := n + 1;
        prev_, thh := thh, thh.next;
      }
    }

    /** Iterate the elements from head through next. */
    method Elements() returns (s: seq<Handle<T>>)
      requires Valid()
      ensures s == order
    {
      s := [];
      var h := head;
      while h != null
        invariant |s| <= |order| && s == order[..|s|] && h == At(order, |s|)
        decreases |order| - |s|
      {
        s := s + [h];
        h := h.next;
      }
    }
  }
}
