/** Sequences of distinct elements spread over bucket chains: the values that the hash
    table's pointers stand for, and what doubling the number of buckets does to them. */
module Chains {

  ghost predicate Distinct<E>(s: seq<E>) {
    forall i, j :: 0 <= i < j < |s| ==> s[i] != s[j]
  }

  ghost function Elems<E>(s: seq<E>): set<E> {
    set x | x in s
  }

  function Min(a: nat, b: nat): nat {
    if a <= b then a else b
  }

  function Pow2(k: nat): nat {
    if k == 0 then 1 else 2 * Pow2(k - 1)
  }

  lemma Pow2Five()
    ensures Pow2(5) == 32
  {
  }

  /** s without its k-th element. */
  function Without<E>(s: seq<E>, k: nat): seq<E>
    requires k < |s|
  {
    s[..k] + s[k + 1..]
  }

  lemma WithoutAt<E>(s: seq<E>, k: nat)
    requires k < |s|
    ensures |Without(s, k)| == |s| - 1
    ensures forall i :: 0 <= i < |s| - 1 ==> Without(s, k)[i] == s[if i < k then i else i + 1]
  {
  }

  lemma WithoutMembers<E>(s: seq<E>, k: nat)
    requires k < |s| && Distinct(s)
    ensures Distinct(Without(s, k))
    ensures forall x :: x in Without(s, k) <==> x in s && x != s[k]
  {
    var t := Without(s, k);
    forall x | x in s && x != s[k]
      ensures x in t
    {
      var i :| 0 <= i < |s| && s[i] == x;
      assert t[if i < k then i else i - 1] == x;
    }
  }

  /** Number of elements over all chains (what the per-bucket counters add up to). */
  function TotalLen<E>(cs: seq<seq<E>>): nat {
    if cs == [] then 0 else |cs[0]| + TotalLen(cs[1..])
  }

  /** Elements whose chain position exceeds the ideal length. */
  function Excess<E>(cs: seq<seq<E>>, ideal: nat): nat {
    if cs == [] then 0
    else (if |cs[0]| > ideal then |cs[0]| - ideal else 0) + Excess(cs[1..], ideal)
  }

  lemma {:induction false} TotalLenUpdate<E>(cs: seq<seq<E>>, j: nat, c: seq<E>)
    requires j < |cs|
    ensures TotalLen(cs[j := c]) == TotalLen(cs) - |cs[j]| + |c|
  {
    if j == 0 {
      assert cs[j := c][1..] == cs[1..];
    } else {
      assert cs[j := c][1..] == cs[1..][j - 1 := c];
      TotalLenUpdate(cs[1..], j - 1, c);
    }
  }

  lemma {:induction false} TotalLenSnoc<E>(cs: seq<seq<E>>, c: seq<E>)
    ensures TotalLen(cs + [c]) == TotalLen(cs) + |c|
  {
    if cs == [] {
      assert cs + [c] == [c];
    } else {
      assert (cs + [c])[1..] == cs[1..] + [c];
      TotalLenSnoc(cs[1..], c);
    }
  }

  lemma {:induction false} ExcessGrow<E>(cs: seq<seq<E>>, j: nat, c: seq<E>, ideal: nat)
    requires j < |cs| && |c| == |cs[j]| + 1
    ensures Excess(cs[j := c], ideal) == Excess(cs, ideal) + (if |c| > ideal then 1 else 0)
  {
    if j == 0 {
      assert cs[j := c][1..] == cs[1..];
    } else {
      assert cs[j := c][1..] == cs[1..][j - 1 := c];
      ExcessGrow(cs[1..], j - 1, c, ideal);
    }
  }

  function Empties<E>(n: nat): (cs: seq<seq<E>>)
    ensures |cs| == n && forall j :: 0 <= j < n ==> cs[j] == []
  {
    seq(n, _ => [])
  }

  lemma {:induction false} EmptiesTotal<E>(cs: seq<seq<E>>, ideal: nat)
    requires forall j :: 0 <= j < |cs| ==> cs[j] == []
    ensures TotalLen(cs) == 0 && Excess(cs, ideal) == 0
  {
    if cs != [] {
      EmptiesTotal(cs[1..], ideal);
    }
  }

  /** The bucket of x among n buckets. */
  function Bkt<E>(hash: E -> nat, x: E, n: nat): (b: nat)
    requires n > 0
    ensures b < n
  {
    hash(x) % n
  }

  /** Put x in front of its chain. */
  function PushOn<E>(cs: seq<seq<E>>, x: E, hash: E -> nat): (r: seq<seq<E>>)
    requires |cs| > 0
    ensures |r| == |cs|
  {
    var j := Bkt(hash, x, |cs|);
    cs[j := [x] + cs[j]]
  }

  /** Move the elements of c, front to back, each in front of its new chain. */
  function Spread<E>(c: seq<E>, cs: seq<seq<E>>, hash: E -> nat): (r: seq<seq<E>>)
    requires |cs| > 0
    ensures |r| == |cs|
  {
    if c == [] then cs else Spread(c[1..], PushOn(cs, c[0], hash), hash)
  }

  /** Take the element at position i out of chain j. */
  function DropAt<E>(cs: seq<seq<E>>, j: nat, i: nat): (r: seq<seq<E>>)
    requires j < |cs| && i < |cs[j]|
    ensures |r| == |cs|
  {
    cs[j := Without(cs[j], i)]
  }

  /** The elements in the order a walk over all chains visits them. */
  function Walk<E>(cs: seq<seq<E>>): seq<E> {
    if cs == [] then [] else cs[0] + Walk(cs[1..])
  }

  lemma {:induction false} SpreadAppend<E>(a: seq<E>, b: seq<E>, cs: seq<seq<E>>, hash: E -> nat)
    requires |cs| > 0
    ensures Spread(a + b, cs, hash) == Spread(b, Spread(a, cs, hash), hash)
  {
    if a == [] {
      assert a + b == b;
    } else {
      assert (a + b)[1..] == a[1..] + b;
      SpreadAppend(a[1..], b, PushOn(cs, a[0], hash), hash);
    }
  }

  /** Chains that hold only elements of their own bucket, each at most once. */
  ghost predicate Sorted<E>(cs: seq<seq<E>>, hash: E -> nat) {
    && |cs| > 0
    && (forall j, x :: 0 <= j < |cs| && x in cs[j] ==> Bkt(hash, x, |cs|) == j)
    && (forall j :: 0 <= j < |cs| ==> Distinct(cs[j]))
  }

  ghost predicate Has<E>(cs: seq<seq<E>>, x: E, hash: E -> nat)
    requires |cs| > 0
  {
    x in cs[Bkt(hash, x, |cs|)]
  }

  /** Chain j holds exactly the elements of s whose bucket is j, each once. */
  ghost predicate Placed<E>(cs: seq<seq<E>>, s: set<E>, hash: E -> nat) {
    && Sorted(cs, hash)
    && (forall x :: x in s ==> Has(cs, x, hash))
    && (forall j, x :: 0 <= j < |cs| && x in cs[j] ==> x in s)
  }

  ghost predicate Apart<E>(cs: seq<seq<E>>) {
    forall i, j, x :: 0 <= i < |cs| && 0 <= j < |cs| && i != j && x in cs[i] ==> x !in cs[j]
  }

  lemma SortedApart<E>(cs: seq<seq<E>>, hash: E -> nat)
    requires Sorted(cs, hash)
    ensures Apart(cs)
  {
    forall i, j, x | 0 <= i < |cs| && 0 <= j < |cs| && i != j && x in cs[i]
      ensures x !in cs[j]
    {
      assert Bkt(hash, x, |cs|) == i;
    }
  }

  lemma DropAtPlaces<E>(cs: seq<seq<E>>, j: nat, i: nat, s: set<E>, hash: E -> nat)
    requires Placed(cs, s, hash) && j < |cs| && i < |cs[j]|
    ensures Placed(DropAt(cs, j, i), s - {cs[j][i]}, hash)
    ensures TotalLen(DropAt(cs, j, i)) == TotalLen(cs) - 1
  {
    var x := cs[j][i];
    var r := DropAt(cs, j, i);
    WithoutMembers(cs[j], i);
    TotalLenUpdate(cs, j, Without(cs[j], i));
    forall y | y in s - {x}
      ensures Has(r, y, hash)
    {
      assert Has(cs, y, hash);
    }
    forall k, y | 0 <= k < |r| && y in r[k]
      ensures y in s - {x}
    {
      assert y in cs[k] && x in cs[j];
      assert Bkt(hash, y, |cs|) == k && Bkt(hash, x, |cs|) == j;
    }
  }

  lemma EmptiesPlaced<E>(cs: seq<seq<E>>, hash: E -> nat)
    requires |cs| > 0 && forall j :: 0 <= j < |cs| ==> cs[j] == []
    ensures Placed(cs, {}, hash) && TotalLen(cs) == 0
  {
    EmptiesTotal(cs, 0);
  }

  lemma PushOnMembers<E>(cs: seq<seq<E>>, x: E, hash: E -> nat)
    requires Sorted(cs, hash) && !Has(cs, x, hash)
    ensures var r := PushOn(cs, x, hash);
      && Sorted(r, hash)
      && (forall y :: Has(r, y, hash) <==> y == x || Has(cs, y, hash))
      && TotalLen(r) == TotalLen(cs) + 1
  {
    var j := Bkt(hash, x, |cs|);
    TotalLenUpdate(cs, j, [x] + cs[j]);
  }

  lemma {:induction false} SpreadMembers<E>(c: seq<E>, cs: seq<seq<E>>, hash: E -> nat)
    requires Sorted(cs, hash) && Distinct(c) && forall x :: x in c ==> !Has(cs, x, hash)
    ensures var r := Spread(c, cs, hash);
      && Sorted(r, hash)
      && (forall y :: Has(r, y, hash) <==> y in c || Has(cs, y, hash))
      && TotalLen(r) == TotalLen(cs) + |c|
  {
    if c != [] {
      PushOnMembers(cs, c[0], hash);
      SpreadMembers(c[1..], PushOn(cs, c[0], hash), hash);
      assert c == [c[0]] + c[1..];
    }
  }

  lemma {:induction false} WalkMembers<E>(cs: seq<seq<E>>, lo: nat, hash: E -> nat, n: nat)
    requires n > 0
    requires forall j, x :: 0 <= j < |cs| && x in cs[j] ==> Bkt(hash, x, n) == lo + j
    requires forall j :: 0 <= j < |cs| ==> Distinct(cs[j])
    ensures Distinct(Walk(cs)) && |Walk(cs)| == TotalLen(cs)
    ensures forall x :: x in Walk(cs) <==>
              lo <= Bkt(hash, x, n) < lo + |cs| && x in cs[Bkt(hash, x, n) - lo]
  {
    if cs != [] {
      var t := cs[1..];
      assert forall j :: 0 <= j < |t| ==> t[j] == cs[j + 1];
      WalkMembers(t, lo + 1, hash, n);
      forall i, j | 0 <= i < j < |Walk(cs)|
        ensures Walk(cs)[i] != Walk(cs)[j]
      {
        if i < |cs[0]| <= j {
          assert Walk(cs)[i] in cs[0] && Walk(cs)[j] in Walk(t);
        }
      }
    }
  }

  lemma WalkVisits<E>(cs: seq<seq<E>>, s: set<E>, hash: E -> nat)
    requires Placed(cs, s, hash)
    ensures Distinct(Walk(cs)) && |Walk(cs)| == TotalLen(cs)
    ensures forall x :: x in Walk(cs) <==> x in s
  {
    WalkMembers(cs, 0, hash, |cs|);
    forall x | x in s
      ensures x in Walk(cs)
    {
      assert Has(cs, x, hash);
    }
  }

  /** Rehashing into any number of empty chains loses and duplicates nothing, whatever the
      hash: the new chains hold the same elements, each in the chain its hash selects. */
  lemma RehashPlaces<E>(cs: seq<seq<E>>, e: seq<seq<E>>, s: set<E>, hash: E -> nat)
    requires Placed(cs, s, hash)
    requires |e| > 0 && forall j :: 0 <= j < |e| ==> e[j] == []
    ensures Placed(Spread(Walk(cs), e, hash), s, hash)
    ensures TotalLen(Spread(Walk(cs), e, hash)) == TotalLen(cs)
  {
    hide Spread, Walk, TotalLen;
    EmptiesTotal(e, 0);
    WalkVisits(cs, s, hash);
    SpreadMembers(Walk(cs), e, hash);
    var r := Spread(Walk(cs), e, hash);
    forall j, x | 0 <= j < |r| && x in r[j]
      ensures x in s
    {
      assert Has(r, x, hash);
    }
  }
}
