/** Simon Tatham's bottom-up merge sort as uthash.h runs it: what one pass does to the list
    as a value, and why repeating the passes yields the stable sorted permutation. */
module MergeSort {
  import opened Chains

  /** On the elements of d, cmp orders like a C comparison function: its sign is a total
      preorder. */
  ghost predicate Comparator<E>(cmp: (E, E) -> int, d: set<E>) {
    && (forall a, b :: a in d && b in d ==> (cmp(a, b) < 0 <==> cmp(b, a) > 0))
    && (forall a, b, c :: a in d && b in d && c in d && cmp(a, b) <= 0 && cmp(b, c) <= 0 ==> cmp(a, c) <= 0)
  }

  ghost predicate Among<E>(s: seq<E>, d: set<E>) {
    forall x :: x in s ==> x in d
  }

  ghost predicate Ordered<E>(s: seq<E>, cmp: (E, E) -> int) {
    forall i, j :: 0 <= i < j < |s| ==> cmp(s[i], s[j]) <= 0
  }

  /** The elements of s that compare equal to x, in their order. */
  function Ties<E>(s: seq<E>, x: E, cmp: (E, E) -> int): seq<E> {
    if s == [] then []
    else (if cmp(s[0], x) == 0 then [s[0]] else []) + Ties(s[1..], x, cmp)
  }

  /** t is s rearranged into cmp order, with equal elements kept in their order. */
  ghost predicate StableSort<E>(s: seq<E>, t: seq<E>, cmp: (E, E) -> int) {
    && Ordered(t, cmp)
    && multiset(t) == multiset(s)
    && SameTies(s, t, cmp)
  }

  /** Equal elements come in the same order in t as in s. */
  ghost predicate SameTies<E>(s: seq<E>, t: seq<E>, cmp: (E, E) -> int) {
    forall x :: x in s ==> Ties(t, x, cmp) == Ties(s, x, cmp)
  }

  function Merge<E>(p: seq<E>, q: seq<E>, cmp: (E, E) -> int): (r: seq<E>)
    ensures |r| == |p| + |q|
  {
    if p == [] then q
    else if q == [] then p
    else if cmp(p[0], q[0]) <= 0 then [p[0]] + Merge(p[1..], q, cmp)
    else [q[0]] + Merge(p, q[1..], cmp)
  }

  /** One pass: merge neighbouring runs of k elements. */
  function Pass<E>(s: seq<E>, k: nat, cmp: (E, E) -> int): (r: seq<E>)
    requires k > 0
    ensures |r| == |s|
    decreases |s|
  {
    if s == [] then []
    else
      var m, n := Min(k, |s|), Min(2 * k, |s|);
      Merge(s[..m], s[m..n], cmp) + Pass(s[n..], k, cmp)
  }

  /** Passes with doubling run length, until one pass does a single merge. */
  function Passes<E>(s: seq<E>, k: nat, cmp: (E, E) -> int): (r: seq<E>)
    requires k > 0
    ensures |r| == |s|
    decreases |s| - k
  {
    var t := Pass(s, k, cmp);
    if |s| <= 2 * k then t else Passes(t, 2 * k, cmp)
  }

  lemma Assoc<E>(a: seq<E>, b: seq<E>, c: seq<E>)
    ensures (a + b) + c == a + (b + c)
  {
  }

  lemma TiesCons<E>(y: E, s: seq<E>, x: E, cmp: (E, E) -> int)
    ensures Ties([y] + s, x, cmp) == Ties([y], x, cmp) + Ties(s, x, cmp)
  {
    assert ([y] + s)[1..] == s;
  }

  lemma TiesStep<E>(s: seq<E>, x: E, cmp: (E, E) -> int)
    requires s != []
    ensures Ties(s, x, cmp) == Ties([s[0]], x, cmp) + Ties(s[1..], x, cmp)
  {
    assert s == [s[0]] + s[1..];
    TiesCons(s[0], s[1..], x, cmp);
  }

  lemma {:induction false} TiesAppend<E>(a: seq<E>, b: seq<E>, x: E, cmp: (E, E) -> int)
    ensures Ties(a + b, x, cmp) == Ties(a, x, cmp) + Ties(b, x, cmp)
  {
    if a == [] {
      assert a + b == b;
    } else {
      assert (a + b)[1..] == a[1..] + b && (a + b)[0] == a[0];
      hide Ties;
      TiesStep(a, x, cmp);
      TiesStep(a + b, x, cmp);
      TiesAppend(a[1..], b, x, cmp);
      Assoc(Ties([a[0]], x, cmp), Ties(a[1..], x, cmp), Ties(b, x, cmp));
    }
  }

  lemma {:induction false} NoTies<E>(s: seq<E>, x: E, cmp: (E, E) -> int)
    requires forall y :: y in s ==> cmp(y, x) != 0
    ensures Ties(s, x, cmp) == []
  {
    if s != [] {
      NoTies(s[1..], x, cmp);
    }
  }

  lemma {:induction false} MergeContents<E>(p: seq<E>, q: seq<E>, cmp: (E, E) -> int)
    ensures multiset(Merge(p, q, cmp)) == multiset(p) + multiset(q)
  {
    if p != [] && q != [] {
      if cmp(p[0], q[0]) <= 0 {
        assert multiset(p) == multiset{p[0]} + multiset(p[1..]) by { assert p == [p[0]] + p[1..]; }
        MergeContents(p[1..], q, cmp);
      } else {
        assert multiset(q) == multiset{q[0]} + multiset(q[1..]) by { assert q == [q[0]] + q[1..]; }
        MergeContents(p, q[1..], cmp);
      }
    }
  }

  lemma MergeMembers<E>(p: seq<E>, q: seq<E>, cmp: (E, E) -> int)
    ensures forall y :: y in Merge(p, q, cmp) ==> y in p || y in q
  {
    MergeContents(p, q, cmp);
    forall y | y in Merge(p, q, cmp)
      ensures y in p || y in q
    {
      assert y in multiset(Merge(p, q, cmp));
    }
  }

  lemma OrderedCons<E>(x: E, s: seq<E>, cmp: (E, E) -> int)
    requires Ordered(s, cmp) && forall y :: y in s ==> cmp(x, y) <= 0
    ensures Ordered([x] + s, cmp)
  {
  }

  lemma {:induction false} MergeOrdered<E>(p: seq<E>, q: seq<E>, cmp: (E, E) -> int, d: set<E>)
    requires Comparator(cmp, d) && Among(p, d) && Among(q, d) && Ordered(p, cmp) && Ordered(q, cmp)
    ensures Ordered(Merge(p, q, cmp), cmp)
  {
    if p != [] && q != [] {
      if cmp(p[0], q[0]) <= 0 {
        MergeOrdered(p[1..], q, cmp, d);
        MergeMembers(p[1..], q, cmp);
        OrderedCons(p[0], Merge(p[1..], q, cmp), cmp);
      } else {
        MergeOrdered(p, q[1..], cmp, d);
        MergeMembers(p, q[1..], cmp);
        OrderedCons(q[0], Merge(p, q[1..], cmp), cmp);
      }
    }
  }

  /** If the head of one run comes before all of the other, and ties with x, the other has no
      ties with x. */
  lemma NoTiesBefore<E>(p: seq<E>, y: E, x: E, cmp: (E, E) -> int, d: set<E>)
    requires Comparator(cmp, d) && Among(p, d) && x in d && y in d && Ordered(p, cmp)
    requires p != [] && cmp(p[0], y) > 0 && cmp(y, x) == 0
    ensures Ties(p, x, cmp) == []
  {
    NoTies(p, x, cmp);
  }

  lemma TakeFromFirst<E>(p: seq<E>, q: seq<E>, x: E, cmp: (E, E) -> int)
    requires p != [] && q != [] && cmp(p[0], q[0]) <= 0
    requires Ties(Merge(p[1..], q, cmp), x, cmp) == Ties(p[1..], x, cmp) + Ties(q, x, cmp)
    ensures Ties(Merge(p, q, cmp), x, cmp) == Ties(p, x, cmp) + Ties(q, x, cmp)
  {
    var m := Merge(p[1..], q, cmp);
    assert Merge(p, q, cmp) == [p[0]] + m;
    hide Ties, Merge;
    TiesCons(p[0], m, x, cmp);
    TiesStep(p, x, cmp);
    Assoc(Ties([p[0]], x, cmp), Ties(p[1..], x, cmp), Ties(q, x, cmp));
  }

  lemma Exchange<E>(a: seq<E>, b: seq<E>, c: seq<E>)
    requires a == [] || b == []
    ensures a + (b + c) == b + (a + c)
  {
    if a == [] {
      assert a + c == c && a + (b + c) == b + c;
    } else {
      assert b + c == c && b + (a + c) == a + c;
    }
  }

  lemma TakeFromSecond<E>(p: seq<E>, q: seq<E>, x: E, cmp: (E, E) -> int)
    requires p != [] && q != [] && cmp(p[0], q[0]) > 0
    requires cmp(q[0], x) == 0 ==> Ties(p, x, cmp) == []
    requires Ties(Merge(p, q[1..], cmp), x, cmp) == Ties(p, x, cmp) + Ties(q[1..], x, cmp)
    ensures Ties(Merge(p, q, cmp), x, cmp) == Ties(p, x, cmp) + Ties(q, x, cmp)
  {
    var m := Merge(p, q[1..], cmp);
    assert Merge(p, q, cmp) == [q[0]] + m;
    assert cmp(q[0], x) != 0 ==> Ties([q[0]], x, cmp) == [];
    hide Ties, Merge;
    TiesCons(q[0], m, x, cmp);
    TiesStep(q, x, cmp);
    Exchange(Ties([q[0]], x, cmp), Ties(p, x, cmp), Ties(q[1..], x, cmp));
  }

  lemma {:induction false} MergeStable<E>(p: seq<E>, q: seq<E>, x: E, cmp: (E, E) -> int, d: set<E>)
    requires Comparator(cmp, d) && Among(p, d) && Among(q, d) && x in d && Ordered(p, cmp)
    ensures Ties(Merge(p, q, cmp), x, cmp) == Ties(p, x, cmp) + Ties(q, x, cmp)
  {
    if p != [] && q != [] {
      if cmp(p[0], q[0]) <= 0 {
        MergeStable(p[1..], q, x, cmp, d);
        TakeFromFirst(p, q, x, cmp);
      } else {
        if cmp(q[0], x) == 0 {
          NoTiesBefore(p, q[0], x, cmp, d);
        }
        MergeStable(p, q[1..], x, cmp, d);
        TakeFromSecond(p, q, x, cmp);
      }
    }
  }

  lemma Split3<E>(s: seq<E>, m: nat, n: nat)
    requires m <= n <= |s|
    ensures s == (s[..m] + s[m..n]) + s[n..]
    ensures multiset(s) == multiset(s[..m]) + multiset(s[m..n]) + multiset(s[n..])
  {
    assert s == (s[..m] + s[m..n]) + s[n..];
  }

  lemma {:induction false} PassContents<E>(s: seq<E>, k: nat, cmp: (E, E) -> int)
    requires k > 0
    ensures multiset(Pass(s, k, cmp)) == multiset(s)
    decreases |s|
  {
    if s != [] {
      var m, n := Min(k, |s|), Min(2 * k, |s|);
      Split3(s, m, n);
      MergeContents(s[..m], s[m..n], cmp);
      PassContents(s[n..], k, cmp);
      assert Pass(s, k, cmp) == Merge(s[..m], s[m..n], cmp) + Pass(s[n..], k, cmp);
    }
  }

  /** s splits into ordered runs of k elements (the last may be shorter). */
  ghost predicate Runs<E>(s: seq<E>, k: nat, cmp: (E, E) -> int)
    requires k > 0
    decreases |s|
  {
    s == [] || (Ordered(s[..Min(k, |s|)], cmp) && Runs(s[Min(k, |s|)..], k, cmp))
  }

  lemma {:induction false} SingletonRuns<E>(s: seq<E>, cmp: (E, E) -> int)
    ensures Runs(s, 1, cmp)
  {
    if s != [] {
      SingletonRuns(s[1..], cmp);
    }
  }

  lemma {:induction false} PassRuns<E>(s: seq<E>, k: nat, cmp: (E, E) -> int, d: set<E>)
    requires k > 0 && Comparator(cmp, d) && Among(s, d) && Runs(s, k, cmp)
    ensures Runs(Pass(s, k, cmp), 2 * k, cmp)
    decreases |s|
  {
    if s != [] {
      var m, n := Min(k, |s|), Min(2 * k, |s|);
      RunsSplit(s, k, cmp);
      MergeOrdered(s[..m], s[m..n], cmp, d);
      PassRuns(s[n..], k, cmp, d);
      RunsCons(Merge(s[..m], s[m..n], cmp), Pass(s[n..], k, cmp), 2 * k, cmp);
    }
  }

  lemma {:induction false} PassStable<E>(s: seq<E>, k: nat, x: E, cmp: (E, E) -> int, d: set<E>)
    requires k > 0 && Comparator(cmp, d) && Among(s, d) && x in d && Runs(s, k, cmp)
    ensures Ties(Pass(s, k, cmp), x, cmp) == Ties(s, x, cmp)
    decreases |s|
  {
    if s != [] {
      var m, n := Min(k, |s|), Min(2 * k, |s|);
      var p, q, rest := s[..m], s[m..n], s[n..];
      RunsSplit(s, k, cmp);
      PassStable(rest, k, x, cmp, d);
      MergeStable(p, q, x, cmp, d);
      TiesAppend(Merge(p, q, cmp), Pass(rest, k, cmp), x, cmp);
      TiesAppend(p, q, x, cmp);
      TiesAppend(p + q, rest, x, cmp);
      Split3(s, m, n);
    }
  }

  lemma RunsSplit<E>(s: seq<E>, k: nat, cmp: (E, E) -> int)
    requires k > 0 && s != [] && Runs(s, k, cmp)
    ensures var m, n := Min(k, |s|), Min(2 * k, |s|);
      Ordered(s[..m], cmp) && Ordered(s[m..n], cmp) && Runs(s[n..], k, cmp)
  {
    var m, n := Min(k, |s|), Min(2 * k, |s|);
    if m < |s| {
      var t := s[m..];
      assert t[..Min(k, |t|)] == s[m..n] && t[Min(k, |t|)..] == s[n..];
    }
  }

  lemma RunsCons<E>(t: seq<E>, rest: seq<E>, k: nat, cmp: (E, E) -> int)
    requires k > 0 && t != [] && Ordered(t, cmp) && Runs(rest, k, cmp)
    requires |t| == k || (|t| < k && rest == [])
    ensures Runs(t + rest, k, cmp)
  {
    var s := t + rest;
    assert s[..Min(k, |s|)] == t && s[Min(k, |s|)..] == rest;
  }

  lemma {:induction false} PassesContents<E>(s: seq<E>, k: nat, cmp: (E, E) -> int)
    requires k > 0
    ensures multiset(Passes(s, k, cmp)) == multiset(s)
    decreases |s| - k
  {
    PassContents(s, k, cmp);
    if |s| > 2 * k {
      PassesContents(Pass(s, k, cmp), 2 * k, cmp);
    }
  }

  lemma SameMembers<E>(s: seq<E>, t: seq<E>)
    requires multiset(s) == multiset(t)
    ensures forall x :: x in s <==> x in t
  {
    assert forall x :: x in s <==> x in multiset(s);
    assert forall x :: x in t <==> x in multiset(t);
  }

  lemma StableTrans<E>(s: seq<E>, t: seq<E>, u: seq<E>, cmp: (E, E) -> int)
    requires multiset(s) == multiset(t) && SameTies(s, t, cmp) && StableSort(t, u, cmp)
    ensures StableSort(s, u, cmp)
  {
    SameMembers(s, t);
  }

  lemma PassSameTies<E>(s: seq<E>, k: nat, cmp: (E, E) -> int, d: set<E>)
    requires k > 0 && Comparator(cmp, d) && Among(s, d) && Runs(s, k, cmp)
    ensures SameTies(s, Pass(s, k, cmp), cmp)
  {
    forall x | x in s
      ensures Ties(Pass(s, k, cmp), x, cmp) == Ties(s, x, cmp)
    {
      PassStable(s, k, x, cmp, d);
    }
  }

  lemma PassSorts<E>(s: seq<E>, t: seq<E>, k: nat, cmp: (E, E) -> int, d: set<E>)
    requires k > 0 && Comparator(cmp, d) && Among(s, d) && Runs(s, k, cmp) && t == Pass(s, k, cmp)
    ensures multiset(t) == multiset(s) && Among(t, d) && Runs(t, 2 * k, cmp) && SameTies(s, t, cmp)
  {
    PassContents(s, k, cmp);
    SameMembers(s, t);
    PassSameTies(s, k, cmp, d);
    PassRuns(s, k, cmp, d);
  }

  lemma {:induction false} PassesSort<E>(s: seq<E>, k: nat, cmp: (E, E) -> int, d: set<E>)
    requires k > 0 && Comparator(cmp, d) && Among(s, d) && Runs(s, k, cmp)
    ensures StableSort(s, Passes(s, k, cmp), cmp)
    decreases |s| - k
  {
    var t := Pass(s, k, cmp);
    PassSorts(s, t, k, cmp, d);
    if |s| <= 2 * k {
      assert t[..Min(2 * k, |t|)] == t;
    } else {
      PassesSort(t, 2 * k, cmp, d);
      StableTrans(s, t, Passes(t, 2 * k, cmp), cmp);
    }
  }

  /** The bottom-up merge sort, started with runs of one, is a stable sort of any list. */
  lemma SortIsStable<E>(s: seq<E>, cmp: (E, E) -> int, d: set<E>)
    requires Comparator(cmp, d) && Among(s, d)
    ensures StableSort(s, Passes(s, 1, cmp), cmp)
  {
    SingletonRuns(s, cmp);
    PassesSort(s, 1, cmp, d);
  }
}
