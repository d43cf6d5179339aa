/** The in-place merge sort of the insertion-order list, on the handles' own pointers. */
module ListSort {
  import opened Chains
  import opened Handles
  import opened MergeSort

  /** The element comparison, as a comparison of handles. */
  function ByElt<T>(cmp: (T, T) -> int): (Handle<T>, Handle<T>) -> int {
    (a: Handle<T>, b: Handle<T>) => cmp(a.elt, b.elt)
  }

  ghost predicate Separate<T>(a: seq<Handle<T>>, b: seq<Handle<T>>) {
    forall x :: x in a ==> x !in b
  }

  /** The sorted part: linked both ways, except that the last next is still to be written. */
  ghost predicate Built<T>(list: Handle?<T>, tl: Handle?<T>, done: seq<Handle<T>>)
    reads done`next, done`prev
  {
    && Distinct(done)
    && list == At(done, 0) && tl == At(done, |done| - 1)
    && (forall i {:trigger done[i].next} :: 0 <= i < |done| - 1 ==> done[i].next == At(done, i + 1))
    && (forall i {:trigger done[i].prev} :: 0 <= i < |done| ==> done[i].prev == At(done, i - 1))
  }

  /** The elements of s follow each other through next, from p; the last next is not read. */
  ghost predicate Run<T>(p: Handle?<T>, s: seq<Handle<T>>)
    reads s`next
  {
    && Distinct(s)
    && (s != [] ==> p == s[0])
    && (forall i {:trigger s[i].next} :: 0 <= i < |s| - 1 ==> s[i].next == At(s, i + 1))
  }

  /** s is the whole remainder of the list, from q. */
  ghost predicate Tail<T>(q: Handle?<T>, s: seq<Handle<T>>)
    reads s`next
  {
    && Distinct(s)
    && q == At(s, 0)
    && (forall i {:trigger s[i].next} :: 0 <= i < |s| ==> s[i].next == At(s, i + 1))
  }

  /** Append e to the sorted part. */
  method Attach<T>(list: Handle?<T>, tl: Handle?<T>, e: Handle<T>, ghost done: seq<Handle<T>>)
    returns (list': Handle?<T>, tl': Handle?<T>)
    requires Built(list, tl, done) && e !in done
    modifies Elems(done)`next, e`prev
    ensures Built(list', tl', done + [e])
  {
    list', tl' := list, e;
    if tl != null {
      tl.next := e;
    } else {
      list' := e;
    }
    e.prev := tl;
  }

  lemma RunStep<T>(s: seq<Handle<T>>)
    requires s != [] && Run(s[0], s)
    ensures Run(s[0].next, s[1..]) && s[0] !in s[1..]
  {
    forall i | 0 <= i < |s[1..]| - 1
      ensures s[1..][i].next == At(s[1..], i + 1)
    {
      assert s[1..][i] == s[i + 1];
    }
  }

  lemma TailStep<T>(s: seq<Handle<T>>)
    requires s != [] && Tail(s[0], s)
    ensures Tail(s[0].next, s[1..]) && s[0] !in s[1..]
  {
    forall i | 0 <= i < |s[1..]|
      ensures s[1..][i].next == At(s[1..], i + 1)
    {
      assert s[1..][i] == s[i + 1];
    }
  }

  function Front<E>(s: seq<E>, k: nat): seq<E> {
    s[..Min(k, |s|)]
  }

  /** A merge under way, all on handles of hs: done is built, pre and post are still to be
      taken. */
  ghost predicate Merging<T>(list: Handle?<T>, tl: Handle?<T>, p: Handle?<T>, q: Handle?<T>,
                             done: seq<Handle<T>>, pre: seq<Handle<T>>, post: seq<Handle<T>>, hs: set<Handle<T>>)
    reads hs`next, hs`prev
  {
    && Among(done, hs) && Among(pre, hs) && Among(post, hs)
    && Built(list, tl, done) && Run(p, pre) && Tail(q, post)
    && Separate(done, pre) && Separate(done, post) && Separate(pre, post)
  }

  method TakeRun<T>(list0: Handle?<T>, tl0: Handle?<T>, p0: Handle<T>, ghost q: Handle?<T>,
                    ghost done: seq<Handle<T>>, ghost pre: seq<Handle<T>>, ghost post: seq<Handle<T>>,
                    ghost hs: set<Handle<T>>)
    returns (list: Handle?<T>, tl: Handle?<T>, p: Handle?<T>)
    requires Merging(list0, tl0, p0, q, done, pre, post, hs) && pre != []
    modifies hs`next, hs`prev
    ensures Merging(list, tl, p, q, done + [pre[0]], pre[1..], post, hs)
  {
    RunStep(pre);
    p := p0.next;
    list, tl := Attach(list0, tl0, p0, done);
  }

  method TakeTail<T>(list0: Handle?<T>, tl0: Handle?<T>, ghost p: Handle?<T>, q0: Handle<T>,
                     ghost done: seq<Handle<T>>, ghost pre: seq<Handle<T>>, ghost post: seq<Handle<T>>,
                     ghost hs: set<Handle<T>>)
    returns (list: Handle?<T>, tl: Handle?<T>, q: Handle?<T>)
    requires Merging(list0, tl0, p, q0, done, pre, post, hs)
    modifies hs`next, hs`prev
    ensures Merging(list, tl, p, q, done + [post[0]], pre, post[1..], hs)
  {
    TailStep(post);
    q := q0.next;
    list, tl := Attach(list0, tl0, q0, done);
  }

  lemma TakeRunMerges<E>(done: seq<E>, pre: seq<E>, post: seq<E>, k: nat, cmp: (E, E) -> int)
    requires pre != [] && (k == 0 || post == [] || cmp(pre[0], post[0]) <= 0)
    ensures done + Merge(pre, Front(post, k), cmp) == done + [pre[0]] + Merge(pre[1..], Front(post, k), cmp)
  {
    if Front(post, k) == [] {
      assert pre == [pre[0]] + pre[1..];
    }
  }

  lemma TakeTailMerges<E>(done: seq<E>, pre: seq<E>, post: seq<E>, k: nat, cmp: (E, E) -> int)
    requires post != [] && k > 0 && (pre == [] || cmp(pre[0], post[0]) > 0)
    ensures done + Merge(pre, Front(post, k), cmp) == done + [post[0]] + Merge(pre, Front(post[1..], k - 1), cmp)
    ensures post[|Front(post, k)|..] == post[1..][|Front(post[1..], k - 1)|..]
  {
    assert Front(post, k)[1..] == Front(post[1..], k - 1);
    if pre == [] {
      assert Front(post, k) == [post[0]] + Front(post[1..], k - 1);
    }
  }

  /** What a merge of pre with the first k of post is still going to make of the list. */
  ghost predicate Leads<T>(done: seq<Handle<T>>, pre: seq<Handle<T>>, post: seq<Handle<T>>, k: nat,
                           cmp: (T, T) -> int, goal: seq<Handle<T>>, rest: seq<Handle<T>>) {
    && done + Merge(pre, Front(post, k), ByElt(cmp)) == goal
    && post[|Front(post, k)|..] == rest
  }

  lemma LeadsRun<T>(done: seq<Handle<T>>, pre: seq<Handle<T>>, post: seq<Handle<T>>, k: nat,
                    cmp: (T, T) -> int, goal: seq<Handle<T>>, rest: seq<Handle<T>>)
    requires Leads(done, pre, post, k, cmp, goal, rest)
    requires pre != [] && (k == 0 || post == [] || cmp(pre[0].elt, post[0].elt) <= 0)
    ensures Leads(done + [pre[0]], pre[1..], post, k, cmp, goal, rest)
  {
    TakeRunMerges(done, pre, post, k, ByElt(cmp));
  }

  lemma LeadsTail<T>(done: seq<Handle<T>>, pre: seq<Handle<T>>, post: seq<Handle<T>>, k: nat,
                     cmp: (T, T) -> int, goal: seq<Handle<T>>, rest: seq<Handle<T>>)
    requires Leads(done, pre, post, k, cmp, goal, rest)
    requires post != [] && k > 0 && (pre == [] || cmp(pre[0].elt, post[0].elt) > 0)
    ensures Leads(done + [post[0]], pre, post[1..], k - 1, cmp, goal, rest)
  {
    TakeTailMerges(done, pre, post, k, ByElt(cmp));
  }

  /** Merge the run of psize elements at p with the run of up to qsize elements at q. */
  method MergeRuns<T>(list0: Handle?<T>, tl0: Handle?<T>, p0: Handle?<T>, psize0: nat, q0: Handle?<T>, qsize0: nat,
                      cmp: (T, T) -> int, ghost done0: seq<Handle<T>>, ghost pre0: seq<Handle<T>>,
                      ghost post0: seq<Handle<T>>, ghost hs: set<Handle<T>>, ghost goal: seq<Handle<T>>,
                      ghost rest: seq<Handle<T>>)
    returns (list: Handle?<T>, tl: Handle?<T>, q: Handle?<T>)
    requires Merging(list0, tl0, p0, q0, done0, pre0, post0, hs) && |pre0| == psize0
    requires Leads(done0, pre0, post0, qsize0, cmp, goal, rest)
    modifies hs`next, hs`prev
    ensures Merging(list, tl, q, q, goal, [], rest, hs)
  {
    list, tl, q := list0, tl0, q0;
    var p, psize, qsize := p0, psize0, qsize0;
    ghost var done: seq<Handle<T>>, pre: seq<Handle<T>>, post: seq<Handle<T>> := done0, pre0, post0;
    while psize > 0 || (qsize > 0 && q != null)
      invariant Merging(list, tl, p, q, done, pre, post, hs) && |pre| == psize
      invariant Leads(done, pre, post, qsize, cmp, goal, rest)
      decreases |pre| + |post|
    {
      if psize == 0 || (qsize > 0 && q != null && cmp(p.elt, q.elt) > 0) {
        LeadsTail(done, pre, post, qsize, cmp, goal, rest);
        list, tl, q := TakeTail(list, tl, p, q, done, pre, post, hs);
        qsize := qsize - 1;
        done, post := done + [post[0]], post[1..];
      } else {
        LeadsRun(done, pre, post, qsize, cmp, goal, rest);
        list, tl, p := TakeRun(list, tl, p, q, done, pre, post, hs);
        psize := psize - 1;
        done, pre := done + [pre[0]], pre[1..];
      }
    }
  }

  /** Count off up to k elements from p. */
  method Advance<T>(p: Handle<T>, k: nat, ghost s: seq<Handle<T>>) returns (psize: nat, q: Handle?<T>)
    requires Tail(p, s) && k > 0
    ensures psize == Min(k, |s|) && q == At(s, psize)
  {
    q, psize := p, 0;
    for i := 0 to k
      invariant psize == i <= |s| && q == At(s, i) && q != null
    {
      psize := psize + 1;
      q := q.next;
      if q == null {
        break;
      }
    }
  }

  lemma SplitMerging<T>(list: Handle?<T>, tl: Handle?<T>, p: Handle?<T>, m: nat, done: seq<Handle<T>>,
                        s: seq<Handle<T>>, hs: set<Handle<T>>)
    requires Merging(list, tl, p, p, done, [], s, hs) && 0 < m <= |s|
    ensures Merging(list, tl, p, At(s, m), done, s[..m], s[m..], hs)
  {
    forall i | 0 <= i < |s[m..]|
      ensures s[m..][i].next == At(s[m..], i + 1)
    {
      assert s[m..][i] == s[m + i];
    }
  }

  /** The first two runs of k elements, merged. */
  function FirstMerge<E>(s: seq<E>, k: nat, cmp: (E, E) -> int): seq<E> {
    var m, n := Min(k, |s|), Min(2 * k, |s|);
    Merge(s[..m], s[m..n], cmp)
  }

  /** A pass under way: done is merged, s is what the pass still has to read. */
  ghost predicate Passing<E>(done: seq<E>, s: seq<E>, k: nat, cmp: (E, E) -> int, whole: seq<E>, nmerges: nat)
    requires k > 0
  {
    && done + Pass(s, k, cmp) == Pass(whole, k, cmp)
    && (nmerges == 0 ==> s == whole)
    && (nmerges == 1 ==> |s| == |whole| - Min(2 * k, |whole|))
    && (nmerges > 1 ==> |whole| > 2 * k)
  }

  lemma PassingStep<E>(done: seq<E>, s: seq<E>, k: nat, cmp: (E, E) -> int, whole: seq<E>, nmerges: nat)
    requires k > 0 && s != [] && Passing(done, s, k, cmp, whole, nmerges)
    ensures Passing(done + FirstMerge(s, k, cmp), s[Min(2 * k, |s|)..], k, cmp, whole, nmerges + 1)
  {
    var t := s[Min(2 * k, |s|)..];
    assert Pass(s, k, cmp) == FirstMerge(s, k, cmp) + Pass(t, k, cmp);
    assert done + (FirstMerge(s, k, cmp) + Pass(t, k, cmp)) == done + FirstMerge(s, k, cmp) + Pass(t, k, cmp);
  }

  lemma LeadsFirst<T>(done: seq<Handle<T>>, s: seq<Handle<T>>, k: nat, cmp: (T, T) -> int)
    requires k > 0
    ensures var m := Min(k, |s|);
      Leads(done, s[..m], s[m..], k, cmp, done + FirstMerge(s, k, ByElt(cmp)), s[Min(2 * k, |s|)..])
  {
    var m, n := Min(k, |s|), Min(2 * k, |s|);
    assert Front(s[m..], k) == s[m..n];
    assert s[m..][n - m..] == s[n..];
  }

  /** Merge the next two runs of k elements onto the sorted part. */
  method MergeNext<T>(list0: Handle?<T>, tl0: Handle?<T>, p: Handle<T>, k: nat, cmp: (T, T) -> int,
                      ghost done: seq<Handle<T>>, ghost s: seq<Handle<T>>, ghost hs: set<Handle<T>>)
    returns (list: Handle?<T>, tl: Handle?<T>, q: Handle?<T>)
    requires k > 0 && Merging(list0, tl0, p, p, done, [], s, hs)
    modifies hs`next, hs`prev
    ensures Merging(list, tl, q, q, done + FirstMerge(s, k, ByElt(cmp)), [], s[Min(2 * k, |s|)..], hs)
  {
    var psize;
    psize, q := Advance(p, k, s);
    SplitMerging(list0, tl0, p, psize, done, s, hs);
    LeadsFirst(done, s, k, cmp);
    list, tl, q := MergeRuns(list0, tl0, p, psize, q, k, cmp, done, s[..psize], s[psize..], hs,
                             done + FirstMerge(s, k, ByElt(cmp)), s[Min(2 * k, |s|)..]);
  }

  /** head, tail, prev and next spell out the whole list s. */
  ghost predicate Whole<T>(head: Handle?<T>, tail: Handle?<T>, s: seq<Handle<T>>)
    reads s`next, s`prev
  {
    && Distinct(s)
    && head == At(s, 0) && tail == At(s, |s| - 1)
    && (forall i {:trigger s[i].next} :: 0 <= i < |s| ==> s[i].next == At(s, i + 1))
    && (forall i {:trigger s[i].prev} :: 0 <= i < |s| ==> s[i].prev == At(s, i - 1))
  }

  /** Write the last next. */
  method Finish<T>(list: Handle?<T>, tl: Handle<T>, ghost done: seq<Handle<T>>)
    requires Built(list, tl, done) && done != []
    modifies tl`next
    ensures Whole(list, tl, done)
  {
    tl.next := null;
  }

  /** One pass over the list at list0: merge neighbouring runs of k. */
  method PassOnce<T>(list0: Handle<T>, k: nat, cmp: (T, T) -> int, ghost s: seq<Handle<T>>, ghost hs: set<Handle<T>>)
    returns (list: Handle?<T>, tl: Handle?<T>, nmerges: nat, ghost t: seq<Handle<T>>)
    requires k > 0 && Tail(list0, s) && Among(s, hs)
    modifies hs`next, hs`prev
    ensures t == Pass(s, k, ByElt(cmp))
    ensures Whole(list, tl, t) && Among(t, hs)
    ensures nmerges <= 1 <==> |s| <= 2 * k
  {
    var p: Handle?<T> := list0;
    list, tl, nmerges, t := null, null, 0, [];
    ghost var rest: seq<Handle<T>> := s;
    while p != null
      invariant Merging(list, tl, p, p, t, [], rest, hs)
      invariant Passing(t, rest, k, ByElt(cmp), s, nmerges)
      decreases |rest|
    {
      PassingStep(t, rest, k, ByElt(cmp), s, nmerges);
      nmerges := nmerges + 1;
      list, tl, p := MergeNext(list, tl, p, k, cmp, t, rest, hs);
      t, rest := t + FirstMerge(rest, k, ByElt(cmp)), rest[Min(2 * k, |rest|)..];
    }
    assert t + [] == t;
    Finish(list, tl, t);
  }

  /** Sort the list at list0: passes with doubling run length until one does a single merge. */
  method SortList<T>(list0: Handle<T>, cmp: (T, T) -> int, ghost s: seq<Handle<T>>, ghost hs: set<Handle<T>>)
    returns (list: Handle?<T>, tl: Handle?<T>)
    requires Tail(list0, s) && Among(s, hs)
    modifies hs`next, hs`prev
    ensures Whole(list, tl, Passes(s, 1, ByElt(cmp)))
  {
    var insize, looping, nmerges := 1, true, 0;
    list, tl := list0, null;
    ghost var cur: seq<Handle<T>> := s;
    while looping
      invariant 0 < insize && |cur| == |s| && Among(cur, hs)
      invariant looping ==>
          insize <= |s| && Tail(list, cur) && Passes(cur, insize, ByElt(cmp)) == Passes(s, 1, ByElt(cmp))
      invariant !looping ==> Whole(list, tl, cur) && cur == Passes(s, 1, ByElt(cmp))
      decreases looping, |s| - insize
    {
      list, tl, nmerges, cur := PassOnce(list, insize, cmp, cur, hs);
      if nmerges <= 1 {
        looping := false;
      }
      insize := insize * 2;
    }
  }

  /** t is s with the same elements, and a stable sort of it when cmp is a comparison at all. */
  ghost predicate SortedFrom<T>(s: seq<Handle<T>>, t: seq<Handle<T>>, cmp: (T, T) -> int) {
    && multiset(t) == multiset(s)
    && (Comparator(ByElt(cmp), Elems(s)) ==> StableSort(s, t, ByElt(cmp)))
  }

  method SortHandles<T>(list0: Handle<T>, cmp: (T, T) -> int, ghost s: seq<Handle<T>>)
    returns (list: Handle?<T>, tl: Handle?<T>, ghost t: seq<Handle<T>>)
    requires Tail(list0, s)
    modifies Elems(s)`next, Elems(s)`prev
    ensures Whole(list, tl, t) && SortedFrom(s, t, cmp)
  {
    list, tl := SortList(list0, cmp, s, Elems(s));
    t := Passes(s, 1, ByElt(cmp));
    PassesContents(s, 1, ByElt(cmp));
    if Comparator(ByElt(cmp), Elems(s)) {
      SortIsStable(s, ByElt(cmp), Elems(s));
    }
  }
}
