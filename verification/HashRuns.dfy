/** Whole runs of the hash table against the value it refines: a finite map that is iterated in
    insertion order. */
module HashRuns {
  import opened Chains
  import opened Handles
  import opened Options
  import opened UtHash

  /** The client's calls: add if absent, delete if present, look up. */
  datatype Op<T> = Put(key: Key, elt: T) | Drop(key: Key) | Look(key: Key)

  function Lookup<T>(m: seq<(Key, T)>, key: Key): Option<T> {
    if m == [] then None
    else if m[0].0 == key then Some(m[0].1)
    else Lookup(m[1..], key)
  }

  function Remove<T>(m: seq<(Key, T)>, key: Key): seq<(Key, T)> {
    if m == [] then []
    else if m[0].0 == key then m[1..]
    else [m[0]] + Remove(m[1..], key)
  }

  function Apply<T>(m: seq<(Key, T)>, op: Op<T>): seq<(Key, T)> {
    match op
    case Put(key, elt) => if Lookup(m, key).None? then m + [(key, elt)] else m
    case Drop(key) => Remove(m, key)
    case Look(_) => m
  }

  function ApplyAll<T>(m: seq<(Key, T)>, ops: seq<Op<T>>): seq<(Key, T)>
    decreases |ops|
  {
    if ops == [] then m else ApplyAll(Apply(m, ops[0]), ops[1..])
  }

  /** What the map knows about the key of each call just before it. */
  function Answers<T>(m: seq<(Key, T)>, ops: seq<Op<T>>): (r: seq<Option<T>>)
    ensures |r| == |ops|
    decreases |ops|
  {
    if ops == [] then [] else [Lookup(m, ops[0].key)] + Answers(Apply(m, ops[0]), ops[1..])
  }

  function View<T>(order: seq<Handle<T>>): (m: seq<(Key, T)>)
    ensures |m| == |order|
    ensures forall i :: 0 <= i < |order| ==> m[i] == (order[i].key, order[i].elt)
  {
    seq(|order|, i requires 0 <= i < |order| => (order[i].key, order[i].elt))
  }

  lemma {:induction false} LookupAbsent<T>(order: seq<Handle<T>>, key: Key)
    requires forall h :: h in order ==> h.key != key
    ensures Lookup(View(order), key) == None && Remove(View(order), key) == View(order)
  {
    if order != [] {
      assert View(order)[1..] == View(order[1..]);
      LookupAbsent(order[1..], key);
      assert View(order) == [View(order)[0]] + View(order)[1..];
    }
  }

  lemma ViewSnoc<T>(order: seq<Handle<T>>, h: Handle<T>)
    ensures View(order + [h]) == View(order) + [(h.key, h.elt)]
  {
  }

  lemma {:induction false} LookupPresent<T>(order: seq<Handle<T>>, k: nat)
    requires k < |order| && HashTable.DistinctKeys(order)
    ensures Lookup(View(order), order[k].key) == Some(order[k].elt)
    ensures Remove(View(order), order[k].key) == View(Without(order, k))
  {
    assert View(order)[1..] == View(order[1..]);
    assert HashTable.DistinctKeys(order[1..]) && (k > 0 ==> order[0].key != order[k].key);
    hide HashTable.DistinctKeys;
    if k == 0 {
      assert Without(order, k) == order[1..];
    } else {
      LookupPresent(order[1..], k - 1);
      assert Without(order, k) == [order[0]] + Without(order[1..], k - 1);
      assert View(Without(order, k)) == [View(order)[0]] + View(Without(order[1..], k - 1));
    }
  }

  /** One call on the table is one step of the map. */
  method Step<T>(t: HashTable<T>, op: Op<T>) returns (answer: Option<T>)
    requires t.Valid()
    modifies t, t.buckets, Elems(t.order)
    ensures t.Valid() && View(t.order) == Apply(View(old(t.order)), op)
    ensures answer == Lookup(View(old(t.order)), op.key)
    ensures fresh(t.buckets) || t.buckets == old(t.buckets)
    ensures fresh(Elems(t.order) - old(Elems(t.order)))
  {
    hide HashTable.Listed, HashTable.Indexed, HashTable.Crowds;
    assert HashTable.DistinctKeys(t.order);
    hide HashTable.Valid, HashTable.DistinctKeys, Lookup, Remove, View, Without;
    var out := t.Find(op.key);
    if out == null {
      LookupAbsent(t.order, op.key);
      answer := None;
      if op.Put? {
        var h := new Handle(op.key, op.elt);
        ghost var order := t.order;
        t.Add(h);
        ViewSnoc(order, h);
      }
    } else {
      ghost var j :| 0 <= j < |t.order| && t.order[j] == out;
      LookupPresent(t.order, j);
      answer := Some(out.elt);
      if op.Drop? {
        ghost var k := t.Delete(out);
      }
    }
  }

  lemma OneMoreCall<T>(m: seq<(Key, T)>, ops: seq<Op<T>>, i: nat)
    requires i < |ops|
    ensures Answers(m, ops[i..]) == [Lookup(m, ops[i].key)] + Answers(Apply(m, ops[i]), ops[i + 1..])
    ensures ApplyAll(m, ops[i..]) == ApplyAll(Apply(m, ops[i]), ops[i + 1..])
  {
    assert ops[i..][1..] == ops[i + 1..];
  }

  lemma LastCall<T>(m: seq<(Key, T)>)
    ensures Answers(m, []) == [] && ApplyAll(m, []) == m
  {
  }

  /** The integrity check passes on every table that satisfies the invariant. */
  method Checks<T>(t: HashTable<T>) returns (ok: bool)
    requires t.Valid()
    ensures ok
  {
    t.ValidIsSound();
    ok := t.Fsck(Elems(t.order));
  }

  /** Any run of calls on a fresh table: the answers are the map's answers, and at the end the
      table's integrity check passes and its elements are the map's, in the map's order. */
  method RunAll<T>(hashFcn: Key -> nat, ops: seq<Op<T>>)
    returns (answers: seq<Option<T>>, order: seq<Handle<T>>, ok: bool)
    ensures answers == Answers([], ops)
    ensures View(order) == ApplyAll([], ops)
    ensures ok
  {
    hide HashTable.Valid, Answers, ApplyAll, Apply, Lookup;
    LastCall<T>([]);
    var t := new HashTable<T>(hashFcn);
    assert View(t.order) == [] && ops[0..] == ops;
    answers := [];
    var i := 0;
    while i < |ops|
      invariant 0 <= i <= |ops| && t.Valid()
      invariant fresh(t) && fresh(t.buckets) && fresh(Elems(t.order))
      invariant answers + Answers(View(t.order), ops[i..]) == Answers([], ops)
      invariant ApplyAll(View(t.order), ops[i..]) == ApplyAll([], ops)
    {
      OneMoreCall(View(t.order), ops, i);
      var a := Step(t, ops[i]);
      answers := answers + [a];
      i := i + 1;
    }
    LastCall(View(t.order));
    ok := Checks(t);
    order := t.Elements();
  }
}
