/** The list of known gates (hopper.c, protocol.c): our own gate first, then the configured ones
    and the ones learned through trust packets. */
module GateList {
  import opened Chains
  import opened Networks

  class Gate {
    const name: string
    const net: Network
    var next: Gate?
    var prev: Gate?

    constructor (name: string, net: Network)
      ensures this.name == name && this.net == net && next == null && prev == null
    {
      this.name, this.net, next, prev := name, net, null, null;
    }
  }

  function At(s: seq<Gate>, i: int): Gate? {
    if 0 <= i < |s| then s[i] else null
  }

  function NetsOf(s: seq<Gate>): (r: seq<Network>)
    ensures |r| == |s| && forall i :: 0 <= i < |s| ==> r[i] == s[i].net
  {
    seq(|s|, i requires 0 <= i < |s| => s[i].net)
  }

  /** next runs through s from its first gate to null. */
  ghost predicate Forward(s: seq<Gate>)
    reads s`next
  {
    && Distinct(s)
    && (forall i {:trigger s[i].next} :: 0 <= i < |s| ==> s[i].next == At(s, i + 1))
  }

  /** What holds of prev in every state: a gate points back to its predecessor or, when trust
      packets have put newer gates before it, still to our own gate. */
  ghost predicate Backward(s: seq<Gate>)
    reads s`prev
  {
    && (s != [] ==> s[0].prev == null)
    && (forall i {:trigger s[i].prev} :: 1 <= i < |s| ==> s[i].prev == s[i - 1] || s[i].prev == s[0])
  }

  /** next skips from the j-th gate of s to the one after its i-th. */
  ghost predicate Skips(s: seq<Gate>, j: nat, i: nat)
    requires j < i < |s|
    reads s`next
  {
    && Distinct(s)
    && (forall k {:trigger s[k].next} :: 0 <= k <= j ==> s[k].next == At(s, if k == j then i + 1 else k + 1))
    && (forall k {:trigger s[k].next} :: i < k < |s| ==> s[k].next == At(s, k + 1))
  }

  function CutOut(s: seq<Gate>, j: nat, i: nat): (r: seq<Gate>)
    requires j < i < |s|
    ensures |r| == |s| - (i - j) && forall k :: 0 <= k < |r| ==> r[k] == s[if k <= j then k else k + i - j]
  {
    s[..j + 1] + s[i + 1..]
  }

  lemma CutOutOne(s: seq<Gate>, i: nat)
    requires 1 <= i < |s|
    ensures CutOut(s, i - 1, i) == s[..i] + s[i + 1..]
  {
  }

  lemma SkippingIsForward(s: seq<Gate>, j: nat, i: nat)
    requires j < i < |s| && Skips(s, j, i)
    ensures Forward(CutOut(s, j, i))
  {
    var r := CutOut(s, j, i);
    forall k | 0 <= k < |r| ensures r[k].next == At(r, k + 1) {
      var m := if k <= j then k else k + i - j;
      assert r[k] == s[m] && s[m].next == At(s, if m == j then i + 1 else m + 1);
    }
  }

  /** prev without the gates behind the j-th up to the i-th: like Backward, or, for exact, the inverse
      of next. */
  ghost predicate Repointed(s: seq<Gate>, j: nat, i: nat, exact: bool)
    requires j < i < |s|
    reads s`prev
  {
    && s[0].prev == null
    && (forall k {:trigger s[k].prev} :: 1 <= k <= j || i < k < |s| ==>
          || s[k].prev == s[if k == i + 1 then j else k - 1]
          || (!exact && k != i + 1 && s[k].prev == s[0]))
  }

  /** prev is the exact inverse of next. */
  ghost predicate Inverse(s: seq<Gate>)
    reads s`prev
  {
    forall k {:trigger s[k].prev} :: 1 <= k < |s| ==> s[k].prev == s[k - 1]
  }

  lemma RepointedIsBackward(s: seq<Gate>, j: nat, i: nat, exact: bool)
    requires j < i < |s| && Repointed(s, j, i, exact)
    ensures Backward(CutOut(s, j, i)) && (exact ==> Inverse(CutOut(s, j, i)))
  {
    var r := CutOut(s, j, i);
    forall k | 1 <= k < |r| ensures r[k].prev == r[k - 1] || (!exact && r[k].prev == r[0]) {
      var m := if k <= j then k else k + i - j;
      assert r[k] == s[m] && r[k - 1] == s[if m == i + 1 then j else m - 1];
    }
  }

  /** Connect the gates on both sides of g. */
  method Relink(g: Gate, ghost s: seq<Gate>, ghost j: nat, ghost i: nat, ghost exact: bool)
    requires Forward(s) && Backward(s) && (exact ==> Inverse(s))
    requires j < i < |s| && s[i] == g && g.prev == s[j]
    modifies Elems(s)`next, Elems(s)`prev
    ensures Skips(s, j, i) && Repointed(s, j, i, exact)
  {
    assert g.next == At(s, i + 1);
    if g.next != null {
      g.next.prev := g.prev;
    }
    if g.prev != null {
      g.prev.next := g.next;
    }
  }

  class Gates {
    var gateInfo: Gate?
    ghost var chain: seq<Gate>

    constructor ()
      ensures Valid() && chain == []
    {
      gateInfo, chain := null, [];
    }

    ghost predicate Valid()
      reads this, chain
    {
      gateInfo == At(chain, 0) && Forward(chain) && Backward(chain)
    }

    /** get_arg_network: the first gate whose network holds ip. */
    method GetArgNetwork(ip: Addr) returns (g: Gate?, ghost i: nat)
      requires Valid()
      ensures i <= |chain| && g == At(chain, i)
      ensures forall k :: 0 <= k < i ==> !In(ip, chain[k].net)
      ensures g != null ==> In(ip, g.net)
    {
      g, i := gateInfo, 0;
      while g != null
        invariant i <= |chain| && g == At(chain, i)
        invariant forall k :: 0 <= k < i ==> !In(ip, chain[k].net)
        decreases |chain| - i
      {
        var r := MaskArrayCmp(g.net.mask, g.net.base, ip);
        if r == 0 {
          return;
        }
        g, i := g.next, i + 1;
      }
    }

    /** Put a new gate right behind our own. The old successor's prev is left alone. */
    method Insert(g: Gate)
      requires Valid() && chain != [] && g !in chain
      modifies this`chain, g`next, g`prev, Elems(chain)`next
      ensures Valid() && chain == [old(chain)[0], g] + old(chain)[1..]
    {
      g.next := gateInfo.next;
      g.prev := gateInfo;
      gateInfo.next := g;
      chain := [chain[0], g] + chain[1..];
    }

    /** The gate-list part of process_arg_trust. */
    method Learn(name: string, net: Network) returns (added: bool)
      requires Valid() && chain != []
      modifies this`chain, Elems(chain)`next
      ensures Valid()
      ensures added <==> forall g :: g in old(chain) ==> !In(net.base, g.net)
      ensures !added ==> chain == old(chain)
      ensures added ==> |chain| == |old(chain)| + 1 && fresh(chain[1])
      ensures added ==> chain[1].name == StoredName(name) && chain[1].net == Masked(net)
      ensures added ==> chain == [old(chain)[0], chain[1]] + old(chain)[1..]
    {
      var g, i := GetArgNetwork(net.base);
      added := g == null;
      if added {
        var masked := MaskBase(net);
        var newGate := new Gate(StoredName(name), masked);
        Insert(newGate);
      } else {
        assert g in chain;
      }
    }

    /** remove_arg_network on the i-th gate, whose prev is the j-th: everything between the two
        is lost with it. */
    method Remove(g: Gate, ghost i: nat, ghost j: nat)
      requires Valid() && j < i < |chain| && chain[i] == g && g.prev == chain[j]
      modifies this`chain, Elems(chain)`next, Elems(chain)`prev
      ensures Valid() && chain == old(chain)[..j + 1] + old(chain)[i + 1..]
    {
      ghost var s := chain;
      Relink(g, s, j, i, false);
      chain := CutOut(s, j, i);
      SkippingIsForward(s, j, i);
      RepointedIsBackward(s, j, i, false);
      hide Forward, Backward, Skips, Repointed;
    }

    /** remove_all_associated_arg_networks: only our own gate is left. */
    method RemoveAll()
      requires Valid()
      modifies this`chain, Elems(chain)`next, Elems(chain)`prev
      ensures Valid() && chain == if old(chain) == [] then [] else [old(chain)[0]]
    {
      if gateInfo == null {
        return;
      }
      ghost var s := chain;
      while gateInfo.next != null
        invariant Valid() && chain != [] && chain[0] == s[0] && Elems(chain) <= Elems(s)
        decreases |chain|
      {
        Remove(gateInfo.next, 1, 0);
      }
    }

    /** A list as configuration builds it: prev is the exact inverse of next. */
    ghost predicate Linked()
      reads this, chain
    {
      Valid() && Inverse(chain)
    }

    /** Hook a new gate behind the last one. */
    method Append(last: Gate?, g: Gate)
      requires Linked() && last == At(chain, |chain| - 1)
      requires g !in chain && g.next == null && g.prev == null
      modifies this, Elems(chain)`next, g`prev
      ensures Linked() && chain == old(chain) + [g]
    {
      if gateInfo == null {
        gateInfo := g;
      }
      if last != null {
        last.next := g;
        g.prev := last;
      }
      chain := chain + [g];
    }

    /** Unhook the k-th gate, not the head, of a configured list. */
    method Unhook(g: Gate, ghost k: nat)
      requires Linked() && 1 <= k < |chain| && chain[k] == g
      modifies this`chain, Elems(chain)`next, Elems(chain)`prev
      ensures Linked() && chain == old(chain)[..k] + old(chain)[k + 1..] && chain[0] == old(chain)[0]
    {
      hide Forward, Skips, Repointed, CutOut, Elems;
      ghost var s := chain;
      Relink(g, s, k - 1, k, true);
      chain := CutOut(s, k - 1, k);
      SkippingIsForward(s, k - 1, k);
      RepointedIsBackward(s, k - 1, k, true);
      hide Backward, Inverse;
      CutOutOne(s, k);
    }

    /** Make an unhooked gate the head. */
    method Crown(g: Gate)
      requires Linked() && chain != [] && g !in chain
      modifies this, chain[0], g
      ensures Linked() && chain == [g] + old(chain)
    {
      gateInfo.prev := g;
      g.prev := null;
      g.next := gateInfo;
      gateInfo := g;
      chain := [g] + chain;
    }

    /** Make the k-th gate the head of the list. */
    method MoveToFront(g: Gate, ghost k: nat)
      requires Linked() && k < |chain| && chain[k] == g
      modifies this, Elems(chain)
      ensures Linked() && chain == [g] + old(chain)[..k] + old(chain)[k + 1..]
    {
      if g != gateInfo {
        Unhook(g, k);
        Crown(g);
      }
    }

    /** One gate per configured entry, in the order of the entries. */
    method Build(entries: seq<(string, Network)>)
      requires Valid() && chain == []
      modifies this
      ensures Linked() && fresh(chain) && Entries(chain) == Stored(entries)
    {
      hide Entries, Stored;
      var last: Gate? := null;
      for i := 0 to |entries|
        invariant Linked() && fresh(chain) && |chain| == i && last == At(chain, i - 1)
        invariant Entries(chain) == Stored(entries[..i])
      {
        ghost var before := chain;
        var masked := MaskBase(entries[i].1);
        var g := new Gate(StoredName(entries[i].0), masked);
        Append(last, g);
        OneMoreEntry(before, g, entries, i);
        last := g;
      }
      assert entries[..|entries|] == entries;
    }

    /** The first entry with our name; |entries| when there is none. */
    static function OurIndex(entries: seq<(string, Network)>, ourName: string): (k: nat)
      ensures k <= |entries|
      ensures forall i :: 0 <= i < k ==> StoredName(entries[i].0) != ourName
      ensures k < |entries| ==> StoredName(entries[k].0) == ourName
    {
      if entries == [] || StoredName(entries[0].0) == ourName then 0 else 1 + OurIndex(entries[1..], ourName)
    }

    /** The list part of get_hopper_conf: one gate per configured entry, our own moved to the
        front; an error when our name is not among them. */
    method Configure(entries: seq<(string, Network)>, ourName: string) returns (ok: bool)
      requires Valid() && chain == []
      modifies this
      ensures Linked() && fresh(chain)
      ensures var k := OurIndex(entries, ourName);
        && ok == (k < |entries|)
        && Entries(chain) == Stored(if ok then [entries[k]] + entries[..k] + entries[k + 1..] else entries)
    {
      hide Stored, Entries, Gates.OurIndex, StoredName;
      Build(entries);
      ghost var s := chain;
      var curr, k := FindName(ourName);
      FoundAt(s, entries, ourName, k);
      ok := curr != null;
      if ok {
        MoveToFront(curr, k);
        MovedEntries(s, entries, k);
      }
    }

    method FindName(name: string) returns (g: Gate?, k: nat)
      requires Valid()
      ensures k <= |chain| && g == At(chain, k)
      ensures forall i :: 0 <= i < k ==> chain[i].name != name
      ensures g != null ==> g.name == name
    {
      g, k := gateInfo, 0;
      while g != null
        invariant k <= |chain| && g == At(chain, k)
        invariant forall i :: 0 <= i < k ==> chain[i].name != name
        decreases |chain| - k
      {
        if g.name == name {
          return;
        }
        g, k := g.next, k + 1;
      }
    }
  }

  const MAX_NAME_SIZE: nat := 10

  /** A gate's name field keeps at most nine characters. */
  function StoredName(n: string): (r: string)
    ensures r <= n && |r| == if |n| <= 9 then |n| else 9
  {
    if |n| < MAX_NAME_SIZE then n else n[..MAX_NAME_SIZE - 1]
  }

  function Stored(entries: seq<(string, Network)>): (r: seq<(string, Network)>)
    ensures |r| == |entries| && forall i :: 0 <= i < |r| ==> r[i] == (StoredName(entries[i].0), Masked(entries[i].1))
  {
    seq(|entries|, i requires 0 <= i < |entries| => (StoredName(entries[i].0), Masked(entries[i].1)))
  }

  function Entries(s: seq<Gate>): (r: seq<(string, Network)>)
    ensures |r| == |s| && forall i :: 0 <= i < |r| ==> r[i] == (s[i].name, s[i].net)
  {
    seq(|s|, i requires 0 <= i < |s| => (s[i].name, s[i].net))
  }

  lemma OneMoreEntry(s: seq<Gate>, g: Gate, entries: seq<(string, Network)>, i: nat)
    requires i < |entries| && Entries(s) == Stored(entries[..i])
    requires g.name == StoredName(entries[i].0) && g.net == Masked(entries[i].1)
    ensures Entries(s + [g]) == Stored(entries[..i + 1])
  {
    assert Entries(s + [g]) == Entries(s) + [(g.name, g.net)];
    assert Stored(entries[..i + 1]) == Stored(entries[..i]) + [(StoredName(entries[i].0), Masked(entries[i].1))];
  }

  lemma FoundAt(s: seq<Gate>, entries: seq<(string, Network)>, ourName: string, k: nat)
    requires Entries(s) == Stored(entries) && k <= |s|
    requires forall i :: 0 <= i < k ==> s[i].name != ourName
    requires k < |s| ==> s[k].name == ourName
    ensures |s| == |entries| && k == Gates.OurIndex(entries, ourName)
  {
    assert forall i :: 0 <= i < |s| ==> (s[i].name, s[i].net) == Entries(s)[i] == Stored(entries)[i];
  }

  lemma MovedEntries(s: seq<Gate>, entries: seq<(string, Network)>, k: nat)
    requires k < |s| && Entries(s) == Stored(entries)
    ensures Entries([s[k]] + s[..k] + s[k + 1..]) == Stored([entries[k]] + entries[..k] + entries[k + 1..])
  {
    forall i | 0 <= i < |s|
      ensures (s[i].name, s[i].net) == (StoredName(entries[i].0), Masked(entries[i].1))
    {
      assert Entries(s)[i] == Stored(entries)[i];
    }
  }
}
