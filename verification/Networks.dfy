/** Addresses, masks and the networks they describe: the byte loops of utility.c, and what it
    takes for an address to belong to one gate only. */
module Networks {

  const ADDR_SIZE: nat := 4

  /** An IPv4 address or mask as its bytes in network order. */
  type Addr = s: seq<bv8> | |s| == ADDR_SIZE witness [0, 0, 0, 0]

  /** x lies in the network with this base and mask. */
  predicate Matches(mask: Addr, base: Addr, x: Addr) {
    forall k :: 0 <= k < ADDR_SIZE ==> base[k] & mask[k] == x[k] & mask[k]
  }

  /** mask_array; result may be the same buffer as orig. */
  method MaskArray(orig: array<bv8>, mask: array<bv8>, result: array<bv8>)
    requires orig.Length == mask.Length == result.Length && (result != mask)
    modifies result
    ensures forall k :: 0 <= k < result.Length ==> result[k] == old(orig[k]) & old(mask[k])
  {
    for i := 0 to orig.Length
      invariant forall k :: 0 <= k < i ==> result[k] == old(orig[k]) & old(mask[k])
      invariant forall k :: i <= k < orig.Length ==> orig[k] == old(orig[k])
    {
      result[i] := orig[i] & mask[i];
    }
  }

  /** mask_array_cmp: 0 exactly when both sides agree under the mask. */
  method MaskArrayCmp(mask: Addr, left: Addr, right: Addr) returns (r: int)
    ensures r == 0 || r == 1
    ensures r == 0 <==> Matches(mask, left, right)
  {
    for i := 0 to ADDR_SIZE
      invariant forall k :: 0 <= k < i ==> left[k] & mask[k] == right[k] & mask[k]
    {
      if left[i] & mask[i] != right[i] & mask[i] {
        return 1;
      }
    }
    return 0;
  }

  datatype Network = Network(base: Addr, mask: Addr)

  predicate In(x: Addr, n: Network) {
    Matches(n.mask, n.base, x)
  }

  function MaskedAddr(base: Addr, mask: Addr): Addr {
    seq(ADDR_SIZE, k requires 0 <= k < ADDR_SIZE => base[k] & mask[k])
  }

  /** The network as it is stored: the base keeps only what the mask covers. */
  function Masked(n: Network): Network {
    Network(MaskedAddr(n.base, n.mask), n.mask)
  }

  /** Masking the base of a network, as both callers of mask_array do it: in place. */
  method MaskBase(n: Network) returns (r: Network)
    ensures r == Masked(n)
    ensures r.mask == n.mask && forall k :: 0 <= k < ADDR_SIZE ==> r.base[k] == n.base[k] & n.mask[k]
  {
    var base := new bv8[ADDR_SIZE](i requires 0 <= i < ADDR_SIZE => n.base[i]);
    var mask := new bv8[ADDR_SIZE](i requires 0 <= i < ADDR_SIZE => n.mask[i]);
    MaskArray(base, mask, base);
    r := Network(base[..], n.mask);
  }

  /** Masking the base changes no membership. */
  lemma MaskedSame(n: Network, x: Addr)
    ensures In(x, Masked(n)) <==> In(x, n)
  {
    forall k | 0 <= k < ADDR_SIZE
      ensures Masked(n).base[k] & n.mask[k] == n.base[k] & n.mask[k]
    {
      MaskTwice(n.base[k], n.mask[k]);
    }
  }

  lemma MaskTwice(b: bv8, m: bv8)
    ensures (b & m) & m == b & m
  {
  }

  /** No address lies in both. */
  ghost predicate Disjoint(a: Network, b: Network) {
    forall x: Addr :: !(In(x, a) && In(x, b))
  }

  /** The networks disagree on a bit that both masks cover. */
  predicate Differ(a: Network, b: Network) {
    exists k :: 0 <= k < ADDR_SIZE && a.base[k] & a.mask[k] & b.mask[k] != b.base[k] & b.mask[k] & a.mask[k]
  }

  /** Some byte belongs to both masked bytes exactly when they agree where both masks are set. */
  function CommonByte(ab: bv8, am: bv8, bb: bv8, bm: bv8): (x: bv8)
    ensures ab & am & bm == bb & bm & am ==> ab & am == x & am && bb & bm == x & bm
  {
    (ab & am) | (bb & bm)
  }

  function CommonAddr(a: Network, b: Network): (x: Addr)
    ensures !Differ(a, b) ==> In(x, a) && In(x, b)
  {
    seq(ADDR_SIZE, k requires 0 <= k < ADDR_SIZE => CommonByte(a.base[k], a.mask[k], b.base[k], b.mask[k]))
  }

  /** Two networks share no address exactly when they differ on a commonly covered bit. */
  lemma DisjointIffDiffer(a: Network, b: Network)
    ensures Disjoint(a, b) <==> Differ(a, b)
  {
    if !Differ(a, b) {
      assert In(CommonAddr(a, b), a) && In(CommonAddr(a, b), b);
    }
  }

  predicate CoversByte(m: bv8, n: bv8) {
    m & n == m
  }

  /** Every bit of mask m is set in mask n. */
  predicate Covers(m: Addr, n: Addr) {
    forall k :: 0 <= k < ADDR_SIZE ==> CoversByte(m[k], n[k])
  }

  /** A learned network whose base is outside a known one stays disjoint from it whenever its
      mask contains the known mask. */
  lemma NarrowerIsDisjoint(known: Network, learned: Network)
    requires Covers(known.mask, learned.mask) && !In(learned.base, known)
    ensures Disjoint(known, learned)
  {
    DisjointIffDiffer(known, learned);
    var k :| 0 <= k < ADDR_SIZE && known.base[k] & known.mask[k] != learned.base[k] & known.mask[k];
    assert CoversByte(known.mask[k], learned.mask[k]);
  }

  /** With masks of which one contains the other (as prefix masks do), a learned network whose
      base is outside a known one is disjoint from it exactly when the known base is outside the
      learned network too, which process_arg_trust does not check. */
  lemma LearnedDisjoint(known: Network, learned: Network)
    requires Covers(known.mask, learned.mask) || Covers(learned.mask, known.mask)
    requires !In(learned.base, known)
    ensures Disjoint(known, learned) <==> !In(known.base, learned)
  {
    if Covers(known.mask, learned.mask) {
      NarrowerIsDisjoint(known, learned);
      var k :| 0 <= k < ADDR_SIZE && known.base[k] & known.mask[k] != learned.base[k] & known.mask[k];
      assert CoversByte(known.mask[k], learned.mask[k]);
      assert known.base[k] & learned.mask[k] != learned.base[k] & learned.mask[k];
    } else if !In(known.base, learned) {
      NarrowerIsDisjoint(learned, known);
      assert Disjoint(known, learned);
    } else {
      assert In(known.base, known);
    }
  }
}
