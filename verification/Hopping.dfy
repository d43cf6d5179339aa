/** The hopping address of a gate (hopper.c, crypto.c): how it is generated, which addresses a
    receiver accepts, and how much delay and clock error the acceptance tolerates. */
module Hopping {
  import opened Networks
  import opened Octets
  import opened Timing

  const HMAC_SIZE: nat := 20

  type Mac = s: seq<bv8> | |s| == HMAC_SIZE witness seq(HMAC_SIZE, _ => 0)

  /** HMAC-SHA1 of a counter, left uninterpreted. */
  type HmacFn = (Bytes, nat) -> Mac

  /** What a gate record says about the owner's hopping: hopInterval is an unsigned 32-bit
      number of milliseconds. */
  datatype Gate = Gate(timeBase: Timespec, hopKey: Bytes, hopInterval: nat, net: Network)

  /** Four bytes as a number, most significant first. */
  function Join(a: bv8, b: bv8, c: bv8, d: bv8): (r: bv32)
    ensures a < 0x80 ==> r < 0x8000_0000
  {
    (a as bv32 << 24) | (b as bv32 << 16) | (c as bv32 << 8) | (d as bv32)
  }

  /** Where the last four bits of the code point to. */
  function Offset(mac: Mac): (at: nat)
    ensures at < 16
  {
    (mac[HMAC_SIZE - 1] & 0xf) as nat
  }

  /** The dynamic truncation of section 5.3 of RFC 4226. */
  function Truncate(mac: Mac): (r: bv32)
    ensures r < 0x8000_0000
  {
    var offset := Offset(mac);
    Join(mac[offset] & 0x7f, mac[offset + 1], mac[offset + 2], mac[offset + 3])
  }

  function Hotp(hmac: HmacFn, key: Bytes, count: nat): bv32 {
    Truncate(hmac(key, count))
  }

  /** The counter totp uses at a (possibly negative) time, after the conversion to unsigned. */
  function Count(interval: nat, time: int): nat {
    ToUint64(time) / (if interval == 0 then 1 else interval)
  }

  /** The hop counter of gate g at now, corrected by some milliseconds. */
  function Hop(g: Gate, now: Timespec, correction: int): nat {
    Count(g.hopInterval, TimeOffset(g.timeBase, now) + correction)
  }

  function ByteOf(bits: bv32, k: nat): bv8
    requires k < 4
  {
    (if k == 0 then bits & 0xff
     else if k == 1 then (bits >> 8) & 0xff
     else if k == 2 then (bits >> 16) & 0xff
     else (bits >> 24) & 0xff) as bv8
  }

  /** Network part from the base, host part from the hop bits. */
  function Fill(base: bv8, mask: bv8, bits: bv8): bv8 {
    base | (!mask & bits)
  }

  function AddressOf(net: Network, bits: bv32): Addr {
    [Fill(net.base[0], net.mask[0], ByteOf(bits, 0)), Fill(net.base[1], net.mask[1], ByteOf(bits, 1)),
     Fill(net.base[2], net.mask[2], ByteOf(bits, 2)), Fill(net.base[3], net.mask[3], ByteOf(bits, 3))]
  }

  function Address(hmac: HmacFn, g: Gate, hop: nat): Addr {
    AddressOf(g.net, Hotp(hmac, g.hopKey, hop))
  }

  /** generate_ip_corrected, filling the caller's buffer from its last byte backwards. */
  method GenerateIp(hmac: HmacFn, g: Gate, now: Timespec, correction: int, ip: array<bv8>)
    requires ip.Length == ADDR_SIZE
    modifies ip
    ensures ip[..] == Address(hmac, g, Hop(g, now, correction))
  {
    hide ByteOf, Hotp, Hop;
    forall k | 0 <= k < ADDR_SIZE {
      ip[k] := g.net.base[k];
    }
    var bits := Hotp(hmac, g.hopKey, Hop(g, now, correction));
    for i := 0 to ADDR_SIZE
      invariant forall k :: 0 <= k < ADDR_SIZE - i ==> ip[k] == g.net.base[k]
      invariant forall k :: ADDR_SIZE - i <= k < ADDR_SIZE ==>
          ip[k] == Fill(g.net.base[k], g.net.mask[k], ByteOf(bits, k))
    {
      var k := ADDR_SIZE - i - 1;
      ip[k] := ip[k] | (!g.net.mask[k] & ByteOf(bits, k));
    }
  }

  /** The correction argument for "one hop ago": an unsigned negation converted to int. */
  function OneHopBack(interval: nat): int {
    ToInt32(ToUint32(-(interval as int)))
  }

  /** The gate has been hopping for an interval, and the interval fits an int. */
  predicate Hops(g: Gate, now: Timespec, later: Timespec) {
    && 0 < g.hopInterval <= TWO_31
    && 0 <= TimeOffset(g.timeBase, now) < TWO_64
    && g.hopInterval <= TimeOffset(g.timeBase, later) < TWO_64
  }

  /** How often a whole interval fits into a time. */
  function Intervals(t: nat, h: nat): (n: nat)
    requires h > 0
    ensures n * h <= t < (n + 1) * h
  {
    assert t == t / h * h + t % h && (t / h + 1) * h == t / h * h + h;
    t / h
  }

  /** The hop of a moment, and the hop one interval before it. */
  function ThisHop(g: Gate, now: Timespec): nat
    requires g.hopInterval > 0 && 0 <= TimeOffset(g.timeBase, now)
  {
    Intervals(TimeOffset(g.timeBase, now), g.hopInterval)
  }

  function HopBefore(g: Gate, now: Timespec): nat
    requires 0 < g.hopInterval <= TimeOffset(g.timeBase, now)
  {
    Intervals(TimeOffset(g.timeBase, now) - g.hopInterval, g.hopInterval)
  }

  /** is_valid_ip; the two comparisons read the clock one after the other. Only the address of the
      hop of the first reading and that of the hop before the second one's pass. */
  method IsValidIp(hmac: HmacFn, g: Gate, ip: Addr, now: Timespec, later: Timespec) returns (valid: bool)
    ensures valid <==> Accepts(hmac, g, ip, now, later)
    ensures Hops(g, now, later) ==>
      (valid <==> ip == Address(hmac, g, ThisHop(g, now)) || ip == Address(hmac, g, HopBefore(g, later)))
  {
    if Hops(g, now, later) {
      AcceptsIff(hmac, g, ip, now, later);
    }
    hide Address, TimeOffset;
    var genIP := new bv8[ADDR_SIZE];
    GenerateIp(hmac, g, now, 0, genIP);
    if ip == genIP[..] {
      valid := true;
    } else {
      GenerateIp(hmac, g, later, OneHopBack(g.hopInterval), genIP);
      valid := ip == genIP[..];
    }
  }

  predicate Accepts(hmac: HmacFn, g: Gate, ip: Addr, now: Timespec, later: Timespec) {
    || ip == Address(hmac, g, Hop(g, now, 0))
    || ip == Address(hmac, g, Hop(g, later, OneHopBack(g.hopInterval)))
  }

  /** The correction means one hop ago exactly for intervals of at most 2^31 ms. */
  lemma OneHopBackExact(interval: nat)
    requires interval < TWO_32
    ensures OneHopBack(interval) == 0 - interval <==> interval <= TWO_31
  {
    if interval > 0 {
      assert (-(interval as int)) % TWO_32 == TWO_32 - interval;
    }
  }

  lemma FillKeepsBase(base: bv8, mask: bv8, bits: bv8)
    ensures base & mask == Fill(base, mask, bits) & mask
    ensures base & !mask == 0 ==> Fill(base, mask, bits) & !mask == bits & !mask
  {
  }

  /** Every address generated for a gate lies in the gate's network. */
  lemma GeneratedInNetwork(hmac: HmacFn, g: Gate, hop: nat)
    ensures In(Address(hmac, g, hop), g.net)
  {
    hide Hotp, AddressOf;
    var bits := Hotp(hmac, g.hopKey, hop);
    forall k | 0 <= k < ADDR_SIZE
      ensures g.net.base[k] & g.net.mask[k] == Address(hmac, g, hop)[k] & g.net.mask[k]
    {
      AddressAt(g.net, bits, k);
      FillKeepsBase(g.net.base[k], g.net.mask[k], ByteOf(bits, k));
      hide ByteOf, Fill;
    }
  }

  lemma Quotient(x: int, h: int, q: int)
    requires h > 0 && q * h <= x < q * h + h
    ensures x / h == q
  {
    var k := x / h - q;
    assert x == (q + k) * h + x % h;
    assert -h < k * h < h;
    assert k >= 1 ==> k * h >= h;
    assert k <= -1 ==> k * h <= -h;
  }

  lemma QuotientTolerance(h: int, s: int, r: int, r': int)
    requires 0 < h && 0 <= s <= r <= r' <= s + h
    ensures s / h == r / h || (h <= r' && s / h == (r' - h) / h)
  {
    var q := s / h;
    if r < q * h + h {
      Quotient(r, h, q);
    } else {
      Quotient(r' - h, h, q);
    }
  }

  /** A sender at time s (milliseconds of the hopping clock) uses the receiver's current hop at r
      or the one before r', when the receiver is no earlier and at most one interval later. */
  lemma CountTolerance(h: nat, s: int, r: int, r': int)
    requires 0 < h && 0 <= s <= r <= r' <= s + h && r' < TWO_64
    ensures Count(h, s) == Count(h, r) || Count(h, s) == Count(h, r' - h)
  {
    QuotientTolerance(h, s, r, r');
    assert ToUint64(s) == s && ToUint64(r) == r;
    assert h <= r' ==> ToUint64(r' - h) == r' - h;
  }

  lemma IntervalsIs(t: nat, h: nat, n: nat)
    requires h > 0 && n * h <= t < n * h + h
    ensures Intervals(t, h) == n
  {
    Quotient(t, h, n);
  }

  lemma CountIs(h: nat, t: nat)
    requires 0 < h && t < TWO_64
    ensures Count(h, t) == Intervals(t, h)
  {
    assert ToUint64(t) == t;
  }

  /** The counter goes up by one per interval. */
  lemma CountNext(h: nat, t: nat)
    requires 0 < h && t + h < TWO_64
    ensures Count(h, t + h) == Count(h, t) + 1
  {
    CountIs(h, t);
    CountIs(h, t + h);
    hide Count, Intervals;
    var n := Intervals(t, h);
    assert (n + 1) * h == n * h + h;
    IntervalsIs(t + h, h, n + 1);
  }

  lemma AcceptsIff(hmac: HmacFn, g: Gate, ip: Addr, now: Timespec, later: Timespec)
    requires Hops(g, now, later)
    ensures Accepts(hmac, g, ip, now, later)
            <==> ip == Address(hmac, g, ThisHop(g, now)) || ip == Address(hmac, g, HopBefore(g, later))
  {
    hide Address, TimeOffset, Intervals;
    OneHopBackExact(g.hopInterval);
    hide OneHopBack;
    CountIs(g.hopInterval, TimeOffset(g.timeBase, now));
    CountIs(g.hopInterval, TimeOffset(g.timeBase, later) - g.hopInterval);
    hide Count;
  }

  /** The address of any other hop is refused, unless it happens to be the same address. */
  lemma OtherHopsRefused(hmac: HmacFn, g: Gate, hop: nat, now: Timespec, later: Timespec)
    requires Hops(g, now, later) && hop != ThisHop(g, now) && hop != HopBefore(g, later)
    ensures Accepts(hmac, g, Address(hmac, g, hop), now, later)
            <==> exists other: nat :: other in {ThisHop(g, now), HopBefore(g, later)} && other != hop
                                      && Address(hmac, g, other) == Address(hmac, g, hop)
  {
    hide Address, TimeOffset, ThisHop, HopBefore;
    AcceptsIff(hmac, g, Address(hmac, g, hop), now, later);
    hide Accepts;
  }

  /** Two records of the same owner: they may differ in the clock base only. */
  predicate SameOwner(a: Gate, b: Gate) {
    a.hopKey == b.hopKey && a.hopInterval == b.hopInterval && a.net == b.net
  }

  /** The address one record generates is accepted by another record of the same owner, when the
      receiver's hopping clock is no earlier and at most one interval later than the sender's. */
  lemma HopTolerance(hmac: HmacFn, gen: Gate, chk: Gate, sent: Timespec, now: Timespec, later: Timespec)
    requires SameOwner(gen, chk) && 0 < gen.hopInterval <= TWO_31
    requires Normalised(now) && Normalised(later) && Nanos(now) <= Nanos(later)
    requires 0 <= TimeOffset(gen.timeBase, sent) <= TimeOffset(chk.timeBase, now)
    requires TimeOffset(chk.timeBase, later) <= TimeOffset(gen.timeBase, sent) + gen.hopInterval
    requires TimeOffset(chk.timeBase, later) < TWO_64
    ensures Accepts(hmac, chk, Address(hmac, gen, Hop(gen, sent, 0)), now, later)
  {
    OffsetMonotone(chk.timeBase, now, later);
    OneHopBackExact(gen.hopInterval);
    CountTolerance(gen.hopInterval, TimeOffset(gen.timeBase, sent), TimeOffset(chk.timeBase, now),
                   TimeOffset(chk.timeBase, later));
  }

  /** An address two intervals old, or one interval ahead, is that of another hop than the two that
      pass, so it is refused unless it coincides with one of theirs. */
  lemma StaleOrEarly(hmac: HmacFn, gen: Gate, chk: Gate, sent: Timespec, now: Timespec, later: Timespec)
    requires SameOwner(gen, chk) && Hops(chk, now, later) && 0 <= TimeOffset(gen.timeBase, sent) < TWO_64
    requires TimeOffset(chk.timeBase, now) <= TimeOffset(chk.timeBase, later)
    requires || TimeOffset(gen.timeBase, sent) + 2 * gen.hopInterval <= TimeOffset(chk.timeBase, now)
             || TimeOffset(chk.timeBase, later) + gen.hopInterval <= TimeOffset(gen.timeBase, sent)
    ensures var hop := Hop(gen, sent, 0);
      && hop != ThisHop(chk, now) && hop != HopBefore(chk, later)
      && (Accepts(hmac, chk, Address(hmac, gen, hop), now, later)
          <==> || Address(hmac, gen, hop) == Address(hmac, gen, ThisHop(chk, now))
               || Address(hmac, gen, hop) == Address(hmac, gen, HopBefore(chk, later)))
  {
    hide Address, TimeOffset, Accepts;
    AcceptsIff(hmac, chk, Address(hmac, gen, Hop(gen, sent, 0)), now, later);
    SameAddress(hmac, gen, chk, ThisHop(chk, now));
    SameAddress(hmac, gen, chk, HopBefore(chk, later));
    var s, x, y := TimeOffset(gen.timeBase, sent), TimeOffset(chk.timeBase, now), TimeOffset(chk.timeBase, later);
    var h := gen.hopInterval;
    CountIs(h, s);
    if s + 2 * h <= x {
      Later(h, s, x);
      Later(h, s, y - h);
    } else {
      Later(h, x, s);
      Later(h, y - h, s);
    }
    hide Count, Intervals;
  }

  lemma SameAddress(hmac: HmacFn, gen: Gate, chk: Gate, hop: nat)
    requires SameOwner(gen, chk)
    ensures Address(hmac, gen, hop) == Address(hmac, chk, hop)
  {
    hide Hotp;
  }

  /** A whole interval apart is at least one hop apart. */
  lemma Later(h: nat, a: nat, b: nat)
    requires 0 < h && a + h <= b
    ensures Intervals(a, h) < Intervals(b, h)
  {
    hide Intervals;
    var p, q := Intervals(a, h), Intervals(b, h);
    assert (p + 1) * h == p * h + h && (q + 1) * h == q * h + h;
    assert q <= p ==> q * h <= p * h;
  }

  /** The four bytes the truncation takes, from the one that the last four bits point to: k counts
      from the last of them, and the first loses its top bit. */
  function CodeByte(mac: Mac, k: nat): bv8
    requires k < 4
  {
    var code := mac[Offset(mac) + 3 - k];
    if k == 3 then code & 0x7f else code
  }

  /** The truncated value is made of them, most significant first. */
  lemma TruncateBytes(mac: Mac, k: nat)
    requires k < 4
    ensures ByteOf(Truncate(mac), k) == CodeByte(mac, k)
  {
    hide Join, ByteOf, Offset;
    var at := Offset(mac);
    JoinBytes(mac[at] & 0x7f, mac[at + 1], mac[at + 2], mac[at + 3]);
  }

  lemma JoinBytes(a: bv8, b: bv8, c: bv8, d: bv8)
    ensures var r := Join(a, b, c, d);
      ByteOf(r, 3) == a && ByteOf(r, 2) == b && ByteOf(r, 1) == c && ByteOf(r, 0) == d
  {
    FourBytes(a as bv32, b as bv32, c as bv32, d as bv32);
  }

  lemma FourBytes(a: bv32, b: bv32, c: bv32, d: bv32)
    requires a < 0x100 && b < 0x100 && c < 0x100 && d < 0x100
    ensures var r := (a << 24) | (b << 16) | (c << 8) | d;
      (r >> 24) & 0xff == a && (r >> 16) & 0xff == b && (r >> 8) & 0xff == c && r & 0xff == d
  {
  }

  lemma AddressAt(net: Network, bits: bv32, k: nat)
    requires k < ADDR_SIZE
    ensures AddressOf(net, bits)[k] == Fill(net.base[k], net.mask[k], ByteOf(bits, k))
  {
    hide Fill, ByteOf;
  }

  lemma HostPart(net: Network, bits: bv32, k: nat)
    requires k < ADDR_SIZE && net.base[k] & !net.mask[k] == 0
    ensures AddressOf(net, bits)[k] & !net.mask[k] == ByteOf(bits, k) & !net.mask[k]
  {
    AddressAt(net, bits, k);
    FillKeepsBase(net.base[k], net.mask[k], ByteOf(bits, k));
    hide ByteOf, Fill, AddressOf;
  }

  /** Outside the mask, where the base has been cleared, an address consists of those four bytes of the
      code of the hop, last one first, as a little-endian host keeps them. */
  lemma HostByte(hmac: HmacFn, g: Gate, hop: nat, k: nat)
    requires k < ADDR_SIZE && g.net.base[k] & !g.net.mask[k] == 0
    ensures Address(hmac, g, hop)[k] & !g.net.mask[k] == CodeByte(hmac(g.hopKey, hop), k) & !g.net.mask[k]
  {
    hide Truncate, ByteOf, AddressOf, CodeByte;
    TruncateBytes(hmac(g.hopKey, hop), k);
    HostPart(g.net, Hotp(hmac, g.hopKey, hop), k);
  }
}
