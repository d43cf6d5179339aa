/** Time synchronisation and hopping together: gates that have exchanged pings accept each
    other's packets as long as the transit time fits the hop interval. */
module HopSync {
  import opened Hopping
  import opened Timing
  import opened TimeSync

  /** How much further the receiver's hopping clock is than the sender's was, in nanoseconds. */
  function Lag(gen: Gate, sent: Timespec, chk: Gate, now: Timespec): int {
    (Nanos(now) - Nanos(chk.timeBase)) - (Nanos(sent) - Nanos(gen.timeBase))
  }

  /** Rounding costs one millisecond at each end of the tolerated window. */
  lemma LagTolerance(hmac: HmacFn, gen: Gate, chk: Gate, sent: Timespec, now: Timespec, later: Timespec)
    requires SameOwner(gen, chk) && 0 < gen.hopInterval <= TWO_31
    requires Normalised(now) && Normalised(later) && Nanos(now) <= Nanos(later)
    requires 0 <= TimeOffset(gen.timeBase, sent) < TWO_32
    requires MS <= Lag(gen, sent, chk, now) && Lag(gen, sent, chk, later) <= (gen.hopInterval - 1) * MS
    ensures Accepts(hmac, chk, Address(hmac, gen, Hop(gen, sent, 0)), now, later)
  {
    HopTolerance(hmac, gen, chk, sent, now, later);
  }

  /** One packet from gate A to gate B: B's clock is A's plus skew; A sends at sent, and B reads
      its clock four times, twice for each address check. */
  datatype Transit = Transit(skew: int, sent: Timespec, t1: Timespec, t2: Timespec, t3: Timespec, t4: Timespec)

  ghost predicate Delivered(t: Transit, least: int, most: int) {
    && Normalised(t.t1) && Normalised(t.t2) && Normalised(t.t3) && Normalised(t.t4)
    && Nanos(t.sent) + t.skew + least <= Nanos(t.t1) <= Nanos(t.t2) <= Nanos(t.t3) <= Nanos(t.t4)
    && Nanos(t.t4) <= Nanos(t.sent) + t.skew + most
  }

  /** A's record of B and B's record of A are good to err nanoseconds. */
  lemma BothAddressesAccepted(hmac: HmacFn, ownA: Gate, recA: Gate, ownB: Gate, recB: Gate, t: Transit, err: int,
                              least: int, most: int)
    requires SameOwner(ownA, recA) && SameOwner(ownB, recB)
    requires 0 < ownA.hopInterval <= TWO_31 && 0 < ownB.hopInterval <= TWO_31
    requires Within(recB.timeBase, Nanos(ownB.timeBase) - t.skew, err)
    requires Within(recA.timeBase, Nanos(ownA.timeBase) + t.skew, err)
    requires Delivered(t, least, most)
    requires err + MS <= least && most + err <= (ownA.hopInterval - 1) * MS && most + err <= (ownB.hopInterval - 1) * MS
    requires 0 <= TimeOffset(recB.timeBase, t.sent) < TWO_32 && 0 <= TimeOffset(ownA.timeBase, t.sent) < TWO_32
    ensures Accepts(hmac, ownB, Address(hmac, recB, Hop(recB, t.sent, 0)), t.t1, t.t2)
    ensures Accepts(hmac, recA, Address(hmac, ownA, Hop(ownA, t.sent, 0)), t.t3, t.t4)
  {
    LagTolerance(hmac, recB, ownB, t.sent, t.t1, t.t2);
    LagTolerance(hmac, ownA, recA, t.sent, t.t3, t.t4);
  }

  /** The record a gate holds after its accepted pongs. */
  function Synced(owner: Gate, pongs: seq<Pong>): Gate {
    owner.(timeBase := AdjustAll(Timespec(0, 0), pongs))
  }

  /** A packet that takes as long as any leg does fits clocks and hop interval: legs long enough to
      cover the clock error, the interval long enough to cover both. */
  predicate FitsHops(legs: Legs, gap: nat, hopInterval: nat) {
    && SyncError(legs, gap) + MS <= legs.least
    && legs.most + gap + SyncError(legs, gap) <= (hopInterval - 1) * MS
    && 2 * SyncError(legs, gap) < (TWO_31 - 1) * MS
  }

  /** The handler that took the pong read its clock twice within gap. */
  ghost predicate Accepted(pongs: seq<Pong>, truth: int, legs: Legs, gap: nat) {
    pongs != [] && GoodPongs(pongs, truth, legs, SyncError(legs, gap))
  }

  /** End to end: on a network whose packets all take between legs.least and legs.most, after at
      least one genuine pong in each direction, every packet passes both of the receiver's address
      checks, whatever its own transit time in that range. */
  lemma SyncedGatesAccept(hmac: HmacFn, ownA: Gate, ownB: Gate, pongsB: seq<Pong>, pongsA: seq<Pong>,
                          t: Transit, legs: Legs, gap: nat)
    requires 0 < ownA.hopInterval <= TWO_31 && 0 < ownB.hopInterval <= TWO_31
    requires FitsHops(legs, gap, ownA.hopInterval) && FitsHops(legs, gap, ownB.hopInterval)
    requires Accepted(pongsB, Nanos(ownB.timeBase) - t.skew, legs, gap)
    requires Accepted(pongsA, Nanos(ownA.timeBase) + t.skew, legs, gap)
    requires Delivered(t, legs.least, legs.most + gap)
    requires 0 <= TimeOffset(Synced(ownB, pongsB).timeBase, t.sent) < TWO_32
    requires 0 <= TimeOffset(ownA.timeBase, t.sent) < TWO_32
    ensures var recB := Synced(ownB, pongsB);
      Accepts(hmac, ownB, Address(hmac, recB, Hop(recB, t.sent, 0)), t.t1, t.t2)
    ensures var recA := Synced(ownA, pongsA);
      Accepts(hmac, recA, Address(hmac, ownA, Hop(ownA, t.sent, 0)), t.t3, t.t4)
  {
    var err := SyncError(legs, gap);
    SyncBound(Timespec(0, 0), pongsB, Nanos(ownB.timeBase) - t.skew, legs, err);
    SyncBound(Timespec(0, 0), pongsA, Nanos(ownA.timeBase) + t.skew, legs, err);
    BothAddressesAccepted(hmac, ownA, Synced(ownA, pongsA), ownB, Synced(ownB, pongsB), t, err,
                          legs.least, legs.most + gap);
  }

  /** A network whose packets all take the same time d fits exactly when d is at least the gap and
      3 ms, and the hop interval at least d, twice the gap and 3 ms. */
  lemma FixedDelayFits(d: int, gap: nat, hopInterval: nat)
    requires 2 * gap < (TWO_31 - 5) * MS
    ensures FitsHops(Legs(d, d), gap, hopInterval)
            <==> gap + 3 * MS <= d && d + 2 * gap + 3 * MS <= hopInterval * MS
  {
    assert SyncError(Legs(d, d), gap) == gap + 2 * MS;
  }
}
