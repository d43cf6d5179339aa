/** The clock estimate a gate keeps of each remote: what one accepted pong does to it, and how
    far from the truth any number of pongs can leave it. All instants are nanoseconds of the
    local monotonic clock. */
module TimeSync {
  import opened Timing

  /** What the pong handler sees: when the ping left, the two clock samples it takes (one for
      the latency, one for the new base), and the remote's offset as it came off the wire. */
  datatype Pong = Pong(sent: Timespec, now: Timespec, later: Timespec, timeOffset: int)

  /** Half the round trip, in milliseconds. */
  function Latency(p: Pong): int {
    TruncDiv(TimeOffset(p.sent, p.now), 2)
  }

  /** The argument of current_time_plus: an unsigned 32-bit negation, a long subtraction and a
      conversion to int. */
  function Shift(p: Pong): int {
    ToInt32(ToUint32(-p.timeOffset) - Latency(p))
  }

  function NewBase(p: Pong): Timespec {
    Plus(p.later, Shift(p))
  }

  /** The remote's timeBase after an accepted pong: a half step toward the new estimate, or the
      estimate itself when there is no base yet. */
  function Adjust(base: Timespec, p: Pong): Timespec {
    var newBase := NewBase(p);
    var diff := ToInt32(TimeOffset(base, newBase));
    if base.sec > 0 then Plus(base, TruncDiv(diff, 2)) else newBase
  }

  function AdjustAll(base: Timespec, ps: seq<Pong>): Timespec {
    if ps == [] then base else Adjust(AdjustAll(base, ps[..|ps| - 1]), ps[|ps| - 1])
  }

  /** The 32-bit arithmetic yields now minus offset minus latency exactly while their sum is at
      most 2^31 ms (24.8 days); one millisecond more and the sign flips. */
  lemma ShiftExact(p: Pong)
    requires 0 <= p.timeOffset < TWO_32 && 0 <= Latency(p)
    ensures Shift(p) == -(p.timeOffset + Latency(p)) <==> p.timeOffset + Latency(p) <= TWO_31
    ensures p.timeOffset + Latency(p) == TWO_31 + 1 ==> Shift(p) == TWO_31 - 1
  {
    var sum := p.timeOffset + Latency(p);
    ShiftOfSum(p.timeOffset, Latency(p));
    hide ToInt32, ToUint32, Latency;
    if sum <= TWO_31 {
      SmallNegative(sum);
    } else {
      AtLeast(-sum);
      if sum == TWO_31 + 1 {
        JustTooNegative();
      }
    }
  }

  lemma ShiftOfSum(offset: int, latency: int)
    ensures ToInt32(ToUint32(-offset) - latency) == ToInt32(-(offset + latency))
  {
    var q := (-offset) / TWO_32;
    assert -offset == q * TWO_32 + (-offset) % TWO_32;
    ModShift((-offset) % TWO_32 - latency, q);
  }

  lemma ModShift(x: int, q: int)
    ensures (x + q * TWO_32) % TWO_32 == x % TWO_32
  {
  }

  lemma SmallNegative(sum: nat)
    requires sum <= TWO_31
    ensures ToInt32(0 - sum) == 0 - sum
  {
    if sum > 0 {
      assert (0 - sum) % TWO_32 == TWO_32 - sum;
    }
  }

  lemma JustTooNegative()
    ensures ToInt32(-(TWO_31 + 1)) == TWO_31 - 1
  {
  }

  lemma AtLeast(x: int)
    ensures ToInt32(x) >= -TWO_31
  {
  }

  /** base is an estimate of the instant truth, good to err nanoseconds. */
  ghost predicate Within(base: Timespec, truth: int, err: int) {
    Abs(Nanos(base) - truth) <= err
  }

  /** How long one leg of a ping may take: the least and the most, in nanoseconds. */
  datatype Legs = Legs(least: int, most: int)

  /** The remote read its offset, rounded to under a millisecond, at the instant replied, and both
      legs of the exchange, there and back, lie in the given range. */
  ghost predicate RepliedAt(p: Pong, replied: int, truth: int, legs: Legs) {
    && legs.least <= replied - Nanos(p.sent) <= legs.most
    && legs.least <= Nanos(p.now) - replied <= legs.most
    && Abs(p.timeOffset * MS - (replied - truth)) < MS
  }

  /** The pong is genuine for a remote whose base is truth. */
  ghost predicate Genuine(p: Pong, truth: int, legs: Legs) {
    && Nanos(p.sent) <= Nanos(p.now) <= Nanos(p.later)
    && 0 <= p.timeOffset < TWO_32
    && exists replied :: RepliedAt(p, replied, truth, legs)
  }

  function RoundTrip(p: Pong): int {
    Nanos(p.now) - Nanos(p.sent)
  }

  /** Any pong answered between departure and arrival is genuine with legs from nothing up to its
      round trip. */
  lemma GenuineWithinRoundTrip(p: Pong, truth: int, replied: int)
    requires Nanos(p.sent) <= replied <= Nanos(p.now) <= Nanos(p.later) && 0 <= p.timeOffset < TWO_32
    requires Abs(p.timeOffset * MS - (replied - truth)) < MS
    ensures Genuine(p, truth, Legs(0, RoundTrip(p)))
  {
    assert RepliedAt(p, replied, truth, Legs(0, RoundTrip(p)));
  }

  /** What one pong can be off by: half of what its legs may differ, the gap between the handler's
      two clock samples, and two milliseconds of rounding. */
  function PongError(p: Pong, legs: Legs): int {
    (legs.most - legs.least) / 2 + (Nanos(p.later) - Nanos(p.now)) + 2 * MS
  }

  /** The handler's 32-bit arithmetic does not overflow. */
  predicate NoWrap(p: Pong) {
    p.timeOffset + Latency(p) <= TWO_31
  }

  /** Overflowing or not, the shift is right modulo 2^32. */
  lemma ShiftModulo(p: Pong) returns (k: int)
    requires 0 <= p.timeOffset < TWO_32
    ensures Shift(p) == k * TWO_32 - (p.timeOffset + Latency(p))
  {
    k := (Shift(p) + p.timeOffset + Latency(p)) / TWO_32;
  }

  /** The estimate an unbounded computation would give is as good as the legs are alike. */
  lemma IdealError(p: Pong, truth: int, legs: Legs)
    requires Genuine(p, truth, legs)
    ensures Abs(Nanos(p.later) - (p.timeOffset + Latency(p)) * MS - truth) <= PongError(p, legs)
  {
    var replied :| RepliedAt(p, replied, truth, legs);
    var there, back := replied - Nanos(p.sent), Nanos(p.now) - replied;
    assert -(legs.most - legs.least) <= back - there <= legs.most - legs.least;
    assert 2 * Abs(Latency(p) * MS - (there + back) / 2) <= 3 * MS;
  }

  /** A genuine pong's estimate is as good as its legs are alike, exactly when the 32-bit
      arithmetic does not overflow. */
  lemma EstimateError(p: Pong, truth: int, legs: Legs)
    requires Genuine(p, truth, legs) && PongError(p, legs) < TWO_31 * MS
    ensures Within(NewBase(p), truth, PongError(p, legs)) <==> NoWrap(p)
  {
    assert TimeOffset(p.sent, p.now) >= 0;
    hide ToInt32, ToUint32, TimeOffset, Shift, Plus;
    ShiftExact(p);
    IdealError(p, truth, legs);
    var k := ShiftModulo(p);
  }

  /** A half step never leaves the interval between the old base and the new estimate. */
  lemma HalfStepBetween(base: Timespec, target: Timespec)
    requires Abs(Nanos(target) - Nanos(base)) < (TWO_31 - 1) * MS
    ensures var r := Plus(base, TruncDiv(ToInt32(TimeOffset(base, target)), 2));
      Nanos(base) <= Nanos(r) <= Nanos(target) || Nanos(target) <= Nanos(r) <= Nanos(base)
  {
    var d := TimeOffset(base, target);
    assert ToInt32(d) == d;
    if d > 1 || d < -1 {
    } else {
      assert TruncDiv(d, 2) == 0;
    }
  }

  /** With a base on record an adjustment goes half the way to the new estimate, to a millisecond. */
  lemma AdjustIsHalfway(base: Timespec, p: Pong)
    requires base.sec > 0 && Abs(Nanos(NewBase(p)) - Nanos(base)) < (TWO_31 - 1) * MS
    ensures Abs(2 * Nanos(Adjust(base, p)) - (Nanos(base) + Nanos(NewBase(p)))) < 2 * MS
  {
    var d := TimeOffset(base, NewBase(p));
    assert ToInt32(d) == d;
    hide NewBase, ToInt32, TimeOffset, Plus;
    var rest := d - 2 * TruncDiv(d, 2);
    assert -1 <= rest <= 1 && (rest > 0 ==> d > 0) && (rest < 0 ==> d < 0);
  }

  /** One adjustment keeps any error bound that the old base (if there is one) and the pong
      both meet. */
  lemma AdjustError(base: Timespec, p: Pong, truth: int, legs: Legs, err: int)
    requires Genuine(p, truth, legs) && NoWrap(p) && PongError(p, legs) <= err && 2 * err < (TWO_31 - 1) * MS
    requires base.sec > 0 ==> Within(base, truth, err)
    ensures Within(Adjust(base, p), truth, err)
  {
    EstimateError(p, truth, legs);
    if base.sec > 0 {
      HalfStepBetween(base, NewBase(p));
    }
  }

  /** What the clock estimate can be off by on a network whose legs differ by so much, when handlers
      read their clock twice within gap. */
  function SyncError(legs: Legs, gap: nat): int {
    (legs.most - legs.least) / 2 + gap + 2 * MS
  }

  /** All pongs are genuine, computed without overflow, and good to err. */
  ghost predicate GoodPongs(pongs: seq<Pong>, truth: int, legs: Legs, err: int) {
    forall p :: p in pongs ==> Genuine(p, truth, legs) && NoWrap(p) && PongError(p, legs) <= err
  }

  /** After any positive number of accepted pongs the base is within half the spread of the legs
      (plus the constant) of the truth, however many pongs there were. With legs from zero up to
      the longest round trip, that is half the longest round trip. */
  lemma {:induction false} SyncBound(base0: Timespec, ps: seq<Pong>, truth: int, legs: Legs, err: int)
    requires base0.sec == 0 && ps != []
    requires 2 * err < (TWO_31 - 1) * MS && GoodPongs(ps, truth, legs, err)
    ensures Within(AdjustAll(base0, ps), truth, err)
  {
    var n := |ps| - 1;
    var before := ps[..n];
    if before != [] {
      SyncBound(base0, before, truth, legs, err);
    }
    AdjustError(AdjustAll(base0, before), ps[n], truth, legs, err);
  }
}
