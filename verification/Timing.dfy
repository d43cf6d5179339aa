/** Clock arithmetic of utility.c: timespec values, millisecond offsets, and the C conversions
    the callers apply to them. */
module Timing {
  const MS: int := 1_000_000              // nanoseconds in a millisecond
  const SECOND: int := 1_000_000_000      // nanoseconds in a second
  const TWO_31: int := 0x8000_0000
  const TWO_32: int := 0x1_0000_0000
  const TWO_64: int := 0x1_0000_0000_0000_0000

  datatype Timespec = Timespec(sec: int, nsec: int)

  /** The instant a timespec stands for; nsec need not be normalised. */
  function Nanos(t: Timespec): int {
    t.sec * SECOND + t.nsec
  }

  /** C division truncates toward zero. */
  function TruncDiv(a: int, b: int): int
    requires b > 0
  {
    if a >= 0 then a / b else -(-a / b)
  }

  function TruncMod(a: int, b: int): int
    requires b > 0
  {
    a - TruncDiv(a, b) * b
  }

  /** Conversion to a 32-bit unsigned and to a 32-bit signed integer. */
  function ToUint32(x: int): (r: nat)
    ensures r < TWO_32
  {
    x % TWO_32
  }

  function ToInt32(x: int): int {
    var u := x % TWO_32;
    if u < TWO_31 then u else u - TWO_32
  }

  function ToUint64(x: int): nat {
    x % TWO_64
  }

  function Abs(x: int): nat {
    if x >= 0 then x else -x
  }

  /** Milliseconds from begin to end. */
  function TimeOffset(begin: Timespec, end: Timespec): (ms: int)
    ensures Abs(ms * MS - (Nanos(end) - Nanos(begin))) < MS
  {
    var diff := 1000 * (end.sec - begin.sec);
    if end.nsec > begin.nsec then diff + (end.nsec - begin.nsec) / MS
    else diff - (begin.nsec - end.nsec) / MS
  }

  /** t moved by ms milliseconds: exact, whether or not t is normalised. */
  function Plus(t: Timespec, ms: int): (r: Timespec)
    ensures Nanos(r) == Nanos(t) + ms * MS
  {
    if ms == 0 then t
    else
      var sec, nsec := t.sec + TruncDiv(ms, 1000), t.nsec + TruncMod(ms, 1000) * MS;
      if nsec > SECOND then Timespec(sec + 1, nsec - SECOND) else Timespec(sec, nsec)
  }

  /** A timespec that callees update through a pointer. */
  class TimespecCell {
    var sec: int
    var nsec: int

    constructor (t: Timespec)
      ensures Value() == t
    {
      sec, nsec := t.sec, t.nsec;
    }

    ghost function Value(): Timespec
      reads this
    {
      Timespec(sec, nsec)
    }

    method TimePlus(ms: int)
      modifies this
      ensures Value() == Plus(old(Value()), ms)
      ensures Nanos(Value()) == Nanos(old(Value())) + ms * MS
    {
      if ms == 0 {
        return;
      }
      sec := sec + TruncDiv(ms, 1000);
      nsec := nsec + TruncMod(ms, 1000) * MS;
      if nsec > SECOND {
        sec := sec + 1;
        nsec := nsec - SECOND;
      }
    }
  }

  /** Moving a time and measuring the move are inverse. */
  lemma OffsetOfPlus(t: Timespec, ms: int)
    ensures TimeOffset(t, Plus(t, ms)) == ms
  {
    var r := Plus(t, ms);
    assert (r.sec - t.sec) * SECOND + (r.nsec - t.nsec) == ms * MS;
    assert r.nsec - t.nsec == (ms - 1000 * (r.sec - t.sec)) * MS;
  }

  /** What clock_gettime returns. */
  predicate Normalised(t: Timespec) {
    0 <= t.nsec < SECOND
  }

  /** Between clock readings the offset never runs backwards, whatever the base: it only rounds. */
  lemma OffsetMonotone(base: Timespec, a: Timespec, b: Timespec)
    requires Normalised(a) && Normalised(b) && Nanos(a) <= Nanos(b)
    ensures TimeOffset(base, a) <= TimeOffset(base, b)
  {
    if a.sec == b.sec {
    } else {
      assert a.sec < b.sec;
    }
  }
}
