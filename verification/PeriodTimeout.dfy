/** Conversion of a period to a millisecond timeout held in a `usize`, and back to a duration. */
module PeriodTimeout {
  import opened Decimal
  import opened PeriodCodec

  const USIZE32_MAX: nat := 0xFFFF_FFFF
  const NANOS_PER_MILLI: nat := 1_000_000

  /** `From<Period> for Timeout` on a machine whose largest `usize` is `max`; `as usize` truncates. */
  function ToTimeout(p: Period, max: nat): nat
    requires p.Valid()
  {
    var secs := p.secs % (max + 1);
    if secs >= max / 1_000 then max else secs * 1_000 + p.nanos / NANOS_PER_MILLI
  }

  /** `From<Timeout> for Duration`. */
  function ToDuration(millis: nat): Period {
    Period(millis / 1_000, millis % 1_000 * NANOS_PER_MILLI)
  }

  /** The length of a period in nanoseconds. */
  function Length(p: Period): nat {
    p.secs * NANOS_PER_SEC + p.nanos
  }

  /** The documented conversion: milliseconds, or the maximum once the seconds reach the capacity. */
  function Saturated(p: Period, max: nat): nat {
    if p.secs >= max / 1_000 then max else p.secs * 1_000 + p.nanos / NANOS_PER_MILLI
  }

  /**
    The conversion never leaves the `usize` range, and it is the documented one exactly when the
    seconds survive the truncation or saturate in spite of it.  On 64 bits this is always the case.
   */
  lemma TimeoutIsSaturated(p: Period, max: nat)
    requires p.Valid() && max >= 1_000
    ensures ToTimeout(p, max) <= max
    ensures ToTimeout(p, max) == Saturated(p, max) <==> p.secs <= max || p.secs % (max + 1) >= max / 1_000
  {
    Truncation(p.secs, max);
    Capacity(max);
    CaseByCase(p.secs, p.secs % (max + 1), max / 1_000, max, p.nanos / NANOS_PER_MILLI);
  }

  lemma Truncation(n: nat, max: nat)
    ensures n % (max + 1) <= n && n % (max + 1) <= max
    ensures n <= max ==> n % (max + 1) == n
  {
    var q := n / (max + 1);
    assert n == (max + 1) * q + n % (max + 1);
    assert (max + 1) * q >= 0;
  }

  lemma Capacity(max: nat)
    ensures 1_000 * (max / 1_000) <= max
  {
  }

  lemma CaseByCase(secs: nat, t: nat, cap: nat, max: nat, sub: nat)
    requires 1_000 * cap <= max && sub < 1_000
    requires t <= secs && t <= max && (secs <= max ==> t == secs)
    ensures var code := if t >= cap then max else t * 1_000 + sub;
            var doc := if secs >= cap then max else secs * 1_000 + sub;
            && code <= max
            && (code == doc <==> secs <= max || t >= cap)
  {
  }

  /** On 32 bits (WASM) a period of 2^32 seconds becomes an immediate timeout. */
  lemma TruncatedTimeout()
    ensures ToTimeout(Period(USIZE32_MAX + 1, 0), USIZE32_MAX) == 0
  {
  }

  /** With a 64-bit `usize`, a longer period never gets a shorter timeout. */
  lemma TimeoutMonotone(p: Period, q: Period)
    requires p.Valid() && q.Valid() && Length(p) <= Length(q)
    ensures ToTimeout(p, U64_MAX) <= ToTimeout(q, U64_MAX)
  {
    TimeoutIsSaturated(p, U64_MAX);
    TimeoutIsSaturated(q, U64_MAX);
    assert p.secs <= q.secs;
  }

  /** Below the capacity the way back loses less than a millisecond; from it on, the timeout is the maximum. */
  lemma TimeoutPrecision(p: Period)
    requires p.Valid()
    ensures var back := ToDuration(ToTimeout(p, U64_MAX));
            if p.secs >= U64_MAX / 1_000 then ToTimeout(p, U64_MAX) == U64_MAX
            else Length(back) <= Length(p) < Length(back) + NANOS_PER_MILLI
  {
    TimeoutIsSaturated(p, U64_MAX);
    if p.secs < U64_MAX / 1_000 {
      var sub := p.nanos / NANOS_PER_MILLI;
      var t := p.secs * 1_000 + sub;
      assert ToTimeout(p, U64_MAX) == t;
      assert t / 1_000 == p.secs && t % 1_000 == sub;
    }
  }
}
