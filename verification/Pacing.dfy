/** The packet floods' pacing: an interval in whole microseconds, rounded up. */
module Pacing {
  const SECOND := 1_000_000

  /** Microseconds between packets at no more than `rate` a second. */
  function Interval(rate: nat): nat
    requires rate > 0
  {
    (SECOND + rate - 1) / rate
  }

  datatype Limits = Limits(maxPackets: nat, maxRate: nat, maxDuration: nat)

  const DEFAULT_LIMITS := Limits(10000, 1000, 300)

  /** What `WorkloadLimits.flood` accepts of count and rate. */
  predicate Accepted(limits: Limits, count: int, rate: int) {
    && 1 <= count <= limits.maxPackets && 1 <= rate <= limits.maxRate
    && count * Interval(rate) <= limits.maxDuration * SECOND
  }

  /** What the dashboard accepts of count and rate, with its own copies of the numbers. */
  predicate DashboardAccepts(count: int, rate: int) {
    && 1 <= count <= 10000 && 1 <= rate <= 1000
    && !(count * ((1000000 + rate - 1) / rate) > 300000000)
  }

  /** The time of packet `k`, in microseconds after the first. */
  function SendTime(k: nat, rate: nat): nat
    requires rate > 0
  {
    k * Interval(rate)
  }

  lemma {:induction false} IntervalIsCeiling(rate: nat)
    requires rate > 0
    ensures rate * Interval(rate) >= SECOND
    ensures Interval(rate) > 0 && rate * (Interval(rate) - 1) < SECOND
  {
  }

  /** In any half-open second at most `rate` packets are sent: packets in the window are less than `rate` apart. */
  lemma {:induction false} RateIsNeverExceeded(rate: nat, start: int, first: nat, last: nat)
    requires rate > 0 && first <= last
    requires start <= SendTime(first, rate) && SendTime(last, rate) < start + SECOND
    ensures last - first + 1 <= rate
  {
  }

  /** A flood is accepted iff count and rate are in their ranges and the interval behind each packet ends in time. */
  lemma {:induction false} AcceptedIffInTime(limits: Limits, count: int, rate: int)
    ensures Accepted(limits, count, rate) <==>
            && 1 <= count <= limits.maxPackets && 1 <= rate <= limits.maxRate
            && forall k: nat | k < count :: SendTime(k, rate) + Interval(rate) <= limits.maxDuration * SECOND
  {
    if 1 <= count <= limits.maxPackets && 1 <= rate <= limits.maxRate {
      var step, end := Interval(rate), limits.maxDuration * SECOND;
      if Accepted(limits, count, rate) {
        forall k: nat | k < count ensures SendTime(k, rate) + step <= end {
          Monotone(k + 1, count, step);
        }
      } else {
        assert SendTime(count - 1, rate) + step == count * step;
      }
    }
  }

  lemma {:induction false} Monotone(a: nat, b: nat, step: nat)
    requires a <= b
    ensures a * step <= b * step
  {
  }

  /** The dashboard accepts exactly what the generator accepts under its default limits. */
  lemma {:induction false} CopiesAgree(count: int, rate: int)
    ensures DashboardAccepts(count, rate) <==> Accepted(DEFAULT_LIMITS, count, rate)
  {
  }
}
