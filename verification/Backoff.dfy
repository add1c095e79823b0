/** The retry delay: 64-bit saturating arithmetic against the ideal over the integers. */
module Backoff {

  const U64_MAX: nat := 0xFFFF_FFFF_FFFF_FFFF
  const I64_LIMIT: nat := 0x8000_0000_0000_0000

  // Instants, in milliseconds since 1970.

  /** The first and the last instant of chrono 0.4.43: the years -262143 and 262142. */
  const FIRST_INSTANT: int := -8_334_601_228_800_000
  const LAST_INSTANT: int := 8_210_266_876_799_999

  /** The first instant a PostgreSQL timestamp can hold: 24 November 4714 BC. Its last is past chrono's. */
  const FIRST_STORED: int := -210_866_803_200_000

  function Min(a: int, b: int): int { if a <= b then a else b }

  function Max(a: int, b: int): int { if a <= b then b else a }

  function Pow2(n: nat): (p: nat)
    ensures p >= 1
  {
    if n == 0 then 1 else 2 * Pow2(n - 1)
  }

  function SaturatingMul(a: nat, b: nat): nat {
    Min(a * b, U64_MAX)
  }

  function SaturatingPow2(n: nat): nat {
    Min(Pow2(n), U64_MAX)
  }

  /** The delay before the attempt after `attempt`, in milliseconds, as the worker computes it. */
  function RetryDelay(attempt: int, baseMs: nat, maxMs: nat): nat {
    var cap := Max(maxMs, baseMs);
    var exp := Min(Max(attempt, 1) - 1, 16);
    Min(SaturatingMul(baseMs, SaturatingPow2(exp)), cap)
  }

  /** Rust's `as i64`: the upper half of the unsigned range wraps to the negative numbers. */
  function AsI64(x: nat): int {
    if x < I64_LIMIT then x else x - U64_MAX - 1
  }

  /** What the worker adds to the clock. */
  function WaitMs(attempt: int, baseMs: nat, maxMs: nat): int {
    AsI64(RetryDelay(attempt, baseMs, maxMs))
  }

  predicate Representable(t: int) {
    FIRST_INSTANT <= t <= LAST_INSTANT
  }

  /** What adding the delay to the clock gives: a panic, an instant the database refuses, or a retry time. */
  datatype RetryTime = Stops | Rejected | At(t: int)

  function RetryTimeFor(delay: nat, now: int): RetryTime {
    var t := now + AsI64(delay);
    if !Representable(t) then Stops else if t < FIRST_STORED then Rejected else At(t)
  }

  function RetryTimeAt(attempt: int, baseMs: nat, maxMs: nat, now: int): RetryTime {
    RetryTimeFor(RetryDelay(attempt, baseMs, maxMs), now)
  }

  predicate Waits(attempt: int, baseMs: nat, maxMs: nat, now: int) {
    var r := RetryTimeAt(attempt, baseMs, maxMs, now);
    r.At? && now + baseMs <= r.t
  }

  lemma {:induction false} Pow2Grows(m: nat, n: nat)
    requires m <= n
    ensures Pow2(m) <= Pow2(n)
    decreases n
  {
    if m < n {
      Pow2Grows(m, n - 1);
    }
  }

  /** No saturation ever shows: the delay is the capped doubling over unbounded integers. */
  lemma DelayIsIdeal(attempt: int, baseMs: nat, maxMs: nat)
    requires baseMs <= U64_MAX && maxMs <= U64_MAX
    ensures RetryDelay(attempt, baseMs, maxMs)
         == Min(baseMs * Pow2(Min(Max(attempt, 1) - 1, 16)), Max(baseMs, maxMs))
  {
    var exp := Min(Max(attempt, 1) - 1, 16);
    Pow2Grows(exp, 16);
    Pow2Sixteen();
  }

  lemma Pow2Sixteen()
    ensures Pow2(16) == 65536
  {
    assert Pow2(4) == 16;
    assert Pow2(8) == 256;
    assert Pow2(12) == 4096;
  }

  /** The delay grows with the attempt and stays between the base and the cap. */
  lemma DelayBounds(a: int, b: int, baseMs: nat, maxMs: nat)
    requires baseMs <= U64_MAX && maxMs <= U64_MAX && a <= b
    ensures baseMs <= RetryDelay(a, baseMs, maxMs) <= RetryDelay(b, baseMs, maxMs) <= Max(baseMs, maxMs)
    ensures a <= 1 ==> RetryDelay(a, baseMs, maxMs) == baseMs
  {
    DelayIsIdeal(a, baseMs, maxMs);
    DelayIsIdeal(b, baseMs, maxMs);
    var m, n := Min(Max(a, 1) - 1, 16), Min(Max(b, 1) - 1, 16);
    Pow2Grows(m, n);
    MulMono(baseMs, 1, Pow2(m));
    MulMono(baseMs, Pow2(m), Pow2(n));
  }

  /**
  The four things that can become of a retry time, by the unsigned delay `d` and an instant `now`
  that can itself be stored: it lies `d` ahead exactly if that is still an instant; it lies in the
  past exactly if `d` is close enough below 2^64; it is refused by the database just outside of
  that; and in between the addition stops the worker.
  */
  lemma RetryOutcome(attempt: int, baseMs: nat, maxMs: nat, now: int)
    requires baseMs <= U64_MAX && maxMs <= U64_MAX && FIRST_STORED <= now <= LAST_INSTANT
    ensures var d, r := RetryDelay(attempt, baseMs, maxMs), RetryTimeAt(attempt, baseMs, maxMs, now);
      var back := U64_MAX + 1 - d;
      && (r == At(now + d) <==> now + d <= LAST_INSTANT)
      && (r.At? && r.t < now <==> back <= now - FIRST_STORED)
      && (r == Rejected <==> now - FIRST_STORED < back <= now - FIRST_INSTANT)
      && (r == Stops <==> LAST_INSTANT < now + d && now - FIRST_INSTANT < back)
  {
    DelayBounds(attempt, attempt, baseMs, maxMs);
  }

  /** One attempt waits at least the base delay if and only if its delay ends at an instant. */
  lemma WaitsIff(attempt: int, baseMs: nat, maxMs: nat, now: int)
    requires baseMs <= U64_MAX && maxMs <= U64_MAX && FIRST_STORED <= now <= LAST_INSTANT
    ensures Waits(attempt, baseMs, maxMs, now) <==> now + RetryDelay(attempt, baseMs, maxMs) <= LAST_INSTANT
    ensures !Waits(attempt, baseMs, maxMs, now) ==>
      var r := RetryTimeAt(attempt, baseMs, maxMs, now); 0 < baseMs && (r.At? ==> r.t < now)
  {
    DelayBounds(attempt, attempt, baseMs, maxMs);
    DelayIsIdeal(attempt, baseMs, maxMs);
  }

  /** The configured delays for which every attempt waits: the longest one ends at an instant. */
  lemma AlwaysWaitsIff(baseMs: nat, maxMs: nat, now: int)
    requires baseMs <= U64_MAX && maxMs <= U64_MAX && FIRST_STORED <= now <= LAST_INSTANT
    ensures (forall attempt :: Waits(attempt, baseMs, maxMs, now)) <==>
      now + Min(65536 * baseMs, Max(baseMs, maxMs)) <= LAST_INSTANT
  {
    LongestDelay(baseMs, maxMs);
    forall attempt
      ensures Waits(attempt, baseMs, maxMs, now) <==> now + RetryDelay(attempt, baseMs, maxMs) <= LAST_INSTANT
      ensures RetryDelay(attempt, baseMs, maxMs) <= RetryDelay(17, baseMs, maxMs)
    {
      WaitsIff(attempt, baseMs, maxMs, now);
      DelayBounds(attempt, Max(attempt, 17), baseMs, maxMs);
    }
    WaitsIff(17, baseMs, maxMs, now);
  }

  /** The first attempt is delayed by the base delay. */
  lemma FirstDelay(baseMs: nat, maxMs: nat)
    ensures RetryDelay(1, baseMs, maxMs) == Min(baseMs, U64_MAX)
  {
  }

  lemma LongestDelay(baseMs: nat, maxMs: nat)
    requires baseMs <= U64_MAX && maxMs <= U64_MAX
    ensures RetryDelay(17, baseMs, maxMs) == Min(65536 * baseMs, Max(baseMs, maxMs))
    ensures forall attempt :: attempt >= 17 ==> RetryDelay(attempt, baseMs, maxMs) == RetryDelay(17, baseMs, maxMs)
  {
    DelayIsIdeal(17, baseMs, maxMs);
    Pow2Sixteen();
  }

  /** The largest base delay the service accepts: the row is due one millisecond before it failed. */
  lemma LargestBaseIsDueAtOnce(attempt: int, maxMs: nat, now: int)
    requires maxMs <= U64_MAX && FIRST_STORED < now <= LAST_INSTANT
    ensures RetryTimeAt(attempt, U64_MAX, maxMs, now) == At(now - 1)
  {
    DelayBounds(attempt, attempt, U64_MAX, maxMs);
  }

  /** A base delay of 10^16 milliseconds, accepted as well: the first retry stops the worker. */
  lemma LongBaseStopsWorker(attempt: int, maxMs: nat, now: int)
    requires maxMs <= 10_000_000_000_000_000 && 0 <= now <= LAST_INSTANT
    ensures RetryTimeAt(attempt, 10_000_000_000_000_000, maxMs, now) == Stops
  {
    DelayBounds(attempt, attempt, 10_000_000_000_000_000, maxMs);
  }

  lemma MulMono(x: nat, y: nat, z: nat)
    requires y <= z
    ensures x * y <= x * z
  {
    assert x * (z - y) >= 0;
  }

}
