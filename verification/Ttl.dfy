/**
 Grant lifetimes: from the ttl_ms a client sends to the deadline and TTL that
 every replica stores.  Durations and instants are whole nanoseconds; instants
 count from the Unix epoch.
 */
module Ttl {
  const NS_PER_MS: int := 1_000_000
  const DEFAULT_TTL: int := 15_000_000_000
  const MIN_TTL: int := NS_PER_MS
  const MAX_TTL: int := 86_400_000_000_000

  const TWO_63: int := 0x8000_0000_0000_0000
  const TWO_64: int := 0x1_0000_0000_0000_0000

  type int64 = x: int | -TWO_63 <= x < TWO_63

  // Go's zero time is midnight, 1 January of year 1; a zero deadline never expires.
  const ZERO_TIME: int := -62_135_596_800_000_000_000
  const ZERO_TIME_MS: int := -62_135_596_800_000

  predicate IsZero(instant: int) {
    instant == ZERO_TIME
  }

  // Two's-complement wrap-around of a signed 64-bit product.
  function Wrap64(x: int): int64 {
    (x + TWO_63) % TWO_64 - TWO_63
  }

  // locks.ClampTTL and leases.ClampTTL (the two are the same function).
  function ClampTTL(requested: int64, fallback: int64): int64 {
    var r := if requested <= 0 then fallback else requested;
    var r' := if r <= 0 then DEFAULT_TTL else r;
    if r' < MIN_TTL then MIN_TTL else if r' > MAX_TTL then MAX_TTL else r'
  }

  // The handlers' ttlFromMs: a positive ttl_ms is multiplied out in 64 bits.
  function TtlFromMs(ms: int64, reuse: int64, defaultTtl: int64): int64 {
    ClampTTL(if ms > 0 then Wrap64(ms * NS_PER_MS) else reuse, defaultTtl)
  }

  // What the leader writes into a grant or renew command.
  datatype Stamp = Stamp(ttlMs: int64, deadlineMs: int)

  function StampAt(ttl: int64, now: int): Stamp {
    var clamped := ClampTTL(ttl, 0);
    Stamp(clamped / NS_PER_MS, (now + clamped) / NS_PER_MS)
  }

  // consensus.deadlineOf and consensus.ttlOf, read back by every replica.
  function DeadlineOf(deadlineMs: int): int {
    if deadlineMs == 0 then ZERO_TIME else deadlineMs * NS_PER_MS
  }

  function TtlOf(ttlMs: int64): int64 {
    if ttlMs <= 0 then 0 else Wrap64(ttlMs * NS_PER_MS)
  }

  predicate WholeMs(d: int) {
    d % NS_PER_MS == 0
  }

  // A TTL a replica may store for a live grant.
  predicate StorableTtl(d: int) {
    MIN_TTL <= d <= MAX_TTL && WholeMs(d)
  }

  // Every 64-bit ttl_ms, overflowing or not, is stamped inside [1ms, 24h],
  // and the leader's second clamp changes nothing.
  lemma StampedTtlInRange(ms: int64, reuse: int64, defaultTtl: int64)
    ensures MIN_TTL <= TtlFromMs(ms, reuse, defaultTtl) <= MAX_TTL
    ensures ClampTTL(TtlFromMs(ms, reuse, defaultTtl), 0) == TtlFromMs(ms, reuse, defaultTtl)
  {
  }

  // A request without ttl_ms gets the TTL it may reuse, else the service's default, else
  // 15 seconds, each within the bounds.
  lemma OmittedTtl(ms: int64, reuse: int64, defaultTtl: int64)
    requires ms <= 0
    ensures var wanted := if reuse > 0 then reuse else if defaultTtl > 0 then defaultTtl else 15_000 * NS_PER_MS;
            var ttl := TtlFromMs(ms, reuse, defaultTtl);
            && (NS_PER_MS <= wanted <= 24 * 3600 * 1000 * NS_PER_MS ==> ttl == wanted)
            && (wanted < NS_PER_MS ==> ttl == NS_PER_MS)
            && (wanted > 24 * 3600 * 1000 * NS_PER_MS ==> ttl == 24 * 3600 * 1000 * NS_PER_MS)
  {
  }

  // What a client would expect of a long ttl_ms: it saturates at 24 hours.
  function Saturated(ms: int64): int
    requires ms > 0
  {
    if ms * NS_PER_MS > MAX_TTL then MAX_TTL else ms * NS_PER_MS
  }

  // The saturating reading is false: one millisecond past the largest product
  // that fits, the request wraps negative and falls back to the default.
  lemma OverflowShortensGrant()
    ensures TtlFromMs(9_223_372_036_855, 0, DEFAULT_TTL) == DEFAULT_TTL
    ensures Saturated(9_223_372_036_855) == MAX_TTL
  {
  }

  lemma WrapIsCongruent(x: int)
    ensures -TWO_63 <= Wrap64(x) < TWO_63
    ensures Wrap64(x) == if x % TWO_64 < TWO_63 then x % TWO_64 else x % TWO_64 - TWO_64
  {
    var q, r := x / TWO_64, x % TWO_64;
    assert x == q * TWO_64 + r;
    if r < TWO_63 {
      assert x + TWO_63 == q * TWO_64 + (r + TWO_63);
    } else {
      assert x + TWO_63 == (q + 1) * TWO_64 + (r - TWO_63);
    }
  }

  // Exactly when a positive ttl_ms is honoured: its product fits in 64 bits, or the
  // wrapped product reads as at least 24 hours, or it reads as nothing and the
  // default it falls back to is that long.
  lemma HonouredIff(ms: int64, reuse: int64, defaultTtl: int64)
    requires ms > 0
    ensures var wrapped := (ms * NS_PER_MS) % TWO_64;
            TtlFromMs(ms, reuse, defaultTtl) == Saturated(ms) <==>
              || ms <= (TWO_63 - 1) / NS_PER_MS
              || MAX_TTL <= wrapped < TWO_63
              || ((wrapped == 0 || TWO_63 <= wrapped) && defaultTtl >= MAX_TTL)
  {
    WrapIsCongruent(ms * NS_PER_MS);
    if ms <= (TWO_63 - 1) / NS_PER_MS {
      assert 0 < ms * NS_PER_MS < TWO_63;
    } else {
      assert Saturated(ms) == MAX_TTL;
    }
  }

  // The applied TTL is the clamped one rounded down to a whole millisecond.
  lemma AppliedTtl(ttl: int64, now: int)
    ensures var applied := TtlOf(StampAt(ttl, now).ttlMs);
            && StorableTtl(applied)
            && ClampTTL(ttl, 0) - NS_PER_MS < applied <= ClampTTL(ttl, 0)
  {
    var ms := StampAt(ttl, now).ttlMs;
    assert 1 <= ms <= 86_400_000;
    WrapIsCongruent(ms * NS_PER_MS);
    assert (ms * NS_PER_MS) % NS_PER_MS == 0;
  }

  // An applied deadline loses less than a millisecond, and the grant can be
  // immortal for two instants only: the Unix epoch and Go's zero time.
  lemma AppliedDeadline(ttl: int64, now: int)
    ensures var d := DeadlineOf(StampAt(ttl, now).deadlineMs);
            var wanted := now + ClampTTL(ttl, 0);
            && (IsZero(d) <==> wanted / NS_PER_MS == 0 || wanted / NS_PER_MS == ZERO_TIME_MS)
            && (!IsZero(d) ==> wanted - NS_PER_MS < d <= wanted)
  {
  }

  // On any clock past the epoch no grant is immortal.
  lemma NoImmortalGrant(ttl: int64, now: int)
    requires now >= 0
    ensures !IsZero(DeadlineOf(StampAt(ttl, now).deadlineMs))
    ensures DeadlineOf(StampAt(ttl, now).deadlineMs) > now - NS_PER_MS
  {
    AppliedDeadline(ttl, now);
    assert (now + ClampTTL(ttl, 0)) / NS_PER_MS >= 1;
  }

  // The reuse value the Renew handler passes on: the stored TTL if there is one.
  function ReuseTtl(stored: int64, defaultTtl: int64): int64 {
    if stored > 0 then stored else defaultTtl
  }

  // The TTL stored after a chain of ttl_ms=0 renewals at the given clocks.
  function RenewedTtl(stored: int64, defaultTtl: int64, clocks: seq<int>): int64
    decreases |clocks|
  {
    if clocks == [] then stored
    else
      var ttl := TtlFromMs(0, ReuseTtl(stored, defaultTtl), defaultTtl);
      RenewedTtl(TtlOf(StampAt(ttl, clocks[0]).ttlMs), defaultTtl, clocks[1..])
  }

  lemma {:induction false} RenewalsKeepTtl(stored: int64, defaultTtl: int64, clocks: seq<int>)
    requires StorableTtl(stored)
    ensures RenewedTtl(stored, defaultTtl, clocks) == stored
    decreases |clocks|
  {
    if clocks != [] {
      var ttl := TtlFromMs(0, ReuseTtl(stored, defaultTtl), defaultTtl);
      AppliedTtl(ttl, clocks[0]);
      RenewalsKeepTtl(stored, defaultTtl, clocks[1..]);
    }
  }
}
