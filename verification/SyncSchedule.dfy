// When the periodic Paperless sync of a policy is due. `hash` is the fixed
// 32-bit number of the policy id; times and intervals are milliseconds.
module SyncSchedule {
  import opened Wrappers

  const MIN_INTERVAL_MS := 30_000
  const MAX_INTERVAL_MS := 86_400_000
  const DEFAULT_INTERVAL_MS := 300_000
  const STAGGER_MAX_MS := 120_000

  function Min(a: int, b: int): int { if a <= b then a else b }

  function Max(a: int, b: int): int { if a >= b then a else b }

  function Distance(a: int, b: int): int { if a <= b then b - a else a - b }

  /** None: missing or not a finite number. */
  function IntervalMs(raw: Option<int>): (interval: int)
    ensures MIN_INTERVAL_MS <= interval <= MAX_INTERVAL_MS
    ensures raw.Some? && MIN_INTERVAL_MS <= raw.value <= MAX_INTERVAL_MS ==> interval == raw.value
    ensures raw.None? || raw.value <= 0 ==> interval == DEFAULT_INTERVAL_MS
    ensures raw.Some? && raw.value > 0 ==> forall x :: MIN_INTERVAL_MS <= x <= MAX_INTERVAL_MS ==> Distance(interval, raw.value) <= Distance(x, raw.value)
  {
    if raw.None? || raw.value <= 0 then DEFAULT_INTERVAL_MS
    else Min(Max(raw.value, MIN_INTERVAL_MS), MAX_INTERVAL_MS)
  }

  function Remainder(a: nat, m: nat): (r: nat)
    requires m > 0
    ensures r < m && (a < m ==> r == a)
  {
    a % m
  }

  /** The offset of a policy: never negative, at most the interval and two ticks. */
  function StaggerMs(hash: nat, interval: int): (stagger: int)
    ensures 0 <= stagger <= Min(IntervalMs(Some(interval)), STAGGER_MAX_MS)
    ensures hash <= Min(IntervalMs(Some(interval)), STAGGER_MAX_MS) ==> stagger == hash
  {
    var window := Min(Max(0, IntervalMs(Some(interval))), STAGGER_MAX_MS);
    if window == 0 then 0 else Remainder(hash, window + 1)
  }

  /** `last` is None when the policy was never synchronised. */
  predicate IsDue(hash: nat, last: Option<int>, now: int, interval: int) {
    last.None? || now >= last.value + IntervalMs(Some(interval)) + StaggerMs(hash, IntervalMs(Some(interval)))
  }

  function NextSyncAt(hash: nat, last: Option<int>, now: int, interval: int): int {
    if last.None? then now
    else Max(last.value + IntervalMs(Some(interval)) + StaggerMs(hash, IntervalMs(Some(interval))), now)
  }

  /** The announced time is the earliest one from now on at which the worker may
      start, and never closer to the last sync than the interval. */
  lemma NextIsEarliestDue(hash: nat, last: Option<int>, now: int, interval: int)
    ensures var next := NextSyncAt(hash, last, now, interval);
      && next >= now && IsDue(hash, last, next, interval) && (forall t :: now <= t < next ==> !IsDue(hash, last, t, interval))
      && (last.Some? ==> next - last.value >= IntervalMs(Some(interval)))
  {
    hide IntervalMs, StaggerMs;
    if last.Some? { NeverTooEarly(hash, last.value, NextSyncAt(hash, last, now, interval), interval); }
  }

  /** The worker's cheap pre-filter, with the same reading of the clock. */
  predicate Prefiltered(last: Option<int>, now: int, interval: int) {
    last.None? || last.value < now - Max(1_000, interval)
  }

  /** Of the due policies the pre-filter drops exactly the ones without an offset
      that became due at this very millisecond. */
  lemma PrefilterDropsIff(hash: nat, last: Option<int>, now: int, setting: Option<int>)
    ensures var interval := IntervalMs(setting);
      IsDue(hash, last, now, interval) && !Prefiltered(last, now, interval)
      <==> last.Some? && StaggerMs(hash, interval) == 0 && now == last.value + interval
  {
    assert IntervalMs(Some(IntervalMs(setting))) == IntervalMs(setting);
  }

  /** A policy without an offset, last synced exactly one interval ago. */
  lemma PrefilterDropsDuePolicy()
    ensures IsDue(0, Some(0), DEFAULT_INTERVAL_MS, DEFAULT_INTERVAL_MS) && !Prefiltered(Some(0), DEFAULT_INTERVAL_MS, DEFAULT_INTERVAL_MS)
  {
    assert StaggerMs(0, DEFAULT_INTERVAL_MS) == 0;
  }

  /** Two runs of one policy are never closer than the configured minimum. */
  lemma NeverTooEarly(hash: nat, last: int, now: int, interval: int)
    requires IsDue(hash, Some(last), now, interval)
    ensures now - last >= IntervalMs(Some(interval)) >= MIN_INTERVAL_MS
  {
  }
}
