// The billing periods of a policy, what was paid, and the sums per year.
module CostSchedule {
  import opened Wrappers
  import opened Calendar
  import opened Money
  import opened CostEntries

  function FrequencyMonths(f: Frequency): (m: nat)
    ensures m in {1, 3, 6, 12}
  {
    match f
    case Monthly => 1
    case Quarterly => 3
    case SemiAnnual => 6
    case Annual => 12
  }

  function PerYear(f: Frequency): (n: nat)
    ensures n * FrequencyMonths(f) == 12
  {
    match f
    case Monthly => 12
    case Quarterly => 4
    case SemiAnnual => 2
    case Annual => 1
  }

  function Factor(step: Frequency, entry: Frequency): real {
    var stepMonths, entryMonths := FrequencyMonths(step), FrequencyMonths(entry);
    if stepMonths == entryMonths then 1.0 else stepMonths as real / entryMonths as real
  }

  /** An amount of one frequency, carried over to a step of another. */
  function Prorated(amount: real, step: Frequency, entry: Frequency): real {
    RoundMoney(amount * Factor(step, entry))
  }

  function PeriodAmount(entry: Entry, step: Frequency): Amount {
    if entry.amount.None? then None else Some(Prorated(entry.amount.value, step, entry.frequency))
  }

  datatype Policy = Policy(startDate: Option<int>, frequency: Option<Frequency>)

  /** The earliest of the policy start and the first entry's start. */
  function ResolveCostAnchor(startDate: Option<int>, entries: seq<Entry>): (r: Option<int>)
    ensures r.None? <==> startDate.None? && entries == []
    ensures r.Some? ==> r == startDate || exists k :: 0 <= k < |entries| && entries[k].validFrom == r.value
    ensures r.Some? && startDate.Some? ==> r.value <= startDate.value
    ensures r.Some? ==> forall k :: 0 <= k < |entries| ==> r.value <= entries[k].validFrom
  {
    if entries == [] then startDate
    else
      var n := |entries| - 1;
      var before := ResolveCostAnchor(startDate, entries[..n]);
      assert forall k :: 0 <= k < n ==> entries[..n][k] == entries[k];
      if before.None? || entries[n].validFrom < before.value then Some(entries[n].validFrom) else before
  }

  /** The order in which the overviews read the entries. */
  predicate StartsAscend(entries: seq<Entry>) { forall i, j :: 0 <= i < j < |entries| ==> entries[i].validFrom <= entries[j].validFrom }

  /** The entry that applies, else the latest one. */
  function SelectActiveOrLatestEntry(entries: seq<Entry>, now: int): (r: Option<Entry>)
    ensures r.None? <==> entries == []
    ensures r.Some? ==> r.value in entries
    ensures (exists e :: e in entries && Covers(e, now)) ==> Covers(r.value, now) && forall e :: e in entries && Covers(e, now) ==> !Before(e, r.value)
    ensures !(exists e :: e in entries && Covers(e, now)) && StartsAscend(entries) ==> forall e :: e in entries ==> e.validFrom <= r.value.validFrom
  {
    if entries == [] then None
    else
      var active := EntryForPeriod(entries, now);
      if active.Some? then active else Some(entries[|entries| - 1])
  }

  /** The policy's own frequency, else that of the entry shown, else monthly. */
  function ResolveFrequency(policy: Policy, entries: seq<Entry>, asOf: int): (f: Frequency)
    ensures policy.frequency.Some? ==> f == policy.frequency.value
    ensures policy.frequency.None? && entries == [] ==> f == Monthly
    ensures policy.frequency.None? && entries != [] ==>
      exists e :: e in entries && e.frequency == f && (forall x :: x in entries && Covers(x, asOf) ==> Covers(e, asOf) && !Before(x, e))
  {
    var active := SelectActiveOrLatestEntry(entries, asOf);
    if policy.frequency.Some? then policy.frequency.value
    else if active.Some? then active.value.frequency
    else Monthly
  }

  datatype BillingPeriod = BillingPeriod(
    index: nat,
    start: int,
    end: int,
    amount: Amount,
    incurred: bool,
    entryId: Option<nat>)

  /** What the periods of one schedule have in common. */
  datatype Plan = Plan(anchor: int, frequency: Frequency, entries: seq<Entry>, asOf: int)
  {
    function Start(k: nat): int { AddMonthsClamped(anchor, k * FrequencyMonths(frequency)) }

    function Period(k: nat): BillingPeriod {
      var entry := EntryForPeriod(entries, Start(k));
      BillingPeriod(k, Start(k), Start(k + 1) - 1,
                    if entry.Some? then PeriodAmount(entry.value, frequency) else None,
                    Start(k) <= asOf,
                    if entry.Some? then Some(entry.value.id) else None)
    }

    function Periods(count: nat): (r: seq<BillingPeriod>)
      ensures |r| == count && forall k :: 0 <= k < count ==> r[k] == Period(k)
    {
      seq(count, k requires 0 <= k < count => Period(k))
    }
  }

  datatype CurrentCosts = CurrentCosts(
    entryId: nat,
    frequency: Frequency,
    validFrom: int,
    validTo: Option<int>,
    amount: Amount,
    annual: Amount,
    perMonth: Amount,
    perQuarter: Amount)

  datatype PolicySchedule = PolicySchedule(
    anchor: Option<int>,
    frequency: Frequency,
    paidToDate: Amount,
    current: Option<CurrentCosts>,
    periods: seq<BillingPeriod>,
    perYear: seq<Item>)

  function Current(active: Entry): CurrentCosts {
    var annual := if active.amount.Some? then Some(RoundMoney(active.amount.value * PerYear(active.frequency) as real)) else None;
    CurrentCosts(active.id, active.frequency, active.validFrom, active.validTo, active.amount, annual,
                 if annual.Some? then Some(RoundMoney(annual.value / 12.0)) else None,
                 if annual.Some? then Some(RoundMoney(annual.value / 4.0)) else None)
  }

  /** The incurred periods: the year of the start and the amount. */
  function IncurredItems(periods: seq<BillingPeriod>): seq<Item> {
    if periods == [] then []
    else
      var n := |periods| - 1;
      var before := IncurredItems(periods[..n]);
      if periods[n].incurred then before + [Item(Year(periods[n].start), periods[n].amount)] else before
  }

  // --- The grid of periods ---------------------------------------------------------------

  lemma StartsIncrease(plan: Plan, j: nat, k: nat)
    requires j < k
    ensures plan.Start(j) < plan.Start(k)
  {
    var m := FrequencyMonths(plan.frequency);
    assert j * m < k * m;
    AddedIncrease(plan.anchor, j * m, k * m);
  }

  /** The periods tile time from the anchor on: each ends 1 ms before the next
      starts, the start day never drifts from the anchor's day, and the incurred
      periods come first. */
  lemma PeriodsTile(plan: Plan, k: nat)
    ensures plan.Start(0) == plan.anchor
    ensures var p := plan.Period(k);
      && p.start < p.end + 1 == plan.Period(k + 1).start
      && Month(p.start) == Month(plan.anchor) + k * FrequencyMonths(plan.frequency)
      && DayOfMonth(p.start) == Min(DayOfMonth(plan.anchor), MonthLength(Month(p.start)) - 1)
      && MsOfDay(p.start) == MsOfDay(plan.anchor)
      && (plan.Period(k + 1).incurred ==> p.incurred)
  {
    AddNothing(plan.anchor);
    StartsIncrease(plan, k, k + 1);
    AddedParts(plan.anchor, k * FrequencyMonths(plan.frequency));
  }

  /** Every time from the anchor on lies in exactly one period. */
  function PeriodIndex(plan: Plan, t: int, k: nat): (i: nat)
    requires plan.Start(k) <= t
    ensures k <= i && plan.Period(i).start <= t <= plan.Period(i).end
    decreases t - plan.Start(k)
  {
    StartsIncrease(plan, k, k + 1);
    if t < plan.Start(k + 1) then k else PeriodIndex(plan, t, k + 1)
  }

  lemma PeriodIsUnique(plan: Plan, t: int, i: nat, j: nat)
    requires plan.Period(i).start <= t <= plan.Period(i).end && plan.Period(j).start <= t <= plan.Period(j).end
    ensures i == j
  {
    hide AddMonthsClamped, FrequencyMonths, PeriodAmount, EntryForPeriod;
    if i + 1 < j { StartsIncrease(plan, i + 1, j); }
    if j + 1 < i { StartsIncrease(plan, j + 1, i); }
  }

  lemma IncurredStep(plan: Plan, n: nat)
    ensures IncurredItems(plan.Periods(n + 1)) ==
      IncurredItems(plan.Periods(n)) + if plan.Start(n) <= plan.asOf then [Item(Year(plan.Start(n)), plan.Period(n).amount)] else []
  {
    assert plan.Periods(n + 1)[..n] == plan.Periods(n);
    if plan.Start(n) > plan.asOf {
      assert IncurredItems(plan.Periods(n)) + [] == IncurredItems(plan.Periods(n));
    }
  }

  lemma {:induction false} LaterPeriodsNotIncurred(plan: Plan, m: nat, n: nat)
    requires m <= n && plan.Start(m) > plan.asOf
    ensures IncurredItems(plan.Periods(n)) == IncurredItems(plan.Periods(m))
    decreases n
  {
    hide AddMonthsClamped, IncurredItems, FrequencyMonths, PeriodAmount, Year;
    if m < n {
      LaterPeriodsNotIncurred(plan, m, n - 1);
      IncurredStep(plan, n - 1);
      if m < n - 1 { StartsIncrease(plan, m, n - 1); }
    }
  }

  // --- What is recorded -------------------------------------------------------------------

  /** An entry applies at the time, and it has an amount. */
  predicate RecordedAt(entries: seq<Entry>, t: int) {
    EntryForPeriod(entries, t).Some? && EntryForPeriod(entries, t).value.amount.Some?
  }

  /** A period shows an amount exactly when the entry that applies at its start has
      one, and names that entry; a period no entry covers shows neither. */
  lemma PeriodShows(plan: Plan, k: nat)
    ensures var p := plan.Period(k);
      && (p.amount.Some? <==> RecordedAt(plan.entries, plan.Start(k)))
      && (p.entryId.None? <==> forall e :: e in plan.entries ==> !Covers(e, plan.Start(k)))
      && (p.entryId.Some? ==> exists e :: e in plan.entries && e.id == p.entryId.value && Covers(e, plan.Start(k)) &&
                                forall x :: x in plan.entries && Covers(x, plan.Start(k)) ==> !Before(x, e))
      && (p.incurred <==> plan.Start(k) <= plan.asOf) && p.index == k
  {
    hide AddMonthsClamped, FrequencyMonths, Prorated;
  }

  /** A started period among the first `count` with an amount, in any year or one. */
  ghost predicate PaidBy(plan: Plan, count: nat, year: Option<int>) {
    exists k :: 0 <= k < count && PaidIn(plan, k, year)
  }

  predicate PaidIn(plan: Plan, k: nat, year: Option<int>) {
    plan.Start(k) <= plan.asOf && RecordedAt(plan.entries, plan.Start(k)) && (year.Some? ==> Year(plan.Start(k)) == year.value)
  }

  lemma {:induction false} IncurredRecorded(plan: Plan, count: nat)
    ensures Recorded(Amounts(IncurredItems(plan.Periods(count)))) <==> PaidBy(plan, count, None)
    ensures forall y :: Recorded(InYear(IncurredItems(plan.Periods(count)), y)) <==> PaidBy(plan, count, Some(y))
  {
    hide AddMonthsClamped, FrequencyMonths, PeriodAmount, EntryForPeriod, RecordedAt, Year;
    if count > 0 {
      var n := count - 1;
      IncurredRecorded(plan, n);
      IncurredStep(plan, n);
      PeriodShows(plan, n);
      var items, item := IncurredItems(plan.Periods(n)), Item(Year(plan.Start(n)), plan.Period(n).amount);
      MorePaid(plan, n);
      if plan.Start(n) <= plan.asOf {
        assert Amounts(items + [item]) == Amounts(items) + [item.amount];
        SumGrows(Amounts(items), item.amount);
        forall y ensures Recorded(InYear(items + [item], y)) <==> Recorded(InYear(items, y)) || (item.year == y && item.amount.Some?) {
          InYearGrows(items, item, y);
          SumGrows(InYear(items, y), item.amount);
          assert InYear(items, y) + [] == InYear(items, y);
        }
      } else {
        assert items + [] == items;
      }
    }
  }

  lemma MorePaid(plan: Plan, n: nat)
    ensures forall year :: PaidBy(plan, n + 1, year) <==> PaidBy(plan, n, year) || PaidIn(plan, n, year)
  {
    hide PaidIn;
    forall year ensures PaidBy(plan, n + 1, year) <==> PaidBy(plan, n, year) || PaidIn(plan, n, year) {
      if PaidBy(plan, n, year) {
        var k :| 0 <= k < n && PaidIn(plan, k, year);
        assert 0 <= k < n + 1;
      }
    }
  }

  /** The first `count` periods are those that start no later than the horizon. */
  predicate ReachesExactly(plan: Plan, horizon: int, count: nat) {
    plan.Start(count) > horizon && (count > 0 ==> plan.Start(count - 1) <= horizon)
  }

  /** Past asOf the horizon is irrelevant for what was incurred. */
  lemma HorizonIrrelevant(plan: Plan, h1: int, h2: int, n1: nat, n2: nat)
    requires h1 >= plan.asOf && h2 >= plan.asOf && ReachesExactly(plan, h1, n1) && ReachesExactly(plan, h2, n2)
    ensures IncurredItems(plan.Periods(n1)) == IncurredItems(plan.Periods(n2))
  {
    hide AddMonthsClamped, FrequencyMonths, PeriodAmount, EntryForPeriod;
    if n1 <= n2 { LaterPeriodsNotIncurred(plan, n1, n2); } else { LaterPeriodsNotIncurred(plan, n2, n1); }
  }

  // --- The schedule ------------------------------------------------------------------------

  /** A running year bucket; absent keys mean no period of that year started. */
  datatype Bucket = Bucket(cents: int, recorded: bool)

  ghost predicate BucketsHold(years: seq<int>, buckets: map<int, Bucket>, items: seq<Item>) {
    && Distinct(years) && (forall y :: y in years <==> y in buckets) && (forall y :: y in Years(items) <==> y in buckets)
    && forall y :: y in buckets ==> buckets[y] == Bucket(SumCents(InYear(items, y)), Recorded(InYear(items, y)))
  }

  lemma InYearGrows(items: seq<Item>, item: Item, year: int)
    ensures InYear(items + [item], year) == InYear(items, year) + if item.year == year then [item.amount] else []
  {
    assert (items + [item])[..|items|] == items;
    if item.year != year { assert InYear(items, year) + [] == InYear(items, year); }
  }

  lemma SumGrows(values: seq<Amount>, value: Amount)
    ensures SumCents(values + [value]) == SumCents(values) + CentsOf(value)
    ensures Recorded(values + [value]) <==> Recorded(values) || value.Some?
  {
    assert (values + [value])[..|values|] == values;
    assert forall k :: 0 <= k < |values| ==> (values + [value])[k] == values[k];
    assert (values + [value])[|values|] == value;
  }

  lemma NotYetInYear(items: seq<Item>, year: int)
    requires year !in Years(items)
    ensures InYear(items, year) == []
  {
    if items != [] {
      var n := |items| - 1;
      assert forall k :: 0 <= k < n ==> Years(items[..n])[k] == Years(items)[k];
      assert Years(items)[n] in Years(items);
      NotYetInYear(items[..n], year);
    }
  }

  method AddToYear(years: seq<int>, buckets: map<int, Bucket>, ghost items: seq<Item>, item: Item)
    returns (years': seq<int>, buckets': map<int, Bucket>)
    requires BucketsHold(years, buckets, items)
    ensures BucketsHold(years', buckets', items + [item])
  {
    var bucket := if item.year in buckets then buckets[item.year] else Bucket(0, false);
    if item.amount.Some? {
      bucket := Bucket(bucket.cents + ToCents(item.amount.value), true);
    }
    years' := if item.year in buckets then years else years + [item.year];
    buckets' := buckets[item.year := bucket];
    if item.year !in buckets { NotYetInYear(items, item.year); }
    forall y ensures InYear(items + [item], y) == InYear(items, y) + if item.year == y then [item.amount] else [] {
      InYearGrows(items, item, y);
    }
    SumGrows(InYear(items, item.year), item.amount);
    YearsGrow(items, item);
  }

  lemma YearsGrow(items: seq<Item>, item: Item)
    ensures forall y :: y in Years(items + [item]) <==> y in Years(items) || y == item.year
  {
    assert Years(items + [item]) == Years(items) + [item.year];
  }

  method TableOf(years: seq<int>, buckets: map<int, Bucket>, ghost items: seq<Item>) returns (table: seq<Item>)
    requires BucketsHold(years, buckets, items)
    ensures YearTable(table, items)
  {
    var sorted := SortedYears(years);
    table := [];
    for n := 0 to |sorted|
      invariant |table| == n
      invariant forall k :: 0 <= k < n ==> table[k] == Item(sorted[k], SumOf(InYear(items, sorted[k])))
    {
      assert sorted[n] in sorted;
      var bucket := buckets[sorted[n]];
      table := table + [Item(sorted[n], if bucket.recorded then Some(FromCents(bucket.cents)) else None)];
    }
    assert Years(table) == sorted;
  }

  method ComputePolicySchedule(policy: Policy, entries: seq<Entry>, asOf: int, horizon: int) returns (schedule: PolicySchedule)
    ensures entries == [] ==> schedule == PolicySchedule(None, if policy.frequency.Some? then policy.frequency.value else Monthly, None, None, [], [])
    ensures entries != [] ==>
      && schedule.anchor == ResolveCostAnchor(policy.startDate, entries)
      && schedule.frequency == ResolveFrequency(policy, entries, asOf)
      && schedule.current == Some(Current(SelectActiveOrLatestEntry(entries, asOf).value))
      && var plan := Plan(schedule.anchor.value, schedule.frequency, entries, asOf);
         && ReachesExactly(plan, horizon, |schedule.periods|)
         && schedule.periods == plan.Periods(|schedule.periods|)
         && schedule.paidToDate == SumOf(Amounts(IncurredItems(schedule.periods)))
         && YearTable(schedule.perYear, IncurredItems(schedule.periods))
         && (schedule.paidToDate.Some? <==> PaidBy(plan, |schedule.periods|, None))
         && (forall k :: 0 <= k < |schedule.perYear| ==>
               (schedule.perYear[k].amount.Some? <==> PaidBy(plan, |schedule.periods|, Some(schedule.perYear[k].year))))
  {
    if entries == [] {
      return PolicySchedule(None, if policy.frequency.Some? then policy.frequency.value else Monthly, None, None, [], []);
    }
    var anchor := ResolveCostAnchor(policy.startDate, entries).value;
    var frequency := ResolveFrequency(policy, entries, asOf);
    var periods, paidToDate, perYear := ComputePeriods(Plan(anchor, frequency, entries, asOf), horizon);
    var active := SelectActiveOrLatestEntry(entries, asOf).value;
    schedule := PolicySchedule(Some(anchor), frequency, paidToDate, Some(Current(active)), periods, perYear);
  }

  lemma NextPeriod(plan: Plan, n: nat)
    ensures plan.Periods(n + 1) == plan.Periods(n) + [plan.Period(n)]
  {
    hide AddMonthsClamped, FrequencyMonths, PeriodAmount, EntryForPeriod;
  }

  method ComputePeriods(plan: Plan, horizon: int) returns (periods: seq<BillingPeriod>, paidToDate: Amount, perYear: seq<Item>)
    ensures ReachesExactly(plan, horizon, |periods|) && periods == plan.Periods(|periods|)
    ensures paidToDate == SumOf(Amounts(IncurredItems(periods)))
    ensures YearTable(perYear, IncurredItems(periods))
    ensures paidToDate.Some? <==> PaidBy(plan, |periods|, None)
    ensures forall k :: 0 <= k < |perYear| ==> (perYear[k].amount.Some? <==> PaidBy(plan, |periods|, Some(perYear[k].year)))
  {
    hide AddMonthsClamped, Year, PeriodAmount, EntryForPeriod, FrequencyMonths, PaidBy;
    var stepMonths := FrequencyMonths(plan.frequency);
    periods := [];
    var startedAmounts: seq<Amount> := [];
    var years: seq<int>, buckets: map<int, Bucket> := [], map[];
    ghost var items: seq<Item> := [];
    var index: nat := 0;
    while AddMonthsClamped(plan.anchor, index * stepMonths) <= horizon
      invariant periods == plan.Periods(index) && items == IncurredItems(periods)
      invariant startedAmounts == Amounts(items) && BucketsHold(years, buckets, items)
      invariant index > 0 ==> plan.Start(index - 1) <= horizon
      decreases horizon - plan.Start(index)
    {
      var periodStart := AddMonthsClamped(plan.anchor, index * stepMonths);
      var periodEndExclusive := AddMonthsClamped(plan.anchor, (index + 1) * stepMonths);
      var entry := EntryForPeriod(plan.entries, periodStart);
      var amount := if entry.Some? then PeriodAmount(entry.value, plan.frequency) else None;
      var started := periodStart <= plan.asOf;
      IncurredStep(plan, index);
      NextPeriod(plan, index);
      StartsIncrease(plan, index, index + 1);
      if started {
        var item := Item(Year(periodStart), amount);
        startedAmounts := startedAmounts + [amount];
        years, buckets := AddToYear(years, buckets, items, item);
        assert startedAmounts == Amounts(items + [item]);
        items := items + [item];
      } else {
        assert items + [] == items;
      }
      periods := periods + [BillingPeriod(index, periodStart, periodEndExclusive - 1, amount, started,
                                          if entry.Some? then Some(entry.value.id) else None)];
      index := index + 1;
    }
    paidToDate := SumAmounts(startedAmounts);
    perYear := TableOf(years, buckets, items);
    IncurredRecorded(plan, |periods|);
  }
}
