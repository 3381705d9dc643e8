// Conservation of money across schedule, summary and household overview, and
// the effect of a new cost entry on the schedule.
module CostSummary {
  import opened Wrappers
  import opened Calendar
  import opened Money
  import opened CostEntries
  import opened CostTimeline
  import opened CostSchedule

  // --- One policy ------------------------------------------------------------------------

  datatype Summary = Summary(paidToDate: Amount, perMonth: Amount, perYear: Amount)

  function PlanOf(policy: Policy, entries: seq<Entry>, asOf: int): Plan
    requires entries != []
  {
    Plan(ResolveCostAnchor(policy.startDate, entries).value, ResolveFrequency(policy, entries, asOf), entries, asOf)
  }

  /** How many periods have started up to the horizon. */
  function PeriodCount(plan: Plan, horizon: int, k: nat): (n: nat)
    requires k > 0 ==> plan.Start(k - 1) <= horizon
    ensures ReachesExactly(plan, horizon, n)
    decreases horizon - plan.Start(k)
  {
    StartsIncrease(plan, k, k + 1);
    if plan.Start(k) > horizon then k else PeriodCount(plan, horizon, k + 1)
  }

  lemma CountIsUnique(plan: Plan, horizon: int, m: nat, n: nat)
    requires ReachesExactly(plan, horizon, m) && ReachesExactly(plan, horizon, n)
    ensures m == n
  {
    hide AddMonthsClamped, FrequencyMonths;
    if m < n - 1 { StartsIncrease(plan, m, n - 1); }
    if n < m - 1 { StartsIncrease(plan, n, m - 1); }
  }

  /** All amounts of a policy due up to asOf, with the years of their periods. */
  function IncurredOf(policy: Policy, entries: seq<Entry>, asOf: int): seq<Item> {
    if entries == [] then []
    else
      var plan := PlanOf(policy, entries, asOf);
      IncurredItems(plan.Periods(PeriodCount(plan, asOf, 0)))
  }

  /** Some period that has started - in the year, if one is named - begins under an
      entry with an amount. */
  ghost predicate Pays(policy: Policy, entries: seq<Entry>, asOf: int, year: Option<int>) {
    entries != [] && exists k: nat :: PaidIn(PlanOf(policy, entries, asOf), k, year)
  }

  lemma StartedIsCounted(plan: Plan, horizon: int, count: nat, k: nat)
    requires ReachesExactly(plan, horizon, count) && plan.Start(k) <= horizon
    ensures k < count
  {
    hide AddMonthsClamped, FrequencyMonths;
    if count < k { StartsIncrease(plan, count, k); }
  }

  lemma IncurredOfRecorded(policy: Policy, entries: seq<Entry>, asOf: int)
    ensures Recorded(Amounts(IncurredOf(policy, entries, asOf))) <==> Pays(policy, entries, asOf, None)
    ensures forall y :: Recorded(InYear(IncurredOf(policy, entries, asOf), y)) <==> Pays(policy, entries, asOf, Some(y))
  {
    if entries != [] {
      hide PaidIn, Recorded, InYear, IncurredItems, ReachesExactly, AddMonthsClamped;
      var plan := PlanOf(policy, entries, asOf);
      var count := PeriodCount(plan, asOf, 0);
      IncurredRecorded(plan, count);
      forall year ensures PaidBy(plan, count, year) <==> Pays(policy, entries, asOf, year) {
        PaidAtAll(plan, count, year);
      }
    }
  }

  lemma PaidAtAll(plan: Plan, count: nat, year: Option<int>)
    requires ReachesExactly(plan, plan.asOf, count)
    ensures PaidBy(plan, count, year) <==> exists k: nat :: PaidIn(plan, k, year)
  {
    hide RecordedAt, ReachesExactly, AddMonthsClamped, FrequencyMonths, Year;
    if exists k: nat :: PaidIn(plan, k, year) {
      var k: nat :| PaidIn(plan, k, year);
      StartedIsCounted(plan, plan.asOf, count, k);
    }
  }

  /** Paid to date: the sum of all started periods, whatever the horizon shown. */
  ghost predicate PaidAgrees(paid: Amount, policy: Policy, entries: seq<Entry>, asOf: int) {
    if entries == [] then paid.None?
    else
      var plan := PlanOf(policy, entries, asOf);
      forall horizon, count {:trigger ReachesExactly(plan, horizon, count)} :: horizon >= asOf && ReachesExactly(plan, horizon, count) ==>
        paid == SumOf(Amounts(IncurredItems(plan.Periods(count))))
  }

  lemma PaidForOneHorizon(paid: Amount, policy: Policy, entries: seq<Entry>, asOf: int, horizon: int, count: nat)
    requires entries != [] && horizon >= asOf && ReachesExactly(PlanOf(policy, entries, asOf), horizon, count)
    requires paid == SumOf(Amounts(IncurredItems(PlanOf(policy, entries, asOf).Periods(count))))
    ensures PaidAgrees(paid, policy, entries, asOf)
  {
    var plan := PlanOf(policy, entries, asOf);
    forall h, n | h >= asOf && ReachesExactly(plan, h, n) ensures paid == SumOf(Amounts(IncurredItems(plan.Periods(n)))) {
      HorizonIrrelevant(plan, horizon, h, count, n);
    }
  }

  method SummarizePolicyCosts(policy: Policy, entries: seq<Entry>, asOf: int) returns (summary: Summary, perYear: seq<Item>)
    ensures PaidAgrees(summary.paidToDate, policy, entries, asOf)
    ensures YearTable(perYear, IncurredOf(policy, entries, asOf)) && SumOf(Amounts(perYear)) == summary.paidToDate
    ensures summary.paidToDate.Some? <==> Pays(policy, entries, asOf, None)
    ensures forall k :: 0 <= k < |perYear| ==> (perYear[k].amount.Some? <==> Pays(policy, entries, asOf, Some(perYear[k].year)))
    ensures entries == [] ==> summary == Summary(None, None, None) && perYear == []
    ensures entries != [] ==>
      var current := Current(SelectActiveOrLatestEntry(entries, asOf).value);
      summary.perMonth == current.perMonth && summary.perYear == current.annual
  {
    hide AddMonthsClamped, ReachesExactly, YearTable, IncurredItems, IncurredOf, Pays, SelectActiveOrLatestEntry, ResolveCostAnchor;
    if entries == [] {
      NothingPaid(policy, asOf);
      NoRows();
      return Summary(None, None, None), [];
    }
    var schedule := ComputePolicySchedule(policy, entries, asOf, asOf);
    var annual := schedule.current.value.annual;
    summary := Summary(schedule.paidToDate, if annual.Some? then Some(RoundMoney(annual.value / 12.0)) else None, annual);
    perYear := schedule.perYear;
    YearTableConserves(perYear, IncurredItems(schedule.periods));
    PaidForOneHorizon(schedule.paidToDate, policy, entries, asOf, asOf, |schedule.periods|);
    CountIsUnique(PlanOf(policy, entries, asOf), asOf, |schedule.periods|, PeriodCount(PlanOf(policy, entries, asOf), asOf, 0));
    IncurredOfIs(policy, entries, asOf);
    IncurredOfRecorded(policy, entries, asOf);
    TableShows(perYear, IncurredOf(policy, entries, asOf));
  }

  lemma IncurredOfIs(policy: Policy, entries: seq<Entry>, asOf: int)
    requires entries != []
    ensures var plan := PlanOf(policy, entries, asOf);
      IncurredOf(policy, entries, asOf) == IncurredItems(plan.Periods(PeriodCount(plan, asOf, 0)))
  {
  }

  lemma NothingPaid(policy: Policy, asOf: int)
    ensures IncurredOf(policy, [], asOf) == [] && forall year :: !Pays(policy, [], asOf, year)
  {
  }

  /** A yearly amount is missing exactly when nothing was recorded in the year. */
  lemma TableShows(table: seq<Item>, items: seq<Item>)
    requires YearTable(table, items)
    ensures forall k :: 0 <= k < |table| ==> (table[k].amount.Some? <==> Recorded(InYear(items, table[k].year)))
    ensures SumOf(Amounts(table)).Some? <==> Recorded(Amounts(items))
  {
    YearTableConserves(table, items);
  }

  lemma NoRows()
    ensures YearTable([], [])
  {
  }

  /** The full table shows the same total as the summary, and its yearly rows add up to it. */
  method ScheduleAgreesWithSummary(policy: Policy, entries: seq<Entry>, asOf: int, horizon: int)
    returns (schedule: PolicySchedule, summary: Summary)
    requires horizon >= asOf
    ensures PaidAgrees(summary.paidToDate, policy, entries, asOf) && schedule.paidToDate == summary.paidToDate
    ensures SumOf(Amounts(schedule.perYear)) == schedule.paidToDate
  {
    var perYear;
    schedule := ComputePolicySchedule(policy, entries, asOf, horizon);
    summary, perYear := SummarizePolicyCosts(policy, entries, asOf);
    if entries != [] {
      YearTableConserves(schedule.perYear, IncurredItems(schedule.periods));
      assert ReachesExactly(PlanOf(policy, entries, asOf), horizon, |schedule.periods|);
    }
  }

  // --- The household -----------------------------------------------------------------------

  datatype PolicyCosts = PolicyCosts(policy: Policy, entries: seq<Entry>)

  ghost predicate ValuesHold(years: seq<int>, values: map<int, seq<Amount>>, items: seq<Item>) {
    && Distinct(years) && (forall y :: y in years <==> y in values) && (forall y :: y in Years(items) <==> y in values)
    && forall y :: y in values ==> values[y] == InYear(items, y)
  }

  lemma NoValues()
    ensures ValuesHold([], map[], [])
  {
  }

  method AddTable(years: seq<int>, values: map<int, seq<Amount>>, ghost items: seq<Item>, table: seq<Item>)
    returns (years': seq<int>, values': map<int, seq<Amount>>)
    requires ValuesHold(years, values, items)
    ensures ValuesHold(years', values', items + table)
  {
    years', values' := years, values;
    assert items + table[..0] == items;
    for n := 0 to |table|
      invariant ValuesHold(years', values', items + table[..n])
    {
      ghost var before := items + table[..n];
      assert items + table[..n + 1] == before + [table[n]];
      var year := table[n].year;
      if year !in values' { NotYetInYear(before, year); }
      forall y ensures InYear(before + [table[n]], y) == InYear(before, y) + if year == y then [table[n].amount] else [] {
        InYearGrows(before, table[n], y);
      }
      YearsGrow(before, table[n]);
      years' := if year in values' then years' else years' + [year];
      values' := values'[year := (if year in values' then values'[year] else []) + [table[n].amount]];
    }
    assert table[..|table|] == table;
  }

  method HouseholdTable(years: seq<int>, values: map<int, seq<Amount>>, ghost items: seq<Item>) returns (table: seq<Item>)
    requires ValuesHold(years, values, items)
    ensures YearTable(table, items)
  {
    var sorted := SortedYears(years);
    table := [];
    for n := 0 to |sorted|
      invariant |table| == n
      invariant forall k :: 0 <= k < n ==> table[k] == Item(sorted[k], SumOf(InYear(items, sorted[k])))
    {
      assert sorted[n] in sorted;
      var sum := SumAmounts(values[sorted[n]]);
      table := table + [Item(sorted[n], sum)];
    }
    assert Years(table) == sorted;
  }

  lemma {:induction false} SumsConcatenate(a: seq<Amount>, b: seq<Amount>)
    ensures SumCents(a + b) == SumCents(a) + SumCents(b) && (Recorded(a + b) <==> Recorded(a) || Recorded(b))
  {
    if b == [] {
      assert a + b == a;
    } else {
      var n := |b| - 1;
      SumsConcatenate(a, b[..n]);
      assert a + b == (a + b[..n]) + [b[n]];
      SumGrows(a + b[..n], b[n]);
      assert b == b[..n] + [b[n]];
      SumGrows(b[..n], b[n]);
    }
  }

  lemma TablesAddUp(items: seq<Item>, table: seq<Item>, paid: seq<Amount>, value: Amount)
    requires SumOf(Amounts(items)) == SumOf(paid) && SumOf(Amounts(table)) == value
    ensures SumOf(Amounts(items + table)) == SumOf(paid + [value])
  {
    hide SumOf;
    assert Amounts(items + table) == Amounts(items) + Amounts(table);
    SumOfOne(Amounts(table));
    SumOfConcat(Amounts(items), Amounts(table), paid, [value]);
  }

  /** Two lists of items that come to the same in every year. */
  ghost predicate SameYears(a: seq<Item>, b: seq<Item>) {
    && (forall y :: y in Years(a) <==> y in Years(b))
    && (forall y :: SumOf(InYear(a, y)) == SumOf(InYear(b, y)))
  }

  lemma {:induction false} InYearConcat(a: seq<Item>, b: seq<Item>, year: int)
    ensures InYear(a + b, year) == InYear(a, year) + InYear(b, year)
  {
    if b == [] {
      assert a + b == a;
    } else {
      var n := |b| - 1;
      InYearConcat(a, b[..n], year);
      assert a + b == (a + b[..n]) + [b[n]] && b == b[..n] + [b[n]];
      InYearGrows(a + b[..n], b[n], year);
      InYearGrows(b[..n], b[n], year);
    }
  }

  lemma SumOfEqual(a: seq<Amount>, b: seq<Amount>)
    requires SumOf(a) == SumOf(b)
    ensures SumCents(a) == SumCents(b) && (Recorded(a) <==> Recorded(b))
  {
    CentsSurvive(SumCents(a));
    CentsSurvive(SumCents(b));
    if !Recorded(a) { NothingRecorded(a); NothingRecorded(b); }
  }

  lemma SumOfConcat(a: seq<Amount>, b: seq<Amount>, c: seq<Amount>, d: seq<Amount>)
    requires SumOf(a) == SumOf(c) && SumOf(b) == SumOf(d)
    ensures SumOf(a + b) == SumOf(c + d)
  {
    SumOfEqual(a, c);
    SumOfEqual(b, d);
    SumsConcatenate(a, b);
    SumsConcatenate(c, d);
  }

  lemma SameYearsConcat(a: seq<Item>, b: seq<Item>, c: seq<Item>, d: seq<Item>)
    requires SameYears(a, c) && SameYears(b, d)
    ensures SameYears(a + b, c + d)
  {
    assert Years(a + b) == Years(a) + Years(b) && Years(c + d) == Years(c) + Years(d);
    forall y ensures SumOf(InYear(a + b, y)) == SumOf(InYear(c + d, y)) {
      InYearConcat(a, b, y);
      InYearConcat(c, d, y);
      SumOfConcat(InYear(a, y), InYear(b, y), InYear(c, y), InYear(d, y));
    }
  }

  lemma {:induction false} RowOfYear(table: seq<Item>, k: nat)
    requires Ascending(Years(table)) && k < |table|
    ensures InYear(table, table[k].year) == [table[k].amount]
  {
    var n := |table| - 1;
    var year := table[k].year;
    assert table == table[..n] + [table[n]];
    InYearGrows(table[..n], table[n], year);
    assert forall i :: 0 <= i < n ==> Years(table[..n])[i] == Years(table)[i];
    if k == n {
      NotYetInYear(table[..n], year);
    } else {
      assert Years(table)[k] < Years(table)[n];
      RowOfYear(table[..n], k);
    }
  }

  lemma SumOfOne(values: seq<Amount>)
    ensures SumOf([SumOf(values)]) == SumOf(values)
  {
    var sum := SumOf(values);
    assert [sum][..0] == [];
    SumGrows([], sum);
    assert [] + [sum] == [sum];
    CentsSurvive(SumCents(values));
  }

  lemma TableIsSame(table: seq<Item>, items: seq<Item>)
    requires YearTable(table, items)
    ensures SameYears(table, items)
  {
    forall y ensures SumOf(InYear(table, y)) == SumOf(InYear(items, y)) {
      if y in Years(table) {
        var k :| 0 <= k < |table| && Years(table)[k] == y;
        RowOfYear(table, k);
        SumOfOne(InYear(items, y));
      } else {
        NotYetInYear(table, y);
        NotYetInYear(items, y);
      }
    }
  }

  lemma SameYearsTable(table: seq<Item>, a: seq<Item>, b: seq<Item>)
    requires YearTable(table, a) && SameYears(a, b)
    ensures YearTable(table, b)
  {
  }

  /** The incurred amounts of all policies, with their years. */
  function AllIncurred(policies: seq<PolicyCosts>, now: int): seq<Item> {
    if policies == [] then []
    else
      var n := |policies| - 1;
      AllIncurred(policies[..n], now) + IncurredOf(policies[n].policy, policies[n].entries, now)
  }

  lemma NothingIncurredYet(now: int)
    ensures SameYears([], AllIncurred([], now)) && SumOf(Amounts([])) == SumOf([])
  {
  }

  lemma OneMorePolicy(policies: seq<PolicyCosts>, n: nat, now: int, items: seq<Item>, table: seq<Item>)
    requires n < |policies| && SameYears(items, AllIncurred(policies[..n], now))
    requires YearTable(table, IncurredOf(policies[n].policy, policies[n].entries, now))
    ensures SameYears(items + table, AllIncurred(policies[..n + 1], now))
  {
    hide SameYears, YearTable, IncurredOf;
    assert policies[..n + 1][..n] == policies[..n];
    TableIsSame(table, IncurredOf(policies[n].policy, policies[n].entries, now));
    SameYearsConcat(items, table, AllIncurred(policies[..n], now), IncurredOf(policies[n].policy, policies[n].entries, now));
  }

  ghost predicate SomePays(policies: seq<PolicyCosts>, now: int, year: Option<int>) {
    exists k :: 0 <= k < |policies| && Pays(policies[k].policy, policies[k].entries, now, year)
  }

  lemma {:induction false} AllIncurredRecorded(policies: seq<PolicyCosts>, now: int)
    ensures Recorded(Amounts(AllIncurred(policies, now))) <==> SomePays(policies, now, None)
    ensures forall y :: Recorded(InYear(AllIncurred(policies, now), y)) <==> SomePays(policies, now, Some(y))
  {
    hide Pays, IncurredOf, Recorded, InYear;
    if policies == [] {
      NothingRecordedYet();
    } else {
      var n := |policies| - 1;
      var p := policies[n];
      AllIncurredRecorded(policies[..n], now);
      IncurredOfRecorded(p.policy, p.entries, now);
      var a, b := AllIncurred(policies[..n], now), IncurredOf(p.policy, p.entries, now);
      assert Amounts(a + b) == Amounts(a) + Amounts(b);
      SumsConcatenate(Amounts(a), Amounts(b));
      forall y ensures Recorded(InYear(a + b, y)) <==> Recorded(InYear(a, y)) || Recorded(InYear(b, y)) {
        InYearConcat(a, b, y);
        SumsConcatenate(InYear(a, y), InYear(b, y));
      }
      forall year ensures SomePays(policies, now, year) <==> SomePays(policies[..n], now, year) || Pays(p.policy, p.entries, now, year) {
        OneMorePays(policies, n, now, year);
      }
    }
  }

  lemma NothingRecordedYet()
    ensures !Recorded(Amounts([])) && forall y :: !Recorded(InYear([], y))
  {
  }

  lemma OneMorePays(policies: seq<PolicyCosts>, n: nat, now: int, year: Option<int>)
    requires |policies| == n + 1
    ensures SomePays(policies, now, year) <==> SomePays(policies[..n], now, year) || Pays(policies[n].policy, policies[n].entries, now, year)
  {
    hide Pays;
    if SomePays(policies[..n], now, year) {
      var k :| 0 <= k < n && Pays(policies[..n][k].policy, policies[..n][k].entries, now, year);
      assert policies[k] == policies[..n][k];
    }
    if k :| 0 <= k < n && Pays(policies[k].policy, policies[k].entries, now, year) {
      assert policies[..n][k] == policies[k];
    }
  }

  datatype HouseholdSummary = HouseholdSummary(totals: Summary, perYear: seq<Item>, policies: seq<Summary>)

  /** The projected amounts of a policy: those of the entry shown, none without one. */
  predicate ProjectionIs(row: Summary, p: PolicyCosts, now: int) {
    if p.entries == [] then row.perMonth.None? && row.perYear.None?
    else
      var current := Current(SelectActiveOrLatestEntry(p.entries, now).value);
      row.perMonth == current.perMonth && row.perYear == current.annual
  }

  /** Each household year is the sum of what the policies incurred in that year. The
      household total is the sum of the policies' totals and the sum of the yearly
      amounts; it is missing exactly when nothing is recorded. */
  method GetHouseholdSummary(policies: seq<PolicyCosts>, now: int) returns (r: HouseholdSummary)
    ensures |r.policies| == |policies|
    ensures forall k :: 0 <= k < |policies| ==> PaidAgrees(r.policies[k].paidToDate, policies[k].policy, policies[k].entries, now)
    ensures r.totals.paidToDate == SumOf(seq(|policies|, k requires 0 <= k < |policies| => r.policies[k].paidToDate))
    ensures r.totals.perYear == SumOf(seq(|policies|, k requires 0 <= k < |policies| => r.policies[k].perYear))
    ensures r.totals.perMonth == SumOf(seq(|policies|, k requires 0 <= k < |policies| => r.policies[k].perMonth))
    ensures YearTable(r.perYear, AllIncurred(policies, now)) && SumOf(Amounts(r.perYear)) == r.totals.paidToDate
    ensures r.totals.paidToDate.Some? <==> SomePays(policies, now, None)
    ensures forall k :: 0 <= k < |r.perYear| ==> (r.perYear[k].amount.Some? <==> SomePays(policies, now, Some(r.perYear[k].year)))
    ensures forall k :: 0 <= k < |policies| ==> ProjectionIs(r.policies[k], policies[k], now)
  {
    hide PaidAgrees, ValuesHold, YearTable, SameYears, IncurredOf, AllIncurred, Pays, SomePays, SumOf, Recorded, Amounts, Current, SelectActiveOrLatestEntry;
    NoValues();
    NothingIncurredYet(now);
    var rows: seq<Summary> := [];
    var paid: seq<Amount>, perMonth: seq<Amount>, perYear: seq<Amount> := [], [], [];
    var years: seq<int>, values: map<int, seq<Amount>> := [], map[];
    ghost var items: seq<Item> := [];
    for n := 0 to |policies|
      invariant |rows| == |paid| == |perMonth| == |perYear| == n
      invariant forall k :: 0 <= k < n ==> paid[k] == rows[k].paidToDate && perMonth[k] == rows[k].perMonth && perYear[k] == rows[k].perYear
      invariant forall k :: 0 <= k < n ==> PaidAgrees(rows[k].paidToDate, policies[k].policy, policies[k].entries, now)
      invariant ValuesHold(years, values, items) && SumOf(Amounts(items)) == SumOf(paid)
      invariant SameYears(items, AllIncurred(policies[..n], now))
      invariant forall k :: 0 <= k < n ==> ProjectionIs(rows[k], policies[k], now)
    {
      var summary, table := SummarizePolicyCosts(policies[n].policy, policies[n].entries, now);
      OneMorePolicy(policies, n, now, items, table);
      years, values := AddTable(years, values, items, table);
      TablesAddUp(items, table, paid, summary.paidToDate);
      items := items + table;
      rows, paid := rows + [summary], paid + [summary.paidToDate];
      perMonth, perYear := perMonth + [summary.perMonth], perYear + [summary.perYear];
    }
    var table := HouseholdTable(years, values, items);
    YearTableConserves(table, items);
    assert policies[..|policies|] == policies;
    SameYearsTable(table, items, AllIncurred(policies, now));
    AllIncurredRecorded(policies, now);
    TableShows(table, AllIncurred(policies, now));
    var total := SumAmounts(paid);
    var totalMonth := SumAmounts(perMonth);
    var totalYear := SumAmounts(perYear);
    r := HouseholdSummary(Summary(total, totalMonth, totalYear), table, rows);
    assert paid == seq(|policies|, k requires 0 <= k < |policies| => rows[k].paidToDate);
    assert perMonth == seq(|policies|, k requires 0 <= k < |policies| => rows[k].perMonth);
    assert perYear == seq(|policies|, k requires 0 <= k < |policies| => rows[k].perYear);
  }

  // --- A new entry and the schedule -----------------------------------------------------------

  lemma AnchorIsLeast(startDate: Option<int>, entries: seq<Entry>, least: int)
    requires startDate == Some(least) || exists e :: e in entries && e.validFrom == least
    requires (startDate.Some? ==> least <= startDate.value) && forall e :: e in entries ==> least <= e.validFrom
    ensures ResolveCostAnchor(startDate, entries) == Some(least)
  {
    var r := ResolveCostAnchor(startDate, entries);
    if startDate != Some(least) {
      var e :| e in entries && e.validFrom == least;
      var k :| 0 <= k < |entries| && entries[k] == e;
    }
    if r != startDate {
      var k :| 0 <= k < |entries| && entries[k].validFrom == r.value;
      assert entries[k] in entries;
    }
  }

  lemma CreateKeepsAnchor(startDate: Option<int>, rows: seq<Entry>, e: Entry)
    requires TableInv(rows) && rows != [] && (forall x :: x in rows ==> x.id != e.id)
    requires ResolveCostAnchor(startDate, rows).value <= e.validFrom
    ensures ResolveCostAnchor(startDate, Inserted(rows, e)) == ResolveCostAnchor(startDate, rows)
  {
    hide TableInv, EntryForPeriod, Inserted;
    InsertedMembers(rows, e);
    var least := ResolveCostAnchor(startDate, rows).value;
    var after := Inserted(rows, e);
    assert forall x :: x in rows ==> least <= x.validFrom;
    if startDate != Some(least) {
      var k :| 0 <= k < |rows| && rows[k].validFrom == least;
      assert rows[k] in rows;
      var cut := EntryForPeriod(rows, e.validFrom);
      StartsAreDistinct(rows);
      assert cut.Some? && rows[k].id == cut.value.id ==> rows[k] == cut.value;
      assert exists x :: x in after && x.validFrom == least;
    }
    AnchorIsLeast(startDate, after, least);
  }

  /** Once a table has an entry and the policy has a payment frequency, a new
      entry starting no earlier than the anchor leaves every period before its
      start as it was: same grid, same amount, same entry. */
  lemma CreateKeepsHistory(policy: Policy, rows: seq<Entry>, id: nat, req: CreateRequest, now: int, asOf: int, k: nat)
    requires policy.frequency.Some? && rows != []
    requires TableInv(rows) && (forall x :: x in rows ==> x.id < id) && Create(rows, id, req, now).Ok?
    requires ResolveCostAnchor(policy.startDate, rows).value <= req.validFrom
    requires PlanOf(policy, rows, asOf).Start(k) < req.validFrom
    ensures var after := Create(rows, id, req, now).value;
      && after != []
      && (forall j :: PlanOf(policy, after, asOf).Start(j) == PlanOf(policy, rows, asOf).Start(j))
      && PlanOf(policy, after, asOf).Period(k) == PlanOf(policy, rows, asOf).Period(k)
  {
    hide TableInv, EntryForPeriod, AddMonthsClamped, Create, Inserted, ResolveCostAnchor, SelectActiveOrLatestEntry, CutAndAdded;
    var e := NewEntry(id, req, now);
    CreateInserts(rows, id, req, now);
    AddedIsThere(rows, e);
    CreateKeepsAnchor(policy.startDate, rows, e);
    var plan := PlanOf(policy, rows, asOf);
    CreateChangesApplied(rows, id, req, now, plan.Start(k));
    SamePeriod(plan, PlanOf(policy, Create(rows, id, req, now).value, asOf), k);
  }

  lemma AddedIsThere(rows: seq<Entry>, e: Entry)
    requires TableInv(rows) && (forall x :: x in rows ==> x.id != e.id)
    ensures Inserted(rows, e) != []
  {
    InsertedMembers(rows, e);
  }

  lemma SameAmount(x: Entry, y: Entry, step: Frequency)
    requires y == x.(validTo := y.validTo)
    ensures PeriodAmount(y, step) == PeriodAmount(x, step)
  {
    hide Prorated;
    assert y.amount == x.amount && y.frequency == x.frequency;
  }

  /** Two plans on the same grid agree on a period when the same entry applies. */
  lemma SamePeriod(a: Plan, b: Plan, k: nat)
    requires b.anchor == a.anchor && b.frequency == a.frequency && b.asOf == a.asOf
    requires SameEntry(EntryForPeriod(a.entries, a.Start(k)), EntryForPeriod(b.entries, a.Start(k)))
    ensures (forall j :: b.Start(j) == a.Start(j)) && b.Period(k) == a.Period(k)
  {
    hide AddMonthsClamped, EntryForPeriod, FrequencyMonths, PeriodAmount;
    assert b.Start(k) == a.Start(k) && b.Start(k + 1) == a.Start(k + 1);
    var x, y := EntryForPeriod(a.entries, a.Start(k)), EntryForPeriod(b.entries, b.Start(k));
    if x.Some? {
      SameAmount(x.value, y.value, a.frequency);
    }
  }

  // --- Proration ---------------------------------------------------------------------------------

  lemma SharesAddUp(a: real, step: Frequency, entry: Frequency, n: nat)
    requires n * FrequencyMonths(step) == FrequencyMonths(entry)
    ensures n in {1, 2, 3, 4, 6, 12} && n as real * (a * Factor(step, entry)) == a
  {
    match step { case Monthly => case Quarterly => case SemiAnnual => case Annual => }
    match entry { case Monthly => case Quarterly => case SemiAnnual => case Annual => }
  }

  lemma RoundedSharesBound(n: nat, share: real)
    requires n in {1, 2, 3, 4, 6, 12}
    ensures -(n as real) / 2.0 <= (n * Round(share)) as real - n as real * share <= n as real / 2.0
  {
    var c := Round(share) as real;
    assert (n * Round(share)) as real == n as real * c;
    if { case n == 1 => case n == 2 => case n == 3 => case n == 4 => case n == 6 => case n == 12 => }
  }

  lemma TimesHundred(n: real, x: real)
    ensures n * (x * 100.0) == (n * x) * 100.0
  {
  }

  lemma SharesMakeTheAmount(entry: Entry, step: Frequency, n: nat)
    requires entry.amount.Some? && n * FrequencyMonths(step) == FrequencyMonths(entry.frequency)
    ensures var total := n * CentsOf(PeriodAmount(entry, step));
      -(n as real) / 2.0 <= total as real - entry.amount.value * 100.0 <= n as real / 2.0
  {
    hide FrequencyMonths, Round, Factor, PeriodAmount;
    var share := entry.amount.value * Factor(step, entry.frequency);
    SharesAddUp(entry.amount.value, step, entry.frequency, n);
    SharesBound(n, share, entry.amount.value);
    CentsOfShare(entry, step);
  }

  lemma {:induction false} SameAmounts(values: seq<Amount>, amount: Amount)
    requires forall i :: 0 <= i < |values| ==> values[i] == amount
    ensures SumCents(values) == |values| * CentsOf(amount)
  {
    if values != [] {
      var n := |values| - 1;
      SameAmounts(values[..n], amount);
      assert (n + 1) * CentsOf(amount) == n * CentsOf(amount) + CentsOf(amount);
    }
  }

  lemma AmountOfPeriod(plan: Plan, k: nat, entry: Entry)
    requires EntryForPeriod(plan.entries, plan.Start(k)) == Some(entry)
    ensures plan.Period(k).amount == PeriodAmount(entry, plan.frequency)
  {
    hide AddMonthsClamped, FrequencyMonths, EntryForPeriod, PeriodAmount;
  }

  lemma WholeEntryPeriod(plan: Plan, k: nat, n: nat, entry: Frequency)
    requires n * FrequencyMonths(plan.frequency) == FrequencyMonths(entry)
    ensures plan.Start(k + n) == AddMonthsClamped(plan.anchor, k * FrequencyMonths(plan.frequency) + FrequencyMonths(entry))
  {
    hide AddMonthsClamped, FrequencyMonths;
    var m := FrequencyMonths(plan.frequency);
    assert (k + n) * m == k * m + n * m;
  }

  /** `n` consecutive periods of a schedule that together make one period of the
      entry that applies to all of them sum to the entry's amount up to half a cent
      each. */
  lemma ProrationBound(plan: Plan, k: nat, n: nat, entry: Entry)
    requires entry.amount.Some? && n * FrequencyMonths(plan.frequency) == FrequencyMonths(entry.frequency)
    requires forall j :: k <= j < k + n ==> EntryForPeriod(plan.entries, plan.Start(j)) == Some(entry)
    ensures plan.Start(k + n) == AddMonthsClamped(plan.anchor, k * FrequencyMonths(plan.frequency) + FrequencyMonths(entry.frequency))
    ensures var total := SumCents(seq(n, i requires 0 <= i < n => plan.Period(k + i).amount));
      -(n as real) / 2.0 <= total as real - entry.amount.value * 100.0 <= n as real / 2.0
  {
    hide AddMonthsClamped, FrequencyMonths, EntryForPeriod, PeriodAmount, SumCents, CentsOf;
    WholeEntryPeriod(plan, k, n, entry.frequency);
    var values := seq(n, i requires 0 <= i < n => plan.Period(k + i).amount);
    forall i | 0 <= i < n ensures values[i] == PeriodAmount(entry, plan.frequency) {
      assert k <= k + i < k + n;
      AmountOfPeriod(plan, k + i, entry);
    }
    SameAmounts(values, PeriodAmount(entry, plan.frequency));
    SharesMakeTheAmount(entry, plan.frequency, n);
  }

  lemma CentsOfShare(entry: Entry, step: Frequency)
    requires entry.amount.Some?
    ensures CentsOf(PeriodAmount(entry, step)) == Round(entry.amount.value * Factor(step, entry.frequency) * 100.0)
  {
    hide FrequencyMonths;
    CentsSurvive(ToCents(entry.amount.value * Factor(step, entry.frequency)));
  }

  lemma SharesBound(n: nat, share: real, whole: real)
    requires n in {1, 2, 3, 4, 6, 12} && n as real * share == whole
    ensures -(n as real) / 2.0 <= (n * Round(share * 100.0)) as real - whole * 100.0 <= n as real / 2.0
  {
    hide Round;
    RoundedSharesBound(n, share * 100.0);
    TimesHundred(n as real, share);
  }

  lemma FactorOfMultiple(step: Frequency, entry: Frequency, n: nat)
    requires FrequencyMonths(step) == n * FrequencyMonths(entry)
    ensures n in {1, 2, 3, 4, 6, 12} && Factor(step, entry) == n as real
  {
    match step { case Monthly => case Quarterly => case SemiAnnual => case Annual => }
    match entry { case Monthly => case Quarterly => case SemiAnnual => case Annual => }
  }

  lemma TimesCents(n: nat, cents: int)
    requires n in {1, 2, 3, 4, 6, 12}
    ensures FromCents(cents) * (n as real) * 100.0 == (n * cents) as real
  {
    if { case n == 1 => case n == 2 => case n == 3 => case n == 4 => case n == 6 => case n == 12 => }
  }

  /** A step of several whole entry periods carries exactly their cents. */
  lemma ProrationExact(entry: Entry, step: Frequency, n: nat, cents: int)
    requires entry.amount == Some(FromCents(cents)) && FrequencyMonths(step) == n * FrequencyMonths(entry.frequency)
    ensures CentsOf(PeriodAmount(entry, step)) == n * cents
  {
    hide FrequencyMonths, Factor, FromCents;
    FactorOfMultiple(step, entry.frequency, n);
    TimesCents(n, cents);
    CentsSurvive(n * cents);
  }

  /** The projections of the current entry: the annual amount is the entry carried
      over to a year, twelve months and four quarters of it make the year up to
      half a cent each. */
  lemma CurrentProjection(active: Entry)
    ensures var c := Current(active);
      && c.entryId == active.id && c.frequency == active.frequency && c.validFrom == active.validFrom && c.validTo == active.validTo
      && c.amount == active.amount && c.annual == PeriodAmount(active, Annual)
      && (if active.amount.None? then c.annual.None? && c.perMonth.None? && c.perQuarter.None?
          else
            && c.annual.Some? && c.perMonth.Some? && c.perQuarter.Some?
            && -6.0 <= 12.0 * ToCents(c.perMonth.value) as real - ToCents(c.annual.value) as real <= 6.0
            && -2.0 <= 4.0 * ToCents(c.perQuarter.value) as real - ToCents(c.annual.value) as real <= 2.0)
  {
    hide ToCents, FromCents, PerYear, FrequencyMonths, Factor, RoundMoney;
    if active.amount.Some? {
      var a := active.amount.value * PerYear(active.frequency) as real;
      YearFactor(active.amount.value, active.frequency);
      RoundedIsCents(a);
      AnnualIs(active);
      TwelfthOfCents(ToCents(a));
      QuarterOfCents(ToCents(a));
    }
  }

  lemma AnnualIs(active: Entry)
    requires active.amount.Some?
    ensures var c := Current(active); var annual := RoundMoney(active.amount.value * PerYear(active.frequency) as real);
      c.annual == Some(annual) && c.perMonth == Some(RoundMoney(annual / 12.0)) && c.perQuarter == Some(RoundMoney(annual / 4.0))
  {
  }

  lemma RoundedIsCents(x: real)
    ensures RoundMoney(x) == FromCents(ToCents(x)) && ToCents(RoundMoney(x)) == ToCents(x)
  {
    CentsSurvive(ToCents(x));
  }

  lemma YearFactor(a: real, f: Frequency)
    ensures a * Factor(Annual, f) == a * PerYear(f) as real
  {
    match f { case Monthly => case Quarterly => case SemiAnnual => case Annual => }
  }

  lemma TwelfthOfCents(cents: int)
    ensures -6.0 <= 12.0 * ToCents(RoundMoney(FromCents(cents) / 12.0)) as real - cents as real <= 6.0
  {
    hide Round;
    CentsSurvive(ToCents(FromCents(cents) / 12.0));
  }

  lemma QuarterOfCents(cents: int)
    ensures -2.0 <= 4.0 * ToCents(RoundMoney(FromCents(cents) / 4.0)) as real - cents as real <= 2.0
  {
    hide Round;
    CentsSurvive(ToCents(FromCents(cents) / 4.0));
  }
}
