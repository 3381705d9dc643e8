// Amounts as exact reals, rounded to cents; sums are formed in whole cents.
module Money {
  import opened Wrappers

  /** None: nothing is recorded, which is never shown as 0. */
  type Amount = Option<real>

  /** Math.round: halves go up. */
  function Round(x: real): (n: int)
    ensures x - 0.5 < n as real <= x + 0.5
  {
    (x + 0.5).Floor
  }

  function ToCents(amount: real): int { Round(amount * 100.0) }

  function FromCents(cents: int): real { cents as real / 100.0 }

  function RoundMoney(amount: real): real { FromCents(ToCents(amount)) }

  lemma CentsSurvive(cents: int)
    ensures ToCents(FromCents(cents)) == cents
  {
    assert FromCents(cents) * 100.0 == cents as real;
  }

  function CentsOf(amount: Amount): int { if amount.Some? then ToCents(amount.value) else 0 }

  function SumCents(values: seq<Amount>): int {
    if values == [] then 0 else SumCents(values[..|values| - 1]) + CentsOf(values[|values| - 1])
  }

  predicate Recorded(values: seq<Amount>) { exists k :: 0 <= k < |values| && values[k].Some? }

  function SumOf(values: seq<Amount>): Amount {
    if Recorded(values) then Some(FromCents(SumCents(values))) else None
  }

  method SumAmounts(values: seq<Amount>) returns (sum: Amount)
    ensures sum == SumOf(values)
    ensures sum.None? <==> forall k :: 0 <= k < |values| ==> values[k].None?
  {
    var cents, recorded := 0, false;
    for n := 0 to |values|
      invariant cents == SumCents(values[..n]) && recorded == Recorded(values[..n])
    {
      assert values[..n + 1][..n] == values[..n];
      assert forall k :: 0 <= k < n ==> values[..n + 1][k] == values[..n][k];
      assert values[..n + 1][n] == values[n];
      if values[n].Some? {
        cents := cents + ToCents(values[n].value);
        recorded := true;
      }
    }
    assert values[..|values|] == values;
    sum := if recorded then Some(FromCents(cents)) else None;
  }

  // --- Amounts by year --------------------------------------------------------------

  datatype Item = Item(year: int, amount: Amount)

  function Amounts(items: seq<Item>): (r: seq<Amount>)
    ensures |r| == |items| && forall k :: 0 <= k < |items| ==> r[k] == items[k].amount
  {
    seq(|items|, k requires 0 <= k < |items| => items[k].amount)
  }

  function InYear(items: seq<Item>, year: int): (r: seq<Amount>)
    ensures Recorded(r) <==> exists k :: 0 <= k < |items| && items[k].year == year && items[k].amount.Some?
  {
    if items == [] then []
    else
      var n := |items| - 1;
      var before := InYear(items[..n], year);
      assert forall k :: 0 <= k < n ==> items[..n][k] == items[k];
      if items[n].year == year then
        assert forall k :: 0 <= k < |before| ==> (before + [items[n].amount])[k] == before[k];
        assert (before + [items[n].amount])[|before|] == items[n].amount;
        before + [items[n].amount]
      else before
  }

  predicate Ascending(years: seq<int>) { forall i, j :: 0 <= i < j < |years| ==> years[i] < years[j] }

  function Years(items: seq<Item>): (r: seq<int>)
    ensures |r| == |items| && forall k :: 0 <= k < |items| ==> r[k] == items[k].year
  {
    seq(|items|, k requires 0 <= k < |items| => items[k].year)
  }

  /** One row per year of `items`, ascending, with the sum of that year. */
  ghost predicate YearTable(table: seq<Item>, items: seq<Item>) {
    && Ascending(Years(table))
    && (forall y :: y in Years(items) <==> y in Years(table))
    && (forall k :: 0 <= k < |table| ==> table[k].amount == SumOf(InYear(items, table[k].year)))
  }

  function SumOverYears(years: seq<int>, items: seq<Item>): int {
    if years == [] then 0 else SumOverYears(years[..|years| - 1], items) + SumCents(InYear(items, years[|years| - 1]))
  }

  lemma {:induction false} OneMoreItem(years: seq<int>, items: seq<Item>, item: Item)
    requires Ascending(years)
    ensures SumOverYears(years, items + [item]) == SumOverYears(years, items) + if item.year in years then CentsOf(item.amount) else 0
  {
    if years != [] {
      var n := |years| - 1;
      OneMoreItem(years[..n], items, item);
      assert years == years[..n] + [years[n]];
      assert (items + [item])[..|items|] == items;
      var before := InYear(items, years[n]);
      assert (before + [item.amount])[..|before|] == before;
      assert item.year == years[n] ==> item.year !in years[..n];
    }
  }

  /** Splitting by year loses nothing. */
  lemma {:induction false} YearsAddUp(years: seq<int>, items: seq<Item>)
    requires Ascending(years) && forall y :: y in Years(items) ==> y in years
    ensures SumOverYears(years, items) == SumCents(Amounts(items))
  {
    if items == [] {
      NoItems(years);
    } else {
      var n := |items| - 1;
      assert forall k :: 0 <= k < n ==> Years(items[..n])[k] == Years(items)[k];
      assert Years(items)[n] in Years(items);
      YearsAddUp(years, items[..n]);
      assert items == items[..n] + [items[n]];
      OneMoreItem(years, items[..n], items[n]);
      assert Amounts(items)[..n] == Amounts(items[..n]);
    }
  }

  lemma {:induction false} NoItems(years: seq<int>)
    ensures SumOverYears(years, []) == 0
  {
    if years != [] { NoItems(years[..|years| - 1]); }
  }

  lemma {:induction false} TableSums(table: seq<Item>, items: seq<Item>)
    requires forall k :: 0 <= k < |table| ==> table[k].amount == SumOf(InYear(items, table[k].year))
    ensures SumCents(Amounts(table)) == SumOverYears(Years(table), items)
  {
    if table != [] {
      var n := |table| - 1;
      TableSums(table[..n], items);
      assert Amounts(table)[..n] == Amounts(table[..n]) && Years(table)[..n] == Years(table[..n]);
      CentsSurvive(SumCents(InYear(items, table[n].year)));
      if !Recorded(InYear(items, table[n].year)) { NothingRecorded(InYear(items, table[n].year)); }
    }
  }

  lemma {:induction false} NothingRecorded(values: seq<Amount>)
    requires !Recorded(values)
    ensures SumCents(values) == 0
  {
    if values != [] {
      var n := |values| - 1;
      assert forall k :: 0 <= k < n ==> values[..n][k] == values[k];
      NothingRecorded(values[..n]);
    }
  }

  /** The yearly table has the same total as what it was made of, and shows an
      amount exactly when something was recorded. */
  lemma YearTableConserves(table: seq<Item>, items: seq<Item>)
    requires YearTable(table, items)
    ensures SumCents(Amounts(table)) == SumCents(Amounts(items))
    ensures SumOf(Amounts(table)) == SumOf(Amounts(items))
  {
    TableSums(table, items);
    YearsAddUp(Years(table), items);
    if Recorded(Amounts(items)) {
      var k :| 0 <= k < |items| && Amounts(items)[k].Some?;
      assert items[k].year in Years(items);
      var m :| 0 <= m < |table| && Years(table)[m] == items[k].year;
      assert table[m].year == items[k].year && items[k].amount.Some?;
      assert Amounts(table)[m].Some?;
    }
    if Recorded(Amounts(table)) {
      var m :| 0 <= m < |table| && Amounts(table)[m].Some?;
      var k :| 0 <= k < |items| && items[k].year == table[m].year && items[k].amount.Some?;
      assert Amounts(items)[k].Some?;
    }
  }

  // --- Building the table ---------------------------------------------------------------

  function InsertYear(years: seq<int>, year: int): (r: seq<int>)
    requires Ascending(years) && year !in years
    ensures Ascending(r) && forall y :: y in r <==> y in years || y == year
  {
    if years == [] || years[|years| - 1] < year then years + [year]
    else
      var n := |years| - 1;
      assert years == years[..n] + [years[n]];
      assert year != years[n];
      var before := InsertYear(years[..n], year);
      assert forall y :: y in before ==> y < years[n];
      assert forall i :: 0 <= i < |before| ==> before[i] in before;
      before + [years[n]]
  }

  /** The keys of the year map, sorted. */
  method SortedYears(keys: seq<int>) returns (years: seq<int>)
    requires Distinct(keys)
    ensures Ascending(years) && forall y :: y in years <==> y in keys
  {
    years := [];
    for n := 0 to |keys|
      invariant Ascending(years) && forall y :: y in years <==> y in keys[..n]
    {
      years := InsertYear(years, keys[n]);
    }
  }
}
