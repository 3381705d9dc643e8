// The proleptic Gregorian calendar in one zone without clock changes, and the
// clamped month arithmetic of the billing periods. Months are numbered through
// (12 * year + month, January = 0); times are milliseconds since 1 January 1970.
module Calendar {
  const MS_PER_DAY := 86_400_000

  const EPOCH := 719528

  predicate IsLeap(year: int) { year % 4 == 0 && (year % 100 != 0 || year % 400 == 0) }

  function MonthLength(month: int): (days: nat)
    ensures 28 <= days <= 31
  {
    var m := month % 12;
    if m == 1 then (if IsLeap(month / 12) then 29 else 28)
    else if m in {3, 5, 8, 10} then 30 else 31
  }

  function LeapYearsBefore(year: int): int { (year - 1) / 4 - (year - 1) / 100 + (year - 1) / 400 + 1 }

  // Days before each month in a year that is not a leap year.
  const DAYS_BEFORE: seq<nat> := [0, 31, 59, 90, 120, 151, 181, 212, 243, 273, 304, 334]

  /** The number of the month's first day; day 0 is 1 January of year 0. */
  function MonthStart(month: int): int {
    var year := month / 12;
    var m := month % 12;
    365 * year + LeapYearsBefore(year) + DAYS_BEFORE[m] + if m > 1 && IsLeap(year) then 1 else 0
  }

  lemma LeapYearStep(year: int)
    ensures LeapYearsBefore(year + 1) == LeapYearsBefore(year) + if IsLeap(year) then 1 else 0
  {
    assert year / 4 == (year - 1) / 4 + if year % 4 == 0 then 1 else 0;
    assert year / 100 == (year - 1) / 100 + if year % 100 == 0 then 1 else 0;
    assert year / 400 == (year - 1) / 400 + if year % 400 == 0 then 1 else 0;
    assert year % 400 == 0 ==> year % 100 == 0 && year % 4 == 0;
    assert year % 100 == 0 ==> year % 4 == 0;
  }

  /** Each month begins right after the last day of the month before. */
  lemma NextMonthStarts(month: int)
    ensures MonthStart(month + 1) == MonthStart(month) + MonthLength(month)
  {
    var year, m := month / 12, month % 12;
    LeapYearStep(year);
    if m == 11 {
      assert (month + 1) / 12 == year + 1 && (month + 1) % 12 == 0;
    } else {
      assert (month + 1) / 12 == year && (month + 1) % 12 == m + 1;
    }
  }

  lemma {:induction false} MonthStartsIncrease(a: int, b: int)
    requires a < b
    ensures MonthStart(a) + MonthLength(a) <= MonthStart(b)
    decreases b - a
  {
    NextMonthStarts(a);
    if a + 1 < b { MonthStartsIncrease(a + 1, b); }
  }

  /** Searches the month of a day from `guess` on. */
  function MonthNear(day: int, guess: int): (month: int)
    ensures MonthStart(month) <= day < MonthStart(month) + MonthLength(month)
    decreases if day < MonthStart(guess) then 1 else 0, if day < MonthStart(guess) then MonthStart(guess) - day else day - MonthStart(guess)
  {
    NextMonthStarts(guess);
    NextMonthStarts(guess - 1);
    if day < MonthStart(guess) then MonthNear(day, guess - 1)
    else if day >= MonthStart(guess) + MonthLength(guess) then MonthNear(day, guess + 1)
    else guess
  }

  function MonthOfDay(day: int): (month: int)
    ensures MonthStart(month) <= day < MonthStart(month) + MonthLength(month)
  {
    MonthNear(day, day / 31)
  }

  /** A day lies in exactly one month. */
  lemma MonthIsUnique(day: int, month: int)
    requires MonthStart(month) <= day < MonthStart(month) + MonthLength(month)
    ensures MonthOfDay(day) == month
  {
    var found := MonthOfDay(day);
    if found < month { MonthStartsIncrease(found, month); }
    if month < found { MonthStartsIncrease(month, found); }
  }

  // --- The parts of a time -----------------------------------------------------------

  function DayNumber(t: int): int { t / MS_PER_DAY + EPOCH }

  function Month(t: int): int { MonthOfDay(DayNumber(t)) }

  function Year(t: int): int { Month(t) / 12 }

  /** Counted from 0. */
  function DayOfMonth(t: int): (d: nat)
    ensures d < MonthLength(Month(t))
  {
    DayNumber(t) - MonthStart(Month(t))
  }

  function MsOfDay(t: int): (ms: nat)
    ensures ms < MS_PER_DAY
  {
    t % MS_PER_DAY
  }

  function Compose(month: int, day: nat, ms: nat): int { (MonthStart(month) + day - EPOCH) * MS_PER_DAY + ms }

  lemma ComposeParts(t: int)
    ensures Compose(Month(t), DayOfMonth(t), MsOfDay(t)) == t
  {
  }

  lemma PartsOfCompose(month: int, day: nat, ms: nat)
    requires day < MonthLength(month) && ms < MS_PER_DAY
    ensures var t := Compose(month, day, ms); Month(t) == month && DayOfMonth(t) == day && MsOfDay(t) == ms
  {
    hide MonthLength, MonthStart, MonthOfDay;
    var t := Compose(month, day, ms);
    var n := MonthStart(month) + day - EPOCH;
    assert t == n * MS_PER_DAY + ms && t / MS_PER_DAY == n && t % MS_PER_DAY == ms;
    MonthIsUnique(DayNumber(t), month);
  }

  /** Time 0 is the first day of January 1970. */
  lemma EpochIs1970()
    ensures Month(0) == 12 * 1970 && DayOfMonth(0) == 0 && MsOfDay(0) == 0
  {
    hide MonthOfDay;
    assert LeapYearsBefore(1970) == 478;
    assert 23640 / 12 == 1970 && 23640 % 12 == 0;
    assert MonthStart(23640) == 719528;
    MonthIsUnique(719528, 23640);
  }

  // --- Adding months --------------------------------------------------------------------

  function Min(a: int, b: int): int { if a <= b then a else b }

  function AddMonthsClamped(date: int, months: int): int {
    var target := Month(date) + months;
    Compose(target, Min(DayOfMonth(date), MonthLength(target) - 1), MsOfDay(date))
  }

  /** The month moves by exactly `months`, the time of day stays, and the day is
      the anchor's day or the month's last day, whichever is earlier. */
  lemma AddedParts(date: int, months: int)
    ensures var t := AddMonthsClamped(date, months);
      && Month(t) == Month(date) + months
      && DayOfMonth(t) == Min(DayOfMonth(date), MonthLength(Month(t)) - 1)
      && MsOfDay(t) == MsOfDay(date)
  {
    hide MonthLength, MonthStart, MonthOfDay, Compose;
    var target := Month(date) + months;
    PartsOfCompose(target, Min(DayOfMonth(date), MonthLength(target) - 1), MsOfDay(date));
  }

  lemma AddNothing(date: int)
    ensures AddMonthsClamped(date, 0) == date
  {
    ComposeParts(date);
  }

  lemma LaterMonthIsLater(a: int, b: int)
    requires Month(a) < Month(b)
    ensures a < b
  {
    hide MonthLength, MonthStart, MonthOfDay;
    MonthStartsIncrease(Month(a), Month(b));
    assert DayNumber(a) < DayNumber(b);
  }

  /** More months added, a later time. */
  lemma AddedIncrease(date: int, m: int, n: int)
    requires m < n
    ensures AddMonthsClamped(date, m) < AddMonthsClamped(date, n)
  {
    AddedParts(date, m);
    AddedParts(date, n);
    LaterMonthIsLater(AddMonthsClamped(date, m), AddMonthsClamped(date, n));
  }

  /** The documented example: from an anchor on 31 January the periods begin on the
      last of February, again on the 31st of March and on the 30th of April. */
  lemma NoDriftExample()
    ensures var anchor := 30 * MS_PER_DAY;
      && Month(anchor) == 12 * 1970 && DayOfMonth(anchor) == 30
      && DayOfMonth(AddMonthsClamped(anchor, 1)) == 27
      && DayOfMonth(AddMonthsClamped(anchor, 2)) == 30
      && DayOfMonth(AddMonthsClamped(anchor, 3)) == 29
      && AddMonthsClamped(anchor, 1) == 58 * MS_PER_DAY
  {
    hide MonthStart, MonthOfDay;
    EpochIs1970();
    var anchor := 30 * MS_PER_DAY;
    assert 23640 % 12 == 0 && 23640 / 12 == 1970 && MonthLength(23640) == 31;
    PartsOfCompose(23640, 30, 0);
    assert Compose(23640, 30, 0) == anchor;
    AddedParts(anchor, 1);
    AddedParts(anchor, 2);
    AddedParts(anchor, 3);
    assert MonthLength(23641) == 28 && MonthLength(23642) == 31 && MonthLength(23643) == 30;
    NextMonthStarts(23640);
  }
}
