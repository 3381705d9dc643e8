// Reading a calendar date in ISO or German notation. The printed ISO form is the
// full-date of section 5.6 of RFC 3339 with the day limits of section 5.7.
module DateParser {
  import opened Wrappers
  import opened Text
  import Calendar

  datatype Date = Date(year: nat, month: nat, day: nat)

  /** Date.UTC reads the years 0 to 99 as 1900 to 1999. */
  function UtcYear(year: nat): nat { if year <= 99 then 1900 + year else year }

  /** Builds the date and checks that nothing rolled over. */
  predicate IsValidDate(year: nat, month: nat, day: nat) {
    if month < 1 || month > 12 || day < 1 || day > 31 then false
    else
      var number := Calendar.MonthStart(12 * UtcYear(year) + (month - 1)) + (day - 1);
      var built := Calendar.MonthOfDay(number);
      built / 12 == year && built % 12 == month - 1 && number - Calendar.MonthStart(built) + 1 == day
  }

  /** Exactly the real Gregorian dates from the year 100 on are accepted. */
  lemma ValidIffReal(year: nat, month: nat, day: nat)
    ensures IsValidDate(year, month, day) <==>
      year >= 100 && 1 <= month <= 12 && 1 <= day <= Calendar.MonthLength(12 * year + (month - 1))
  {
    hide Calendar.MonthStart, Calendar.MonthLength, Calendar.MonthOfDay;
    if 1 <= month <= 12 && 1 <= day <= 31 {
      var index := 12 * UtcYear(year) + (month - 1);
      var number := Calendar.MonthStart(index) + (day - 1);
      assert index / 12 == UtcYear(year) && index % 12 == month - 1;
      if day <= Calendar.MonthLength(index) {
        Calendar.MonthIsUnique(number, index);
      } else {
        Calendar.NextMonthStarts(index);
        Calendar.MonthIsUnique(number, index + 1);
      }
    }
  }

  predicate Real(d: Date) {
    d.year >= 100 && 1 <= d.month <= 12 && 1 <= d.day <= Calendar.MonthLength(12 * d.year + (d.month - 1))
  }

  function Iso(d: Date): (s: string)
    ensures |s| == 10
  {
    FixedWidth(d.year, 4) + "-" + FixedWidth(d.month, 2) + "-" + FixedWidth(d.day, 2)
  }

  /** /^(\d{4})-(\d{2})-(\d{2})$/ */
  function MatchIso(v: string): Option<Date> {
    if |v| == 10 && AllDigits(v[..4]) && v[4] == '-' && AllDigits(v[5..7]) && v[7] == '-' && AllDigits(v[8..])
    then Some(Date(ParseDigits(v[..4]), ParseDigits(v[5..7]), ParseDigits(v[8..])))
    else None
  }

  /** The match with a day of `d` and a month of `m` digits. */
  predicate GermanShape(v: string, d: nat, m: nat) {
    && |v| == d + m + 6
    && AllDigits(v[..d]) && v[d] == '.' && AllDigits(v[d + 1..d + 1 + m]) && v[d + 1 + m] == '.' && AllDigits(v[d + m + 2..])
  }

  function GermanParts(v: string, d: nat, m: nat): Date
    requires GermanShape(v, d, m)
  {
    Date(ParseDigits(v[d + m + 2..]), ParseDigits(v[d + 1..d + 1 + m]), ParseDigits(v[..d]))
  }

  /** /^(\d{1,2})\.(\d{1,2})\.(\d{4})$/ */
  function MatchGerman(v: string): Option<Date> {
    if GermanShape(v, 2, 2) then Some(GermanParts(v, 2, 2))
    else if GermanShape(v, 2, 1) then Some(GermanParts(v, 2, 1))
    else if GermanShape(v, 1, 2) then Some(GermanParts(v, 1, 2))
    else if GermanShape(v, 1, 1) then Some(GermanParts(v, 1, 1))
    else None
  }

  function ParseIsoDate(raw: string): Option<string> {
    var value := Trim(raw);
    var iso := MatchIso(value);
    if iso.Some? then
      if IsValidDate(iso.value.year, iso.value.month, iso.value.day) then Some(value) else None
    else
      var german := MatchGerman(value);
      if german.Some? && IsValidDate(german.value.year, german.value.month, german.value.day) then Some(Iso(german.value)) else None
  }

  // --- Round trips ------------------------------------------------------------------------

  lemma MatchIsoOfIso(d: Date)
    requires d.year < 10000 && d.month < 100 && d.day < 100
    ensures MatchIso(Iso(d)) == Some(d)
  {
    hide FixedWidth, ParseDigits;
    var y, m, day := FixedWidth(d.year, 4), FixedWidth(d.month, 2), FixedWidth(d.day, 2);
    var s := Iso(d);
    Powers();
    assert s[..4] == y && s[5..7] == m && s[8..] == day && s[4] == '-' && s[7] == '-';
    ParseFixedWidth(d.year, 4);
    ParseFixedWidth(d.month, 2);
    ParseFixedWidth(d.day, 2);
  }

  lemma Powers()
    ensures Pow10(2) == 100 && Pow10(4) == 10000
  {
    assert Pow10(1) == 10 && Pow10(3) == 1000;
  }

  lemma IsoIsTrimmed(d: Date)
    ensures IsTrimmed(Iso(d)) && Iso(d) != ""
  {
    hide FixedWidth;
    assert IsDigit(Iso(d)[0]) && IsDigit(Iso(d)[9]);
  }

  /** The ISO form of a real date is read as itself, with white space around it. */
  lemma IsoRoundTrip(d: Date, before: string, after: string)
    requires Real(d) && d.year < 10000 && AllSpace(before) && AllSpace(after)
    ensures ParseIsoDate(before + Iso(d) + after) == Some(Iso(d))
  {
    hide Iso, MatchIso, MatchGerman, IsValidDate, Trim;
    IsoIsTrimmed(d);
    TrimWrapped(before, Iso(d), after);
    MatchIsoOfIso(d);
    ValidIffReal(d.year, d.month, d.day);
  }

  /** A numeral of one or two digits. */
  predicate ShortNumeral(s: string, n: nat) {
    (|s| == 1 || |s| == 2) && AllDigits(s) && ParseDigits(s) == n
  }

  function German(day: string, month: string, year: string): string { day + "." + month + "." + year }

  lemma GermanPieces(day: string, month: string, year: string)
    ensures var v := German(day, month, year); var a, b := |day|, |month|;
      && |v| == a + b + 2 + |year|
      && v[..a] == day && v[a] == '.' && v[a + 1..a + 1 + b] == month && v[a + 1 + b] == '.' && v[a + b + 2..] == year
  {
    var v := day + (['.'] + (month + (['.'] + year)));
    assert v == German(day, month, year);
    assert v[|day| + 1..] == month + (['.'] + year);
  }

  lemma MatchGermanOf(d: Date, day: string, month: string)
    requires ShortNumeral(day, d.day) && ShortNumeral(month, d.month) && d.year < 10000
    ensures var v := German(day, month, FixedWidth(d.year, 4)); MatchIso(v).None? && MatchGerman(v) == Some(d)
  {
    hide FixedWidth, ParseDigits;
    var year := FixedWidth(d.year, 4);
    var v := German(day, month, year);
    Powers();
    ParseFixedWidth(d.year, 4);
    var a, b := |day|, |month|;
    GermanPieces(day, month, year);
    assert GermanShape(v, a, b) && GermanParts(v, a, b) == d;
    NotDigit(v, a);
    NotDigit(v, a + 1 + b);
  }

  /** A dot is neither part of a numeral nor the dash of the ISO form. */
  lemma NotDigit(v: string, i: nat)
    requires i < |v| && v[i] == '.'
    ensures forall lo, hi :: 0 <= lo <= i < hi <= |v| ==> !AllDigits(v[lo..hi])
  {
    forall lo, hi | 0 <= lo <= i < hi <= |v| ensures !AllDigits(v[lo..hi]) {
      assert v[lo..hi][i - lo] == '.';
    }
  }

  /** The German form of a real date, day and month with or without a leading
      zero, is read as the same ISO date. */
  lemma GermanRoundTrip(d: Date, day: string, month: string, before: string, after: string)
    requires Real(d) && d.year < 10000 && ShortNumeral(day, d.day) && ShortNumeral(month, d.month)
    requires AllSpace(before) && AllSpace(after)
    ensures ParseIsoDate(before + German(day, month, FixedWidth(d.year, 4)) + after) == Some(Iso(d))
  {
    hide Iso, MatchIso, MatchGerman, IsValidDate, Trim, FixedWidth, ParseDigits;
    var v := German(day, month, FixedWidth(d.year, 4));
    assert IsDigit(v[0]) && IsDigit(v[|v| - 1]) && IsTrimmed(v);
    TrimWrapped(before, v, after);
    MatchGermanOf(d, day, month);
    ValidIffReal(d.year, d.month, d.day);
  }

  /** The German form needs a year of four digits: the two-digit years that the
      documentation mentions are not read. */
  lemma OtherYearLengthsRejected(day: string, month: string, year: string, before: string, after: string)
    requires AllDigits(day) && AllDigits(month) && AllDigits(year) && day != "" && month != "" && year != "" && |year| != 4
    requires AllSpace(before) && AllSpace(after)
    ensures ParseIsoDate(before + German(day, month, year) + after) == None
  {
    hide MatchIso, MatchGerman, IsValidDate, Trim;
    var v := German(day, month, year);
    assert IsDigit(v[0]) && IsDigit(v[|v| - 1]) && IsTrimmed(v);
    TrimWrapped(before, v, after);
    var a, b := |day|, |month|;
    assert v[a] == '.' && v[a + 1 + b] == '.';
    NotDigit(v, a);
    NotDigit(v, a + 1 + b);
    assert forall i :: 0 <= i < |v| && v[i] == '.' ==> i == a || i == a + 1 + b;
    NoMatch(v, a, a + 1 + b);
  }

  lemma TwoDigitYearRejected()
    ensures ParseIsoDate("24.12.99") == None
  {
    OtherYearLengthsRejected("24", "12", "99", "", "");
    assert "" + German("24", "12", "99") + "" == "24.12.99";
  }

  lemma NoMatch(v: string, i: nat, j: nat)
    requires i < j < |v| && v[i] == '.' && v[j] == '.' && |v| != j + 5
    requires forall k :: 0 <= k < |v| && v[k] == '.' ==> k == i || k == j
    requires forall lo, hi :: 0 <= lo <= i < hi <= |v| ==> !AllDigits(v[lo..hi])
    requires forall lo, hi :: 0 <= lo <= j < hi <= |v| ==> !AllDigits(v[lo..hi])
    ensures MatchIso(v).None? && MatchGerman(v).None?
  {
  }

  lemma IsoOfMatch(v: string)
    requires MatchIso(v).Some?
    ensures var d := MatchIso(v).value; Iso(d) == v && d.year < 10000 && d.month < 100 && d.day < 100
  {
    hide FixedWidth, ParseDigits;
    Powers();
    FixedWidthOfParsed(v[..4]);
    FixedWidthOfParsed(v[5..7]);
    FixedWidthOfParsed(v[8..]);
    assert v == v[..4] + "-" + v[5..7] + "-" + v[8..];
  }

  lemma GermanYear(v: string)
    requires MatchGerman(v).Some?
    ensures MatchGerman(v).value.year < 10000
  {
    hide FixedWidth, ParseDigits;
    Powers();
    if GermanShape(v, 2, 2) { FixedWidthOfParsed(v[6..]); }
    else if GermanShape(v, 2, 1) { FixedWidthOfParsed(v[5..]); }
    else if GermanShape(v, 1, 2) { FixedWidthOfParsed(v[5..]); }
    else { FixedWidthOfParsed(v[4..]); }
  }

  /** Whatever is accepted comes out as the ISO form of a real date, and that
      form is read as itself. */
  lemma OutputsAreFixpoints(raw: string) returns (d: Date)
    requires ParseIsoDate(raw).Some?
    ensures Real(d) && d.year < 10000 && ParseIsoDate(raw) == Some(Iso(d))
    ensures ParseIsoDate(Iso(d)) == Some(Iso(d))
  {
    hide Iso, MatchIso, MatchGerman, IsValidDate, Trim;
    var value := Trim(raw);
    if MatchIso(value).Some? {
      d := MatchIso(value).value;
      IsoOfMatch(value);
    } else {
      d := MatchGerman(value).value;
      GermanYear(value);
    }
    ValidIffReal(d.year, d.month, d.day);
    IsoRoundTrip(d, "", "");
    assert "" + Iso(d) + "" == Iso(d);
  }
}
