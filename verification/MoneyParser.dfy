// Reading an amount in German or English notation, and the printed notations.
module MoneyParser {
  import opened Wrappers
  import opened Text
  import opened Money

  predicate KeptChar(c: char) { IsDigit(c) || c == '.' || c == ',' || c == '-' }

  /** replace(/[^0-9.,-]/g, '') */
  function Kept(s: string): (r: string)
    ensures forall i :: 0 <= i < |r| ==> KeptChar(r[i])
    ensures (forall i :: 0 <= i < |s| ==> KeptChar(s[i])) ==> r == s
    ensures (forall i :: 0 <= i < |s| ==> !KeptChar(s[i])) ==> r == ""
  {
    if s == "" then "" else Kept(s[..|s| - 1]) + if KeptChar(s[|s| - 1]) then [s[|s| - 1]] else ""
  }

  /** The digits a number literal starts with. */
  function LeadingDigits(s: string): (r: string)
    ensures r <= s && AllDigits(r) && (|r| < |s| ==> !IsDigit(s[|r|]))
  {
    if s == "" || !IsDigit(s[0]) then "" else [s[0]] + LeadingDigits(s[1..])
  }

  function Decimal(whole: string, fraction: string): real
    requires AllDigits(whole) && AllDigits(fraction)
  {
    ParseDigits(whole) as real + ParseDigits(fraction) as real / Pow10(|fraction|) as real
  }

  /** Number.parseFloat on digits, dots and commas; None is NaN. */
  function ParseFloat(s: string): Option<real> {
    var whole := LeadingDigits(s);
    var rest := s[|whole|..];
    var fraction := if rest != "" && rest[0] == '.' then LeadingDigits(rest[1..]) else "";
    if whole == "" && fraction == "" then None
    else Some(Decimal(whole, fraction))
  }

  /** At most two characters after the only separator: a decimal separator. */
  predicate DecimalTail(s: string, separator: char, last: int) {
    CountOf(s, separator) == 1 && |s| - last - 1 <= 2
  }

  function Normalized(cleaned: string): string {
    var lastComma, lastDot := LastIndexOf(cleaned, ','), LastIndexOf(cleaned, '.');
    if lastComma != -1 && lastDot != -1 then
      if lastComma > lastDot then ReplaceFirst(RemoveAll(cleaned, '.'), ',', '.') else RemoveAll(cleaned, ',')
    else if lastComma != -1 then
      if DecimalTail(cleaned, ',', lastComma) then ReplaceFirst(cleaned, ',', '.') else RemoveAll(cleaned, ',')
    else if lastDot != -1 then
      if DecimalTail(cleaned, '.', lastDot) then cleaned else RemoveAll(cleaned, '.')
    else cleaned
  }

  function Abs(x: real): real { if x < 0.0 then -x else x }

  function ParseMoneyAmount(raw: string): Option<real> {
    var cleaned := Trim(Kept(raw));
    if cleaned == "" then None
    else
      var value := ParseFloat(RemoveAll(Normalized(cleaned), '-'));
      if value.None? then None else Some(RoundMoney(Abs(value.value)))
  }

  // --- The printed notations ----------------------------------------------------------

  /** Thousands groups: a separator before each group of three digits. */
  function Grouped(digits: string, separator: char): (r: string)
    requires AllDigits(digits) && !IsDigit(separator)
    ensures forall i :: 0 <= i < |r| ==> IsDigit(r[i]) || r[i] == separator
    ensures digits != "" ==> r != "" && IsDigit(r[0])
    decreases |digits|
  {
    if |digits| <= 3 then digits
    else Grouped(digits[..|digits| - 3], separator) + ([separator] + digits[|digits| - 3..])
  }

  /** Grouping adds separators only. */
  lemma {:induction false} GroupedRemoved(digits: string, separator: char)
    requires AllDigits(digits) && !IsDigit(separator)
    ensures RemoveAll(Grouped(digits, separator), separator) == digits
    ensures Lacks(Grouped(digits, separator), separator) ==> Grouped(digits, separator) == digits
    decreases |digits|
  {
    hide RemoveAll;
    if |digits| > 3 {
      var head, tail := digits[..|digits| - 3], digits[|digits| - 3..];
      GroupedRemoved(head, separator);
      RemoveAllConcat(Grouped(head, separator), [separator] + tail, separator);
      RemoveAllConcat([separator], tail, separator);
      RemoveOnly(separator);
      assert digits == head + tail;
      assert Grouped(digits, separator)[|Grouped(head, separator)|] == separator;
    }
  }

  lemma RemoveOnly(c: char)
    ensures RemoveAll([c], c) == ""
  {
    assert [c][..0] == "";
  }

  /** Euros and cents of an amount of `cents`. */
  function Whole(cents: nat): string { Digits(cents / 100) }

  function TwoDigits(cents: nat): string { FixedWidth(cents % 100, 2) }

  datatype Notation = German | English | PlainDot | PlainComma

  function Printed(cents: nat, notation: Notation): string {
    match notation
    case German => Grouped(Whole(cents), '.') + [','] + TwoDigits(cents)
    case English => Grouped(Whole(cents), ',') + ['.'] + TwoDigits(cents)
    case PlainDot => Whole(cents) + ['.'] + TwoDigits(cents)
    case PlainComma => Whole(cents) + [','] + TwoDigits(cents)
  }

  /** Text around the number: nothing the parser would keep. */
  predicate Decoration(s: string) { forall i :: 0 <= i < |s| ==> !KeptChar(s[i]) }

  lemma {:induction false} KeptConcat(a: string, b: string)
    ensures Kept(a + b) == Kept(a) + Kept(b)
  {
    if b == "" {
      assert a + b == a;
    } else {
      var n := |b| - 1;
      KeptConcat(a, b[..n]);
      assert (a + b)[..|a + b| - 1] == a + b[..n];
    }
  }

  lemma DecorationIgnored(before: string, s: string, after: string)
    requires Decoration(before) && Decoration(after) && forall i :: 0 <= i < |s| ==> KeptChar(s[i])
    ensures Kept(before + s + after) == s
  {
    KeptConcat(before + s, after);
    KeptConcat(before, s);
  }

  lemma DigitsLackSeparators(s: string)
    requires AllDigits(s)
    ensures Lacks(s, ',') && Lacks(s, '.') && Lacks(s, '-')
  {
  }

  // --- Normalisation -------------------------------------------------------------------

  /** The decimal separator is the last one; the other one only groups. */
  lemma NormalizedGrouped(digits: string, group: char, decimal: char, cents: string)
    requires AllDigits(digits) && digits != "" && AllDigits(cents) && |cents| == 2
    requires (group == '.' && decimal == ',') || (group == ',' && decimal == '.')
    ensures Normalized(Grouped(digits, group) + [decimal] + cents) == digits + ['.'] + cents
  {
    hide Grouped, Normalized;
    GroupedRemoved(digits, group);
    NormalizedWith(Grouped(digits, group), group, decimal, cents);
  }

  /** The same, with any digits and grouping separators before the decimal one. */
  lemma NormalizedWith(whole: string, group: char, decimal: char, cents: string)
    requires whole != "" && AllDigits(cents) && |cents| == 2 && forall i :: 0 <= i < |whole| ==> IsDigit(whole[i]) || whole[i] == group
    requires (group == '.' && decimal == ',') || (group == ',' && decimal == '.')
    ensures Normalized(whole + [decimal] + cents) == RemoveAll(whole, group) + ['.'] + cents
  {
    hide RemoveAll, ReplaceFirst, LastIndexOf, DecimalTail, CountOf;
    var s := whole + [decimal] + cents;
    var digits := RemoveAll(whole, group);
    RemovedDigits(whole, group);
    DigitsLackSeparators(cents);
    DigitsLackSeparators(digits);
    LastIndexAt(whole, decimal, cents);
    if Lacks(whole, group) {
      NormalizedPlain(whole, decimal, cents);
    } else {
      var k :| 0 <= k < |whole| && whole[k] == group;
      assert s[k] == group;
      assert forall j :: |whole| <= j < |s| ==> s[j] != group;
      assert 0 <= LastIndexOf(s, group) < |whole|;
      RemoveAllConcat(whole, [decimal] + cents, group);
      assert whole + ([decimal] + cents) == s;
      assert Lacks([decimal] + cents, group);
      assert digits + ([decimal] + cents) == digits + [decimal] + cents;
      if decimal == ',' { ReplaceFirstAt(digits, ',', cents, '.'); }
    }
  }

  lemma {:induction false} RemovedDigits(whole: string, group: char)
    requires forall i :: 0 <= i < |whole| ==> IsDigit(whole[i]) || whole[i] == group
    ensures AllDigits(RemoveAll(whole, group))
  {
    if whole != "" { RemovedDigits(whole[..|whole| - 1], group); }
  }

  lemma NormalizedPlain(digits: string, decimal: char, cents: string)
    requires AllDigits(digits) && digits != "" && AllDigits(cents) && |cents| <= 2
    requires decimal == '.' || decimal == ','
    ensures Normalized(digits + [decimal] + cents) == digits + ['.'] + cents
  {
    var s := digits + [decimal] + cents;
    DigitsLackSeparators(cents);
    DigitsLackSeparators(digits);
    LastIndexAt(digits, decimal, cents);
    CountConcat(digits + [decimal], cents, decimal);
    CountConcat(digits, [decimal], decimal);
    CountNone(digits, decimal);
    CountNone(cents, decimal);
    assert CountOf([decimal], decimal) == 1 by { assert [decimal][..0] == ""; }
    if decimal == ',' {
      assert Lacks(s, '.');
      ReplaceFirstAt(digits, ',', cents, '.');
    } else {
      assert Lacks(s, ',');
    }
  }

  lemma {:induction false} LeadingDigitsOf(digits: string, rest: string)
    requires AllDigits(digits) && (rest == "" || !IsDigit(rest[0]))
    ensures LeadingDigits(digits + rest) == digits
  {
    if digits == "" {
      assert digits + rest == rest;
    } else {
      assert (digits + rest)[1..] == digits[1..] + rest;
      LeadingDigitsOf(digits[1..], rest);
    }
  }

  lemma ParseFloatOf(whole: string, tail: string)
    requires AllDigits(whole) && AllDigits(tail) && whole != ""
    ensures ParseFloat(whole + ['.'] + tail) == Some(Decimal(whole, tail))
  {
    hide LeadingDigits, Decimal;
    var rest := ['.'] + tail;
    assert whole + ['.'] + tail == whole + rest;
    LeadingDigitsOf(whole, rest);
    assert (whole + rest)[|whole|..] == rest && rest[1..] == tail + "";
    LeadingDigitsOf(tail, "");
  }

  lemma EurosAndCents(cents: nat)
    ensures (cents / 100) as real + (cents % 100) as real / 100.0 == FromCents(cents)
  {
    assert cents == 100 * (cents / 100) + cents % 100;
  }

  lemma ParseDecimal(cents: nat)
    ensures ParseFloat(Whole(cents) + ['.'] + TwoDigits(cents)) == Some(FromCents(cents))
  {
    hide ParseFloat, Digits, FixedWidth, ParseDigits, Pow10, FromCents;
    ParseFloatOf(Whole(cents), TwoDigits(cents));
    ParseDigitsOfDigits(cents / 100);
    HundredIsPow();
    ParseFixedWidth(cents % 100, 2);
    EurosAndCents(cents);
  }

  lemma HundredIsPow()
    ensures Pow10(2) == 100
  {
  }

  /** The parser undoes every printed notation of every amount, whatever text
      without digits and separators stands around it. */
  lemma ParsePrinted(cents: nat, notation: Notation, before: string, after: string)
    requires Decoration(before) && Decoration(after)
    ensures ParseMoneyAmount(before + Printed(cents, notation) + after) == Some(FromCents(cents))
  {
    hide Normalized, ParseFloat, Kept, Trim, Grouped, RemoveAll, RoundMoney;
    var printed := Printed(cents, notation);
    PrintedIsKept(cents, notation);
    DecorationIgnored(before, printed, after);
    PrintedIsTrimmed(cents, notation);
    PrintedNormalized(cents, notation);
    var plain := Whole(cents) + ['.'] + TwoDigits(cents);
    assert Lacks(plain, '-');
    ParseDecimal(cents);
    RoundsToItself(cents);
  }

  lemma RoundsToItself(cents: nat)
    ensures FromCents(cents) >= 0.0 && RoundMoney(Abs(FromCents(cents))) == FromCents(cents)
  {
    CentsSurvive(cents);
  }

  lemma PrintedIsKept(cents: nat, notation: Notation)
    ensures forall i :: 0 <= i < |Printed(cents, notation)| ==> KeptChar(Printed(cents, notation)[i])
  {
    hide Grouped, Digits, FixedWidth;
  }

  lemma PrintedIsTrimmed(cents: nat, notation: Notation)
    ensures Printed(cents, notation) != "" && Trim(Printed(cents, notation)) == Printed(cents, notation)
  {
    hide Grouped, Digits, FixedWidth, Trim;
    var s := Printed(cents, notation);
    assert IsDigit(s[0]) && IsDigit(s[|s| - 1]);
  }

  lemma PrintedNormalized(cents: nat, notation: Notation)
    ensures Normalized(Printed(cents, notation)) == Whole(cents) + ['.'] + TwoDigits(cents)
  {
    hide Normalized, Grouped, Digits, FixedWidth;
    match notation
    case German => NormalizedGrouped(Whole(cents), '.', ',', TwoDigits(cents));
    case English => NormalizedGrouped(Whole(cents), ',', '.', TwoDigits(cents));
    case PlainDot => NormalizedPlain(Whole(cents), '.', TwoDigits(cents));
    case PlainComma => NormalizedPlain(Whole(cents), ',', TwoDigits(cents));
  }

  // --- Whole amounts without decimals ----------------------------------------------------

  lemma NormalizedWhole(digits: string, group: char)
    requires AllDigits(digits) && digits != "" && (group == '.' || group == ',')
    ensures Normalized(Grouped(digits, group)) == digits
  {
    hide RemoveAll, ReplaceFirst, CountOf, LastIndexOf, Grouped;
    GroupedRemoved(digits, group);
    var s := Grouped(digits, group);
    if Lacks(s, group) {
      DigitsLackSeparators(digits);
    } else {
      LastGroup(digits, group);
      OnlyGroups(s, group);
    }
  }

  lemma LastGroup(digits: string, group: char)
    requires AllDigits(digits) && !IsDigit(group) && !Lacks(Grouped(digits, group), group)
    ensures LastIndexOf(Grouped(digits, group), group) == |Grouped(digits, group)| - 4
  {
    hide LastIndexOf;
    assert |digits| > 3;
    var head, tail := Grouped(digits[..|digits| - 3], group), digits[|digits| - 3..];
    assert Lacks(tail, group);
    LastIndexAt(head, group, tail);
    assert Grouped(digits, group) == head + [group] + tail;
  }

  /** No decimal separator beside the grouping one. */
  lemma OnlyGroups(s: string, group: char)
    requires (group == '.' || group == ',') && forall i :: 0 <= i < |s| ==> IsDigit(s[i]) || s[i] == group
    ensures LastIndexOf(s, if group == '.' then ',' else '.') == -1
  {
    hide LastIndexOf;
  }

  lemma ParseWhole(n: nat)
    ensures ParseFloat(Digits(n)) == Some(n as real)
  {
    hide LeadingDigits, Digits;
    LeadingDigitsOf(Digits(n), "");
    assert Digits(n) + "" == Digits(n);
    ParseDigitsOfDigits(n);
  }

  /** A grouped amount without decimals is never mistaken for one with three. */
  lemma ParsePrintedWhole(n: nat, group: char, before: string, after: string)
    requires Decoration(before) && Decoration(after) && (group == '.' || group == ',')
    ensures ParseMoneyAmount(before + Grouped(Digits(n), group) + after) == Some(n as real)
  {
    hide Normalized, ParseFloat, Kept, Trim, Grouped, Digits, RemoveAll, RoundMoney;
    var printed := Grouped(Digits(n), group);
    DecorationIgnored(before, printed, after);
    assert IsDigit(printed[0]);
    GroupedEndsInDigit(Digits(n), group);
    NormalizedWhole(Digits(n), group);
    DigitsLackSeparators(Digits(n));
    ParseWhole(n);
    assert FromCents(100 * n) == n as real;
    RoundsToItself(100 * n);
  }

  lemma GroupedEndsInDigit(digits: string, group: char)
    requires AllDigits(digits) && digits != "" && !IsDigit(group)
    ensures var s := Grouped(digits, group); s != "" && IsDigit(s[|s| - 1])
  {
  }

  // --- A leading minus -------------------------------------------------------------------

  lemma LastIndexShifts(s: string, c: char)
    requires c != '-'
    ensures LastIndexOf("-" + s, c) == if LastIndexOf(s, c) == -1 then -1 else LastIndexOf(s, c) + 1
  {
    var i, j := LastIndexOf(s, c), LastIndexOf("-" + s, c);
    assert forall k :: 0 <= k < |s| ==> ("-" + s)[k + 1] == s[k];
    if i >= 0 { assert ("-" + s)[i + 1] == c; }
    if j >= 1 { assert s[j - 1] == c; }
  }

  lemma MinusStays(s: string, c: char)
    requires c != '-'
    ensures RemoveAll("-" + s, c) == "-" + RemoveAll(s, c)
    ensures ReplaceFirst("-" + s, c, '.') == "-" + ReplaceFirst(s, c, '.')
    ensures CountOf("-" + s, c) == CountOf(s, c)
  {
    hide RemoveAll, CountOf;
    RemoveAllConcat("-", s, c);
    CountConcat("-", s, c);
    CountNone("-", c);
    assert ("-" + s)[1..] == s;
  }

  lemma NormalizedMinus(s: string)
    ensures Normalized("-" + s) == "-" + Normalized(s)
  {
    hide RemoveAll, ReplaceFirst, LastIndexOf, CountOf;
    LastIndexShifts(s, ',');
    LastIndexShifts(s, '.');
    MinusStays(s, ',');
    MinusStays(s, '.');
    MinusStays(RemoveAll(s, '.'), ',');
  }

  /** The sign is dropped: a credit is read as the amount. */
  lemma ParseNegative(cents: nat, notation: Notation, before: string, after: string)
    requires Decoration(before) && Decoration(after)
    ensures ParseMoneyAmount(before + ("-" + Printed(cents, notation)) + after) == Some(FromCents(cents))
  {
    hide Normalized, ParseFloat, Kept, Trim, Grouped, RemoveAll, RoundMoney, Printed, Whole, TwoDigits;
    var printed := Printed(cents, notation);
    PrintedIsKept(cents, notation);
    PrintedEnds(cents, notation);
    DecorationIgnored(before, "-" + printed, after);
    NormalizedMinus(printed);
    PrintedNormalized(cents, notation);
    PlainLacksMinus(cents);
    var plain := Whole(cents) + ['.'] + TwoDigits(cents);
    RemoveAllConcat("-", plain, '-');
    RemoveOnly('-');
    assert RemoveAll("-" + plain, '-') == plain;
    assert Kept(before + ("-" + printed) + after) == "-" + printed;
    assert IsTrimmed("-" + printed) && Trim("-" + printed) == "-" + printed;
    assert Normalized("-" + printed) == "-" + plain;
    ParseDecimal(cents);
    RoundsToItself(cents);
  }

  lemma PrintedEnds(cents: nat, notation: Notation)
    ensures var s := Printed(cents, notation); s != "" && IsDigit(s[|s| - 1])
  {
    hide Grouped, Digits, FixedWidth;
  }

  lemma PlainLacksMinus(cents: nat)
    ensures Lacks(Whole(cents) + ['.'] + TwoDigits(cents), '-')
  {
  }

  // --- Digits before the amount ----------------------------------------------------------

  lemma {:induction false} ParseDigitsConcat(a: string, b: string)
    requires AllDigits(a) && AllDigits(b)
    ensures AllDigits(a + b) && ParseDigits(a + b) == ParseDigits(a) * Pow10(|b|) + ParseDigits(b)
  {
    if b == "" {
      assert a + b == a;
    } else {
      var n := |b| - 1;
      ParseDigitsConcat(a, b[..n]);
      assert (a + b)[..|a + b| - 1] == a + b[..n];
      TimesTen(ParseDigits(a), Pow10(n));
    }
  }

  lemma TimesTen(x: nat, p: nat)
    ensures 10 * (x * p) == x * (10 * p)
  {
  }

  lemma {:induction false} ZeroIff(s: string)
    requires AllDigits(s)
    ensures ParseDigits(s) == 0 <==> forall i :: 0 <= i < |s| ==> s[i] == '0'
  {
    if s != "" {
      var n := |s| - 1;
      ZeroIff(s[..n]);
      assert s == s[..n] + [s[n]];
    }
  }

  lemma {:induction false} KeptChars(s: string)
    ensures forall c :: c in Kept(s) <==> c in s && KeptChar(c)
  {
    if s != "" {
      var n := |s| - 1;
      KeptChars(s[..n]);
      assert s == s[..n] + [s[n]];
    }
  }

  /** Text without separators and sign; its digits are kept. */
  predicate PlainText(s: string) { forall i :: 0 <= i < |s| ==> s[i] != '.' && s[i] != ',' && s[i] != '-' }

  lemma KeptIsDigits(before: string)
    requires PlainText(before)
    ensures AllDigits(Kept(before))
    ensures (forall i :: 0 <= i < |Kept(before)| ==> Kept(before)[i] == '0') <==> forall i :: 0 <= i < |before| && IsDigit(before[i]) ==> before[i] == '0'
  {
    hide Kept;
    KeptChars(before);
    forall i | 0 <= i < |Kept(before)| ensures IsDigit(Kept(before)[i]) { assert Kept(before)[i] in Kept(before); }
    if forall i :: 0 <= i < |Kept(before)| ==> Kept(before)[i] == '0' {
      forall i | 0 <= i < |before| && IsDigit(before[i]) ensures before[i] == '0' {
        assert before[i] in Kept(before);
      }
    }
    if forall i :: 0 <= i < |before| && IsDigit(before[i]) ==> before[i] == '0' {
      forall i | 0 <= i < |Kept(before)| ensures Kept(before)[i] == '0' {
        assert Kept(before)[i] in Kept(before) && Kept(before)[i] in before;
      }
    }
  }

  lemma JoinedNormalized(d: string, cents: nat, notation: Notation)
    requires AllDigits(d)
    ensures Normalized(d + Printed(cents, notation)) == d + Whole(cents) + ['.'] + TwoDigits(cents)
  {
    hide Normalized, Grouped, Digits, FixedWidth, RemoveAll;
    var whole, tail := Whole(cents), TwoDigits(cents);
    match notation
    case German => JoinedGrouped(d, whole, '.', ',', tail);
    case English => JoinedGrouped(d, whole, ',', '.', tail);
    case PlainDot => JoinedPlain(d, whole, '.', tail);
    case PlainComma => JoinedPlain(d, whole, ',', tail);
  }

  lemma JoinedPlain(d: string, whole: string, decimal: char, tail: string)
    requires AllDigits(d) && AllDigits(whole) && whole != "" && AllDigits(tail) && |tail| == 2 && (decimal == '.' || decimal == ',')
    ensures Normalized(d + (whole + [decimal] + tail)) == d + whole + ['.'] + tail
  {
    hide Normalized;
    assert d + (whole + [decimal] + tail) == (d + whole) + [decimal] + tail;
    NormalizedPlain(d + whole, decimal, tail);
  }

  lemma JoinedGrouped(d: string, whole: string, group: char, decimal: char, tail: string)
    requires AllDigits(d) && AllDigits(whole) && whole != "" && AllDigits(tail) && |tail| == 2
    requires (group == '.' && decimal == ',') || (group == ',' && decimal == '.')
    ensures Normalized(d + (Grouped(whole, group) + [decimal] + tail)) == d + whole + ['.'] + tail
  {
    hide Normalized, Grouped, RemoveAll;
    var grouped := Grouped(whole, group);
    assert d + (grouped + [decimal] + tail) == (d + grouped) + [decimal] + tail;
    NormalizedWith(d + grouped, group, decimal, tail);
    GroupedRemoved(whole, group);
    RemoveAllConcat(d, grouped, group);
    assert Lacks(d, group);
  }

  /** Digits in the text before an amount are joined to it. */
  lemma DigitsBeforeAreJoined(cents: nat, notation: Notation, before: string, after: string)
    requires PlainText(before) && Decoration(after)
    ensures AllDigits(Kept(before))
    ensures ParseMoneyAmount(before + Printed(cents, notation) + after) ==
      Some(FromCents(100 * (ParseDigits(Kept(before)) * Pow10(|Whole(cents)|)) + cents))
  {
    hide Normalized, ParseFloat, Kept, Trim, Grouped, RemoveAll, RoundMoney, Printed, Whole, TwoDigits, ParseDigits, Pow10;
    KeptIsDigits(before);
    var d, printed := Kept(before), Printed(cents, notation);
    PrintedIsKept(cents, notation);
    PrintedEnds(cents, notation);
    PrintedIsTrimmed(cents, notation);
    KeptConcat(before + printed, after);
    KeptConcat(before, printed);
    assert Kept(before + printed + after) == d + printed;
    assert IsTrimmed(d + printed) && d + printed != "" by { JoinedIsTrimmed(d, cents, notation); }
    assert Trim(d + printed) == d + printed;
    JoinedNormalized(d, cents, notation);
    JoinedParses(d, cents);
  }

  lemma JoinedIsTrimmed(d: string, cents: nat, notation: Notation)
    requires AllDigits(d)
    ensures IsTrimmed(d + Printed(cents, notation)) && d + Printed(cents, notation) != ""
  {
    hide Grouped, Digits, FixedWidth;
    var printed := Printed(cents, notation);
    var s := d + printed;
    assert s[|s| - 1] == printed[|printed| - 1];
    assert IsDigit(printed[0]) && IsDigit(printed[|printed| - 1]);
    assert IsDigit(s[0]);
  }

  lemma JoinedParses(d: string, cents: nat)
    requires AllDigits(d)
    ensures var plain := d + Whole(cents) + ['.'] + TwoDigits(cents);
      var total := 100 * (ParseDigits(d) * Pow10(|Whole(cents)|)) + cents;
      && RemoveAll(plain, '-') == plain
      && ParseFloat(plain) == Some(FromCents(total)) && RoundMoney(Abs(FromCents(total))) == FromCents(total)
  {
    hide ParseFloat, Digits, FixedWidth, ParseDigits, Pow10, FromCents, RemoveAll, RoundMoney;
    var whole, tail := Whole(cents), TwoDigits(cents);
    ParseFloatOf(d + whole, tail);
    ParseDigitsConcat(d, whole);
    ParseDigitsOfDigits(cents / 100);
    HundredIsPow();
    ParseFixedWidth(cents % 100, 2);
    var total := 100 * (ParseDigits(d) * Pow10(|whole|)) + cents;
    assert total / 100 == ParseDigits(d) * Pow10(|whole|) + cents / 100 && total % 100 == cents % 100;
    EurosAndCents(total);
    RoundsToItself(total);
    assert Lacks(d + whole + ['.'] + tail, '-');
  }

  /** Text before an amount, free of separators and sign, is harmless exactly when
      the only digit in it is 0. */
  lemma TextBeforeIsHarmlessIff(cents: nat, notation: Notation, before: string, after: string)
    requires PlainText(before) && Decoration(after)
    ensures ParseMoneyAmount(before + Printed(cents, notation) + after) == Some(FromCents(cents)) <==>
      forall i :: 0 <= i < |before| && IsDigit(before[i]) ==> before[i] == '0'
  {
    hide ParseMoneyAmount, Kept, Printed, Whole, ParseDigits, Pow10;
    DigitsBeforeAreJoined(cents, notation, before, after);
    KeptIsDigits(before);
    ZeroIff(Kept(before));
    var x, p := ParseDigits(Kept(before)), Pow10(|Whole(cents)|);
    CentsSurvive(cents);
    CentsSurvive(100 * (x * p) + cents);
    if x > 0 { ProductPositive(x, p); }
  }

  lemma ProductPositive(x: nat, p: nat)
    requires x > 0 && p > 0
    ensures x * p > 0
  {
  }

  /** A percentage before the amount becomes part of it. */
  lemma PercentageIsJoined()
    ensures ParseMoneyAmount("19% 119,00") == Some(19119.0)
  {
    hide ParseMoneyAmount;
    assert Whole(11900) == "119" && TwoDigits(11900) == "00" by { DigitsOf119(); }
    assert Printed(11900, PlainComma) == "119,00";
    assert "19% " + Printed(11900, PlainComma) + "" == "19% 119,00";
    DigitsBeforeAreJoined(11900, PlainComma, "19% ", "");
    KeptOf19();
  }

  lemma DigitsOf119()
    ensures Whole(11900) == "119" && TwoDigits(11900) == "00"
  {
    hide FixedWidth;
    assert Digits(1) == "1";
    assert Digits(11) == Digits(1) + "1";
    assert Digits(119) == Digits(11) + "9";
    TwoZeros();
  }

  lemma TwoZeros()
    ensures FixedWidth(0, 2) == "00"
  {
    assert FixedWidth(0, 1) == "0";
  }

  lemma KeptOf19()
    ensures Kept("19% ") == "19" && ParseDigits("19") == 19 && Pow10(3) == 1000
  {
    assert "19% "[..3] == "19%" && "19%"[..2] == "19" && "19"[..1] == "1" && "1"[..0] == "";
    assert Kept("1") == "1" && Kept("19") == "19";
    assert Pow10(1) == 10 && Pow10(2) == 100;
  }

  // --- Fewer than two decimals ---------------------------------------------------------------

  lemma OneDecimal(n: nat, d: nat)
    requires d < 10
    ensures Decimal(Digits(n), [DigitChar(d)]) == FromCents(100 * n + 10 * d)
  {
    hide Digits;
    ParseDigitsOfDigits(n);
    var tail := [DigitChar(d)];
    assert tail[..0] == "" && ParseDigits(tail[..0]) == 0;
    assert ParseDigits(tail) == d && Pow10(|tail|) == 10;
    assert d as real / 10.0 == (10 * d) as real / 100.0;
  }

  lemma NoDecimal(n: nat)
    ensures Decimal(Digits(n), "") == FromCents(100 * n)
  {
    hide Digits;
    ParseDigitsOfDigits(n);
  }

  /** A single separator before one digit, or at the end, is the decimal one too:
      12,5 is twelve and a half. */
  lemma ParseShortDecimals(n: nat, d: nat, decimal: char, before: string, after: string)
    requires d < 10 && (decimal == '.' || decimal == ',') && Decoration(before) && Decoration(after)
    ensures ParseMoneyAmount(before + (Digits(n) + [decimal] + [DigitChar(d)]) + after) == Some(FromCents(100 * n + 10 * d))
    ensures ParseMoneyAmount(before + (Digits(n) + [decimal] + "") + after) == Some(FromCents(100 * n))
  {
    hide ParseMoneyAmount, Digits;
    OneDecimal(n, d);
    NoDecimal(n);
    ParseShort(Digits(n), [DigitChar(d)], decimal, before, after, 100 * n + 10 * d);
    ParseShort(Digits(n), "", decimal, before, after, 100 * n);
  }

  lemma ParseShort(digits: string, tail: string, decimal: char, before: string, after: string, cents: nat)
    requires AllDigits(digits) && digits != "" && AllDigits(tail) && |tail| <= 2 && (decimal == '.' || decimal == ',')
    requires Decoration(before) && Decoration(after) && Decimal(digits, tail) == FromCents(cents)
    ensures ParseMoneyAmount(before + (digits + [decimal] + tail) + after) == Some(FromCents(cents))
  {
    hide Normalized, ParseFloat, Kept, Trim, RemoveAll, RoundMoney, Decimal;
    var s := digits + [decimal] + tail;
    DecorationIgnored(before, s, after);
    assert IsTrimmed(s) && Trim(s) == s;
    NormalizedPlain(digits, decimal, tail);
    var plain := digits + ['.'] + tail;
    assert Lacks(plain, '-');
    ParseFloatOf(digits, tail);
    RoundsToItself(cents);
  }

  // --- No amount at all ----------------------------------------------------------------------

  predicate NoDigit(s: string) { forall i :: 0 <= i < |s| ==> !IsDigit(s[i]) }

  lemma {:induction false} NothingLeads(s: string)
    requires NoDigit(s)
    ensures ParseFloat(s) == None
  {
    assert LeadingDigits(s) == "" && s[0..] == s;
    if s != "" && s[0] == '.' { assert NoDigit(s[1..]) && LeadingDigits(s[1..]) == ""; }
  }

  lemma {:induction false} RemovedNoDigit(s: string, c: char)
    requires NoDigit(s)
    ensures NoDigit(RemoveAll(s, c))
  {
    if s != "" { RemovedNoDigit(s[..|s| - 1], c); }
  }

  lemma {:induction false} ReplacedNoDigit(s: string, c: char)
    requires NoDigit(s)
    ensures NoDigit(ReplaceFirst(s, c, '.'))
  {
    if s != "" && s[0] != c { ReplacedNoDigit(s[1..], c); }
  }

  /** A text without any digit is no amount, whatever separators it has. */
  lemma NoDigitIsNoAmount(raw: string)
    requires NoDigit(raw)
    ensures ParseMoneyAmount(raw) == None
  {
    hide RemoveAll, ReplaceFirst, LastIndexOf, CountOf, ParseFloat;
    KeptChars(raw);
    var kept := Kept(raw);
    assert NoDigit(kept) by {
      forall i | 0 <= i < |kept| ensures !IsDigit(kept[i]) { assert kept[i] in kept && kept[i] in raw; }
    }
    assert IsTrimmed(kept) by { NoSpaceKept(kept); }
    RemovedNoDigit(kept, '.');
    RemovedNoDigit(kept, ',');
    ReplacedNoDigit(kept, ',');
    ReplacedNoDigit(RemoveAll(kept, '.'), ',');
    RemovedNoDigit(Normalized(kept), '-');
    NothingLeads(RemoveAll(Normalized(kept), '-'));
  }

  lemma NoSpaceKept(s: string)
    requires forall i :: 0 <= i < |s| ==> KeptChar(s[i])
    ensures IsTrimmed(s)
  {
  }

  /** Cents alone: ,50 and .50 are half a unit. */
  lemma CentsAlone(c: nat, decimal: char)
    requires c < 100 && (decimal == '.' || decimal == ',')
    ensures ParseMoneyAmount([decimal] + FixedWidth(c, 2)) == Some(FromCents(c))
  {
    hide Kept, Trim, RemoveAll, RoundMoney, FixedWidth, ParseDigits, LeadingDigits, ReplaceFirst, CountOf, LastIndexOf;
    var tail := FixedWidth(c, 2);
    var s := [decimal] + tail;
    assert Kept(s) == s && IsTrimmed(s);
    CentsNormalized(tail, decimal);
    var plain := ['.'] + tail;
    assert Lacks(plain, '-');
    CentsParsed(tail);
    DecimalOfCents(c);
    assert RemoveAll(plain, '-') == plain;
    RoundsToItself(c);
  }

  lemma DecimalOfCents(c: nat)
    requires c < 100
    ensures Decimal("", FixedWidth(c, 2)) == FromCents(c)
  {
    hide FixedWidth;
    HundredIsPow();
    ParseFixedWidth(c, 2);
  }

  lemma CentsNormalized(tail: string, decimal: char)
    requires AllDigits(tail) && |tail| == 2 && (decimal == '.' || decimal == ',')
    ensures Normalized([decimal] + tail) == ['.'] + tail
  {
    var s := [decimal] + tail;
    DigitsLackSeparators(tail);
    assert "" + [decimal] + tail == s;
    LastIndexAt("", decimal, tail);
    CountConcat([decimal], tail, decimal);
    CountNone(tail, decimal);
    assert CountOf([decimal], decimal) == 1 by { assert [decimal][..0] == ""; }
    if decimal == ',' {
      assert Lacks(s, '.');
      ReplaceFirstAt("", ',', tail, '.');
      assert "" + ['.'] + tail == ['.'] + tail;
    } else {
      assert Lacks(s, ',');
    }
  }

  lemma CentsParsed(tail: string)
    requires AllDigits(tail) && |tail| == 2
    ensures ParseFloat(['.'] + tail) == Some(Decimal("", tail))
  {
    hide Decimal, LeadingDigits;
    var s := ['.'] + tail;
    LeadingDigitsOf("", s);
    assert "" + s == s && s[0..] == s && s[1..] == tail + "";
    LeadingDigitsOf(tail, "");
  }
}
