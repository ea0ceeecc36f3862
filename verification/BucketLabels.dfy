/** What a reader finds in a bucket label. */
module BucketLabels {
  import opened CanonicalJson
  import opened Calendar
  import opened IsoWeek

  // ---------------------------------------------------------------- the calendar

  /** 30 days have April, June, September and November, February 28, or 29 every fourth year but those of three centuries
      in four. */
  predicate EndsMonth(y: int, m: int, d: int) {
    if m == 2 then d == (if y % 4 == 0 && (y % 100 != 0 || y % 400 == 0) then 29 else 28)
    else if m in {4, 6, 9, 11} then d == 30
    else d == 31
  }

  /** Day 0 is 1970-01-01, and it was a Thursday; weekdays go round. */
  lemma Epoch(n: int)
    ensures DayNumber(1970, 1, 1) == 0 && Weekday(0) == 3 && Weekday(n + 1) == (Weekday(n) + 1) % 7
  {
  }

  lemma MonthsEnd(y: int, m: int, d: int)
    requires ValidDate(y, m, d)
    ensures EndsMonth(y, m, d) <==> d == MonthLength(y, m)
  {
  }

  /** Day numbers count the days of the calendar one by one. */
  lemma DaysCounted(y: int, m: int, d: int)
    requires ValidDate(y, m, d)
    ensures ValidDate(y, m, d + 1) <==> !EndsMonth(y, m, d)
    ensures DayNumber(y, m, d) + 1
         == if !EndsMonth(y, m, d) then DayNumber(y, m, d + 1)
            else if m < 12 then DayNumber(y, m + 1, 1)
            else DayNumber(y + 1, 1, 1)
  {
    MonthsEnd(y, m, d);
    if EndsMonth(y, m, d) && m == 12 {
      NextYear(y);
      YearOfMonths(y);
    }
  }

  lemma YearOfMonths(y: int)
    ensures DaysBefore(y, 12) + 31 == YearLength(y)
  {
    assert DaysBefore(y, 2) == 31 && DaysBefore(y, 3) == 31 + MonthLength(y, 2) && DaysBefore(y, 4) == 62 + MonthLength(y, 2);
    assert DaysBefore(y, 8) == DaysBefore(y, 4) + 122;
  }

  /** Math.round: to the nearest whole number, halves upwards. */
  lemma RoundsToNearest(x: int)
    ensures 2 * x - 7 < 14 * RoundSevenths(x) <= 2 * x + 7
  {
  }

  // ---------------------------------------------------------------- numbers in labels

  predicate AllDigits(t: Text) {
    t != [] && forall i :: 0 <= i < |t| ==> 48 <= t[i] <= 57
  }

  /** The number a row of decimal digits stands for. */
  function ValueOf(t: Text): int {
    if t == [] then 0 else var digit: int := t[|t| - 1]; 10 * ValueOf(t[..|t| - 1]) + digit - 48
  }

  /** A number as people write it: digits without a leading zero. */
  predicate Writes(t: Text, n: nat) {
    AllDigits(t) && ValueOf(t) == n && (|t| > 1 ==> t[0] != 48)
  }

  /** A number filled up with zeros to a width. */
  predicate WritesIn(t: Text, n: nat, width: nat) {
    |t| == width && AllDigits(t) && ValueOf(t) == n
  }

  lemma {:induction false} DecimalWrites(n: nat)
    ensures Writes(Decimal(n), n) && (n > 0 ==> Decimal(n)[0] != 48)
  {
    var t := Decimal(n);
    if n >= 10 {
      DecimalWrites(n / 10);
      assert t[..|t| - 1] == Decimal(n / 10);
    } else {
      assert t[..|t| - 1] == [];
    }
  }

  lemma {:induction false} DigitsWrite(n: nat, w: nat)
    requires 0 < w && n < PowerOfTen(w)
    ensures WritesIn(Digits(n, w), n, w)
    decreases w
  {
    var t := Digits(n, w);
    assert t[..w - 1] == Digits(n / 10, w - 1);
    if w > 1 {
      DigitsWrite(n / 10, w - 1);
    } else {
      assert PowerOfTen(1) == 10 && ValueOf([]) == 0;
    }
  }

  const DASH: CodeUnit := 45
  const LETTER_Q: CodeUnit := 81
  const LETTER_W: CodeUnit := 87

  /** A daily label is the date, year-month-day, in 4, 2 and 2 digits. */
  lemma DailyLabel(d: Date)
    requires ValidDay(d)
    ensures var t := BucketLabel(d, Daily);
      && |t| == 10 && t[4] == t[7] == DASH
      && WritesIn(t[..4], d.year, 4) && WritesIn(t[5..7], d.month, 2) && WritesIn(t[8..], d.day, 2)
  {
    var y, m, c, t := Digits(d.year, 4), Digits(d.month, 2), Digits(d.day, 2), DayText(d);
    Powers();
    DigitsWrite(d.year, 4);
    DigitsWrite(d.month, 2);
    DigitsWrite(d.day, 2);
    assert t[..4] == y && t[5..7] == m && t[8..] == c;
  }

  /** A monthly label is its year and month. */
  lemma MonthlyLabel(d: Date)
    requires ValidDay(d)
    ensures var t := BucketLabel(d, Monthly);
      |t| == 7 && t[4] == DASH && WritesIn(t[..4], d.year, 4) && WritesIn(t[5..], d.month, 2)
  {
    DailyLabel(d);
    var day, t := BucketLabel(d, Daily), BucketLabel(d, Monthly);
    assert t[..4] == day[..4] && t[5..] == day[5..7];
  }

  /** A quarterly label is its year without padding and the one quarter whose three months hold the date's. */
  lemma QuarterlyLabel(d: Date, q: int)
    requires ValidDay(d) && 1 <= q <= 4 && 3 * (q - 1) < d.month <= 3 * q
    ensures exists y: Text :: Writes(y, d.year) && BucketLabel(d, Quarterly) == y + [DASH, LETTER_Q, 48 + q]
  {
    DecimalWrites(d.year);
    assert Ascii("-Q") == [DASH, LETTER_Q];
    assert Decimal(q) == [48 + q];
    assert BucketLabel(d, Quarterly) == Decimal(d.year) + [DASH, LETTER_Q, 48 + q];
  }

  /** January to March, April to June, July to September, or October to December. */
  predicate SameQuarter(m: int, n: int) {
    || (1 <= m <= 3 && 1 <= n <= 3) || (4 <= m <= 6 && 4 <= n <= 6)
    || (7 <= m <= 9 && 7 <= n <= 9) || (10 <= m <= 12 && 10 <= n <= 12)
  }

  /** Two dates share a quarterly label exactly when they share the year and lie in the same quarter of it. */
  lemma SameQuarterlyLabel(a: Date, b: Date)
    requires ValidDay(a) && ValidDay(b)
    ensures BucketLabel(a, Quarterly) == BucketLabel(b, Quarterly) <==> a.year == b.year && SameQuarter(a.month, b.month)
  {
    LabelTellsPeriod(a, b, Quarterly);
  }

  /** A weekly label is the year of the week's Thursday and, in two digits, how many Thursdays of that year have come. */
  lemma WeeklyLabelReads(d: Date)
    requires ValidDay(d) && IsoYear(d) >= 100
    ensures exists y: Text, w: Text ::
      && Writes(y, IsoYear(d)) && BucketLabel(d, Weekly) == y + [DASH, LETTER_W] + w
      && WritesIn(w, (Thursday(NumberOf(d)) - DayFromYear(IsoYear(d))) / 7 + 1, 2)
  {
    WeeklyLabelIsIso(d);
    var week := TrueWeek(NumberOf(d));
    WeekRange(NumberOf(d));
    DecimalWrites(week.year);
    WeekTextWrites(week.week);
    LabelParts(week);
  }

  lemma LabelParts(week: Week)
    requires week.year >= 0
    ensures LabelOf(week) == Decimal(week.year) + [DASH, LETTER_W] + WeekText(week.week)
  {
    assert Ascii("-W") == [DASH, LETTER_W];
  }

  lemma WeekTextWrites(w: int)
    requires 1 <= w <= 53
    ensures WritesIn(WeekText(w), w, 2)
  {
    DecimalWrites(w);
    ShortDecimal(w);
    if w < 10 {
      assert ([48] + Decimal(w))[..1] == [48] && ValueOf([48]) == 0;
      assert ValueOf([48] + Decimal(w)) == w;
    } else {
      ShortDecimal(w / 10);
    }
  }
}
