/** Bucket labels: the ISO 8601 week label as coded, against the definition of the week. */
module IsoWeek {
  import opened Ordering
  import opened CanonicalJson
  import opened Calendar

  /** A date with a four-digit year. */
  datatype Date = Date(year: nat, month: int, day: int)

  predicate ValidDay(d: Date) {
    d.year <= 9999 && ValidDate(d.year, d.month, d.day)
  }

  function NumberOf(d: Date): int
    requires ValidDay(d)
  {
    DayNumber(d.year, d.month, d.day)
  }

  // ---------------------------------------------------------------- the definition

  /** Monday is 0. Day 0, 1970-01-01, is a Thursday. */
  function Weekday(n: int): int {
    (n + 3) % 7
  }

  function Monday(n: int): int {
    n - Weekday(n)
  }

  function Thursday(n: int): int {
    Monday(n) + 3
  }

  datatype Week = Week(year: int, week: int)

  /** ISO 8601, section 2.2.10: a week belongs to the year of its Thursday and is numbered by how many Thursdays of that
      year have come. */
  function TrueWeek(n: int): Week {
    var y := YearFromDay(Thursday(n));
    Week(y, (Thursday(n) - DayFromYear(y)) / 7 + 1)
  }

  // ---------------------------------------------------------------- the code

  /** Date.UTC takes years 0 to 99 for 1900 to 1999. */
  function UtcYear(y: int): int {
    if 0 <= y <= 99 then 1900 + y else y
  }

  /** Math.round(x / 7). */
  function RoundSevenths(x: int): int {
    (2 * x + 7) / 14
  }

  /** getUTCDay, moved on by 6, is 0 on Mondays. */
  function CodedWeek(tmp: int): Week {
    WeekHolding(tmp - (tmp + 4 + 6) % 7 + 3)
  }

  function WeekHolding(thursday: int): Week {
    var year := YearFromDay(thursday);
    var jan4 := DayNumber(UtcYear(year), 1, 4);
    Week(year, 1 + RoundSevenths(thursday - jan4 - 3 + (jan4 + 4 + 6) % 7))
  }

  function WeekText(w: int): Text {
    if |IntegerText(w)| < 2 then [48] + IntegerText(w) else IntegerText(w)
  }

  function LabelOf(w: Week): Text {
    IntegerText(w.year) + (Ascii("-W") + WeekText(w.week))
  }

  function WeeklyLabel(d: Date): Text
    requires ValidDay(d)
  {
    LabelOf(CodedWeek(DayNumber(UtcYear(d.year), d.month, d.day)))
  }

  // ---------------------------------------------------------------- weeks and Thursdays

  lemma ThursdayFacts(n: int)
    ensures Thursday(n) % 7 == 0 && Thursday(n) - 3 <= n <= Thursday(n) + 3
  {
  }

  lemma WeekRange(n: int)
    ensures 1 <= TrueWeek(n).week <= 53
    ensures DayFromYear(TrueWeek(n).year) <= Thursday(n) < DayFromYear(TrueWeek(n).year + 1)
  {
    NextYear(YearFromDay(Thursday(n)));
  }

  /** Two days have the same week number of the same year exactly when they share their Monday. */
  lemma SameWeekSameMonday(m: int, n: int)
    ensures TrueWeek(m) == TrueWeek(n) <==> Monday(m) == Monday(n)
  {
    if Monday(m) == Monday(n) {
      assert Thursday(m) == Thursday(n);
    } else if TrueWeek(m) == TrueWeek(n) {
      SameWeekSameThursday(m, n);
    }
  }

  lemma SameWeekSameThursday(m: int, n: int)
    requires TrueWeek(m) == TrueWeek(n)
    ensures Thursday(m) == Thursday(n)
  {
    var s, t := Thursday(m), Thursday(n);
    ThursdayFacts(m);
    ThursdayFacts(n);
    SameSeventh(s, t, DayFromYear(YearFromDay(s)));
  }

  lemma SameSeventh(s: int, t: int, base: int)
    requires s % 7 == 0 && t % 7 == 0 && (s - base) / 7 == (t - base) / 7
    ensures s == t
  {
  }

  lemma LaterSeventh(s: int, t: int, base: int)
    requires s % 7 == 0 && t % 7 == 0 && s < t
    ensures (s - base) / 7 < (t - base) / 7
  {
  }

  lemma LaterYear(s: int, t: int, y: int, z: int)
    requires s <= t && DayFromYear(y) <= s && t < DayFromYear(z + 1)
    ensures y <= z
  {
    if z < y {
      if z + 1 < y {
        YearsInOrder(z + 1, y);
      }
      assert false;
    }
  }

  /** Later weeks have later years, or higher numbers in the same year. */
  lemma WeeksInOrder(m: int, n: int)
    requires Monday(m) < Monday(n)
    ensures TrueWeek(m).year < TrueWeek(n).year
         || (TrueWeek(m).year == TrueWeek(n).year && TrueWeek(m).week < TrueWeek(n).week)
  {
    ThursdayFacts(m);
    ThursdayFacts(n);
    LaterYear(Thursday(m), Thursday(n), YearFromDay(Thursday(m)), YearFromDay(Thursday(n)));
    LaterSeventh(Thursday(m), Thursday(n), DayFromYear(YearFromDay(Thursday(m))));
  }

  // ---------------------------------------------------------------- the code meets the definition

  /** The division inside Math.round is exact, and the result is the ISO week, unless the year is taken for another. */
  lemma CodedIsTrue(tmp: int)
    requires UtcYear(YearFromDay(Thursday(tmp))) == YearFromDay(Thursday(tmp))
    ensures CodedWeek(tmp) == TrueWeek(tmp)
  {
    ThursdayFacts(tmp);
    SevenPeriodic(tmp);
    HoldingIsTrue(Thursday(tmp));
  }

  lemma HoldingIsTrue(t: int)
    requires t % 7 == 0 && UtcYear(YearFromDay(t)) == YearFromDay(t)
    ensures WeekHolding(t) == Week(YearFromDay(t), (t - DayFromYear(YearFromDay(t))) / 7 + 1)
  {
    FourthOfJanuary(YearFromDay(t));
    FirstThursday(t, DayFromYear(YearFromDay(t)));
  }

  lemma FourthOfJanuary(y: int)
    ensures DayNumber(y, 1, 4) == DayFromYear(y) + 3
  {
  }

  lemma SevenPeriodic(n: int)
    ensures (n + 4 + 6) % 7 == Weekday(n)
  {
  }

  /** With d the first of January: from the Thursday of the week of 4 January to t is a whole number of weeks, one less
      than the number of Thursdays from d to t. */
  lemma FirstThursday(t: int, d: int)
    requires t % 7 == 0 && d <= t
    ensures var x := t - (d + 3) - 3 + (d + 3 + 4 + 6) % 7;
      x % 7 == 0 && RoundSevenths(x) == x / 7 == (t - d) / 7
  {
  }

  /** Week labels of two digits after the year. */
  lemma LabelShape(w: Week)
    requires 1 <= w.week <= 53
    ensures LabelOf(w) == IntegerText(w.year) + (Ascii("-W") + Digits(w.week, 2))
    ensures |LabelOf(w)| == |IntegerText(w.year)| + 4
  {
    Pad2IsDigits(w.week);
    if w.week >= 10 {
      assert |Decimal(w.week / 10)| == 1;
    }
  }

  lemma LabelInjective(v: Week, w: Week)
    requires 1 <= v.week <= 53 && 1 <= w.week <= 53
    ensures LabelOf(v) == LabelOf(w) <==> v == w
  {
    LabelShape(v);
    LabelShape(w);
    if LabelOf(v) == LabelOf(w) {
      var k := |IntegerText(v.year)|;
      assert LabelOf(v)[..k] == IntegerText(v.year) && LabelOf(w)[..k] == IntegerText(w.year);
      IntegerTextInjective(v.year, w.year);
      assert LabelOf(v)[k + 2..] == Digits(v.week, 2) && LabelOf(w)[k + 2..] == Digits(w.week, 2);
      assert PowerOfTen(2) == 100;
      DigitsOrder(v.week, w.week, 2);
    }
  }

  // ---------------------------------------------------------------- the weekly label

  function IsoYear(d: Date): int
    requires ValidDay(d)
  {
    TrueWeek(NumberOf(d)).year
  }

  /** The years 100 and 10000 begin late in a week, so their first Thursdays come later. */
  lemma ThursdaysAtBounds(n: int)
    ensures n < DayFromYear(100) ==> Thursday(n) < DayFromYear(100)
    ensures n < DayFromYear(10000) ==> Thursday(n) < DayFromYear(10000)
    ensures n >= DayFromYear(100) ==> Thursday(n) >= DayFromYear(99)
  {
  }

  lemma YearAtMost(n: int, y: int)
    ensures n < DayFromYear(y + 1) <==> YearFromDay(n) <= y
  {
    BeforeYear(YearFromDay(n), y);
    BeforeYear(y, YearFromDay(n));
    BeforeYear(y + 1, YearFromDay(n));
  }

  lemma EarlyDates(d: Date)
    requires ValidDay(d)
    ensures d.year <= 99 <==> NumberOf(d) < DayFromYear(100)
    ensures d.year <= 99 ==> IsoYear(d) <= 99
    ensures d.year >= 100 ==> IsoYear(d) >= 99
    ensures IsoYear(d) <= 9999
  {
    var n := NumberOf(d);
    DateInYear(d.year, d.month, d.day);
    ThursdaysAtBounds(n);
    YearAtMost(n, 99);
    YearAtMost(n, 9999);
    YearAtMost(Thursday(n), 98);
    YearAtMost(Thursday(n), 99);
    YearAtMost(Thursday(n), 9999);
  }

  lemma OrdinaryWeek(d: Date)
    requires ValidDay(d) && IsoYear(d) >= 100
    ensures WeeklyLabel(d) == LabelOf(TrueWeek(NumberOf(d))) && 1 <= TrueWeek(NumberOf(d)).week <= 53
  {
    EarlyDates(d);
    WeekRange(NumberOf(d));
    CodedIsTrue(NumberOf(d));
  }

  lemma CodedFrom1900(n: int)
    requires n >= DayFromYear(1900)
    ensures CodedWeek(n).year >= 1899 && 1 <= CodedWeek(n).week <= 53
  {
    NextYear(1899);
    YearAtMost(Thursday(n), 1898);
    CodedIsTrue(n);
    WeekRange(n);
  }

  lemma FromYearStart(y: int, m: int, d: int)
    requires 1 <= m <= 12 && d >= 1
    ensures DayNumber(y, m, d) >= DayFromYear(y)
  {
  }

  lemma FirstCenturyMoved(y: int, m: int, d: int)
    requires 0 <= y <= 99 && 1 <= m <= 12 && d >= 1
    ensures var w := CodedWeek(DayNumber(UtcYear(y), m, d)); w.year >= 1899 && 1 <= w.week <= 53
  {
    BeforeYear(1900, 1900 + y);
    FromYearStart(1900 + y, m, d);
    CodedFrom1900(DayNumber(1900 + y, m, d));
  }

  lemma NinetyNinthYear(d: Date)
    requires ValidDay(d) && d.year >= 100 && IsoYear(d) == 99
    ensures CodedWeek(DayNumber(UtcYear(d.year), d.month, d.day)).year == 99
    ensures CodedWeek(DayNumber(UtcYear(d.year), d.month, d.day)).week < 0
  {
    var t := Thursday(NumberOf(d));
    SevenPeriodic(NumberOf(d));
    YearAtMost(t, 99);
    assert DaysBefore(1999, 1) == 0;
  }

  lemma NegativeWeek(y: int, w: int, v: int)
    requires w < 0 && 1 <= v <= 53
    ensures LabelOf(Week(y, w)) != LabelOf(Week(y, v))
  {
    LabelShape(Week(y, v));
    var k := |IntegerText(y)|;
    assert LabelOf(Week(y, w))[k + 2] == 45;
    assert LabelOf(Week(y, v))[k + 2] == Digits(v, 2)[0] >= 48;
  }

  /** The label of a date is its ISO week exactly when the year of that week is 100 or later. */
  lemma WeeklyLabelIsIso(d: Date)
    requires ValidDay(d)
    ensures WeeklyLabel(d) == LabelOf(TrueWeek(NumberOf(d))) <==> IsoYear(d) >= 100
  {
    EarlyDates(d);
    WeekRange(NumberOf(d));
    if IsoYear(d) >= 100 {
      OrdinaryWeek(d);
    } else if d.year <= 99 {
      FirstCenturyMoved(d.year, d.month, d.day);
      LabelInjective(CodedWeek(DayNumber(UtcYear(d.year), d.month, d.day)), TrueWeek(NumberOf(d)));
    } else {
      NinetyNinthYear(d);
      NegativeWeek(99, CodedWeek(DayNumber(UtcYear(d.year), d.month, d.day)).week, TrueWeek(NumberOf(d)).week);
    }
  }

  /** From then on the seven days of a week share one label and no other day has it. */
  lemma SameLabelSameWeek(a: Date, b: Date)
    requires ValidDay(a) && ValidDay(b) && IsoYear(a) >= 100 && IsoYear(b) >= 100
    ensures WeeklyLabel(a) == WeeklyLabel(b) <==> Monday(NumberOf(a)) == Monday(NumberOf(b))
  {
    OrdinaryWeek(a);
    OrdinaryWeek(b);
    LabelInjective(TrueWeek(NumberOf(a)), TrueWeek(NumberOf(b)));
    SameWeekSameMonday(NumberOf(a), NumberOf(b));
  }

  /** Before that, a date is labelled like the one nineteen centuries later. */
  lemma FirstCenturyMixedUp(y: nat, m: int, d: int)
    requires y <= 99 && ValidDate(y, m, d) && ValidDate(1900 + y, m, d)
    ensures WeeklyLabel(Date(y, m, d)) == WeeklyLabel(Date(1900 + y, m, d))
    ensures Monday(NumberOf(Date(y, m, d))) < Monday(NumberOf(Date(1900 + y, m, d)))
  {
    DateInYear(y, m, d);
    DateInYear(1900 + y, m, d);
    YearsInOrder(y + 1, 1900 + y - 1);
    YearsInOrder(1900 + y - 1, 1900 + y);
  }

  lemma WeekTextsInOrder(v: Week, w: Week)
    requires 0 <= v.year && 1 <= v.week <= 53 && 0 <= w.year && 1 <= w.week <= 53
    ensures (UnitsLess(LabelOf(v), LabelOf(w)) <==> v.year < w.year || (v.year == w.year && v.week < w.week))
       <==> SortsByValue(v.year, w.year)
  {
    var x, y := Ascii("-W") + Digits(v.week, 2), Ascii("-W") + Digits(w.week, 2);
    LabelShape(v);
    LabelShape(w);
    assert PowerOfTen(2) == 100;
    DigitsOrder(v.week, w.week, 2);
    UnitsLessTrichotomy(Ascii("-W"), Ascii("-W"));
    HeadsFirst(Ascii("-W"), Digits(v.week, 2), Ascii("-W"), Digits(w.week, 2));
    TextOrderExactly(v.year, x, w.year, y);
  }

  lemma MondaysInOrder(m: int, n: int)
    ensures Monday(m) < Monday(n) <==>
      TrueWeek(m).year < TrueWeek(n).year
      || (TrueWeek(m).year == TrueWeek(n).year && TrueWeek(m).week < TrueWeek(n).week)
  {
    if Monday(m) < Monday(n) {
      WeeksInOrder(m, n);
    } else if Monday(n) < Monday(m) {
      WeeksInOrder(n, m);
    } else {
      SameWeekSameMonday(m, n);
    }
  }

  /** Labels sort as strings the way their weeks follow each other exactly when their ISO years are equally wide or the
      narrower is at most the leading digits of the wider: 213-W01 comes before 2130-W01 and after 2120-W01. */
  lemma WeeklyOrderExactly(a: Date, b: Date)
    requires ValidDay(a) && ValidDay(b) && IsoYear(a) >= 100 && IsoYear(b) >= 100
    ensures (UnitsLess(WeeklyLabel(a), WeeklyLabel(b)) <==> Monday(NumberOf(a)) < Monday(NumberOf(b)))
       <==> SortsByValue(IsoYear(a), IsoYear(b))
  {
    OrdinaryWeek(a);
    OrdinaryWeek(b);
    WeekTextsInOrder(TrueWeek(NumberOf(a)), TrueWeek(NumberOf(b)));
    MondaysInOrder(NumberOf(a), NumberOf(b));
  }

  /** In particular for four-digit years. */
  lemma LabelsInOrder(a: Date, b: Date)
    requires ValidDay(a) && ValidDay(b) && IsoYear(a) >= 1000 && IsoYear(b) >= 1000
    ensures UnitsLess(WeeklyLabel(a), WeeklyLabel(b)) <==> Monday(NumberOf(a)) < Monday(NumberOf(b))
  {
    WeeklyOrderExactly(a, b);
    EarlyDates(a);
    EarlyDates(b);
    FourDigits(IsoYear(a));
    FourDigits(IsoYear(b));
  }

  // ---------------------------------------------------------------- every period

  datatype Period = Daily | Weekly | Monthly | Quarterly

  /** The date as rows write it. */
  function DayText(d: Date): Text
    requires ValidDay(d)
  {
    Digits(d.year, 4) + ([45] + (Digits(d.month, 2) + ([45] + Digits(d.day, 2))))
  }

  function Quarter(month: int): int
    requires 1 <= month <= 12
  {
    (month - 1) / 3 + 1
  }

  function BucketLabel(d: Date, p: Period): Text
    requires ValidDay(d)
  {
    match p
    case Daily => DayText(d)
    case Quarterly => IntegerText(d.year) + (Ascii("-Q") + Decimal(Quarter(d.month)))
    case Monthly => DayText(d)[..7]
    case Weekly => WeeklyLabel(d)
  }

  /** March, June and September end a quarter. */
  function QuartersOver(month: int): nat {
    if month <= 3 then 0 else if month <= 6 then 1 else if month <= 9 then 2 else 3
  }

  /** Counts the periods in calendar order. */
  function PeriodIndex(d: Date, p: Period): int
    requires ValidDay(d)
  {
    match p
    case Daily => (d.year * 12 + d.month - 1) * 31 + d.day - 1
    case Quarterly => d.year * 4 + QuartersOver(d.month)
    case Monthly => d.year * 12 + d.month - 1
    case Weekly => Monday(NumberOf(d))
  }

  /** Only day and month labels pad the year to four digits. */
  predicate YearFillsLabel(d: Date, p: Period)
    requires ValidDay(d)
  {
    match p
    case Weekly => IsoYear(d) >= 1000
    case Quarterly => d.year >= 1000
    case _ => true
  }

  lemma Powers()
    ensures PowerOfTen(1) == 10 && PowerOfTen(2) == 100 && PowerOfTen(4) == 10000
  {
    assert PowerOfTen(3) == 1000;
  }

  lemma MonthsInOrder(a: Date, b: Date)
    requires ValidDay(a) && ValidDay(b)
    ensures UnitsLess(BucketLabel(a, Monthly), BucketLabel(b, Monthly))
       <==> PeriodIndex(a, Monthly) < PeriodIndex(b, Monthly)
  {
    Powers();
    assert DayText(a)[..7] == Digits(a.year, 4) + ([45] + Digits(a.month, 2));
    assert DayText(b)[..7] == Digits(b.year, 4) + ([45] + Digits(b.month, 2));
    DigitsOrder(a.year, b.year, 4);
    DigitsOrder(a.month, b.month, 2);
    HeadsFirst([45], Digits(a.month, 2), [45], Digits(b.month, 2));
    HeadsFirst(Digits(a.year, 4), [45] + Digits(a.month, 2), Digits(b.year, 4), [45] + Digits(b.month, 2));
  }

  lemma DaysInOrder(a: Date, b: Date)
    requires ValidDay(a) && ValidDay(b)
    ensures UnitsLess(DayText(a), DayText(b)) <==> PeriodIndex(a, Daily) < PeriodIndex(b, Daily)
  {
    Powers();
    var x, y := [45] + Digits(a.day, 2), [45] + Digits(b.day, 2);
    DigitsOrder(a.year, b.year, 4);
    DigitsOrder(a.month, b.month, 2);
    DigitsOrder(a.day, b.day, 2);
    HeadsFirst([45], Digits(a.day, 2), [45], Digits(b.day, 2));
    HeadsFirst(Digits(a.month, 2), x, Digits(b.month, 2), y);
    HeadsFirst([45], Digits(a.month, 2) + x, [45], Digits(b.month, 2) + y);
    HeadsFirst(Digits(a.year, 4), [45] + (Digits(a.month, 2) + x), Digits(b.year, 4), [45] + (Digits(b.month, 2) + y));
  }

  lemma QuarterTexts(a: Date, b: Date)
    requires ValidDay(a) && ValidDay(b)
    ensures var x, y := Ascii("-Q") + Decimal(Quarter(a.month)), Ascii("-Q") + Decimal(Quarter(b.month));
      UnitsLess(x, y) <==> Quarter(a.month) < Quarter(b.month)
  {
    var p, q := Quarter(a.month), Quarter(b.month);
    UnitsLessTrichotomy(Ascii("-Q"), Ascii("-Q"));
    HeadsFirst(Ascii("-Q"), Decimal(p), Ascii("-Q"), Decimal(q));
  }

  /** The same for quarters, by the years of the dates, from the year 0 on. */
  lemma QuarterlyOrderExactly(a: Date, b: Date)
    requires ValidDay(a) && ValidDay(b)
    ensures (UnitsLess(BucketLabel(a, Quarterly), BucketLabel(b, Quarterly))
             <==> PeriodIndex(a, Quarterly) < PeriodIndex(b, Quarterly))
       <==> SortsByValue(a.year, b.year)
  {
    QuarterTexts(a, b);
    assert Quarter(a.month) == QuartersOver(a.month) + 1 && Quarter(b.month) == QuartersOver(b.month) + 1;
    TextOrderExactly(a.year, Ascii("-Q") + Decimal(Quarter(a.month)), b.year, Ascii("-Q") + Decimal(Quarter(b.month)));
  }

  /** Before the ISO year 100 a weekly label means another week. */
  predicate LabelMeans(d: Date, p: Period)
    requires ValidDay(d)
  {
    p.Weekly? ==> IsoYear(d) >= 100
  }

  /** The years in the labels do not get in the way of the order. */
  predicate SortsRight(a: Date, b: Date, p: Period)
    requires ValidDay(a) && ValidDay(b) && LabelMeans(a, p) && LabelMeans(b, p)
  {
    match p
    case Weekly => SortsByValue(IsoYear(a), IsoYear(b))
    case Quarterly => SortsByValue(a.year, b.year)
    case _ => true
  }

  /** Labels sort as strings the way their periods follow each other exactly when the years in them do not get in the way. */
  lemma BucketOrderExactly(a: Date, b: Date, p: Period)
    requires ValidDay(a) && ValidDay(b) && LabelMeans(a, p) && LabelMeans(b, p)
    ensures (UnitsLess(BucketLabel(a, p), BucketLabel(b, p)) <==> PeriodIndex(a, p) < PeriodIndex(b, p))
       <==> SortsRight(a, b, p)
  {
    match p {
      case Daily => DaysInOrder(a, b);
      case Quarterly => QuarterlyOrderExactly(a, b);
      case Monthly => MonthsInOrder(a, b);
      case Weekly => WeeklyOrderExactly(a, b);
    }
  }

  lemma SamePeriodSorts(a: Date, b: Date, p: Period)
    requires ValidDay(a) && ValidDay(b) && LabelMeans(a, p) && LabelMeans(b, p)
    ensures SortsRight(a, b, p) <==> SortsRight(b, a, p)
    ensures PeriodIndex(a, p) == PeriodIndex(b, p) ==> SortsRight(a, b, p)
  {
    match p {
      case Weekly => SameWeekSorts(NumberOf(a), NumberOf(b));
      case Quarterly => SameQuarterSorts(a.year, a.month, b.year, b.month);
      case _ =>
    }
  }

  lemma SameWeekSorts(m: int, n: int)
    requires TrueWeek(m).year >= 0 && TrueWeek(n).year >= 0
    ensures SortsByValue(TrueWeek(m).year, TrueWeek(n).year) <==> SortsByValue(TrueWeek(n).year, TrueWeek(m).year)
    ensures Monday(m) == Monday(n) ==> SortsByValue(TrueWeek(m).year, TrueWeek(n).year)
  {
    SameWeekSameMonday(m, n);
    SortsBothWays(TrueWeek(m).year, TrueWeek(n).year);
  }

  lemma SortsBothWays(v: nat, w: nat)
    ensures SortsByValue(v, w) <==> SortsByValue(w, v)
    ensures SortsByValue(v, v)
  {
  }

  lemma SameQuarterSorts(y: nat, m: int, z: nat, n: int)
    requires 1 <= m <= 12 && 1 <= n <= 12
    ensures SortsByValue(y, z) <==> SortsByValue(z, y)
    ensures y * 4 + QuartersOver(m) == z * 4 + QuartersOver(n) ==> SortsByValue(y, z)
  {
  }

  /** Two dates have the same label exactly when they are of the same period. */
  lemma LabelTellsPeriod(a: Date, b: Date, p: Period)
    requires ValidDay(a) && ValidDay(b) && LabelMeans(a, p) && LabelMeans(b, p)
    ensures BucketLabel(a, p) == BucketLabel(b, p) <==> PeriodIndex(a, p) == PeriodIndex(b, p)
  {
    BucketOrderExactly(a, b, p);
    BucketOrderExactly(b, a, p);
    SamePeriodSorts(a, b, p);
    UnitsLessTrichotomy(BucketLabel(a, p), BucketLabel(b, p));
  }

  lemma FilledSorts(a: Date, b: Date, p: Period)
    requires ValidDay(a) && ValidDay(b) && YearFillsLabel(a, p) && YearFillsLabel(b, p)
    ensures LabelMeans(a, p) && LabelMeans(b, p) && SortsRight(a, b, p)
  {
    EarlyDates(a);
    EarlyDates(b);
    if p.Weekly? {
      FourDigits(IsoYear(a));
      FourDigits(IsoYear(b));
    } else if p.Quarterly? {
      FourDigits(a.year);
      FourDigits(b.year);
    }
  }

  /** In particular where every year fills its label. */
  lemma BucketsInOrder(a: Date, b: Date, p: Period)
    requires ValidDay(a) && ValidDay(b) && YearFillsLabel(a, p) && YearFillsLabel(b, p)
    ensures UnitsLess(BucketLabel(a, p), BucketLabel(b, p)) <==> PeriodIndex(a, p) < PeriodIndex(b, p)
    ensures BucketLabel(a, p) == BucketLabel(b, p) <==> PeriodIndex(a, p) == PeriodIndex(b, p)
  {
    FilledSorts(a, b, p);
    BucketOrderExactly(a, b, p);
    LabelTellsPeriod(a, b, p);
  }
}
