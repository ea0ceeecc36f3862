/** Day numbers, years and decimal numerals, as ECMAScript dates and numbers have them. */
module Calendar {
  import opened Ordering
  import opened CanonicalJson

  // ---------------------------------------------------------------- years

  /** The day, counted from 1970-01-01, on which a year begins. */
  function DayFromYear(y: int): int {
    365 * (y - 1970) + (y - 1969) / 4 - (y - 1901) / 100 + (y - 1601) / 400
  }

  predicate Leap(y: int) {
    y % 4 == 0 && (y % 100 != 0 || y % 400 == 0)
  }

  function YearLength(y: int): int {
    if Leap(y) then 366 else 365
  }

  lemma FourthYear(y: int)
    ensures (y + 1 - 1969) / 4 - (y - 1969) / 4 == if y % 4 == 0 then 1 else 0
  {
  }

  lemma HundredthYear(y: int)
    ensures (y + 1 - 1901) / 100 - (y - 1901) / 100 == if y % 100 == 0 then 1 else 0
  {
  }

  lemma FourHundredthYear(y: int)
    ensures (y + 1 - 1601) / 400 - (y - 1601) / 400 == if y % 400 == 0 then 1 else 0
  {
  }

  lemma CenturiesAreFourths(y: int)
    ensures y % 400 == 0 ==> y % 100 == 0
    ensures y % 100 == 0 ==> y % 4 == 0
  {
    Fourfold(y, y / 100);
    Hundredfold(y, y / 400);
  }

  lemma Fourfold(y: int, q: int)
    ensures y == 100 * q ==> y % 4 == 0
  {
  }

  lemma Hundredfold(y: int, q: int)
    ensures y == 400 * q ==> y % 100 == 0
  {
  }

  lemma NextYear(y: int)
    ensures DayFromYear(y + 1) == DayFromYear(y) + YearLength(y)
  {
    FourthYear(y);
    HundredthYear(y);
    FourHundredthYear(y);
    CenturiesAreFourths(y);
  }

  lemma {:induction false} YearsInOrder(y: int, z: int)
    requires y < z
    ensures DayFromYear(y) + 365 <= DayFromYear(z)
    decreases z - y
  {
    NextYear(z - 1);
    if y < z - 1 {
      YearsInOrder(y, z - 1);
    }
  }

  /** The year of a day, looked for from a year known not to be later. */
  function YearFrom(n: int, y: int): (r: int)
    requires DayFromYear(y) <= n
    ensures DayFromYear(r) <= n < DayFromYear(r + 1)
    decreases n - DayFromYear(y)
  {
    NextYear(y);
    if n < DayFromYear(y + 1) then y else YearFrom(n, y + 1)
  }

  lemma EarlyYear(n: int)
    ensures n >= 0 ==> DayFromYear(1970) <= n
    ensures n < 0 ==> DayFromYear(1970 + n / 365 - 1) <= n
  {
  }

  function YearFromDay(n: int): (y: int)
    ensures DayFromYear(y) <= n < DayFromYear(y + 1)
  {
    EarlyYear(n);
    YearFrom(n, if n >= 0 then 1970 else 1970 + n / 365 - 1)
  }

  /** A day lies in just one year. */
  lemma BeforeYear(y: int, z: int)
    ensures y < z ==> DayFromYear(y + 1) <= DayFromYear(z)
    ensures y <= z ==> DayFromYear(y) <= DayFromYear(z)
  {
    if y < z {
      YearsInOrder(y, z);
      if y + 1 < z {
        YearsInOrder(y + 1, z);
      }
    }
  }

  lemma YearUnique(n: int, y: int)
    requires DayFromYear(y) <= n < DayFromYear(y + 1)
    ensures y == YearFromDay(n)
  {
    BeforeYear(y, YearFromDay(n));
    BeforeYear(YearFromDay(n), y);
  }

  // ---------------------------------------------------------------- months and days

  function MonthLength(y: int, m: int): int
    requires 1 <= m <= 12
  {
    if m == 2 then (if Leap(y) then 29 else 28)
    else if m == 4 || m == 6 || m == 9 || m == 11 then 30
    else 31
  }

  function DaysBefore(y: int, m: int): (d: int)
    requires 1 <= m <= 13
    ensures d >= 28 * (m - 1)
    decreases m
  {
    if m == 1 then 0 else DaysBefore(y, m - 1) + MonthLength(y, m - 1)
  }

  /** A date of the proleptic Gregorian calendar; day may run past the end of the month, as Date.UTC allows. */
  function DayNumber(y: int, m: int, d: int): int
    requires 1 <= m <= 12
  {
    DayFromYear(y) + DaysBefore(y, m) + d - 1
  }

  predicate ValidDate(y: int, m: int, d: int) {
    1 <= m <= 12 && 1 <= d <= MonthLength(y, m)
  }

  lemma {:induction false} WithinYear(y: int, m: int)
    requires 1 <= m <= 13
    ensures DaysBefore(y, m) <= DaysBefore(y, 13)
    decreases 13 - m
  {
    if m < 13 {
      WithinYear(y, m + 1);
      assert DaysBefore(y, m + 1) == DaysBefore(y, m) + MonthLength(y, m);
    }
  }

  lemma MonthsFillYear(y: int)
    ensures DaysBefore(y, 13) == YearLength(y)
  {
    var feb := MonthLength(y, 2);
    assert DaysBefore(y, 3) == 31 + feb;
    assert DaysBefore(y, 6) == 31 + feb + 31 + 30 + 31;
    assert DaysBefore(y, 9) == DaysBefore(y, 6) + 30 + 31 + 31;
    assert DaysBefore(y, 11) == DaysBefore(y, 9) + 30 + 31;
  }

  /** The day of a valid date lies in the year of the date. */
  lemma DateInYear(y: int, m: int, d: int)
    requires ValidDate(y, m, d)
    ensures YearFromDay(DayNumber(y, m, d)) == y
  {
    assert DaysBefore(y, m + 1) == DaysBefore(y, m) + MonthLength(y, m);
    WithinYear(y, m + 1);
    MonthsFillYear(y);
    NextYear(y);
    YearUnique(DayNumber(y, m, d), y);
  }

  // ---------------------------------------------------------------- numerals

  function Digit(d: int): CodeUnit
    requires 0 <= d < 10
  {
    48 + d
  }

  function Decimal(n: nat): (t: Text)
    ensures t != [] && forall i :: 0 <= i < |t| ==> 48 <= t[i] <= 57
  {
    if n < 10 then [Digit(n)] else Decimal(n / 10) + [Digit(n % 10)]
  }

  /** Number.prototype.toString on integers. */
  function IntegerText(n: int): (t: Text) {
    if n < 0 then [45] + Decimal(-n) else Decimal(n)
  }

  lemma ShortDecimal(n: nat)
    ensures |Decimal(n)| == 1 <==> n < 10
  {
  }

  lemma {:induction false} DecimalInjective(m: nat, n: nat)
    requires Decimal(m) == Decimal(n)
    ensures m == n
    decreases m
  {
    var a, b := Decimal(m), Decimal(n);
    assert a[|a| - 1] == Digit(m % 10) && b[|b| - 1] == Digit(n % 10);
    ShortDecimal(m);
    ShortDecimal(n);
    if m >= 10 {
      assert a[..|a| - 1] == Decimal(m / 10) && b[..|b| - 1] == Decimal(n / 10);
      DecimalInjective(m / 10, n / 10);
    }
  }

  lemma SignShown(n: int)
    ensures IntegerText(n) != [] && (IntegerText(n)[0] == 45 <==> n < 0)
    ensures n < 0 ==> IntegerText(n)[1..] == Decimal(-n)
  {
  }

  lemma IntegerTextInjective(m: int, n: int)
    ensures IntegerText(m) == IntegerText(n) <==> m == n
  {
    SignShown(m);
    SignShown(n);
    if IntegerText(m) == IntegerText(n) {
      if m < 0 {
        DecimalInjective(-m, -n);
      } else {
        DecimalInjective(m, n);
      }
    }
  }

  /** n written with exactly w digits, higher digits cut off. */
  function Digits(n: nat, w: nat): (t: Text)
    ensures |t| == w
    decreases w
  {
    if w == 0 then [] else Digits(n / 10, w - 1) + [Digit(n % 10)]
  }

  function PowerOfTen(w: nat): nat {
    if w == 0 then 1 else 10 * PowerOfTen(w - 1)
  }

  /** After heads of equal length, texts compare by the heads first. */
  lemma {:induction false} HeadsFirst(a: Text, x: Text, b: Text, y: Text)
    requires |a| == |b|
    ensures UnitsLess(a + x, b + y) <==> UnitsLess(a, b) || (a == b && UnitsLess(x, y))
    decreases |a|
  {
    if a == [] {
      assert a + x == x && b + y == y;
    } else {
      HeadsFirst(a[1..], x, b[1..], y);
      assert (a + x)[1..] == a[1..] + x && (b + y)[1..] == b[1..] + y;
      assert a == [a[0]] + a[1..] && b == [b[0]] + b[1..];
    }
  }

  /** Numerals of equal width compare as numbers do. */
  lemma {:induction false} DigitsOrder(m: nat, n: nat, w: nat)
    requires m < PowerOfTen(w) && n < PowerOfTen(w)
    ensures UnitsLess(Digits(m, w), Digits(n, w)) <==> m < n
    ensures Digits(m, w) == Digits(n, w) <==> m == n
    decreases w
  {
    if w > 0 {
      DigitsOrder(m / 10, n / 10, w - 1);
      HeadsFirst(Digits(m / 10, w - 1), [Digit(m % 10)], Digits(n / 10, w - 1), [Digit(n % 10)]);
      assert UnitsLess([Digit(m % 10)], [Digit(n % 10)]) <==> m % 10 < n % 10;
      var a, b := Digits(m, w), Digits(n, w);
      assert a[..w - 1] == Digits(m / 10, w - 1) && b[..w - 1] == Digits(n / 10, w - 1);
      assert a[w - 1] == Digit(m % 10) && b[w - 1] == Digit(n % 10);
    }
  }

  /** toString().padStart(2, '0') of a number below 100. */
  function Pad2(n: nat): (t: Text)
    requires n < 100
    ensures |t| == 2
  {
    if n < 10 then [48] + Decimal(n) else assert |Decimal(n / 10)| == 1; Decimal(n)
  }

  lemma Pad2IsDigits(n: nat)
    requires n < 100
    ensures Pad2(n) == Digits(n, 2)
  {
    var tens := n / 10;
    assert tens / 10 == 0 && tens % 10 == tens;
    assert Digits(tens, 1) == Digits(0, 0) + [Digit(tens)] == [Digit(tens)];
    assert n >= 10 ==> Decimal(n) == [Digit(tens)] + [Digit(n % 10)];
  }

  // ---------------------------------------------------------------- numerals of different widths

  lemma {:induction false} PowersGrow(v: nat, w: nat)
    requires v <= w
    ensures 1 <= PowerOfTen(v) <= PowerOfTen(w)
  {
    if w > 0 {
      PowersGrow(if v < w then v else v - 1, w - 1);
    }
  }

  /** A numeral has no leading zeros. */
  lemma {:induction false} OwnWidth(n: nat)
    ensures var w := |Decimal(n)|; n < PowerOfTen(w) && (w > 1 ==> PowerOfTen(w - 1) <= n) && Decimal(n) == Digits(n, w)
  {
    var w := |Decimal(n)|;
    if n < 10 {
      assert PowerOfTen(1) == 10;
      assert Digits(n, 1) == Digits(n / 10, 0) + [Digit(n % 10)];
    } else {
      OwnWidth(n / 10);
      if w > 2 {
        assert PowerOfTen(w - 1) == 10 * PowerOfTen(w - 2);
      } else {
        assert PowerOfTen(1) == 10;
      }
    }
  }

  lemma WiderIsGreater(v: nat, w: nat)
    requires |Decimal(v)| < |Decimal(w)|
    ensures v < w
  {
    OwnWidth(v);
    OwnWidth(w);
    PowersGrow(|Decimal(v)|, |Decimal(w)| - 1);
  }

  /** n without its last d digits. */
  function Leading(n: nat, d: nat): nat {
    if d == 0 then n else Leading(n / 10, d - 1)
  }

  lemma {:induction false} LeadingDigits(n: nat, d: nat)
    requires d < |Decimal(n)|
    ensures |Decimal(Leading(n, d))| == |Decimal(n)| - d
    ensures Decimal(n)[..|Decimal(n)| - d] == Decimal(Leading(n, d))
    decreases d
  {
    if d > 0 {
      ShortDecimal(n);
      var init := Decimal(n / 10);
      assert Decimal(n) == init + [Digit(n % 10)];
      LeadingDigits(n / 10, d - 1);
      assert Decimal(n)[..|Decimal(n)| - d] == init[..|init| - (d - 1)];
    }
  }

  /** Numbers of equal width, each followed by text: the numbers decide, then the texts. */
  lemma SameWidthOrder(v: nat, x: Text, w: nat, y: Text)
    requires |Decimal(v)| == |Decimal(w)|
    ensures UnitsLess(Decimal(v) + x, Decimal(w) + y) <==> v < w || (v == w && UnitsLess(x, y))
  {
    OwnWidth(v);
    OwnWidth(w);
    DigitsOrder(v, w, |Decimal(v)|);
    HeadsFirst(Decimal(v), x, Decimal(w), y);
  }

  lemma CutBefore(w: nat, y: Text, k: nat) returns (c: nat, rest: Text)
    requires 0 < k < |Decimal(w)|
    ensures c == Leading(w, |Decimal(w)| - k)
    ensures Decimal(w) + y == Decimal(c) + rest && |Decimal(c)| == k && rest != [] && rest[0] >= 48
  {
    c := Leading(w, |Decimal(w)| - k);
    rest := Decimal(w)[k..] + y;
    LeadingDigits(w, |Decimal(w)| - k);
    assert Decimal(w) == Decimal(w)[..k] + Decimal(w)[k..];
    assert rest[0] == Decimal(w)[k];
  }

  lemma HeadDecides(x: Text, y: Text)
    requires x != [] && y != [] && x[0] < y[0]
    ensures UnitsLess(x, y)
  {
  }

  lemma NarrowerBefore(v: nat, x: Text, c: nat, rest: Text, less: Text, all: Text)
    requires |Decimal(v)| == |Decimal(c)| && less == Decimal(v) + x && all == Decimal(c) + rest
    requires x != [] && rest != [] && x[0] < rest[0]
    ensures UnitsLess(less, all) <==> v <= c
  {
    SameWidthOrder(v, x, c, rest);
    HeadDecides(x, rest);
  }

  /** Of different widths, each followed by a minus sign: the narrower number is compared with the leading digits of the
      wider one, and comes first if they are equal. */
  lemma NarrowerOrder(v: nat, x: Text, w: nat, y: Text, less: Text, all: Text)
    requires |Decimal(v)| < |Decimal(w)| && x != [] && x[0] == 45
    requires less == Decimal(v) + x && all == Decimal(w) + y
    ensures UnitsLess(less, all) <==> v <= Leading(w, |Decimal(w)| - |Decimal(v)|)
  {
    var c, rest := CutBefore(w, y, |Decimal(v)|);
    NarrowerBefore(v, x, c, rest, less, all);
  }

  /** The narrower of the two is at most the leading digits of the other. */
  predicate SortsByValue(v: nat, w: nat) {
    var (j, k) := (|Decimal(v)|, |Decimal(w)|);
    if j == k then true else if j < k then v <= Leading(w, k - j) else w <= Leading(v, j - k)
  }

  lemma NarrowerAgrees(v: nat, x: Text, w: nat, y: Text, less: Text, all: Text)
    requires |Decimal(v)| < |Decimal(w)| && x != [] && x[0] == 45
    requires less == Decimal(v) + x && all == Decimal(w) + y
    ensures v < w && (UnitsLess(less, all) <==> SortsByValue(v, w))
  {
    WiderIsGreater(v, w);
    NarrowerOrder(v, x, w, y, less, all);
  }

  lemma WiderAgrees(v: nat, x: Text, w: nat, y: Text, less: Text, all: Text)
    requires |Decimal(w)| < |Decimal(v)| && y != [] && y[0] == 45
    requires less == Decimal(v) + x && all == Decimal(w) + y
    ensures w < v && (!UnitsLess(less, all) <==> SortsByValue(v, w))
  {
    WiderIsGreater(w, v);
    NarrowerOrder(w, y, v, x, all, less);
    UnitsLessTrichotomy(less, all);
    DifferentTexts(v, x, w, y);
  }

  /** Numbers followed by a minus sign sort as text the way they do by value, the texts after them deciding between equal
      numbers, exactly when their widths agree or the narrower is at most the leading digits of the wider. */
  lemma TextOrderExactly(v: nat, x: Text, w: nat, y: Text)
    requires x != [] && y != [] && x[0] == y[0] == 45
    ensures (UnitsLess(Decimal(v) + x, Decimal(w) + y) <==> v < w || (v == w && UnitsLess(x, y))) <==> SortsByValue(v, w)
  {
    var less, all := Decimal(v) + x, Decimal(w) + y;
    if |Decimal(v)| == |Decimal(w)| {
      SameWidthOrder(v, x, w, y);
    } else if |Decimal(v)| < |Decimal(w)| {
      NarrowerAgrees(v, x, w, y, less, all);
    } else {
      WiderAgrees(v, x, w, y, less, all);
    }
  }

  lemma DifferentTexts(v: nat, x: Text, w: nat, y: Text)
    requires |Decimal(w)| < |Decimal(v)| && y != [] && y[0] == 45
    ensures Decimal(v) + x != Decimal(w) + y
  {
    assert (Decimal(w) + y)[|Decimal(w)|] == 45;
    assert (Decimal(v) + x)[|Decimal(w)|] == Decimal(v)[|Decimal(w)|];
  }

  lemma FourDigits(n: nat)
    requires 1000 <= n <= 9999
    ensures |Decimal(n)| == 4
  {
    assert |Decimal(n / 1000)| == 1 && |Decimal(n / 100)| == 2 && |Decimal(n / 10)| == 3;
  }
}
