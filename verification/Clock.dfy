/** Calendar arithmetic and the text form of a time. */
module Clock {
  import opened Options
  import Text

  datatype Date = Date(year: int, month: int, day: int)

  // ----- an independent count of days -----

  predicate Leap(year: int) {
    year % 4 == 0 && (year % 100 != 0 || year % 400 == 0)
  }

  function MonthLength(year: int, month: int): int {
    if month == 2 then (if Leap(year) then 29 else 28)
    else if month in {4, 6, 9, 11} then 30
    else 31
  }

  function YearLength(year: int): int {
    if Leap(year) then 366 else 365
  }

  predicate ValidDate(d: Date) {
    1 <= d.month <= 12 && 1 <= d.day <= MonthLength(d.year, d.month)
  }

  /** Days from 1 January 1970 to 1 January of `year`, counted year by year. */
  function DaysToYear(year: int): int
    decreases if year >= 1970 then year - 1970 else 1970 - year
  {
    if year == 1970 then 0
    else if year > 1970 then DaysToYear(year - 1) + YearLength(year - 1)
    else DaysToYear(year + 1) - YearLength(year)
  }

  /** Days from 1 January to the first of `month`, counted month by month. */
  function DaysToMonth(year: int, month: int): int
    requires 1 <= month <= 12
    decreases month
  {
    if month == 1 then 0 else DaysToMonth(year, month - 1) + MonthLength(year, month - 1)
  }

  function DayNumber(d: Date): int
    requires ValidDate(d)
  {
    DaysToYear(d.year) + DaysToMonth(d.year, d.month) + d.day - 1
  }

  // ----- the code -----

  /** The year of the 400-year era, counted from March. */
  function YearOfEra(doe: int): int {
    (doe - doe / 1460 + doe / 36524 - doe / 146096) / 365
  }

  /** `civil_from_days`. */
  function CivilFromDays(days: int): Date {
    var z := days + 719468;
    var era := z / 146097;
    var doe := z % 146097;
    var yoe := YearOfEra(doe);
    var y := yoe + era * 400;
    var doy := doe - (365 * yoe + yoe / 4 - yoe / 100);
    var mp := (5 * doy + 2) / 153;
    var d := doy - (153 * mp + 2) / 5 + 1;
    var m := if mp < 10 then mp + 3 else mp - 9;
    Date(if m <= 2 then y + 1 else y, m, d)
  }

  function Digit(n: int): char
    requires 0 <= n < 10
  {
    '0' + n as char
  }

  function Digits(n: nat): (s: string)
    ensures |s| >= 1
  {
    if n < 10 then [Digit(n)] else Digits(n / 10) + [Digit(n % 10)]
  }

  /** At least `width` digits, zeros in front. */
  function Padded(n: nat, width: nat): string {
    var s := Digits(n);
    if |s| >= width then s else seq(width - |s|, i => '0') + s
  }

  /** `render_rfc3339`. */
  function RenderRfc3339(secs: nat): string {
    CivilCorrect(secs / 86400);
    YearFrom1970(secs / 86400);
    var d := CivilFromDays(secs / 86400);
    var rem := secs % 86400;
    Padded(d.year, 4) + "-" + Padded(d.month, 2) + "-" + Padded(d.day, 2) + "T"
    + Padded(rem / 3600, 2) + ":" + Padded(rem % 3600 / 60, 2) + ":" + Padded(rem % 60, 2) + "Z"
  }

  predicate Expired(expires: Option<string>, now: string) {
    match expires
    case Some(at) => Text.Less(at, now)
    case None => false
  }

  // ----- calendar correctness -----

  /** The closed form of the year count. */
  lemma {:induction false} YearsClosed(year: int)
    ensures DaysToYear(year) == 365 * (year - 1970) + (year - 1) / 4 - (year - 1) / 100 + (year - 1) / 400 - 477
    decreases if year >= 1970 then year - 1970 else 1970 - year
  {
    if year > 1970 {
      YearsClosed(year - 1);
      LeapSteps(year - 1);
    } else if year < 1970 {
      YearsClosed(year + 1);
      LeapSteps(year);
    }
  }

  lemma QuotientStep(year: int, n: int)
    requires n > 0
    ensures year / n - (year - 1) / n == if year % n == 0 then 1 else 0
  {
    var q := (year - 1) / n;
    assert year - 1 == q * n + (year - 1) % n;
    if (year - 1) % n == n - 1 {
      assert year == (q + 1) * n;
      QuotientIs(year, n, q + 1, 0);
    } else {
      QuotientIs(year, n, q, (year - 1) % n + 1);
    }
  }

  lemma QuotientIs(x: int, n: int, q: int, r: int)
    requires n > 0 && x == q * n + r && 0 <= r < n
    ensures x / n == q && x % n == r
  {
    var d := x / n - q;
    assert x == (x / n) * n + x % n;
    assert d * n == (x / n) * n - q * n;
    if d > 0 {
      AtLeast(d, n);
    } else if d < 0 {
      AtLeast(-d, n);
    }
  }

  lemma {:induction false} AtLeast(k: int, n: int)
    requires k > 0 && n > 0
    ensures k * n >= n
    decreases k
  {
    if k > 1 {
      AtLeast(k - 1, n);
    }
  }

  lemma LeapSteps(year: int)
    ensures YearLength(year) == 365 + (year / 4 - (year - 1) / 4) - (year / 100 - (year - 1) / 100)
                                + (year / 400 - (year - 1) / 400)
  {
    QuotientStep(year, 4);
    QuotientStep(year, 100);
    QuotientStep(year, 400);
    if year % 400 == 0 {
      QuotientIs(year, 100, 4 * (year / 400), 0);
    }
    if year % 100 == 0 {
      QuotientIs(year, 4, 25 * (year / 100), 0);
    }
  }

  /** The era splits into centuries, four-year spans and years; the formula finds the year. */
  lemma YearOfEraIs(doe: int, c: int, q: int, t: int, s: int)
    requires 0 <= doe <= 146096 && 0 <= c <= 3 && 0 <= q <= 24 && 0 <= t <= 3
    requires doe == 36524 * c + 1461 * q + s && 0 <= s <= 1460 && 365 * t <= s && (t < 3 ==> s < 365 * (t + 1))
    requires s == 1460 && q == 24 ==> c == 3
    ensures YearOfEra(doe) == 100 * c + 4 * q + t
  {
    var e := if 24 * c + q + s >= 1460 then 1 else 0;
    QuotientIs(doe, 1460, 25 * c + q + e, 24 * c + q + s - 1460 * e);
    var top := if doe == 146096 then 1 else 0;
    QuotientIs(doe, 36524, c + top, doe - 36524 * (c + top));
    QuotientIs(doe, 146096, top, doe - 146096 * top);
    QuotientIs(36500 * c + 1460 * q + s - e, 365, 100 * c + 4 * q + t, s - e - 365 * t);
  }

  /** Where the day of the era falls: a year of the era, and a day of that year. */
  lemma EraYear(doe: int)
    requires 0 <= doe <= 146096
    ensures var yoe := YearOfEra(doe); var doy := doe - (365 * yoe + yoe / 4 - yoe / 100);
      0 <= yoe <= 399 && 0 <= doy <= 365 && (doy == 365 ==> Leap(yoe + 1))
  {
    var c := if doe / 36524 < 3 then doe / 36524 else 3;
    var r := doe - 36524 * c;
    var q := r / 1461;
    var s := r % 1461;
    var t := if s / 365 < 3 then s / 365 else 3;
    YearOfEraIs(doe, c, q, t, s);
    var yoe := 100 * c + 4 * q + t;
    QuotientIs(yoe, 4, 25 * c + q, t);
    QuotientIs(yoe, 100, c, 4 * q + t);
    if s == 1460 {
      QuotientIs(yoe + 1, 4, 25 * c + q + 1, 0);
      if q == 24 {
        assert yoe + 1 == 400;
      } else {
        QuotientIs(yoe + 1, 100, c, 4 * q + 4);
      }
    }
  }

  /** Days before 1 March of `year`, in closed form. */
  lemma MarchFirst(yoe: int, era: int)
    requires 0 <= yoe <= 399
    ensures var y := yoe + 400 * era;
      && DaysToYear(y + 1) == 146097 * era + 365 * yoe + yoe / 4 - yoe / 100 - 719468 + 306
      && DaysToYear(y) + DaysToMonth(y, 3) == 146097 * era + 365 * yoe + yoe / 4 - yoe / 100 - 719468
      && (Leap(y + 1) <==> Leap(yoe + 1))
  {
    var y := yoe + 400 * era;
    YearsClosed(y + 1);
    YearsClosed(y);
    LeapSteps(y);
    QuotientIs(y, 4, yoe / 4 + 100 * era, yoe % 4);
    QuotientIs(y, 100, yoe / 100 + 4 * era, yoe % 100);
    QuotientIs(y, 400, era, yoe);
    QuotientIs(y + 1, 4, (yoe + 1) / 4 + 100 * era, (yoe + 1) % 4);
    QuotientIs(y + 1, 100, (yoe + 1) / 100 + 4 * era, (yoe + 1) % 100);
    QuotientIs(y + 1, 400, (yoe + 1) / 400 + era, (yoe + 1) % 400);
    assert DaysToMonth(y, 2) == 31;
  }

  /** Where each month starts, counted from March. */
  lemma MonthStart(year: int, mp: int)
    requires 0 <= mp <= 9
    ensures DaysToMonth(year, mp + 3) == DaysToMonth(year, 3) + (153 * mp + 2) / 5
    decreases mp
  {
    if mp > 0 {
      MonthStart(year, mp - 1);
    }
  }

  /** The date of a day of the March year `y`. */
  function MarchDate(y: int, doy: int): Date {
    var mp := (5 * doy + 2) / 153;
    var m := if mp < 10 then mp + 3 else mp - 9;
    Date(if m <= 2 then y + 1 else y, m, doy - (153 * mp + 2) / 5 + 1)
  }

  function EraDate(era: int, doe: int): Date {
    var yoe := YearOfEra(doe);
    MarchDate(yoe + era * 400, doe - (365 * yoe + yoe / 4 - yoe / 100))
  }

  lemma EraDateCorrect(era: int, doe: int)
    requires 0 <= doe <= 146096
    ensures ValidDate(EraDate(era, doe)) && DayNumber(EraDate(era, doe)) == 146097 * era + doe - 719468
  {
    var yoe := YearOfEra(doe);
    EraYear(doe);
    hide YearOfEra, MarchDate;
    MarchFirst(yoe, era);
    var y, doy := yoe + era * 400, doe - (365 * yoe + yoe / 4 - yoe / 100);
    MonthOf(y, doy);
    hide DaysToYear, DaysToMonth, Leap, MonthLength, YearLength, ValidDate, DayNumber;
  }

  /** `civil_from_days` gives a valid Gregorian date, and that date's day count is the day
      asked for. */
  lemma CivilCorrect(days: int)
    ensures ValidDate(CivilFromDays(days)) && DayNumber(CivilFromDays(days)) == days
  {
    var z := days + 719468;
    assert CivilFromDays(days) == EraDate(z / 146097, z % 146097);
    hide EraDate, CivilFromDays, DayNumber, ValidDate;
    EraDateCorrect(z / 146097, z % 146097);
  }

  /** The day of the March year falls in a month, and counts from 1 March. */
  lemma MonthOf(y: int, doy: int)
    requires 0 <= doy <= 365 && (doy == 365 ==> Leap(y + 1))
    ensures ValidDate(MarchDate(y, doy))
    ensures DayNumber(MarchDate(y, doy)) ==
      doy + if doy >= 306 then DaysToYear(y + 1) - 306 else DaysToYear(y) + DaysToMonth(y, 3)
  {
    var mp := (5 * doy + 2) / 153;
    assert DaysToMonth(y + 1, 1) == 0 && DaysToMonth(y + 1, 2) == 31;
    if mp <= 9 {
      MonthStart(y, mp);
    }
  }

  ghost predicate Before(a: Date, b: Date) {
    a.year < b.year || (a.year == b.year && (a.month < b.month || (a.month == b.month && a.day < b.day)))
  }

  lemma {:induction false} MonthsAdd(year: int, lo: int, hi: int)
    requires 1 <= lo < hi <= 12
    ensures DaysToMonth(year, lo) + MonthLength(year, lo) <= DaysToMonth(year, hi)
    decreases hi
  {
    if lo < hi - 1 {
      MonthsAdd(year, lo, hi - 1);
    }
  }

  lemma {:induction false} YearsAdd(lo: int, hi: int)
    requires lo < hi
    ensures DaysToYear(lo) + YearLength(lo) <= DaysToYear(hi)
    decreases hi - lo
  {
    if lo < hi - 1 {
      YearsAdd(lo, hi - 1);
    }
    YearStep(hi - 1);
  }

  lemma YearStep(year: int)
    ensures DaysToYear(year + 1) == DaysToYear(year) + YearLength(year)
  {
  }

  lemma WithinYear(d: Date)
    requires ValidDate(d)
    ensures DaysToYear(d.year) <= DayNumber(d) < DaysToYear(d.year) + YearLength(d.year)
  {
    if d.month < 12 {
      MonthsAdd(d.year, d.month, 12);
    }
    MonthsFromZero(d.year, d.month);
    YearIsItsMonths(d.year);
  }

  lemma YearIsItsMonths(year: int)
    ensures DaysToMonth(year, 12) + 31 == YearLength(year)
  {
    MonthStart(year, 9);
    assert DaysToMonth(year, 2) == 31;
  }

  lemma {:induction false} MonthsFromZero(year: int, month: int)
    requires 1 <= month <= 12
    ensures DaysToMonth(year, month) >= 0
    decreases month
  {
    if month > 1 {
      MonthsFromZero(year, month - 1);
    }
  }

  /** Later dates have larger day counts. */
  lemma DayNumberRises(a: Date, b: Date)
    requires ValidDate(a) && ValidDate(b) && Before(a, b)
    ensures DayNumber(a) < DayNumber(b)
  {
    if a.year < b.year {
      WithinYear(a);
      WithinYear(b);
      YearsAdd(a.year, b.year);
    } else if a.month < b.month {
      MonthsAdd(a.year, a.month, b.month);
    }
  }

  /** The inverse, the other way round: every valid date is the date of its day count. */
  lemma CivilInverse(d: Date)
    requires ValidDate(d)
    ensures CivilFromDays(DayNumber(d)) == d
  {
    var back := CivilFromDays(DayNumber(d));
    CivilCorrect(DayNumber(d));
    hide CivilFromDays;
    if Before(d, back) {
      DayNumberRises(d, back);
    } else if Before(back, d) {
      DayNumberRises(back, d);
    }
  }

  lemma YearFrom1970(days: int)
    requires days >= 0
    ensures CivilFromDays(days).year >= 1970
  {
    CivilCorrect(days);
    var d := CivilFromDays(days);
    hide CivilFromDays;
    WithinYear(d);
    if d.year < 1970 {
      YearsAdd(d.year, 1970);
    }
  }

  // ----- the text order of times -----

  /** The first second of the year 10000. */
  const YEAR_10000: nat := 253402300800

  /** `width` digits. */
  function Fixed(n: nat, width: nat): (s: string)
    ensures |s| == width
  {
    if width == 0 then "" else Fixed(n / 10, width - 1) + [Digit(n % 10)]
  }

  function Pow10(width: nat): nat {
    if width == 0 then 1 else 10 * Pow10(width - 1)
  }

  lemma {:induction false} FixedZero(width: nat)
    ensures Fixed(0, width) == seq(width, i => '0')
  {
    if width > 0 {
      FixedZero(width - 1);
      assert Fixed(0, width) == Fixed(0, width - 1) + ['0'];
    }
  }

  /** Padding a number that fits gives exactly `width` digits. */
  lemma {:induction false} PaddedFixed(n: nat, width: nat)
    requires 1 <= width && n < Pow10(width)
    ensures Padded(n, width) == Fixed(n, width) && |Digits(n)| <= width
    decreases width
  {
    if n < 10 {
      FixedZero(width - 1);
      assert Fixed(n, width) == Fixed(0, width - 1) + [Digit(n)];
      assert Padded(n, width) == Fixed(n, width);
    } else {
      PaddedFixed(n / 10, width - 1);
      assert Digits(n) == Digits(n / 10) + [Digit(n % 10)];
      assert Padded(n, width) == Padded(n / 10, width - 1) + [Digit(n % 10)];
    }
  }

  lemma {:induction false} FixedRises(n: nat, m: nat, width: nat)
    requires n < m < Pow10(width)
    ensures Text.Less(Fixed(n, width), Fixed(m, width))
    decreases width
  {
    if n / 10 < m / 10 {
      FixedRises(n / 10, m / 10, width - 1);
      Text.LessExtends(Fixed(n / 10, width - 1), Fixed(m / 10, width - 1), [Digit(n % 10)], [Digit(m % 10)]);
    } else {
      Text.LessAfter(Fixed(n / 10, width - 1), [Digit(n % 10)], [Digit(m % 10)]);
    }
  }

  /** The rendered fields: year, month, day, hour, minute, second, and a closing mark. */
  function Fields(fs: seq<nat>, marks: string): string
    requires |fs| == |marks|
    decreases |fs|
  {
    if fs == [] then ""
    else Fixed(fs[0], if |fs| == 6 then 4 else 2) + [marks[0]] + Fields(fs[1..], marks[1..])
  }

  ghost predicate Fit(fs: seq<nat>) {
    |fs| <= 6 && forall i :: 0 <= i < |fs| ==> fs[i] < if |fs| - i == 6 then 10000 else 100
  }

  ghost predicate FieldsBefore(a: seq<nat>, b: seq<nat>)
    requires |a| == |b|
    decreases |a|
  {
    a != [] && (a[0] < b[0] || (a[0] == b[0] && FieldsBefore(a[1..], b[1..])))
  }

  lemma {:induction false} FieldsRise(a: seq<nat>, b: seq<nat>, marks: string)
    requires |a| == |b| == |marks| && Fit(a) && Fit(b) && FieldsBefore(a, b)
    ensures Text.Less(Fields(a, marks), Fields(b, marks))
    decreases |a|
  {
    var width := if |a| == 6 then 4 else 2;
    assert Pow10(2) == 100 && Pow10(4) == 10000;
    var x, y := [marks[0]] + Fields(a[1..], marks[1..]), [marks[0]] + Fields(b[1..], marks[1..]);
    assert Fields(a, marks) == Fixed(a[0], width) + x && Fields(b, marks) == Fixed(b[0], width) + y;
    if a[0] < b[0] {
      FixedRises(a[0], b[0], width);
      Text.LessExtends(Fixed(a[0], width), Fixed(b[0], width), x, y);
    } else {
      FieldsRise(a[1..], b[1..], marks[1..]);
      Text.LessAfter([marks[0]], Fields(a[1..], marks[1..]), Fields(b[1..], marks[1..]));
      Text.LessAfter(Fixed(a[0], width), x, y);
    }
  }

  function FieldsOf(secs: nat): (fs: seq<nat>)
    ensures |fs| == 6
  {
    CivilCorrect(secs / 86400);
    YearFrom1970(secs / 86400);
    var d := CivilFromDays(secs / 86400);
    var rem := secs % 86400;
    [d.year, d.month, d.day, rem / 3600, rem % 3600 / 60, rem % 60]
  }

  lemma YearBelow10000(secs: nat)
    requires secs < YEAR_10000
    ensures CivilFromDays(secs / 86400).year <= 9999
  {
    var d := CivilFromDays(secs / 86400);
    CivilCorrect(secs / 86400);
    hide CivilFromDays, DaysToYear, DaysToMonth, DayNumber, ValidDate;
    WithinYear(d);
    TenThousand(d, 10000);
  }

  lemma TenThousand(d: Date, limit: int)
    requires ValidDate(d) && DayNumber(d) < 2932897 && limit == 10000
    ensures d.year < limit
  {
    hide DaysToYear;
    WithinYear(d);
    YearsClosed(limit);
    if limit < d.year {
      YearsAdd(limit, d.year);
    }
  }

  lemma Fitting(secs: nat)
    requires secs < YEAR_10000
    ensures Fit(FieldsOf(secs))
  {
    CivilCorrect(secs / 86400);
    YearBelow10000(secs);
    hide CivilFromDays, DayNumber;
  }

  lemma SixRendered(fs: seq<nat>)
    requires |fs| == 6 && Fit(fs)
    ensures Fields(fs, "--T::Z") == Padded(fs[0], 4) + "-" + Padded(fs[1], 2) + "-" + Padded(fs[2], 2) + "T"
      + Padded(fs[3], 2) + ":" + Padded(fs[4], 2) + ":" + Padded(fs[5], 2) + "Z"
  {
    hide Padded, Fixed, Fields;
    SixFields(fs, "--T::Z");
    assert Pow10(2) == 100 && Pow10(4) == 10000;
    PaddedFixed(fs[0], 4);
    PaddedFixed(fs[1], 2);
    PaddedFixed(fs[2], 2);
    PaddedFixed(fs[3], 2);
    PaddedFixed(fs[4], 2);
    PaddedFixed(fs[5], 2);
  }

  lemma RenderIsFields(secs: nat)
    requires secs < YEAR_10000
    ensures Fit(FieldsOf(secs)) && RenderRfc3339(secs) == Fields(FieldsOf(secs), "--T::Z")
  {
    Fitting(secs);
    SixRendered(FieldsOf(secs));
    hide CivilFromDays, Padded, Fields;
  }

  lemma SixFields(fs: seq<nat>, marks: string)
    requires |fs| == |marks| == 6
    ensures Fields(fs, marks) == Fixed(fs[0], 4) + [marks[0]] + Fixed(fs[1], 2) + [marks[1]] + Fixed(fs[2], 2)
      + [marks[2]]
      + Fixed(fs[3], 2) + [marks[3]] + Fixed(fs[4], 2) + [marks[4]] + Fixed(fs[5], 2) + [marks[5]]
  {
    hide Fixed;
    assert Fields(fs[6..], marks[6..]) == "";
    assert Fields(fs[5..], marks[5..]) == Fixed(fs[5], 2) + [marks[5]];
    assert Fields(fs[4..], marks[4..]) == Fixed(fs[4], 2) + [marks[4]] + Fields(fs[4..][1..], marks[4..][1..]);
    assert fs[4..][1..] == fs[5..] && marks[4..][1..] == marks[5..];
    assert fs[3..][1..] == fs[4..] && marks[3..][1..] == marks[4..];
    assert fs[2..][1..] == fs[3..] && marks[2..][1..] == marks[3..];
    assert fs[1..][1..] == fs[2..] && marks[1..][1..] == marks[2..];
    assert Fields(fs[3..], marks[3..]) == Fixed(fs[3], 2) + [marks[3]] + Fields(fs[4..], marks[4..]);
    assert Fields(fs[2..], marks[2..]) == Fixed(fs[2], 2) + [marks[2]] + Fields(fs[3..], marks[3..]);
    assert Fields(fs[1..], marks[1..]) == Fixed(fs[1], 2) + [marks[1]] + Fields(fs[2..], marks[2..]);
  }

  lemma DayTime(a: nat, b: nat)
    requires a < b < 86400
    ensures a / 3600 <= b / 3600
    ensures a / 3600 == b / 3600 ==> a % 3600 / 60 <= b % 3600 / 60
    ensures a / 3600 == b / 3600 && a % 3600 / 60 == b % 3600 / 60 ==> a % 60 < b % 60
  {
    Minutes(a);
    Minutes(b);
  }

  lemma Minutes(rem: nat)
    ensures rem == 3600 * (rem / 3600) + 60 * (rem % 3600 / 60) + rem % 60
  {
    QuotientIs(rem, 60, 60 * (rem / 3600) + rem % 3600 / 60, rem % 3600 % 60);
  }

  lemma SixBefore(f: seq<nat>, g: seq<nat>)
    requires |f| == |g| == 6
    requires f[0] < g[0] || (f[0] == g[0] && (f[1] < g[1] || (f[1] == g[1] && (f[2] < g[2] || (f[2] == g[2]
      && (f[3] < g[3] || (f[3] == g[3] && (f[4] < g[4] || (f[4] == g[4] && f[5] < g[5])))))))))
    ensures FieldsBefore(f, g)
  {
    assert f[4..][1..] == f[5..] && g[4..][1..] == g[5..];
    assert f[3..][1..] == f[4..] && g[3..][1..] == g[4..];
    assert f[2..][1..] == f[3..] && g[2..][1..] == g[3..];
    assert f[1..][1..] == f[2..] && g[1..][1..] == g[2..];
    assert FieldsBefore(f[5..], g[5..]) <==> f[5] < g[5];
    assert FieldsBefore(f[4..], g[4..]) <==> f[4] < g[4] || (f[4] == g[4] && FieldsBefore(f[5..], g[5..]));
    assert FieldsBefore(f[3..], g[3..]) <==> f[3] < g[3] || (f[3] == g[3] && FieldsBefore(f[4..], g[4..]));
    assert FieldsBefore(f[2..], g[2..]) <==> f[2] < g[2] || (f[2] == g[2] && FieldsBefore(f[3..], g[3..]));
    assert FieldsBefore(f[1..], g[1..]) <==> f[1] < g[1] || (f[1] == g[1] && FieldsBefore(f[2..], g[2..]));
  }

  lemma DatesFollowDays(a: int, b: int)
    requires a < b
    ensures Before(CivilFromDays(a), CivilFromDays(b))
  {
    CivilCorrect(a);
    CivilCorrect(b);
    var d, e := CivilFromDays(a), CivilFromDays(b);
    hide CivilFromDays;
    if Before(e, d) {
      DayNumberRises(e, d);
    }
  }

  lemma FieldsFollowTime(a: nat, b: nat)
    requires a < b
    ensures FieldsBefore(FieldsOf(a), FieldsOf(b))
  {
    hide CivilFromDays, FieldsBefore, DayNumber, ValidDate;
    if a / 86400 < b / 86400 {
      DatesFollowDays(a / 86400, b / 86400);
    } else {
      DayTime(a % 86400, b % 86400);
    }
    SixBefore(FieldsOf(a), FieldsOf(b));
  }

  /** Through the year 9999, later times are larger texts. */
  lemma RenderRises(a: nat, b: nat)
    requires a < b < YEAR_10000
    ensures Text.Less(RenderRfc3339(a), RenderRfc3339(b))
  {
    RenderIsFields(a);
    RenderIsFields(b);
    FieldsFollowTime(a, b);
    hide RenderRfc3339, FieldsOf, Fields;
    FieldsRise(FieldsOf(a), FieldsOf(b), "--T::Z");
  }

  /** `expired` on rendered times compares the seconds. */
  lemma ExpiredComparesSeconds(at: nat, now: nat)
    requires at < YEAR_10000 && now < YEAR_10000
    ensures Expired(Some(RenderRfc3339(at)), RenderRfc3339(now)) <==> at < now
  {
    hide RenderRfc3339;
    if at < now {
      RenderRises(at, now);
    } else if now < at {
      RenderRises(now, at);
      Text.LessTotal(RenderRfc3339(now), RenderRfc3339(at));
    } else {
      Text.LessTotal(RenderRfc3339(now), RenderRfc3339(at));
    }
  }

  /** One second later the year needs a fifth digit, and the order turns round. */
  lemma OrderTurns()
    ensures Text.Less(RenderRfc3339(YEAR_10000), RenderRfc3339(YEAR_10000 - 1))
  {
    hide RenderRfc3339, DaysToYear, CivilFromDays;
    LastDays();
    FirstDigits();
    hide Digits;
    var last, next := RenderRfc3339(YEAR_10000 - 1), RenderRfc3339(YEAR_10000);
    RenderStarts(YEAR_10000 - 1);
    RenderStarts(YEAR_10000);
    Text.DifferenceAt(next, last, 0);
  }

  /** Comparing the texts is comparing the seconds for all times up to `n` exactly when `n` is
      before the year 10000. */
  lemma TextOrderEndsAtYear10000(n: nat)
    ensures (forall at, now | 0 <= at <= n && 0 <= now <= n ::
      Expired(Some(RenderRfc3339(at)), RenderRfc3339(now)) <==> at < now) <==> n < YEAR_10000
  {
    hide RenderRfc3339;
    if n < YEAR_10000 {
      forall at, now | 0 <= at <= n && 0 <= now <= n
        ensures Expired(Some(RenderRfc3339(at)), RenderRfc3339(now)) <==> at < now
      {
        ExpiredComparesSeconds(at, now);
      }
    } else {
      var next, last := YEAR_10000, YEAR_10000 - 1;
      OrderTurns();
      assert Expired(Some(RenderRfc3339(next)), RenderRfc3339(last));
    }
  }

  lemma RenderStarts(secs: nat)
    requires CivilFromDays(secs / 86400).year >= 0 && |Digits(CivilFromDays(secs / 86400).year)| >= 4
    ensures RenderRfc3339(secs) != "" && RenderRfc3339(secs)[0] == Digits(CivilFromDays(secs / 86400).year)[0]
  {
    hide CivilFromDays, Digits;
  }

  lemma LastDays()
    ensures CivilFromDays(2932896) == Date(9999, 12, 31) && CivilFromDays(2932897) == Date(10000, 1, 1)
  {
    hide DaysToYear, CivilFromDays;
    YearsClosed(9999);
    YearsClosed(10000);
    YearIsItsMonths(9999);
    CivilInverse(Date(9999, 12, 31));
    CivilInverse(Date(10000, 1, 1));
  }

  lemma FirstDigits()
    ensures |Digits(9999)| == 4 && Digits(9999)[0] == '9' && |Digits(10000)| == 5 && Digits(10000)[0] == '1'
  {
    assert Digits(9) == "9" && Digits(99) == "99" && Digits(999) == "999" && Digits(9999) == "9999";
    assert Digits(1) == "1" && Digits(10) == "10" && Digits(100) == "100" && Digits(1000) == "1000";
    assert Digits(10000) == "10000";
  }
}
