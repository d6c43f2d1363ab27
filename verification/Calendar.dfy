/** Day number to calendar date (src/logging.rs, `days_to_civil`). */
module Calendar {
  import opened Division

  datatype Date = Date(y: int, m: int, d: int)

  /** Rust's `/` on i64: truncation toward zero. */
  function TruncDiv(a: int, b: int): int
    requires b > 0
  {
    if a >= 0 then a / b else -((-a) / b)
  }

  // ----- the computation, with the source's u32 values as `nat`: none may underflow

  function Era(z: int): int {
    TruncDiv(if z >= 0 then z else z - 146096, 146097)
  }

  function DayOfEra(z: int): (doe: nat)
    ensures doe < 146097
  {
    z - Era(z) * 146097
  }

  function YearOfEra(doe: nat): nat
    requires doe < 146097
  {
    var a: nat := doe - doe / 1460;
    var b: nat := a + doe / 36524 - doe / 146096;
    b / 365
  }

  function YearStart(yoe: nat): nat {
    365 * yoe + yoe / 4 - yoe / 100
  }

  function DayOfYear(doe: nat): (doy: nat)
    requires doe < 146097
    ensures doy <= 365
  {
    DayInYear(doe);
    doe - YearStart(YearOfEra(doe))
  }

  /** Month and day inside a March-based year, and the calendar year they fall in. */
  function MonthDay(y: int, doy: nat): Date
    requires doy <= 365
  {
    var mp: nat := (5 * doy + 2) / 153;
    var d: nat := doy - (153 * mp + 2) / 5 + 1;
    var m: nat := if mp < 10 then mp + 3 else mp - 9;
    Date(if m <= 2 then y + 1 else y, m, d)
  }

  function Civil(days: int): Date {
    var z := days + 719468;
    MonthDay(YearOfEra(DayOfEra(z)) + Era(z) * 400, DayOfYear(DayOfEra(z)))
  }

  // ----- the reference calendar

  predicate Leap(y: int) {
    y % 4 == 0 && (y % 100 != 0 || y % 400 == 0)
  }

  function DaysInMonth(y: int, m: int): int
    requires 1 <= m <= 12
  {
    if m == 2 then (if Leap(y) then 29 else 28)
    else if m == 4 || m == 6 || m == 9 || m == 11 then 30
    else 31
  }

  predicate ValidDate(t: Date) {
    1 <= t.m <= 12 && 1 <= t.d <= DaysInMonth(t.y, t.m)
  }

  /** The successor of a date in the proleptic Gregorian calendar. */
  function NextDay(t: Date): Date
    requires ValidDate(t)
  {
    if t.d < DaysInMonth(t.y, t.m) then t.(d := t.d + 1)
    else if t.m < 12 then Date(t.y, t.m + 1, 1)
    else Date(t.y + 1, 1, 1)
  }

  // ----- years counted from March

  function YearLength(y: int): int {
    if Leap(y + 1) then 366 else 365
  }

  /** Days from 1 March of year 0 to 1 March of year y. */
  function DaysBefore(y: int): int {
    365 * y + y / 4 - y / 100 + y / 400
  }

  ghost predicate Parts(doe: nat, c: nat, k: nat, j: nat, u: nat) {
    && doe == 36524 * c + 1461 * k + 365 * j + u && c <= 3 && k <= 24 && j <= 4 && u < 365
    && (j == 4 ==> u == 0)
    && (k == 24 && j == 4 ==> doe == 146096 && c == 3)
    && (1461 * k + 365 * j + u < 36524 || doe == 146096)
  }

  /** Split a day of the era into centuries, four-year cycles, years and days. */
  lemma EraParts(doe: nat) returns (c: nat, k: nat, j: nat, u: nat)
    requires doe < 146097
    ensures Parts(doe, c, k, j, u)
  {
    c := if doe == 146096 then 3 else doe / 36524;
    var r := doe - 36524 * c;
    k := r / 1461;
    var t := r % 1461;
    j := t / 365;
    u := t % 365;
  }

  lemma DayInYear(doe: nat)
    requires doe < 146097
    ensures YearStart(YearOfEra(doe)) <= doe <= YearStart(YearOfEra(doe)) + 365
  {
    var c, k, j, u := EraParts(doe);
    YearFromParts(doe, c, k, j, u);
  }

  lemma QuotientParts(doe: nat, c: nat, k: nat, j: nat, u: nat) returns (g: nat)
    requires doe < 146097 && Parts(doe, c, k, j, u)
    ensures doe / 1460 == 25 * c + k + g && doe / 36524 - doe / 146096 == c
    ensures g <= 1 && (g == 1 <==> 24 * c + k + 365 * j + u >= 1460)
  {
    var t := 24 * c + k + 365 * j + u;
    g := if t >= 1460 then 1 else 0;
    Quotient(doe, 1460, 25 * c + k + g, t - 1460 * g);
    var rest := 1461 * k + 365 * j + u;
    if rest < 36524 {
      Quotient(doe, 36524, c, rest);
    }
  }

  /** The year formula undoes the split. */
  lemma YearFromParts(doe: nat, c: nat, k: nat, j: nat, u: nat)
    requires doe < 146097 && Parts(doe, c, k, j, u)
    ensures YearOfEra(doe) == 100 * c + 4 * k + (if j == 4 then 3 else j)
    ensures YearStart(YearOfEra(doe)) == doe - (if j == 4 then 365 else u)
  {
    var g := QuotientParts(doe, c, k, j, u);
    var n := 36500 * c + 1460 * k + 365 * j + u - g;
    assert doe - doe / 1460 + doe / 36524 - doe / 146096 == n;
    var y := 100 * c + 4 * k + (if j == 4 then 3 else j);
    assert 365 * y <= n < 365 * y + 365;
    Quotient(n, 365, y, n - 365 * y);
    Quotient(y, 4, 25 * c + k, if j == 4 then 3 else j);
    Quotient(y, 100, c, 4 * k + if j == 4 then 3 else j);
  }

  /** Every day number lies in exactly the March-based year the computation names. */
  lemma Located(days: int)
    ensures var z := days + 719468;
            var y, doy := YearOfEra(DayOfEra(z)) + Era(z) * 400, DayOfYear(DayOfEra(z));
            z == DaysBefore(y) + doy && doy < YearLength(y)
  {
    var z := days + 719468;
    var doe := DayOfEra(z);
    var c, k, j, u := EraParts(doe);
    YearFromParts(doe, c, k, j, u);
    LocatedInEra(Era(z), doe, c, k, j, u);
  }

  lemma LocatedInEra(era: int, doe: nat, c: nat, k: nat, j: nat, u: nat)
    requires doe < 146097 && Parts(doe, c, k, j, u)
    ensures var y := 100 * c + 4 * k + (if j == 4 then 3 else j) + era * 400;
            var doy := if j == 4 then 365 else u;
            era * 146097 + doe == DaysBefore(y) + doy && doy < YearLength(y)
  {
    var j3 := if j == 4 then 3 else j;
    var y := 100 * c + 4 * k + j3 + era * 400;
    Quotient(y, 4, 25 * c + k + 100 * era, j3);
    Quotient(y, 100, c + 4 * era, 4 * k + j3);
    Quotient(y, 400, era, 100 * c + 4 * k + j3);
    if j == 4 {
      Quotient(y + 1, 4, 25 * c + k + 1 + 100 * era, 0);
      if k < 24 {
        Quotient(y + 1, 100, c + 4 * era, 4 * k + 4);
      } else {
        Quotient(y + 1, 400, era + 1, 0);
      }
    }
  }

  lemma DaysBeforeStep(y: int)
    ensures DaysBefore(y + 1) == DaysBefore(y) + YearLength(y)
  {
    Step4(y);
    Step100(y);
    Step400(y);
    Nested(y + 1);
  }

  lemma Step4(y: int)
    ensures (y + 1) / 4 == y / 4 + if (y + 1) % 4 == 0 then 1 else 0
  {
  }

  lemma Step100(y: int)
    ensures (y + 1) / 100 == y / 100 + if (y + 1) % 100 == 0 then 1 else 0
  {
  }

  lemma Step400(y: int)
    ensures (y + 1) / 400 == y / 400 + if (y + 1) % 400 == 0 then 1 else 0
  {
  }

  lemma Nested(y: int)
    ensures (y % 400 == 0 ==> y % 100 == 0) && (y % 100 == 0 ==> y % 4 == 0)
  {
    var q, p := y / 100, y / 400;
    if y % 100 == 0 {
      Quotient(y, 4, 25 * q, 0);
    }
    if y % 400 == 0 {
      Quotient(y, 100, 4 * p, 0);
    }
  }

  lemma {:induction false} DaysBeforeMonotone(y: int, y': int)
    requires y <= y'
    ensures DaysBefore(y) <= DaysBefore(y')
    decreases y' - y
  {
    if y < y' {
      DaysBeforeMonotone(y, y' - 1);
      DaysBeforeStep(y' - 1);
    }
  }

  lemma LocationUnique(y: int, doy: int, y': int, doy': int)
    requires 0 <= doy < YearLength(y) && 0 <= doy' < YearLength(y')
    requires DaysBefore(y) + doy == DaysBefore(y') + doy'
    ensures y == y' && doy == doy'
  {
    hide DaysBefore, YearLength;
    DaysBeforeStep(y);
    DaysBeforeStep(y');
    if y < y' {
      DaysBeforeMonotone(y + 1, y');
    } else if y' < y {
      DaysBeforeMonotone(y' + 1, y);
    }
  }

  lemma MonthDayNext(y: int, doy: nat)
    requires doy < YearLength(y)
    ensures ValidDate(MonthDay(y, doy))
    ensures NextDay(MonthDay(y, doy)) == if doy + 1 < YearLength(y) then MonthDay(y, doy + 1) else MonthDay(y + 1, 0)
  {
  }

  /** Day 0 is 1970-01-01, every day number maps to a valid date, and the next day number maps
      to the next date of the proleptic Gregorian calendar. */
  lemma CivilCorrect(days: int)
    ensures Civil(0) == Date(1970, 1, 1)
    ensures ValidDate(Civil(days)) && Civil(days + 1) == NextDay(Civil(days))
  {
    hide DaysBefore, YearLength, MonthDay, YearOfEra, DayOfEra, DayOfYear, NextDay;
    var z := days + 719468;
    var y, doy := YearOfEra(DayOfEra(z)) + Era(z) * 400, DayOfYear(DayOfEra(z));
    var y', doy' := YearOfEra(DayOfEra(z + 1)) + Era(z + 1) * 400, DayOfYear(DayOfEra(z + 1));
    Located(days);
    Located(days + 1);
    DaysBeforeStep(y);
    MonthDayNext(y, doy);
    if doy + 1 < YearLength(y) {
      LocationUnique(y, doy + 1, y', doy');
    } else {
      YearNonempty(y + 1);
      LocationUnique(y + 1, 0, y', doy');
    }
    EpochIs1970();
  }

  lemma YearNonempty(y: int)
    ensures YearLength(y) > 0
  {
  }

  lemma EpochIs1970()
    ensures Civil(0) == Date(1970, 1, 1)
  {
  }

  // ----- order of dates and of their text

  predicate Before(s: Date, t: Date) {
    s.y < t.y || (s.y == t.y && (s.m < t.m || (s.m == t.m && s.d < t.d)))
  }

  lemma {:induction false} LaterDayLaterDate(a: int, b: int)
    requires a < b
    ensures Before(Civil(a), Civil(b))
    decreases b - a
  {
    hide Civil;
    CivilCorrect(b - 1);
    if a < b - 1 {
      LaterDayLaterDate(a, b - 1);
    }
  }

  /** Dates are ordered like day numbers. */
  lemma DayOrderIsDateOrder(a: int, b: int)
    ensures a < b <==> Before(Civil(a), Civil(b))
    ensures Civil(a) == Civil(b) ==> a == b
  {
    hide Civil;
    if a < b {
      LaterDayLaterDate(a, b);
    } else if b < a {
      LaterDayLaterDate(b, a);
    }
  }

  /** Byte-wise string comparison. */
  predicate LexLess(s: string, t: string) {
    if t == [] then false
    else if s == [] then true
    else s[0] < t[0] || (s[0] == t[0] && LexLess(s[1..], t[1..]))
  }

  lemma {:induction false} LexConcat(a: string, x: string, b: string, y: string)
    requires |a| == |b|
    ensures LexLess(a + x, b + y) <==> LexLess(a, b) || (a == b && LexLess(x, y))
  {
    if a == [] {
      assert a + x == x && b + y == y;
    } else {
      LexConcat(a[1..], x, b[1..], y);
      assert (a + x)[1..] == a[1..] + x && (b + y)[1..] == b[1..] + y;
      assert a == [a[0]] + a[1..] && b == [b[0]] + b[1..];
    }
  }

  function Pow10(w: nat): nat {
    if w == 0 then 1 else 10 * Pow10(w - 1)
  }

  function DigitChar(n: nat): char
    requires n < 10
  {
    '0' + n as char
  }

  /** Zero-padded decimal of fixed width. */
  function Digits(n: nat, w: nat): (s: string)
    ensures |s| == w
  {
    if w == 0 then "" else Digits(n / 10, w - 1) + [DigitChar(n % 10)]
  }

  lemma {:induction false} DigitsOrder(n: nat, k: nat, w: nat)
    requires n < Pow10(w) && k < Pow10(w)
    ensures LexLess(Digits(n, w), Digits(k, w)) <==> n < k
    ensures Digits(n, w) == Digits(k, w) <==> n == k
  {
    if w > 0 {
      var a, b := Digits(n / 10, w - 1), Digits(k / 10, w - 1);
      var x, y := DigitChar(n % 10), DigitChar(k % 10);
      DigitsOrder(n / 10, k / 10, w - 1);
      LexConcat(a, [x], b, [y]);
      assert LexLess([x], [y]) <==> n % 10 < k % 10;
      assert (a + [x])[..w - 1] == a && (b + [y])[..w - 1] == b;
      assert (a + [x])[w - 1] == x && (b + [y])[w - 1] == y;
    }
  }

  /** YYYY-MM-DD, the full-date of section 5.6 of RFC 3339. */
  function Format(t: Date): string
    requires 0 <= t.y <= 9999 && ValidDate(t)
  {
    Digits(t.y, 4) + ("-" + (Digits(t.m, 2) + ("-" + Digits(t.d, 2))))
  }

  lemma FormatOrder(s: Date, t: Date)
    requires 0 <= s.y <= 9999 && ValidDate(s) && 0 <= t.y <= 9999 && ValidDate(t)
    ensures LexLess(Format(s), Format(t)) <==> Before(s, t)
  {
    assert Pow10(2) == 100 && Pow10(4) == 100 * Pow10(2);
    DigitsOrder(s.y, t.y, 4);
    DigitsOrder(s.m, t.m, 2);
    DigitsOrder(s.d, t.d, 2);
    hide Digits, LexLess;
    DashKeepsOrder(Digits(s.d, 2), Digits(t.d, 2));
    var sd, td := "-" + Digits(s.d, 2), "-" + Digits(t.d, 2);
    LexConcat(Digits(s.m, 2), sd, Digits(t.m, 2), td);
    DashKeepsOrder(Digits(s.m, 2) + sd, Digits(t.m, 2) + td);
    LexConcat(Digits(s.y, 4), "-" + (Digits(s.m, 2) + sd), Digits(t.y, 4), "-" + (Digits(t.m, 2) + td));
  }

  lemma DashKeepsOrder(a: string, b: string)
    ensures LexLess("-" + a, "-" + b) <==> LexLess(a, b)
  {
    assert ("-" + a)[1..] == a && ("-" + b)[1..] == b;
  }

  /** For days in years 0 to 9999 the text order of file dates is the day order, so a log file
      is purged exactly when its day precedes the cutoff day. */
  lemma TextOrderIsDayOrder(a: int, b: int)
    requires 0 <= Civil(a).y <= 9999 && 0 <= Civil(b).y <= 9999
    ensures ValidDate(Civil(a)) && ValidDate(Civil(b))
    ensures LexLess(Format(Civil(a)), Format(Civil(b))) <==> a < b
  {
    hide Civil, Format;
    CivilCorrect(a);
    CivilCorrect(b);
    FormatOrder(Civil(a), Civil(b));
    DayOrderIsDateOrder(a, b);
  }

  // ----- the text of a date

  predicate IsDigit(c: char) {
    '0' <= c <= '9'
  }

  /** The number a string of decimal digits stands for. */
  function Value(s: string): int {
    if s == [] then 0 else Value(s[..|s| - 1]) * 10 + (s[|s| - 1] as int - '0' as int)
  }

  lemma {:induction false} DigitsValue(n: nat, w: nat)
    requires n < Pow10(w)
    ensures Value(Digits(n, w)) == n && forall i :: 0 <= i < w ==> IsDigit(Digits(n, w)[i])
  {
    if w > 0 {
      DigitsValue(n / 10, w - 1);
      assert Digits(n, w)[..w - 1] == Digits(n / 10, w - 1);
    }
  }

  lemma FormatParts(t: Date)
    requires 0 <= t.y <= 9999 && ValidDate(t)
    ensures var s := Format(t);
            && |s| == 10 && s[4] == '-' && s[7] == '-'
            && s[..4] == Digits(t.y, 4) && s[5..7] == Digits(t.m, 2) && s[8..] == Digits(t.d, 2)
  {
    hide Digits, DaysInMonth;
  }

  /** The text is YYYY-MM-DD: ten characters, dashes after the year and the month, and the decimal
      digits of year, month and day between them. */
  lemma FormatLaw(t: Date)
    requires 0 <= t.y <= 9999 && ValidDate(t)
    ensures var s := Format(t);
            && |s| == 10 && s[4] == '-' && s[7] == '-'
            && (forall i :: 0 <= i < 4 ==> IsDigit(s[..4][i]))
            && (forall i :: 0 <= i < 2 ==> IsDigit(s[5..7][i]) && IsDigit(s[8..][i]))
            && Value(s[..4]) == t.y && Value(s[5..7]) == t.m && Value(s[8..]) == t.d
  {
    assert Pow10(2) == 100 && Pow10(4) == 100 * Pow10(2);
    FormatParts(t);
    DigitsValue(t.y, 4);
    DigitsValue(t.m, 2);
    DigitsValue(t.d, 2);
    hide Digits, Value, Format;
  }
}
