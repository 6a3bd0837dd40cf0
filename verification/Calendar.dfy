/** Day numbers and dates of the proleptic Gregorian calendar: `days_from_civil` and its callers
    (xtask/src/check_ignored_tests.rs) and `civil_from_unix_days` (xtask/src/ecosystem_compat.rs). */
module Calendar {
  import opened Wrappers
  import opened Text
  import opened Numbers

  datatype Date = Date(year: int, month: int, day: int)

  // ----- the two conversions -----

  /** Division that truncates toward zero. */
  function TruncDiv(a: int, b: int): int
    requires b > 0
  {
    if a >= 0 then a / b else -((-a) / b)
  }

  function DaysFromCivil(d: Date): int {
    var year := if d.month <= 2 then d.year - 1 else d.year;
    var era := TruncDiv(if year >= 0 then year else year - 399, 400);
    var yoe := year - era * 400;
    var doy := TruncDiv(153 * (d.month + if d.month > 2 then -3 else 9) + 2, 5) + d.day - 1;
    var doe := yoe * 365 + TruncDiv(yoe, 4) - TruncDiv(yoe, 100) + doy;
    era * 146097 + doe - 719468
  }

  /** Unsigned steps are typed `nat`, so that none of them can go below zero. */
  function CivilFromUnixDays(days: int): Date {
    var z := days + 719468;
    var era := z / 146097;
    var doe: nat := z - era * 146097;
    YearOfEraBounds(doe);
    var yoe: nat := YearOfEra(doe);
    var doy: nat := doe - DaysBefore(yoe);
    MonthBounds(doy);
    var mp: nat := (5 * doy + 2) / 153;
    var d: nat := doy - (153 * mp + 2) / 5 + 1;
    var m: nat := if mp < 10 then mp + 3 else mp - 9;
    var y := yoe + era * 400;
    Date(if m <= 2 then y + 1 else y, m, d)
  }

  function YearOfEra(doe: nat): nat { (doe - doe / 1460 + doe / 36524 - doe / 146096) / 365 }

  /** Days of the era before its n-th year, years starting on the first of March. */
  function DaysBefore(n: nat): nat { 365 * n + n / 4 - n / 100 }

  function MonthStart(mp: nat): nat { (153 * mp + 2) / 5 }

  // ----- the calendar -----

  predicate Leap(year: int) { year % 4 == 0 && (year % 100 != 0 || year % 400 == 0) }

  function DaysInMonth(year: int, month: int): int {
    if month == 2 then (if Leap(year) then 29 else 28)
    else if month == 4 || month == 6 || month == 9 || month == 11 then 30
    else 31
  }

  predicate Valid(d: Date) { 1 <= d.month <= 12 && 1 <= d.day <= DaysInMonth(d.year, d.month) }

  /** The day after a date. */
  function Successor(d: Date): Date {
    if d.day < DaysInMonth(d.year, d.month) then Date(d.year, d.month, d.day + 1)
    else if d.month < 12 then Date(d.year, d.month + 1, 1)
    else Date(d.year + 1, 1, 1)
  }

  predicate Earlier(a: Date, b: Date) {
    a.year < b.year || (a.year == b.year && (a.month < b.month || (a.month == b.month && a.day < b.day)))
  }

  // ----- years from March -----

  function MarchYear(d: Date): int { if d.month <= 2 then d.year - 1 else d.year }

  function MarchMonth(d: Date): int { if d.month <= 2 then d.month + 9 else d.month - 3 }

  /** Days of a year from March to the end of the next February. */
  function MarchYearLength(year: int): nat { if Leap(year + 1) then 366 else 365 }

  function DaysBeforeYear(year: int): int { year / 400 * 146097 + DaysBefore(year % 400) - 719468 }

  function DayOfYear(d: Date): int
    requires 1 <= d.month <= 12
  {
    MonthStart(MarchMonth(d)) + d.day - 1
  }

  lemma EraOf(year: int)
    ensures TruncDiv(if year >= 0 then year else year - 399, 400) == year / 400
  {
  }

  lemma DaysFromCivilIs(d: Date)
    requires 1 <= d.month <= 12
    ensures DaysFromCivil(d) == DaysBeforeYear(MarchYear(d)) + DayOfYear(d)
  {
    EraOf(MarchYear(d));
  }

  lemma NextYear(year: int)
    ensures DaysBeforeYear(year + 1) == DaysBeforeYear(year) + MarchYearLength(year)
  {
    var e, n := year / 400, year % 400;
    LeapOfEra(e, n + 1);
    NextInEra(n);
    if n == 399 {
      assert (year + 1) / 400 == e + 1 && (year + 1) % 400 == 0;
    } else {
      assert (year + 1) / 400 == e && (year + 1) % 400 == n + 1;
    }
  }

  lemma NextInEra(n: nat)
    requires n < 400
    ensures DaysBefore(n) + MarchYearLength(n) == if n == 399 then 146097 else DaysBefore(n + 1)
  {
  }

  lemma LeapOfEra(e: int, n: int)
    ensures Leap(400 * e + n) == Leap(n)
  {
    By4(100 * e, n);
    By100(4 * e, n);
    By400(e, n);
    assert 4 * (100 * e) == 400 * e == 100 * (4 * e);
  }

  lemma By4(k: int, n: int)
    ensures (4 * k + n) % 4 == n % 4
  {
    assert 4 * k + n == 4 * (k + n / 4) + n % 4;
  }

  lemma By100(k: int, n: int)
    ensures (100 * k + n) % 100 == n % 100
  {
    assert 100 * k + n == 100 * (k + n / 100) + n % 100;
  }

  lemma By400(k: int, n: int)
    ensures (400 * k + n) % 400 == n % 400
  {
    assert 400 * k + n == 400 * (k + n / 400) + n % 400;
  }

  lemma {:induction false} YearsRise(a: int, b: int)
    requires a <= b
    ensures DaysBeforeYear(a) <= DaysBeforeYear(b)
    ensures a < b ==> DaysBeforeYear(a) + MarchYearLength(a) <= DaysBeforeYear(b)
    decreases b - a
  {
    if a < b {
      NextYear(a);
      YearsRise(a + 1, b);
    }
  }

  lemma DayOfYearBounds(d: Date)
    requires Valid(d)
    ensures 0 <= DayOfYear(d) < MarchYearLength(MarchYear(d))
  {
  }

  // ----- the formulas -----

  /** A year of the era and a day of that year, from the day of the era. */
  lemma YearOfEraIs(c: nat, q: nat, r: nat, doy: nat)
    requires c < 4 && q < 25 && r < 4
    requires doy < 365 || (doy == 365 && r == 3 && (q < 24 || c == 3))
    ensures YearOfEra(36524 * c + 1461 * q + 365 * r + doy) == 100 * c + 4 * q + r
  {
    var doe := 36524 * c + 1461 * q + 365 * r + doy;
    var t := 24 * c + q + 365 * r + doy;
    assert doe == 1460 * (25 * c + q) + t;
    var e := if t >= 1460 then 1 else 0;
    assert doe / 1460 == 25 * c + q + e;
    assert doe / 36524 - doe / 146096 == c;
    assert doe - doe / 1460 + doe / 36524 - doe / 146096 == 365 * (100 * c + 4 * q + r) + doy - e;
    assert 0 <= doy - e < 365;
  }

  lemma DaysBeforeIs(c: nat, q: nat, r: nat)
    requires c < 4 && q < 25 && r < 4
    ensures DaysBefore(100 * c + 4 * q + r) == 36524 * c + 1461 * q + 365 * r
  {
  }

  /** Every day of an era lies in one of its years. */
  lemma EraParts(doe: nat) returns (c: nat, q: nat, r: nat, doy: nat)
    requires doe < 146097
    ensures c < 4 && q < 25 && r < 4 && doe == 36524 * c + 1461 * q + 365 * r + doy
    ensures doy < 365 || (doy == 365 && r == 3 && (q < 24 || c == 3))
  {
    c := if doe == 146096 then 3 else doe / 36524;
    var inCentury := doe - 36524 * c;
    q := inCentury / 1461;
    var inFour := inCentury - 1461 * q;
    r := if inFour == 1460 then 3 else inFour / 365;
    doy := inFour - 365 * r;
  }

  lemma YearOfEraBounds(doe: nat)
    requires doe < 146097
    ensures YearOfEra(doe) < 400 && DaysBefore(YearOfEra(doe)) <= doe
    ensures doe < DaysBefore(YearOfEra(doe)) + MarchYearLength(YearOfEra(doe))
    ensures MarchYearLength(YearOfEra(doe)) <= 366
  {
    var c, q, r, doy := EraParts(doe);
    YearOfEraIs(c, q, r, doy);
    DaysBeforeIs(c, q, r);
  }

  /** Every day of a year from March lies in one of its months. */
  lemma MonthBounds(doy: nat)
    requires doy < 366
    ensures var mp := (5 * doy + 2) / 153; mp < 12 && MonthStart(mp) <= doy && (mp < 11 ==> doy < MonthStart(mp + 1))
  {
  }

  /** The month is found back from the day of the year. */
  lemma MonthIs(mp: nat, d: nat)
    requires mp < 12 && MonthStart(mp) + d < (if mp == 11 then 366 else MonthStart(mp + 1))
    ensures (5 * (MonthStart(mp) + d) + 2) / 153 == mp
  {
  }

  // ----- bijection -----

  lemma EraShift(e: int, n: int)
    ensures MarchYearLength(400 * e + n) == MarchYearLength(n)
  {
    LeapOfEra(e, n + 1);
  }

  /** Every day number is a date, and the date's day number is the number: no day is lost or met twice. */
  lemma DaysOfCivil(days: int)
    ensures Valid(CivilFromUnixDays(days)) && DaysFromCivil(CivilFromUnixDays(days)) == days
  {
    var z := days + 719468;
    var era, doe := z / 146097, z % 146097;
    YearOfEraBounds(doe);
    var yoe := YearOfEra(doe);
    var doy := doe - DaysBefore(yoe);
    CivilFound(days, era, yoe, doy);
    PartsValid(era, yoe, doy);
    NumberOfParts(FromParts(era, yoe, doy), era, yoe, doy);
  }

  lemma NumberOfParts(d: Date, e: int, n: nat, doy: nat)
    requires Valid(d) && MarchYear(d) / 400 == e && MarchYear(d) % 400 == n && DayOfYear(d) == doy
    ensures DaysFromCivil(d) == e * 146097 + (DaysBefore(n) + doy) - 719468
  {
    DaysFromCivilIs(d);
  }

  lemma PartsValid(e: int, n: nat, doy: nat)
    requires n < 400 && doy < MarchYearLength(n)
    ensures var d := FromParts(e, n, doy);
            Valid(d) && MarchYear(d) / 400 == e && MarchYear(d) % 400 == n && DayOfYear(d) == doy
  {
    var d := FromParts(e, n, doy);
    MonthBounds(doy);
    EraShift(e, n);
    assert MarchYear(d) == 400 * e + n;
    MonthsValid(d, doy, MarchYear(d));
  }

  lemma MonthsValid(d: Date, doy: nat, y: int)
    requires 1 <= d.month <= 12 && MarchYear(d) == y && DayOfYear(d) == doy && d.day >= 1
    requires doy < MarchYearLength(y) && (MarchMonth(d) < 11 ==> doy < MonthStart(MarchMonth(d) + 1))
    ensures Valid(d)
  {
  }

  /** The converse, negative years included. */
  lemma CivilOfDays(d: Date)
    requires Valid(d)
    ensures CivilFromUnixDays(DaysFromCivil(d)) == d
  {
    DaysFromCivilIs(d);
    DayOfYearBounds(d);
    var y := MarchYear(d);
    var e, n, doy := y / 400, y % 400, DayOfYear(d);
    EraShift(e, n);
    CivilFound(DaysFromCivil(d), e, n, doy);
    MonthFound(d);
  }

  /** The date of a day given by its era, year of the era and day of the year. */
  function FromParts(e: int, n: nat, doy: nat): Date {
    var mp := (5 * doy + 2) / 153;
    var m := if mp < 10 then mp + 3 else mp - 9;
    Date(if m <= 2 then n + e * 400 + 1 else n + e * 400, m, doy - MonthStart(mp) + 1)
  }

  lemma CivilFound(days: int, e: int, n: nat, doy: nat)
    requires n < 400 && doy < MarchYearLength(n) && days + 719468 == e * 146097 + (DaysBefore(n) + doy)
    ensures CivilFromUnixDays(days) == FromParts(e, n, doy)
  {
    YearFound(n, doy);
    DivModIs(e, DaysBefore(n) + doy);
  }

  lemma MonthFound(d: Date)
    requires Valid(d)
    ensures DayOfYear(d) >= 0 && FromParts(MarchYear(d) / 400, MarchYear(d) % 400, DayOfYear(d)) == d
  {
    DayOfYearBounds(d);
    MonthIs(MarchMonth(d), d.day - 1);
  }

  lemma DivModIs(e: int, doe: nat)
    requires doe < 146097
    ensures (e * 146097 + doe) / 146097 == e && (e * 146097 + doe) % 146097 == doe
  {
  }

  lemma YearFound(n: nat, doy: nat)
    requires n < 400 && doy < MarchYearLength(n)
    ensures DaysBefore(n) + doy < 146097 && YearOfEra(DaysBefore(n) + doy) == n
  {
    var c, q, r := n / 100, n % 100 / 4, n % 4;
    assert n == 100 * c + 4 * q + r;
    DaysBeforeIs(c, q, r);
    YearOfEraIs(c, q, r, doy);
  }

  // ----- order -----

  lemma EpochNumber()
    ensures DaysFromCivil(Date(1970, 1, 1)) == 0
  {
    DaysFromCivilIs(Date(1970, 1, 1));
    assert DaysBeforeYear(1969) == 1969 / 400 * 146097 + DaysBefore(369) - 719468;
  }

  lemma EpochIsZero()
    ensures DaysFromCivil(Date(1970, 1, 1)) == 0 && CivilFromUnixDays(0) == Date(1970, 1, 1)
  {
    EpochNumber();
    var epoch := Date(1970, 1, 1);
    CivilOfDays(epoch);
  }

  /** The next day, counted from March: one more, or the first day of the next year. */
  lemma SuccessorDay(d: Date)
    requires Valid(d)
    ensures Valid(Successor(d))
    ensures || (MarchYear(Successor(d)) == MarchYear(d) && DayOfYear(Successor(d)) == DayOfYear(d) + 1)
            || (MarchYear(Successor(d)) == MarchYear(d) + 1 && DayOfYear(Successor(d)) == 0
                && DayOfYear(d) + 1 == MarchYearLength(MarchYear(d)))
  {
  }

  /** The numbers follow the calendar one day at a time. */
  lemma SuccessorIsNext(d: Date)
    requires Valid(d)
    ensures Valid(Successor(d)) && DaysFromCivil(Successor(d)) == DaysFromCivil(d) + 1
  {
    SuccessorDay(d);
    DaysFromCivilIs(d);
    DaysFromCivilIs(Successor(d));
    NextYear(MarchYear(d));
  }

  lemma EarlierIsLess(a: Date, b: Date)
    requires Valid(a) && Valid(b) && Earlier(a, b)
    ensures DaysFromCivil(a) < DaysFromCivil(b)
  {
    EarlierFromMarch(a, b);
    DaysFromCivilIs(a);
    DaysFromCivilIs(b);
    DayOfYearBounds(a);
    DayOfYearBounds(b);
    YearsRise(MarchYear(a), MarchYear(b));
  }

  lemma EarlierFromMarch(a: Date, b: Date)
    requires Valid(a) && Valid(b) && Earlier(a, b)
    ensures MarchYear(a) < MarchYear(b) || (MarchYear(a) == MarchYear(b) && DayOfYear(a) < DayOfYear(b))
  {
  }

  /** Day numbers compare as dates do. */
  lemma OrderIsLexicographic(a: Date, b: Date)
    requires Valid(a) && Valid(b)
    ensures DaysFromCivil(a) < DaysFromCivil(b) <==> Earlier(a, b)
  {
    if Earlier(a, b) {
      EarlierIsLess(a, b);
    } else if Earlier(b, a) {
      EarlierIsLess(b, a);
    }
  }

  // ----- expiry dates -----

  /** What `day_number_from_ymd` lets through: any day up to 31 in any month. */
  predicate Accepted(d: Date) { 1 <= d.month <= 12 && 1 <= d.day <= 31 }

  function DayNumberFromYmd(date: string): Option<int> {
    var parts := Split(date, '-');
    if |parts| != 3 then None
    else
      var year, month, day := ParseInt(parts[0]), ParseInt(parts[1]), ParseInt(parts[2]);
      if year.None? || month.None? || day.None? then None
      else
        var d := Date(year.value, month.value, day.value);
        if Accepted(d) then Some(DaysFromCivil(d)) else None
  }

  /** A target has not expired today: the test of the source, and the one on dates. */
  predicate Current(target: Date, today: int) { DaysFromCivil(target) >= today }

  predicate NotPassed(target: Date, today: int) { !Earlier(target, CivilFromUnixDays(today)) }

  lemma ValidTargets(target: Date, today: int)
    requires Valid(target)
    ensures Current(target, today) <==> NotPassed(target, today)
  {
    DaysOfCivil(today);
    OrderIsLexicographic(target, CivilFromUnixDays(today));
  }

  /** The first day after a month. */
  function NextMonth(d: Date): Date { if d.month < 12 then Date(d.year, d.month + 1, 1) else Date(d.year + 1, 1, 1) }

  lemma PastTheMonth(d: Date)
    requires Accepted(d) && !Valid(d)
    ensures Valid(NextMonth(d)) && Earlier(d, NextMonth(d)) && DaysFromCivil(d) >= DaysFromCivil(NextMonth(d))
  {
    var last := Date(d.year, d.month, DaysInMonth(d.year, d.month));
    SuccessorIsNext(last);
    DaysFromCivilIs(d);
    DaysFromCivilIs(last);
  }

  /** The expiry test is date order exactly for dates that exist; 31 February is taken and expires late. */
  lemma ExpiryIsDateOrder(target: Date)
    requires Accepted(target)
    ensures (forall today :: Current(target, today) <==> NotPassed(target, today)) <==> Valid(target)
  {
    if Valid(target) {
      forall today ensures Current(target, today) <==> NotPassed(target, today) { ValidTargets(target, today); }
    } else {
      PastTheMonth(target);
      var today := DaysFromCivil(NextMonth(target));
      CivilOfDays(NextMonth(target));
      assert Current(target, today) && !NotPassed(target, today);
    }
  }

  // ----- printed times -----

  datatype Stamp = Stamp(date: Date, hour: nat, minute: nat, second: nat, millis: nat)

  const TWO_63 := 0x8000_0000_0000_0000

  /** `as i64`. */
  function WrapI64(n: int): int {
    var low := n % (2 * TWO_63);
    if low < TWO_63 then low else low - 2 * TWO_63
  }

  function StampOf(unixMs: nat): Stamp {
    var total := WrapI64(unixMs / 1000);
    var ofDay := total % 86400;
    Stamp(CivilFromUnixDays(total / 86400), ofDay / 3600, ofDay % 3600 / 60, ofDay % 60, unixMs % 1000)
  }

  function Recompose(t: Stamp): int {
    (DaysFromCivil(t.date) * 86400 + t.hour * 3600 + t.minute * 60 + t.second) * 1000 + t.millis
  }

  lemma ClockParts(ofDay: nat)
    ensures ofDay / 3600 * 3600 + ofDay % 3600 / 60 * 60 + ofDay % 60 == ofDay
  {
  }

  lemma WrapKeeps(n: nat)
    ensures WrapI64(n) == n <==> n < TWO_63
  {
  }

  lemma RecomposeIs(date: Date, total: int, ms: nat)
    requires DaysFromCivil(date) == total / 86400
    ensures var ofDay := total % 86400;
            Recompose(Stamp(date, ofDay / 3600, ofDay % 3600 / 60, ofDay % 60, ms)) == total * 1000 + ms
  {
    ClockParts(total % 86400);
  }

  /** Every field is in range; together they are the time exactly when its seconds fit in 63 bits. */
  lemma StampRecomposes(unixMs: nat)
    ensures var t := StampOf(unixMs);
            && Valid(t.date) && t.hour < 24 && t.minute < 60 && t.second < 60 && t.millis < 1000
            && (Recompose(t) == unixMs <==> unixMs / 1000 < TWO_63)
  {
    var total := WrapI64(unixMs / 1000);
    DaysOfCivil(total / 86400);
    RecomposeIs(CivilFromUnixDays(total / 86400), total, unixMs % 1000);
    WrapKeeps(unixMs / 1000);
  }

  // ----- printed dates -----

  function Zeros(n: nat): string { if n == 0 then "" else "0" + Zeros(n - 1) }

  function PadTo(s: string, width: nat): string { if |s| >= width then s else Zeros(width - |s|) + s }

  /** `{:0w}`: the sign counts toward the width. */
  function Padded(n: int, width: nat): string
    requires width > 0
  {
    if n < 0 then "-" + PadTo(Decimal(-n), width - 1) else PadTo(Decimal(n), width)
  }

  function DateText(d: Date): string { Padded(d.year, 4) + "-" + (Padded(d.month, 2) + "-" + Padded(d.day, 2)) }

  lemma {:induction false} ZerosValue(n: nat, s: string)
    requires AllDigits(s)
    ensures AllDigits(Zeros(n) + s) && DigitsValue(Zeros(n) + s) == DigitsValue(s)
    decreases n
  {
    if n == 0 {
      assert Zeros(n) + s == s;
    } else {
      ZerosValue(n - 1, s);
      LeadingZero(Zeros(n - 1) + s);
      ZerosCons(n, s);
    }
  }

  lemma ZerosCons(n: nat, s: string)
    requires n > 0
    ensures Zeros(n) + s == "0" + (Zeros(n - 1) + s)
  {
  }

  lemma {:induction false} LeadingZero(s: string)
    requires AllDigits(s)
    ensures AllDigits("0" + s) && DigitsValue("0" + s) == DigitsValue(s)
    decreases |s|
  {
    var z := "0" + s;
    if |s| == 1 {
      assert z[..1] == "0" && "0"[..0] == [] && s[..0] == [];
    } else {
      var front := s[..|s| - 1];
      LeadingZero(front);
      assert z[..|z| - 1] == "0" + front;
    }
  }

  lemma PaddedReads(n: nat, width: nat)
    requires width > 0 && n <= I64_MAX
    ensures AllDigits(Padded(n, width)) && ParseInt(Padded(n, width)) == Some(n)
  {
    var s := Decimal(n);
    DecimalValue(n);
    if |s| < width { ZerosValue(width - |s|, s); }
    assert IsDigit(Padded(n, width)[0]);
  }

  lemma SplitDate(y: string, m: string, d: string)
    requires AllDigits(y) && AllDigits(m) && AllDigits(d)
    ensures Split(y + "-" + (m + "-" + d), '-') == [y, m, d]
  {
    SplitAround(y, m + "-" + d, '-');
    SplitAround(m, d, '-');
    SplitNone(y, '-');
    SplitNone(m, '-');
    SplitNone(d, '-');
  }

  // ----- the forms of dates -----

  lemma {:induction false} ZerosLength(n: nat)
    ensures |Zeros(n)| == n
  {
    if n > 0 { ZerosLength(n - 1); }
  }

  lemma DecimalWidth(n: nat)
    ensures |Decimal(n)| <= 2 <==> n < 100
    ensures |Decimal(n)| <= 4 <==> n < 10000
  {
    TwoDigits(n);
    TwoDigits(n / 100);
  }

  lemma TwoDigits(n: nat)
    ensures |Decimal(n)| == if n < 10 then 1 else if n < 100 then 2 else 2 + |Decimal(n / 100)|
  {
    assert n / 10 / 10 == n / 100;
  }

  lemma PaddedWidth(n: nat, width: nat)
    requires width > 0
    ensures |Padded(n, width)| == if |Decimal(n)| >= width then |Decimal(n)| else width
  {
    if |Decimal(n)| < width { ZerosLength(width - |Decimal(n)|); }
  }

  /** Dates of four-digit years are printed in ten characters, as section 5.6 of RFC 3339 writes them. */
  lemma DateTextShape(d: Date)
    requires Valid(d) && 0 <= d.year <= 9999
    ensures var t := DateText(d);
            |t| == 10 && t[4] == '-' && t[7] == '-' && forall i :: 0 <= i < 10 && i != 4 && i != 7 ==> IsDigit(t[i])
  {
    DecimalWidth(d.year);
    DecimalWidth(d.month);
    DecimalWidth(d.day);
    PaddedWidth(d.year, 4);
    PaddedWidth(d.month, 2);
    PaddedWidth(d.day, 2);
    PaddedReads(d.year, 4);
    PaddedReads(d.month, 2);
    PaddedReads(d.day, 2);
    var y, m, n := Padded(d.year, 4), Padded(d.month, 2), Padded(d.day, 2);
    assert DateText(d) == y + "-" + m + "-" + n;
  }

  /** Three integers with dashes between them, a month and a day of some month. */
  ghost predicate IsYmd(s: string, y: string, m: string, d: string) {
    && s == y + "-" + m + "-" + d && '-' !in y && '-' !in m && '-' !in d
    && ParseInt(y).Some? && ParseInt(m).Some? && 1 <= ParseInt(m).value <= 12
    && ParseInt(d).Some? && 1 <= ParseInt(d).value <= 31
  }

  lemma JoinThree(a: string, b: string, c: string)
    ensures Join([a, b, c], "-") == a + "-" + b + "-" + c
  {
    assert [a, b, c][1..] == [b, c] && [b, c][1..] == [c];
    assert Join([b, c], "-") == b + "-" + c;
    assert a + "-" + (b + "-" + c) == a + "-" + b + "-" + c;
  }

  /** The expiry check reads exactly such texts, as the day they name. */
  lemma YmdIsRead(s: string)
    ensures DayNumberFromYmd(s).Some? <==> exists y, m, d :: IsYmd(s, y, m, d)
    ensures forall y, m, d :: IsYmd(s, y, m, d) ==>
              DayNumberFromYmd(s) == Some(DaysFromCivil(Date(ParseInt(y).value, ParseInt(m).value, ParseInt(d).value)))
  {
    if DayNumberFromYmd(s).Some? {
      var parts := Split(s, '-');
      SplitBack(s, '-');
      assert parts == [parts[0], parts[1], parts[2]];
      JoinThree(parts[0], parts[1], parts[2]);
      assert IsYmd(s, parts[0], parts[1], parts[2]);
    }
    forall y, m, d | IsYmd(s, y, m, d)
      ensures DayNumberFromYmd(s) == Some(DaysFromCivil(Date(ParseInt(y).value, ParseInt(m).value, ParseInt(d).value)))
    {
      YmdSplits(y, m, d);
    }
  }

  lemma YmdSplits(y: string, m: string, d: string)
    requires '-' !in y && '-' !in m && '-' !in d
    ensures Split(y + "-" + m + "-" + d, '-') == [y, m, d]
  {
    SplitAround(y + "-" + m, d, '-');
    SplitAround(y, m, '-');
    SplitNone(y, '-');
    SplitNone(m, '-');
    SplitNone(d, '-');
  }

  lemma NegativeYear(d: Date)
    requires d.year < 0
    ensures DayNumberFromYmd(DateText(d)) == None
  {
    var text := DateText(d);
    assert text[0] == '-';
    assert Split(text, '-')[0] == "";
  }

  lemma PositiveYear(d: Date)
    requires Valid(d) && 0 <= d.year <= I64_MAX
    ensures DayNumberFromYmd(DateText(d)) == Some(DaysFromCivil(d))
  {
    PaddedReads(d.year, 4);
    PaddedReads(d.month, 2);
    PaddedReads(d.day, 2);
    SplitDate(Padded(d.year, 4), Padded(d.month, 2), Padded(d.day, 2));
  }

  /** A printed date is read back as the day it was printed for, except before the year 0. */
  lemma PrintedDateReads(days: int)
    requires CivilFromUnixDays(days).year <= I64_MAX
    ensures DayNumberFromYmd(DateText(CivilFromUnixDays(days))) == Some(days) <==> CivilFromUnixDays(days).year >= 0
  {
    var d := CivilFromUnixDays(days);
    DaysOfCivil(days);
    if d.year < 0 { NegativeYear(d); } else { PositiveYear(d); }
  }
}
