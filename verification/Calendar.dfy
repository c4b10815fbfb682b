/** Days to civil dates, and the fixed-width timestamps the log carries. */
module Calendar {
  import opened Text

  // ----- The proleptic Gregorian calendar, by its rules

  datatype Date = Date(y: int, m: int, d: int)

  predicate Leap(y: int) {
    y % 4 == 0 && (y % 100 != 0 || y % 400 == 0)
  }

  function MonthLength(y: int, m: int): int {
    if m == 2 then (if Leap(y) then 29 else 28)
    else if m == 4 || m == 6 || m == 9 || m == 11 then 30
    else 31
  }

  predicate ValidDate(t: Date) {
    1 <= t.m <= 12 && 1 <= t.d <= MonthLength(t.y, t.m)
  }

  function NextDay(t: Date): Date {
    if t.d < MonthLength(t.y, t.m) then Date(t.y, t.m, t.d + 1)
    else if t.m < 12 then Date(t.y, t.m + 1, 1)
    else Date(t.y + 1, 1, 1)
  }

  predicate Before(a: Date, b: Date) {
    a.y < b.y || (a.y == b.y && (a.m < b.m || (a.m == b.m && a.d < b.d)))
  }

  // ----- The conversion

  /** Division as the program performs it: toward zero. */
  function TruncatedDiv(a: int, b: int): int
    requires b > 0
  {
    if a >= 0 then a / b else -((-a) / b)
  }

  const DAYS_PER_ERA := 146097

  /** The era of a day counted from 0000-03-01. */
  function EraOf(z: int): int {
    TruncatedDiv(if z >= 0 then z else z - 146096, DAYS_PER_ERA)
  }

  /** The year of the era of its `doe`-th day. */
  function YearOf(doe: int): int {
    (doe - doe / 1460 + doe / 36524 - doe / 146096) / 365
  }

  /** `days_to_ymd`, from days since 1970-01-01. */
  function DaysToYmd(days: int): Date {
    var z := days + 719468;
    var era := EraOf(z);
    var doe := z - era * DAYS_PER_ERA;
    var yoe := YearOf(doe);
    Civil(era, yoe, doe - YearStart(yoe))
  }

  /** The date of the `doy`-th day, counted from 1 March, of the era's `yoe`-th year. */
  function Civil(era: int, yoe: int, doy: int): Date {
    var y := yoe + era * 400;
    var mp := (5 * doy + 2) / 153;
    var d := doy - (153 * mp + 2) / 5 + 1;
    var m := if mp < 10 then mp + 3 else mp - 9;
    Date(if m <= 2 then y + 1 else y, m, d)
  }

  /** The inverse, by the same division of years from 1 March. */
  function DaysFromCivil(t: Date): int {
    var y := if t.m <= 2 then t.y - 1 else t.y;
    var mp := if t.m > 2 then t.m - 3 else t.m + 9;
    y / 400 * DAYS_PER_ERA + YearStart(y % 400) + (153 * mp + 2) / 5 + t.d - 1 - 719468
  }

  function YearStart(yoe: int): int {
    365 * yoe + yoe / 4 - yoe / 100
  }

  function YearLength(yoe: int): int {
    if (yoe + 1) % 4 == 0 && ((yoe + 1) % 100 != 0 || yoe == 399) then 366 else 365
  }

  // ----- A day number is one (era, year, day of year)

  predicate Splits(z: int, era: int, yoe: int, doy: int) {
    0 <= yoe < 400 && 0 <= doy < YearLength(yoe) && z == era * DAYS_PER_ERA + YearStart(yoe) + doy
  }

  /** The year estimate is exact: centuries of 36524 days, then cycles of 1461, then years of 365. */
  lemma YearOfEra(doe: int)
    requires 0 <= doe < DAYS_PER_ERA
    ensures 0 <= YearOf(doe) < 400 && 0 <= doe - YearStart(YearOf(doe)) < YearLength(YearOf(doe))
  {
    if doe < 146096 {
      YearOfCentury(doe);
    }
  }

  lemma YearOfCentury(doe: int)
    requires 0 <= doe < 146096
    ensures 0 <= YearOf(doe) < 400 && 0 <= doe - YearStart(YearOf(doe)) < YearLength(YearOf(doe))
  {
    var k := doe / 36524;
    var r := doe - 36524 * k;
    var q := r / 1461;
    var s := r - 1461 * q;
    var t := if s / 365 < 3 then s / 365 else 3;
    EstimateIsExact(k, q, s);
    YearStartsAt(k, q, t);
    assert YearOf(doe) == 100 * k + 4 * q + t;
  }

  lemma YearStartsAt(k: int, q: int, t: int)
    requires 0 <= k <= 3 && 0 <= q <= 24 && 0 <= t <= 3
    ensures var yoe := 100 * k + 4 * q + t;
      && YearStart(yoe) == 36524 * k + 1461 * q + 365 * t
      && (t == 3 && (q < 24 || k == 3) <==> YearLength(yoe) == 366)
  {
    var yoe := 100 * k + 4 * q + t;
    assert yoe / 4 == 25 * k + q && yoe / 100 == k;
  }

  lemma EstimateIsExact(k: int, q: int, s: int)
    requires 0 <= k <= 3 && 0 <= q <= 24 && 0 <= s <= 1460 && 1461 * q + s < 36524
    ensures YearOf(36524 * k + 1461 * q + s) == 100 * k + 4 * q + (if s / 365 < 3 then s / 365 else 3)
  {
    var doe := 36524 * k + 1461 * q + s;
    var e := (q + s + 24 * k) / 1460;
    assert doe / 1460 == 25 * k + q + e;
    assert doe / 36524 == k && doe / 146096 == 0;
    assert doe - doe / 1460 + doe / 36524 - doe / 146096 == 365 * (100 * k + 4 * q) + (s - e);
  }

  /** The adjusted truncating division is the floor, so days before the epoch fall in the right era. */
  lemma EraIsFloor(z: int)
    ensures EraOf(z) == z / DAYS_PER_ERA
  {}

  lemma DaySplits(days: int) returns (era: int, yoe: int, doy: int)
    ensures Splits(days + 719468, era, yoe, doy) && DaysToYmd(days) == Civil(era, yoe, doy)
  {
    var z := days + 719468;
    EraIsFloor(z);
    era := EraOf(z);
    var doe := z - era * DAYS_PER_ERA;
    YearOfEra(doe);
    yoe := YearOf(doe);
    doy := doe - YearStart(yoe);
  }

  lemma YearsTile(yoe: int)
    requires 0 <= yoe < 400
    ensures YearStart(yoe) + YearLength(yoe) == if yoe < 399 then YearStart(yoe + 1) else DAYS_PER_ERA
    ensures 0 <= YearStart(yoe)
  {}

  lemma YearStartMonotone(a: int, b: int)
    requires 0 <= a < b < 400
    ensures YearStart(a) + YearLength(a) <= YearStart(b)
    decreases b - a
  {
    YearsTile(a);
    if a + 1 < b {
      YearStartMonotone(a + 1, b);
    }
  }

  lemma SplitIsUnique(z: int, e1: int, y1: int, d1: int, e2: int, y2: int, d2: int)
    requires Splits(z, e1, y1, d1) && Splits(z, e2, y2, d2)
    ensures e1 == e2 && y1 == y2 && d1 == d2
  {
    SplitWithinEra(z, e1, y1, d1);
    SplitWithinEra(z, e2, y2, d2);
    if y1 < y2 {
      YearStartMonotone(y1, y2);
    } else if y2 < y1 {
      YearStartMonotone(y2, y1);
    }
  }

  lemma SplitWithinEra(z: int, era: int, yoe: int, doy: int)
    requires Splits(z, era, yoe, doy)
    ensures era == z / DAYS_PER_ERA
  {
    YearsTile(yoe);
    if yoe < 399 {
      YearStartMonotone(yoe, 399);
      YearsTile(399);
    }
    assert 0 <= YearStart(yoe) + doy < DAYS_PER_ERA;
  }

  // ----- Dates follow the calendar's rules

  lemma CivilIsValid(era: int, yoe: int, doy: int)
    requires 0 <= yoe < 400 && 0 <= doy < YearLength(yoe)
    ensures ValidDate(Civil(era, yoe, doy))
  {
    LeapOfEra(era, yoe);
  }

  lemma LeapOfEra(era: int, yoe: int)
    requires 0 <= yoe < 400
    ensures Leap(yoe + era * 400 + 1) <==> YearLength(yoe) == 366
  {
    Shift4(yoe + 1, 100 * era);
    Shift100(yoe + 1, 4 * era);
    Shift400(yoe + 1, era);
  }

  lemma Shift4(n: int, k: int)
    ensures (n + 4 * k) % 4 == n % 4
  {
    assert n + 4 * k == 4 * (n / 4 + k) + n % 4;
  }

  lemma Shift100(n: int, k: int)
    ensures (n + 100 * k) % 100 == n % 100
  {
    assert n + 100 * k == 100 * (n / 100 + k) + n % 100;
  }

  lemma Shift400(n: int, k: int)
    ensures (n + 400 * k) % 400 == n % 400
  {
    assert n + 400 * k == 400 * (n / 400 + k) + n % 400;
  }

  lemma NextWithinYear(era: int, yoe: int, doy: int)
    requires 0 <= yoe < 400 && 0 <= doy && doy + 1 < YearLength(yoe)
    ensures Civil(era, yoe, doy + 1) == NextDay(Civil(era, yoe, doy))
  {
    LeapOfEra(era, yoe);
  }

  /** The last day of February is followed by 1 March, across eras as well. */
  lemma NextYear(era: int, yoe: int)
    requires 0 <= yoe < 400
    ensures NextDay(Civil(era, yoe, YearLength(yoe) - 1))
      == if yoe < 399 then Civil(era, yoe + 1, 0) else Civil(era + 1, 0, 0)
  {
    LeapOfEra(era, yoe);
  }

  lemma SplitsFollow(z: int, e1: int, y1: int, d1: int, e2: int, y2: int, d2: int)
    requires Splits(z, e1, y1, d1) && Splits(z + 1, e2, y2, d2)
    ensures Civil(e2, y2, d2) == NextDay(Civil(e1, y1, d1))
  {
    YearsTile(y1);
    if d1 + 1 < YearLength(y1) {
      SplitIsUnique(z + 1, e1, y1, d1 + 1, e2, y2, d2);
      NextWithinYear(e1, y1, d1);
    } else if y1 < 399 {
      SplitIsUnique(z + 1, e1, y1 + 1, 0, e2, y2, d2);
      NextYear(e1, y1);
    } else {
      SplitIsUnique(z + 1, e1 + 1, 0, 0, e2, y2, d2);
      NextYear(e1, y1);
    }
  }

  lemma DaysAreDates(days: int)
    ensures ValidDate(DaysToYmd(days))
  {
    var era, yoe, doy := DaySplits(days);
    CivilIsValid(era, yoe, doy);
  }

  /** The conversion starts at the epoch. */
  lemma EpochDay()
    ensures DaysToYmd(0) == Date(1970, 1, 1)
  {}

  /** One day more is always the calendar's next day. */
  lemma DaysFollowCalendar(days: int)
    ensures DaysToYmd(days + 1) == NextDay(DaysToYmd(days))
  {
    var e1, y1, d1 := DaySplits(days);
    var e2, y2, d2 := DaySplits(days + 1);
    SplitsFollow(days + 719468, e1, y1, d1, e2, y2, d2);
  }

  // ----- Inverse and order

  lemma CivilInverts(era: int, yoe: int, doy: int)
    requires 0 <= yoe < 400 && 0 <= doy < YearLength(yoe)
    ensures DaysFromCivil(Civil(era, yoe, doy)) == era * DAYS_PER_ERA + YearStart(yoe) + doy - 719468
  {
    var y := yoe + era * 400;
    assert y / 400 == era && y % 400 == yoe;
    MonthInverts(doy);
  }

  lemma MonthInverts(doy: int)
    requires 0 <= doy <= 365
    ensures var mp := (5 * doy + 2) / 153;
      0 <= mp <= 11 && var m := if mp < 10 then mp + 3 else mp - 9;
      (if m > 2 then m - 3 else m + 9) == mp
  {}

  /** Day number to date and back, for every day, before the epoch as well. */
  lemma DaysRoundTrip(days: int)
    ensures DaysFromCivil(DaysToYmd(days)) == days
  {
    var era, yoe, doy := DaySplits(days);
    CivilInverts(era, yoe, doy);
  }

  /** The day of year of a valid date, counted from 1 March. */
  lemma DateSplits(t: Date) returns (era: int, yoe: int, doy: int)
    requires ValidDate(t)
    ensures 0 <= yoe < 400 && 0 <= doy < YearLength(yoe) && Civil(era, yoe, doy) == t
  {
    var y := if t.m <= 2 then t.y - 1 else t.y;
    era, yoe := y / 400, y % 400;
    LeapOfEra(era, yoe);
    var mp := if t.m > 2 then t.m - 3 else t.m + 9;
    doy := (153 * mp + 2) / 5 + t.d - 1;
    MonthOfDay(mp, t.d);
  }

  lemma MonthOfDay(mp: int, d: int)
    requires 0 <= mp <= 11 && 1 <= d
    requires d <= (if mp == 11 then 29 else if mp == 1 || mp == 3 || mp == 6 || mp == 8 then 30 else 31)
    ensures (5 * ((153 * mp + 2) / 5 + d - 1) + 2) / 153 == mp
  {}

  /** Date to day number and back: every valid date is reached, by one day only. */
  lemma DatesRoundTrip(t: Date)
    requires ValidDate(t)
    ensures DaysToYmd(DaysFromCivil(t)) == t
  {
    var era, yoe, doy := DateSplits(t);
    CivilInverts(era, yoe, doy);
    var e, y, d := DaySplits(DaysFromCivil(t));
    SplitIsUnique(DaysFromCivil(t) + 719468, era, yoe, doy, e, y, d);
  }

  lemma SplitsOrdered(a: int, e1: int, y1: int, d1: int, b: int, e2: int, y2: int, d2: int)
    requires Splits(a, e1, y1, d1) && Splits(b, e2, y2, d2) && a < b
    ensures e1 * 400 + y1 < e2 * 400 + y2 || (e1 == e2 && y1 == y2 && d1 < d2)
  {
    SplitWithinEra(a, e1, y1, d1);
    SplitWithinEra(b, e2, y2, d2);
    if e1 == e2 && y2 < y1 {
      YearStartMonotone(y2, y1);
    }
  }

  lemma CivilOrdered(e1: int, y1: int, d1: int, e2: int, y2: int, d2: int)
    requires 0 <= d1 <= 365 && 0 <= d2 <= 365
    requires e1 * 400 + y1 < e2 * 400 + y2 || (e1 == e2 && y1 == y2 && d1 < d2)
    ensures Before(Civil(e1, y1, d1), Civil(e2, y2, d2))
  {}

  lemma LaterIsAfter(a: int, b: int)
    requires a < b
    ensures Before(DaysToYmd(a), DaysToYmd(b))
  {
    var e1, y1, d1 := DaySplits(a);
    var e2, y2, d2 := DaySplits(b);
    SplitsOrdered(a + 719468, e1, y1, d1, b + 719468, e2, y2, d2);
    CivilOrdered(e1, y1, d1, e2, y2, d2);
  }

  /** Day numbers and dates are ordered alike. */
  lemma DaysOrdered(a: int, b: int)
    ensures a < b <==> Before(DaysToYmd(a), DaysToYmd(b))
  {
    if a < b {
      LaterIsAfter(a, b);
    } else if b < a {
      LaterIsAfter(b, a);
    }
  }

  // ----- Timestamps

  function Pad2(n: nat): (s: string)
    requires n < 100
    ensures |s| == 2 && AllDigits(s)
  {
    [Digit(n / 10), Digit(n % 10)]
  }

  /** `{:04}`: four digits, or as many as the year needs. */
  function Pad4(n: nat): (s: string)
    ensures |s| >= 4 && AllDigits(s) && (n < 10000 ==> |s| == 4)
  {
    if n < 10000 then Pad2(n / 100) + Pad2(n % 100) else WideDecimal(n)
  }

  function WideDecimal(n: nat): (s: string)
    requires n >= 10000
    ensures |s| >= 5 && AllDigits(s) && s == Decimal(n)
  {
    DecimalLength(n / 10);
    Decimal(n)
  }

  lemma {:induction false} DecimalLength(n: nat)
    ensures n >= 1000 ==> |Decimal(n)| >= 4
  {
    assert n >= 1000 ==> Decimal(n) == Decimal(n / 10) + [Digit(n % 10)];
    assert n >= 1000 ==> Decimal(n / 10) == Decimal(n / 100) + [Digit(n / 10 % 10)];
    assert n >= 1000 ==> Decimal(n / 100) == Decimal(n / 1000) + [Digit(n / 100 % 10)];
  }

  function DayText(t: Date): string
    requires ValidDate(t) && t.y >= 0
  {
    Pad4(t.y) + ("-" + Pad2(t.m) + "-" + Pad2(t.d))
  }

  function ClockText(sod: nat): (s: string)
    requires sod < 86400
    ensures |s| == 10
  {
    "T" + Pad2(sod / 3600) + ":" + Pad2(sod % 3600 / 60) + ":" + Pad2(sod % 60) + "Z"
  }

  function StampOf(t: Date, sod: nat): string
    requires ValidDate(t) && t.y >= 0 && sod < 86400
  {
    DayText(t) + ClockText(sod)
  }

  /** The timestamp of a second of a day, for days in year 0 or later. */
  function Stamp(days: int, sod: nat): string
    requires DaysToYmd(days).y >= 0 && sod < 86400
  {
    DaysAreDates(days);
    StampOf(DaysToYmd(days), sod)
  }

  lemma EpochYears(days: nat)
    ensures DaysToYmd(days).y >= 1970
  {
    EpochDay();
    DaysOrdered(0, days);
  }

  /** `iso_timestamp_utc`, of the seconds the clock shows. */
  function IsoTimestampUtc(secs: nat): string {
    EpochYears(secs / 86400);
    Stamp(secs / 86400, secs % 86400)
  }

  // ----- A timestamp gives back its second

  lemma Pad2Reads(n: nat)
    requires n < 100
    ensures Numeral(Pad2(n)) == n
  {
    var s := Pad2(n);
    assert s[..1] == [Digit(n / 10)] && s[..1][..0] == [];
    assert Numeral(s[..1]) == n / 10;
  }

  lemma {:induction false} NumeralSplit(a: string, c: string)
    requires AllDigits(a) && AllDigits(c) && |c| == 2
    ensures Numeral(a + c) == Numeral(a) * 100 + Numeral(c)
  {
    var s := a + c;
    assert s[..|s| - 1] == a + c[..1] && (a + c[..1])[..|a|] == a;
    assert c[..1][..0] == [];
    assert Numeral(s[..|s| - 1]) == Numeral(a) * 10 + (c[0] as int - '0' as int);
    assert Numeral(c[..1]) == c[0] as int - '0' as int;
  }

  lemma Pad4Reads(n: nat)
    ensures Numeral(Pad4(n)) == n
  {
    if n < 10000 {
      NumeralSplit(Pad2(n / 100), Pad2(n % 100));
      Pad2Reads(n / 100);
      Pad2Reads(n % 100);
    } else {
      NumeralOfDecimal(n);
    }
  }

  /** The number a digit field holds, or 0 for any other text. */
  function FieldValue(s: string): nat {
    if AllDigits(s) then Numeral(s) else 0
  }

  /** The date a timestamp names: everything before the last sixteen characters is the year. */
  function ReadDate(t: string): Date
    requires |t| >= 16
  {
    var n := |t| - 16;
    Date(FieldValue(t[..n]), FieldValue(t[n + 1..n + 3]), FieldValue(t[n + 4..n + 6]))
  }

  function ReadClock(t: string): nat
    requires |t| >= 16
  {
    var n := |t| - 16;
    FieldValue(t[n + 7..n + 9]) * 3600 + FieldValue(t[n + 10..n + 12]) * 60 + FieldValue(t[n + 13..n + 15])
  }

  /** The second a timestamp names. */
  function ReadStamp(t: string): int
    requires |t| >= 16
  {
    DaysFromCivil(ReadDate(t)) * 86400 + ReadClock(t)
  }

  lemma StampFields(date: Date, sod: nat)
    requires ValidDate(date) && date.y >= 0 && sod < 86400
    ensures var t := StampOf(date, sod);
      && |t| == |Pad4(date.y)| + 16
      && var n := |t| - 16;
      && t[..n] == Pad4(date.y) && t[n + 1..n + 3] == Pad2(date.m) && t[n + 4..n + 6] == Pad2(date.d)
      && t[n + 7..n + 9] == Pad2(sod / 3600) && t[n + 10..n + 12] == Pad2(sod % 3600 / 60)
      && t[n + 13..n + 15] == Pad2(sod % 60)
  {}

  lemma StampReads(date: Date, sod: nat)
    requires ValidDate(date) && date.y >= 0 && sod < 86400
    ensures var t := StampOf(date, sod); |t| >= 20 && ReadDate(t) == date && ReadClock(t) == sod
  {
    StampFields(date, sod);
    Pad4Reads(date.y);
    Pad2Reads(date.m);
    Pad2Reads(date.d);
    Pad2Reads(sod / 3600);
    Pad2Reads(sod % 3600 / 60);
    Pad2Reads(sod % 60);
    ClockParts(sod);
  }

  lemma ClockParts(sod: nat)
    ensures sod / 3600 * 3600 + sod % 3600 / 60 * 60 + sod % 60 == sod
  {}

  /** Reading a timestamp gives back the second it was made from, for every year from 0 on. */
  lemma StampRoundTrip(days: int, sod: nat)
    requires DaysToYmd(days).y >= 0 && sod < 86400
    ensures |Stamp(days, sod)| >= 20 && ReadStamp(Stamp(days, sod)) == days * 86400 + sod
  {
    DaysAreDates(days);
    StampReads(DaysToYmd(days), sod);
    DaysRoundTrip(days);
  }

  /** The fixed text between the fields. Up to the year 9999 the whole is twenty characters long. */
  lemma StampLayout(days: int, sod: nat)
    requires DaysToYmd(days).y >= 0 && sod < 86400
    ensures var t := Stamp(days, sod);
      && |t| >= 20 && (DaysToYmd(days).y <= 9999 ==> |t| == 20)
      && var n := |t| - 16;
      && t[n] == '-' && t[n + 3] == '-' && t[n + 6] == 'T' && t[n + 9] == ':' && t[n + 12] == ':' && t[n + 15] == 'Z'
      && forall i :: 0 <= i < |t| && i !in {n, n + 3, n + 6, n + 9, n + 12, n + 15} ==> IsDigit(t[i])
  {
    DaysAreDates(days);
    LayoutOf(DaysToYmd(days), sod);
  }

  lemma LayoutOf(date: Date, sod: nat)
    requires ValidDate(date) && date.y >= 0 && sod < 86400
    ensures var t := StampOf(date, sod);
      && |t| >= 20 && (date.y <= 9999 ==> |t| == 20)
      && var n := |t| - 16;
      && t[n] == '-' && t[n + 3] == '-' && t[n + 6] == 'T' && t[n + 9] == ':' && t[n + 12] == ':' && t[n + 15] == 'Z'
      && forall i :: 0 <= i < |t| && i !in {n, n + 3, n + 6, n + 9, n + 12, n + 15} ==> IsDigit(t[i])
  {
    StampFields(date, sod);
    var t := StampOf(date, sod);
    var n := |t| - 16;
    forall i | 0 <= i < |t| && i !in {n, n + 3, n + 6, n + 9, n + 12, n + 15} ensures IsDigit(t[i]) {
      if i < n {
        assert t[i] == t[..n][i];
      } else if i < n + 3 {
        assert t[i] == t[n + 1..n + 3][i - n - 1];
      } else if i < n + 6 {
        assert t[i] == t[n + 4..n + 6][i - n - 4];
      } else if i < n + 9 {
        assert t[i] == t[n + 7..n + 9][i - n - 7];
      } else if i < n + 12 {
        assert t[i] == t[n + 10..n + 12][i - n - 10];
      } else {
        assert t[i] == t[n + 13..n + 15][i - n - 13];
      }
    }
  }

  lemma TimestampRoundTrip(secs: nat)
    ensures |IsoTimestampUtc(secs)| >= 20 && ReadStamp(IsoTimestampUtc(secs)) == secs
  {
    EpochYears(secs / 86400);
    StampRoundTrip(secs / 86400, secs % 86400);
  }

  // ----- Timestamps sort as text

  lemma Pad2Ordered(m: nat, n: nat)
    requires m < 100 && n < 100
    ensures TextBefore(Pad2(m), Pad2(n)) <==> m < n
    ensures Pad2(m) == Pad2(n) <==> m == n
  {
    var a, b := Pad2(m), Pad2(n);
    assert a[1..] == [a[1]] && b[1..] == [b[1]];
    assert TextBefore(a[1..], b[1..]) <==> a[1] < b[1] by { assert a[1..][1..] == [] && b[1..][1..] == []; }
    Pad2Reads(m);
    Pad2Reads(n);
  }

  /** Numerals of one length sort as their numbers do. */
  lemma {:induction false} NumeralsOrdered(p: string, q: string)
    requires AllDigits(p) && AllDigits(q) && |p| == |q|
    ensures TextBefore(p, q) <==> Numeral(p) < Numeral(q)
    ensures p == q <==> Numeral(p) == Numeral(q)
  {
    if p != [] {
      var n := |p| - 1;
      var x, y := p[..n], q[..n];
      NumeralsOrdered(x, y);
      assert p == x + [p[n]] && q == y + [q[n]];
      TextBeforeAppend(x, [p[n]], y, [q[n]]);
      assert TextBefore([p[n]], [q[n]]) <==> p[n] < q[n];
    }
  }

  lemma Pad4Ordered(m: nat, n: nat)
    requires |Pad4(m)| == |Pad4(n)|
    ensures TextBefore(Pad4(m), Pad4(n)) <==> m < n
    ensures Pad4(m) == Pad4(n) <==> m == n
  {
    NumeralsOrdered(Pad4(m), Pad4(n));
    Pad4Reads(m);
    Pad4Reads(n);
  }

  /** A separator between two fields changes nothing. */
  lemma SeparatedFields(sep: string, m: nat, x: string, n: nat, y: string)
    requires m < 100 && n < 100
    ensures TextBefore(sep + Pad2(m) + x, sep + Pad2(n) + y) <==> m < n || (m == n && TextBefore(x, y))
  {
    ConcatAssoc(sep, Pad2(m), x);
    ConcatAssoc(sep, Pad2(n), y);
    TextBeforeAppend(sep, Pad2(m) + x, sep, Pad2(n) + y);
    TextNotBeforeItself(sep);
    TextBeforeAppend(Pad2(m), x, Pad2(n), y);
    Pad2Ordered(m, n);
  }

  lemma {:induction false} TextNotBeforeItself(s: string)
    ensures !TextBefore(s, s)
  {
    if s != [] {
      TextNotBeforeItself(s[1..]);
    }
  }

  lemma DayTextOrdered(a: Date, b: Date, x: string, y: string)
    requires ValidDate(a) && ValidDate(b) && 0 <= a.y && 0 <= b.y && |Pad4(a.y)| == |Pad4(b.y)|
    ensures TextBefore(DayText(a) + x, DayText(b) + y) <==> Before(a, b) || (a == b && TextBefore(x, y))
  {
    var p, q := Pad2(a.d) + x, Pad2(b.d) + y;
    assert DayText(a) + x == Pad4(a.y) + ("-" + Pad2(a.m) + ("-" + Pad2(a.d) + x));
    assert DayText(b) + y == Pad4(b.y) + ("-" + Pad2(b.m) + ("-" + Pad2(b.d) + y));
    TextBeforeAppend(Pad4(a.y), "-" + Pad2(a.m) + ("-" + Pad2(a.d) + x),
                     Pad4(b.y), "-" + Pad2(b.m) + ("-" + Pad2(b.d) + y));
    Pad4Ordered(a.y, b.y);
    SeparatedFields("-", a.m, "-" + Pad2(a.d) + x, b.m, "-" + Pad2(b.d) + y);
    SeparatedFields("-", a.d, x, b.d, y);
  }

  lemma ClockTextOrdered(s: nat, t: nat)
    requires s < 86400 && t < 86400
    ensures TextBefore(ClockText(s), ClockText(t)) <==> s < t
  {
    var m, n := s % 3600, t % 3600;
    assert ClockText(s) == "T" + Pad2(s / 3600) + (":" + Pad2(m / 60) + (":" + Pad2(s % 60) + "Z"));
    assert ClockText(t) == "T" + Pad2(t / 3600) + (":" + Pad2(n / 60) + (":" + Pad2(t % 60) + "Z"));
    SeparatedFields("T", s / 3600, ":" + Pad2(m / 60) + (":" + Pad2(s % 60) + "Z"),
                    t / 3600, ":" + Pad2(n / 60) + (":" + Pad2(t % 60) + "Z"));
    SeparatedFields(":", m / 60, ":" + Pad2(s % 60) + "Z", n / 60, ":" + Pad2(t % 60) + "Z");
    SeparatedFields(":", s % 60, "Z", t % 60, "Z");
    TextNotBeforeItself("Z");
    ClockFieldsOrdered(s, t);
  }

  lemma ClockFieldsOrdered(s: nat, t: nat)
    ensures var h1, m1, h2, m2 := s / 3600, s % 3600 / 60, t / 3600, t % 3600 / 60;
      s < t <==> h1 < h2 || (h1 == h2 && (m1 < m2 || (m1 == m2 && s % 60 < t % 60)))
  {
    ClockParts(s);
    ClockParts(t);
  }

  lemma TimeOrdered(a: int, s: nat, b: int, t: nat)
    requires s < 86400 && t < 86400
    ensures var d, e := DaysToYmd(a), DaysToYmd(b);
      a * 86400 + s < b * 86400 + t <==> Before(d, e) || (d == e && s < t)
  {
    DaysOrdered(a, b);
    DaysOrdered(b, a);
    DaysRoundTrip(a);
    DaysRoundTrip(b);
  }

  /** For years of equally many printed digits, comparing timestamps as text compares the seconds they name. */
  lemma EqualWidthsOrdered(a: int, s: nat, b: int, t: nat)
    requires DaysToYmd(a).y >= 0 && DaysToYmd(b).y >= 0 && s < 86400 && t < 86400
    requires |Pad4(DaysToYmd(a).y)| == |Pad4(DaysToYmd(b).y)|
    ensures TextBefore(Stamp(a, s), Stamp(b, t)) <==> a * 86400 + s < b * 86400 + t
  {
    DaysAreDates(a);
    DaysAreDates(b);
    DayTextOrdered(DaysToYmd(a), DaysToYmd(b), ClockText(s), ClockText(t));
    ClockTextOrdered(s, t);
    TimeOrdered(a, s, b, t);
  }

  /** From year 0 to year 9999 in particular. */
  lemma StampsOrdered(a: int, s: nat, b: int, t: nat)
    requires 0 <= DaysToYmd(a).y <= 9999 && 0 <= DaysToYmd(b).y <= 9999 && s < 86400 && t < 86400
    ensures TextBefore(Stamp(a, s), Stamp(b, t)) <==> a * 86400 + s < b * 86400 + t
  {
    EqualWidthsOrdered(a, s, b, t);
  }

  // ----- Years of different widths

  /** A number without its last `d` decimal digits: divided by ten, `d` times. */
  function WithoutDigits(n: nat, d: nat): nat {
    if d == 0 then n else WithoutDigits(n / 10, d - 1)
  }

  /** The leading digits of a numeral are its number without the trailing ones. */
  lemma {:induction false} LeadingDigits(s: string, k: nat)
    requires AllDigits(s) && k <= |s|
    ensures Numeral(s[..k]) == WithoutDigits(Numeral(s), |s| - k)
    decreases |s|
  {
    if k == |s| {
      assert s[..k] == s;
    } else {
      var init := s[..|s| - 1];
      LeadingDigits(init, k);
      assert init[..k] == s[..k] && Numeral(s) / 10 == Numeral(init);
    }
  }

  lemma {:induction false} DecimalWidens(m: nat, n: nat)
    requires m <= n
    ensures |Decimal(m)| <= |Decimal(n)|
  {
    if n >= 10 && m >= 10 {
      DecimalWidens(m / 10, n / 10);
    }
  }

  lemma YearWidens(m: nat, n: nat)
    requires m <= n
    ensures |Pad4(m)| <= |Pad4(n)|
  {
    if m >= 10000 {
      DecimalWidens(m, n);
    }
  }

  /** A narrower year is compared with the leading digits of a wider one, and comes first where they agree. */
  lemma YearTextOrdered(m: nat, x: string, n: nat, y: string)
    requires |Pad4(m)| < |Pad4(n)|
    ensures TextBefore(Pad4(m) + ("-" + x), Pad4(n) + y) <==> m <= WithoutDigits(n, |Pad4(n)| - |Pad4(m)|)
    ensures TextBefore(Pad4(n) + y, Pad4(m) + ("-" + x)) <==> m > WithoutDigits(n, |Pad4(n)| - |Pad4(m)|)
  {
    var w, s := |Pad4(m)|, Pad4(n);
    var p, q := s[..w], s[w..] + y;
    assert s + y == p + q && q[0] == s[w] && IsDigit(s[w]) && ("-" + x)[0] == '-';
    TextBeforeAppend(Pad4(m), "-" + x, p, q);
    TextBeforeAppend(p, q, Pad4(m), "-" + x);
    NumeralsOrdered(Pad4(m), p);
    NumeralsOrdered(p, Pad4(m));
    Pad4Reads(m);
    Pad4Reads(n);
    LeadingDigits(s, w);
  }

  lemma StampSplits(days: int, sod: nat)
    requires DaysToYmd(days).y >= 0 && sod < 86400
    ensures var t := DaysToYmd(days);
      ValidDate(t) && Stamp(days, sod) == Pad4(t.y) + ("-" + (Pad2(t.m) + "-" + Pad2(t.d) + ClockText(sod)))
  {
    DaysAreDates(days);
  }

  lemma WiderOrdered(a: int, s: nat, b: int, t: nat)
    requires DaysToYmd(a).y >= 0 && DaysToYmd(b).y >= 0 && s < 86400 && t < 86400
    requires |Pad4(DaysToYmd(a).y)| < |Pad4(DaysToYmd(b).y)|
    ensures var y, z := DaysToYmd(a).y, DaysToYmd(b).y;
      && (TextBefore(Stamp(a, s), Stamp(b, t)) <==> y <= WithoutDigits(z, |Pad4(z)| - |Pad4(y)|))
      && (TextBefore(Stamp(b, t), Stamp(a, s)) <==> y > WithoutDigits(z, |Pad4(z)| - |Pad4(y)|))
  {
    var d, e := DaysToYmd(a), DaysToYmd(b);
    StampSplits(a, s);
    StampSplits(b, t);
    YearTextOrdered(d.y, Pad2(d.m) + "-" + Pad2(d.d) + ClockText(s),
                    e.y, "-" + (Pad2(e.m) + "-" + Pad2(e.d) + ClockText(t)));
  }

  lemma EarlierIsNoWider(a: int, s: nat, b: int, t: nat)
    requires DaysToYmd(a).y >= 0 && DaysToYmd(b).y >= 0 && s < 86400 && t < 86400
    requires a * 86400 + s < b * 86400 + t
    ensures DaysToYmd(a).y <= DaysToYmd(b).y && |Pad4(DaysToYmd(a).y)| <= |Pad4(DaysToYmd(b).y)|
  {
    TimeOrdered(a, s, b, t);
    YearWidens(DaysToYmd(a).y, DaysToYmd(b).y);
  }

  /**
   The exact condition. An earlier timestamp sorts before a later one if and only if its year is at most the
   leading digits of the later year, as many as its own year has; otherwise it sorts behind it. Years of one
   width always meet it.
   */
  lemma StampsOrderExactly(a: int, s: nat, b: int, t: nat)
    requires DaysToYmd(a).y >= 0 && DaysToYmd(b).y >= 0 && s < 86400 && t < 86400
    requires a * 86400 + s < b * 86400 + t
    ensures var y, z := DaysToYmd(a).y, DaysToYmd(b).y;
      && |Pad4(y)| <= |Pad4(z)|
      && (TextBefore(Stamp(a, s), Stamp(b, t)) <==> y <= WithoutDigits(z, |Pad4(z)| - |Pad4(y)|))
      && (TextBefore(Stamp(b, t), Stamp(a, s)) <==> y > WithoutDigits(z, |Pad4(z)| - |Pad4(y)|))
  {
    EarlierIsNoWider(a, s, b, t);
    if |Pad4(DaysToYmd(a).y)| == |Pad4(DaysToYmd(b).y)| {
      EqualWidthsOrdered(a, s, b, t);
      EqualWidthsOrdered(b, t, a, s);
    } else {
      WiderOrdered(a, s, b, t);
    }
  }

  lemma FiveDigits(n: nat)
    requires 10000 <= n < 100000
    ensures |Pad4(n)| == 5
  {
    assert Decimal(n) == Decimal(n / 10) + [Digit(n % 10)];
    assert Decimal(n / 10) == Decimal(n / 100) + [Digit(n / 10 % 10)];
    assert Decimal(n / 100) == Decimal(n / 1000) + [Digit(n / 100 % 10)];
    assert Decimal(n / 1000) == Decimal(n / 10000) + [Digit(n / 1000 % 10)];
  }

  /** The order is lost at the first step beyond four digits: every second of 10000 sorts before all of 9999. */
  lemma FiveDigitYearSortsFirst(a: int, s: nat, b: int, t: nat)
    requires DaysToYmd(a).y == 9999 && DaysToYmd(b).y == 10000 && s < 86400 && t < 86400
    ensures a * 86400 + s < b * 86400 + t && TextBefore(Stamp(b, t), Stamp(a, s))
  {
    TimeOrdered(a, s, b, t);
    FiveDigits(10000);
    StampsOrderExactly(a, s, b, t);
    assert WithoutDigits(10000, 1) == WithoutDigits(1000, 0);
  }
}
