/** The crash log's clock: seconds since 1970 to a Gregorian date and time. */
module Utc {
  import opened Machine

  const DAY_SECONDS := 86_400
  const ERA_DAYS := 146_097

  datatype Date = Date(year: int, month: int, day: int)
  datatype DateTime = DateTime(date: Date, hour: int, minute: int, second: int)

  /** The year of the era that begins in March, for a day of the era. */
  function YearOfEra(doe: int): int {
    (doe - doe / 1460 + doe / 36_524 - doe / 146_096) / 365
  }

  function DayOfYear(doe: int): int {
    var yoe := YearOfEra(doe);
    doe - (365 * yoe + yoe / 4 - yoe / 100)
  }

  function MonthPoint(doy: int): int {
    (5 * doy + 2) / 153
  }

  /** The civil date of a day number; day 0 is 1970-01-01. */
  function Civil(days: int): Date {
    var z := days + 719_468;
    var era := z / ERA_DAYS;
    var doe := z % ERA_DAYS;
    var yoe := YearOfEra(doe);
    var doy := DayOfYear(doe);
    var mp := MonthPoint(doy);
    var day := doy - (153 * mp + 2) / 5 + 1;
    var month := if mp < 10 then mp + 3 else mp - 9;
    Date(yoe + era * 400 + (if month <= 2 then 1 else 0), month, day)
  }

  function Utc(secs: U64): DateTime {
    var days: I64 := secs / DAY_SECONDS;
    var rest := secs % DAY_SECONDS;
    DateTime(Civil(days), rest / 3600, (rest / 60) % 60, rest % 60)
  }

  // ---- The Gregorian calendar (RFC 3339, section 5.7 and appendix C) ----

  predicate IsLeap(y: int) {
    y % 4 == 0 && (y % 100 != 0 || y % 400 == 0)
  }

  function MonthLength(y: int, m: int): int {
    if m == 2 then (if IsLeap(y) then 29 else 28)
    else if m == 4 || m == 6 || m == 9 || m == 11 then 30 else 31
  }

  predicate ValidDate(d: Date) {
    1 <= d.month <= 12 && 1 <= d.day <= MonthLength(d.year, d.month)
  }

  function NextDay(d: Date): Date {
    if d.day < MonthLength(d.year, d.month) then d.(day := d.day + 1)
    else if d.month < 12 then Date(d.year, d.month + 1, 1)
    else Date(d.year + 1, 1, 1)
  }

  // ---- Years and days of an era, years beginning in March ----

  /** Days of the era before its year `y`. */
  function EraDays(y: int): int {
    365 * y + y / 4 - y / 100 + y / 400
  }

  /** The March year `y` ends with the February of the calendar year `y + 1`. */
  function YearLength(y: int): int {
    if IsLeap(y + 1) then 366 else 365
  }

  /** Century `c`, four-year cycle `q` and year `u` of an era year. */
  lemma YearParts(c: int, q: int, u: int)
    requires 0 <= c <= 3 && 0 <= q <= 24 && 0 <= u <= 3
    ensures var y := 100 * c + 4 * q + u;
            0 <= y < 400 && y / 4 == 25 * c + q && y / 100 == c && y / 400 == 0
            && (IsLeap(y + 1) <==> u == 3 && (q < 24 || c == 3))
  {
  }

  lemma EraDaysOfParts(c: int, q: int, u: int)
    requires 0 <= c <= 3 && 0 <= q <= 24 && 0 <= u <= 3
    ensures EraDays(100 * c + 4 * q + u) == 36_524 * c + 1461 * q + 365 * u
  {
    YearParts(c, q, u);
  }

  lemma PartsStep(c: int, q: int, u: int)
    requires 0 <= c <= 3 && 0 <= q <= 24 && 0 <= u <= 3
    ensures var y := 100 * c + 4 * q + u; EraDays(y + 1) == EraDays(y) + YearLength(y)
  {
    YearParts(c, q, u);
    EraDaysOfParts(c, q, u);
    hide EraDays, IsLeap;
    if u < 3 {
      EraDaysOfParts(c, q, u + 1);
    } else if q < 24 {
      EraDaysOfParts(c, q + 1, 0);
    } else if c < 3 {
      EraDaysOfParts(c + 1, 0, 0);
    } else {
      EndOfEra();
    }
  }

  lemma EndOfEra()
    ensures EraDays(0) == 0 && EraDays(400) == ERA_DAYS && YearLength(0) == 365
  {
  }

  lemma EraDaysStep(y: int)
    requires 0 <= y < 400
    ensures EraDays(y + 1) == EraDays(y) + YearLength(y)
  {
    hide EraDays, IsLeap;
    var r := y % 100;
    assert y == 100 * (y / 100) + 4 * (r / 4) + r % 4;
    PartsStep(y / 100, r / 4, r % 4);
  }

  lemma CenturyOf(doe: int, c: int)
    requires 0 <= c <= 3 && 36_524 * c <= doe < 36_524 * (c + 1) + (if c == 3 then 1 else 0)
    ensures doe / 36_524 - doe / 146_096 == c
  {
  }

  lemma FloorOf(n: int, d: int, k: int, r: int)
    requires 0 < d && n == k * d + r && 0 <= r < d
    ensures n / d == k
  {
    var x := n / d - k;
    assert x * d == r - n % d by {
      assert n == (n / d) * d + n % d;
    }
    SmallMultiple(x, d);
  }

  lemma SmallMultiple(x: int, d: int)
    requires -d < x * d < d
    ensures x == 0
  {
    if x >= 1 {
      Scale(x, d);
    } else if x <= -1 {
      Scale(-x, d);
    }
  }

  lemma Scale(x: int, d: int)
    requires x >= 1 && d > 0
    ensures x * d >= d
  {
  }

  /** The closed formula finds the year and the day of the year for every day of an era. */
  lemma YearIsFound(c: int, q: int, u: int, v: int)
    requires 0 <= c <= 3 && 0 <= q <= 24 && 0 <= u <= 3
    requires var y := 100 * c + 4 * q + u; 0 <= v < YearLength(y)
    ensures var y := 100 * c + 4 * q + u;
            YearOfEra(EraDays(y) + v) == y && DayOfYear(EraDays(y) + v) == v
  {
    hide IsLeap, EraDays, YearLength, YearOfEra, DayOfYear;
    var y := 100 * c + 4 * q + u;
    var doe := EraDays(y) + v;
    YearParts(c, q, u);
    EraDaysOfParts(c, q, u);
    LeapSpill(c, q, u, v);
    var e := if 24 * c + q + 365 * u + v < 1460 then 0 else 1;
    FloorOf(doe, 1460, 25 * c + q + e, 24 * c + q + 365 * u + v - 1460 * e);
    CenturyOf(doe, c);
    YearFormula(doe, 25 * c + q + e, c, y, v - e);
    DayFormula(doe, y);
  }

  lemma YearFormula(doe: int, leaps: int, c: int, y: int, rest: int)
    requires doe / 1460 == leaps && doe / 36_524 - doe / 146_096 == c
    requires doe - leaps + c == y * 365 + rest && 0 <= rest < 365
    ensures YearOfEra(doe) == y
  {
    FloorOf(doe - leaps + c, 365, y, rest);
  }

  lemma DayFormula(doe: int, y: int)
    requires YearOfEra(doe) == y
    ensures DayOfYear(doe) == doe - (365 * y + y / 4 - y / 100)
  {
    hide YearOfEra;
  }

  /** The bounds that the division by 1460 needs. */
  lemma LeapSpill(c: int, q: int, u: int, v: int)
    requires 0 <= c <= 3 && 0 <= q <= 24 && 0 <= u <= 3
    requires 0 <= v < YearLength(100 * c + 4 * q + u)
    ensures var spill := 24 * c + q + 365 * u + v;
            && 0 <= spill < 2920 && v <= 365 && (spill >= 1460 ==> v >= 1) && (spill < 1460 ==> v < 365)
            && 36_524 * c <= 36_524 * c + 1461 * q + 365 * u + v < 36_524 * (c + 1) + (if c == 3 then 1 else 0)
  {
    YearParts(c, q, u);
  }

  lemma YearIsFoundAt(y: int, v: int)
    requires 0 <= y < 400 && 0 <= v < YearLength(y)
    ensures YearOfEra(EraDays(y) + v) == y && DayOfYear(EraDays(y) + v) == v
  {
    hide YearOfEra, DayOfYear, EraDays, YearLength;
    var r := y % 100;
    assert y == 100 * (y / 100) + 4 * (r / 4) + r % 4;
    YearIsFound(y / 100, r / 4, r % 4, v);
  }

  lemma {:induction false} EveryDayHasAYear(doe: int, y: int) returns (y': int)
    requires 0 <= y < 400 && EraDays(y) <= doe < ERA_DAYS
    ensures y <= y' < 400 && EraDays(y') <= doe < EraDays(y') + YearLength(y')
    decreases 400 - y
  {
    hide EraDays, YearLength;
    EraDaysStep(y);
    if doe < EraDays(y) + YearLength(y) {
      y' := y;
    } else {
      EndOfEra();
      y' := EveryDayHasAYear(doe, y + 1);
    }
  }

  // ---- March dates ----

  /** The date of day `v` of the March year `y`. */
  function MarchDate(y: int, v: int): Date {
    var mp := MonthPoint(v);
    var month := if mp < 10 then mp + 3 else mp - 9;
    Date(y + (if month <= 2 then 1 else 0), month, v - (153 * mp + 2) / 5 + 1)
  }

  lemma MonthTable(y: int, v: int)
    requires 0 <= v < YearLength(y)
    ensures ValidDate(MarchDate(y, v))
    ensures NextDay(MarchDate(y, v)) == if v + 1 < YearLength(y) then MarchDate(y, v + 1) else MarchDate(y + 1, 0)
  {
  }

  // ---- The calendar successor ----

  lemma LeapCycle(era: int, y: int)
    ensures YearLength(400 * era + y) == YearLength(y)
  {
    ModShift(y + 1, 400, era);
    ModShift(y + 1, 100, 4 * era);
    ModShift(y + 1, 4, 100 * era);
  }

  lemma ModShift(n: int, d: int, k: int)
    requires d > 0
    ensures (n + d * k) % d == n % d
  {
    FloorOf(n + d * k, d, n / d + k, n % d);
  }

  /** Era, year of the era and day of that year of a day number. */
  ghost predicate Located(days: int, era: int, y: int, v: int) {
    days + 719_468 == era * ERA_DAYS + EraDays(y) + v && 0 <= y < 400 && 0 <= v < YearLength(y)
  }

  lemma CivilIsMarchDate(days: int, era: int, y: int, v: int)
    requires Located(days, era, y, v)
    ensures Civil(days) == MarchDate(400 * era + y, v)
  {
    hide Civil, MarchDate, EraDays, IsLeap, YearOfEra, DayOfYear, YearLength;
    EraDaysGrow(y);
    YearIsFoundAt(y, v);
    EraSplit(days + 719_468, era, EraDays(y) + v);
    CivilInEra(days, era, EraDays(y) + v);
  }

  lemma EraSplit(z: int, era: int, doe: int)
    requires z == era * ERA_DAYS + doe && 0 <= doe < ERA_DAYS
    ensures z / ERA_DAYS == era && z % ERA_DAYS == doe
  {
    FloorOf(z, ERA_DAYS, era, doe);
  }

  lemma CivilInEra(days: int, era: int, doe: int)
    requires (days + 719_468) / ERA_DAYS == era && (days + 719_468) % ERA_DAYS == doe
    ensures Civil(days) == MarchDate(400 * era + YearOfEra(doe), DayOfYear(doe))
  {
    hide YearOfEra, DayOfYear;
  }

  lemma {:induction false} EraDaysGrow(y: int)
    requires 0 <= y < 400
    ensures 0 <= EraDays(y) && EraDays(y) + YearLength(y) <= ERA_DAYS
    decreases 400 - y
  {
    EraDaysStep(y);
    if y < 399 {
      EraDaysGrow(y + 1);
    } else {
      EndOfEra();
    }
  }

  lemma Locate(days: int) returns (era: int, y: int, v: int)
    ensures Located(days, era, y, v)
  {
    var z := days + 719_468;
    era := z / ERA_DAYS;
    y := EveryDayHasAYear(z % ERA_DAYS, 0);
    v := z % ERA_DAYS - EraDays(y);
  }

  /** The formula gives a valid date for every day number, and the next day number gives the next day. */
  lemma CivilFollowsTheCalendar(days: int)
    ensures ValidDate(Civil(days)) && Civil(days + 1) == NextDay(Civil(days))
  {
    hide MarchDate, NextDay, ValidDate, Civil, EraDays, IsLeap;
    var era, y, v := Locate(days);
    CivilIsMarchDate(days, era, y, v);
    LeapCycle(era, y);
    MonthTable(400 * era + y, v);
    EndOfEra();
    if v + 1 < YearLength(y) {
      CivilIsMarchDate(days + 1, era, y, v + 1);
    } else {
      EraDaysStep(y);
      if y < 399 {
        CivilIsMarchDate(days + 1, era, y + 1, 0);
      } else {
        CivilIsMarchDate(days + 1, era + 1, 0, 0);
      }
    }
  }

  lemma CivilStart()
    ensures Civil(0) == Date(1970, 1, 1)
  {
    hide Civil;
    CivilIsMarchDate(0, 4, 369, 306);
  }

  // ---- Counting days from 1970-01-01, as a reference ----

  function YearDays(y: int): int {
    if IsLeap(y) then 366 else 365
  }

  function DaysBeforeYear(y: int): int
    requires y >= 1970
  {
    if y == 1970 then 0 else DaysBeforeYear(y - 1) + YearDays(y - 1)
  }

  function DaysBeforeMonth(y: int, m: int): int
    requires 1 <= m <= 13
  {
    if m == 1 then 0 else DaysBeforeMonth(y, m - 1) + MonthLength(y, m - 1)
  }

  function DayNumber(d: Date): int
    requires d.year >= 1970 && ValidDate(d)
  {
    DaysBeforeYear(d.year) + DaysBeforeMonth(d.year, d.month) + d.day - 1
  }

  lemma MonthsFillTheYear(y: int)
    ensures DaysBeforeMonth(y, 13) == YearDays(y)
  {
    assert DaysBeforeMonth(y, 2) == 31;
    assert DaysBeforeMonth(y, 3) == 31 + MonthLength(y, 2);
    assert DaysBeforeMonth(y, 5) == DaysBeforeMonth(y, 3) + 61;
    assert DaysBeforeMonth(y, 7) == DaysBeforeMonth(y, 5) + 61;
    assert DaysBeforeMonth(y, 9) == DaysBeforeMonth(y, 7) + 62;
    assert DaysBeforeMonth(y, 11) == DaysBeforeMonth(y, 9) + 61;
    assert DaysBeforeMonth(y, 13) == DaysBeforeMonth(y, 11) + 61;
  }

  lemma NextDayCounts(d: Date)
    requires d.year >= 1970 && ValidDate(d)
    ensures ValidDate(NextDay(d)) && DayNumber(NextDay(d)) == DayNumber(d) + 1
  {
    MonthsFillTheYear(d.year);
  }

  /** Converting a day number to a date and counting the days up to that date gives the number back. */
  lemma {:induction false} CivilCounts(n: nat)
    ensures Civil(n).year >= 1970 && ValidDate(Civil(n)) && DayNumber(Civil(n)) == n
  {
    hide Civil;
    if n == 0 {
      CivilStart();
    } else {
      CivilCounts(n - 1);
      CivilFollowsTheCalendar(n - 1);
      NextDayCounts(Civil(n - 1));
    }
  }

  // ---- Order ----

  predicate DateBefore(d: Date, e: Date) {
    d.year < e.year || (d.year == e.year && (d.month < e.month || (d.month == e.month && d.day < e.day)))
  }

  lemma {:induction false} YearsGrow(y: int, y': int)
    requires 1970 <= y <= y'
    ensures DaysBeforeYear(y) <= DaysBeforeYear(y')
  {
    if y < y' {
      YearsGrow(y, y' - 1);
    }
  }

  lemma {:induction false} MonthsGrow(y: int, m: int, m': int)
    requires 1 <= m <= m' <= 13
    ensures 0 <= DaysBeforeMonth(y, m) <= DaysBeforeMonth(y, m')
    decreases m', 1
  {
    if m < m' {
      MonthsGrow(y, m, m' - 1);
    } else if m > 1 {
      MonthsGrow(y, m - 1, m - 1);
    }
  }

  lemma DayNumberIncreases(d: Date, e: Date)
    requires d.year >= 1970 && ValidDate(d) && ValidDate(e) && DateBefore(d, e)
    ensures DayNumber(d) < DayNumber(e)
  {
    MonthsFillTheYear(d.year);
    MonthsGrow(d.year, d.month + 1, 13);
    MonthsGrow(e.year, 1, e.month);
    if d.year < e.year {
      YearsGrow(d.year + 1, e.year);
    } else if d.month < e.month {
      MonthsGrow(d.year, d.month + 1, e.month);
    }
  }

  /** Counting and converting are inverse the other way round too: no valid date is missed. */
  lemma CountsToCivil(d: Date)
    requires d.year >= 1970 && ValidDate(d)
    ensures DayNumber(d) >= 0 && Civil(DayNumber(d)) == d
  {
    MonthsGrow(d.year, 1, d.month);
    YearsGrow(1970, d.year);
    var n := DayNumber(d);
    CivilCounts(n);
    var c := Civil(n);
    hide Civil;
    if DateBefore(c, d) {
      DayNumberIncreases(c, d);
    } else if DateBefore(d, c) {
      DayNumberIncreases(d, c);
    }
  }

  // ---- Date and time ----

  predicate ValidDateTime(t: DateTime) {
    ValidDate(t.date) && 0 <= t.hour < 24 && 0 <= t.minute < 60 && 0 <= t.second < 60
  }

  predicate Before(s: DateTime, t: DateTime) {
    || DateBefore(s.date, t.date)
    || (s.date == t.date && (s.hour < t.hour || (s.hour == t.hour && (s.minute < t.minute
        || (s.minute == t.minute && s.second < t.second)))))
  }

  function SecondsOf(t: DateTime): int
    requires ValidDateTime(t) && t.date.year >= 1970
  {
    DayNumber(t.date) * DAY_SECONDS + t.hour * 3600 + t.minute * 60 + t.second
  }

  lemma ClockParts(rest: int)
    requires 0 <= rest < DAY_SECONDS
    ensures rest == rest / 3600 * 3600 + rest / 60 % 60 * 60 + rest % 60 && rest / 3600 < 24
  {
    assert rest / 60 / 60 == rest / 3600;
  }

  /** For every 64-bit count the result is a valid date and time, and converting it back gives the count. */
  lemma UtcRoundTrips(secs: U64)
    ensures ValidDateTime(Utc(secs)) && Utc(secs).date.year >= 1970 && SecondsOf(Utc(secs)) == secs
  {
    CivilCounts(secs / DAY_SECONDS);
    ClockParts(secs % DAY_SECONDS);
  }

  /** Every valid date and time from 1970 on within the 64-bit range is the result for its own count. */
  lemma UtcIsOnto(t: DateTime)
    requires ValidDateTime(t) && t.date.year >= 1970 && 0 <= SecondsOf(t) < U64_SIZE
    ensures Utc(SecondsOf(t)) == t
  {
    hide Civil, DayNumber, ValidDate;
    CountsToCivil(t.date);
    var rest := t.hour * 3600 + t.minute * 60 + t.second;
    FloorOf(SecondsOf(t), DAY_SECONDS, DayNumber(t.date), rest);
    FloorOf(rest, 3600, t.hour, t.minute * 60 + t.second);
    FloorOf(rest, 60, t.hour * 60 + t.minute, t.second);
    assert SecondsOf(t) % DAY_SECONDS == rest;
  }

  /** One day later it is the next calendar day at the same time. */
  lemma UtcNextDay(secs: U64)
    requires secs + DAY_SECONDS < U64_SIZE
    ensures Utc(secs + DAY_SECONDS) == Utc(secs).(date := NextDay(Utc(secs).date))
  {
    hide Civil, NextDay, ValidDate;
    var days, rest := secs / DAY_SECONDS, secs % DAY_SECONDS;
    CivilFollowsTheCalendar(days);
    FloorOf(secs + DAY_SECONDS, DAY_SECONDS, days + 1, rest);
    assert (secs + DAY_SECONDS) % DAY_SECONDS == rest;
  }

  lemma SecondsIncrease(s: DateTime, t: DateTime)
    requires ValidDateTime(s) && ValidDateTime(t) && s.date.year >= 1970 && Before(s, t)
    ensures t.date.year >= 1970 && SecondsOf(s) < SecondsOf(t)
  {
    if DateBefore(s.date, t.date) {
      DayNumberIncreases(s.date, t.date);
    }
    hide DayNumber;
  }

  /** The result is strictly increasing in the count. */
  lemma UtcIncreases(a: U64, b: U64)
    requires a < b
    ensures Before(Utc(a), Utc(b))
  {
    UtcRoundTrips(a);
    UtcRoundTrips(b);
    hide Utc;
    if Before(Utc(b), Utc(a)) {
      SecondsIncrease(Utc(b), Utc(a));
    }
    hide SecondsOf;
  }

  // ---- The text form (RFC 3339, section 5.6) ----

  function Digit(n: int): char
    requires 0 <= n < 10
  {
    '0' + n as char
  }

  /** Decimal digits, at least `width` of them. */
  function Padded(n: nat, width: nat): string
    decreases n, width
  {
    if n < 10 && width <= 1 then [Digit(n)]
    else Padded(n / 10, if width == 0 then 0 else width - 1) + [Digit(n % 10)]
  }

  function Text(t: DateTime): string
    requires ValidDateTime(t) && t.date.year >= 0
  {
    Padded(t.date.year, 4) + "-" + Padded(t.date.month, 2) + "-" + Padded(t.date.day, 2) + "T"
    + Padded(t.hour, 2) + ":" + Padded(t.minute, 2) + ":" + Padded(t.second, 2) + "Z"
  }

  function DigitValue(c: char): Option<int> {
    if '0' <= c <= '9' then Some(c as int - '0' as int) else None
  }

  function Number(s: string): Option<int> {
    if s == "" then Some(0)
    else
      match (Number(s[..|s| - 1]), DigitValue(s[|s| - 1]))
      case (Some(n), Some(d)) => Some(10 * n + d)
      case _ => None
  }

  /** Reads the date-time form of RFC 3339 with four year digits, no fraction and the offset Z. */
  function Read(s: string): Option<DateTime> {
    if |s| != 20 || s[4] != '-' || s[7] != '-' || s[10] != 'T' || s[13] != ':' || s[16] != ':' || s[19] != 'Z' then None
    else
      match (Number(s[..4]), Number(s[5..7]), Number(s[8..10]), Number(s[11..13]), Number(s[14..16]), Number(s[17..19]))
      case (Some(y), Some(m), Some(d), Some(h), Some(i), Some(c)) => Some(DateTime(Date(y, m, d), h, i, c))
      case _ => None
  }

  lemma {:induction false} PaddedReadsBack(n: nat, width: nat)
    ensures Number(Padded(n, width)) == Some(n)
    ensures width <= |Padded(n, width)| && 1 <= |Padded(n, width)|
    decreases n, width
  {
    if n < 10 && width <= 1 {
      assert Padded(n, width)[..0] == "";
    } else {
      var w := if width == 0 then 0 else width - 1;
      PaddedReadsBack(n / 10, w);
      assert Padded(n, width) == Padded(n / 10, w) + [Digit(n % 10)];
      hide Padded;
      NumberOfAppended(Padded(n / 10, w), n / 10, n % 10);
    }
  }

  lemma NumberOfAppended(p: string, n: int, d: int)
    requires Number(p) == Some(n) && 0 <= d < 10
    ensures Number(p + [Digit(d)]) == Some(10 * n + d)
  {
    assert (p + [Digit(d)])[..|p|] == p;
  }

  lemma {:induction false} PaddedLength(n: nat, width: nat)
    requires 1 <= width <= 4
    ensures |Padded(n, width)| == width <==> n < Ten(width)
    decreases width, n
  {
    if n < 10 && width <= 1 {
    } else if width == 1 {
      PaddedReadsBack(n / 10, 0);
    } else {
      PaddedLength(n / 10, width - 1);
    }
  }

  function Ten(k: nat): nat {
    if k == 0 then 1 else 10 * Ten(k - 1)
  }

  lemma FieldIsTwoDigits(n: int)
    requires 0 <= n < 100
    ensures |Padded(n, 2)| == 2 && Number(Padded(n, 2)) == Some(n)
  {
    PaddedLength(n, 2);
    PaddedReadsBack(n, 2);
  }

  lemma YearDigits(y: int)
    requires 0 <= y
    ensures |Padded(y, 4)| >= 4 && Number(Padded(y, 4)) == Some(y)
    ensures |Padded(y, 4)| == 4 <==> y <= 9999
  {
    PaddedLength(y, 4);
    PaddedReadsBack(y, 4);
    assert Ten(4) == 10000;
  }

  /** The text reads back as the same date and time exactly while the year fits four digits. */
  lemma TextReadsBackIff(t: DateTime)
    requires ValidDateTime(t) && t.date.year >= 0
    ensures Read(Text(t)) == Some(t) <==> t.date.year <= 9999
  {
    hide Padded, Number, IsLeap;
    var y, m, d := Padded(t.date.year, 4), Padded(t.date.month, 2), Padded(t.date.day, 2);
    var h, i, c := Padded(t.hour, 2), Padded(t.minute, 2), Padded(t.second, 2);
    YearDigits(t.date.year);
    FieldIsTwoDigits(t.date.month);
    FieldIsTwoDigits(t.date.day);
    FieldIsTwoDigits(t.hour);
    FieldIsTwoDigits(t.minute);
    FieldIsTwoDigits(t.second);
    var s := Text(t);
    Layout(y, m, d, h, i, c);
  }

  const FIRST_LONG_YEAR_DAY := 2_932_897

  /** The last second with a four-digit year, plus one: the first second of the year 10000. */
  const FIRST_LONG_YEAR: U64 := FIRST_LONG_YEAR_DAY * DAY_SECONDS

  lemma LongYearsBegin()
    ensures Civil(FIRST_LONG_YEAR_DAY - 1) == Date(9999, 12, 31) && Civil(FIRST_LONG_YEAR_DAY) == Date(10000, 1, 1)
  {
    CivilIsMarchDate(FIRST_LONG_YEAR_DAY - 1, 24, 399, 305);
    CivilIsMarchDate(FIRST_LONG_YEAR_DAY, 24, 399, 306);
  }

  /** The crash log's time is an RFC 3339 date-time that reads back as the same moment exactly for counts
      before the year 10000. */
  lemma CrashTimeReadsBackIff(secs: U64)
    ensures ValidDateTime(Utc(secs)) && Utc(secs).date.year >= 0
    ensures Read(Text(Utc(secs))) == Some(Utc(secs)) <==> secs < 253_402_300_800
  {
    UtcRoundTrips(secs);
    TextReadsBackIff(Utc(secs));
    LongYearStart();
    hide Read, Text, Utc;
    if secs < FIRST_LONG_YEAR {
      UtcIncreases(secs, FIRST_LONG_YEAR);
    } else if secs > FIRST_LONG_YEAR {
      UtcIncreases(FIRST_LONG_YEAR, secs);
    }
  }

  lemma LongYearStart()
    ensures Utc(FIRST_LONG_YEAR) == DateTime(Date(10000, 1, 1), 0, 0, 0)
  {
    LongYearsBegin();
    hide Civil;
  }

  /** A count whose text is no RFC 3339 date-time. */
  lemma LongYearExample()
    ensures Utc(253_402_300_800) == DateTime(Date(10000, 1, 1), 0, 0, 0)
    ensures Text(Utc(253_402_300_800)) == "10000-01-01T00:00:00Z" && Read("10000-01-01T00:00:00Z") == None
  {
    LongYearStart();
    LongYearDigits();
    hide Padded, Utc;
  }

  lemma LongYearDigits()
    ensures Padded(10000, 4) == "10000" && Padded(1, 2) == "01" && Padded(0, 2) == "00"
  {
    assert Padded(1, 0) == "1" && Padded(10, 1) == "10" && Padded(100, 2) == "100" && Padded(1000, 3) == "1000";
  }

  lemma Layout(y: string, m: string, d: string, h: string, i: string, c: string)
    requires |m| == |d| == |h| == |i| == |c| == 2
    ensures var s := y + "-" + m + "-" + d + "T" + h + ":" + i + ":" + c + "Z";
            && |s| == |y| + 16
            && (|y| == 4 ==>
                 && s[..4] == y && s[5..7] == m && s[8..10] == d && s[11..13] == h && s[14..16] == i && s[17..19] == c
                 && s[4] == s[7] == '-' && s[10] == 'T' && s[13] == s[16] == ':' && s[19] == 'Z')
  {
  }
}
