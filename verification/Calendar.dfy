/** The calendar in integers (core/include/attadipa/core/clock.h:147-222): the conversions between a
    date and its day number, proved inverse to each other and in step with the Gregorian rule for
    what day follows a day. */
module Calendar {
  import opened Wrappers

  datatype Date = Date(year: int, month: nat, day: nat)

  datatype Civil = Civil(date: Date, hour: nat, minute: nat, second: nat)

  predicate Leap(year: int) {
    year % 4 == 0 && (year % 100 != 0 || year % 400 == 0)
  }

  const MONTH_DAYS: seq<nat> := [31, 28, 31, 30, 31, 30, 31, 31, 30, 31, 30, 31]

  function DaysInMonth(year: int, month: nat): nat {
    if month == 0 || month > 12 then 0
    else if month == 2 && Leap(year) then 29
    else MONTH_DAYS[month - 1]
  }

  predicate Real(d: Date) {
    1 <= d.month <= 12 && 1 <= d.day <= DaysInMonth(d.year, d.month)
  }

  /** The Gregorian rule: the day after. */
  function Tomorrow(d: Date): Date {
    if d.day < DaysInMonth(d.year, d.month) then d.(day := d.day + 1)
    else if d.month < 12 then Date(d.year, d.month + 1, 1)
    else Date(d.year + 1, 1, 1)
  }

  // ---------------------------------------------------------------------------
  // The conversions, as the program computes them.

  const ERA_DAYS: int := 146097
  const EPOCH: int := 719468

  /** The day of the year that starts in March, from a month counted from March. */
  function MonthStart(mp: nat): nat {
    (153 * mp + 2) / 5
  }

  /** The first day of a year of a 400-year era. */
  function YearStart(yoe: nat): int {
    yoe * 365 + yoe / 4 - yoe / 100
  }

  function MarchMonth(month: nat): int {
    if month > 2 then month - 3 else month + 9
  }

  function MarchYear(d: Date): int {
    if d.month <= 2 then d.year - 1 else d.year
  }

  /** Division that truncates, made to round down as the program does. */
  function Era(year: int): int {
    if year >= 0 then year / 400 else -((-(year - 399)) / 400)
  }

  function DaysFromCivil(d: Date): int
    requires d.month <= 12
  {
    var year := MarchYear(d);
    var yoe := year - Era(year) * 400;
    EraFloors(year);
    var doe := YearStart(yoe) + MonthStart(MarchMonth(d.month)) + d.day - 1;
    Era(year) * ERA_DAYS + doe - EPOCH
  }

  lemma EraFloors(year: int)
    ensures Era(year) == year / 400 && 0 <= year - Era(year) * 400 < 400
  {
  }

  function DayEra(shifted: int): int {
    if shifted >= 0 then shifted / ERA_DAYS else -((-(shifted - 146096)) / ERA_DAYS)
  }

  lemma DayEraFloors(shifted: int)
    ensures DayEra(shifted) == shifted / ERA_DAYS && 0 <= shifted - DayEra(shifted) * ERA_DAYS < ERA_DAYS
  {
  }

  function YearOfEra(doe: nat): nat
    requires doe < ERA_DAYS
  {
    (doe - doe / 1460 + doe / 36524 - doe / 146096) / 365
  }

  /** The month a day of the year falls in, counted from March. */
  function MonthOf(doy: nat): (mp: nat)
    requires doy < 366
    ensures mp <= 11 && MonthStart(mp) <= doy && (mp < 11 ==> doy < MonthStart(mp + 1))
  {
    (5 * doy + 2) / 153
  }

  /** The date of a day `t` in the month `mp` after March, of a year that ends in `year`. */
  function InMonth(year: int, mp: nat, t: nat): Date
    requires mp <= 11 && MonthStart(mp) <= t
  {
    Date(if mp < 10 then year - 1 else year, if mp < 10 then mp + 3 else mp - 9, t - MonthStart(mp) + 1)
  }

  /** A date from the era's number, the year in it and the day in that. */
  function FromParts(era: int, yoe: nat, doy: nat): Date
    requires doy < 366
  {
    InMonth(yoe + era * 400 + 1, MonthOf(doy), doy)
  }

  // ---------------------------------------------------------------------------
  // Years within an era.

  /** A day of an era, as centuries, four-year cycles, years and days: the last day of a year is there
      only if the March that follows ends a leap February. */
  predicate Splits(c: nat, q: nat, r: nat, t: nat) {
    c <= 3 && q <= 24 && r <= 3 && t <= 365 && (t == 365 ==> Long(c, q, r))
  }

  function DayOf(c: nat, q: nat, r: nat, t: nat): nat {
    36524 * c + 1461 * q + 365 * r + t
  }

  function YearIn(c: nat, q: nat, r: nat): nat {
    100 * c + 4 * q + r
  }

  lemma SplitDay(doe: nat) returns (c: nat, q: nat, r: nat, t: nat)
    requires doe < ERA_DAYS
    ensures Splits(c, q, r, t) && DayOf(c, q, r, t) == doe
  {
    c := if doe / 36524 < 4 then doe / 36524 else 3;
    var rest := doe - 36524 * c;
    q := rest / 1461;
    var last := rest - 1461 * q;
    r := if last / 365 < 4 then last / 365 else 3;
    t := last - 365 * r;
  }

  lemma YearStarts(c: nat, q: nat, r: nat)
    requires c <= 3 && q <= 24 && r <= 3
    ensures YearStart(YearIn(c, q, r)) == DayOf(c, q, r, 0)
  {
    Quotient(YearIn(c, q, r), 4, 25 * c + q, r);
    Quotient(YearIn(c, q, r), 100, c, 4 * q + r);
  }

  lemma Quotient(n: nat, d: nat, q: nat, r: nat)
    requires r < d && n == d * q + r
    ensures n / d == q
  {
    assert n - r == d * q;
    if n / d < q {
      assert d * (n / d + 1) <= d * q by { Multiply(d, n / d + 1, q); }
    } else if n / d > q {
      assert d * (q + 1) <= d * (n / d) by { Multiply(d, q + 1, n / d); }
    }
  }

  lemma Multiply(d: nat, a: nat, b: nat)
    requires a <= b
    ensures d * a <= d * b
  {
    assert d * b == d * a + d * (b - a);
  }

  /** The program's estimate of the year is exact. */
  lemma YearFound(c: nat, q: nat, r: nat, t: nat)
    requires Splits(c, q, r, t)
    ensures DayOf(c, q, r, t) < ERA_DAYS && YearOfEra(DayOf(c, q, r, t)) == YearIn(c, q, r)
  {
    var doe := DayOf(c, q, r, t);
    var over := 24 * c + q + 365 * r + t;
    assert doe == 1460 * (25 * c + q) + over;
    var e := if over >= 1460 then 1 else 0;
    assert doe / 1460 == 25 * c + q + e;
    var f := if 1461 * q + 365 * r + t >= 36524 then 1 else 0;
    assert doe / 36524 == c + f;
    var h := if doe == 146096 then 1 else 0;
    assert doe / 146096 == h;
    assert doe - doe / 1460 + doe / 36524 - doe / 146096 == 365 * YearIn(c, q, r) + (t - e + f - h);
    assert 0 <= t - e + f - h <= 364;
  }

  /** Whether the February at the end of the year has 29 days. */
  predicate Long(c: nat, q: nat, r: nat) {
    r == 3 && (q < 24 || c == 3)
  }

  lemma LeapInEra(year: int, era: int, c: nat, q: nat, r: nat)
    requires c <= 3 && q <= 24 && r <= 3 && year == YearIn(c, q, r) + era * 400 + 1
    ensures Leap(year) <==> Long(c, q, r)
  {
    if r < 3 {
      Remainder(year, 4, 100 * era + 25 * c + q, r + 1);
    } else if q < 24 {
      Remainder(year, 4, 100 * era + 25 * c + q + 1, 0);
      Remainder(year, 100, 4 * era + c, 4 * q + 4);
    } else {
      Remainder(year, 4, 100 * era + 25 * c + 25, 0);
      Remainder(year, 100, 4 * era + c + 1, 0);
      Remainder(year, 400, if c == 3 then era + 1 else era, if c == 3 then 0 else 100 * (c + 1));
    }
  }

  lemma Remainder(n: int, d: nat, q: int, r: nat)
    requires r < d && n == d * q + r
    ensures n % d == r
  {
    assert n - d * (n / d) == n % d;
    var gap := q - n / d;
    assert d * gap == n % d - r;
    if gap >= 1 {
      Multiply(d, 1, gap);
    } else if gap <= -1 {
      Multiply(d, 1, -gap);
    }
  }

  // ---------------------------------------------------------------------------
  // Both ways.

  function LastDay(long: bool): nat {
    if long then 365 else 364
  }

  /** Whether the year `yoe` of an era ends in a February of 29 days. */
  predicate EndsLong(yoe: nat) {
    yoe % 4 == 3 && (yoe % 100 != 99 || yoe == 399)
  }

  /** `t` is a day of the year `yoe` of an era. */
  predicate InYear(yoe: nat, t: nat, long: bool) {
    yoe < 400 && t <= LastDay(long) && (long <==> EndsLong(yoe))
  }

  lemma SplitYear(yoe: nat) returns (c: nat, q: nat, r: nat)
    requires yoe < 400
    ensures c <= 3 && q <= 24 && r <= 3 && YearIn(c, q, r) == yoe && (EndsLong(yoe) <==> Long(c, q, r))
  {
    c := yoe / 100;
    q := (yoe - 100 * c) / 4;
    r := yoe - 100 * c - 4 * q;
    Remainder(yoe, 4, 25 * c + q, r);
    Remainder(yoe, 100, c, 4 * q + r);
  }

  lemma YearSplit(c: nat, q: nat, r: nat)
    requires c <= 3 && q <= 24 && r <= 3
    ensures YearIn(c, q, r) < 400 && (EndsLong(YearIn(c, q, r)) <==> Long(c, q, r))
  {
    Remainder(YearIn(c, q, r), 4, 25 * c + q, r);
    Remainder(YearIn(c, q, r), 100, c, 4 * q + r);
  }

  /** The year that a long year ends in is leap. */
  lemma LeapEnds(era: int, yoe: nat, year: int)
    requires yoe < 400 && year == yoe + era * 400 + 1
    ensures Leap(year) <==> EndsLong(yoe)
  {
    var c, q, r := SplitYear(yoe);
    LeapInEra(year, era, c, q, r);
  }

  /** A day of an era, as the program splits it. */
  lemma DayFound(doe: nat) returns (yoe: nat, t: nat, long: bool)
    requires doe < ERA_DAYS
    ensures InYear(yoe, t, long) && YearOfEra(doe) == yoe && doe == YearStart(yoe) + t
  {
    var c, q, r;
    c, q, r, t := SplitDay(doe);
    YearFound(c, q, r, t);
    YearStarts(c, q, r);
    YearSplit(c, q, r);
    yoe, long := YearIn(c, q, r), Long(c, q, r);
  }

  /** And the other way: what is assembled is split again. */
  lemma DayIsFound(doe: int, yoe: nat, t: nat, long: bool)
    requires InYear(yoe, t, long) && doe == YearStart(yoe) + t
    ensures 0 <= doe < ERA_DAYS && YearOfEra(doe) == yoe
  {
    var c, q, r := SplitYear(yoe);
    YearStarts(c, q, r);
    YearIsFound(doe, yoe, c, q, r, t);
  }

  lemma YearIsFound(doe: int, yoe: nat, c: nat, q: nat, r: nat, t: nat)
    requires Splits(c, q, r, t) && yoe == YearIn(c, q, r) && doe == DayOf(c, q, r, t)
    ensures 0 <= doe < ERA_DAYS && YearOfEra(doe) == yoe
  {
    YearFound(c, q, r, t);
  }

  /** The year that starts after the last day of this one, perhaps in the next era. */
  lemma NextYear(era: int, yoe: nat, t: nat, long: bool) returns (e: int, n: nat)
    requires InYear(yoe, t, long) && t == LastDay(long)
    ensures n < 400 && n + e * 400 == yoe + era * 400 + 1
    ensures e * ERA_DAYS + YearStart(n) == era * ERA_DAYS + YearStart(yoe) + t + 1
  {
    var c, q, r := SplitYear(yoe);
    YearStarts(c, q, r);
    if yoe == 399 {
      return era + 1, 0;
    }
    e, n := era, yoe + 1;
    if r < 3 {
      YearStarts(c, q, r + 1);
    } else if q < 24 {
      YearStarts(c, q + 1, 0);
    } else {
      YearStarts(c + 1, 0, 0);
    }
  }

  /** The lengths of the months are the gaps between their starts, February's apart. */
  lemma MonthLength(year: int, mp: nat)
    requires mp < 11
    ensures MonthStart(mp) + DaysInMonth(year, if mp < 10 then mp + 3 else mp - 9) == MonthStart(mp + 1)
    ensures (5 * MonthStart(mp + 1) + 2) / 153 == mp + 1
  {
  }

  /** A date found from parts is real, and the parts are found from it. */
  lemma PartsReal(era: int, yoe: nat, t: nat, long: bool)
    requires t <= LastDay(long) && (long <==> Leap(yoe + era * 400 + 1))
    ensures var d := FromParts(era, yoe, t);
            Real(d) && MarchYear(d) == yoe + era * 400 && MonthStart(MarchMonth(d.month)) + d.day - 1 == t
  {
    var mp := MonthOf(t);
    if mp < 11 {
      MonthLength(yoe + era * 400 + (if mp < 10 then 0 else 1), mp);
    }
  }

  /** The day number of a date found from parts. */
  lemma DaysOfParts(era: int, yoe: nat, t: nat, long: bool)
    requires InYear(yoe, t, long)
    ensures Real(FromParts(era, yoe, t))
    ensures DaysFromCivil(FromParts(era, yoe, t)) == era * ERA_DAYS + YearStart(yoe) + t - EPOCH
  {
    LeapEnds(era, yoe, yoe + era * 400 + 1);
    PartsReal(era, yoe, t, long);
    EraFloors(yoe + era * 400);
    EraOf(era, yoe);
  }

  lemma EraOf(era: int, yoe: nat)
    requires yoe < 400
    ensures (yoe + era * 400) / 400 == era
  {
  }

  /** Every day number names a real date, and the date's number is that one again. */
  method CivilFromDays(z: int) returns (d: Date)
    ensures Real(d) && DaysFromCivil(d) == z
  {
    var shifted := z + EPOCH;
    var era := DayEra(shifted);
    DayEraFloors(shifted);
    var doe: nat := shifted - era * ERA_DAYS;
    ghost var year, t, long := DayFound(doe);
    var yoe := YearOfEra(doe);
    var doy: nat := doe - YearStart(yoe);
    DaysOfParts(era, yoe, doy, long);
    d := FromParts(era, yoe, doy);
  }

  lemma DateOfNumber(z: int) returns (d: Date)
    ensures Real(d) && DaysFromCivil(d) == z
  {
    DayEraFloors(z + EPOCH);
    var era := DayEra(z + EPOCH);
    var doe: nat := z + EPOCH - era * ERA_DAYS;
    var yoe, t, long := DayFound(doe);
    DaysOfParts(era, yoe, t, long);
    d := FromParts(era, yoe, t);
  }

  /** A real date, as the parts it is found from. */
  lemma PartsOf(d: Date) returns (era: int, yoe: nat, t: nat, long: bool)
    requires Real(d)
    ensures InYear(yoe, t, long) && FromParts(era, yoe, t) == d && (long <==> Leap(yoe + era * 400 + 1))
  {
    EraFloors(MarchYear(d));
    era := Era(MarchYear(d));
    yoe := MarchYear(d) - era * 400;
    t := MonthStart(MarchMonth(d.month)) + d.day - 1;
    long := Leap(MarchYear(d) + 1);
    DayInYear(d);
    LeapEnds(era, yoe, MarchYear(d) + 1);
  }

  /** Counting months from March finds the month again. */
  lemma DayInYear(d: Date)
    requires Real(d)
    ensures var t := MonthStart(MarchMonth(d.month)) + d.day - 1;
            t <= LastDay(Leap(MarchYear(d) + 1)) && (5 * t + 2) / 153 == MarchMonth(d.month)
  {
  }

  /** No two real dates have the same number, so every real date comes back from its own. */
  lemma NumbersDiffer(d: Date, e: Date)
    requires Real(d) && Real(e) && DaysFromCivil(d) == DaysFromCivil(e)
    ensures d == e
  {
    var era, yoe, t, long := PartsOf(d);
    var era', yoe', t', long' := PartsOf(e);
    DaysOfParts(era, yoe, t, long);
    DaysOfParts(era', yoe', t', long');
    SameParts(era, yoe, t, long, era', yoe', t', long');
  }

  lemma SameParts(era: int, yoe: nat, t: nat, long: bool, e: int, n: nat, u: nat, other: bool)
    requires InYear(yoe, t, long) && InYear(n, u, other)
    requires era * ERA_DAYS + YearStart(yoe) + t == e * ERA_DAYS + YearStart(n) + u
    ensures era == e && yoe == n && t == u
  {
    DayIsFound(YearStart(yoe) + t, yoe, t, long);
    DayIsFound(YearStart(n) + u, n, u, other);
    SameEra(era, YearStart(yoe) + t, e, YearStart(n) + u);
  }

  lemma SameEra(era: int, doe: nat, e: int, day: nat)
    requires doe < ERA_DAYS && day < ERA_DAYS && era * ERA_DAYS + doe == e * ERA_DAYS + day
    ensures era == e && doe == day
  {
  }

  lemma NextInMonth(year: int, mp: nat, t: nat, next: nat)
    requires t < LastDay(Leap(year))
    requires mp <= 11 && MonthStart(mp) <= t && (mp < 11 ==> t < MonthStart(mp + 1))
    requires next <= 11 && MonthStart(next) <= t + 1 && (next < 11 ==> t + 1 < MonthStart(next + 1))
    ensures Tomorrow(InMonth(year, mp, t)) == InMonth(year, next, t + 1)
  {
    if mp < 11 {
      MonthLength(if mp < 10 then year - 1 else year, mp);
    }
  }

  /** Within a year that starts in March, the next day is tomorrow. */
  lemma NextInYear(era: int, yoe: nat, t: nat, d: Date, next: Date)
    requires t < LastDay(Leap(yoe + era * 400 + 1))
    requires d == FromParts(era, yoe, t) && next == FromParts(era, yoe, t + 1)
    ensures Tomorrow(d) == next
  {
    NextInMonth(yoe + era * 400 + 1, MonthOf(t), t, MonthOf(t + 1));
  }

  /** The last day of such a year is the last of February. */
  lemma LastOfFebruary(era: int, yoe: nat, year: int)
    requires year == yoe + era * 400 + 1
    ensures var t := LastDay(Leap(year));
            FromParts(era, yoe, t) == Date(year, 2, t - 336) && Tomorrow(Date(year, 2, t - 336)) == Date(year, 3, 1)
  {
  }

  lemma FirstOfMarch(e: int, n: nat)
    ensures FromParts(e, n, 0) == Date(n + e * 400, 3, 1)
  {
  }

  /** The numbers follow the calendar: the day after a date has the next number. */
  lemma TomorrowIsNext(d: Date)
    requires Real(d)
    ensures Real(Tomorrow(d)) && DaysFromCivil(Tomorrow(d)) == DaysFromCivil(d) + 1
  {
    var era, yoe, t, long := PartsOf(d);
    if t < LastDay(long) {
      NextInYear(era, yoe, t, d, FromParts(era, yoe, t + 1));
      NumbersFollow(d, Tomorrow(d), era, yoe, t, long, era, yoe, t + 1, long);
    } else {
      LastOfFebruary(era, yoe, yoe + era * 400 + 1);
      var e, n := NextYear(era, yoe, t, long);
      FirstOfMarch(e, n);
      NumbersFollow(d, Tomorrow(d), era, yoe, t, long, e, n, 0, EndsLong(n));
    }
  }

  lemma NumbersFollow(d: Date, next: Date, era: int, yoe: nat, t: nat, long: bool, e: int, n: nat, u: nat, other: bool)
    requires InYear(yoe, t, long) && d == FromParts(era, yoe, t) && InYear(n, u, other) && next == FromParts(e, n, u)
    requires e * ERA_DAYS + YearStart(n) + u == era * ERA_DAYS + YearStart(yoe) + t + 1
    ensures Real(d) && Real(next) && DaysFromCivil(next) == DaysFromCivil(d) + 1
  {
    DaysOfParts(era, yoe, t, long);
    DaysOfParts(e, n, u, other);
  }

  /** The count starts on the first of January 1970. */
  lemma Epoch()
    ensures Real(Date(1970, 1, 1)) && DaysFromCivil(Date(1970, 1, 1)) == 0
  {
    DaysOfParts(4, 369, 306, false);
  }

  /** There is no other count of days: whatever gives 0 to that date and one more to each next day
      agrees with this one on every real date, before the epoch or after it. */
  lemma {:induction false} OnlyCount(count: Date -> int, d: Date)
    requires count(Date(1970, 1, 1)) == 0
    requires forall e :: Real(e) ==> count(Tomorrow(e)) == count(e) + 1
    requires Real(d)
    ensures count(d) == DaysFromCivil(d)
    decreases if DaysFromCivil(d) < 0 then -DaysFromCivil(d) else DaysFromCivil(d)
  {
    if DaysFromCivil(d) == 0 {
      Epoch();
      NumbersDiffer(d, Date(1970, 1, 1));
    } else if DaysFromCivil(d) < 0 {
      TomorrowIsNext(d);
      OnlyCount(count, Tomorrow(d));
    } else {
      var yesterday := DateOfNumber(DaysFromCivil(d) - 1);
      TomorrowIsNext(yesterday);
      NumbersDiffer(d, Tomorrow(yesterday));
      OnlyCount(count, yesterday);
    }
  }

  // ---------------------------------------------------------------------------
  // Instants.

  predicate ValidCivil(c: Civil) {
    1 <= c.date.year <= 9999 && Real(c.date) && c.hour <= 23 && c.minute <= 59 && c.second <= 59
  }

  /** Seconds since the epoch. */
  function Seconds(c: Civil): int
    requires c.date.month <= 12
  {
    DaysFromCivil(c.date) * 86400 + (c.hour * 3600 + c.minute * 60 + c.second)
  }

  /** Nothing but a real time of a real day converts. */
  function WallTimeFromCivil(c: Civil): (seconds: Option<int>)
    ensures seconds.Some? <==> ValidCivil(c)
  {
    if c.date.year < 1 || c.date.year > 9999 || c.date.day == 0 || c.date.day > DaysInMonth(c.date.year, c.date.month)
       || c.hour > 23 || c.minute > 59 || c.second > 59
    then None
    else Some(Seconds(c))
  }

  /** The civil time of a second count: the one that counts to it, or none when the year is past what
      the calendar here covers. */
  method CivilFromWallTime(seconds: int) returns (c: Option<Civil>)
    ensures c.Some? ==> ValidCivil(c.value) && Seconds(c.value) == seconds
    ensures c == None ==> forall v: Civil :: ValidCivil(v) ==> Seconds(v) != seconds
  {
    var days, rest := FloorDay(seconds);
    var date := CivilFromDays(days);
    ClockJoin(rest);
    var civil := Civil(date, rest / 3600, rest / 60 % 60, rest % 60);
    if 1 <= date.year <= 9999 {
      return Some(civil);
    }
    forall v: Civil | ValidCivil(v) ensures Seconds(v) != seconds {
      if Seconds(v) == seconds {
        OneDay(v, days, rest);
        NumbersDiffer(v.date, date);
      }
    }
    return None;
  }

  /** Truncated division, made to round down as the program does. */
  method FloorDay(seconds: int) returns (days: int, rest: nat)
    ensures seconds == days * 86400 + rest && rest < 86400
  {
    days := if seconds < 0 then -((-seconds) / 86400) else seconds / 86400;
    var left := seconds - days * 86400;
    if left < 0 {
      left := left + 86400;
      days := days - 1;
    }
    rest := left;
  }

  lemma ClockJoin(rest: nat)
    requires rest < 86400
    ensures rest == rest / 3600 * 3600 + rest / 60 % 60 * 60 + rest % 60
    ensures rest / 3600 <= 23 && rest / 60 % 60 <= 59 && rest % 60 <= 59
  {
    var hour, past := rest / 3600, rest % 3600;
    Quotient(rest, 60, hour * 60 + past / 60, past % 60);
    Remainder(rest, 60, hour * 60 + past / 60, past % 60);
    Remainder(rest / 60, 60, hour, past / 60);
  }

  lemma OneDay(v: Civil, days: int, rest: nat)
    requires ValidCivil(v) && rest < 86400 && Seconds(v) == days * 86400 + rest
    ensures DaysFromCivil(v.date) == days && v.hour * 3600 + v.minute * 60 + v.second == rest
  {
    SameDay(DaysFromCivil(v.date), v.hour * 3600 + v.minute * 60 + v.second, days, rest);
  }

  lemma SameDay(a: int, x: nat, b: int, y: nat)
    requires x < 86400 && y < 86400 && a * 86400 + x == b * 86400 + y
    ensures a == b && x == y
  {
  }

  lemma SameClock(h: nat, m: nat, s: nat, i: nat, n: nat, u: nat)
    requires h <= 23 && m <= 59 && s <= 59 && i <= 23 && n <= 59 && u <= 59
    requires h * 3600 + m * 60 + s == i * 3600 + n * 60 + u
    ensures h == i && m == n && s == u
  {
  }

  /** No two civil times are the same instant, so each comes back from its own. */
  lemma InstantsDiffer(a: Civil, b: Civil)
    requires ValidCivil(a) && ValidCivil(b) && Seconds(a) == Seconds(b)
    ensures a == b
  {
    OneDay(a, DaysFromCivil(b.date), b.hour * 3600 + b.minute * 60 + b.second);
    NumbersDiffer(a.date, b.date);
    SameClock(a.hour, a.minute, a.second, b.hour, b.minute, b.second);
  }
}
