// The one piece of date arithmetic in the program, against a calendar that only knows how
// to turn a page: the Gregorian rule of Appendix C of RFC 3339, one day at a time.
module Calendar {
  datatype Date = Date(year: int, month: int, day: int)

  // ---- The calendar on the wall ----

  predicate IsLeap(year: int) {
    year % 4 == 0 && (year % 100 != 0 || year % 400 == 0)
  }

  function DaysIn(year: int, month: int): int {
    if month == 2 then (if IsLeap(year) then 29 else 28)
    else if month in {4, 6, 9, 11} then 30
    else 31
  }

  predicate OnTheWall(d: Date) {
    1 <= d.month <= 12 && 1 <= d.day <= DaysIn(d.year, d.month)
  }

  function NextDay(d: Date): Date {
    if d.day < DaysIn(d.year, d.month) then d.(day := d.day + 1)
    else if d.month < 12 then Date(d.year, d.month + 1, 1)
    else Date(d.year + 1, 1, 1)
  }

  // The page after `n` turns from the first of January 1970.
  function Page(n: nat): Date {
    if n == 0 then Date(1970, 1, 1) else NextDay(Page(n - 1))
  }

  // ---- The closed form ----

  // The era is the one place a dividend could be negative; this is division towards zero.
  function Truncated(a: int, b: int): int
    requires b > 0
  {
    if a >= 0 then a / b else -((-a) / b)
  }

  function Era(z: int): int { Truncated(if z >= 0 then z else z - 146_096, 146_097) }

  function YearOfEra(doe: int): int { (doe - doe / 1_460 + doe / 36_524 - doe / 146_096) / 365 }

  // Days before a year of the era; its years begin with March.
  function Before(yoe: int): int { 365 * yoe + yoe / 4 - yoe / 100 }

  function OfMarchYear(year: int, doy: int): Date {
    var mp := (5 * doy + 2) / 153;
    var day := doy - (153 * mp + 2) / 5 + 1;
    var month := if mp < 10 then mp + 3 else mp - 9;
    Date(if month <= 2 then year + 1 else year, month, day)
  }

  function CivilFromDays(days: int): Date {
    var z := days + 719_468;
    var era := Era(z);
    var doe := z - era * 146_097;
    var yoe := YearOfEra(doe);
    OfMarchYear(yoe + era * 400, doe - Before(yoe))
  }

  // ---- Where a day is ----

  // A year of the era ends with the February of the next.
  function Length(yoe: int): int { if IsLeap(yoe + 1) then 366 else 365 }

  predicate Within(yoe: int, doy: int) {
    0 <= yoe <= 399 && 0 <= doy < Length(yoe)
  }

  lemma YearsAreTiled(yoe: int)
    requires 0 <= yoe <= 399
    ensures Before(0) == 0
    ensures yoe < 399 ==> Before(yoe + 1) == Before(yoe) + Length(yoe)
    ensures yoe == 399 ==> Before(yoe) + Length(yoe) == 146_097
  {
    hide IsLeap;
    var next := yoe + 1;
    OneMoreBy4(yoe);
    OneMoreBy100(yoe);
    LeapInEra(next);
  }

  lemma OneMoreBy4(n: int)
    ensures (n + 1) / 4 == n / 4 + if (n + 1) % 4 == 0 then 1 else 0
  {
  }

  lemma OneMoreBy100(n: int)
    ensures (n + 1) / 100 == n / 100 + if (n + 1) % 100 == 0 then 1 else 0
  {
  }

  // Within an era only its last year ends a fourth century.
  lemma LeapInEra(year: int)
    requires 0 < year <= 400
    ensures IsLeap(year) <==> year % 4 == 0 && (year % 100 == 0 ==> year == 400)
    ensures year % 100 == 0 ==> year % 4 == 0
  {
    var hundreds := year / 100;
    assert year % 100 == 0 ==> year == 4 * (25 * hundreds);
  }

  // By its century, its place among the leap years of it, and its place between two of those.
  lemma YearIsFound(yoe: int, doy: int)
    requires Within(yoe, doy)
    ensures 0 <= Before(yoe) + doy < 146_097
    ensures YearOfEra(Before(yoe) + doy) == yoe
  {
    hide YearOfEra, IsLeap;
    var century, four, rest := Parts(yoe);
    LeapInEra(yoe + 1);
    assert doy == 365 ==> rest == 3 && (yoe == 399 || four < 24);
    if yoe == 399 && doy == 365 {
      LastDayOfEra();
    } else {
      LongLeaps(century, four, rest, doy);
    }
  }

  lemma Parts(yoe: int) returns (century: int, four: int, rest: int)
    requires 0 <= yoe <= 399
    ensures 0 <= century <= 3 && 0 <= four <= 24 && 0 <= rest <= 3 && yoe == 100 * century + 4 * four + rest
    ensures Before(yoe) == 36_524 * century + 1_461 * four + 365 * rest
    ensures (yoe + 1) % 4 == 0 ==> rest == 3
    ensures four == 24 && rest == 3 ==> (yoe + 1) % 100 == 0
  {
    century := yoe / 100;
    var within := yoe % 100;
    four, rest := within / 4, within % 4;
    assert yoe == 4 * (25 * century + four) + rest;
    assert yoe / 4 == 25 * century + four;
  }

  lemma LastDayOfEra()
    ensures Before(399) + 365 == 146_096 && YearOfEra(146_096) == 399
  {
  }

  lemma LongLeaps(century: int, four: int, rest: int, doy: int)
    requires 0 <= century <= 3 && 0 <= four <= 24 && 0 <= rest <= 3 && 0 <= doy <= 365
    requires doy == 365 ==> rest == 3 && four < 24
    ensures YearOfEra(36_524 * century + 1_461 * four + 365 * rest + doy) == 100 * century + 4 * four + rest
  {
    var doe := 36_524 * century + 1_461 * four + 365 * rest + doy;
    var over := 24 * century + four + 365 * rest + doy;
    assert doe == 1_460 * (25 * century + four) + over;
    assert doe / 1_460 == 25 * century + four + over / 1_460;
    assert doe / 36_524 == century && doe / 146_096 == 0;
  }

  lemma EraIsFound(era: int, doe: int)
    requires 0 <= doe < 146_097
    ensures Era(era * 146_097 + doe) == era
  {
  }

  // Where the next day is: further on in its year, or first in the one after.
  lemma {:induction false} DayIsFound(doe: nat)
    requires doe < 146_097
    ensures Within(YearOfEra(doe), doe - Before(YearOfEra(doe)))
  {
    hide YearOfEra, Before, IsLeap;
    YearsAreTiled(0);
    if doe == 0 {
      YearIsFound(0, 0);
    } else {
      DayIsFound(doe - 1);
      var yoe := YearOfEra(doe - 1);
      var doy := doe - 1 - Before(yoe);
      YearsAreTiled(yoe);
      if doy + 1 < Length(yoe) {
        YearIsFound(yoe, doy + 1);
      } else {
        YearIsFound(yoe + 1, 0);
      }
    }
  }

  // The closed form of a day given by its era, year and place in that year.
  lemma CivilAt(days: int, era: int, yoe: int, doy: int)
    requires Within(yoe, doy) && days + 719_468 == era * 146_097 + Before(yoe) + doy
    ensures CivilFromDays(days) == OfMarchYear(yoe + era * 400, doy)
  {
    hide YearOfEra, Before, Era, OfMarchYear, IsLeap, Within;
    YearIsFound(yoe, doy);
    EraIsFound(era, Before(yoe) + doy);
  }

  lemma EveryDayIsSomewhere(days: int) returns (era: int, yoe: int, doy: int)
    ensures Within(yoe, doy) && days + 719_468 == era * 146_097 + Before(yoe) + doy
  {
    var z := days + 719_468;
    era := z / 146_097;
    DayIsFound(z % 146_097);
    yoe := YearOfEra(z % 146_097);
    doy := z % 146_097 - Before(yoe);
  }

  // ---- The step ----

  lemma LeapsRepeat(era: int, year: int)
    ensures IsLeap(year + era * 400) <==> IsLeap(year)
  {
    var eras, rest := year / 400, year % 400;
    LeapOfRemainder(eras, rest);
    LeapOfRemainder(eras + era, rest);
  }

  lemma LeapOfRemainder(eras: int, rest: int)
    requires 0 <= rest < 400
    ensures IsLeap(eras * 400 + rest) <==> IsLeap(rest)
  {
    Remainder4(100 * eras, rest);
    Remainder100(4 * eras, rest);
    Remainder400(eras, rest);
  }

  lemma Remainder4(k: int, n: int)
    ensures (4 * k + n) % 4 == n % 4
  {
    assert 4 * k + n == 4 * (k + n / 4) + n % 4;
  }

  lemma Remainder100(k: int, n: int)
    ensures (100 * k + n) % 100 == n % 100
  {
    assert 100 * k + n == 100 * (k + n / 100) + n % 100;
  }

  lemma Remainder400(k: int, n: int)
    ensures (400 * k + n) % 400 == n % 400
  {
    assert 400 * k + n == 400 * (k + n / 400) + n % 400;
  }

  // The months of a year that begins with March, for any day of it.
  lemma NextInYear(year: int, doy: int)
    requires 0 <= doy && doy + 1 < (if IsLeap(year + 1) then 366 else 365)
    ensures OnTheWall(OfMarchYear(year, doy))
    ensures OfMarchYear(year, doy + 1) == NextDay(OfMarchYear(year, doy))
  {
    hide IsLeap;
  }

  lemma LastInYear(year: int)
    ensures var doy := if IsLeap(year + 1) then 365 else 364;
            OnTheWall(OfMarchYear(year, doy)) && OfMarchYear(year + 1, 0) == NextDay(OfMarchYear(year, doy))
  {
    hide IsLeap;
  }

  // One day later is one page further, for every day there is.
  lemma OneDayLater(days: int)
    ensures OnTheWall(CivilFromDays(days))
    ensures CivilFromDays(days + 1) == NextDay(CivilFromDays(days))
  {
    hide YearOfEra, Before, OfMarchYear, IsLeap, NextDay, CivilFromDays, OnTheWall;
    var era, yoe, doy := EveryDayIsSomewhere(days);
    var year := yoe + era * 400;
    CivilAt(days, era, yoe, doy);
    LeapsRepeat(era, yoe + 1);
    YearsAreTiled(yoe);
    if doy + 1 < Length(yoe) {
      CivilAt(days + 1, era, yoe, doy + 1);
      NextInYear(year, doy);
    } else {
      LastInYear(year);
      if yoe < 399 {
        CivilAt(days + 1, era, yoe + 1, 0);
      } else {
        CivilAt(days + 1, era + 1, 0, 0);
      }
    }
  }

  lemma FirstPage()
    ensures CivilFromDays(0) == Date(1970, 1, 1)
  {
    hide CivilFromDays, YearOfEra;
    assert Before(369) == 134_774;
    CivilAt(0, 4, 369, 306);
  }

  // The closed form is the calendar.
  lemma {:induction false} ClosedFormIsTheCalendar(days: nat)
    ensures CivilFromDays(days) == Page(days) && OnTheWall(Page(days))
  {
    hide CivilFromDays, NextDay, OnTheWall;
    OneDayLater(days);
    if days == 0 {
      FirstPage();
    } else {
      ClosedFormIsTheCalendar(days - 1);
      OneDayLater(days - 1);
    }
  }

  // ---- Counting back ----

  function DaysInYear(year: int): int { if IsLeap(year) then 366 else 365 }

  // Days from the first of January 1970 to the first of January of a year.
  function YearStart(year: int): int
    decreases if year >= 1970 then year - 1970 else 1970 - year
  {
    if year == 1970 then 0
    else if year > 1970 then YearStart(year - 1) + DaysInYear(year - 1)
    else YearStart(year + 1) - DaysInYear(year)
  }

  function MonthStart(year: int, month: int): int
    requires 1 <= month
    decreases month
  {
    if month == 1 then 0 else MonthStart(year, month - 1) + DaysIn(year, month - 1)
  }

  function DayNumber(d: Date): int
    requires d.month >= 1
  {
    YearStart(d.year) + MonthStart(d.year, d.month) + d.day - 1
  }

  lemma NextDayCountsOne(d: Date)
    requires OnTheWall(d)
    ensures OnTheWall(NextDay(d)) && DayNumber(NextDay(d)) == DayNumber(d) + 1
  {
  }

  // Counting the days up to a date gives back the day it was made from.
  lemma {:induction false} DayNumberInverts(days: nat)
    ensures DayNumber(CivilFromDays(days)) == days
  {
    hide CivilFromDays, NextDay;
    ClosedFormIsTheCalendar(days);
    if days == 0 {
    } else {
      DayNumberInverts(days - 1);
      OneDayLater(days - 1);
      NextDayCountsOne(CivilFromDays(days - 1));
    }
  }

  // ---- With the time of day ----

  datatype Civil = Civil(date: Date, hour: int, minute: int, second: int)

  predicate OnTheClock(c: Civil) {
    OnTheWall(c.date) && 0 <= c.hour < 24 && 0 <= c.minute < 60 && 0 <= c.second < 60
  }

  // `civil_from_unix`
  function CivilFromUnix(seconds: nat): Civil {
    var rest := seconds % 86_400;
    Civil(CivilFromDays(seconds / 86_400), rest / 3_600, rest % 3_600 / 60, rest % 60)
  }

  // A clock with a calendar behind it, moved on by one second.
  function Tick(c: Civil): Civil {
    if c.second < 59 then c.(second := c.second + 1)
    else if c.minute < 59 then c.(minute := c.minute + 1, second := 0)
    else if c.hour < 23 then c.(hour := c.hour + 1, minute := 0, second := 0)
    else Civil(NextDay(c.date), 0, 0, 0)
  }

  function AfterTicks(n: nat): Civil {
    if n == 0 then Civil(Date(1970, 1, 1), 0, 0, 0) else Tick(AfterTicks(n - 1))
  }

  lemma OneSecondLater(seconds: nat)
    ensures OnTheClock(CivilFromUnix(seconds)) && CivilFromUnix(seconds + 1) == Tick(CivilFromUnix(seconds))
  {
    hide CivilFromDays, NextDay, OnTheWall;
    var days, hour, minute, second := WhenItIs(seconds);
    OneDayLater(days);
    ClockIsFound(days, hour, minute, second);
    if second < 59 {
      ClockIsFound(days, hour, minute, second + 1);
    } else if minute < 59 {
      ClockIsFound(days, hour, minute + 1, 0);
    } else if hour < 23 {
      ClockIsFound(days, hour + 1, 0, 0);
    } else {
      ClockIsFound(days + 1, 0, 0, 0);
    }
  }

  lemma WhenItIs(seconds: nat) returns (days: nat, hour: nat, minute: nat, second: nat)
    ensures hour < 24 && minute < 60 && second < 60
    ensures seconds == 86_400 * days + 3_600 * hour + 60 * minute + second
  {
    days := seconds / 86_400;
    var rest := seconds % 86_400;
    hour := rest / 3_600;
    minute, second := rest % 3_600 / 60, rest % 3_600 % 60;
  }

  // The divisions find the fields.
  lemma ClockIsFound(days: nat, hour: nat, minute: nat, second: nat)
    requires hour < 24 && minute < 60 && second < 60
    ensures CivilFromUnix(86_400 * days + 3_600 * hour + 60 * minute + second)
         == Civil(CivilFromDays(days), hour, minute, second)
  {
    hide CivilFromDays;
    var rest := 3_600 * hour + 60 * minute + second;
    var seconds := 86_400 * days + rest;
    assert rest < 86_400;
    assert seconds / 86_400 == days && seconds % 86_400 == rest;
    assert rest / 3_600 == hour && rest % 3_600 == 60 * minute + second;
    assert rest == 60 * (60 * hour + minute) + second;
  }

  // The whole of `civil_from_unix`, for every second there will ever be.
  lemma {:induction false} CivilFromUnixTicks(seconds: nat)
    ensures CivilFromUnix(seconds) == AfterTicks(seconds) && OnTheClock(CivilFromUnix(seconds))
  {
    hide CivilFromDays, OnTheClock, Tick;
    OneSecondLater(seconds);
    if seconds == 0 {
      FirstPage();
    } else {
      CivilFromUnixTicks(seconds - 1);
      OneSecondLater(seconds - 1);
    }
  }

  function SecondsOf(c: Civil): int
    requires c.date.month >= 1
  {
    86_400 * DayNumber(c.date) + 3_600 * c.hour + 60 * c.minute + c.second
  }

  // Nothing is lost: the fields give back the second they were made from.
  lemma FieldsGiveTheSecondsBack(seconds: nat)
    ensures CivilFromUnix(seconds).date.month >= 1 && SecondsOf(CivilFromUnix(seconds)) == seconds
  {
    hide CivilFromDays, DayNumber;
    var days, rest := seconds / 86_400, seconds % 86_400;
    OneDayLater(days);
    DayNumberInverts(days);
    var hours, minutes, left := rest / 3_600, rest % 3_600 / 60, rest % 60;
    assert rest == 3_600 * hours + 60 * minutes + left;
  }

  predicate EarlierDate(a: Date, b: Date) {
    a.year < b.year || (a.year == b.year && (a.month < b.month || (a.month == b.month && a.day < b.day)))
  }

  predicate Earlier(a: Civil, b: Civil) {
    || EarlierDate(a.date, b.date)
    || (a.date == b.date && a.hour < b.hour)
    || (a.date == b.date && a.hour == b.hour && a.minute < b.minute)
    || (a.date == b.date && a.hour == b.hour && a.minute == b.minute && a.second < b.second)
  }

  // Later instants have later fields.
  lemma {:induction false} LaterIsLater(a: nat, b: nat)
    requires a < b
    ensures Earlier(CivilFromUnix(a), CivilFromUnix(b))
    decreases b
  {
    hide CivilFromUnix;
    OneSecondLater(b - 1);
    if a < b - 1 {
      LaterIsLater(a, b - 1);
    }
  }

  // ---- In the widths the code computes with ----

  predicate FitsI64(x: int) { -0x8000_0000_0000_0000 <= x < 0x8000_0000_0000_0000 }

  predicate FitsU32(x: int) { 0 <= x < 0x1_0000_0000 }

  // For every `u64` of seconds each step stays in an `i64`, and what is cut down to a `u32`
  // was one.
  lemma NothingOverflows(seconds: nat)
    requires seconds < 0x1_0000_0000_0000_0000
    ensures var z := seconds / 86_400 + 719_468;
            var era := Era(z);
            var doe := z - era * 146_097;
            var yoe := YearOfEra(doe);
            var doy := doe - Before(yoe);
            && FitsI64(seconds / 86_400) && 0 <= z && FitsI64(z) && FitsI64(era) && FitsI64(era * 146_097)
            && 0 <= doe < 146_097 && 0 <= yoe <= 399 && FitsI64(yoe + era * 400)
            && 0 <= doy <= 365 && 0 <= (5 * doy + 2) / 153 <= 11
    ensures var c := CivilFromUnix(seconds);
            FitsI64(c.date.year) && FitsU32(c.date.month) && FitsU32(c.date.day) && FitsU32(c.hour)
                && FitsU32(c.minute) && FitsU32(c.second)
  {
    hide Before, YearOfEra, IsLeap, NextDay;
    var z := seconds / 86_400 + 719_468;
    DayIsFound(z % 146_097);
    EraIsFound(z / 146_097, z % 146_097);
    OneSecondLater(seconds);
  }
}
