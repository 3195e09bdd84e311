/**
 * The civil calendar behind date constants and date columns: days since 1970-01-01 against years, months and days of the
 * proleptic Gregorian calendar. Years are 16-bit numbers. Divisions truncate, as in the original.
 */
module CivilDate {

  datatype Date = Date(y: int, m: int, d: int)

  // ---------------------------------------------------------------------------------------------
  // The code
  // ---------------------------------------------------------------------------------------------

  function TruncDiv(a: int, b: int): int
    requires b > 0
  {
    if a >= 0 then a / b else -(-a / b)
  }

  /** Conversion to a 16-bit year. */
  function ToShort(y: int): int {
    (y + 0x8000) % 0x1_0000 - 0x8000
  }

  predicate IsLeap(y: int) {
    y % 4 == 0 && (y % 100 != 0 || y % 400 == 0)
  }

  /** The last day of a month. */
  function LastDay(y: int, m: int): int
    requires 1 <= m <= 12
  {
    if m != 2 || !IsLeap(y) then [31, 28, 31, 30, 31, 30, 31, 31, 30, 31, 30, 31][m - 1] else 29
  }

  /** A date of the calendar, whatever its year. */
  predicate IsDate(x: Date) {
    1 <= x.m <= 12 && 1 <= x.d <= LastDay(x.y, x.m)
  }

  predicate Ok(x: Date) {
    -32767 <= x.y <= 32767 && IsDate(x)
  }

  /** Days of a year that begins in March, up to day `d` of month `m`. */
  function DayOfYear(m: int, d: int): int {
    (153 * (if m > 2 then m - 3 else m + 9) + 2) / 5 + d - 1
  }

  function ToDays(x: Date): int {
    var y := x.y - if x.m <= 2 then 1 else 0;
    var era := TruncDiv(if y >= 0 then y else y - 399, 400);
    var yoe := y - era * 400;
    var doe := yoe * 365 + yoe / 4 - yoe / 100 + DayOfYear(x.m, x.d);
    era * 146097 + doe - 719468
  }

  /** The year of an era of 400 years, from the day of the era. */
  function YearOfEra(doe: int): int {
    (doe - doe / 1460 + doe / 36524 - doe / 146096) / 365
  }

  /** The month of a day in a year that begins in March, counted from March. */
  function MarchMonth(doy: int): int {
    (5 * doy + 2) / 153
  }

  /** A day of an era of 400 years, and a day of a year that begins in March, counted from zero. */
  datatype EraDay = EraDay(era: int, doe: int)
  datatype YearDay = YearDay(y: int, doy: int)

  function SplitDays(days: int): EraDay {
    var z := days + 719468;
    var era := TruncDiv(if z >= 0 then z else z - 146096, 146097);
    EraDay(era, z - era * 146097)
  }

  function SplitEra(e: EraDay): YearDay {
    var yoe := YearOfEra(e.doe);
    YearDay(yoe + e.era * 400, e.doe - (365 * yoe + yoe / 4 - yoe / 100))
  }

  function DateInYear(day: YearDay): Date {
    var mp := MarchMonth(day.doy);
    var d := day.doy - (153 * mp + 2) / 5 + 1;
    var m := if mp < 10 then mp + 3 else mp - 9;
    Date(day.y + if m <= 2 then 1 else 0, m, d)
  }

  /** The date before its year is stored in 16 bits. */
  function WideFromDays(days: int): Date {
    DateInYear(SplitEra(SplitDays(days)))
  }

  function FromDays(days: int): Date {
    var x := WideFromDays(days);
    x.(y := ToShort(x.y))
  }

  /** Days since 1970-01-01, a Thursday, modulo seven, in 32-bit unsigned arithmetic. */
  function Weekday(days: int): int {
    var u := days % 0x1_0000_0000;
    if days >= -4 then (u + 4) % 0x1_0000_0000 % 7 else u % 7
  }

  // ---------------------------------------------------------------------------------------------
  // Eras and years
  // ---------------------------------------------------------------------------------------------

  /** The corrections in front of the truncating divisions make them round down. */
  lemma EraOfYear(y: int)
    ensures TruncDiv(if y >= 0 then y else y - 399, 400) == y / 400
  {
  }

  lemma SplitDaysIs(days: int, era: int, doe: int)
    requires 0 <= doe <= 146096 && days == era * 146097 + doe - 719468
    ensures SplitDays(days) == EraDay(era, doe)
  {
    var z := days + 719468;
    if z >= 0 {
      Div146097(z, era, doe);
    } else {
      Div146097(-(z - 146096), -era, 146096 - doe);
    }
  }

  lemma Div146097(a: int, q: int, r: int)
    requires a == 146097 * q + r && 0 <= r < 146097
    ensures a / 146097 == q
  {
  }

  /** The place of a year in its era: century, olympiad and year, all counted from zero. */
  ghost predicate Place(yoe: int, c: int, q: int, r: int) {
    0 <= c <= 3 && 0 <= q <= 24 && 0 <= r <= 3 && yoe == 100 * c + 4 * q + r
  }

  /** A year that begins in March has a 366th day if the February at its end is a leap one. */
  ghost predicate DayInYear(doy: int, c: int, q: int, r: int) {
    0 <= doy <= 365 && (doy == 365 ==> r == 3 && (q == 24 ==> c == 3))
  }

  function DayOfEra(yoe: int, doy: int): int {
    365 * yoe + yoe / 4 - yoe / 100 + doy
  }

  lemma PlaceYear(yoe: int) returns (c: int, q: int, r: int)
    requires 0 <= yoe <= 399
    ensures Place(yoe, c, q, r)
  {
    c := yoe / 100;
    q := yoe % 100 / 4;
    r := yoe % 4;
  }

  lemma Div4(a: int, q: int, r: int)
    requires a == 4 * q + r && 0 <= r < 4
    ensures a / 4 == q
  {
  }

  lemma Div100(a: int, q: int, r: int)
    requires a == 100 * q + r && 0 <= r < 100
    ensures a / 100 == q
  {
  }

  lemma Div365(a: int, q: int, r: int)
    requires a == 365 * q + r && 0 <= r < 365
    ensures a / 365 == q
  {
  }

  lemma Div1460(a: int, q: int, r: int)
    requires a == 1460 * q + r && 0 <= r < 1460
    ensures a / 1460 == q
  {
  }

  lemma Div36524(a: int, q: int, r: int)
    requires a == 36524 * q + r && 0 <= r < 36524
    ensures a / 36524 == q
  {
  }

  lemma DayOfEraAt(yoe: int, doy: int, c: int, q: int, r: int)
    requires Place(yoe, c, q, r)
    ensures DayOfEra(yoe, doy) == 36524 * c + 1461 * q + 365 * r + doy
  {
    Div4(yoe, 25 * c + q, r);
    Div100(yoe, c, 4 * q + r);
  }

  /** Two of the divisions count the centuries; on the last day of an era they both count one more. */
  lemma CenturyOfDay(doe: int, doy: int, c: int, q: int, r: int)
    requires 0 <= c <= 3 && 0 <= q <= 24 && 0 <= r <= 3 && DayInYear(doy, c, q, r)
    requires doe == 36524 * c + 1461 * q + 365 * r + doy
    ensures doe / 36524 - doe / 146096 == c && 0 <= doe <= 146096
  {
    if doe == 146096 {
      Div36524(doe, 4, 0);
    } else {
      Div36524(doe, c, 1461 * q + 365 * r + doy);
    }
  }

  /** The fixed point arithmetic of `YearOfEra` is exact on every day of the era. */
  lemma YearOfEraIsExact(yoe: int, doy: int, c: int, q: int, r: int, doe: int)
    requires Place(yoe, c, q, r) && DayInYear(doy, c, q, r) && doe == DayOfEra(yoe, doy)
    ensures YearOfEra(doe) == yoe
    ensures 0 <= doe <= 146096
  {
    DayOfEraAt(yoe, doy, c, q, r);
    CenturyOfDay(doe, doy, c, q, r);
    FourYears(doe, doy, c, q, r);
    var k := doe / 1460 - (25 * c + q);
    Div365(doe - doe / 1460 + doe / 36524 - doe / 146096, yoe, doy - k);
  }

  /** The remaining division counts olympiads, and one more towards the end of some. */
  lemma FourYears(doe: int, doy: int, c: int, q: int, r: int)
    requires 0 <= c <= 3 && 0 <= q <= 24 && 0 <= r <= 3 && DayInYear(doy, c, q, r)
    requires doe == 36524 * c + 1461 * q + 365 * r + doy
    ensures 0 <= doe / 1460 - (25 * c + q) <= doy
    ensures doy - (doe / 1460 - (25 * c + q)) <= 364
  {
    var t := 24 * c + q + 365 * r + doy;
    if t >= 1460 {
      Div1460(doe, 25 * c + q + 1, t - 1460);
    } else {
      Div1460(doe, 25 * c + q, t);
    }
  }

  /** Every day of an era is a day of one of its years. */
  lemma SplitDayOfEra(doe: int) returns (yoe: int, doy: int, c: int, q: int, r: int)
    requires 0 <= doe <= 146096
    ensures Place(yoe, c, q, r) && DayInYear(doy, c, q, r) && DayOfEra(yoe, doy) == doe
  {
    c := if doe / 36524 > 3 then 3 else doe / 36524;
    var inCentury := doe - 36524 * c;
    q := inCentury / 1461;
    var inOlympiad := inCentury - 1461 * q;
    r := if inOlympiad / 365 > 3 then 3 else inOlympiad / 365;
    doy := inOlympiad - 365 * r;
    yoe := 100 * c + 4 * q + r;
    assert yoe / 4 == 25 * c + q && yoe / 100 == c;
  }

  lemma Mod4(y: int, k: int, t: int)
    requires y == 4 * k + t && 1 <= t <= 4
    ensures y % 4 == 0 <==> t == 4
  {
  }

  lemma Mod100(y: int, k: int, t: int)
    requires y == 100 * k + t && 1 <= t <= 100
    ensures y % 100 == 0 <==> t == 100
  {
  }

  lemma Mod400(y: int, k: int, t: int)
    requires y == 400 * k + t && 1 <= t <= 400
    ensures y % 400 == 0 <==> t == 400
  {
  }

  /** The February at the end of a March year is a leap one exactly if its place says so. */
  lemma LeapPlace(y: int, era: int, yoe: int, c: int, q: int, r: int)
    requires Place(yoe, c, q, r) && y == 400 * era + yoe + 1
    ensures IsLeap(y) <==> r == 3 && (q == 24 ==> c == 3)
  {
    Mod4(y, 100 * era + 25 * c + q, r + 1);
    Mod100(y, 4 * era + c, 4 * q + r + 1);
    Mod400(y, era, 100 * c + 4 * q + r + 1);
  }

  // ---------------------------------------------------------------------------------------------
  // Months
  // ---------------------------------------------------------------------------------------------

  lemma MonthOfEarlyDay(m: int, d: int)
    requires 1 <= m <= 6 && 1 <= d <= (if m == 2 then 29 else LastDay(0, m))
    ensures forall y :: DateInYear(YearDay(y, DayOfYear(m, d))) == Date(y + if m <= 2 then 1 else 0, m, d)
  {
    if m == 1 {} else if m == 2 {} else if m == 3 {} else if m == 4 {} else if m == 5 {} else {}
  }

  lemma MonthOfLateDay(m: int, d: int)
    requires 7 <= m <= 12 && 1 <= d <= LastDay(0, m)
    ensures forall y :: DateInYear(YearDay(y, DayOfYear(m, d))) == Date(y, m, d)
  {
    if m == 7 {} else if m == 8 {} else if m == 9 {} else if m == 10 {} else if m == 11 {} else {}
  }

  /** Within a year, month and day can be read off the number of the day. */
  lemma MonthOfDay(m: int, d: int)
    requires 1 <= m <= 12 && 1 <= d <= (if m == 2 then 29 else LastDay(0, m))
    ensures forall y :: DateInYear(YearDay(y, DayOfYear(m, d))) == Date(y + if m <= 2 then 1 else 0, m, d)
  {
    if m <= 6 {
      MonthOfEarlyDay(m, d);
    } else {
      MonthOfLateDay(m, d);
    }
  }

  lemma LastDayOfYear(m: int, d: int)
    requires 1 <= m <= 12 && 1 <= d <= (if m == 2 then 29 else LastDay(0, m))
    ensures 0 <= DayOfYear(m, d) <= 365 && (DayOfYear(m, d) == 365 <==> m == 2 && d == 29)
  {
    if m == 1 {} else if m == 2 {} else if m == 3 {} else if m == 4 {} else if m == 5 {} else if m == 6 {}
    else if m == 7 {} else if m == 8 {} else if m == 9 {} else if m == 10 {} else if m == 11 {} else {}
  }

  /** And every day lies in a month. */
  lemma DayInMonth(doy: int)
    requires 0 <= doy <= 365
    ensures forall y {:trigger DateInYear(YearDay(y, doy))} :: var x := DateInYear(YearDay(y, doy));
      && MarchYear(x) == y && 1 <= x.m <= 12 && 1 <= x.d <= (if x.m == 2 then 29 else LastDay(0, x.m))
      && DayOfYear(x.m, x.d) == doy && (x.m == 2 && x.d == 29 <==> doy == 365)
  {
    var mp := MarchMonth(doy);
    if mp == 0 {} else if mp == 1 {} else if mp == 2 {} else if mp == 3 {} else if mp == 4 {} else if mp == 5 {}
    else if mp == 6 {} else if mp == 7 {} else if mp == 8 {} else if mp == 9 {} else if mp == 10 {} else {}
  }

  function MarchYear(x: Date): int {
    x.y - if x.m <= 2 then 1 else 0
  }

  // ---------------------------------------------------------------------------------------------
  // Dates
  // ---------------------------------------------------------------------------------------------

  /** The day number splits into era, year of the era and day of the year. */
  lemma ToDaysParts(x: Date)
    ensures var y := MarchYear(x);
      ToDays(x) == y / 400 * 146097 + DayOfEra(y % 400, DayOfYear(x.m, x.d)) - 719468
  {
    EraOfYear(MarchYear(x));
  }

  lemma EraParts(era: int, yoe: int, doy: int, c: int, q: int, r: int, doe: int)
    requires Place(yoe, c, q, r) && DayInYear(doy, c, q, r) && doe == DayOfEra(yoe, doy)
    ensures SplitEra(EraDay(era, doe)) == YearDay(yoe + era * 400, doy)
    ensures 0 <= doe <= 146096
  {
    YearOfEraIsExact(yoe, doy, c, q, r, doe);
    assert doe - (365 * yoe + yoe / 4 - yoe / 100) == doy;
  }

  lemma ValidDay(x: Date, era: int, yoe: int, c: int, q: int, r: int)
    requires IsDate(x) && Place(yoe, c, q, r) && MarchYear(x) == 400 * era + yoe
    ensures DayInYear(DayOfYear(x.m, x.d), c, q, r)
  {
    LastDayOfYear(x.m, x.d);
    if x.m == 2 && x.d == 29 {
      assert IsLeap(x.y);
      LeapPlace(x.y, era, yoe, c, q, r);
    }
  }

  /** Round trip from any date, before its year is cut off. */
  lemma WideRoundTrip(x: Date)
    requires IsDate(x)
    ensures WideFromDays(ToDays(x)) == x
  {
    var y, doy := MarchYear(x), DayOfYear(x.m, x.d);
    var c, q, r := PlaceYear(y % 400);
    var doe := DayOfEra(y % 400, doy);
    ValidDay(x, y / 400, y % 400, c, q, r);
    EraParts(y / 400, y % 400, doy, c, q, r, doe);
    ToDaysParts(x);
    MonthOfDay(x.m, x.d);
    SplitDaysIs(ToDays(x), y / 400, doe);
    Composed(ToDays(x), EraDay(y / 400, doe), YearDay(y % 400 + y / 400 * 400, doy));
  }

  lemma Composed(days: int, e: EraDay, day: YearDay)
    requires SplitDays(days) == e && SplitEra(e) == day
    ensures WideFromDays(days) == DateInYear(day)
  {
  }

  lemma SplitAnyDay(days: int) returns (era: int, yoe: int, doy: int, c: int, q: int, r: int)
    ensures Place(yoe, c, q, r) && DayInYear(doy, c, q, r)
    ensures days == era * 146097 + DayOfEra(yoe, doy) - 719468
    ensures WideFromDays(days) == DateInYear(YearDay(yoe + era * 400, doy))
  {
    era := (days + 719468) / 146097;
    var doe := (days + 719468) % 146097;
    yoe, doy, c, q, r := SplitDayOfEra(doe);
    EraParts(era, yoe, doy, c, q, r, doe);
    SplitDaysIs(days, era, doe);
    Composed(days, EraDay(era, doe), YearDay(yoe + era * 400, doy));
  }

  /** Round trip from any day number: its date is one of the calendar and leads back. */
  lemma WideRoundTripDays(days: int)
    ensures IsDate(WideFromDays(days)) && ToDays(WideFromDays(days)) == days
  {
    var era, yoe, doy, c, q, r := SplitAnyDay(days);
    DayIsDate(WideFromDays(days), days, era, yoe, doy, c, q, r);
  }

  lemma DayIsDate(x: Date, days: int, era: int, yoe: int, doy: int, c: int, q: int, r: int)
    requires Place(yoe, c, q, r) && DayInYear(doy, c, q, r)
    requires days == era * 146097 + DayOfEra(yoe, doy) - 719468 && x == DateInYear(YearDay(yoe + era * 400, doy))
    ensures IsDate(x) && ToDays(x) == days
  {
    DayIsInMonth(x, yoe + era * 400, era, yoe, doy, c, q, r);
    DayInMonth(doy);
    Div400(MarchYear(x), era, yoe);
    ToDaysParts(x);
  }

  lemma DayIsInMonth(x: Date, y: int, era: int, yoe: int, doy: int, c: int, q: int, r: int)
    requires Place(yoe, c, q, r) && DayInYear(doy, c, q, r) && y == 400 * era + yoe && x == DateInYear(YearDay(y, doy))
    ensures IsDate(x)
  {
    DayInMonth(doy);
    if x.m == 2 && x.d == 29 {
      LeapPlace(x.y, era, yoe, c, q, r);
    }
  }

  lemma Div400(a: int, q: int, r: int)
    requires a == 400 * q + r && 0 <= r < 400
    ensures a / 400 == q && a % 400 == r
  {
  }

  /** Main theorem: a valid date survives the way to a day number and back. */
  lemma DateRoundTrip(x: Date)
    requires Ok(x)
    ensures FromDays(ToDays(x)) == x
  {
    WideRoundTrip(x);
    NarrowYear(ToDays(x), x);
  }

  lemma NarrowYear(days: int, x: Date)
    requires WideFromDays(days) == x && -32768 <= x.y <= 32767
    ensures FromDays(days) == x
  {
    ToShortIff(x.y);
  }

  /**
   * The dates that `ok` accepts are those of day numbers whose year fits into 16 bits and is not the smallest one. But for that
   * year, they are exactly the dates that survive the way to a day number and back.
   */
  lemma OkIff(x: Date)
    ensures Ok(x) <==> -32767 <= x.y <= 32767 && exists days :: WideFromDays(days) == x
    ensures Ok(x) <==> x.y != -32768 && FromDays(ToDays(x)) == x
  {
    var wide := WideFromDays(ToDays(x));
    WideRoundTripDays(ToDays(x));
    if IsDate(x) {
      WideRoundTrip(x);
    } else {
      forall days ensures WideFromDays(days) != x {
        WideRoundTripDays(days);
      }
    }
    if FromDays(ToDays(x)) == x && wide.y != x.y {
      YearsDiffer(wide, x);
    }
    ToShortIff(x.y);
  }

  const FIRST := Date(-32768, 1, 1)
  const LAST := Date(32767, 12, 31)

  /** A day number survives the way to a date and back exactly if its year fits into 16 bits. */
  lemma DaysRoundTripIff(days: int)
    ensures ToDays(FromDays(days)) == days <==> ToDays(FIRST) <= days <= ToDays(LAST)
  {
    WideRoundTripDays(days);
    CutIff(WideFromDays(days), days);
  }

  lemma CutIff(x: Date, days: int)
    requires IsDate(x) && ToDays(x) == days
    ensures ToDays(x.(y := ToShort(x.y))) == days <==> ToDays(FIRST) <= days <= ToDays(LAST)
  {
    DaysInOrder(x, FIRST);
    DaysInOrder(LAST, x);
    ToShortIff(x.y);
    if ToShort(x.y) != x.y {
      YearsDiffer(x, x.(y := ToShort(x.y)));
    }
  }

  lemma ToShortIff(y: int)
    ensures ToShort(y) == y <==> -32768 <= y <= 32767
  {
  }

  /** Cutting the year off changes the day number. */
  lemma YearsDiffer(x: Date, x': Date)
    requires x.m == x'.m && x.d == x'.d && x.y != x'.y
    ensures ToDays(x) != ToDays(x')
  {
    if x.y < x'.y {
      YearStarts(MarchYear(x), MarchYear(x'));
    } else {
      YearStarts(MarchYear(x'), MarchYear(x));
    }
    ToDaysLinear(x);
    ToDaysLinear(x');
  }

  // ---------------------------------------------------------------------------------------------
  // Order and succession
  // ---------------------------------------------------------------------------------------------

  /** The first day of a year that begins in March. */
  function YearStart(y: int): int {
    365 * y + y / 4 - y / 100 + y / 400
  }

  lemma ToDaysLinear(x: Date)
    ensures ToDays(x) == YearStart(MarchYear(x)) + DayOfYear(x.m, x.d) - 719468
  {
    var y := MarchYear(x);
    ToDaysParts(x);
    var era, yoe := y / 400, y % 400;
    assert y == 400 * era + yoe;
    assert y / 4 == 100 * era + yoe / 4 && y / 100 == 4 * era + yoe / 100;
  }

  lemma DaysApart(a: Date, b: Date)
    ensures ToDays(b) - ToDays(a)
         == YearStart(MarchYear(b)) - YearStart(MarchYear(a)) + DayOfYear(b.m, b.d) - DayOfYear(a.m, a.d)
  {
    ToDaysLinear(a);
    ToDaysLinear(b);
  }

  /** Years have 365 days, and one more if the February at their end is a leap one. */
  lemma YearLength(y: int)
    ensures YearStart(y + 1) - YearStart(y) == if IsLeap(y + 1) then 366 else 365
  {
    assert (y + 1) / 4 - y / 4 == (if (y + 1) % 4 == 0 then 1 else 0);
    assert (y + 1) / 100 - y / 100 == (if (y + 1) % 100 == 0 then 1 else 0);
    assert (y + 1) / 400 - y / 400 == (if (y + 1) % 400 == 0 then 1 else 0);
  }

  lemma {:induction false} YearStarts(y: int, y': int)
    requires y < y'
    ensures YearStart(y) + (if IsLeap(y + 1) then 366 else 365) <= YearStart(y')
    decreases y' - y
  {
    if y + 1 == y' {
      YearLength(y);
    } else {
      YearStarts(y, y' - 1);
      YearLength(y' - 1);
    }
  }

  predicate Before(a: Date, b: Date) {
    a.y < b.y || (a.y == b.y && (a.m < b.m || (a.m == b.m && a.d < b.d)))
  }

  /** Day numbers stay within their March year. */
  lemma WithinYear(x: Date)
    requires IsDate(x)
    ensures 0 <= DayOfYear(x.m, x.d) < if IsLeap(MarchYear(x) + 1) then 366 else 365
  {
    LastDayOfYear(x.m, x.d);
  }

  /** Months follow each other. */
  lemma MonthsInOrder(m: int, d: int, m': int, d': int)
    requires 1 <= m <= 12 && 1 <= d <= (if m == 2 then 29 else LastDay(0, m))
    requires 1 <= m' <= 12 && 1 <= d'
    requires (if m > 2 then m - 3 else m + 9) < (if m' > 2 then m' - 3 else m' + 9)
    ensures DayOfYear(m, d) < DayOfYear(m', d')
  {
    var mp := if m > 2 then m - 3 else m + 9;
    if mp == 0 {} else if mp == 1 {} else if mp == 2 {} else if mp == 3 {} else if mp == 4 {} else if mp == 5 {}
    else if mp == 6 {} else if mp == 7 {} else if mp == 8 {} else if mp == 9 {} else {}
  }

  lemma EarlierIsLess(a: Date, b: Date)
    requires IsDate(a) && IsDate(b) && Before(a, b)
    ensures ToDays(a) < ToDays(b)
  {
    DaysApart(a, b);
    WithinYear(a);
    WithinYear(b);
    if MarchYear(a) < MarchYear(b) {
      YearStarts(MarchYear(a), MarchYear(b));
    } else {
      LaterInYear(a, b);
    }
  }

  lemma LaterInYear(a: Date, b: Date)
    requires IsDate(a) && IsDate(b) && Before(a, b) && MarchYear(a) >= MarchYear(b)
    ensures MarchYear(a) == MarchYear(b) && DayOfYear(a.m, a.d) < DayOfYear(b.m, b.d)
  {
    if a.m != b.m {
      MonthsInOrder(a.m, a.d, b.m, b.d);
    }
  }

  /** Main theorem: day numbers are ordered like dates. */
  lemma DaysInOrder(a: Date, b: Date)
    requires IsDate(a) && IsDate(b)
    ensures ToDays(a) < ToDays(b) <==> Before(a, b)
    ensures ToDays(a) == ToDays(b) <==> a == b
  {
    if Before(a, b) {
      EarlierIsLess(a, b);
    } else if Before(b, a) {
      EarlierIsLess(b, a);
    }
  }

  /** The day after, by the rules of the calendar. */
  function NextDay(x: Date): (next: Date)
    requires IsDate(x)
    ensures IsDate(next)
  {
    if x.d < LastDay(x.y, x.m) then Date(x.y, x.m, x.d + 1)
    else if x.m < 12 then Date(x.y, x.m + 1, 1)
    else Date(x.y + 1, 1, 1)
  }

  /**
   * Main theorem: the epoch is day zero, and the next day has the next number. Together they fix every day number.
   */
  lemma NextDayIsOneMore(x: Date)
    requires IsDate(x)
    ensures ToDays(NextDay(x)) == ToDays(x) + 1
    ensures ToDays(Date(1970, 1, 1)) == 0
  {
    NextDayInYear(x);
    DaysApart(x, NextDay(x));
    YearLength(MarchYear(x));
    Epoch();
  }

  lemma Epoch()
    ensures ToDays(Date(1970, 1, 1)) == 0
  {
  }

  /** The next day is the next one of its March year, or the first one of the year after a complete one. */
  lemma NextDayInYear(x: Date)
    requires IsDate(x)
    ensures var next, y := NextDay(x), MarchYear(x);
      || (MarchYear(next) == y && DayOfYear(next.m, next.d) == DayOfYear(x.m, x.d) + 1)
      || (MarchYear(next) == y + 1 && DayOfYear(next.m, next.d) == 0
          && DayOfYear(x.m, x.d) + 1 == if IsLeap(y + 1) then 366 else 365)
  {
    if x.d < LastDay(x.y, x.m) {
    } else if x.m != 2 {
      NextMonth(x.m);
    }
  }

  lemma NextMonth(m: int)
    requires 1 <= m <= 12 && m != 2
    ensures DayOfYear(if m < 12 then m + 1 else 1, 1) == DayOfYear(m, LastDay(0, m)) + 1
  {
    if m == 1 {} else if m == 3 {} else if m == 4 {} else if m == 5 {} else if m == 6 {}
    else if m == 7 {} else if m == 8 {} else if m == 9 {} else if m == 10 {} else if m == 11 {} else {}
  }

  /** The weekday computed with wrap-around is the day number modulo seven, shifted to the weekday of the epoch. */
  lemma WeekdayIsExact(days: int)
    requires -0x8000_0000 <= days < 0x8000_0000
    ensures Weekday(days) == (days + 4) % 7
    ensures Weekday(0) == 4
  {
    if days < -4 {
      assert days % 0x1_0000_0000 == days + 0x1_0000_0000;
      assert (days + 0x1_0000_0000) % 7 == (days + 4 + 7 * 613566756) % 7;
    }
  }
}
