/** The month of a timestamp (src/archive.rs, `period_from_timestamp`): straight-line
    arithmetic proved equal to counting days one by one in the Gregorian calendar. */
module Calendar {

  const SECONDS_PER_DAY: nat := 86_400
  const DAYS_PER_ERA: nat := 146_097
  /** Days from 1 March of year 0 to 1 January 1970. */
  const EPOCH_SHIFT: nat := 719_468

  // ---------- The calendar, one day at a time ----------

  datatype Date = Date(year: nat, month: nat, day: nat)

  predicate Leap(year: nat) {
    year % 4 == 0 && (year % 100 != 0 || year % 400 == 0)
  }

  function MonthLength(year: nat, month: nat): nat {
    if month == 2 then (if Leap(year) then 29 else 28)
    else if month in {4, 6, 9, 11} then 30
    else 31
  }

  function NextDay(d: Date): Date {
    if d.day < MonthLength(d.year, d.month) then d.(day := d.day + 1)
    else if d.month < 12 then Date(d.year, d.month + 1, 1)
    else Date(d.year + 1, 1, 1)
  }

  /** The date reached by counting `days` from 1 January 1970. */
  function DateOfDay(days: nat): Date {
    if days == 0 then Date(1970, 1, 1) else NextDay(DateOfDay(days - 1))
  }

  // ---------- The arithmetic of the source ----------

  function YearOfEra(doe: nat): int {
    (doe - doe / 1_460 + doe / 36_524 - doe / 146_096) / 365
  }

  /** Days before year `y` of a 400-year era that starts on 1 March. */
  function DaysBefore(y: int): int {
    365 * y + y / 4 - y / 100
  }

  datatype Month = Month(year: int, month: int)

  function MonthOfDayOfYear(doy: int): int {
    var mp := (5 * doy + 2) / 153;
    mp + (if mp < 10 then 3 else -9)
  }

  /** `period_from_timestamp` before formatting. */
  function PeriodOf(timestamp: nat): Month {
    var z := timestamp / SECONDS_PER_DAY + EPOCH_SHIFT;
    var era := z / DAYS_PER_ERA;
    var doe := z - era * DAYS_PER_ERA;
    var yoe := YearOfEra(doe);
    var month := MonthOfDayOfYear(doe - DaysBefore(yoe));
    Month(yoe + era * 400 + (if month <= 2 then 1 else 0), month)
  }

  // ---------- Splitting a day count into a March-based year and a day ----------

  predicate YearHolds(doe: int, y: int) {
    0 <= y < 400 && DaysBefore(y) <= doe && (if y == 399 then doe < DAYS_PER_ERA else doe < DaysBefore(y + 1))
  }

  /** The year of an era in centuries, four-year cycles and years. */
  lemma DaysBeforeParts(c: int, q: int, s: int)
    requires 0 <= c < 4 && 0 <= q < 25 && 0 <= s < 4
    ensures DaysBefore(100 * c + 4 * q + s) == 36_524 * c + 1_461 * q + 365 * s
  {
    var y := 100 * c + 4 * q + s;
    assert y / 4 == 25 * c + q;
    assert y / 100 == c;
  }

  lemma YearLength(y: int)
    requires 0 <= y < 399
    ensures DaysBefore(y + 1) == DaysBefore(y) + if Leap(y + 1) then 366 else 365
  {
    assert (y + 1) / 4 == if (y + 1) % 4 == 0 then y / 4 + 1 else y / 4;
    assert (y + 1) / 100 == if (y + 1) % 100 == 0 then y / 100 + 1 else y / 100;
  }

  lemma YearParts(y: int) returns (c: int, q: int, s: int)
    requires 0 <= y < 400
    ensures y == 100 * c + 4 * q + s && 0 <= c < 4 && 0 <= q < 25 && 0 <= s < 4
  {
    c, q, s := y / 100, y % 100 / 4, y % 4;
  }

  lemma Quotients(c: int, q: int, s: int, d: int, doe: int)
    requires 0 <= c < 4 && 0 <= q < 25 && 0 <= s < 4 && 0 <= d <= 365
    requires d == 365 ==> s == 3 && (q < 24 || c == 3)
    requires doe == 36_524 * c + 1_461 * q + 365 * s + d
    ensures doe / 36_524 - doe / 146_096 == c
    ensures doe / 1_460 == 25 * c + q + if 24 * c + q + 365 * s + d >= 1_460 then 1 else 0
  {
    var e := 24 * c + q + 365 * s + d;
    assert doe == 1_460 * (25 * c + q) + e;
    assert 0 <= e < 2_920;
    if doe < 146_096 {
      assert doe / 36_524 == c;
    }
  }

  /** The closed form finds the year whose days contain `doe`. */
  lemma YearOfEraFinds(doe: nat, y: int)
    requires YearHolds(doe, y)
    ensures YearOfEra(doe) == y
  {
    var c, q, s := YearParts(y);
    DaysBeforeParts(c, q, s);
    var d := doe - DaysBefore(y);
    if y < 399 {
      YearLength(y);
      assert d == 365 ==> (y + 1) % 4 == 0 && (y + 1) % 100 != 0;
    }
    Quotients(c, q, s, d, doe);
    assert 365 * y <= doe - doe / 1_460 + doe / 36_524 - doe / 146_096 < 365 * y + 365;
  }

  /** Day `z` counted from 1 March of year 0 is day `doy` of year `y` of an era. */
  predicate MarchSplit(z: int, era: nat, y: nat, doy: nat) {
    y < 400 && z == era * DAYS_PER_ERA + DaysBefore(y) + doy && doy < MarchYearLength(y)
  }

  /** The year that starts in March holds the February of the next year. */
  function MarchYearLength(year: nat): nat {
    if Leap(year + 1) then 366 else 365
  }

  lemma EraLeap(era: nat, y: nat)
    requires y < 400
    ensures Leap(era * 400 + y + 1) == Leap(y + 1)
  {
    assert (era * 400 + y + 1) % 400 == (y + 1) % 400;
    assert (era * 400 + y + 1) % 100 == (y + 1) % 100;
    assert (era * 400 + y + 1) % 4 == (y + 1) % 4;
  }

  lemma MarchSplitFinds(z: nat, era: nat, y: nat, doy: nat)
    requires MarchSplit(z, era, y, doy)
    ensures z / DAYS_PER_ERA == era
    ensures YearHolds(z - era * DAYS_PER_ERA, y)
  {
    var doe := DaysBefore(y) + doy;
    if y < 399 {
      YearLength(y);
    }
    var c, q, s := YearParts(y);
    DaysBeforeParts(c, q, s);
    assert 0 <= doe < DAYS_PER_ERA;
  }

  lemma MarchSplitNext(z: nat, era: nat, y: nat, doy: nat)
    requires MarchSplit(z, era, y, doy)
    ensures doy + 1 < MarchYearLength(y) ==> MarchSplit(z + 1, era, y, doy + 1)
    ensures doy + 1 == MarchYearLength(y) ==>
      if y == 399 then MarchSplit(z + 1, era + 1, 0, 0) else MarchSplit(z + 1, era, y + 1, 0)
  {
    if y < 399 {
      YearLength(y);
    }
  }

  function DateOf(year: nat, doy: nat): Date
    requires doy < 366
  {
    var mp := (5 * doy + 2) / 153;
    var month := MonthOfDayOfYear(doy);
    Date(if month <= 2 then year + 1 else year, month, doy - (153 * mp + 2) / 5 + 1)
  }

  lemma DateOfNext(year: nat, doy: nat)
    requires doy < MarchYearLength(year)
    ensures NextDay(DateOf(year, doy)) ==
      if doy + 1 < MarchYearLength(year) then DateOf(year, doy + 1) else DateOf(year + 1, 0)
  {
    var mp := (5 * doy + 2) / 153;
    assert mp in {0, 1, 2, 3, 4, 5, 6, 7, 8, 9, 10, 11};
  }

  /** A way of naming days that agrees with the calendar from one day to the next. */
  ghost predicate FollowsAt(name: (nat, nat) -> Date, year: nat, doy: nat) {
    NextDay(name(year, doy)) == if doy + 1 < MarchYearLength(year) then name(year, doy + 1) else name(year + 1, 0)
  }

  ghost predicate Follows(name: (nat, nat) -> Date) {
    forall year: nat, doy: nat :: doy < MarchYearLength(year) ==> FollowsAt(name, year, doy)
  }

  lemma {:induction false} DayCount(name: (nat, nat) -> Date, days: nat) returns (era: nat, y: nat, doy: nat)
    requires Follows(name) && name(1969, 306) == Date(1970, 1, 1)
    ensures MarchSplit(days + EPOCH_SHIFT, era, y, doy)
    ensures DateOfDay(days) == name(era * 400 + y, doy)
  {
    if days == 0 {
      era, y, doy := 4, 369, 306;
    } else {
      var e, x, d := DayCount(name, days - 1);
      MarchSplitNext(days - 1 + EPOCH_SHIFT, e, x, d);
      EraLeap(e, x);
      var year := e * 400 + x;
      assert MarchYearLength(year) == MarchYearLength(x) && FollowsAt(name, year, d);
      if d + 1 < MarchYearLength(x) {
        era, y, doy := e, x, d + 1;
      } else if x == 399 {
        assert (e + 1) * 400 + 0 == year + 1;
        era, y, doy := e + 1, 0, 0;
      } else {
        era, y, doy := e, x + 1, 0;
      }
    }
  }

  lemma PeriodAt(timestamp: nat, era: nat, y: nat, doy: nat)
    requires MarchSplit(timestamp / SECONDS_PER_DAY + EPOCH_SHIFT, era, y, doy)
    ensures var d := DateOf(era * 400 + y, doy);
      PeriodOf(timestamp) == Month(d.year, d.month)
  {
    var z := timestamp / SECONDS_PER_DAY + EPOCH_SHIFT;
    MarchSplitFinds(z, era, y, doy);
    YearOfEraFinds(z - era * DAYS_PER_ERA, y);
  }

  /** For every timestamp the arithmetic names the year and month reached by counting days. */
  lemma PeriodIsCalendarMonth(timestamp: nat)
    ensures var d := DateOfDay(timestamp / SECONDS_PER_DAY);
      PeriodOf(timestamp) == Month(d.year, d.month)
  {
    var name: (nat, nat) -> Date := (year: nat, doy: nat) => if doy < 366 then DateOf(year, doy) else Date(0, 0, 0);
    forall year: nat, doy: nat | doy < MarchYearLength(year)
      ensures FollowsAt(name, year, doy)
    {
      DateOfNext(year, doy);
    }
    var era, y, doy := DayCount(name, timestamp / SECONDS_PER_DAY);
    PeriodAt(timestamp, era, y, doy);
  }

  // ---------- Order ----------

  predicate NotAfter(a: Month, b: Month) {
    a.year < b.year || (a.year == b.year && a.month <= b.month)
  }

  lemma {:induction false} DaysInOrder(a: nat, b: nat)
    requires a <= b
    ensures 1 <= DateOfDay(b).month <= 12 && DateOfDay(b).year >= 1970
    ensures NotAfter(Month(DateOfDay(a).year, DateOfDay(a).month), Month(DateOfDay(b).year, DateOfDay(b).month))
    decreases b
  {
    if b > 0 {
      DaysInOrder(if a < b then a else b - 1, b - 1);
    }
  }

  /** Months never run backwards. */
  lemma PeriodMonotone(s: nat, t: nat)
    requires s <= t
    ensures NotAfter(PeriodOf(s), PeriodOf(t))
    ensures 1 <= PeriodOf(s).month <= 12 && PeriodOf(s).year >= 1970
  {
    PeriodIsCalendarMonth(s);
    PeriodIsCalendarMonth(t);
    DaysInOrder(s / SECONDS_PER_DAY, t / SECONDS_PER_DAY);
    DaysInOrder(0, s / SECONDS_PER_DAY);
  }
}
