/**
 * Month-anchored billing dates (src/jobs/recurring-invoices.js). A date is a UTC calendar
 * date with a time of day; `TimeValue` is its ECMAScript time value in milliseconds.
 */
module RecurringDates {
  import opened Options

  const DAY_MS := 86_400_000

  datatype UtcDate = UtcDate(year: int, month: int, day: int, ms: int)

  // ---------------------------------------------------------------- the calendar

  predicate Leap(year: int) {
    year % 4 == 0 && (year % 100 != 0 || year % 400 == 0)
  }

  function DaysInMonth(year: int, month: int): int {
    if month == 1 then (if Leap(year) then 29 else 28)
    else if month == 3 || month == 5 || month == 8 || month == 10 then 30
    else 31
  }

  predicate Valid(d: UtcDate) {
    0 <= d.month < 12 && 1 <= d.day <= DaysInMonth(d.year, d.month) && 0 <= d.ms < DAY_MS
  }

  /** Days from the epoch to 1 January. */
  function DayFromYear(year: int): int {
    365 * (year - 1970) + (year - 1969) / 4 - (year - 1901) / 100 + (year - 1601) / 400
  }

  const CUMULATIVE_DAYS := [0, 31, 59, 90, 120, 151, 181, 212, 243, 273, 304, 334, 365]

  function DaysBeforeMonth(year: int, month: int): int
    requires 0 <= month <= 12
  {
    CUMULATIVE_DAYS[month] + if month >= 2 && Leap(year) then 1 else 0
  }

  function TimeValue(d: UtcDate): int
    requires Valid(d)
  {
    (DayFromYear(d.year) + DaysBeforeMonth(d.year, d.month) + d.day - 1) * DAY_MS + d.ms
  }

  predicate Before(a: UtcDate, b: UtcDate) {
    || a.year < b.year
    || (a.year == b.year && (a.month < b.month
    || (a.month == b.month && (a.day < b.day
    || (a.day == b.day && a.ms < b.ms)))))
  }

  lemma YearLength(year: int)
    ensures DayFromYear(year + 1) == DayFromYear(year) + DaysBeforeMonth(year, 12)
  {
    FourYears(year);
    Centuries(year);
    FourCenturies(year);
  }

  lemma FourYears(y: int)
    ensures (y - 1968) / 4 - (y - 1969) / 4 == (if y % 4 == 0 then 1 else 0)
  {
    var q, r := y / 4, y % 4;
    assert (y - 1968) / 4 == q - 492;
  }

  lemma Centuries(y: int)
    ensures (y - 1900) / 100 - (y - 1901) / 100 == (if y % 100 == 0 then 1 else 0)
    ensures y % 100 == 0 ==> y % 4 == 0
  {
    var q, r := y / 100, y % 100;
    assert (y - 1900) / 100 == q - 19;
  }

  lemma FourCenturies(y: int)
    ensures (y - 1600) / 400 - (y - 1601) / 400 == (if y % 400 == 0 then 1 else 0)
    ensures y % 400 == 0 ==> y % 100 == 0
  {
    var q, r := y / 400, y % 400;
    assert (y - 1600) / 400 == q - 4;
  }

  lemma {:induction false} MonthsGrow(year: int, a: int, b: int)
    requires 0 <= a < b <= 12
    ensures DaysBeforeMonth(year, a) + DaysInMonth(year, a) <= DaysBeforeMonth(year, b)
    decreases b
  {
    if a < b - 1 { MonthsGrow(year, a, b - 1); }
  }

  /** Every day has the time value after the day before it, over month and year ends, from the epoch on. */
  lemma DaysAreContiguous(year: int, month: int)
    requires 0 <= month < 12
    ensures var first := UtcDate(year, month, 1, 0); var last := UtcDate(year, month, DaysInMonth(year, month), 0);
            var next := if month < 11 then UtcDate(year, month + 1, 1, 0) else UtcDate(year + 1, 0, 1, 0);
            TimeValue(next) == TimeValue(last) + DAY_MS && TimeValue(last) == TimeValue(first) + (last.day - 1) * DAY_MS
    ensures TimeValue(UtcDate(1970, 0, 1, 0)) == 0 && TimeValue(UtcDate(2024, 1, 29, 0)) == 1_709_164_800_000
  {
    YearLength(year);
    assert DaysBeforeMonth(year, month) + DaysInMonth(year, month) == DaysBeforeMonth(year, month + 1);
    assert (2024 - 1969) / 4 == 13 && (2024 - 1901) / 100 == 1 && (2024 - 1601) / 400 == 1;
    assert DayFromYear(2024) == 365 * 54 + 13;
  }

  lemma {:induction false} YearsGrow(a: int, b: int)
    requires a < b
    ensures DayFromYear(a) + DaysBeforeMonth(a, 12) <= DayFromYear(b)
    decreases b - a
  {
    YearLength(b - 1);
    if a < b - 1 {
      YearsGrow(a, b - 1);
      MonthsGrow(b - 1, 0, 12);
    }
  }

  lemma BeforeIsEarlier(a: UtcDate, b: UtcDate)
    requires Valid(a) && Valid(b) && Before(a, b)
    ensures TimeValue(a) < TimeValue(b)
  {
    var da := DayFromYear(a.year) + DaysBeforeMonth(a.year, a.month) + a.day;
    var db := DayFromYear(b.year) + DaysBeforeMonth(b.year, b.month) + b.day;
    if a.year < b.year {
      YearsGrow(a.year, b.year);
      MonthsGrow(a.year, a.month, 12);
      if b.month > 0 { MonthsGrow(b.year, 0, b.month); }
      assert da < db;
    } else if a.month < b.month {
      MonthsGrow(a.year, a.month, b.month);
      assert da < db;
    }
    assert da < db || (da == db && a.ms < b.ms);
  }

  /** Comparing time values is comparing calendar fields. */
  lemma TimeValueOrdersDates(a: UtcDate, b: UtcDate)
    requires Valid(a) && Valid(b)
    ensures TimeValue(a) < TimeValue(b) <==> Before(a, b)
    ensures TimeValue(a) == TimeValue(b) <==> a == b
  {
    if Before(a, b) {
      BeforeIsEarlier(a, b);
    } else if a != b {
      BeforeIsEarlier(b, a);
    }
  }

  // ---------------------------------------------------------------- anchor plus months

  function MonthIndex(d: UtcDate): int {
    d.year * 12 + d.month
  }

  /** `Date.UTC(year, month + 1, 0)`: two-digit years mean the twentieth century there. */
  function LastDay(year: int, month: int): int {
    DaysInMonth(if 0 <= year <= 99 then year + 1900 else year, month)
  }

  function AddMonths(anchor: UtcDate, months: int): UtcDate {
    var index := MonthIndex(anchor) + months;
    var year, month := index / 12, index % 12;
    UtcDate(year, month, if anchor.day < LastDay(year, month) then anchor.day else LastDay(year, month), anchor.ms)
  }

  /** The two-digit-year rule shortens exactly one month: February of year 0. */
  lemma LastDayIsTheMonthsLast(year: int, month: int)
    requires 0 <= month < 12
    ensures LastDay(year, month) <= DaysInMonth(year, month)
    ensures LastDay(year, month) == DaysInMonth(year, month) <==> !(year == 0 && month == 1)
  {
  }

  /**
   * Adding months lands in exactly that month, at the anchor's time of day, on the anchor's
   * day clamped to the month's last day (with no drift, since only the anchor counts).
   */
  lemma AddMonthsKeepsTheDay(anchor: UtcDate, months: int)
    requires Valid(anchor)
    ensures var d := AddMonths(anchor, months);
            && Valid(d) && MonthIndex(d) == MonthIndex(anchor) + months && d.ms == anchor.ms
            && (!(d.year == 0 && d.month == 1) ==>
                  d.day == if anchor.day <= DaysInMonth(d.year, d.month) then anchor.day else DaysInMonth(d.year, d.month))
  {
    var index := MonthIndex(anchor) + months;
    LastDayIsTheMonthsLast(index / 12, index % 12);
  }

  lemma LaterMonthIsLater(a: UtcDate, b: UtcDate)
    requires Valid(a) && Valid(b) && MonthIndex(a) < MonthIndex(b)
    ensures TimeValue(a) < TimeValue(b)
  {
    BeforeIsEarlier(a, b);
  }

  /** The mutable date the job steps through the calendar with. */
  class DateObject {
    var year: int
    var month: int
    var day: int
    var ms: int

    function Value(): UtcDate
      reads this
    {
      UtcDate(year, month, day, ms)
    }

    constructor (d: UtcDate)
      ensures Value() == d
    {
      year, month, day, ms := d.year, d.month, d.day, d.ms;
    }

    method SetUTCDate(newDay: int)
      requires Valid(Value()) && 1 <= newDay <= DaysInMonth(year, month)
      modifies this`day
      ensures day == newDay
    {
      day := newDay;
    }

    /** Month overflow carries into the year. */
    method SetUTCMonth(newMonth: int)
      requires Valid(Value()) && day <= 28
      modifies this`year, this`month
      ensures Valid(Value()) && MonthIndex(Value()) == old(year) * 12 + newMonth
    {
      year := year + newMonth / 12;
      month := newMonth % 12;
    }
  }

  /** `addMonthsFromAnchor`. */
  method AddMonthsFromAnchor(anchor: UtcDate, months: int) returns (d: UtcDate)
    requires Valid(anchor)
    ensures d == AddMonths(anchor, months) && Valid(d)
  {
    var date := new DateObject(anchor);
    var day := date.day;
    date.SetUTCDate(1);
    date.SetUTCMonth(date.month + months);
    var lastDay := LastDay(date.year, date.month);
    LastDayIsTheMonthsLast(date.year, date.month);
    date.SetUTCDate(if day < lastDay then day else lastDay);
    return date.Value();
  }

  // ---------------------------------------------------------------- the next boundary

  datatype Interval = Monthly | Quarterly | Annually | Other

  function Months(interval: Interval): int {
    match interval
    case Monthly => 1
    case Quarterly => 3
    case Annually => 12
    case Other => 1
  }

  /** The k-th billing boundary after the anchor. */
  function Boundary(anchor: UtcDate, interval: Interval, k: int): UtcDate {
    AddMonths(anchor, k * Months(interval))
  }

  /** The k-th boundary is strictly after now. */
  predicate IsAfter(anchor: UtcDate, interval: Interval, k: int, now: UtcDate)
    requires Valid(now)
  {
    Valid(Boundary(anchor, interval, k)) && TimeValue(Boundary(anchor, interval, k)) > TimeValue(now)
  }

  lemma BoundaryIsValid(anchor: UtcDate, interval: Interval, k: int)
    requires Valid(anchor)
    ensures Valid(Boundary(anchor, interval, k))
    ensures MonthIndex(Boundary(anchor, interval, k)) == MonthIndex(anchor) + k * Months(interval)
  {
    AddMonthsKeepsTheDay(anchor, k * Months(interval));
  }

  /**
   * What the intervals are worth, in calendar fields: a month, three months, the same month of
   * a later year; an interval the job does not know bills monthly.
   */
  predicate IsIntervalsOn(anchor: UtcDate, interval: Interval, k: int, d: UtcDate) {
    var months := (d.year - anchor.year) * 12 + d.month - anchor.month;
    match interval
    case Monthly => months == k
    case Quarterly => months == 3 * k
    case Annually => d.month == anchor.month && d.year == anchor.year + k
    case Other => months == k
  }

  /** A date in that month, on the anchor's day or the month's last, at the anchor's time. */
  predicate IsDateOf(anchor: UtcDate, interval: Interval, k: int, d: UtcDate) {
    && Valid(d) && IsIntervalsOn(anchor, interval, k, d) && d.ms == anchor.ms
    && d.day == if anchor.day < LastDay(d.year, d.month) then anchor.day else LastDay(d.year, d.month)
  }

  lemma BoundaryExactly(anchor: UtcDate, interval: Interval, k: int, d: UtcDate)
    requires Valid(anchor)
    ensures Valid(Boundary(anchor, interval, k))
    ensures IsDateOf(anchor, interval, k, d) <==> d == Boundary(anchor, interval, k)
  {
    BoundaryIsValid(anchor, interval, k);
    if IsDateOf(anchor, interval, k, d) {
      assert MonthIndex(d) == MonthIndex(Boundary(anchor, interval, k));
    }
  }

  /** A year is four quarters is twelve months, to the day. */
  lemma YearsAreQuartersAreMonths(anchor: UtcDate, k: int)
    ensures Boundary(anchor, Annually, k) == Boundary(anchor, Quarterly, 4 * k) == Boundary(anchor, Monthly, 12 * k)
    ensures Boundary(anchor, Quarterly, k) == Boundary(anchor, Monthly, 3 * k)
    ensures Boundary(anchor, Other, k) == Boundary(anchor, Monthly, k)
  {
    assert k * 12 == 4 * k * 3 == 12 * k * 1;
  }

  lemma BoundariesIncrease(anchor: UtcDate, interval: Interval, j: int, k: int)
    requires Valid(anchor) && j < k
    ensures Valid(Boundary(anchor, interval, j)) && Valid(Boundary(anchor, interval, k))
    ensures TimeValue(Boundary(anchor, interval, j)) < TimeValue(Boundary(anchor, interval, k))
  {
    BoundaryIsValid(anchor, interval, j);
    BoundaryIsValid(anchor, interval, k);
    assert j * Months(interval) < k * Months(interval);
    LaterMonthIsLater(Boundary(anchor, interval, j), Boundary(anchor, interval, k));
  }

  lemma AfterStaysAfter(anchor: UtcDate, interval: Interval, j: int, k: int, now: UtcDate)
    requires Valid(anchor) && Valid(now) && j <= k && IsAfter(anchor, interval, j, now)
    ensures IsAfter(anchor, interval, k, now)
  {
    if j < k { BoundariesIncrease(anchor, interval, j, k); }
  }

  /** The first guess of the job: the elapsed whole intervals, at least one. */
  function FirstGuess(anchor: UtcDate, interval: Interval, now: UtcDate): int {
    var whole := (MonthIndex(now) - MonthIndex(anchor)) / Months(interval);
    if whole > 1 then whole else 1
  }

  /** The guess is never past the answer, and one more interval always is: the loop runs at most once. */
  lemma GuessIsTight(anchor: UtcDate, interval: Interval, now: UtcDate)
    requires Valid(anchor) && Valid(now)
    ensures var k := FirstGuess(anchor, interval, now);
            k >= 1 && IsAfter(anchor, interval, k + 1, now) && (k > 1 ==> !IsAfter(anchor, interval, k - 1, now))
  {
    var m := Months(interval);
    var k := FirstGuess(anchor, interval, now);
    var elapsed := MonthIndex(now) - MonthIndex(anchor);
    assert m == 1 || m == 3 || m == 12;
    BoundaryIsValid(anchor, interval, k + 1);
    assert (k + 1) * m > elapsed;
    LaterMonthIsLater(now, Boundary(anchor, interval, k + 1));
    if k > 1 {
      BoundaryIsValid(anchor, interval, k - 1);
      assert (k - 1) * m < elapsed;
      LaterMonthIsLater(Boundary(anchor, interval, k - 1), now);
    }
  }

  /** Which boundary `firstRecurringDate` returns. */
  function FirstIndex(anchor: UtcDate, interval: Interval, now: UtcDate): int
    requires Valid(now)
  {
    var k := FirstGuess(anchor, interval, now);
    if IsAfter(anchor, interval, k, now) then k else k + 1
  }

  function FirstRecurring(anchor: UtcDate, interval: Interval, now: UtcDate): UtcDate
    requires Valid(now)
  {
    Boundary(anchor, interval, FirstIndex(anchor, interval, now))
  }

  lemma FirstIsAfter(anchor: UtcDate, interval: Interval, now: UtcDate)
    requires Valid(anchor) && Valid(now)
    ensures FirstIndex(anchor, interval, now) >= 1 && IsAfter(anchor, interval, FirstIndex(anchor, interval, now), now)
  {
    GuessIsTight(anchor, interval, now);
  }

  lemma PreviousIsNotAfter(anchor: UtcDate, interval: Interval, now: UtcDate)
    requires Valid(anchor) && Valid(now) && FirstIndex(anchor, interval, now) > 1
    ensures !IsAfter(anchor, interval, FirstIndex(anchor, interval, now) - 1, now)
  {
    GuessIsTight(anchor, interval, now);
  }

  lemma FirstIsAfterAndPreviousIsNot(anchor: UtcDate, interval: Interval, now: UtcDate)
    requires Valid(anchor) && Valid(now)
    ensures var first := FirstIndex(anchor, interval, now);
            first >= 1 && IsAfter(anchor, interval, first, now) && (first > 1 ==> !IsAfter(anchor, interval, first - 1, now))
  {
    FirstIsAfter(anchor, interval, now);
    if FirstIndex(anchor, interval, now) > 1 {
      PreviousIsNotAfter(anchor, interval, now);
    }
  }

  lemma NotAfterBelow(anchor: UtcDate, interval: Interval, j: int, k: int, now: UtcDate)
    requires Valid(anchor) && Valid(now) && j <= k && !IsAfter(anchor, interval, k, now)
    ensures !IsAfter(anchor, interval, j, now)
  {
    if IsAfter(anchor, interval, j, now) {
      AfterStaysAfter(anchor, interval, j, k, now);
      assert false;
    }
  }

  lemma FirstIndexIsPositive(anchor: UtcDate, interval: Interval, now: UtcDate)
    requires Valid(now)
    ensures FirstIndex(anchor, interval, now) >= 1
  {
  }

  lemma AfterFromFirst(anchor: UtcDate, interval: Interval, now: UtcDate, k: int)
    requires Valid(anchor) && Valid(now) && k >= FirstIndex(anchor, interval, now)
    ensures IsAfter(anchor, interval, k, now)
  {
    FirstIsAfter(anchor, interval, now);
    AfterStaysAfter(anchor, interval, FirstIndex(anchor, interval, now), k, now);
  }

  lemma NotAfterBeforeFirst(anchor: UtcDate, interval: Interval, now: UtcDate, k: int)
    requires Valid(anchor) && Valid(now) && 1 <= k < FirstIndex(anchor, interval, now)
    ensures !IsAfter(anchor, interval, k, now)
  {
    PreviousIsNotAfter(anchor, interval, now);
    NotAfterBelow(anchor, interval, k, FirstIndex(anchor, interval, now) - 1, now);
  }

  /** It is the least boundary strictly after now: every k >= 1 is after now exactly from that one on. */
  lemma FirstRecurringIsLeast(anchor: UtcDate, interval: Interval, now: UtcDate, k: int)
    requires Valid(anchor) && Valid(now) && k >= 1
    ensures FirstIndex(anchor, interval, now) >= 1
    ensures IsAfter(anchor, interval, k, now) <==> k >= FirstIndex(anchor, interval, now)
  {
    FirstIndexIsPositive(anchor, interval, now);
    if k >= FirstIndex(anchor, interval, now) {
      AfterFromFirst(anchor, interval, now, k);
    } else {
      NotAfterBeforeFirst(anchor, interval, now, k);
    }
  }

  /** One boundary, and whether it is still due. */
  method BoundaryDate(start: UtcDate, interval: Interval, k: int, now: UtcDate) returns (d: UtcDate, due: bool)
    requires Valid(start) && Valid(now)
    ensures d == Boundary(start, interval, k)
    ensures due == !IsAfter(start, interval, k, now)
  {
    d := AddMonthsFromAnchor(start, k * Months(interval));
    due := TimeValue(d) <= TimeValue(now);
  }

  method Guess(start: UtcDate, interval: Interval, now: UtcDate) returns (k: int)
    ensures k == FirstGuess(start, interval, now)
  {
    var elapsedMonths := (now.year - start.year) * 12 + (now.month - start.month);
    var whole := elapsedMonths / Months(interval);
    k := if whole > 1 then whole else 1;
  }

  /** After a billing date comes the boundary of the next index. */
  lemma NextAfterTheFirst(anchor: UtcDate, interval: Interval, now: UtcDate)
    requires Valid(anchor) && Valid(now) && Valid(FirstRecurring(anchor, interval, now))
    ensures FirstIndex(anchor, interval, FirstRecurring(anchor, interval, now)) == FirstIndex(anchor, interval, now) + 1
  {
    var k := FirstIndex(anchor, interval, now);
    var next := FirstRecurring(anchor, interval, now);
    FirstRecurringIsLeast(anchor, interval, now, 1);
    NotAfterItself(anchor, interval, k);
    BoundariesIncrease(anchor, interval, k, k + 1);
    FirstRecurringIsLeast(anchor, interval, next, k);
    FirstRecurringIsLeast(anchor, interval, next, k + 1);
  }

  lemma NotAfterItself(anchor: UtcDate, interval: Interval, k: int)
    requires Valid(Boundary(anchor, interval, k))
    ensures !IsAfter(anchor, interval, k, Boundary(anchor, interval, k))
  {
  }

  /** Each billing date follows the one before by exactly one interval. */
  lemma ConsecutiveDatesAreOneIntervalApart(anchor: UtcDate, interval: Interval, now: UtcDate)
    requires Valid(anchor) && Valid(now)
    ensures Valid(FirstRecurring(anchor, interval, now))
    ensures var next := FirstRecurring(anchor, interval, now);
            IsIntervalsOn(next, interval, 1, FirstRecurring(anchor, interval, next))
  {
    var k := FirstIndex(anchor, interval, now);
    BoundaryExactly(anchor, interval, k, Boundary(anchor, interval, k));
    BoundaryExactly(anchor, interval, k + 1, Boundary(anchor, interval, k + 1));
    NextAfterTheFirst(anchor, interval, now);
  }

  /** `next` lies k >= 1 intervals on and is past now; no date of fewer intervals is. */
  ghost predicate IsFirstDate(start: UtcDate, interval: Interval, now: UtcDate, k: int, next: UtcDate)
    requires Valid(now)
  {
    && k >= 1 && IsDateOf(start, interval, k, next) && TimeValue(next) > TimeValue(now)
    && forall j, d :: 1 <= j < k && IsDateOf(start, interval, j, d) ==> TimeValue(d) <= TimeValue(now)
  }

  lemma FirstRecurringIsFirstDate(start: UtcDate, interval: Interval, now: UtcDate)
    requires Valid(start) && Valid(now)
    ensures IsFirstDate(start, interval, now, FirstIndex(start, interval, now), FirstRecurring(start, interval, now))
  {
    var k := FirstIndex(start, interval, now);
    FirstIsAfter(start, interval, now);
    BoundaryExactly(start, interval, k, Boundary(start, interval, k));
    forall j, d | 1 <= j < k && IsDateOf(start, interval, j, d) ensures TimeValue(d) <= TimeValue(now) {
      BoundaryExactly(start, interval, j, d);
      NotAfterBeforeFirst(start, interval, now, j);
    }
  }

  /** A date without an anchor is its own. */
  function Start(anchor: Option<UtcDate>, now: UtcDate): UtcDate {
    if anchor.Some? then anchor.value else now
  }

  /** A quarterly invoice of 31 January is due on 30 April, then on 31 July. */
  lemma QuarterlyFromJanuary()
    ensures var anchor := UtcDate(2026, 0, 31, 0);
            && FirstRecurring(anchor, Quarterly, UtcDate(2026, 1, 10, 0)) == UtcDate(2026, 3, 30, 0)
            && FirstRecurring(anchor, Quarterly, UtcDate(2026, 3, 30, 0)) == UtcDate(2026, 6, 31, 0)
  {
    var anchor := UtcDate(2026, 0, 31, 0);
    assert Boundary(anchor, Quarterly, 1) == UtcDate(2026, 3, 30, 0);
    assert Boundary(anchor, Quarterly, 2) == UtcDate(2026, 6, 31, 0);
    TimeValueOrdersDates(UtcDate(2026, 1, 10, 0), UtcDate(2026, 3, 30, 0));
    assert FirstGuess(anchor, Quarterly, UtcDate(2026, 1, 10, 0)) == 1;
    assert FirstGuess(anchor, Quarterly, UtcDate(2026, 3, 30, 0)) == 1;
  }

  /** `firstRecurringDate`, with the iterations of its loop counted. */
  method FirstRecurringDate(anchor: Option<UtcDate>, interval: Interval, now: UtcDate) returns (next: UtcDate, iterations: nat)
    requires Valid(now) && (anchor.Some? ==> Valid(anchor.value))
    ensures next == FirstRecurring(Start(anchor, now), interval, now)
    ensures exists k :: IsFirstDate(Start(anchor, now), interval, now, k, next)
    ensures iterations <= 1
  {
    var start := if anchor.Some? then anchor.value else now;
    var k := Guess(start, interval, now);
    ghost var first := FirstIndex(start, interval, now);
    FirstIsAfterAndPreviousIsNot(start, interval, now);
    FirstRecurringIsFirstDate(start, interval, now);
    assert first == k || first == k + 1;
    iterations := 0;
    var due;
    next, due := BoundaryDate(start, interval, k, now);
    while due
      invariant k <= first <= k + 1 - iterations
      invariant next == Boundary(start, interval, k) && due == !IsAfter(start, interval, k, now)
      invariant !due ==> k == first
      decreases first - k
    {
      k := k + 1;
      iterations := iterations + 1;
      next, due := BoundaryDate(start, interval, k, now);
    }
  }
}
