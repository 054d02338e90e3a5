/** `DateUtil.get_start_and_end`: the query window ending at "now" and
    reaching back `point` months (approximated as 30 days each) or days. */
module DateUtil {
  import opened Wrappers
  import opened Calendar

  /** Time of day of a `datetime`, to the microsecond. */
  datatype Time = Time(hour: int, minute: int, second: int, micro: int)

  /** A UTC `datetime`. */
  datatype DateTime = DateTime(date: Date, time: Time)

  datatype Window = Window(start: DateTime, end: DateTime)

  datatype DateError =
    | Unsupported(granularity: string)  // `days` is never bound: UnboundLocalError
    | Overflow                          // `timedelta` or the subtraction is out of range

  const DayMicros := 86_400_000_000

  /** Largest magnitude of `timedelta.days`. */
  const MaxDeltaDays := 999_999_999

  predicate ValidTime(t: Time) {
    0 <= t.hour < 24 && 0 <= t.minute < 60 && 0 <= t.second < 60 && 0 <= t.micro < 1_000_000
  }

  predicate ValidDateTime(t: DateTime) {
    ValidDate(t.date) && ValidTime(t.time)
  }

  function TimeMicros(t: Time): int {
    ((t.hour * 60 + t.minute) * 60 + t.second) * 1_000_000 + t.micro
  }

  /** Microseconds since 0001-01-01T00:00:00. */
  function Micros(t: DateTime): int
    requires ValidDateTime(t)
  {
    (Ordinal(t.date) - 1) * DayMicros + TimeMicros(t.time)
  }

  /** `a < b` on datetimes. */
  predicate Before(a: DateTime, b: DateTime)
    requires ValidDateTime(a) && ValidDateTime(b)
  {
    Micros(a) < Micros(b)
  }

  /** `(b - a).days`: whole days, rounded toward minus infinity. */
  function DaysBetween(a: DateTime, b: DateTime): int
    requires ValidDateTime(a) && ValidDateTime(b)
  {
    (Micros(b) - Micros(a)) / DayMicros
  }

  /** `t - timedelta(days=days)` */
  function SubtractDays(t: DateTime, days: int): (r: Result<DateTime, DateError>)
    requires ValidDateTime(t)
    ensures r.Ok? <==> -MaxDeltaDays <= days <= MaxDeltaDays && 1 <= Ordinal(t.date) - days <= MaxOrdinal
    ensures r.Ok? ==> ValidDateTime(r.value) && r.value.time == t.time
    ensures r.Ok? ==> Ordinal(r.value.date) == Ordinal(t.date) - days
    ensures r.Err? ==> r.error == Overflow
  {
    if days < -MaxDeltaDays || MaxDeltaDays < days then Err(Overflow)
    else
      var n := Ordinal(t.date) - days;
      if n < 1 || MaxOrdinal < n then Err(Overflow)
      else Ok(DateTime(FromOrdinal(n), t.time))
  }

  /** `t.replace(day=1)` */
  function FirstOfMonth(t: DateTime): (r: DateTime)
    requires ValidDateTime(t)
    ensures ValidDateTime(r)
    ensures Ordinal(r.date) == Ordinal(t.date) - (t.date.day - 1)
    ensures r.date.year == t.date.year && r.date.month == t.date.month && r.date.day == 1
    ensures r.time == t.time
  {
    DateTime(Date(t.date.year, t.date.month, 1), t.time)
  }

  /** Days of lookback per granularity; `None` where `days` stays unbound. */
  function LookbackDays(granularity: string, point: int): (r: Option<int>)
    ensures r.None? <==> granularity != "MONTHLY" && granularity != "DAILY"
    ensures granularity == "MONTHLY" ==> r == Some(30 * point)
    ensures granularity == "DAILY" ==> r == Some(point)
  {
    if granularity == "MONTHLY" then Some(30 * point)
    else if granularity == "DAILY" then Some(point)
    else None
  }

  /** The window, with the clock reading `now` passed in. */
  function GetStartAndEnd(granularity: string, point: int, now: DateTime): (r: Result<Window, DateError>)
    requires ValidDateTime(now)
    ensures r.Ok? ==> r.value.end == now && ValidDateTime(r.value.start)
    ensures r.Ok? ==> r.value.start.time == now.time
    ensures r.Err? && r.error.Unsupported? <==> granularity != "MONTHLY" && granularity != "DAILY"
  {
    match LookbackDays(granularity, point)
    case None => Err(Unsupported(granularity))
    case Some(days) =>
      match SubtractDays(now, days)
      case Err(e) => Err(e)
      case Ok(start) =>
        Ok(Window(if granularity == "MONTHLY" then FirstOfMonth(start) else start, now))
  }

  /** The window exists exactly when the lookback is a supported granularity
      and `now` minus it stays inside years 1..9999. */
  lemma WindowDefined(granularity: string, point: int, now: DateTime)
    requires ValidDateTime(now)
    requires granularity == "MONTHLY" || granularity == "DAILY"
    ensures GetStartAndEnd(granularity, point, now).Ok? <==>
      var days := if granularity == "MONTHLY" then 30 * point else point;
      -MaxDeltaDays <= days <= MaxDeltaDays && 1 <= Ordinal(now.date) - days <= MaxOrdinal
  {
  }

  lemma SameTimeDaysBetween(a: DateTime, b: DateTime)
    requires ValidDateTime(a) && ValidDateTime(b) && a.time == b.time
    ensures DaysBetween(a, b) == Ordinal(b.date) - Ordinal(a.date)
    ensures Before(a, b) <==> Ordinal(a.date) < Ordinal(b.date)
  {
    var k := Ordinal(b.date) - Ordinal(a.date);
    assert Micros(b) - Micros(a) == k * DayMicros;
  }

  /** DAILY: the start is exactly `point` days before the end, at the same time of day. */
  lemma DailyWindow(point: int, now: DateTime)
    requires ValidDateTime(now)
    requires GetStartAndEnd("DAILY", point, now).Ok?
    ensures var w := GetStartAndEnd("DAILY", point, now).value;
      && Ordinal(w.start.date) == Ordinal(now.date) - point
      && w.start.time == now.time
      && DaysBetween(w.start, w.end) == point
  {
    var w := GetStartAndEnd("DAILY", point, now).value;
    SameTimeDaysBetween(w.start, w.end);
  }

  /** MONTHLY: the start is day 1 of the month holding `now - 30*point` days,
      at the time of day of `now`. */
  lemma MonthlyStart(point: int, now: DateTime)
    requires ValidDateTime(now)
    requires GetStartAndEnd("MONTHLY", point, now).Ok?
    ensures var w := GetStartAndEnd("MONTHLY", point, now).value;
      var back := FromOrdinal(Ordinal(now.date) - 30 * point);
      && w.start.date == Date(back.year, back.month, 1)
      && w.start.time == now.time
  {
  }

  /** MONTHLY: the window spans between `30*point` and `30*point + 30` days. */
  lemma MonthlyWindowSpan(point: int, now: DateTime)
    requires ValidDateTime(now)
    requires GetStartAndEnd("MONTHLY", point, now).Ok?
    ensures var w := GetStartAndEnd("MONTHLY", point, now).value;
      30 * point <= DaysBetween(w.start, w.end) <= 30 * point + 30
  {
    var w := GetStartAndEnd("MONTHLY", point, now).value;
    var back := SubtractDays(now, 30 * point).value;
    assert w.start == FirstOfMonth(back);
    SameTimeDaysBetween(w.start, w.end);
    assert back.date.day <= 31;
  }

  /** The start never follows the end for a non-negative lookback, and
      precedes it for a positive one. */
  lemma WindowOrdered(granularity: string, point: int, now: DateTime)
    requires ValidDateTime(now)
    requires GetStartAndEnd(granularity, point, now).Ok?
    ensures var w := GetStartAndEnd(granularity, point, now).value;
      && (point >= 0 ==> !Before(w.end, w.start))
      && (point >= 1 ==> Before(w.start, w.end))
  {
    var w := GetStartAndEnd(granularity, point, now).value;
    SameTimeDaysBetween(w.start, w.end);
    SameTimeDaysBetween(w.end, w.start);
    if granularity == "MONTHLY" {
      MonthlyWindowSpan(point, now);
    } else {
      DailyWindow(point, now);
    }
  }

  /** A MONTHLY window of three points can span 120 days: with `now` at
      2023-06-29, `now - 90` days is 2023-03-31 and the start snaps to
      2023-03-01. */
  lemma ThreeMonthWindowCanSpan120Days(t: Time)
    requires ValidTime(t)
    ensures var now := DateTime(Date(2023, 6, 29), t);
      && ValidDateTime(now)
      && GetStartAndEnd("MONTHLY", 3, now) == Ok(Window(DateTime(Date(2023, 3, 1), t), now))
      && DaysBetween(DateTime(Date(2023, 3, 1), t), now) == 120
  {
    var now := DateTime(Date(2023, 6, 29), t);
    var back := Date(2023, 3, 31);
    assert Ordinal(now.date) - 90 == Ordinal(back);
    FromOrdinalOfOrdinal(back);
    SameTimeDaysBetween(DateTime(Date(2023, 3, 1), t), now);
  }
}
