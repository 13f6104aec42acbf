/** `mktime` of arch/x86/drivers/rtc.c against counting days one by one. */
module Calendar {
  datatype Date = Date(year: nat, month: nat, day: nat)

  const EPOCH := Date(1970, 1, 1)
  const DAYS_TO_EPOCH: int := 719499

  // ---------------------------------------------------------------- the Gregorian calendar

  predicate Leap(year: nat)
  {
    year % 4 == 0 && (year % 100 != 0 || year % 400 == 0)
  }

  function DaysIn(year: nat, month: nat): nat
    requires 1 <= month <= 12
  {
    if month == 2 then (if Leap(year) then 29 else 28)
    else if month in {4, 6, 9, 11} then 30
    else 31
  }

  predicate Valid(d: Date)
  {
    1 <= d.month <= 12 && 1 <= d.day <= DaysIn(d.year, d.month)
  }

  function NextDay(d: Date): Date
    requires Valid(d)
  {
    if d.day < DaysIn(d.year, d.month) then d.(day := d.day + 1)
    else if d.month < 12 then Date(d.year, d.month + 1, 1)
    else Date(d.year + 1, 1, 1)
  }

  /** The date `n` days after 1970-01-01. */
  function DateAfter(n: nat): (d: Date)
    ensures Valid(d) && d.year >= 1970
  {
    if n == 0 then EPOCH else NextDay(DateAfter(n - 1))
  }

  // ---------------------------------------------------------------- mktime

  /** The day number `mktime` computes, with March as the first month of the year. */
  function DayNumber(d: Date): int
  {
    var mon := d.month - 2;
    var m, y := if mon <= 0 then mon + 12 else mon, if mon <= 0 then d.year - 1 else d.year;
    y / 4 - y / 100 + y / 400 + 367 * m / 12 + d.day + y * 365 - DAYS_TO_EPOCH
  }

  function MkTime(sec: int, min: int, hour: int, d: Date): int
  {
    ((DayNumber(d) * 24 + hour) * 60 + min) * 60 + sec
  }

  /** The count of leap days goes up by one in leap years. */
  lemma LeapDays(y: nat)
    requires y > 0
    ensures y / 4 - y / 100 + y / 400 == (y - 1) / 4 - (y - 1) / 100 + (y - 1) / 400 + if Leap(y) then 1 else 0
  {
    Quotient(y, 4);
    Quotient(y, 100);
    Quotient(y, 400);
    Hundreds(y);
    Tally(y / 4, (y - 1) / 4, y / 100, (y - 1) / 100, y / 400, (y - 1) / 400, y % 4 == 0, y % 100 == 0, y % 400 == 0);
  }

  lemma Hundreds(y: nat)
    ensures y % 400 == 0 ==> y % 100 == 0
    ensures y % 100 == 0 ==> y % 4 == 0
  {
    if y % 400 == 0 { NoRest(4 * (y / 400) - y / 100, y % 100, 100); }
    if y % 100 == 0 { NoRest(25 * (y / 100) - y / 4, y % 4, 4); }
  }

  lemma NoRest(d: int, rest: nat, n: nat)
    requires n in {4, 100} && rest < n && n * d == rest
    ensures rest == 0
  {
  }

  lemma Tally(q4: int, p4: int, q100: int, p100: int, q400: int, p400: int, by4: bool, by100: bool, by400: bool)
    requires q4 == p4 + (if by4 then 1 else 0) && q100 == p100 + (if by100 then 1 else 0)
    requires q400 == p400 + (if by400 then 1 else 0) && (by400 ==> by100) && (by100 ==> by4)
    ensures q4 - q100 + q400 == p4 - p100 + p400 + if by4 && (!by100 || by400) then 1 else 0
  {
  }

  lemma Quotient(y: nat, n: nat)
    requires y > 0 && n in {4, 100, 400}
    ensures y / n == (y - 1) / n + if y % n == 0 then 1 else 0
  {
  }

  /** From the last day of a month to the first of the next. */
  lemma MonthEnd(y: nat, m: nat)
    requires y > 0 && 1 <= m < 12
    ensures DayNumber(Date(y, m + 1, 1)) == DayNumber(Date(y, m, DaysIn(y, m))) + 1
  {
    if m == 2 { LeapDays(y); }
  }

  lemma YearEnd(y: nat)
    requires y > 0
    ensures DayNumber(Date(y + 1, 1, 1)) == DayNumber(Date(y, 12, 31)) + 1
  {
  }

  /** One day later is one more, over every month end and every February. */
  lemma NextIsOneMore(d: Date)
    requires Valid(d) && d.year > 0
    ensures DayNumber(NextDay(d)) == DayNumber(d) + 1
  {
    if d.day < DaysIn(d.year, d.month) {
    } else if d.month < 12 {
      MonthEnd(d.year, d.month);
    } else {
      YearEnd(d.year);
    }
  }

  lemma {:induction false} DayNumberAfter(n: nat)
    ensures DayNumber(DateAfter(n)) == n
  {
    if n > 0 {
      var d := DateAfter(n - 1);
      DayNumberAfter(n - 1);
      NextIsOneMore(d);
      assert DateAfter(n) == NextDay(d);
    }
  }

  /** Every valid date from 1970 on is reached by counting days. */
  function Before(d: Date): (e: Date)
    requires Valid(d) && d.year >= 1970 && d != EPOCH
    ensures Valid(e) && e.year >= 1970 && NextDay(e) == d
  {
    if d.day > 1 then d.(day := d.day - 1)
    else if d.month > 1 then Date(d.year, d.month - 1, DaysIn(d.year, d.month - 1))
    else Date(d.year - 1, 12, 31)
  }

  lemma {:induction false} EveryDateIsReached(d: Date)
    requires Valid(d) && d.year >= 1970
    ensures DayNumber(d) >= 0 && DateAfter(DayNumber(d)) == d
    decreases d.year, d.month, d.day
  {
    if d != EPOCH {
      var e := Before(d);
      EveryDateIsReached(e);
      NextIsOneMore(e);
    }
  }

  lemma MkTimeIs(sec: int, min: int, hour: int, d: Date)
    ensures MkTime(sec, min, hour, d) == 86400 * DayNumber(d) + 3600 * hour + 60 * min + sec
  {
  }

  /** For every valid date from 1970 on, in any year, `mktime` is 86400 times the number of days counted
      from 1970-01-01, plus the time of day. */
  lemma MkTimeCounts(sec: int, min: int, hour: int, d: Date)
    requires Valid(d) && d.year >= 1970
    ensures exists n: nat :: DateAfter(n) == d && MkTime(sec, min, hour, d) == 86400 * n + 3600 * hour + 60 * min + sec
  {
    EveryDateIsReached(d);
    MkTimeIs(sec, min, hour, d);
  }

  lemma SameMoment(a: int, b: int, s: nat, t: nat)
    requires s < 86400 && t < 86400 && 86400 * a + s == 86400 * b + t
    ensures a == b && s == t
  {
  }

  /** A time of day. */
  datatype Clock = Clock(hour: nat, min: nat, sec: nat)

  predicate OnClock(c: Clock)
  {
    c.hour < 24 && c.min < 60 && c.sec < 60
  }

  lemma SameClock(a: Clock, b: Clock)
    requires OnClock(a) && OnClock(b) && 3600 * a.hour + 60 * a.min + a.sec == 3600 * b.hour + 60 * b.min + b.sec
    ensures a == b
  {
  }

  /** No two moments get the same time. */
  lemma MkTimeInjective(c1: Clock, d1: Date, c2: Clock, d2: Date)
    requires Valid(d1) && Valid(d2) && d1.year >= 1970 && d2.year >= 1970 && OnClock(c1) && OnClock(c2)
    requires MkTime(c1.sec, c1.min, c1.hour, d1) == MkTime(c2.sec, c2.min, c2.hour, d2)
    ensures d1 == d2 && c1 == c2
  {
    MkTimeIs(c1.sec, c1.min, c1.hour, d1);
    MkTimeIs(c2.sec, c2.min, c2.hour, d2);
    var n1, n2 := DayNumber(d1), DayNumber(d2);
    SameMoment(n1, n2, 3600 * c1.hour + 60 * c1.min + c1.sec, 3600 * c2.hour + 60 * c2.min + c2.sec);
    SameClock(c1, c2);
    EveryDateIsReached(d1);
    EveryDateIsReached(d2);
  }
}
