/** Weekly shifts: which local instants lie inside one. */
module ShiftCalendar {
  import opened Common

  const DAY_SECONDS := 86400.0
  const WEEK_SECONDS := 604800.0

  type TimeOfDay = s: real | 0.0 <= s < 86400.0 witness 0.0

  /** A wall-clock instant in the platform's zone: proleptic day ordinal and second of that day. */
  datatype LocalStamp = LocalStamp(ordinal: int, second: TimeOfDay)
  {
    /** Monday is 0; day ordinal 1 is a Monday. */
    function Weekday(): int { (ordinal + 6) % 7 }

    function SecondOfWeek(): real { Weekday() as real * DAY_SECONDS + second }
  }

  /**
   A shift boundary as stored: absent, a time value, or text. Text is represented by the integers its
   colon-separated fields convert to.
   */
  datatype Boundary = Absent | At(time: TimeOfDay) | Text(fields: seq<Option<int>>)

  datatype Shift = Shift(active: bool, start: Boundary, end: Boundary, day: Option<int>)

  /** Only the first two fields of a text count, and both must make up a valid hour and minute. */
  function ParseShiftTime(b: Boundary): Option<TimeOfDay> {
    match b
    case Absent => None
    case At(t) => Some(t)
    case Text(fields) =>
      if |fields| >= 2 && fields[0].Some? && fields[1].Some? && 0 <= fields[0].value < 24 && 0 <= fields[1].value < 60
      then Some(ClockTime(fields[0].value, fields[1].value))
      else None
  }

  function ClockTime(hour: int, minute: int): TimeOfDay
    requires 0 <= hour < 24 && 0 <= minute < 60
  {
    (hour * 3600 + minute * 60) as real
  }

  predicate OnDay(shift: Shift, weekday: int) {
    shift.day == None || shift.day == Some(weekday)
  }

  /** One shift's test as the program makes it. */
  predicate Covers(shift: Shift, local: LocalStamp) {
    && shift.active
    && ParseShiftTime(shift.start).Some? && ParseShiftTime(shift.end).Some?
    && var start, end := ParseShiftTime(shift.start).value, ParseShiftTime(shift.end).value;
       if end > start then start <= local.second < end && OnDay(shift, local.Weekday())
       else
         || (local.second >= start && OnDay(shift, local.Weekday()))
         || (local.second < end && OnDay(shift, (local.Weekday() - 1) % 7))
  }

  predicate InsideShift(local: LocalStamp, shifts: seq<Shift>) {
    exists i :: 0 <= i < |shifts| && Covers(shifts[i], local)
  }

  method IsInsideShift(local: LocalStamp, shifts: seq<Shift>) returns (inside: bool)
    ensures inside == InsideShift(local, shifts)
  {
    if shifts == [] {
      return false;
    }
    var now, weekday := local.second, local.Weekday();
    for i := 0 to |shifts|
      invariant forall j :: 0 <= j < i ==> !Covers(shifts[j], local)
    {
      var shift := shifts[i];
      if !shift.active {
        continue;
      }
      var start, end := ParseShiftTime(shift.start), ParseShiftTime(shift.end);
      if start.None? || end.None? {
        continue;
      }
      var day := shift.day;
      if end.value > start.value {
        if start.value <= now < end.value && (day == None || day == Some(weekday)) {
          assert Covers(shifts[i], local);
          return true;
        }
      } else {
        if now >= start.value && (day == None || day == Some(weekday)) {
          assert Covers(shifts[i], local);
          return true;
        }
        if now < end.value && (day == None || day == Some((weekday - 1) % 7)) {
          assert Covers(shifts[i], local);
          return true;
        }
      }
    }
    return false;
  }

  // ----- Week arithmetic

  /** A window of the given length that opens once a week, at second `begin` of the week. */
  function Opening(begin: real, week: int): real {
    begin + week as real * WEEK_SECONDS
  }

  ghost predicate InWeeklyWindow(second: real, begin: real, length: real) {
    exists week: int :: Opening(begin, week) <= second < Opening(begin, week) + length
  }

  function ShiftLength(start: TimeOfDay, end: TimeOfDay): real {
    if end > start then end - start else DAY_SECONDS - start + end
  }

  function DayStart(day: int): real {
    day as real * DAY_SECONDS
  }

  /** The shift's window on the given weekday contains the stamp, modulo the week. */
  ghost predicate WindowContains(shift: Shift, day: int, local: LocalStamp)
    requires ParseShiftTime(shift.start).Some? && ParseShiftTime(shift.end).Some?
  {
    var start, end := ParseShiftTime(shift.start).value, ParseShiftTime(shift.end).value;
    InWeeklyWindow(local.SecondOfWeek(), DayStart(day) + start, ShiftLength(start, end))
  }

  lemma {:induction false} OpeningOfWeek(begin: real, week: int)
    ensures week >= 1 ==> Opening(begin, week) >= begin + WEEK_SECONDS
    ensures week <= -2 ==> Opening(begin, week) <= begin - 2.0 * WEEK_SECONDS
    ensures Opening(begin, 0) == begin && Opening(begin, -1) == begin - WEEK_SECONDS
  {
  }

  lemma {:induction false} Whole(a: int, b: int)
    ensures a < b ==> DayStart(a) + DAY_SECONDS <= DayStart(b)
  {
    if a < b {
      assert (a + 1) as real <= b as real;
    }
  }

  /**
   A day's window contains the stamp exactly when the stamp falls on that weekday from the start on,
   or, for a window that runs past midnight, on the following weekday before the end. Sunday's
   following day is Monday.
   */
  lemma {:induction false} WindowByWeekday(shift: Shift, day: int, local: LocalStamp)
    requires ParseShiftTime(shift.start).Some? && ParseShiftTime(shift.end).Some?
    requires 0 <= day < 7
    ensures var start, end := ParseShiftTime(shift.start).value, ParseShiftTime(shift.end).value;
      WindowContains(shift, day, local) <==>
        if end > start then day == local.Weekday() && start <= local.second < end
        else (day == local.Weekday() && local.second >= start)
             || (day == (local.Weekday() - 1) % 7 && local.second < end)
  {
    var start, end := ParseShiftTime(shift.start).value, ParseShiftTime(shift.end).value;
    var begin, length, at := DayStart(day) + start, ShiftLength(start, end), local.SecondOfWeek();
    var weekday := local.Weekday();
    assert at == DayStart(weekday) + local.second;
    OpeningOfWeek(begin, 0);
    Whole(day, weekday);
    Whole(weekday, day);
    Whole(day + 1, weekday);
    Whole(weekday + 6, day);
    Whole(day, weekday + 6);
    forall week | Opening(begin, week) <= at < Opening(begin, week) + length ensures week == 0 || week == -1 {
      OpeningOfWeek(begin, week);
    }
    assert InWeeklyWindow(at, begin, length) <==>
           (Opening(begin, 0) <= at < Opening(begin, 0) + length)
           || (Opening(begin, -1) <= at < Opening(begin, -1) + length);
  }

  /**
   A stamp is inside a shift exactly when, for some active shift whose boundaries parse, the second of
   the week lies in the window of some day the shift is for, modulo the week.
   */
  lemma {:induction false} InsideShiftIsWeekArithmetic(local: LocalStamp, shifts: seq<Shift>)
    ensures InsideShift(local, shifts) <==>
            exists i, day :: 0 <= i < |shifts| && 0 <= day < 7 && shifts[i].active
              && ParseShiftTime(shifts[i].start).Some? && ParseShiftTime(shifts[i].end).Some?
              && OnDay(shifts[i], day) && WindowContains(shifts[i], day, local)
  {
    forall i, day | 0 <= i < |shifts| && 0 <= day < 7
                    && ParseShiftTime(shifts[i].start).Some? && ParseShiftTime(shifts[i].end).Some? {
      WindowByWeekday(shifts[i], day, local);
    }
    if InsideShift(local, shifts) {
      var i :| 0 <= i < |shifts| && Covers(shifts[i], local);
      var today, yesterday := local.Weekday(), (local.Weekday() - 1) % 7;
      assert || (WindowContains(shifts[i], today, local) && OnDay(shifts[i], today))
             || (WindowContains(shifts[i], yesterday, local) && OnDay(shifts[i], yesterday));
    }
  }
}
