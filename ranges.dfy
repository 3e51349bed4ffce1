/**
 * Session date ranges of the probe views (control/views/probes.py): clamping a
 * session end, enumerating the sessions since a last update, finding the range
 * that holds a probe and bucketing probes by minute.
 */
module Ranges {
  import opened Wrappers
  import opened Courses

  /** One entry of a range list: a session from `startDate` to `endDate`. */
  datatype DatetimeRange = DatetimeRange(startDate: int, endDate: int)

  predicate Contains(r: DatetimeRange, t: int) {
    r.startDate <= t < r.endDate
  }

  // ---------------------------------------------------------------------
  // get_course_end_date

  /**
   * `start + duration` minutes, cut back to `queryDate` when that is earlier,
   * and never before `start`.
   */
  function GetCourseEndDate(startDate: int, duration: int, queryDate: Option<int>): (r: int)
    ensures startDate <= r
    ensures duration >= 0 ==> r <= startDate + duration * MINUTE
    ensures queryDate.Some? && startDate <= queryDate.value ==> r <= queryDate.value
    ensures queryDate.None? && duration >= 0 ==> r == startDate + duration * MINUTE
    ensures r == startDate || r == startDate + duration * MINUTE || (queryDate.Some? && r == queryDate.value)
    ensures queryDate.Some? && duration >= 0 && startDate + duration * MINUTE <= queryDate.value
            ==> r == startDate + duration * MINUTE
    ensures queryDate.Some? && startDate <= queryDate.value < startDate + duration * MINUTE
            ==> r == queryDate.value
    ensures duration < 0 || (queryDate.Some? && queryDate.value < startDate) ==> r == startDate
  {
    var endDate := startDate + duration * 60 * SECOND;
    var endDate := if queryDate.Some? && endDate > queryDate.value then queryDate.value else endDate;
    if endDate < startDate then startDate else endDate
  }

  // ---------------------------------------------------------------------
  // get_missing_dates

  /** The range one start time contributes in the week of `ref`, if it is not empty. */
  function SessionRange(ref: int, queryDate: int, duration: int, wd: WeekDay): seq<DatetimeRange> {
    var startDate := ThisWeeksDate(wd, ref);
    var endDate := GetCourseEndDate(startDate, duration, Some(queryDate));
    if startDate < endDate then [DatetimeRange(startDate, endDate)] else []
  }

  /** The ranges of one course's start times, in order. */
  function StartTimeRanges(ref: int, queryDate: int, duration: int, wds: seq<WeekDay>): seq<DatetimeRange> {
    if wds == [] then []
    else StartTimeRanges(ref, queryDate, duration, wds[..|wds| - 1])
         + SessionRange(ref, queryDate, duration, wds[|wds| - 1])
  }

  /** The ranges of all courses in the week of `ref`, in order. */
  function WeekRanges(ref: int, queryDate: int, courses: seq<Course>): seq<DatetimeRange> {
    if courses == [] then []
    else
      var c := courses[|courses| - 1];
      WeekRanges(ref, queryDate, courses[..|courses| - 1])
      + StartTimeRanges(ref, queryDate, c.duration, c.startTimes)
  }

  /** The ranges of every week from `lastUpdate` on, one week at a time, while before `queryDate`. */
  function MissingDates(lastUpdate: int, queryDate: int, courses: seq<Course>): seq<DatetimeRange>
    decreases queryDate - lastUpdate
  {
    if lastUpdate < queryDate then
      WeekRanges(lastUpdate, queryDate, courses) + MissingDates(lastUpdate + WEEK, queryDate, courses)
    else []
  }

  /** The nested loops of get_missing_dates, appending each non-empty session range. */
  method GetMissingDates(lastUpdate: int, queryDate: int, courses: seq<Course>) returns (dates: seq<DatetimeRange>)
    ensures dates == MissingDates(lastUpdate, queryDate, courses)
  {
    dates := [];
    var last := lastUpdate;
    while last < queryDate
      invariant dates + MissingDates(last, queryDate, courses) == MissingDates(lastUpdate, queryDate, courses)
      decreases queryDate - last
    {
      ghost var previous := dates;
      dates := AddWeekRanges(dates, last, queryDate, courses);
      ghost var week := WeekRanges(last, queryDate, courses);
      ghost var later := MissingDates(last + WEEK, queryDate, courses);
      assert MissingDates(last, queryDate, courses) == week + later;
      assert dates + later == previous + (week + later);
      last := last + WEEK;
    }
  }

  /** The loop over the courses of get_missing_dates, for the week of `ref`. */
  method AddWeekRanges(dates: seq<DatetimeRange>, ref: int, queryDate: int, courses: seq<Course>)
    returns (r: seq<DatetimeRange>)
    ensures r == dates + WeekRanges(ref, queryDate, courses)
  {
    r := dates;
    for i := 0 to |courses|
      invariant r == dates + WeekRanges(ref, queryDate, courses[..i])
    {
      var course := courses[i];
      r := AddSessionRanges(r, ref, queryDate, course);
      WeekRangesStep(ref, queryDate, courses, i);
    }
    assert courses[..|courses|] == courses;
  }

  /** The inner loop of get_missing_dates: the ranges of one course's start times in the week of `ref`. */
  method AddSessionRanges(dates: seq<DatetimeRange>, ref: int, queryDate: int, course: Course)
    returns (r: seq<DatetimeRange>)
    ensures r == dates + StartTimeRanges(ref, queryDate, course.duration, course.startTimes)
  {
    r := dates;
    for j := 0 to |course.startTimes|
      invariant r == dates + StartTimeRanges(ref, queryDate, course.duration, course.startTimes[..j])
    {
      var weekday := course.startTimes[j];
      StartTimeRangesStep(ref, queryDate, course.duration, course.startTimes, j);
      var startDate := ThisWeeksDate(weekday, ref);
      var endDate := GetCourseEndDate(startDate, course.duration, Some(queryDate));
      if startDate < endDate {
        r := r + [DatetimeRange(startDate, endDate)];
      }
    }
    assert course.startTimes[..|course.startTimes|] == course.startTimes;
  }

  lemma StartTimeRangesStep(ref: int, queryDate: int, duration: int, wds: seq<WeekDay>, j: int)
    requires 0 <= j < |wds|
    ensures StartTimeRanges(ref, queryDate, duration, wds[..j + 1])
            == StartTimeRanges(ref, queryDate, duration, wds[..j]) + SessionRange(ref, queryDate, duration, wds[j])
    ensures j + 1 == |wds| ==> wds[..j + 1] == wds
  {
    assert wds[..j + 1][..j] == wds[..j];
  }

  lemma WeekRangesStep(ref: int, queryDate: int, courses: seq<Course>, i: int)
    requires 0 <= i < |courses|
    ensures WeekRanges(ref, queryDate, courses[..i + 1])
            == WeekRanges(ref, queryDate, courses[..i])
               + StartTimeRanges(ref, queryDate, courses[i].duration, courses[i].startTimes)
  {
    assert courses[..i + 1][..i] == courses[..i];
  }

  /** A range that the schedule of `courses` produces: it opens at a start time of one of them. */
  ghost predicate ScheduledRange(r: DatetimeRange, queryDate: int, courses: seq<Course>) {
    && r.startDate < r.endDate <= queryDate
    && exists c, wd :: c in courses && wd in c.startTimes
         && WeekdayOf(r.startDate) == wd.day
         && TimeOfDay(r.startDate) == wd.time - wd.time % SECOND
         && r.endDate <= r.startDate + c.duration * MINUTE
  }

  lemma {:induction false} StartTimeRangesScheduled(ref: int, queryDate: int, c: Course, wds: seq<WeekDay>, courses: seq<Course>)
    requires c in courses
    requires forall wd :: wd in wds ==> wd in c.startTimes && ValidWeekDay(wd)
    ensures forall r :: r in StartTimeRanges(ref, queryDate, c.duration, wds) ==> ScheduledRange(r, queryDate, courses)
  {
    if wds != [] {
      var wd := wds[|wds| - 1];
      StartTimeRangesScheduled(ref, queryDate, c, wds[..|wds| - 1], courses);
      ThisWeeksDatePlacement(wd, ref);
    }
  }

  lemma {:induction false} WeekRangesScheduled(ref: int, queryDate: int, cs: seq<Course>, courses: seq<Course>)
    requires forall c :: c in cs ==> c in courses
    requires forall c, wd :: c in courses && wd in c.startTimes ==> ValidWeekDay(wd)
    ensures forall r :: r in WeekRanges(ref, queryDate, cs) ==> ScheduledRange(r, queryDate, courses)
  {
    if cs != [] {
      var c := cs[|cs| - 1];
      WeekRangesScheduled(ref, queryDate, cs[..|cs| - 1], courses);
      StartTimeRangesScheduled(ref, queryDate, c, c.startTimes, courses);
    }
  }

  /**
   * Every range get_missing_dates adds is non-empty, ends by `queryDate`, and is
   * a session of one of the courses: it opens on a start time's weekday and time
   * of day and lasts at most the course duration.
   */
  lemma {:induction false} MissingDatesScheduled(lastUpdate: int, queryDate: int, courses: seq<Course>)
    requires forall c, wd :: c in courses && wd in c.startTimes ==> ValidWeekDay(wd)
    ensures forall r :: r in MissingDates(lastUpdate, queryDate, courses) ==> ScheduledRange(r, queryDate, courses)
    decreases queryDate - lastUpdate
  {
    if lastUpdate < queryDate {
      WeekRangesScheduled(lastUpdate, queryDate, courses, courses);
      MissingDatesScheduled(lastUpdate + WEEK, queryDate, courses);
    }
  }

  // ---------------------------------------------------------------------
  // get_start_date and the minute bucketing of probe times

  /** The start of the first range that holds `t`, or None when no range does. */
  function GetStartDate(t: int, dates: seq<DatetimeRange>): (r: Option<int>)
    ensures r.None? <==> forall i :: 0 <= i < |dates| ==> !Contains(dates[i], t)
    ensures r.Some? ==> exists i :: 0 <= i < |dates| && Contains(dates[i], t) && dates[i].startDate == r.value
                                    && forall j :: 0 <= j < i ==> !Contains(dates[j], t)
  {
    if dates == [] then None
    else if dates[0].startDate <= t < dates[0].endDate then Some(dates[0].startDate)
    else
      var r := GetStartDate(t, dates[1..]);
      assert forall i :: 1 <= i < |dates| ==> dates[i] == dates[1..][i - 1];
      if r.Some? then
        var i :| 0 <= i < |dates[1..]| && Contains(dates[1..][i], t) && dates[1..][i].startDate == r.value
                 && forall j :: 0 <= j < i ==> !Contains(dates[1..][j], t);
        assert Contains(dates[i + 1], t) && dates[i + 1].startDate == r.value;
        r
      else r
  }

  /**
   * Whole minutes from the start of the probe's range to the probe, floored;
   * None where the source would fail on a probe outside every range.
   */
  function MinuteOf(t: int, dates: seq<DatetimeRange>): (m: Option<int>)
    ensures m.None? <==> forall i :: 0 <= i < |dates| ==> !Contains(dates[i], t)
    ensures m.Some? ==> exists i :: 0 <= i < |dates| && Contains(dates[i], t)
                                    && (forall j :: 0 <= j < i ==> !Contains(dates[j], t))
                                    && m.value * MINUTE <= t - dates[i].startDate < (m.value + 1) * MINUTE
                                    && 0 <= m.value * MINUTE < dates[i].endDate - dates[i].startDate
  {
    match GetStartDate(t, dates)
    case None => None
    case Some(s) =>
      var m := (t - s) / MINUTE;
      assert m * MINUTE <= t - s < (m + 1) * MINUTE;
      Some(m)
  }

  /** The loop over the probe times that collects the minute of each. */
  method ProbeMinutes(times: seq<int>, dates: seq<DatetimeRange>) returns (minutes: Option<seq<int>>)
    ensures minutes.None? <==> exists k :: 0 <= k < |times| && MinuteOf(times[k], dates).None?
    ensures minutes.Some? ==> |minutes.value| == |times|
    ensures minutes.Some? ==> forall k :: 0 <= k < |times| ==> Some(minutes.value[k]) == MinuteOf(times[k], dates)
  {
    var acc: seq<int> := [];
    for k := 0 to |times|
      invariant |acc| == k
      invariant forall l :: 0 <= l < k ==> Some(acc[l]) == MinuteOf(times[l], dates)
    {
      var m := MinuteOf(times[k], dates);
      if m.None? {
        return None;
      }
      acc := acc + [m.value];
    }
    return Some(acc);
  }
}
