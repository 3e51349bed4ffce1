/**
 * Weekly schedule and access-token arithmetic of the course model
 * (control/models/courses.py).
 *
 * Instants are integers counting microseconds (the resolution of Python's
 * datetime) on a single UTC timeline whose instant 0 is a Monday at 00:00.
 */
module Courses {
  import opened Wrappers
  import opened Sorting

  const SECOND: int := 1000000
  const MINUTE: int := 60 * SECOND
  const DAY: int := 86400 * SECOND
  const WEEK: int := 7 * DAY

  /** Monday is 0, Sunday is 6, as in WeekDayChoices. */
  function WeekdayOf(t: int): int { (t / DAY) % 7 }

  /** Microseconds elapsed since midnight of the day of `t`. */
  function TimeOfDay(t: int): int { t % DAY }

  /** The Monday 00:00 that opens the week of `t`. */
  function WeekStart(t: int): int { t - t % WEEK }

  /** A recurring start time: a day of the week and a time of day. */
  datatype WeekDay = WeekDay(id: nat, day: int, time: int)

  /** The database check constraint on `day`, and a time of day within one day. */
  predicate ValidWeekDay(wd: WeekDay) {
    0 <= wd.day <= 6 && 0 <= wd.time < DAY
  }

  datatype AccessToken = AccessToken(token: string, created: int, validTime: int)

  datatype Course = Course(
    id: nat,
    minAttendTime: int,   // minutes
    duration: int,        // minutes
    ongoing: bool,
    startTimes: seq<WeekDay>,
    accessToken: Option<AccessToken>)

  // ---------------------------------------------------------------------
  // Arithmetic helpers

  lemma MulAtLeast(k: int, d: int)
    requires k >= 1 && d > 0
    ensures k * d >= d
  {
  }

  lemma DivModUnique(x: int, d: int, q: int, r: int)
    requires d > 0 && 0 <= r < d && x == q * d + r
    ensures x / d == q && x % d == r
  {
    var q0, r0 := x / d, x % d;
    assert (q - q0) * d == r0 - r;
    if q0 < q {
      MulAtLeast(q - q0, d);
      assert false;
    } else if q0 > q {
      MulAtLeast(q0 - q, d);
      assert false;
    }
  }

  /** Splitting an instant into whole days and the time of day, then days into weeks. */
  lemma WeekOfDays(t: int)
    ensures t == (t / DAY) * DAY + TimeOfDay(t)
    ensures WeekStart(t) == ((t / DAY) / 7) * WEEK
    ensures t % WEEK == WeekdayOf(t) * DAY + TimeOfDay(t)
  {
    var d, w := t / DAY, (t / DAY) / 7;
    assert d == w * 7 + d % 7;
    assert t == w * WEEK + ((d % 7) * DAY + t % DAY);
    DivModUnique(t, WEEK, w, (d % 7) * DAY + t % DAY);
  }

  /** An instant built from a week number, a weekday and a time of day. */
  lemma Compose(w: int, day: int, tt: int)
    requires 0 <= day < 7 && 0 <= tt < DAY
    ensures WeekdayOf(w * WEEK + day * DAY + tt) == day
    ensures TimeOfDay(w * WEEK + day * DAY + tt) == tt
    ensures WeekStart(w * WEEK + day * DAY + tt) == w * WEEK
  {
    var t := w * WEEK + day * DAY + tt;
    assert t == (w * 7 + day) * DAY + tt;
    DivModUnique(t, DAY, w * 7 + day, tt);
    DivModUnique(w * 7 + day, 7, w, day);
    DivModUnique(t, WEEK, w, day * DAY + tt);
  }

  // ---------------------------------------------------------------------
  // WeekDay.get_this_weeks_date

  /**
   * The reference instant with its time of day replaced by the start time
   * (microseconds dropped), shifted by the difference of weekdays.
   */
  function ThisWeeksDate(wd: WeekDay, ref: int): int {
    var replaced := ref - ref % DAY + (wd.time - wd.time % SECOND);
    replaced + (wd.day - WeekdayOf(replaced)) * DAY
  }

  /** Where this week's date lies: its weekday, time of day and week. */
  lemma ThisWeeksDatePlacement(wd: WeekDay, ref: int)
    requires ValidWeekDay(wd)
    ensures ThisWeeksDate(wd, ref) == WeekStart(ref) + wd.day * DAY + (wd.time - wd.time % SECOND)
    ensures WeekdayOf(ThisWeeksDate(wd, ref)) == wd.day
    ensures TimeOfDay(ThisWeeksDate(wd, ref)) == wd.time - wd.time % SECOND
    ensures ThisWeeksDate(wd, ref) % SECOND == 0
    ensures WeekStart(ThisWeeksDate(wd, ref)) == WeekStart(ref)
  {
    var tt := wd.time - wd.time % SECOND;
    var replaced := ref - ref % DAY + tt;
    WeekOfDays(ref);
    var w := (ref / DAY) / 7;
    assert ref - ref % DAY == w * WEEK + WeekdayOf(ref) * DAY;
    Compose(w, WeekdayOf(ref), tt);
    assert WeekdayOf(replaced) == WeekdayOf(ref);
    var r := ThisWeeksDate(wd, ref);
    assert r == w * WEEK + wd.day * DAY + tt;
    Compose(w, wd.day, tt);
    assert tt == (tt / SECOND) * SECOND;
    DivModUnique(r, SECOND, w * 7 * 86400 + wd.day * 86400 + tt / SECOND, 0);
  }

  /** Dates of consecutive weeks are exactly one week apart. */
  lemma ThisWeeksDateNextWeek(wd: WeekDay, ref: int)
    requires ValidWeekDay(wd)
    ensures ThisWeeksDate(wd, ref + WEEK) == ThisWeeksDate(wd, ref) + WEEK
  {
    ThisWeeksDatePlacement(wd, ref);
    ThisWeeksDatePlacement(wd, ref + WEEK);
    WeekOfDays(ref);
    var w := (ref / DAY) / 7;
    assert ref == w * WEEK + ref % WEEK;
    DivModUnique(ref + WEEK, WEEK, w + 1, ref % WEEK);
  }

  // ---------------------------------------------------------------------
  // AccessToken

  /** A token is valid for exactly its own value. */
  function IsTokenValid(t: AccessToken, given: string): (valid: bool)
    ensures valid <==> given == t.token
  {
    if t.token == given then true else false
  }

  /** Expired once `valid_time` minutes have passed since creation. */
  function IsTokenExpired(t: AccessToken, now: int): (expired: bool)
    ensures expired <==> now >= t.created + t.validTime * MINUTE
  {
    var expirationTime := t.created + t.validTime * 60 * SECOND;
    if now < expirationTime then false else true
  }

  /** Once expired, a token stays expired. */
  lemma ExpiryIsFinal(t: AccessToken, now: int, later: int)
    requires now <= later
    ensures IsTokenExpired(t, now) ==> IsTokenExpired(t, later)
    ensures !IsTokenExpired(t, later) ==> !IsTokenExpired(t, now)
  {
  }

  // ---------------------------------------------------------------------
  // Course.is_ongoing

  /** `now` lies in the half-open window [s, s + duration) of this week's date s. */
  predicate InSession(c: Course, wd: WeekDay, now: int) {
    ThisWeeksDate(wd, now) <= now < EndOf(c, wd, now)
  }

  predicate Ongoing(c: Course, now: int) {
    c.ongoing || exists i :: 0 <= i < |c.startTimes| && InSession(c, c.startTimes[i], now)
  }

  /** The scan over the start times, returning at the first window that holds `now`. */
  method IsOngoing(c: Course, now: int) returns (b: bool)
    ensures c.ongoing ==> b
    ensures !c.ongoing ==> (b <==> exists i :: 0 <= i < |c.startTimes| && InSession(c, c.startTimes[i], now))
    ensures c.startTimes == [] ==> b == c.ongoing
    ensures b == Ongoing(c, now)
  {
    if c.ongoing {
      return true;
    }
    var i := 0;
    while i < |c.startTimes|
      invariant 0 <= i <= |c.startTimes|
      invariant forall k :: 0 <= k < i ==> !InSession(c, c.startTimes[k], now)
    {
      var day := c.startTimes[i];
      var maxDurationDay := ThisWeeksDate(day, now) + c.duration * MINUTE;
      if ThisWeeksDate(day, now) <= now < maxDurationDay {
        return true;
      }
      i := i + 1;
    }
    return false;
  }

  /** The (start time, start, end) triple of an ongoing session. */
  datatype Window = Window(day: WeekDay, start: int, end: int)

  /** The window of the first start time in `wds` whose session holds `now`. */
  function FirstSession(c: Course, wds: seq<WeekDay>, now: int): (w: Option<Window>)
    ensures w.Some? ==> w.value.day in wds && InSession(c, w.value.day, now)
    ensures w.Some? ==> w.value.start == ThisWeeksDate(w.value.day, now)
    ensures w.Some? ==> w.value.end == w.value.start + c.duration * MINUTE
    ensures w.Some? ==> w.value.start <= now < w.value.end
    ensures w.Some? ==> exists i :: 0 <= i < |wds| && wds[i] == w.value.day
                                    && forall j :: 0 <= j < i ==> !InSession(c, wds[j], now)
    ensures w.None? <==> forall i :: 0 <= i < |wds| ==> !InSession(c, wds[i], now)
  {
    if wds == [] then None
    else if InSession(c, wds[0], now) then
      var s := ThisWeeksDate(wds[0], now);
      Some(Window(wds[0], s, s + c.duration * MINUTE))
    else
      var w := FirstSession(c, wds[1..], now);
      assert forall i :: 1 <= i < |wds| ==> wds[i] == wds[1..][i - 1];
      if w.Some? then
        var i :| 0 <= i < |wds[1..]| && wds[1..][i] == w.value.day
                 && forall j :: 0 <= j < i ==> !InSession(c, wds[1..][j], now);
        assert wds[i + 1] == w.value.day;
        assert forall j :: 0 <= j < i + 1 ==> !InSession(c, wds[j], now);
        w
      else w
  }

  /**
   * The triple that the attendance bookkeeping unpacks from `is_ongoing`:
   * the first session of the course that holds `now`, if any.
   */
  function OngoingWindow(c: Course, now: int): (w: Option<Window>)
    ensures w.Some? ==> w.value.day in c.startTimes && w.value.start <= now < w.value.end
    ensures w.Some? ==> w.value.start == ThisWeeksDate(w.value.day, now)
    ensures w.Some? ==> w.value.end == w.value.start + c.duration * MINUTE
    ensures w.Some? ==> exists i :: 0 <= i < |c.startTimes| && c.startTimes[i] == w.value.day
                                    && InSession(c, c.startTimes[i], now)
                                    && forall j :: 0 <= j < i ==> !InSession(c, c.startTimes[j], now)
    ensures w.Some? || !c.ongoing ==> (w.Some? <==> Ongoing(c, now))
  {
    FirstSession(c, c.startTimes, now)
  }

  // ---------------------------------------------------------------------
  // Course.get_next_date

  /** The end of this week's session of `wd`. */
  function EndOf(c: Course, wd: WeekDay, now: int): int {
    ThisWeeksDate(wd, now) + c.duration * MINUTE
  }

  /** This week's session of `wd` has not ended yet at `now`. */
  predicate EndsAfter(c: Course, wd: WeekDay, now: int) {
    EndOf(c, wd, now) > now
  }

  /** The least element of a non-empty sequence (Python's `min`). */
  function Min(s: seq<int>): (m: int)
    requires |s| > 0
    ensures m in s
    ensures forall x :: x in s ==> m <= x
  {
    if |s| == 1 then s[0]
    else
      var m := Min(s[1..]);
      assert forall x :: x in s ==> x == s[0] || x in s[1..];
      if s[0] <= m then s[0] else m
  }

  /**
   * The earliest start, this week, among the sessions that have not ended,
   * or None if every session of this week has ended (no roll-over to next week).
   */
  method GetNextDate(c: Course, now: int) returns (r: Option<int>)
    ensures r.None? <==> forall k :: 0 <= k < |c.startTimes| ==> !EndsAfter(c, c.startTimes[k], now)
    ensures r.Some? ==> exists k :: 0 <= k < |c.startTimes| && EndsAfter(c, c.startTimes[k], now)
                                    && r.value == ThisWeeksDate(c.startTimes[k], now)
    ensures r.Some? ==> forall k :: 0 <= k < |c.startTimes| && EndsAfter(c, c.startTimes[k], now)
                                    ==> r.value <= ThisWeeksDate(c.startTimes[k], now)
  {
    var nextDates: seq<int> := [];
    ghost var from: seq<int> := [];  // the start time each end date came from
    var i := 0;
    while i < |c.startTimes|
      invariant 0 <= i <= |c.startTimes|
      invariant |from| == |nextDates|
      invariant forall j :: 0 <= j < |from| ==>
        0 <= from[j] < i && EndsAfter(c, c.startTimes[from[j]], now) && nextDates[j] == EndOf(c, c.startTimes[from[j]], now)
      invariant forall k :: 0 <= k < i && EndsAfter(c, c.startTimes[k], now) ==> EndOf(c, c.startTimes[k], now) in nextDates
    {
      var weekday := c.startTimes[i];
      var weekdayEndtime := ThisWeeksDate(weekday, now) + c.duration * MINUTE;
      if weekdayEndtime > now {
        nextDates := nextDates + [weekdayEndtime];
        from := from + [i];
      }
      i := i + 1;
    }
    if nextDates != [] {
      var m := Min(nextDates);
      var j :| 0 <= j < |nextDates| && nextDates[j] == m;
      assert m - c.duration * MINUTE == ThisWeeksDate(c.startTimes[from[j]], now);
      return Some(m - c.duration * MINUTE);
    }
    assert forall k :: 0 <= k < |c.startTimes| ==> !EndsAfter(c, c.startTimes[k], now);
    return None;
  }

  // ---------------------------------------------------------------------
  // Course.sorted_start_times_set

  /** The start times ordered by this week's date. */
  function SortedStartTimes(c: Course, ref: int): (r: seq<WeekDay>)
    ensures multiset(r) == multiset(c.startTimes)
    ensures forall i, j :: 0 <= i < j < |r| ==> ThisWeeksDate(r[i], ref) <= ThisWeeksDate(r[j], ref)
  {
    var key := (wd: WeekDay) => Key(ThisWeeksDate(wd, ref), 0);
    var r := SortBy(c.startTimes, key);
    assert forall i, j :: 0 <= i < j < |r| ==> KeyLe(key(r[i]), key(r[j]));
    r
  }
}
