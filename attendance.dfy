/**
 * The attendance bookkeeping of the probe views (control/views/probes.py):
 * add_arrival opens an attendance record for every ongoing course of the
 * device's student unless one already arrived in the session, add_departure
 * closes the matching open records in place, and consume_probe dispatches a
 * probe through the device's state machine into these two.
 *
 * `ongoing` stands for the (weekday, start, end) triple that the bookkeeping
 * unpacks for each course: None when the course is not running.
 */
module Attendance {
  import opened Wrappers
  import opened Courses
  import opened Users
  import opened Presence

  /** One attendance date of a student in a course (through its CourseStudentAttendance). */
  datatype AttendanceDate = AttendanceDate(
    studentId: nat,
    courseId: nat,
    weekdayId: nat,
    arrival: int,
    departure: Option<int>,
    attended: bool)

  /** The attendance dates of all students, updated in place. */
  class AttendanceStore {
    var dates: seq<AttendanceDate>

    constructor ()
      ensures dates == []
    {
      dates := [];
    }
  }

  // ---------------------------------------------------------------------
  // add_arrival

  /** Some date of this student and course already arrived in `[from, to]` (a closed range). */
  predicate HasArrivalBetween(dates: seq<AttendanceDate>, sid: nat, cid: nat, from: int, to: int) {
    exists j :: 0 <= j < |dates| && dates[j].studentId == sid && dates[j].courseId == cid
                && from <= dates[j].arrival <= to
  }

  /** add_arrival for one course: a new open date unless one already arrived since the session start. */
  function ArrivalStep(dates: seq<AttendanceDate>, sid: nat, c: Course, time: int,
                       ongoing: Course -> Option<Window>): seq<AttendanceDate>
  {
    match ongoing(c)
    case None => dates
    case Some(w) =>
      if HasArrivalBetween(dates, sid, c.id, w.start, time) then dates
      else dates + [AttendanceDate(sid, c.id, w.day.id, time, None, false)]
  }

  /** add_arrival over the courses in order, each seeing the dates the earlier ones added. */
  function ArrivalsAdded(dates: seq<AttendanceDate>, sid: nat, courses: seq<Course>, time: int,
                         ongoing: Course -> Option<Window>): seq<AttendanceDate>
    decreases courses
  {
    if courses == [] then dates
    else ArrivalsAdded(ArrivalStep(dates, sid, courses[0], time, ongoing), sid, courses[1..], time, ongoing)
  }

  /** add_arrival for a device: nothing when it has no linked student. */
  function ArrivalsFor(dates: seq<AttendanceDate>, student: Option<Student>, time: int,
                       ongoing: Course -> Option<Window>): seq<AttendanceDate>
  {
    match student
    case None => dates
    case Some(st) => ArrivalsAdded(dates, st.id, st.courses, time, ongoing)
  }

  method AddArrival(store: AttendanceStore, student: Option<Student>, time: int,
                    ongoing: Course -> Option<Window>)
    modifies store
    ensures store.dates == ArrivalsFor(old(store.dates), student, time, ongoing)
  {
    if student.None? {
      return;
    }
    var st := student.value;
    for i := 0 to |st.courses|
      invariant ArrivalsAdded(store.dates, st.id, st.courses[i..], time, ongoing)
                == ArrivalsAdded(old(store.dates), st.id, st.courses, time, ongoing)
    {
      var course := st.courses[i];
      assert st.courses[i..][1..] == st.courses[i + 1..];
      match ongoing(course)
      case None =>
      case Some(w) =>
        if !HasArrivalBetween(store.dates, st.id, course.id, w.start, time) {
          store.dates := store.dates + [AttendanceDate(st.id, course.id, w.day.id, time, None, false)];
        }
    }
  }

  /** A date that add_arrival may create: open, at `time`, for an ongoing course of the student. */
  predicate NewArrival(d: AttendanceDate, sid: nat, courses: seq<Course>, time: int,
                       ongoing: Course -> Option<Window>)
  {
    && d.studentId == sid && d.arrival == time && d.departure.None? && !d.attended
    && exists c :: c in courses && ongoing(c).Some? && d.courseId == c.id && d.weekdayId == ongoing(c).value.day.id
  }

  /**
   * add_arrival only appends: the earlier dates are kept as they were, and
   * each new date is an open arrival at `time` for an ongoing course, with no
   * more new dates than courses.
   */
  lemma {:induction false} ArrivalsAppendOnly(dates: seq<AttendanceDate>, sid: nat, courses: seq<Course>,
                                              time: int, ongoing: Course -> Option<Window>)
    ensures var r := ArrivalsAdded(dates, sid, courses, time, ongoing);
      && |dates| <= |r| <= |dates| + |courses|
      && r[..|dates|] == dates
      && forall j :: |dates| <= j < |r| ==> NewArrival(r[j], sid, courses, time, ongoing)
    decreases courses
  {
    if courses != [] {
      var next := ArrivalStep(dates, sid, courses[0], time, ongoing);
      ArrivalsAppendOnly(next, sid, courses[1..], time, ongoing);
      var r := ArrivalsAdded(next, sid, courses[1..], time, ongoing);
      assert r[..|dates|] == r[..|next|][..|dates|];
      forall j | |next| <= j < |r|
        ensures NewArrival(r[j], sid, courses, time, ongoing)
      {
        var c :| c in courses[1..] && ongoing(c).Some? && r[j].courseId == c.id
                 && r[j].weekdayId == ongoing(c).value.day.id;
        assert c in courses;
      }
      if |dates| < |next| {
        assert r[|dates|] == next[|dates|];
        assert courses[0] in courses;
      }
    }
  }

  /**
   * The guard of add_arrival, course by course: a new date is only opened for
   * an ongoing course that had no date arrived in `[start, time]` before the
   * call.
   */
  lemma {:induction false} ArrivalsOnlyUncovered(dates: seq<AttendanceDate>, sid: nat, courses: seq<Course>,
                                                 time: int, ongoing: Course -> Option<Window>)
    ensures var r := ArrivalsAdded(dates, sid, courses, time, ongoing);
      forall j :: |dates| <= j < |r| ==>
        exists c :: c in courses && ongoing(c).Some? && r[j].courseId == c.id
                    && !HasArrivalBetween(dates, sid, c.id, ongoing(c).value.start, time)
    decreases courses
  {
    if courses != [] {
      var c0 := courses[0];
      var next := ArrivalStep(dates, sid, c0, time, ongoing);
      ArrivalsOnlyUncovered(next, sid, courses[1..], time, ongoing);
      ArrivalsAppendOnly(next, sid, courses[1..], time, ongoing);
      var r := ArrivalsAdded(next, sid, courses[1..], time, ongoing);
      assert next == dates + next[|dates|..];
      forall j | |dates| <= j < |r|
        ensures exists c :: c in courses && ongoing(c).Some? && r[j].courseId == c.id
                            && !HasArrivalBetween(dates, sid, c.id, ongoing(c).value.start, time)
      {
        if j < |next| {
          assert r[j] == next[j] && r[j].courseId == c0.id;
          assert c0 in courses;
        } else {
          var c :| c in courses[1..] && ongoing(c).Some? && r[j].courseId == c.id
                   && !HasArrivalBetween(next, sid, c.id, ongoing(c).value.start, time);
          if HasArrivalBetween(dates, sid, c.id, ongoing(c).value.start, time) {
            HasArrivalKept(dates, next[|dates|..], sid, c.id, ongoing(c).value.start, time);
            assert false;
          }
          assert c in courses;
        }
      }
    }
  }

  /** The arrival guard only sees more once dates are appended. */
  lemma HasArrivalKept(dates: seq<AttendanceDate>, more: seq<AttendanceDate>, sid: nat, cid: nat, from: int, to: int)
    requires HasArrivalBetween(dates, sid, cid, from, to)
    ensures HasArrivalBetween(dates + more, sid, cid, from, to)
  {
    var j :| 0 <= j < |dates| && dates[j].studentId == sid && dates[j].courseId == cid
             && from <= dates[j].arrival <= to;
    assert (dates + more)[j] == dates[j];
  }

  /**
   * After add_arrival, every ongoing course whose session started by `time`
   * has a date of the student that arrived in `[start, time]`.
   */
  lemma {:induction false} ArrivalsCover(dates: seq<AttendanceDate>, sid: nat, courses: seq<Course>,
                                         time: int, ongoing: Course -> Option<Window>)
    ensures var r := ArrivalsAdded(dates, sid, courses, time, ongoing);
      forall c :: c in courses && ongoing(c).Some? && ongoing(c).value.start <= time ==>
        HasArrivalBetween(r, sid, c.id, ongoing(c).value.start, time)
    decreases courses
  {
    if courses != [] {
      var c0 := courses[0];
      var next := ArrivalStep(dates, sid, c0, time, ongoing);
      ArrivalsCover(next, sid, courses[1..], time, ongoing);
      ArrivalsAppendOnly(next, sid, courses[1..], time, ongoing);
      var r := ArrivalsAdded(next, sid, courses[1..], time, ongoing);
      if ongoing(c0).Some? && ongoing(c0).value.start <= time {
        var w := ongoing(c0).value;
        if !HasArrivalBetween(dates, sid, c0.id, w.start, time) {
          assert next[|dates|].arrival == time;
          assert HasArrivalBetween(next, sid, c0.id, w.start, time);
        }
        assert r == next + r[|next|..];
        HasArrivalKept(next, r[|next|..], sid, c0.id, w.start, time);
      }
    }
  }

  /** add_arrival adds nothing when every ongoing course already has an arrival in its range. */
  lemma {:induction false} ArrivalsNoOp(dates: seq<AttendanceDate>, sid: nat, courses: seq<Course>,
                                        time: int, ongoing: Course -> Option<Window>)
    requires forall c :: c in courses && ongoing(c).Some? ==>
               HasArrivalBetween(dates, sid, c.id, ongoing(c).value.start, time)
    ensures ArrivalsAdded(dates, sid, courses, time, ongoing) == dates
    decreases courses
  {
    if courses != [] {
      assert courses[0] in courses;
      ArrivalsNoOp(dates, sid, courses[1..], time, ongoing);
    }
  }

  /**
   * A repeated arrival at the same time creates no second record, as long as
   * each ongoing session started by that time.
   */
  lemma ArrivalIdempotent(dates: seq<AttendanceDate>, student: Option<Student>, time: int,
                          ongoing: Course -> Option<Window>)
    requires student.Some? ==> forall c :: c in student.value.courses && ongoing(c).Some? ==> ongoing(c).value.start <= time
    ensures ArrivalsFor(ArrivalsFor(dates, student, time, ongoing), student, time, ongoing)
            == ArrivalsFor(dates, student, time, ongoing)
  {
    if student.Some? {
      var st := student.value;
      ArrivalsCover(dates, st.id, st.courses, time, ongoing);
      ArrivalsNoOp(ArrivalsAdded(dates, st.id, st.courses, time, ongoing), st.id, st.courses, time, ongoing);
    }
  }

  /**
   * A course whose ongoing session starts after `time` leaves the guard's
   * range `[start, time]` empty, so add_arrival always opens a date for it.
   */
  lemma {:induction false} ArrivalsGrowBeforeStart(dates: seq<AttendanceDate>, sid: nat, courses: seq<Course>,
                                                   time: int, ongoing: Course -> Option<Window>, c: Course)
    requires c in courses && ongoing(c).Some? && time < ongoing(c).value.start
    ensures var r := ArrivalsAdded(dates, sid, courses, time, ongoing);
      exists j :: |dates| <= j < |r| && r[j].studentId == sid && r[j].courseId == c.id
    decreases courses
  {
    var next := ArrivalStep(dates, sid, courses[0], time, ongoing);
    ArrivalsAppendOnly(next, sid, courses[1..], time, ongoing);
    var r := ArrivalsAdded(next, sid, courses[1..], time, ongoing);
    assert r == ArrivalsAdded(dates, sid, courses, time, ongoing);
    if courses[0] == c {
      assert |next| == |dates| + 1;
      assert r[|dates|] == r[..|next|][|dates|] == next[|dates|];
      assert r[|dates|].studentId == sid && r[|dates|].courseId == c.id;
    } else {
      ArrivalsGrowBeforeStart(next, sid, courses[1..], time, ongoing, c);
    }
  }

  /** Each course of the student has its own id, as a primary key gives. */
  predicate DistinctIds(courses: seq<Course>) {
    forall i, j :: 0 <= i < j < |courses| ==> courses[i].id != courses[j].id
  }

  /** The position in `courses` of the course a new date belongs to. */
  lemma NewDateCourse(dates: seq<AttendanceDate>, sid: nat, courses: seq<Course>, time: int,
                      ongoing: Course -> Option<Window>, j: int) returns (k: nat)
    requires |dates| <= j < |ArrivalsAdded(dates, sid, courses, time, ongoing)|
    ensures k < |courses| && ArrivalsAdded(dates, sid, courses, time, ongoing)[j].courseId == courses[k].id
  {
    ArrivalsAppendOnly(dates, sid, courses, time, ongoing);
    var r := ArrivalsAdded(dates, sid, courses, time, ongoing);
    assert NewArrival(r[j], sid, courses, time, ongoing);
    var c :| c in courses && r[j].courseId == c.id;
    k :| 0 <= k < |courses| && courses[k] == c;
  }

  /** One add_arrival opens at most one date per course. */
  lemma {:induction false} ArrivalsOnePerCourse(dates: seq<AttendanceDate>, sid: nat, courses: seq<Course>,
                                                time: int, ongoing: Course -> Option<Window>)
    requires DistinctIds(courses)
    ensures var r := ArrivalsAdded(dates, sid, courses, time, ongoing);
      forall i, j :: |dates| <= i < j < |r| ==> r[i].courseId != r[j].courseId
    decreases courses
  {
    if courses != [] {
      var c0 := courses[0];
      var rest := courses[1..];
      var next := ArrivalStep(dates, sid, c0, time, ongoing);
      assert forall k :: 0 <= k < |rest| ==> rest[k] == courses[k + 1];
      ArrivalsOnePerCourse(next, sid, rest, time, ongoing);
      ArrivalsAppendOnly(next, sid, rest, time, ongoing);
      var r := ArrivalsAdded(next, sid, rest, time, ongoing);
      if |dates| < |next| {
        assert r[|dates|] == r[..|next|][|dates|] == next[|dates|];
        forall j | |next| <= j < |r| ensures r[|dates|].courseId != r[j].courseId {
          var k := NewDateCourse(next, sid, rest, time, ongoing, j);
          assert courses[0].id != courses[k + 1].id;
        }
      }
    }
  }

  /**
   * Without the proviso of ArrivalIdempotent the repeat is not harmless: a
   * probe seen before the start of an ongoing session opens one more date on
   * every repetition.
   */
  lemma ArrivalRepeatDuplicates(dates: seq<AttendanceDate>, student: Option<Student>, time: int,
                                ongoing: Course -> Option<Window>, c: Course)
    requires student.Some? && c in student.value.courses && ongoing(c).Some? && time < ongoing(c).value.start
    ensures var once := ArrivalsFor(dates, student, time, ongoing);
      |ArrivalsFor(once, student, time, ongoing)| > |once| > |dates|
  {
    var st := student.value;
    ArrivalsGrowBeforeStart(dates, st.id, st.courses, time, ongoing, c);
    ArrivalsGrowBeforeStart(ArrivalsFor(dates, student, time, ongoing), st.id, st.courses, time, ongoing, c);
  }

  // ---------------------------------------------------------------------
  // add_departure

  /** The filter of add_departure: an open date of this student and course, arrived in the session, on its weekday. */
  predicate Matches(d: AttendanceDate, sid: nat, c: Course, w: Window) {
    && d.studentId == sid && d.courseId == c.id
    && w.start <= d.arrival <= w.end
    && d.departure.None?
    && d.weekdayId == w.day.id
  }

  /** The attended rule as add_departure writes it: left before the end and before start + min_attend_time. */
  predicate AttendedRule(c: Course, w: Window, time: int) {
    time < w.end && time < w.start + c.minAttendTime * MINUTE
  }

  /** A matching date closed at `time`; `attended` is only ever set, never cleared. */
  function Close(d: AttendanceDate, c: Course, w: Window, time: int): (r: AttendanceDate)
    ensures r.departure == Some(time)
    ensures r.attended <==> d.attended || AttendedRule(c, w, time)
    ensures r.(departure := d.departure, attended := d.attended) == d
  {
    d.(departure := Some(time), attended := d.attended || AttendedRule(c, w, time))
  }

  /** What one course's pass of add_departure does to one date. */
  function CloseIfMatch(d: AttendanceDate, sid: nat, c: Course, time: int,
                        ongoing: Course -> Option<Window>): AttendanceDate
  {
    match ongoing(c)
    case None => d
    case Some(w) => if Matches(d, sid, c, w) then Close(d, c, w, time) else d
  }

  /** What add_departure does to one date, over the courses in order. */
  function CloseAcross(d: AttendanceDate, sid: nat, courses: seq<Course>, time: int,
                       ongoing: Course -> Option<Window>): AttendanceDate
    decreases courses
  {
    if courses == [] then d
    else CloseAcross(CloseIfMatch(d, sid, courses[0], time, ongoing), sid, courses[1..], time, ongoing)
  }

  /** One course's pass of add_departure over all dates. */
  function DepartureStep(dates: seq<AttendanceDate>, sid: nat, c: Course, time: int,
                         ongoing: Course -> Option<Window>): (r: seq<AttendanceDate>)
    ensures |r| == |dates|
  {
    seq(|dates|, j requires 0 <= j < |dates| => CloseIfMatch(dates[j], sid, c, time, ongoing))
  }

  function DeparturesApplied(dates: seq<AttendanceDate>, sid: nat, courses: seq<Course>, time: int,
                             ongoing: Course -> Option<Window>): seq<AttendanceDate>
    decreases courses
  {
    if courses == [] then dates
    else DeparturesApplied(DepartureStep(dates, sid, courses[0], time, ongoing), sid, courses[1..], time, ongoing)
  }

  /** add_departure for a device: nothing when it has no linked student. */
  function DeparturesFor(dates: seq<AttendanceDate>, student: Option<Student>, time: int,
                         ongoing: Course -> Option<Window>): seq<AttendanceDate>
  {
    match student
    case None => dates
    case Some(st) => DeparturesApplied(dates, st.id, st.courses, time, ongoing)
  }

  method AddDeparture(store: AttendanceStore, student: Option<Student>, time: int,
                      ongoing: Course -> Option<Window>)
    modifies store
    ensures store.dates == DeparturesFor(old(store.dates), student, time, ongoing)
  {
    if student.None? {
      return;
    }
    var st := student.value;
    for i := 0 to |st.courses|
      invariant DeparturesApplied(store.dates, st.id, st.courses[i..], time, ongoing)
                == DeparturesApplied(old(store.dates), st.id, st.courses, time, ongoing)
    {
      var course := st.courses[i];
      assert st.courses[i..][1..] == st.courses[i + 1..];
      CloseMatching(store, st.id, course, time, ongoing);
    }
  }

  /** The inner loop of add_departure: set departure (and maybe attended) on each matching date. */
  method CloseMatching(store: AttendanceStore, sid: nat, course: Course, time: int,
                       ongoing: Course -> Option<Window>)
    modifies store
    ensures store.dates == DepartureStep(old(store.dates), sid, course, time, ongoing)
  {
    match ongoing(course)
    case None =>
      assert DepartureStep(store.dates, sid, course, time, ongoing) == store.dates;
    case Some(w) =>
      ghost var before := store.dates;
      for j := 0 to |store.dates|
        invariant |store.dates| == |before|
        invariant forall k :: 0 <= k < j ==> store.dates[k] == CloseIfMatch(before[k], sid, course, time, ongoing)
        invariant forall k :: j <= k < |before| ==> store.dates[k] == before[k]
      {
        var attendance := store.dates[j];
        if Matches(attendance, sid, course, w) {
          attendance := attendance.(departure := Some(time));
          if time < w.end && time < w.start + course.minAttendTime * 60 * SECOND {
            attendance := attendance.(attended := true);
          }
          store.dates := store.dates[j := attendance];
        }
      }
  }

  /** add_departure keeps the number of dates and treats each date on its own. */
  lemma {:induction false} DeparturesPointwise(dates: seq<AttendanceDate>, sid: nat, courses: seq<Course>,
                                               time: int, ongoing: Course -> Option<Window>)
    ensures var r := DeparturesApplied(dates, sid, courses, time, ongoing);
      |r| == |dates| && forall j :: 0 <= j < |dates| ==> r[j] == CloseAcross(dates[j], sid, courses, time, ongoing)
    decreases courses
  {
    if courses != [] {
      DeparturesPointwise(DepartureStep(dates, sid, courses[0], time, ongoing), sid, courses[1..], time, ongoing);
    }
  }

  /**
   * The effect of add_departure on one date: unchanged when no course's window
   * matches it, and otherwise closed at `time` by the first course that
   * matches, with the attended rule of that course's window.
   */
  lemma {:induction false} CloseAcrossEffect(d: AttendanceDate, sid: nat, courses: seq<Course>, time: int,
                                             ongoing: Course -> Option<Window>)
    ensures var r := CloseAcross(d, sid, courses, time, ongoing);
      && ((forall k :: 0 <= k < |courses| ==>
             ongoing(courses[k]).None? || !Matches(d, sid, courses[k], ongoing(courses[k]).value))
          ==> r == d)
      && (forall k :: 0 <= k < |courses| && ongoing(courses[k]).Some?
             && Matches(d, sid, courses[k], ongoing(courses[k]).value)
             && (forall l :: 0 <= l < k ==>
                   ongoing(courses[l]).None? || !Matches(d, sid, courses[l], ongoing(courses[l]).value))
             ==> r == Close(d, courses[k], ongoing(courses[k]).value, time))
    decreases courses
  {
    if courses != [] {
      var d1 := CloseIfMatch(d, sid, courses[0], time, ongoing);
      CloseAcrossEffect(d1, sid, courses[1..], time, ongoing);
      if d1 != d {
        ClosedStays(d1, sid, courses[1..], time, ongoing);
      }
    }
  }

  /** A closed date is matched by no course, so add_departure leaves it alone. */
  lemma {:induction false} ClosedStays(d: AttendanceDate, sid: nat, courses: seq<Course>, time: int,
                                       ongoing: Course -> Option<Window>)
    requires d.departure.Some?
    ensures CloseAcross(d, sid, courses, time, ongoing) == d
    decreases courses
  {
    if courses != [] {
      ClosedStays(d, sid, courses[1..], time, ongoing);
    }
  }

  /** add_departure with the same time a second time changes nothing. */
  lemma DepartureIdempotent(dates: seq<AttendanceDate>, student: Option<Student>, time: int,
                            ongoing: Course -> Option<Window>)
    ensures DeparturesFor(DeparturesFor(dates, student, time, ongoing), student, time, ongoing)
            == DeparturesFor(dates, student, time, ongoing)
  {
    if student.Some? {
      var st := student.value;
      var once := DeparturesApplied(dates, st.id, st.courses, time, ongoing);
      DeparturesPointwise(dates, st.id, st.courses, time, ongoing);
      DeparturesPointwise(once, st.id, st.courses, time, ongoing);
      var twice := DeparturesApplied(once, st.id, st.courses, time, ongoing);
      forall j | 0 <= j < |dates|
        ensures twice[j] == once[j]
      {
        CloseAcrossIdempotent(dates[j], st.id, st.courses, time, ongoing);
      }
    }
  }

  lemma {:induction false} CloseAcrossIdempotent(d: AttendanceDate, sid: nat, courses: seq<Course>, time: int,
                                                 ongoing: Course -> Option<Window>)
    ensures var r := CloseAcross(d, sid, courses, time, ongoing);
      CloseAcross(r, sid, courses, time, ongoing) == r
  {
    var r := CloseAcross(d, sid, courses, time, ongoing);
    CloseAcrossEffect(d, sid, courses, time, ongoing);
    if r.departure.Some? {
      ClosedStays(r, sid, courses, time, ongoing);
    } else {
      CloseAcrossOpen(d, sid, courses, time, ongoing);
      CloseAcrossEffect(r, sid, courses, time, ongoing);
    }
  }

  /** A date left open by add_departure was matched by no course. */
  lemma {:induction false} CloseAcrossOpen(d: AttendanceDate, sid: nat, courses: seq<Course>, time: int,
                                           ongoing: Course -> Option<Window>)
    requires CloseAcross(d, sid, courses, time, ongoing).departure.None?
    ensures CloseAcross(d, sid, courses, time, ongoing) == d
    ensures forall k :: 0 <= k < |courses| ==>
              ongoing(courses[k]).None? || !Matches(d, sid, courses[k], ongoing(courses[k]).value)
    decreases courses
  {
    if courses != [] {
      var d1 := CloseIfMatch(d, sid, courses[0], time, ongoing);
      if d1 != d {
        ClosedStays(d1, sid, courses[1..], time, ongoing);
        assert false;
      }
      CloseAcrossOpen(d1, sid, courses[1..], time, ongoing);
    }
  }

  /**
   * The attended rule as written marks a student who leaves before
   * start + min_attend_time as attended, and leaves the flag as it was for one
   * who stays longer.
   */
  lemma EarlyLeaverAttended(d: AttendanceDate, c: Course, w: Window, time: int)
    requires time < w.end
    ensures time < w.start + c.minAttendTime * MINUTE ==> Close(d, c, w, time).attended
    ensures time >= w.start + c.minAttendTime * MINUTE ==> Close(d, c, w, time).attended == d.attended
  {
  }

  /**
   * The rule the field describes: min_attend_time is the minimum time present
   * to count as attended, here counted from the session start.
   */
  predicate PresentLongEnough(c: Course, w: Window, time: int) {
    w.start + c.minAttendTime * MINUTE <= time
  }

  /**
   * For every departure within the session, the rule as written and the
   * field's description disagree: the written rule holds exactly when the
   * student was not present for min_attend_time.
   */
  lemma AttendedRuleInverted(c: Course, w: Window, time: int)
    requires w.start <= time < w.end
    ensures AttendedRule(c, w, time) <==> !PresentLongEnough(c, w, time)
  {
  }

  // ---------------------------------------------------------------------
  // consume_probe

  /** The attendance effect of a probe's outcome. */
  function Recorded(dates: seq<AttendanceDate>, o: Outcome, student: Option<Student>, time: int,
                    ongoing: Course -> Option<Window>): seq<AttendanceDate>
  {
    if o.arrived then ArrivalsFor(dates, student, time, ongoing)
    else if o.departed then DeparturesFor(dates, student, time, ongoing)
    else dates
  }

  /**
   * consume_probe for a device that already exists: `guards` carries the
   * verdicts of its guarded transitions for this probe.
   */
  method ConsumeProbe(store: AttendanceStore, device: WifiInfo, time: int, guards: Guards,
                      ongoing: Course -> Option<Window>)
    modifies store, device
    ensures device.state == Step(old(device.state), guards).next
    ensures device.student == old(device.student) && device.mac == old(device.mac)
    ensures store.dates == Recorded(old(store.dates), Step(old(device.state), guards), device.student, time, ongoing)
  {
    if device.state == Initial {
      device.InitialProbeDetected();
    } else if device.state == PotentialArrival {
      var err := device.ArrivalThreshold(guards.arrivalInWindow);
      if err.None? {
        AddArrival(store, device.student, time, ongoing);
      } else {
        device.WithdrawalThreshold();
      }
    } else if device.state == Arrival {
      var err := device.WithoutProbesRecently(guards.withdrawalReached);
    } else if device.state == PotentialDeparture {
      var err := device.DepartureThreshold(guards.departureReached);
      if err.Some? {
        device.ProbeDetected();
      }
    }

    if device.state == Departure {
      AddDeparture(store, device.student, time, ongoing);
      device.ToInitial();
    }
  }
}
