# Attendance core of attendance-monitor, in Dafny

attendance-monitor records students' attendance from the WiFi probe requests
their phones send. This project models its attendance core and proves
properties of the model:

- **Weekly schedule arithmetic** (`control/models/courses.py`):
  - placing a (weekday, time) start time in the week of a reference instant;
  - whether a course is running now (half-open `[start, start + duration)` windows);
  - the next start this week;
  - start times ordered by date;
  - access-token validity and expiry.
- **Probe consumption** (`control/views/probes.py`):
  - the per-device state machine INITIAL → POTENTIAL_ARRIVAL → ARRIVAL →
    POTENTIAL_DEPARTURE → DEPARTURE;
  - `consume_probe`'s dispatch, including which raised error leads to which
    alternate transition;
  - the `check_for_departure` sweep;
  - `add_arrival` with its dedup guard;
  - `add_departure`, which closes the matching open attendance dates in place;
  - the burst-interval estimator (gaps above one second, and their initial or
    incremental mean);
  - the session-range helpers `get_course_end_date`, `get_missing_dates` and
    `get_start_date`, and the minute bucketing of probe times.
- **Registration decision and course listings** (`control/views/students.py`)
  and the per-user course-state map (`control/utils.py`).

Time is one integer timeline of microseconds (the resolution of Python's
`datetime`). Instant 0 is a Monday at 00:00, so `WeekdayOf(t) == (t / DAY) % 7`.
"Now" is always an explicit parameter.

The WifiInfo transitions are a class whose methods require their source state.
A guarded transition takes the verdict of its guard as a parameter. It then
either moves to its target state or returns the error the source raises.

The attendance dates live in a store object whose `dates` sequence the
bookkeeping methods update in place. Each method is proved equal to a
specification function of the old dates. The properties (dedup,
idempotence, nothing else changes, the attended rule) are lemmas about those
functions.

The attended rule is modelled as `add_departure` writes it: `time < end and
time < start + min_attend_time`. `Attendance.EarlyLeaverAttended` states what
this means: a student who leaves before `start + min_attend_time` is marked
attended, and one who stays longer keeps the flag as it was.

Modules:
- `Wrappers`, `Sorting`: `Option`, and a stable insertion sort by a key pair.
- `Courses`, `Users`: the schedule model.
- `OngoingStates`: control/utils.py.
- `Registration`: control/views/students.py.
- `Ranges`, `Bursts`, `Presence`, `Attendance`: control/views/probes.py.

## Model

| member | source | states |
|---|---|---|
| Courses.ThisWeeksDatePlacement | attendancecontrol/control/models/courses.py:33-40 | this week's date lies in the reference instant's Monday-based week, on the start time's weekday, at its time of day with the sub-second part dropped |
| Courses.ThisWeeksDateNextWeek | attendancecontrol/control/models/courses.py:33-40 | moving the reference instant one week later moves the date exactly one week |
| Courses.IsTokenValid | attendancecontrol/control/models/courses.py:65-68 | valid iff the given token equals the stored one |
| Courses.IsTokenExpired | attendancecontrol/control/models/courses.py:70-74 | expired iff now is at or after creation plus valid_time minutes |
| Courses.ExpiryIsFinal | attendancecontrol/control/models/courses.py:70-74 | once expired, a token stays expired at every later instant |
| Courses.IsOngoing | attendancecontrol/control/models/courses.py:115-123 | true whenever the ongoing flag is set; otherwise true iff now lies in some start time's half-open window `[s, s + duration)`; false for a course with no start times and the flag clear |
| Courses.OngoingWindow | attendancecontrol/control/views/probes.py:97-99 | the (weekday, start, end) triple of the first start time, in the course's order, whose session holds now: every earlier start time's session does not hold; start is that weekday's date in the week of now, start <= now < end and end = start + duration; with the flag clear it exists iff the course is ongoing |
| Courses.GetNextDate | attendancecontrol/control/models/courses.py:125-136 | None iff no session of this week ends after now; otherwise the least start among the sessions that end after now |
| Courses.SortedStartTimes | attendancecontrol/control/models/courses.py:138-140 | a permutation of the start times, ascending by this week's date |
| Registration.AuthenticateStudentCourse | attendancecontrol/control/views/students.py:82-104 | the decision table: already registered gives (False, INFO, already registered, True); a missing or expired token gives (False, WARNING, not open, False); a wrong token gives (False, WARNING, invalid token, False); authenticated iff not registered and the token exists, is unexpired and matches, and then (True, SUCCESS, registered, True); redirect is False exactly for WARNING |
| Registration.StudentCoursesList | attendancecontrol/control/views/students.py:66-70 | a permutation of the student's courses, ongoing courses before the others, ascending id within each group |
| Registration.GetCoursesStates | attendancecontrol/control/views/students.py:146-150 | keys are exactly the student's course ids, each mapped to whether that course is ongoing |
| OngoingStates.RecordOngoingStates | attendancecontrol/control/utils.py:7-8 | adds every course id with its ongoing flag and keeps every other key's value |
| OngoingStates.GetUsersCoursesOngoingStates | attendancecontrol/control/utils.py:4-14 | empty for a user who is neither student nor teacher; a student's course ids; the union of a teacher's course and additional-course ids; every value is the course's ongoing flag |
| OngoingStates.KeyedSplit | attendancecontrol/control/utils.py:9-13 | an id that is both a teacher's course and an additional course names the same course, so the second loop writes the same value |
| Ranges.GetCourseEndDate | attendancecontrol/control/views/probes.py:215-221 | the end is start + duration, clamped down to the query date when that comes earlier and up to start: exactly start + duration when there is no query date or it is not before that; exactly the query date when it lies in `[start, start + duration)`; exactly start when the duration is negative or the query date is before start |
| Ranges.GetMissingDates | attendancecontrol/control/views/probes.py:224-237 | the ranges, week by week from last_update while before the query date, of every course's start times in order, keeping only non-empty ranges |
| Ranges.AddWeekRanges | attendancecontrol/control/views/probes.py:227-234 | appends the ranges of all courses for one week, in order |
| Ranges.AddSessionRanges | attendancecontrol/control/views/probes.py:228-234 | appends the non-empty range of each start time of one course for one week |
| Ranges.MissingDatesScheduled | attendancecontrol/control/views/probes.py:224-237 | every range added has start < end <= query date, begins on a start time's weekday and time of day, and lasts at most its course's duration |
| Ranges.GetStartDate | attendancecontrol/control/views/probes.py:285-289 | None iff no range holds t (start <= t < end); otherwise the start of the first range that holds t |
| Ranges.MinuteOf | attendancecontrol/control/views/probes.py:313-315 | the floored whole minutes from the start of the first range that holds the probe (every earlier range does not), which lie within that range's length; None when no range holds the probe |
| Ranges.ProbeMinutes | attendancecontrol/control/views/probes.py:311-315 | one minute per probe, in order, each that probe's MinuteOf; None iff some probe lies in no range |
| Bursts.GetProbesBurstDeltas | attendancecontrol/control/views/probes.py:164-176 | exactly the consecutive gaps above one second, in order; at most n - 1 of them |
| Bursts.BurstDeltasMembers | attendancecontrol/control/views/probes.py:164-176 | a value is a delta iff it is a consecutive gap above one second |
| Bursts.BurstCollapse | attendancecontrol/control/views/probes.py:171-175 | a probe stream with no gap above one second yields no delta |
| Bursts.UpdateBurstInterval | attendancecontrol/control/views/probes.py:179-212 | code 0 with interval and count unchanged when there is no delta; code 1 with the mean of the deltas and their number when the stored count is 0; otherwise code 2, count c + len and interval × count = old interval × c + the sum of the deltas |
| Bursts.IncrementalMean | attendancecontrol/control/views/probes.py:202-211 | the incremental loop keeps mean × count equal to the running total |
| Bursts.IncrementalIsMean | attendancecontrol/control/views/probes.py:202-211 | when the stored interval is the mean of earlier deltas, the incremental result is the mean of the earlier and the new deltas together |
| Presence.WifiInfo.InitialProbeDetected | attendancecontrol/control/views/probes.py:61-62 | INITIAL moves to POTENTIAL_ARRIVAL, nothing else changes |
| Presence.WifiInfo.ArrivalThreshold | attendancecontrol/control/views/probes.py:63-67 | POTENTIAL_ARRIVAL moves to ARRIVAL inside the window; otherwise it raises ArrivalThresholdExceeded and stays |
| Presence.WifiInfo.WithdrawalThreshold | attendancecontrol/control/views/probes.py:67-68 | POTENTIAL_ARRIVAL returns to INITIAL |
| Presence.WifiInfo.WithoutProbesRecently | attendancecontrol/control/views/probes.py:69-73 | ARRIVAL moves to POTENTIAL_DEPARTURE once the withdrawal threshold is reached; otherwise it raises WithdrawalThresholdNotReached and stays |
| Presence.WifiInfo.DepartureThreshold | attendancecontrol/control/views/probes.py:74-77 | POTENTIAL_DEPARTURE moves to DEPARTURE once the departure threshold is reached; otherwise it raises DepartureThresholdNotReached and stays |
| Presence.WifiInfo.ProbeDetected | attendancecontrol/control/views/probes.py:77-78 | POTENTIAL_DEPARTURE returns to ARRIVAL |
| Presence.WifiInfo.ToInitial | attendancecontrol/control/views/probes.py:80-82 | DEPARTURE returns to INITIAL |
| Presence.Step | attendancecontrol/control/views/probes.py:60-82 | after a probe the state is never DEPARTURE; an arrival is recorded iff the state was POTENTIAL_ARRIVAL and the arrival guard held, and a missed window returns to INITIAL; a departure is recorded iff the state was DEPARTURE, or POTENTIAL_DEPARTURE with the threshold reached, and is followed by INITIAL; a departure threshold not reached returns to ARRIVAL |
| Presence.ApplyPresence | attendancecontrol/control/views/probes.py:45-86 | no probe or sweep records both an arrival and a departure; an arrival is recorded only for an absent device, which it makes present, and a departure only for a present one, which it makes absent |
| Presence.EventsAlternate | attendancecontrol/control/views/probes.py:45-86 | over any run of probes and sweeps, arrivals and departures alternate, beginning with a departure exactly when the device starts present |
| Presence.NeverLeftDeparted | attendancecontrol/control/views/probes.py:80-82 | from any state other than DEPARTURE, no run of probes and sweeps ends in DEPARTURE |
| Presence.CloseSightingsArrive | attendancecontrol/control/views/probes.py:61-66 | two probes from INITIAL, the second inside the arrival window, record exactly one arrival and end in ARRIVAL |
| Presence.DistantSightingsReset | attendancecontrol/control/views/probes.py:61-68 | two probes from INITIAL, the second outside the window, record nothing and end in INITIAL |
| Presence.SweepIdempotent | attendancecontrol/control/views/probes.py:45-51 | a second sweep with the same verdicts changes nothing, and the sweep never moves a device into DEPARTURE |
| Presence.CheckForDeparture | attendancecontrol/control/views/probes.py:45-51 | every device in ARRIVAL with a linked student moves to POTENTIAL_DEPARTURE exactly when its threshold is reached; every other device keeps its state; every device keeps its MAC and its student |
| Attendance.AddArrival | attendancecontrol/control/views/probes.py:89-104 | the new dates are add_arrival's specification applied to the old ones; nothing changes for a device with no student |
| Attendance.ArrivalsAppendOnly | attendancecontrol/control/views/probes.py:96-104 | the earlier dates are kept as they were; each new date is an open, not-attended arrival at the probe time for an ongoing course of the student, on that session's weekday; there are no more new dates than courses |
| Attendance.ArrivalsOnlyUncovered | attendancecontrol/control/views/probes.py:96-104 | each new date belongs to an ongoing course that had no date of the student arrived in `[start, time]` before the call |
| Attendance.ArrivalsOnePerCourse | attendancecontrol/control/views/probes.py:96-104 | when the student's courses have distinct ids, one add_arrival opens at most one date per course: no two new dates share a course id |
| Attendance.HasArrivalKept | attendancecontrol/control/views/probes.py:103 | appending dates keeps an arrival that the guard already finds |
| Attendance.ArrivalsCover | attendancecontrol/control/views/probes.py:96-104 | afterwards every ongoing course whose session started by the probe time has an arrival in `[start, time]` |
| Attendance.ArrivalsNoOp | attendancecontrol/control/views/probes.py:103-104 | when every ongoing course already has an arrival in `[start, time]`, nothing is added |
| Attendance.ArrivalIdempotent | attendancecontrol/control/views/probes.py:103-104 | a second add_arrival at the same time adds nothing, provided each ongoing session started by that time |
| Attendance.ArrivalsGrowBeforeStart | attendancecontrol/control/views/probes.py:96-104 | a course whose ongoing session starts after the probe time always gets a new date of the student, because the guard's range `[start, time]` is empty |
| Attendance.ArrivalRepeatDuplicates | attendancecontrol/control/views/probes.py:96-104 | when an ongoing session starts after the probe time, add_arrival grows the dates and a repeat at the same time grows them again |
| Attendance.Close | attendancecontrol/control/views/probes.py:128-130 | departure becomes the time; attended becomes true when time < end and time < start + min_attend_time, and otherwise keeps its value; nothing else changes |
| Attendance.AddDeparture | attendancecontrol/control/views/probes.py:107-131 | the new dates are add_departure's specification applied to the old ones; nothing changes for a device with no student |
| Attendance.CloseMatching | attendancecontrol/control/views/probes.py:118-131 | one course's pass closes every matching date in place and leaves the others as they were |
| Attendance.DeparturesPointwise | attendancecontrol/control/views/probes.py:115-131 | add_departure keeps the number of dates and changes each date on its own |
| Attendance.CloseAcrossEffect | attendancecontrol/control/views/probes.py:122-131 | a date that matches no course (open, same student and course, arrival in `[start, end]`, same weekday) is unchanged; otherwise the first matching course closes it |
| Attendance.ClosedStays | attendancecontrol/control/views/probes.py:122-126 | a date that already has a departure is never touched |
| Attendance.CloseAcrossOpen | attendancecontrol/control/views/probes.py:122-126 | a date still open afterwards was matched by no course |
| Attendance.CloseAcrossIdempotent | attendancecontrol/control/views/probes.py:122-131 | closing one date a second time with the same time changes nothing |
| Attendance.DepartureIdempotent | attendancecontrol/control/views/probes.py:122-131 | a second add_departure with the same time changes nothing |
| Attendance.EarlyLeaverAttended | attendancecontrol/control/views/probes.py:129-130 | before the session end, leaving before start + min_attend_time marks the date attended; leaving later leaves the flag as it was |
| Attendance.AttendedRuleInverted | attendancecontrol/control/views/probes.py:129-130 | for every departure within the session, the rule as written holds exactly when the student was not present for min_attend_time from the start, the opposite of the field's meaning in attendancecontrol/control/models/courses.py:83 |
| Attendance.ConsumeProbe | attendancecontrol/control/views/probes.py:54-86 | the device ends in the dispatch's next state with its student unchanged; the dates change by add_arrival exactly when an arrival is recorded, by add_departure exactly when a departure is recorded, and not otherwise |

## Left out

- Time zones: `timezone.localtime`, `make_aware` and UTC conversion are not modelled. All instants lie on one timeline.
- The clock: `get_this_weeks_date` reads the clock in the source. Here it takes the reference instant as a parameter, and `is_ongoing` and `get_next_date` pass "now".
- `is_ongoing` returns only a bool, yet add_arrival and add_departure unpack a (weekday, start, end) triple from it. The bookkeeping therefore takes that triple as a parameter `ongoing`. `Courses.OngoingWindow` is one function that fits it.
- Bursts.GetProbesBurstDeltas: gaps are in microseconds, not seconds. "Above one second" is the same test; the mean scales by 10^6.
- Bursts.UpdateBurstInterval: the averages are exact reals, not IEEE floating point.
- `AccessToken.save`: it draws a random token and reads the clock.
- The internals of the WifiInfo transitions, and the thresholds behind them, are not in the modelled files. Each guard's verdict is a parameter.
- `DatetimeRangeList.add` is not in the modelled files. It is modelled as an append to a sequence.
- `incoming_probe_view`: request validation and responses are left out, as is the check that a WifiInfo exists for the MAC.
- consume_probe's `get_or_create` of a WifiInfo for a probe without one is left out; the device is given.
- The `CourseStudentAttendance` row that add_arrival and add_departure get or create is left out. Each attendance date carries its student and course id directly.
- Persistence (`save`) is not modelled. The database is the in-memory store.
- `update_student_burst_info` is left out: it reads the clock once a day and glues get_missing_dates to update_burst_interval.
- In `get_students_probe_records`, the range building is left out, as is the plot and the date labels. Only the minute bucketing is modelled.
- `get_student_course_probes_graph` and `get_students_attendance_currently_ongoing` are left out; they are JSON and plot views.
- Ranges.ProbeMinutes: where the source would fail on a probe that lies in no range, the model returns None.
- Courses.SortedStartTimes: the order of start times with the same date is not stated. The sort used is stable, like Python's.
- Registration.StudentCoursesList: the order of courses with equal keys is not stated.
- OngoingStates.GetUsersCoursesOngoingStates requires that a course id names one course, as a primary key does.
- Attendance.ArrivalIdempotent: holds only when every ongoing session started by the probe time. The source's guard searches `[start, time]`, which is empty for an earlier probe, so each repeat opens one more date; `Attendance.ArrivalRepeatDuplicates` proves this. The ongoing window comes from the clock while the time comes from the probe, so such inputs can occur.
- Attendance.EarlyLeaverAttended: the attended rule is kept as the source writes it (`time < end and time < start + min_attend_time`). The field's label (courses.py:83) calls min_attend_time the "minimum time present to count as attended". That rule is modelled as `Attendance.PresentLongEnough`, counted from the session start. `Attendance.AttendedRuleInverted` proves that, for every departure within the session, the written rule is its exact negation. The departure bookkeeping keeps the written rule, because that is what the source stores.
- Attendance.NewArrival: the defaults of a new attendance date (no departure, not attended) come from the AttendanceDate model, which is not part of this model. They are assumed to be a null departure and `attended = False`.
- Per-device locking is not modelled. The operations run one at a time.
