/** The registration decision and course listings of the student views (control/views/students.py). */
module Registration {
  import opened Sorting
  import opened Courses
  import opened Users
  import OngoingStates

  /** Django's message levels, as far as the decision uses them. */
  datatype MessageLevel = Info | Success | Warning

  /** The 4-tuple (is_authenticated, msg_type, msg, redirect_course). */
  datatype Verdict = Verdict(isAuthenticated: bool, msgType: MessageLevel, msg: string, redirectCourse: bool)

  const ALREADY_REGISTERED: string := "You are already registered to this course."
  const NOT_OPEN: string := "This course is not open for registrations!"
  const INVALID_TOKEN: string := "Invalid Access Token!"
  const REGISTERED: string := "You successfully registered for this course."

  predicate IsRegistered(student: Student, course: Course) {
    exists i :: 0 <= i < |student.courses| && student.courses[i].id == course.id
  }

  /** The ordered chain of checks deciding whether `student` may join `course` with `token`. */
  function AuthenticateStudentCourse(course: Course, student: Student, token: string, now: int): (v: Verdict)
    ensures IsRegistered(student, course) ==> v == Verdict(false, Info, ALREADY_REGISTERED, true)
    ensures !IsRegistered(student, course) && (course.accessToken.None? || IsTokenExpired(course.accessToken.value, now))
            ==> v == Verdict(false, Warning, NOT_OPEN, false)
    ensures !IsRegistered(student, course) && course.accessToken.Some? && !IsTokenExpired(course.accessToken.value, now)
            && token != course.accessToken.value.token
            ==> v == Verdict(false, Warning, INVALID_TOKEN, false)
    ensures v.isAuthenticated <==> !IsRegistered(student, course) && course.accessToken.Some?
                                   && !IsTokenExpired(course.accessToken.value, now)
                                   && token == course.accessToken.value.token
    ensures v.isAuthenticated ==> v == Verdict(true, Success, REGISTERED, true)
    ensures !v.redirectCourse <==> v.msgType == Warning
  {
    if |student.courses| > 0 && IsRegistered(student, course) then
      Verdict(false, Info, ALREADY_REGISTERED, true)
    else if course.accessToken.None? then
      Verdict(false, Warning, NOT_OPEN, false)
    else if IsTokenExpired(course.accessToken.value, now) then
      Verdict(false, Warning, NOT_OPEN, false)
    else if !IsTokenValid(course.accessToken.value, token) then
      Verdict(false, Warning, INVALID_TOKEN, false)
    else
      Verdict(true, Success, REGISTERED, true)
  }

  /** The sort key (not ongoing, id): False sorts before True. */
  function ListKey(c: Course, now: int): Key {
    Key(if Ongoing(c, now) then 0 else 1, c.id)
  }

  /** The student's course list: ongoing courses first, each group by ascending id. */
  function StudentCoursesList(student: Student, now: int): (r: seq<Course>)
    ensures multiset(r) == multiset(student.courses)
    ensures forall i, j :: 0 <= i < j < |r| && Ongoing(r[j], now) ==> Ongoing(r[i], now)
    ensures forall i, j :: 0 <= i < j < |r| && Ongoing(r[i], now) == Ongoing(r[j], now) ==> r[i].id <= r[j].id
  {
    var key := (c: Course) => ListKey(c, now);
    var r := SortBy(student.courses, key);
    assert forall i, j :: 0 <= i < j < |r| ==> KeyLe(key(r[i]), key(r[j]));
    r
  }

  /** The JSON map behind the course-state poll: every course id of the student to its ongoing flag. */
  method GetCoursesStates(student: Student, now: int) returns (m: map<nat, bool>)
    requires KeyedById(student.courses)
    ensures m.Keys == CourseIds(student.courses)
    ensures forall c :: c in student.courses ==> m[c.id] == Ongoing(c, now)
  {
    m := OngoingStates.RecordOngoingStates(map[], student.courses, now);
  }
}
