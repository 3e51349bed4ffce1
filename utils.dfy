/** Per-user map from course id to "is the course running now" (control/utils.py). */
module OngoingStates {
  import opened Courses
  import opened Users

  /**
   * Inserts `course.id -> is_ongoing(course)` for every course in turn, the
   * loop body shared by get_courses_states and get_users_courses_ongoing_states.
   */
  method RecordOngoingStates(m: map<nat, bool>, courses: seq<Course>, now: int) returns (r: map<nat, bool>)
    requires KeyedById(courses)
    ensures r.Keys == m.Keys + CourseIds(courses)
    ensures forall c :: c in courses ==> r[c.id] == Ongoing(c, now)
    ensures forall id :: id in m && id !in CourseIds(courses) ==> r[id] == m[id]
  {
    r := m;
    for i := 0 to |courses|
      invariant r.Keys == m.Keys + CourseIds(courses[..i])
      invariant forall k :: 0 <= k < i ==> r[courses[k].id] == Ongoing(courses[k], now)
      invariant forall id :: id in m && id !in CourseIds(courses[..i]) ==> r[id] == m[id]
    {
      var course := courses[i];
      assert courses[..i + 1] == courses[..i] + [course];
      var ongoing := IsOngoing(course, now);
      r := r[course.id := if ongoing then true else false];
    }
    assert courses[..|courses|] == courses;
  }

  function UserCourses(u: User): seq<Course> {
    match u
    case StudentUser(s) => s.courses
    case TeacherUser(t) => t.courses + t.additionalCourses
    case OtherUser => []
  }

  /**
   * Students: their courses; teachers: their own and their additional courses;
   * anyone else: nothing.
   */
  method GetUsersCoursesOngoingStates(u: User, now: int) returns (r: map<nat, bool>)
    requires KeyedById(UserCourses(u))
    ensures u.OtherUser? ==> r == map[]
    ensures u.StudentUser? ==> r.Keys == CourseIds(u.student.courses)
    ensures u.TeacherUser? ==> r.Keys == CourseIds(u.teacher.courses) + CourseIds(u.teacher.additionalCourses)
    ensures forall c :: c in UserCourses(u) ==> r[c.id] == Ongoing(c, now)
  {
    r := map[];
    match u {
      case StudentUser(s) =>
        r := RecordOngoingStates(r, s.courses, now);
      case TeacherUser(t) =>
        KeyedSplit(t.courses, t.additionalCourses);
        r := RecordOngoingStates(r, t.courses, now);
        r := RecordOngoingStates(r, t.additionalCourses, now);
      case OtherUser =>
    }
  }

  /** Both parts of a keyed list are keyed, and a course id shared by them names one course. */
  lemma KeyedSplit(a: seq<Course>, b: seq<Course>)
    requires KeyedById(a + b)
    ensures KeyedById(a) && KeyedById(b)
    ensures forall c, c' :: c in a && c' in b && c.id == c'.id ==> c == c'
  {
    var all := a + b;
    forall i, j | 0 <= i < |a| && 0 <= j < |a| && a[i].id == a[j].id ensures a[i] == a[j] {
      assert all[i] == a[i] && all[j] == a[j];
    }
    forall i, j | 0 <= i < |b| && 0 <= j < |b| && b[i].id == b[j].id ensures b[i] == b[j] {
      assert all[|a| + i] == b[i] && all[|a| + j] == b[j];
    }
    forall c, c' | c in a && c' in b && c.id == c'.id ensures c == c' {
      var i :| 0 <= i < |a| && a[i] == c;
      var j :| 0 <= j < |b| && b[j] == c';
      assert all[i] == c && all[|a| + j] == c';
    }
  }
}
