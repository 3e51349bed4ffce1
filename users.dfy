/** The people that courses belong to (control/models/users.py, as far as the core reads them). */
module Users {
  import opened Courses

  datatype Student = Student(id: nat, courses: seq<Course>)

  /** `courses` are the courses the teacher owns, `additionalCourses` the ones shared with them. */
  datatype Teacher = Teacher(id: nat, courses: seq<Course>, additionalCourses: seq<Course>)

  /** The object handed to the ongoing-states query: a student, a teacher, or any other user. */
  datatype User = StudentUser(student: Student) | TeacherUser(teacher: Teacher) | OtherUser

  function CourseIds(cs: seq<Course>): set<nat> {
    set c | c in cs :: c.id
  }

  /** A primary key identifies one row: two courses with the same id are the same course. */
  predicate KeyedById(cs: seq<Course>) {
    forall i, j :: 0 <= i < |cs| && 0 <= j < |cs| && cs[i].id == cs[j].id ==> cs[i] == cs[j]
  }
}
