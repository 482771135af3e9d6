/** The database rows and the authenticated caller, trimmed to the fields
    the aggregations and handlers read. */
module Schema {
  import opened Common

  /** A creation time: its calendar year and month (0-based, as
      `Date.getMonth` reports it) and the instant within that month. */
  datatype Timestamp = Timestamp(year: int, month: int, withinMonth: nat)

  /** A course, owned by the teacher `userId`; `price` is nullable. */
  datatype Course = Course(id: string, userId: string, title: string, price: Option<nat>)

  datatype Chapter = Chapter(id: string, courseId: string, isPublished: bool)

  /** A student's purchase of a course, with the course joined in. */
  datatype Purchase = Purchase(userId: string, course: Course, createdAt: Timestamp) {
    function CourseId(): string { course.id }
  }

  /** One row per (student, chapter); `isCompleted` marks the chapter done. */
  datatype UserProgress = UserProgress(userId: string, chapterId: string, isCompleted: bool)

  /** One sitting of an assessment; `score` is nullable. */
  datatype AssessmentSession = AssessmentSession(userId: string, assessmentId: string, score: Option<nat>)

  /** An assessment with its sessions joined in; `difficultyLevel` is the
      stored integer (1 easy, 2 medium, 3 hard), nullable. */
  datatype Assessment = Assessment(
    id: string,
    createdById: string,
    title: string,
    isPublished: bool,
    difficultyLevel: Option<int>,
    sessions: seq<AssessmentSession>)

  /** Asking the identity provider for the signed-in user's record: the
      `role` field of its public metadata (`None` when the record or the
      field is missing), or a call that threw. */
  datatype UserLookup = Found(role: Option<string>) | LookupFailed

  /** Who is calling: the session's user id, if signed in, and what the
      user-record lookup gave. */
  datatype Caller = Caller(userId: Option<string>, user: UserLookup) {
    predicate IsInstructor() { user == Found(Some("instructor")) }
  }
}
