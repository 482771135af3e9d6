/** The student dashboard: purchased courses with their progress, split into
    completed and in-progress lists (actions/get-dashboard-progress.tsx). */
module Dashboard {
  import opened Common
  import opened Schema
  import Progress

  datatype CourseWithProgress = CourseWithProgress(course: Course, progress: nat)

  datatype DashboardCourses = DashboardCourses(
    completedCourses: seq<CourseWithProgress>,
    coursesInProgress: seq<CourseWithProgress>)

  /** The purchase query: this user's purchases, in the order fetched. */
  function PurchasesOf(purchases: seq<Purchase>, userId: string): (r: seq<Purchase>)
    ensures forall p :: p in r <==> p in purchases && p.userId == userId
    ensures IsSubseq(r, purchases)
  {
    Filter(purchases, (p: Purchase) => p.userId == userId)
  }

  /** One output course per purchase, carrying that course's progress. */
  function AttachProgress(purchases: seq<Purchase>, store: Option<Progress.ProgressStore>, userId: string)
    : (cs: seq<CourseWithProgress>)
    ensures |cs| == |purchases|
    ensures forall i :: 0 <= i < |cs| ==>
      cs[i].course == purchases[i].course
      && cs[i].progress == Progress.GetProgress(store, userId, purchases[i].course.id)
  {
    seq(|purchases|, i requires 0 <= i < |purchases| =>
      CourseWithProgress(purchases[i].course, Progress.GetProgress(store, userId, purchases[i].course.id)))
  }

  predicate IsCompleted(c: CourseWithProgress) { c.progress == 100 }

  predicate IsInProgress(c: CourseWithProgress) { c.progress < 100 }

  /** getDashboardCourses. `purchases` is the purchase table (`None` when
      the query throws) and `store` what getProgress reads. */
  function GetDashboardCourses(purchases: Option<seq<Purchase>>, store: Option<Progress.ProgressStore>, userId: string)
    : (d: DashboardCourses)
    ensures purchases.None? ==> d.completedCourses == [] && d.coursesInProgress == []
    ensures purchases.Some? ==>
      var cs := AttachProgress(PurchasesOf(purchases.value, userId), store, userId);
      && (forall c :: c in d.completedCourses <==> c in cs && c.progress == 100)
      && (forall c :: c in d.coursesInProgress <==> c in cs && c.progress < 100)
      && IsSubseq(d.completedCourses, cs)
      && IsSubseq(d.coursesInProgress, cs)
  {
    match purchases
    case None => DashboardCourses([], [])
    case Some(rows) =>
      var cs := AttachProgress(PurchasesOf(rows, userId), store, userId);
      DashboardCourses(Filter(cs, IsCompleted), Filter(cs, IsInProgress))
  }

  /** Because progress never exceeds 100, every purchased course lands in
      exactly one of the two lists. */
  lemma DashboardPartition(purchases: seq<Purchase>, store: Option<Progress.ProgressStore>, userId: string)
    requires store.Some? ==> Progress.UniqueRows(store.value.progress)
    ensures var d := GetDashboardCourses(Some(purchases), store, userId);
      && |d.completedCourses| + |d.coursesInProgress| == |PurchasesOf(purchases, userId)|
      && multiset(d.completedCourses) + multiset(d.coursesInProgress)
         == multiset(AttachProgress(PurchasesOf(purchases, userId), store, userId))
  {
    var mine := PurchasesOf(purchases, userId);
    var cs := AttachProgress(mine, store, userId);
    forall c | c in cs
      ensures IsCompleted(c) <==> !IsInProgress(c)
    {
      var i :| 0 <= i < |cs| && cs[i] == c;
      Progress.ProgressAtMost100(store, userId, mine[i].course.id);
    }
    FilterPartition(cs, IsCompleted, IsInProgress);
  }
}
