/** A student's completion percentage for one course (actions/get-progress.ts). */
module Progress {
  import opened Common
  import opened Schema

  /** The rows the action's two queries read: the chapter table and the
      progress table. `None` stands for a query that threw. */
  datatype ProgressStore = ProgressStore(chapters: seq<Chapter>, progress: seq<UserProgress>)

  /** Ids of the course's published chapters, in table order. */
  function PublishedChapterIds(chapters: seq<Chapter>, courseId: string): (ids: seq<string>)
    ensures |ids| <= |chapters|
    ensures forall id :: id in ids <==>
      exists c :: c in chapters && c.courseId == courseId && c.isPublished && c.id == id
  {
    if |chapters| == 0 then []
    else
      var c := chapters[0];
      (if c.courseId == courseId && c.isPublished then [c.id] else [])
        + PublishedChapterIds(chapters[1..], courseId)
  }

  /** The rows the completion count counts: this user's, completed, and for
      one of the given chapters. */
  predicate Counts(row: UserProgress, userId: string, ids: set<string>) {
    row.userId == userId && row.chapterId in ids && row.isCompleted
  }

  /** `db.userProgress.count` with the action's filter. */
  function CompletedCount(rows: seq<UserProgress>, userId: string, ids: set<string>): (k: nat)
    ensures k <= |rows|
    ensures k == 0 <==> forall row :: row in rows ==> !Counts(row, userId, ids)
  {
    if |rows| == 0 then 0
    else (if Counts(rows[0], userId, ids) then 1 else 0) + CompletedCount(rows[1..], userId, ids)
  }

  /** `Math.round(k / n * 100)`, with no chapters giving 0. */
  function Percent(k: nat, n: nat): (r: nat)
    ensures n == 0 ==> r == 0
    ensures n > 0 ==> RoundsTo(r, 100 * k, n)
  {
    if n == 0 then 0 else RoundDiv(100 * k, n)
  }

  /** getProgress: N is the number of published chapters of the course, K
      the number of this user's completed rows among them; the answer is
      `round(100·K/N)`, 0 when N = 0, and 0 when a query fails. */
  function GetProgress(store: Option<ProgressStore>, userId: string, courseId: string): (r: nat)
    ensures store.None? ==> r == 0
    ensures store.Some? ==>
      var ids := PublishedChapterIds(store.value.chapters, courseId);
      var n := |ids|;
      var k := CompletedCount(store.value.progress, userId, Elements(ids));
      (n == 0 ==> r == 0) && (n > 0 ==> RoundsTo(r, 100 * k, n))
  {
    match store
    case None => 0
    case Some(db) =>
      var ids := PublishedChapterIds(db.chapters, courseId);
      if |ids| == 0 then 0
      else Percent(CompletedCount(db.progress, userId, Elements(ids)), |ids|)
  }

  /** The table's key: at most one row per (user, chapter). */
  ghost predicate UniqueRows(rows: seq<UserProgress>) {
    forall i, j :: 0 <= i < j < |rows| ==>
      rows[i].userId != rows[j].userId || rows[i].chapterId != rows[j].chapterId
  }

  lemma {:induction false} CompletedCountConcat(a: seq<UserProgress>, b: seq<UserProgress>, userId: string, ids: set<string>)
    ensures CompletedCount(a + b, userId, ids) == CompletedCount(a, userId, ids) + CompletedCount(b, userId, ids)
  {
    if |a| == 0 {
      assert a + b == b;
    } else {
      assert (a + b)[1..] == a[1..] + b;
      CompletedCountConcat(a[1..], b, userId, ids);
    }
  }

  /** A row that is another user's, for an unpublished or foreign chapter,
      or not completed, can be added anywhere without changing the answer. */
  lemma IrrelevantRowIgnored(chapters: seq<Chapter>, before: seq<UserProgress>, row: UserProgress,
                             after: seq<UserProgress>, userId: string, courseId: string)
    requires row.userId != userId || !row.isCompleted || row.chapterId !in PublishedChapterIds(chapters, courseId)
    ensures GetProgress(Some(ProgressStore(chapters, before + [row] + after)), userId, courseId)
         == GetProgress(Some(ProgressStore(chapters, before + after)), userId, courseId)
  {
    var ids := Elements(PublishedChapterIds(chapters, courseId));
    assert CompletedCount(before + [row] + after, userId, ids) == CompletedCount(before + after, userId, ids) by {
      CompletedCountConcat(before + [row], after, userId, ids);
      CompletedCountConcat(before, [row], userId, ids);
      CompletedCountConcat(before, after, userId, ids);
      assert !Counts(row, userId, ids);
      assert CompletedCount([row], userId, ids) == 0;
    }
  }

  lemma {:induction false} CountIgnoresAbsentChapter(rows: seq<UserProgress>, userId: string, ids: set<string>, c: string)
    requires forall row :: row in rows && row.userId == userId ==> row.chapterId != c
    ensures CompletedCount(rows, userId, ids) == CompletedCount(rows, userId, ids - {c})
  {
    if |rows| > 0 {
      assert rows[0] in rows;
      CountIgnoresAbsentChapter(rows[1..], userId, ids, c);
    }
  }

  /** With one row per (user, chapter), no more chapters are completed
      than there are chapters to complete. */
  lemma {:induction false} CompletedAtMostChapters(rows: seq<UserProgress>, userId: string, ids: set<string>)
    requires UniqueRows(rows)
    ensures CompletedCount(rows, userId, ids) <= |ids|
  {
    if |rows| > 0 {
      var row := rows[0];
      assert UniqueRows(rows[1..]) by {
        forall i, j | 0 <= i < j < |rows[1..]|
          ensures rows[1..][i].userId != rows[1..][j].userId || rows[1..][i].chapterId != rows[1..][j].chapterId
        {
          assert rows[1..][i] == rows[i + 1] && rows[1..][j] == rows[j + 1];
        }
      }
      if Counts(row, userId, ids) {
        forall r | r in rows[1..] && r.userId == userId
          ensures r.chapterId != row.chapterId
        {
          var j :| 0 <= j < |rows[1..]| && rows[1..][j] == r;
          assert rows[j + 1] == r;
        }
        CountIgnoresAbsentChapter(rows[1..], userId, ids, row.chapterId);
        CompletedAtMostChapters(rows[1..], userId, ids - {row.chapterId});
      } else {
        CompletedAtMostChapters(rows[1..], userId, ids);
      }
    }
  }

  lemma PercentMonotone(k: nat, k': nat, n: nat)
    requires k <= k'
    ensures Percent(k, n) <= Percent(k', n)
  {
    if n > 0 {
      RoundDivMonotone(100 * k, 100 * k', n);
    }
  }

  /** K ≤ N keeps the answer within [0, 100]; all done is 100, none is 0. */
  lemma PercentRange(k: nat, n: nat)
    requires k <= n
    ensures Percent(k, n) <= 100
    ensures n > 0 && k == n ==> Percent(k, n) == 100
    ensures k == 0 ==> Percent(k, n) == 0
  {
    if n > 0 {
      RoundDivAtMost(100 * k, n, 100);
      if k == n {
        RoundDivExact(100, n);
      }
      if k == 0 {
        RoundDivExact(0, n);
      }
    }
  }

  /** Over a well-formed progress table the percentage lies in [0, 100]. */
  lemma ProgressAtMost100(store: Option<ProgressStore>, userId: string, courseId: string)
    requires store.Some? ==> UniqueRows(store.value.progress)
    ensures GetProgress(store, userId, courseId) <= 100
  {
    if store.Some? {
      var ids := PublishedChapterIds(store.value.chapters, courseId);
      if |ids| > 0 {
        CompletedAtMostChapters(store.value.progress, userId, Elements(ids));
        PercentRange(CompletedCount(store.value.progress, userId, Elements(ids)), |ids|);
      }
    }
  }

  /** More completed rows, same chapters: the percentage does not drop. */
  lemma ProgressMonotone(chapters: seq<Chapter>, rows: seq<UserProgress>, extra: seq<UserProgress>,
                         userId: string, courseId: string)
    ensures GetProgress(Some(ProgressStore(chapters, rows)), userId, courseId)
         <= GetProgress(Some(ProgressStore(chapters, rows + extra)), userId, courseId)
  {
    var ids := PublishedChapterIds(chapters, courseId);
    CompletedCountConcat(rows, extra, userId, Elements(ids));
    PercentMonotone(CompletedCount(rows, userId, Elements(ids)), CompletedCount(rows + extra, userId, Elements(ids)), |ids|);
  }
}
