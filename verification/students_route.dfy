/** The teacher's student roll-up (app/api/analytics/students/route.ts):
    every student who bought one of the teacher's courses or sat one of the
    teacher's assessments, with their distinct course and assessment counts. */
module StudentsRoute {
  import opened Common
  import opened Schema
  import opened Text

  /** A session row with the creator of its assessment joined in. */
  datatype SessionRow = SessionRow(session: AssessmentSession, createdById: string)

  /** What the two queries read; `None` in `GetStudents` is a query that threw. */
  datatype StudentsStore = StudentsStore(purchases: seq<Purchase>, sessions: seq<SessionRow>)

  datatype StudentRow = StudentRow(
    id: string,
    name: string,
    email: string,
    enrolledCourses: nat,
    assessmentsTaken: nat)

  ghost predicate Distinct<T>(s: seq<T>) {
    forall i, j :: 0 <= i < j < |s| ==> s[i] != s[j]
  }

  /** The keys of the insertion-ordered student map after inserting `xs`
      into a map that already holds `seen`: each new key once. */
  function NewKeys(xs: seq<string>, seen: set<string>): (r: seq<string>)
    ensures forall x :: x in r <==> x in xs && x !in seen
    ensures Distinct(r)
  {
    if |xs| == 0 then []
    else if xs[0] in seen then NewKeys(xs[1..], seen + {xs[0]})
    else [xs[0]] + NewKeys(xs[1..], seen + {xs[0]})
  }

  /** The keys come in order of first appearance in `xs`: wherever the
      later key occurs, the earlier one has already occurred. */
  lemma {:induction false} NewKeysInOrder(xs: seq<string>, seen: set<string>, i: nat, j: nat, p: nat)
    requires i < j < |NewKeys(xs, seen)|
    requires p < |xs| && xs[p] == NewKeys(xs, seen)[j]
    ensures NewKeys(xs, seen)[i] in xs[..p]
  {
    var seen' := seen + {xs[0]};
    var rest := NewKeys(xs[1..], seen');
    var r := NewKeys(xs, seen);
    if p == 0 {
      assert false;
    }
    if xs[0] in seen {
      assert r == rest;
      NewKeysInOrder(xs[1..], seen', i, j, p - 1);
      assert xs[1..][..p - 1] == xs[1..p];
    } else if i == 0 {
      assert r[0] == xs[0] == xs[..p][0];
    } else {
      assert r == [xs[0]] + rest;
      NewKeysInOrder(xs[1..], seen', i - 1, j - 1, p - 1);
      assert xs[1..][..p - 1] == xs[1..p];
    }
  }

  /** And every key is taken from `xs`, in the same relative order. */
  lemma {:induction false} NewKeysSubseq(xs: seq<string>, seen: set<string>)
    ensures IsSubseq(NewKeys(xs, seen), xs)
  {
    if |xs| > 0 {
      var r := NewKeys(xs, seen);
      NewKeysSubseq(xs[1..], seen + {xs[0]});
      if xs[0] !in seen {
        assert r[0] == xs[0] && r[1..] == NewKeys(xs[1..], seen + {xs[0]});
      }
    }
  }

  /** Everyone who bought one of the courses. */
  ghost function Purchasers(ps: seq<Purchase>): set<string> {
    set p | p in ps :: p.userId
  }

  /** Everyone who sat one of the assessments. */
  ghost function Takers(ss: seq<SessionRow>): set<string> {
    set s | s in ss :: s.session.userId
  }

  /** Everyone who bought one of the courses or sat one of the assessments. */
  ghost function Participants(ps: seq<Purchase>, ss: seq<SessionRow>): set<string> {
    Purchasers(ps) + Takers(ss)
  }

  function PurchaseUsers(ps: seq<Purchase>): (r: seq<string>)
    ensures |r| == |ps|
    ensures forall i :: 0 <= i < |ps| ==> r[i] == ps[i].userId
    ensures forall u :: u in r <==> u in Purchasers(ps)
  {
    var r := seq(|ps|, i requires 0 <= i < |ps| => ps[i].userId);
    forall u | u in Purchasers(ps)
      ensures u in r
    {
      var p :| p in ps && p.userId == u;
      var k :| 0 <= k < |ps| && ps[k] == p;
      assert r[k] == u;
    }
    r
  }

  function SessionUsers(ss: seq<SessionRow>): (r: seq<string>)
    ensures |r| == |ss|
    ensures forall i :: 0 <= i < |ss| ==> r[i] == ss[i].session.userId
    ensures forall u :: u in r <==> u in Takers(ss)
  {
    var r := seq(|ss|, i requires 0 <= i < |ss| => ss[i].session.userId);
    forall u | u in Takers(ss)
      ensures u in r
    {
      var s :| s in ss && s.session.userId == u;
      var k :| 0 <= k < |ss| && ss[k] == s;
      assert r[k] == u;
    }
    r
  }

  /** The ids in the order the two loops insert them: purchasers, then
      session takers. */
  function Arrivals(ps: seq<Purchase>, ss: seq<SessionRow>): (xs: seq<string>)
    ensures forall u :: u in xs <==> u in Participants(ps, ss)
  {
    PurchaseUsers(ps) + SessionUsers(ss)
  }

  /** The student ids: purchasers first, then session takers, each once. */
  function StudentIds(ps: seq<Purchase>, ss: seq<SessionRow>): (ids: seq<string>)
    ensures Distinct(ids)
    ensures forall u :: u in ids <==> u in Participants(ps, ss)
  {
    NewKeys(Arrivals(ps, ss), {})
  }

  /** The ids come in order of first appearance, purchases before sessions. */
  lemma StudentIdsInOrder(ps: seq<Purchase>, ss: seq<SessionRow>, i: nat, j: nat, p: nat)
    requires i < j < |StudentIds(ps, ss)|
    requires p < |Arrivals(ps, ss)| && Arrivals(ps, ss)[p] == StudentIds(ps, ss)[j]
    ensures StudentIds(ps, ss)[i] in Arrivals(ps, ss)[..p]
  {
    NewKeysInOrder(Arrivals(ps, ss), {}, i, j, p);
  }

  /** The distinct courses the student bought (`courses` in the map entry). */
  function CoursesOf(ps: seq<Purchase>, u: string): set<string> {
    set p | p in ps && p.userId == u :: p.CourseId()
  }

  /** The distinct assessments the student sat (`assessments` in the map entry). */
  function AssessmentsOf(ss: seq<SessionRow>, u: string): set<string> {
    set s | s in ss && s.session.userId == u :: s.session.assessmentId
  }

  /** The mock display name and e-mail of the student at 0-based position `i`. */
  function StudentName(i: nat): string {
    "Student " + NatToString(i + 1)
  }

  function StudentEmail(i: nat): string {
    "student" + NatToString(i + 1) + "@example.com"
  }

  /** The roll-up over the teacher's purchases and sessions. */
  function Roll(ps: seq<Purchase>, ss: seq<SessionRow>): (rows: seq<StudentRow>)
    ensures var ids := StudentIds(ps, ss);
      |rows| == |ids|
      && forall i :: 0 <= i < |rows| ==>
        && rows[i].id == ids[i]
        && rows[i].name == StudentName(i)
        && rows[i].email == StudentEmail(i)
        && rows[i].enrolledCourses == |CoursesOf(ps, ids[i])|
        && rows[i].assessmentsTaken == |AssessmentsOf(ss, ids[i])|
  {
    var ids := StudentIds(ps, ss);
    seq(|ids|, i requires 0 <= i < |ids| =>
      StudentRow(ids[i], StudentName(i), StudentEmail(i),
                 |CoursesOf(ps, ids[i])|, |AssessmentsOf(ss, ids[i])|))
  }

  /** GET: only the teacher's own courses and assessments are looked at. */
  function GetStudents(userId: Option<string>, store: Option<StudentsStore>): (r: HttpResult<seq<StudentRow>>)
    ensures userId.None? <==> r == Status(401, "Unauthorized")
    ensures userId.Some? && store.None? ==> r == Status(500, "Internal Error")
    ensures r.Ok? <==> userId.Some? && store.Some?
    ensures r.Ok? ==> userId.Some? && store.Some? && r.body == Roll(
      Filter(store.value.purchases, (p: Purchase) => p.course.userId == userId.value),
      Filter(store.value.sessions, (s: SessionRow) => s.createdById == userId.value))
  {
    match userId
    case None => Status(401, "Unauthorized")
    case Some(uid) =>
      match store
      case None => Status(500, "Internal Error")
      case Some(db) =>
        Ok(Roll(Filter(db.purchases, (p: Purchase) => p.course.userId == uid),
                Filter(db.sessions, (s: SessionRow) => s.createdById == uid)))
  }

  ghost function RowIds(rows: seq<StudentRow>): set<string> {
    set row | row in rows :: row.id
  }

  /** Each student appears once, and exactly the participants appear. */
  lemma RollCoversStudents(ps: seq<Purchase>, ss: seq<SessionRow>)
    ensures var rows := Roll(ps, ss);
      && (forall i, j :: 0 <= i < j < |rows| ==> rows[i].id != rows[j].id)
      && RowIds(rows) == Participants(ps, ss)
  {
    var rows := Roll(ps, ss);
    var ids := StudentIds(ps, ss);
    forall u | u in RowIds(rows)
      ensures u in Participants(ps, ss)
    {
      var row :| row in rows && row.id == u;
      var i :| 0 <= i < |rows| && rows[i] == row;
      assert ids[i] == u;
    }
    forall u | u in Participants(ps, ss)
      ensures u in RowIds(rows)
    {
      assert u in ids;
      var i :| 0 <= i < |ids| && ids[i] == u;
      assert rows[i] in rows;
    }
  }

  /** A count is zero exactly when the student has no row of that kind. */
  lemma RollCountsZero(ps: seq<Purchase>, ss: seq<SessionRow>)
    ensures var rows := Roll(ps, ss);
      && (forall i :: 0 <= i < |rows| ==>
            (rows[i].enrolledCourses == 0 <==> forall p :: p in ps ==> p.userId != rows[i].id))
      && (forall i :: 0 <= i < |rows| ==>
            (rows[i].assessmentsTaken == 0 <==> forall s :: s in ss ==> s.session.userId != rows[i].id))
  {
    var rows := Roll(ps, ss);
    var ids := StudentIds(ps, ss);
    forall i | 0 <= i < |rows|
      ensures rows[i].enrolledCourses == 0 <==> forall p :: p in ps ==> p.userId != rows[i].id
      ensures rows[i].assessmentsTaken == 0 <==> forall s :: s in ss ==> s.session.userId != rows[i].id
    {
      var u := ids[i];
      if p :| p in ps && p.userId == u {
        assert p.CourseId() in CoursesOf(ps, u);
      }
      if s :| s in ss && s.session.userId == u {
        assert s.session.assessmentId in AssessmentsOf(ss, u);
      }
    }
  }

  /** The mock names of two different entries differ. */
  lemma NamesDistinct(i: nat, j: nat)
    requires i != j
    ensures StudentName(i) != StudentName(j)
  {
    if StudentName(i) == StudentName(j) {
      assert NatToString(i + 1) == StudentName(i)[8..] == StudentName(j)[8..] == NatToString(j + 1);
      NatToStringInjective(i + 1, j + 1);
    }
  }

  /** And so do their mock e-mails. */
  lemma EmailsDistinct(i: nat, j: nat)
    requires i != j
    ensures StudentEmail(i) != StudentEmail(j)
  {
    if StudentEmail(i) == StudentEmail(j) {
      var e := StudentEmail(i);
      var a, b := NatToString(i + 1), NatToString(j + 1);
      assert a == e[7..|e| - 12] == b;
      NatToStringInjective(i + 1, j + 1);
    }
  }
}
