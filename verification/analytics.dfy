/** Teacher revenue analytics (actions/get-analytics.ts). */
module Analytics {
  import opened Common
  import opened Schema

  /** A purchase's contribution to a sum. The source asserts the price is
      non-null only to the type checker; at run time `x + null` is `x`, so a
      course without a price adds 0. */
  function Amount(p: Purchase): nat {
    p.course.price.GetOr(0)
  }

  /** Sum of the amounts of all purchases. */
  function Revenue(ps: seq<Purchase>): nat {
    if |ps| == 0 then 0 else Revenue(ps[..|ps| - 1]) + Amount(ps[|ps| - 1])
  }

  /** Sum of the amounts of the purchases of courses titled `title`. */
  function TitleRevenue(ps: seq<Purchase>, title: string): nat {
    if |ps| == 0 then 0
    else
      var last := ps[|ps| - 1];
      TitleRevenue(ps[..|ps| - 1], title) + (if last.course.title == title then Amount(last) else 0)
  }

  /** The course titles that occur among the purchases. */
  ghost function Titles(ps: seq<Purchase>): set<string> {
    set p | p in ps :: p.course.title
  }

  /** One entry of the grouped earnings: a course title and its revenue. */
  datatype Group = Group(name: string, total: nat)

  function Names(gs: seq<Group>): (r: set<string>)
    ensures forall n :: n in r <==> exists g :: g in gs && g.name == n
  {
    if |gs| == 0 then {} else {gs[0].name} + Names(gs[1..])
  }

  /** No title is grouped twice. */
  ghost predicate DistinctNames(gs: seq<Group>) {
    |gs| == 0 || (gs[0].name !in Names(gs[1..]) && DistinctNames(gs[1..]))
  }

  /** The total recorded for `name`, 0 if there is no such group. */
  function TotalFor(gs: seq<Group>, name: string): nat {
    if |gs| == 0 then 0
    else if gs[0].name == name then gs[0].total
    else TotalFor(gs[1..], name)
  }

  /** `data.reduce((acc, g) => acc + g.total, 0)`. */
  function GroupsSum(gs: seq<Group>): nat {
    if |gs| == 0 then 0 else gs[0].total + GroupsSum(gs[1..])
  }

  lemma {:induction false} TotalForAbsent(gs: seq<Group>, name: string)
    requires name !in Names(gs)
    ensures TotalFor(gs, name) == 0
  {
    if |gs| > 0 {
      TotalForAbsent(gs[1..], name);
    }
  }

  /** `grouped[title] += amount` on the grouped object, creating the entry
      at the end on first sight of the title. */
  function AddTo(gs: seq<Group>, title: string, amount: nat): (r: seq<Group>)
    requires DistinctNames(gs)
    ensures DistinctNames(r)
    ensures Names(r) == Names(gs) + {title}
    ensures GroupsSum(r) == GroupsSum(gs) + amount
  {
    if |gs| == 0 then
      [Group(title, amount)]
    else if gs[0].name == title then
      TotalForAbsent(gs[1..], title);
      [Group(title, gs[0].total + amount)] + gs[1..]
    else
      [gs[0]] + AddTo(gs[1..], title, amount)
  }

  /** The amount lands on its own title's total and on no other. */
  lemma {:induction false} AddToTotal(gs: seq<Group>, title: string, amount: nat, n: string)
    requires DistinctNames(gs)
    ensures TotalFor(AddTo(gs, title, amount), n) == TotalFor(gs, n) + (if n == title then amount else 0)
  {
    if |gs| > 0 && gs[0].name != title {
      AddToTotal(gs[1..], title, amount, n);
    }
  }

  /** groupByCourse: one group per distinct title, holding the summed
      amounts of that title's purchases. */
  function GroupByCourse(ps: seq<Purchase>): (gs: seq<Group>)
    ensures DistinctNames(gs)
    ensures Names(gs) == Titles(ps)
    ensures forall n :: TotalFor(gs, n) == TitleRevenue(ps, n)
    ensures GroupsSum(gs) == Revenue(ps)
  {
    if |ps| == 0 then []
    else
      var init, last := ps[..|ps| - 1], ps[|ps| - 1];
      assert Titles(ps) == Titles(init) + {last.course.title} by {
        assert ps == init + [last];
      }
      var prev := GroupByCourse(init);
      forall n
        ensures TotalFor(AddTo(prev, last.course.title, Amount(last)), n) == TitleRevenue(ps, n)
      {
        AddToTotal(prev, last.course.title, Amount(last), n);
      }
      AddTo(prev, last.course.title, Amount(last))
  }

  /** With distinct names, a group's own total is the one TotalFor finds. */
  lemma {:induction false} TotalForMember(gs: seq<Group>, g: Group)
    requires DistinctNames(gs)
    requires g in gs
    ensures TotalFor(gs, g.name) == g.total
  {
    if gs[0] != g {
      assert g in gs[1..];
      assert g.name in Names(gs[1..]);
      TotalForMember(gs[1..], g);
    }
  }

  /** Each group's total is the revenue of exactly the purchases whose
      course carries that title; courses sharing a title are merged. */
  lemma GroupTotals(ps: seq<Purchase>)
    ensures forall g :: g in GroupByCourse(ps) ==> g.total == TitleRevenue(ps, g.name)
    ensures forall t :: t in Titles(ps) <==> exists g :: g in GroupByCourse(ps) && g.name == t
  {
    var gs := GroupByCourse(ps);
    forall g | g in gs
      ensures g.total == TitleRevenue(ps, g.name)
    {
      TotalForMember(gs, g);
    }
  }

  /** The month filter: purchases created in the given calendar month. */
  function MonthlySales(ps: seq<Purchase>, year: int, month: int): (r: nat)
    ensures r <= Revenue(ps)
  {
    if |ps| == 0 then 0
    else
      var last := ps[|ps| - 1];
      MonthlySales(ps[..|ps| - 1], year, month)
        + (if last.createdAt.year == year && last.createdAt.month == month then Amount(last) else 0)
  }

  /** Every purchase made in the month counts toward the monthly figure. */
  lemma {:induction false} MonthlySalesAllInMonth(ps: seq<Purchase>, year: int, month: int)
    requires forall p :: p in ps ==> p.createdAt.year == year && p.createdAt.month == month
    ensures MonthlySales(ps, year, month) == Revenue(ps)
  {
    if |ps| > 0 {
      assert ps[|ps| - 1] in ps;
      MonthlySalesAllInMonth(ps[..|ps| - 1], year, month);
    }
  }

  /** The distinct purchaser ids. */
  function Buyers(ps: seq<Purchase>): (r: set<string>)
    ensures forall u :: u in r <==> exists p :: p in ps && p.userId == u
    ensures |r| <= |ps|
    ensures |ps| > 0 ==> |r| >= 1
  {
    if |ps| == 0 then {}
    else
      var rest := ps[..|ps| - 1];
      assert forall p :: p in ps <==> p in rest || p == ps[|ps| - 1] by {
        assert ps == rest + [ps[|ps| - 1]];
      }
      Buyers(rest) + {ps[|ps| - 1].userId}
  }

  /** The highest-revenue group. Sorting descending with a stable sort and
      taking the head yields the first group with the largest total. */
  function Best(gs: seq<Group>): (b: Group)
    requires |gs| > 0
    ensures b in gs
    ensures forall g :: g in gs ==> g.total <= b.total
    ensures exists i :: 0 <= i < |gs| && gs[i] == b && forall j :: 0 <= j < i ==> gs[j].total < b.total
  {
    if |gs| == 1 then gs[0]
    else
      var b := Best(gs[1..]);
      if gs[0].total >= b.total then gs[0]
      else
        var i :| 0 <= i < |gs[1..]| && gs[1..][i] == b && forall j :: 0 <= j < i ==> gs[1..][j].total < b.total;
        assert gs[i + 1] == b;
        b
  }

  datatype TopCourse = TopCourse(title: string, revenue: nat)

  function TopPerformingCourse(gs: seq<Group>): (r: Option<TopCourse>)
    ensures r.None? <==> |gs| == 0
    ensures r.Some? ==> r.value.title in Names(gs)
    ensures r.Some? ==> forall g :: g in gs ==> g.total <= r.value.revenue
    ensures r.Some? ==> Group(r.value.title, r.value.revenue) in gs
  {
    if |gs| == 0 then None
    else
      var b := Best(gs);
      Some(TopCourse(b.name, b.total))
  }

  datatype Sale = Sale(course: string, amount: nat, date: Timestamp)

  /** The five most recent sales: the head of the newest-first purchase list. */
  function RecentSales(ps: seq<Purchase>): (r: seq<Sale>)
    ensures |r| == if |ps| < 5 then |ps| else 5
    ensures forall i :: 0 <= i < |r| ==>
      r[i].course == ps[i].course.title && r[i].date == ps[i].createdAt
      && r[i].amount == ps[i].course.price.GetOr(0)
  {
    var n := if |ps| < 5 then |ps| else 5;
    seq(n, i requires 0 <= i < n => Sale(ps[i].course.title, Amount(ps[i]), ps[i].createdAt))
  }

  /** What the two queries read: the purchase table with courses joined
      (in the query's newest-first order) and the course table. */
  datatype AnalyticsStore = AnalyticsStore(purchases: seq<Purchase>, courses: seq<Course>)

  datatype AnalyticsReport = AnalyticsReport(
    data: seq<Group>,
    totalRevenue: nat,
    totalSales: nat,
    monthlySales: nat,
    courseCount: nat,
    activeStudents: nat,
    topPerformingCourse: Option<TopCourse>,
    recentSales: seq<Sale>)

  const EmptyReport := AnalyticsReport([], 0, 0, 0, 0, 0, None, [])

  /** The purchases of courses the teacher owns. */
  function TeacherPurchases(ps: seq<Purchase>, teacherId: string): (r: seq<Purchase>)
    ensures forall p :: p in r <==> p in ps && p.course.userId == teacherId
    ensures IsSubseq(r, ps)
  {
    Filter(ps, (p: Purchase) => p.course.userId == teacherId)
  }

  /** getAnalytics, with the current calendar month passed in. */
  function GetAnalytics(store: Option<AnalyticsStore>, teacherId: string, year: int, month: int)
    : (r: AnalyticsReport)
    ensures store.None? ==> r == EmptyReport
    ensures store.Some? ==>
      var ps := TeacherPurchases(store.value.purchases, teacherId);
      && DistinctNames(r.data)
      && Names(r.data) == Titles(ps)
      && (forall g :: g in r.data ==> g.total == TitleRevenue(ps, g.name))
      && r.totalRevenue == Revenue(ps)
      && r.totalSales == |ps|
      && r.monthlySales == MonthlySales(ps, year, month) <= r.totalRevenue
      && r.activeStudents == |Buyers(ps)| <= r.totalSales
      && r.courseCount == |Filter(store.value.courses, (c: Course) => c.userId == teacherId)|
      && (r.topPerformingCourse.None? <==> |ps| == 0)
      && (r.topPerformingCourse.Some? ==>
            && Group(r.topPerformingCourse.value.title, r.topPerformingCourse.value.revenue) in r.data
            && forall g :: g in r.data ==> g.total <= r.topPerformingCourse.value.revenue)
      && r.recentSales == RecentSales(ps)
  {
    match store
    case None => EmptyReport
    case Some(db) =>
      var ps := TeacherPurchases(db.purchases, teacherId);
      var data := GroupByCourse(ps);
      GroupTotals(ps);
      assert |ps| > 0 ==> ps[0].course.title in Names(data);
      AnalyticsReport(
        data,
        GroupsSum(data),
        |ps|,
        MonthlySales(ps, year, month),
        Count(db.courses, (c: Course) => c.userId == teacherId),
        |Buyers(ps)|,
        TopPerformingCourse(data),
        RecentSales(ps))
  }
}
