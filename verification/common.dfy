/** Shared vocabulary of the model: optional values, HTTP outcomes, the
    rounding the handlers use, and order-preserving filtering. */
module Common {

  /** A value that may be absent: a missing JSON field, a SQL NULL, or a
      collaborator (database, identity provider, remote service) that threw. */
  datatype Option<+T> = None | Some(value: T) {
    function GetOr(default: T): T {
      match this
      case Some(v) => v
      case None => default
    }
  }

  /** JavaScript truthiness of an optional string: present and non-empty. */
  predicate Truthy(s: Option<string>) {
    s.Some? && s.value != ""
  }

  /** `a || b` on optional strings. */
  function OrElse(a: Option<string>, b: string): (r: string)
    ensures Truthy(a) ==> r == a.value
    ensures !Truthy(a) ==> r == b
  {
    if Truthy(a) then a.value else b
  }

  /** What a route handler answers: a JSON body or a bare status with text. */
  datatype HttpResult<+T> = Ok(body: T) | Status(code: int, message: string)

  /** `r` is `a / b` rounded to the nearest integer, halves upward:
      r - 1/2 <= a/b < r + 1/2. */
  ghost predicate RoundsTo(r: int, a: int, b: int) {
    2 * b * r <= 2 * a + b < 2 * b * (r + 1)
  }

  /** `Math.round(a / b)` for a non-negative numerator and positive
      denominator, computed exactly. */
  function RoundDiv(a: nat, b: nat): (r: nat)
    requires b > 0
    ensures RoundsTo(r, a, b)
  {
    var q := (2 * a + b) / (2 * b);
    assert 2 * a + b == (2 * b) * q + (2 * a + b) % (2 * b);
    q
  }

  /** The defining inequality of RoundDiv has exactly one solution. */
  lemma RoundDivUnique(a: nat, b: nat, r: nat)
    requires b > 0
    requires RoundsTo(r, a, b)
    ensures RoundDiv(a, b) == r
  {
    var q := RoundDiv(a, b);
    MulCancel(2 * b, q, r + 1);
    MulCancel(2 * b, r, q + 1);
  }

  lemma MulMonotone(k: nat, x: nat, y: nat)
    requires x <= y
    ensures k * x <= k * y
  {
  }

  lemma MulSucc(x: nat, n: nat)
    ensures x * (n + 1) == x * n + x
  {
  }

  /** A positive factor can be cancelled from a strict inequality. */
  lemma MulCancel(k: nat, x: int, y: int)
    requires k > 0
    requires k * x < k * y
    ensures x < y
  {
  }

  /** Rounding never decreases when the numerator grows. */
  lemma RoundDivMonotone(a: nat, a': nat, b: nat)
    requires b > 0
    requires a <= a'
    ensures RoundDiv(a, b) <= RoundDiv(a', b)
  {
    MulCancel(2 * b, RoundDiv(a, b), RoundDiv(a', b) + 1);
  }

  /** A quotient of at most `c` rounds to at most `c`. */
  lemma RoundDivAtMost(a: nat, b: nat, c: nat)
    requires b > 0
    requires a <= c * b
    ensures RoundDiv(a, b) <= c
  {
    assert 2 * b * (c + 1) == 2 * (c * b) + 2 * b;
    MulCancel(2 * b, RoundDiv(a, b), c + 1);
  }

  /** Exact quotients are returned unchanged. */
  lemma RoundDivExact(c: nat, b: nat)
    requires b > 0
    ensures RoundDiv(c * b, b) == c
  {
    RoundDivUnique(c * b, b, c);
  }

  /** `xs.filter(p)`. */
  function Filter<T(!new)>(s: seq<T>, p: T -> bool): (r: seq<T>)
    ensures |r| <= |s|
    ensures forall x :: x in r <==> x in s && p(x)
    ensures IsSubseq(r, s)
  {
    if |s| == 0 then []
    else if p(s[0]) then [s[0]] + Filter(s[1..], p)
    else Filter(s[1..], p)
  }

  /** Filtering keeps every copy of an element that passes the test and
      none of one that fails it. */
  lemma {:induction false} FilterMultiset<T(!new)>(s: seq<T>, p: T -> bool, x: T)
    ensures multiset(Filter(s, p))[x] == if p(x) then multiset(s)[x] else 0
  {
    if |s| > 0 {
      FilterMultiset(s[1..], p, x);
      assert s == [s[0]] + s[1..];
    }
  }

  /** `a` is `b` with some elements left out, the rest in their order. */
  ghost predicate IsSubseq<T>(a: seq<T>, b: seq<T>)
    decreases |b|
  {
    |a| == 0 || (|b| > 0 && ((a[0] == b[0] && IsSubseq(a[1..], b[1..])) || IsSubseq(a, b[1..])))
  }

  function Count<T(!new)>(s: seq<T>, p: T -> bool): (n: nat)
    ensures n <= |s|
    ensures n == |Filter(s, p)|
  {
    if |s| == 0 then 0
    else (if p(s[0]) then 1 else 0) + Count(s[1..], p)
  }

  /** Splitting by a test and by its negation loses and invents nothing. */
  lemma {:induction false} FilterPartition<T(!new)>(s: seq<T>, p: T -> bool, q: T -> bool)
    requires forall x :: x in s ==> (p(x) <==> !q(x))
    ensures |Filter(s, p)| + |Filter(s, q)| == |s|
    ensures multiset(Filter(s, p)) + multiset(Filter(s, q)) == multiset(s)
  {
    if |s| > 0 {
      FilterPartition(s[1..], p, q);
      assert s == [s[0]] + s[1..];
    }
  }

  /** The distinct elements of a sequence (`new Set(xs)`). */
  function Elements<T(!new)>(s: seq<T>): (r: set<T>)
    ensures forall x :: x in r <==> x in s
    ensures |r| <= |s|
  {
    if |s| == 0 then {}
    else Elements(s[..|s| - 1]) + {s[|s| - 1]}
  }
}
