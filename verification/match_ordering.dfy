/**
 The three orders of a company's matches (app/infra/db/repositories/match_repository.py,
 list_page).  The recommended order sorts by the quotient satisfied / required as the
 database computes it, which is rounded.
 */
module MatchOrdering {
  import opened Wrappers
  import opened Ordering

  /** Largest value of the counters, which are small integers. */
  const MAX_COUNT: nat := 32767

  datatype Verdict = Possible | Fixable | Unclear | Infeasible

  datatype Match = Match(
    bidId: string, verdict: Verdict, required: nat, satisfied: nat, closesAt: Option<int>, postedAt: Option<int>)
  {
    predicate Valid() { required <= MAX_COUNT && satisfied <= MAX_COUNT }
  }

  function NoDeadline(m: Match): int {
    if m.closesAt.None? then 1 else 0
  }

  function VerdictRank(m: Match): int {
    match m.verdict
    case Possible => 0
    case Fixable => 1
    case _ => 2
  }

  /** DESC NULLS LAST. */
  predicate Before(a: Option<real>, b: Option<real>) {
    (a.Some? && b.None?) || (a.Some? && b.Some? && a.value > b.value)
  }

  /** Close ascending with NULLS LAST, then id. */
  predicate CloseThenId(a: Match, b: Match) {
    || (a.closesAt.Some? && b.closesAt.None?)
    || (a.closesAt.Some? && b.closesAt.Some? && a.closesAt.value < b.closesAt.value)
    || (a.closesAt == b.closesAt && LexLess(a.bidId, b.bidId))
  }

  /** The recommended order over any way `q` of computing the quotient. */
  predicate RecommendedBy(a: Match, b: Match, q: Match -> Option<real>) {
    || NoDeadline(a) < NoDeadline(b)
    || (NoDeadline(a) == NoDeadline(b)
        && (Before(q(a), q(b))
            || (q(a) == q(b) && (a.required > b.required || (a.required == b.required && CloseThenId(a, b))))))
  }

  /** The quotient the database sees. */
  function Rounded(m: Match, round: real -> real): Option<real> {
    if m.required == 0 then None else Some(round(m.satisfied as real / m.required as real))
  }

  predicate RecommendedLess(a: Match, b: Match, round: real -> real) {
    RecommendedBy(a, b, m => Rounded(m, round))
  }

  /** Comparison of the fractions themselves, by cross-multiplication. */
  predicate FractionGreater(a: Match, b: Match) {
    (a.required > 0 && b.required == 0)
    || (a.required > 0 && b.required > 0 && a.satisfied * b.required > b.satisfied * a.required)
  }

  predicate FractionEqual(a: Match, b: Match) {
    (a.required == 0 && b.required == 0)
    || (a.required > 0 && b.required > 0 && a.satisfied * b.required == b.satisfied * a.required)
  }

  /** The recommended order in whole numbers. */
  predicate ExactLess(a: Match, b: Match) {
    || NoDeadline(a) < NoDeadline(b)
    || (NoDeadline(a) == NoDeadline(b)
        && (FractionGreater(a, b)
            || (FractionEqual(a, b) && (a.required > b.required || (a.required == b.required && CloseThenId(a, b))))))
  }

  predicate DeadlineLess(a: Match, b: Match) {
    || NoDeadline(a) < NoDeadline(b)
    || (NoDeadline(a) == NoDeadline(b)
        && (VerdictRank(a) < VerdictRank(b) || (VerdictRank(a) == VerdictRank(b) && CloseThenId(a, b))))
  }

  predicate RecentLess(a: Match, b: Match) {
    || NoDeadline(a) < NoDeadline(b)
    || (NoDeadline(a) == NoDeadline(b)
        && (VerdictRank(a) < VerdictRank(b)
            || (VerdictRank(a) == VerdictRank(b)
                && ((a.postedAt.Some? && b.postedAt.None?)
                    || (a.postedAt.Some? && b.postedAt.Some? && a.postedAt.value > b.postedAt.value)
                    || (a.postedAt == b.postedAt && LexLess(a.bidId, b.bidId))))))
  }

  // ---------------------------------------------------------------- exactness of the rounded quotient

  /** The error stays below half the gap between two different quotients. */
  ghost predicate RoundsFinely(round: real -> real) {
    forall x: real :: -GAP / 2.0 < round(x) - x < GAP / 2.0
  }

  const GAP: real := 1.0 / (MAX_COUNT as real * MAX_COUNT as real)

  lemma QuotientTimesDenominator(s: nat, r: nat)
    requires r > 0
    ensures (s as real / r as real) * r as real == s as real
  {
  }

  lemma ProductsOfReals(x: real, y: real, z: real)
    requires z > 0.0
    ensures x > y ==> x * z > y * z
  {
  }

  /** Numbers compare as their multiples. */
  lemma MultiplesCompare(x: real, y: real, p: real)
    requires p > 0.0
    ensures x > y <==> x * p > y * p
    ensures x == y <==> x * p == y * p
  {
    ProductsOfReals(x, y, p);
    ProductsOfReals(y, x, p);
  }

  /** A quotient times the product of both denominators is its cross product. */
  lemma CrossProduct(s: nat, r: nat, q: nat)
    requires r > 0
    ensures (s as real / r as real) * (r as real * q as real) == (s * q) as real
  {
    var x := s as real / r as real;
    QuotientTimesDenominator(s, r);
    assert x * (r as real * q as real) == (x * r as real) * q as real;
  }

  /** Two fractions compare as their cross products, and differ by at least the gap. */
  lemma FractionsCompare(s: nat, r: nat, t: nat, q: nat)
    requires 0 < r <= MAX_COUNT && 0 < q <= MAX_COUNT
    ensures s * q > t * r <==> s as real / r as real > t as real / q as real
    ensures s * q == t * r <==> s as real / r as real == t as real / q as real
    ensures s * q > t * r ==> s as real / r as real - t as real / q as real >= GAP
  {
    var x, y, p := s as real / r as real, t as real / q as real, r as real * q as real;
    CrossProduct(s, r, q);
    CrossProduct(t, q, r);
    assert q as real * r as real == p;
    assert p > 0.0;
    MultiplesCompare(x, y, p);
    if s * q > t * r {
      assert (s * q) as real - (t * r) as real >= 1.0;
      assert (x - y) * p == x * p - y * p;
      ProductBound(r, q);
      assert p == (r * q) as real;
      GapFromProduct(x - y, p);
    }
  }

  lemma ProductBound(r: nat, q: nat)
    requires r <= MAX_COUNT && q <= MAX_COUNT
    ensures r * q <= MAX_COUNT * MAX_COUNT
  {
    assert (MAX_COUNT - r) * q >= 0;
    assert (MAX_COUNT - r) * q == MAX_COUNT * q - r * q;
  }

  lemma GapFromProduct(d: real, p: real)
    requires d * p >= 1.0 && 0.0 < p <= MAX_COUNT as real * MAX_COUNT as real
    ensures d >= GAP
  {
    var n := MAX_COUNT as real * MAX_COUNT as real;
    assert d <= 0.0 ==> d * p <= 0.0;
    assert d * n >= d * p by { assert d * (n - p) >= 0.0; }
    assert GAP * n == 1.0;
    ProductsOfReals(GAP, d, n);
  }

  lemma RoundingKeepsComparisons(s: nat, r: nat, t: nat, q: nat, round: real -> real)
    requires 0 < r <= MAX_COUNT && 0 < q <= MAX_COUNT && RoundsFinely(round)
    ensures var x, y := s as real / r as real, t as real / q as real;
      (round(x) > round(y) <==> s * q > t * r) && (round(x) == round(y) <==> s * q == t * r)
  {
    FractionsCompare(s, r, t, q);
    FractionsCompare(t, q, s, r);
    var x, y := s as real / r as real, t as real / q as real;
    assert -GAP / 2.0 < round(x) - x < GAP / 2.0;
    assert -GAP / 2.0 < round(y) - y < GAP / 2.0;
  }

  /** Whatever the database rounds, the recommended order is the exact order of the fractions. */
  lemma RecommendedOrderIsExact(a: Match, b: Match, round: real -> real)
    requires a.Valid() && b.Valid() && RoundsFinely(round)
    ensures RecommendedLess(a, b, round) <==> ExactLess(a, b)
  {
    if a.required > 0 && b.required > 0 {
      RoundingKeepsComparisons(a.satisfied, a.required, b.satisfied, b.required, round);
    }
  }

  // ---------------------------------------------------------------- what the orders mean

  /** Possible before fixable before anything else. */
  ghost predicate BetterVerdict(a: Match, b: Match) {
    (a.verdict.Possible? && !b.verdict.Possible?) || (a.verdict.Fixable? && !b.verdict.Possible? && !b.verdict.Fixable?)
  }

  ghost predicate ClosesSooner(a: Match, b: Match) {
    a.closesAt.Some? && b.closesAt.Some? && a.closesAt.value < b.closesAt.value
  }

  ghost predicate PostedLater(a: Match, b: Match) {
    a.postedAt.Some? && (b.postedAt.None? || a.postedAt.value > b.postedAt.value)
  }

  /** A greater share of satisfied requirements, by exact fractions; having requirements counts as a share. */
  ghost predicate GreaterShare(a: Match, b: Match) {
    a.required > 0 && (b.required == 0 || a.satisfied as real / a.required as real > b.satisfied as real / b.required as real)
  }

  /** In every order a match with a deadline comes before one without. */
  lemma UndatedComeLast(a: Match, b: Match, round: real -> real)
    requires a.closesAt.Some? && b.closesAt.None?
    ensures DeadlineLess(a, b) && RecentLess(a, b) && RecommendedLess(a, b, round)
  {
  }

  /** Among matches alike in having a deadline, the deadline order is verdict, then close, then id. */
  lemma DeadlineOrderMeans(a: Match, b: Match)
    requires a.closesAt.Some? <==> b.closesAt.Some?
    ensures DeadlineLess(a, b) <==>
      || BetterVerdict(a, b)
      || (!BetterVerdict(b, a) && (ClosesSooner(a, b) || (!ClosesSooner(b, a) && LexLess(a.bidId, b.bidId))))
  {
  }

  /** The recent order is verdict, then posting from the latest, then id. */
  lemma RecentOrderMeans(a: Match, b: Match)
    requires a.closesAt.Some? <==> b.closesAt.Some?
    ensures RecentLess(a, b) <==>
      || BetterVerdict(a, b)
      || (!BetterVerdict(b, a) && (PostedLater(a, b) || (!PostedLater(b, a) && LexLess(a.bidId, b.bidId))))
  {
  }

  /** The recommended order is the exact share, then the number of requirements, then close, then id, whatever the verdicts. */
  lemma RecommendedOrderMeans(a: Match, b: Match, round: real -> real)
    requires a.Valid() && b.Valid() && RoundsFinely(round) && (a.closesAt.Some? <==> b.closesAt.Some?)
    ensures RecommendedLess(a, b, round) <==>
      || GreaterShare(a, b)
      || (!GreaterShare(b, a)
          && (a.required > b.required
              || (a.required == b.required && (ClosesSooner(a, b) || (!ClosesSooner(b, a) && LexLess(a.bidId, b.bidId))))))
  {
    RecommendedOrderIsExact(a, b, round);
    if a.required > 0 && b.required > 0 {
      FractionsCompare(a.satisfied, a.required, b.satisfied, b.required);
      FractionsCompare(b.satisfied, b.required, a.satisfied, a.required);
    }
  }

  // ---------------------------------------------------------------- the orders are strict and total

  lemma CloseThenIdIsStrict(a: Match, b: Match, c: Match)
    ensures CloseThenId(a, b) ==> !CloseThenId(b, a)
    ensures a.bidId != b.bidId ==> CloseThenId(a, b) || CloseThenId(b, a)
    ensures CloseThenId(a, b) && CloseThenId(b, c) ==> CloseThenId(a, c)
  {
    LexLessIsTotal(a.bidId, b.bidId);
    if LexLess(a.bidId, b.bidId) && LexLess(b.bidId, c.bidId) {
      LexLessIsTransitive(a.bidId, b.bidId, c.bidId);
    }
  }

  ghost predicate DistinctBids(rows: seq<Match>) {
    forall i, j :: 0 <= i < j < |rows| ==> rows[i].bidId != rows[j].bidId
  }

  /** For any rounding at all, the recommended order is strict and total over distinct bids. */
  lemma RecommendedOrderIsTotal(rows: seq<Match>, round: real -> real)
    requires DistinctBids(rows)
    ensures StrictTotalOn((a: Match, b: Match) => RecommendedLess(a, b, round), rows)
  {
    var less: Less<Match> := (a, b) => RecommendedLess(a, b, round);
    forall a, b ensures less(a, b) ==> !less(b, a) {
      CloseThenIdIsStrict(a, b, b);
    }
    forall a, b, c | less(a, b) && less(b, c) ensures less(a, c) {
      CloseThenIdIsStrict(a, b, c);
    }
    forall i, j | 0 <= i < j < |rows| ensures less(rows[i], rows[j]) || less(rows[j], rows[i]) {
      CloseThenIdIsStrict(rows[i], rows[j], rows[j]);
    }
  }

  lemma DeadlineOrderIsTotal(rows: seq<Match>)
    requires DistinctBids(rows)
    ensures StrictTotalOn((a: Match, b: Match) => DeadlineLess(a, b), rows)
  {
    var less: Less<Match> := (a, b) => DeadlineLess(a, b);
    forall a, b ensures less(a, b) ==> !less(b, a) {
      CloseThenIdIsStrict(a, b, b);
    }
    forall a, b, c | less(a, b) && less(b, c) ensures less(a, c) {
      CloseThenIdIsStrict(a, b, c);
    }
    forall i, j | 0 <= i < j < |rows| ensures less(rows[i], rows[j]) || less(rows[j], rows[i]) {
      CloseThenIdIsStrict(rows[i], rows[j], rows[j]);
    }
  }

  lemma RecentOrderIsTotal(rows: seq<Match>)
    requires DistinctBids(rows)
    ensures StrictTotalOn((a: Match, b: Match) => RecentLess(a, b), rows)
  {
    var less: Less<Match> := (a, b) => RecentLess(a, b);
    forall a, b ensures less(a, b) ==> !less(b, a) {
      LexLessIsTotal(a.bidId, b.bidId);
    }
    forall a, b, c | less(a, b) && less(b, c) ensures less(a, c) {
      if LexLess(a.bidId, b.bidId) && LexLess(b.bidId, c.bidId) {
        LexLessIsTransitive(a.bidId, b.bidId, c.bidId);
      }
    }
    forall i, j | 0 <= i < j < |rows| ensures less(rows[i], rows[j]) || less(rows[j], rows[i]) {
      LexLessIsTotal(rows[i].bidId, rows[j].bidId);
    }
  }

  /** Hence every page of recommendations is the one the exact fractions determine. */
  lemma RecommendedPagesAreExact(rows: seq<Match>, round: real -> real, exactRound: real -> real, limit: nat, offset: nat)
    requires DistinctBids(rows) && forall m :: m in rows ==> m.Valid()
    requires RoundsFinely(round) && RoundsFinely(exactRound)
    ensures var sorted := SortBy((a, b) => RecommendedLess(a, b, round), rows);
      && Page(sorted, limit, offset) == Page(SortBy((a, b) => RecommendedLess(a, b, exactRound), rows), limit, offset)
      && multiset(sorted) == multiset(rows)
      && forall i, j :: 0 <= i < j < |sorted| ==> ExactLess(sorted[i], sorted[j])
  {
    var less: Less<Match> := (a, b) => RecommendedLess(a, b, round);
    var other: Less<Match> := (a, b) => RecommendedLess(a, b, exactRound);
    RecommendedOrderIsTotal(rows, round);
    RecommendedOrderIsTotal(rows, exactRound);
    forall a, b | a in rows && b in rows ensures less(a, b) <==> other(a, b) {
      RecommendedOrderIsExact(a, b, round);
      RecommendedOrderIsExact(a, b, exactRound);
    }
    SortByAgrees(less, other, rows);
    SortBySorts(less, rows);
    var sorted := SortBy(less, rows);
    forall i, j | 0 <= i < j < |sorted| ensures ExactLess(sorted[i], sorted[j]) {
      assert sorted[i] in multiset(sorted) && sorted[j] in multiset(sorted);
      RecommendedOrderIsExact(sorted[i], sorted[j], round);
    }
  }
}
