/**
 Recommendation scores (app/services/recommendation_scoring.py) and the ranking built on
 them (app/services/recommendation_service.py), over exact reals.
 */
module Recommendation {
  import opened Wrappers
  import opened Ordering

  // ---------------------------------------------------------------- scores

  const W_INTEREST: real := 0.35
  const W_ELIGIBLE: real := 0.25
  const W_CAPABILITY: real := 0.20
  const W_SCALE: real := 0.10
  const W_FRESH: real := 0.10

  const URGENT_DAYS: real := 14.0
  const TOO_LATE_DAYS: real := 2.0

  datatype Source = Scrap | Performance | Item | License | Other

  datatype Signal = Signal(text: string, source: Source)

  function SignalWeight(s: Source): real {
    match s
    case Scrap => 1.0
    case Performance => 0.7
    case Item => 0.5
    case License => 0.4
    case Other => 0.4
  }

  function Min(a: real, b: real): real { if a < b then a else b }

  function Max(a: real, b: real): real { if a < b then b else a }

  /** A required licence: its code field, and the codes found in its raw name. */
  datatype LicenseItem = NotARecord | LicenseItem(code: Option<string>, codesInName: set<string>)

  type Strip = string -> string

  /** A code that is present and not empty is used; otherwise the codes in the name. */
  function CodesOf(item: LicenseItem, strip: Strip): set<string> {
    match item
    case NotARecord => {}
    case LicenseItem(code, codesInName) =>
      if code.Some? && code.value != [] then {strip(code.value)} else codesInName
  }

  method ExtractLicenseCodes(items: seq<LicenseItem>, strip: Strip) returns (codes: set<string>)
    ensures codes == RequiredCodes(items, strip)
  {
    codes := {};
    var i := 0;
    while i < |items|
      invariant 0 <= i <= |items| && codes == RequiredCodes(items[..i], strip)
    {
      assert items[..i + 1][..i] == items[..i];
      var item := items[i];
      if item.LicenseItem? {
        if item.code.Some? && item.code.value != [] {
          codes := codes + {strip(item.code.value)};
        } else {
          codes := codes + item.codesInName;
        }
      }
      i := i + 1;
    }
    assert items[..i] == items;
  }

  function RequiredCodes(items: seq<LicenseItem>, strip: Strip): set<string> {
    if items == [] then {} else RequiredCodes(items[..|items| - 1], strip) + CodesOf(items[|items| - 1], strip)
  }

  /** The item requires the code: in its own field, or in its name when that field is missing or empty. */
  ghost predicate Requires(item: LicenseItem, strip: Strip, code: string) {
    && item.LicenseItem?
    && if item.code.None? || item.code.value == "" then code in item.codesInName else code == strip(item.code.value)
  }

  /** A code is required exactly when some item requires it. */
  lemma {:induction false} RequiredCodesAreThoseOfTheItems(items: seq<LicenseItem>, strip: Strip, code: string)
    ensures code in RequiredCodes(items, strip) <==> exists i :: 0 <= i < |items| && Requires(items[i], strip, code)
  {
    if items != [] {
      RequiredCodesAreThoseOfTheItems(items[..|items| - 1], strip, code);
    }
  }

  function Capability(held: set<string>, required: set<string>): real {
    if required == {} then 0.5
    else if held == {} then 0.0
    else |held * required| as real / |required| as real
  }

  datatype Verdict = Possible | Fixable | Unclear | Unknown

  function VerdictScore(v: Verdict): real {
    match v
    case Possible => 1.0
    case Fixable => 0.6
    case Unclear => 0.25
    case Unknown => 0.25
  }

  function Eligibility(v: Verdict, required: int, satisfied: int): real {
    if required > 0 then VerdictScore(v) * 0.5 + Min(1.0, satisfied as real / required as real) * 0.5
    else VerdictScore(v)
  }

  function Largest(amounts: seq<int>): int
    requires amounts != []
  {
    if |amounts| == 1 then amounts[0]
    else if Largest(amounts[1..]) < amounts[0] then amounts[0] else Largest(amounts[1..])
  }

  /** `budget` is the budget, or else the estimated price; zero counts as missing. */
  function Scale(budget: Option<int>, amounts: seq<int>): real {
    if budget.None? || budget.value == 0 || amounts == [] || Largest(amounts) <= 0 then 0.5
    else RatioScore(budget.value as real / Largest(amounts) as real)
  }

  function RatioScore(ratio: real): real {
    if 0.3 <= ratio <= 2.0 then 1.0
    else if ratio < 0.3 then Max(0.3, ratio / 0.3)
    else Max(0.0, 1.0 - (ratio - 2.0) / 8.0)
  }

  /** Days until the close, if it is known. */
  function Freshness(days: Option<real>): real {
    if days.None? then 0.5
    else if days.value < 0.0 then 0.0
    else if days.value <= TOO_LATE_DAYS then 0.3
    else if days.value <= URGENT_DAYS then 1.0
    else Max(0.4, 1.0 - (days.value - URGENT_DAYS) / 60.0)
  }

  function Interest(hit: Option<(real, Signal)>): real {
    if hit.None? then 0.0 else Min(1.0, Max(0.0, hit.value.0)) * SignalWeight(hit.value.1.source)
  }

  /** What a candidate bid and the company bring to the score, apart from interest. */
  datatype Facts = Facts(
    verdict: Verdict, required: int, satisfied: int, held: set<string>, codes: set<string>,
    budget: Option<int>, amounts: seq<int>, days: Option<real>)

  function Total(interest: real, f: Facts): real {
    interest * W_INTEREST + Eligibility(f.verdict, f.required, f.satisfied) * W_ELIGIBLE
    + Capability(f.held, f.codes) * W_CAPABILITY + Scale(f.budget, f.amounts) * W_SCALE + Freshness(f.days) * W_FRESH
  }

  ghost predicate Unit(x: real) {
    0.0 <= x <= 1.0
  }

  lemma SubsetSize(a: set<string>, b: set<string>)
    requires a <= b
    ensures |a| <= |b|
  {
    assert b == a + (b - a);
  }

  lemma CapabilityInUnit(held: set<string>, required: set<string>)
    ensures Unit(Capability(held, required))
  {
    SubsetSize(held * required, required);
    if required != {} {
      QuotientBounds(|held * required| as real, |required| as real, |required| as real);
    }
  }

  /** Quotients by one positive number keep the order of their numerators. */
  lemma QuotientBounds(x: real, y: real, d: real)
    requires 0.0 <= x <= y && d > 0.0
    ensures 0.0 <= x / d <= y / d && d / d == 1.0
  {
  }

  lemma EligibilityInUnit(v: Verdict, required: int, satisfied: int)
    requires satisfied >= 0
    ensures Unit(Eligibility(v, required, satisfied))
  {
    if required > 0 {
      QuotientBounds(0.0, satisfied as real, required as real);
    }
  }

  lemma ScaleInUnit(budget: Option<int>, amounts: seq<int>)
    ensures Unit(Scale(budget, amounts))
  {
  }

  lemma FreshnessInUnit(days: Option<real>)
    ensures Unit(Freshness(days))
  {
  }

  lemma InterestInUnit(hit: Option<(real, Signal)>)
    ensures Unit(Interest(hit))
  {
  }

  /** Every axis and the total lie between zero and one. */
  lemma TotalInUnit(hit: Option<(real, Signal)>, f: Facts)
    requires f.satisfied >= 0
    ensures Unit(Total(Interest(hit), f))
  {
    InterestInUnit(hit);
    EligibilityInUnit(f.verdict, f.required, f.satisfied);
    CapabilityInUnit(f.held, f.codes);
    ScaleInUnit(f.budget, f.amounts);
    FreshnessInUnit(f.days);
  }

  lemma CapabilityIsMonotone(held: set<string>, more: set<string>, required: set<string>)
    requires held <= more
    ensures Capability(held, required) <= Capability(more, required)
  {
    if required != {} {
      assert held * required <= more * required;
      SubsetSize(held * required, more * required);
      assert held != {} ==> more != {};
      QuotientBounds(|held * required| as real, |more * required| as real, |required| as real);
    }
  }

  lemma EligibilityIsMonotone(v: Verdict, required: int, satisfied: int, more: int)
    requires 0 <= satisfied <= more
    ensures Eligibility(v, required, satisfied) <= Eligibility(v, required, more)
  {
    if required > 0 {
      QuotientBounds(satisfied as real, more as real, required as real);
    }
  }

  /** Meeting more requirements, holding more licences or a higher interest never lowers the total. */
  lemma TotalIsMonotone(interest: real, more: real, f: Facts, satisfied: int, held: set<string>)
    requires interest <= more && 0 <= f.satisfied <= satisfied && f.held <= held
    ensures Total(interest, f) <= Total(more, f.(satisfied := satisfied, held := held))
  {
    CapabilityIsMonotone(f.held, held, f.codes);
    EligibilityIsMonotone(f.verdict, f.required, f.satisfied, satisfied);
  }

  /** The capability axis counts the required licences that are held; one more adds its share. */
  lemma CapabilityIsTheShareHeld(held: set<string>, required: set<string>, code: string)
    requires required != {}
    ensures Capability(held, required) == 1.0 <==> required <= held
    ensures Capability(held, required) == 0.0 <==> required !! held
    ensures code in required && code !in held ==>
      (Capability(held + {code}, required) - Capability(held, required)) * |required| as real == 1.0
  {
    SubsetSize(held * required, required);
    QuotientBounds(|held * required| as real, |required| as real, |required| as real);
    if held * required != required {
      assert required == held * required + (required - held * required);
      ProperQuotient(|held * required|, |required|);
    }
    if code in required && code !in held {
      assert (held + {code}) * required == held * required + {code};
    }
  }

  lemma ProperQuotient(x: nat, d: nat)
    requires x < d
    ensures x as real / d as real < 1.0 && (x as real / d as real == 0.0 <==> x == 0)
  {
  }

  /** A verdict counts for half where there are requirements; the other half is the share satisfied, up to all. */
  lemma EligibilityMeans(v: Verdict, required: int, satisfied: int)
    requires satisfied >= 0
    ensures Eligibility(v, required, satisfied) == 1.0 <==> v.Possible? && (required <= 0 || satisfied >= required)
    ensures required > 0 && satisfied < required ==>
      (Eligibility(v, required, satisfied + 1) - Eligibility(v, required, satisfied)) * required as real == 0.5
    ensures required <= 0 ==> Eligibility(v, required, satisfied) == Eligibility(v, 1, 1) * 2.0 - 1.0
  {
    if required > 0 {
      QuotientBounds(satisfied as real, (satisfied + 1) as real, required as real);
      if satisfied < required {
        ProperQuotient(satisfied, required);
        QuotientBounds((satisfied + 1) as real, required as real, required as real);
      } else {
        QuotientBounds(required as real, satisfied as real, required as real);
      }
    }
  }

  /** With all else equal a possible bid scores above a fixable one, and that above one to be checked or without a verdict. */
  lemma BetterVerdictScoresHigher(interest: real, f: Facts)
    ensures Total(interest, f.(verdict := Possible)) > Total(interest, f.(verdict := Fixable))
    ensures Total(interest, f.(verdict := Fixable)) > Total(interest, f.(verdict := Unclear))
    ensures Total(interest, f.(verdict := Unclear)) == Total(interest, f.(verdict := Unknown))
  {
  }

  lemma {:induction false} LargestIsMaximum(amounts: seq<int>)
    requires amounts != []
    ensures Largest(amounts) in amounts && forall i :: 0 <= i < |amounts| ==> amounts[i] <= Largest(amounts)
  {
    if |amounts| > 1 {
      LargestIsMaximum(amounts[1..]);
    }
  }

  ghost predicate Comparable(budget: Option<int>, amounts: seq<int>) {
    budget.Some? && budget.value != 0 && exists i :: 0 <= i < |amounts| && amounts[i] > 0
  }

  lemma ComparableIffPositive(budget: Option<int>, amounts: seq<int>)
    ensures Comparable(budget, amounts) <==> budget.Some? && budget.value != 0 && amounts != [] && Largest(amounts) > 0
  {
    if amounts != [] {
      LargestIsMaximum(amounts);
      assert Largest(amounts) > 0 ==> exists i :: 0 <= i < |amounts| && amounts[i] > 0;
    }
  }

  /**
   The scale axis is one exactly for budgets from three tenths to twice the largest contract,
   zero exactly from ten times it on, and a half when there is nothing to compare.
   */
  lemma ScaleMeans(budget: Option<int>, amounts: seq<int>)
    ensures !Comparable(budget, amounts) ==> Scale(budget, amounts) == 0.5
    ensures Comparable(budget, amounts) ==>
      Largest(amounts) > 0 && Scale(budget, amounts) == RatioScore(budget.value as real / Largest(amounts) as real)
    ensures Comparable(budget, amounts) ==>
      var b, top := budget.value as real, Largest(amounts) as real;
      && (Scale(budget, amounts) == 1.0 <==> 0.3 * top <= b <= 2.0 * top)
      && (Scale(budget, amounts) == 0.0 <==> b >= 10.0 * top)
  {
    ComparableIffPositive(budget, amounts);
    if Comparable(budget, amounts) {
      ScaleBounds(budget.value as real, Largest(amounts) as real);
    }
  }

  lemma ScaleBounds(b: real, top: real)
    requires top > 0.0
    ensures b / top < 0.3 <==> b < 0.3 * top
    ensures b / top > 2.0 <==> b > 2.0 * top
    ensures b / top >= 10.0 <==> b >= 10.0 * top
  {
    assert b == b / top * top;
  }

  /** Away from that range it falls with the ratio: below it to no less than 0.3, above it by an eighth for each further multiple. */
  lemma RatioScoreFallsAwayFromTheRange(small: real, large: real)
    requires small <= large
    ensures large <= 2.0 ==> 0.3 <= RatioScore(small) <= RatioScore(large)
    ensures small >= 0.3 ==> RatioScore(small) >= RatioScore(large)
    ensures 2.0 <= small && large <= 10.0 ==> (RatioScore(small) - RatioScore(large)) * 8.0 == large - small
    ensures 0.09 <= small && large < 0.3 ==> (RatioScore(large) - RatioScore(small)) * 0.3 == large - small
  {
  }

  /**
   The freshness axis is one exactly from more than two to fourteen days before the close, zero
   exactly after it, and falls by a sixtieth a day beyond fourteen days, down to 0.4.
   */
  lemma FreshnessMeans(d: real, later: real)
    requires d <= later
    ensures Freshness(Some(d)) == 1.0 <==> 2.0 < d <= 14.0
    ensures Freshness(Some(d)) == 0.0 <==> d < 0.0
    ensures 0.0 <= d <= 2.0 ==> Freshness(Some(d)) < Freshness(Some(later)) || later <= 2.0
    ensures d >= 14.0 && later <= 50.0 ==> (Freshness(Some(d)) - Freshness(Some(later))) * 60.0 == later - d
    ensures later >= 50.0 ==> Freshness(Some(later)) == 0.4
    ensures Freshness(None) == Freshness(Some(44.0))
  {
  }

  /**
   Only a bid that is best on every axis reaches one; interest outweighs eligibility, that
   capability, and that scale and freshness, which weigh alike.
   */
  lemma AxesWeighInOrder(i: real, f: Facts, j: real, g: Facts)
    requires Unit(i) && Unit(j) && f.satisfied >= 0 && g.satisfied >= 0
    ensures Total(i, f) == 1.0 <==>
      && i == 1.0 && Eligibility(f.verdict, f.required, f.satisfied) == 1.0 && Capability(f.held, f.codes) == 1.0
      && Scale(f.budget, f.amounts) == 1.0 && Freshness(f.days) == 1.0
    ensures
      var di := i - j;
      var de := Eligibility(f.verdict, f.required, f.satisfied) - Eligibility(g.verdict, g.required, g.satisfied);
      var dc := Capability(f.held, f.codes) - Capability(g.held, g.codes);
      var ds := Scale(f.budget, f.amounts) - Scale(g.budget, g.amounts);
      var df := Freshness(f.days) - Freshness(g.days);
      && (di == -de > 0.0 && dc == ds == df == 0.0 ==> Total(i, f) > Total(j, g))
      && (de == -dc > 0.0 && di == ds == df == 0.0 ==> Total(i, f) > Total(j, g))
      && (dc == -ds > 0.0 && di == de == df == 0.0 ==> Total(i, f) > Total(j, g))
      && (ds == -df && di == de == dc == 0.0 ==> Total(i, f) == Total(j, g))
  {
    EligibilityInUnit(f.verdict, f.required, f.satisfied);
    CapabilityInUnit(f.held, f.codes);
    ScaleInUnit(f.budget, f.amounts);
    FreshnessInUnit(f.days);
  }

  /** The same hit counts for more from a stronger source. */
  lemma StrongerSourceScoresHigher(score: real, text: string, f: Facts)
    requires score > 0.0
    ensures var scored := (s: Source) => Total(Interest(Some((score, Signal(text, s)))), f);
      && scored(Scrap) > scored(Performance) > scored(Item) > scored(License)
      && scored(License) == scored(Other) > Total(Interest(None), f)
  {
  }

  // ---------------------------------------------------------------- folding the signals

  datatype Hit = Hit(bidId: string, score: real, signal: Signal)

  function Weighted(score: real, s: Signal): real {
    score * SignalWeight(s.source)
  }

  type Best = map<string, (real, Signal)>

  function Better(best: Best, h: Hit): Best {
    if h.bidId !in best || Weighted(h.score, h.signal) > Weighted(best[h.bidId].0, best[h.bidId].1)
    then best[h.bidId := (h.score, h.signal)] else best
  }

  /** The fold over all hits in order, ignoring bids outside the candidates. */
  function BestOf(hits: seq<Hit>, candidates: set<string>): Best {
    if hits == [] then map[]
    else
      var h := hits[|hits| - 1];
      var best := BestOf(hits[..|hits| - 1], candidates);
      if h.bidId in candidates then Better(best, h) else best
  }

  /** The hits of one signal, with the signal. */
  function HitsOf(hits: seq<(string, real)>, s: Signal): seq<Hit> {
    if hits == [] then [] else HitsOf(hits[..|hits| - 1], s) + [Hit(hits[|hits| - 1].0, hits[|hits| - 1].1, s)]
  }

  /** All hits in the order of the signals; the search answers one list for each signal. */
  function Tagged(signals: seq<Signal>, hitsBySignal: seq<seq<(string, real)>>): seq<Hit>
    requires |signals| == |hitsBySignal|
  {
    if signals == [] then []
    else
      var n := |signals| - 1;
      Tagged(signals[..n], hitsBySignal[..n]) + HitsOf(hitsBySignal[n], signals[n])
  }

  lemma BestOfNext(before: seq<Hit>, h: Hit, candidates: set<string>)
    ensures BestOf(before + [h], candidates)
         == if h.bidId in candidates then Better(BestOf(before, candidates), h) else BestOf(before, candidates)
  {
    assert (before + [h])[..|before|] == before;
  }

  method BestInterest(signals: seq<Signal>, hitsBySignal: seq<seq<(string, real)>>, candidates: set<string>) returns (best: Best)
    requires |signals| == |hitsBySignal|
    ensures best == BestOf(Tagged(signals, hitsBySignal), candidates)
  {
    best := map[];
    var i := 0;
    while i < |signals|
      invariant 0 <= i <= |signals|
      invariant best == BestOf(Tagged(signals[..i], hitsBySignal[..i]), candidates)
    {
      assert signals[..i + 1][..i] == signals[..i] && hitsBySignal[..i + 1][..i] == hitsBySignal[..i];
      best := FoldHits(best, hitsBySignal[i], signals[i], candidates, Tagged(signals[..i], hitsBySignal[..i]));
      i := i + 1;
    }
    assert signals[..i] == signals && hitsBySignal[..i] == hitsBySignal;
  }

  /** The inner loop, over the hits of one signal. */
  method FoldHits(start: Best, hits: seq<(string, real)>, signal: Signal, candidates: set<string>, ghost before: seq<Hit>)
    returns (best: Best)
    requires start == BestOf(before, candidates)
    ensures best == BestOf(before + HitsOf(hits, signal), candidates)
  {
    best := start;
    assert before + HitsOf(hits[..0], signal) == before;
    var j := 0;
    while j < |hits|
      invariant 0 <= j <= |hits| && best == BestOf(before + HitsOf(hits[..j], signal), candidates)
    {
      var h := Hit(hits[j].0, hits[j].1, signal);
      assert hits[..j + 1][..j] == hits[..j];
      assert before + HitsOf(hits[..j + 1], signal) == before + HitsOf(hits[..j], signal) + [h];
      BestOfNext(before + HitsOf(hits[..j], signal), h, candidates);
      if h.bidId in candidates {
        best := Better(best, h);
      }
      j := j + 1;
    }
    assert hits[..j] == hits;
  }

  function HitOf(best: Best, bidId: string): Option<(real, Signal)> {
    if bidId in best then Some(best[bidId]) else None
  }

  /** The kept hit of a bid has the greatest weighted score among its hits. */
  lemma {:induction false} BestOfIsGreatest(hits: seq<Hit>, candidates: set<string>, bidId: string)
    requires bidId in candidates
    ensures var best := BestOf(hits, candidates);
      && (bidId in best <==> exists i :: 0 <= i < |hits| && hits[i].bidId == bidId)
      && (bidId in best ==> exists i :: 0 <= i < |hits| && hits[i] == Hit(bidId, best[bidId].0, best[bidId].1))
      && forall i :: 0 <= i < |hits| && hits[i].bidId == bidId ==>
           bidId in best && Weighted(hits[i].score, hits[i].signal) <= Weighted(best[bidId].0, best[bidId].1)
  {
    if hits != [] {
      var n := |hits| - 1;
      BestOfIsGreatest(hits[..n], candidates, bidId);
      var before := BestOf(hits[..n], candidates);
      if bidId in before && BestOf(hits, candidates)[bidId] == before[bidId] {
        var i :| 0 <= i < n && hits[..n][i] == Hit(bidId, before[bidId].0, before[bidId].1);
        assert hits[i] == Hit(bidId, before[bidId].0, before[bidId].1);
      }
    }
  }

  /** Hit `i` weighs as much as any on its bid, and more than those before it. */
  ghost predicate FirstGreatest(hits: seq<Hit>, i: int) {
    && 0 <= i < |hits|
    && forall j :: 0 <= j < |hits| && hits[j].bidId == hits[i].bidId ==> Yields(hits[j], hits[i], j < i)
  }

  ghost predicate Yields(a: Hit, b: Hit, strictly: bool) {
    var x, y := Weighted(a.score, a.signal), Weighted(b.score, b.signal);
    x < y || (x == y && !strictly)
  }

  lemma YieldsIsTransitive(a: Hit, b: Hit, c: Hit)
    ensures Yields(a, b, false) && Yields(b, c, true) ==> Yields(a, c, true)
    ensures Yields(a, a, false)
  {
  }

  /** One more hit: it becomes the first greatest if it weighs more than the one before, else that one stays. */
  lemma FirstGreatestOfNext(front: seq<Hit>, last: Hit, i: nat)
    requires FirstGreatest(front, i)
    ensures last.bidId != front[i].bidId || !Yields(front[i], last, true) ==> FirstGreatest(front + [last], i)
    ensures last.bidId == front[i].bidId && Yields(front[i], last, true) ==> FirstGreatest(front + [last], |front|)
  {
    var hits, kept := front + [last], front[i];
    forall j | 0 <= j < |hits| && hits[j].bidId == kept.bidId
      ensures last.bidId != kept.bidId || !Yields(kept, last, true) ==> Yields(hits[j], kept, j < i)
      ensures last.bidId == kept.bidId && Yields(kept, last, true) ==> Yields(hits[j], last, j < |front|)
    {
      if j < |front| {
        assert hits[j] == front[j] && Yields(front[j], kept, j < i);
        YieldsIsTransitive(hits[j], kept, last);
      } else {
        YieldsIsTransitive(last, last, last);
      }
    }
  }

  /** Among hits of equal weight the first one stays. */
  lemma {:induction false} FirstGreatestIsKept(hits: seq<Hit>, candidates: set<string>, bidId: string)
    requires bidId in candidates && bidId in BestOf(hits, candidates)
    ensures exists i :: FirstGreatest(hits, i) && hits[i] == Hit(bidId, BestOf(hits, candidates)[bidId].0, BestOf(hits, candidates)[bidId].1)
  {
    var n := |hits| - 1;
    var front, last, before := hits[..n], hits[n], BestOf(hits[..n], candidates);
    assert hits == front + [last];
    if bidId !in before {
      BestOfIsGreatest(front, candidates, bidId);
      assert forall j :: 0 <= j < n ==> front[j].bidId != bidId;
      assert FirstGreatest(hits, n);
    } else {
      FirstGreatestIsKept(front, candidates, bidId);
      var i :| FirstGreatest(front, i) && front[i] == Hit(bidId, before[bidId].0, before[bidId].1);
      FirstGreatestOfNext(front, last, i);
      assert hits[i] == front[i] && hits[n] == last;
    }
  }

  /** With scores of at most one, a larger weighted score is a larger interest. */
  lemma InterestFollowsWeight(x: real, s: Signal, y: real, t: Signal)
    requires x <= 1.0 && y <= 1.0 && Weighted(x, s) <= Weighted(y, t)
    ensures Interest(Some((x, s))) <= Interest(Some((y, t)))
  {
  }

  /** The kept signal gives the maximum total over all hits on the bid, so an extra signal never lowers it. */
  lemma BestSignalMaximisesTotal(hits: seq<Hit>, candidates: set<string>, bidId: string, f: Facts)
    requires bidId in candidates && forall i :: 0 <= i < |hits| ==> hits[i].score <= 1.0
    ensures var kept := Total(Interest(HitOf(BestOf(hits, candidates), bidId)), f);
      && (forall i :: 0 <= i < |hits| && hits[i].bidId == bidId ==>
            Total(Interest(Some((hits[i].score, hits[i].signal))), f) <= kept)
      && Total(Interest(None), f) <= kept
  {
    BestOfIsGreatest(hits, candidates, bidId);
    var best := BestOf(hits, candidates);
    if bidId in best {
      forall i | 0 <= i < |hits| && hits[i].bidId == bidId
        ensures Interest(Some((hits[i].score, hits[i].signal))) <= Interest(Some(best[bidId]))
      {
        InterestFollowsWeight(hits[i].score, hits[i].signal, best[bidId].0, best[bidId].1);
      }
      InterestInUnit(Some(best[bidId]));
    }
  }

  lemma ExtraSignalNeverLowers(hits: seq<Hit>, extra: Hit, candidates: set<string>, bidId: string, f: Facts)
    requires bidId in candidates && extra.score <= 1.0 && forall i :: 0 <= i < |hits| ==> hits[i].score <= 1.0
    ensures Total(Interest(HitOf(BestOf(hits, candidates), bidId)), f)
         <= Total(Interest(HitOf(BestOf(hits + [extra], candidates), bidId)), f)
  {
    var more := hits + [extra];
    BestOfIsGreatest(hits, candidates, bidId);
    BestSignalMaximisesTotal(more, candidates, bidId, f);
    var best := BestOf(hits, candidates);
    if bidId in best {
      var i :| 0 <= i < |hits| && hits[i] == Hit(bidId, best[bidId].0, best[bidId].1);
      assert more[i] == hits[i];
    }
  }

  lemma {:induction false} OnlyCandidatesAreKept(hits: seq<Hit>, candidates: set<string>)
    ensures forall id :: id in BestOf(hits, candidates) ==> id in candidates
  {
    if hits != [] {
      OnlyCandidatesAreKept(hits[..|hits| - 1], candidates);
    }
  }

  /** A heavier hit has less interest exactly when even its clipped score at full weight has less. */
  lemma HeavierIsLessIffTooLight(x: real, s: Signal, y: real, t: Signal)
    requires Weighted(x, s) > Weighted(y, t)
    ensures Interest(Some((x, s))) < Interest(Some((y, t))) <==> SignalWeight(s.source) < Interest(Some((y, t)))
    ensures SignalWeight(s.source) < Interest(Some((y, t))) ==> x > 1.0
  {
    assert Interest(Some((y, t))) <= Max(0.0, Weighted(y, t));
    assert x <= 1.0 ==> Interest(Some((x, s))) == Max(0.0, Weighted(x, s));
    assert x > 1.0 ==> Interest(Some((x, s))) == SignalWeight(s.source);
  }

  /** The extra hit displaces the one kept so far, although its signal weighs less than that one's interest. */
  predicate Displaces(best: Best, extra: Hit) {
    && extra.bidId in best
    && Weighted(extra.score, extra.signal) > Weighted(best[extra.bidId].0, best[extra.bidId].1)
    && SignalWeight(extra.signal.source) < Interest(Some(best[extra.bidId]))
  }

  /** The exact case in which an extra hit lowers a bid; its raw score is then above one. */
  lemma ExtraSignalLowersIffItDisplaces(hits: seq<Hit>, extra: Hit, candidates: set<string>, bidId: string, f: Facts)
    ensures Total(Interest(HitOf(BestOf(hits + [extra], candidates), bidId)), f)
          < Total(Interest(HitOf(BestOf(hits, candidates), bidId)), f)
       <==> extra.bidId == bidId && Displaces(BestOf(hits, candidates), extra)
    ensures Displaces(BestOf(hits, candidates), extra) ==> extra.score > 1.0
  {
    var best := BestOf(hits, candidates);
    BestOfNext(hits, extra, candidates);
    OnlyCandidatesAreKept(hits, candidates);
    if extra.bidId in best && Weighted(extra.score, extra.signal) > Weighted(best[extra.bidId].0, best[extra.bidId].1) {
      HeavierIsLessIffTooLight(extra.score, extra.signal, best[extra.bidId].0, best[extra.bidId].1);
    }
    InterestInUnit(HitOf(BestOf(hits + [extra], candidates), bidId));
  }

  /** For instance a hit of 2.0 on a licence after one of 0.7 on a scrap: the fold compares unclipped scores, the axis clips them. */
  lemma ScoresAboveOneCanLower(f: Facts)
    ensures
      var strong := Hit("b", 0.7, Signal("x", Scrap));
      var weak := Hit("b", 2.0, Signal("y", License));
      Total(Interest(HitOf(BestOf([strong] + [weak], {"b"}), "b")), f) < Total(Interest(HitOf(BestOf([strong], {"b"}), "b")), f)
  {
    var strong := Hit("b", 0.7, Signal("x", Scrap));
    var weak := Hit("b", 2.0, Signal("y", License));
    assert [strong][..0] == [];
    assert BestOf([strong], {"b"}) == map["b" := (0.7, strong.signal)];
    ExtraSignalLowersIffItDisplaces([strong], weak, {"b"}, "b", f);
  }

  // ---------------------------------------------------------------- ranking

  const MAX_SIGNALS: nat := 12

  /** An eligible candidate row: the bid, and what matching found for the company. */
  datatype Row = Row(
    bidId: string, title: Option<string>, verdict: Verdict, required: int, satisfied: int,
    codes: set<string>, budget: Option<int>, days: Option<real>)

  datatype Company = Company(signals: seq<Signal>, held: set<string>, amounts: seq<int>)

  type Catalogue = map<string, Row>

  /** The candidates by id; of several rows with one id the last one stays. */
  function CatalogueOf(rows: seq<Row>): Catalogue {
    if rows == [] then map[] else CatalogueOf(rows[..|rows| - 1])[rows[|rows| - 1].bidId := rows[|rows| - 1]]
  }

  /** The keys of that dictionary in insertion order. */
  function IdsOf(rows: seq<Row>): seq<string> {
    if rows == [] then []
    else
      var ids, id := IdsOf(rows[..|rows| - 1]), rows[|rows| - 1].bidId;
      if id in ids then ids else ids + [id]
  }

  lemma {:induction false} IdsAreTheKeys(rows: seq<Row>)
    ensures forall id :: id in IdsOf(rows) <==> id in CatalogueOf(rows)
    ensures forall i, j :: 0 <= i < j < |IdsOf(rows)| ==> IdsOf(rows)[i] != IdsOf(rows)[j]
    ensures forall id :: id in CatalogueOf(rows) ==> CatalogueOf(rows)[id].bidId == id && CatalogueOf(rows)[id] in rows
  {
    if rows != [] {
      IdsAreTheKeys(rows[..|rows| - 1]);
    }
  }

  /** A repeated id shows the data of its last row. */
  lemma {:induction false} LastRowWins(rows: seq<Row>, i: nat)
    requires i < |rows| && forall j :: i < j < |rows| ==> rows[j].bidId != rows[i].bidId
    ensures rows[i].bidId in CatalogueOf(rows) && CatalogueOf(rows)[rows[i].bidId] == rows[i]
  {
    if i < |rows| - 1 {
      LastRowWins(rows[..|rows| - 1], i);
    }
  }

  /** A candidate with its total, rounded in any fixed way. */
  datatype Scored = Scored(total: real, bid: Row)

  type Round = real -> real

  function FactsOf(row: Row, c: Company): Facts {
    Facts(row.verdict, row.required, row.satisfied, c.held, row.codes, row.budget, c.amounts, row.days)
  }

  function ScoreOf(row: Row, best: Best, c: Company, round: Round): Scored {
    Scored(round(Total(Interest(HitOf(best, row.bidId)), FactsOf(row, c))), row)
  }

  function ScoredOf(rows: seq<Row>, best: Best, c: Company, round: Round): seq<Scored> {
    var ids, candidates := IdsOf(rows), CatalogueOf(rows);
    IdsAreTheKeys(rows);
    seq(|ids|, i requires 0 <= i < |ids| => ScoreOf(candidates[ids[i]], best, c, round))
  }

  /** The sort key (-total, bid_id). */
  predicate Above(a: Scored, b: Scored) {
    a.total > b.total || (a.total == b.total && LexLess(a.bid.bidId, b.bid.bidId))
  }

  ghost predicate DistinctBids(scored: seq<Scored>) {
    forall i, j :: 0 <= i < j < |scored| ==> scored[i].bid.bidId != scored[j].bid.bidId
  }

  lemma AboveIsTotal(scored: seq<Scored>)
    requires DistinctBids(scored)
    ensures StrictTotalOn(Above, scored)
  {
    forall a, b ensures Above(a, b) ==> !Above(b, a) {
      LexLessIsTotal(a.bid.bidId, b.bid.bidId);
    }
    forall a, b, c | Above(a, b) && Above(b, c) ensures Above(a, c) {
      if LexLess(a.bid.bidId, b.bid.bidId) && LexLess(b.bid.bidId, c.bid.bidId) {
        LexLessIsTransitive(a.bid.bidId, b.bid.bidId, c.bid.bidId);
      }
    }
    forall i, j | 0 <= i < j < |scored| ensures Above(scored[i], scored[j]) || Above(scored[j], scored[i]) {
      LexLessIsTotal(scored[i].bid.bidId, scored[j].bid.bidId);
    }
  }

  /** strip().casefold() of a title. */
  type Normalise = string -> string

  function TitleOf(s: Scored, norm: Normalise): string {
    norm(if s.bid.title.Some? then s.bid.title.value else "")
  }

  function Titles(ranked: seq<Scored>, norm: Normalise): set<string> {
    set s | s in ranked && TitleOf(s, norm) != "" :: TitleOf(s, norm)
  }

  function Untitled(ranked: seq<Scored>, norm: Normalise): set<Scored> {
    set s | s in ranked && TitleOf(s, norm) == ""
  }

  /** One pass that drops every candidate whose non-blank title was seen before. */
  function Kept(ranked: seq<Scored>, norm: Normalise): seq<Scored> {
    if ranked == [] then []
    else
      var before, last := ranked[..|ranked| - 1], ranked[|ranked| - 1];
      if TitleOf(last, norm) != "" && TitleOf(last, norm) in Titles(before, norm) then Kept(before, norm)
      else Kept(before, norm) + [last]
  }

  function Take<T>(s: seq<T>, n: nat): seq<T> {
    if n < |s| then s[..n] else s
  }

  datatype Response = Response(candidateCount: nat, querySource: Option<Source>, items: seq<Scored>)

  function Ranking(rows: seq<Row>, c: Company, best: Best, round: Round): seq<Scored> {
    SortBy(Above, ScoredOf(rows, best, c, round))
  }

  function FirstSignals(c: Company): seq<Signal> {
    Take(c.signals, MAX_SIGNALS)
  }

  function BestFor(rows: seq<Row>, c: Company, hitsBySignal: seq<seq<(string, real)>>): Best
    requires |hitsBySignal| == |FirstSignals(c)|
  {
    BestOf(Tagged(FirstSignals(c), hitsBySignal), CatalogueOf(rows).Keys)
  }

  lemma {:induction false} KeptOfPrefix(ranked: seq<Scored>, norm: Normalise, i: nat)
    requires i <= |ranked|
    ensures Kept(ranked[..i], norm) <= Kept(ranked, norm)
  {
    if i < |ranked| {
      KeptOfPrefix(ranked[..|ranked| - 1], norm, i);
      assert ranked[..|ranked| - 1][..i] == ranked[..i];
    } else {
      assert ranked[..i] == ranked;
    }
  }

  method Recommend(rows: seq<Row>, c: Company, hitsBySignal: seq<seq<(string, real)>>, limit: int, norm: Normalise, round: Round)
    returns (response: Response)
    requires |hitsBySignal| == |FirstSignals(c)|
    ensures rows == [] ==> response == Response(0, None, [])
    ensures response.candidateCount == |CatalogueOf(rows)|
    ensures rows != [] && c.signals != [] ==> response.querySource == Some(c.signals[0].source)
    ensures c.signals == [] ==> response.querySource == None
    ensures var ranked := Ranking(rows, c, BestFor(rows, c, hitsBySignal), round);
      response.items == Take(Kept(ranked, norm), if limit < 1 then 1 else limit)
  {
    if rows == [] {
      return Response(0, None, []);
    }
    var signals := FirstSignals(c);
    var best := BestInterest(signals, hitsBySignal, CatalogueOf(rows).Keys);
    var ranked := Rank(rows, c, best, round);
    var items := FirstOfEachTitle(ranked, limit, norm);
    response := Response(|CatalogueOf(rows)|, if signals != [] then Some(signals[0].source) else None, items);
  }

  method Rank(rows: seq<Row>, c: Company, best: Best, round: Round) returns (ranked: seq<Scored>)
    ensures ranked == Ranking(rows, c, best, round)
  {
    var candidates, ids := CatalogueOf(rows), IdsOf(rows);
    IdsAreTheKeys(rows);
    var scored := [];
    var n := 0;
    while n < |ids|
      invariant 0 <= n <= |ids| && scored == ScoredOf(rows, best, c, round)[..n]
    {
      scored := scored + [ScoreOf(candidates[ids[n]], best, c, round)];
      n := n + 1;
    }
    assert scored == ScoredOf(rows, best, c, round);
    return SortBy(Above, scored);
  }

  method FirstOfEachTitle(ranked: seq<Scored>, limit: int, norm: Normalise) returns (items: seq<Scored>)
    ensures items == Take(Kept(ranked, norm), if limit < 1 then 1 else limit)
  {
    items := [];
    var seen := {};
    var i := 0;
    while i < |ranked|
      invariant 0 <= i <= |ranked|
      invariant items == Kept(ranked[..i], norm) && seen == Titles(ranked[..i], norm)
      invariant items == [] || |items| < limit
    {
      var s := ranked[i];
      var title := TitleOf(s, norm);
      assert ranked[..i + 1][..i] == ranked[..i] && ranked[..i + 1] == ranked[..i] + [s];
      i := i + 1;
      if title != "" && title in seen {
        continue;
      }
      if title != "" {
        seen := seen + {title};
      }
      items := items + [s];
      if |items| >= limit {
        KeptOfPrefix(ranked, norm, i);
        return;
      }
    }
    assert ranked[..i] == ranked;
  }

  /** The candidate is the best one, by total and then id, among those with its title. */
  ghost predicate BestOfItsTitle(s: Scored, all: seq<Scored>, norm: Normalise) {
    TitleOf(s, norm) == "" || forall t :: t in all && TitleOf(t, norm) == TitleOf(s, norm) ==> t == s || Above(s, t)
  }

  /** On a ranked list the pass keeps exactly the best of each title, in rank order. */
  lemma {:induction false} PassKeepsTheBest(ranked: seq<Scored>, norm: Normalise)
    requires Sorted(Above, ranked) && forall a, b :: Above(a, b) ==> !Above(b, a)
    ensures Sorted(Above, Kept(ranked, norm))
    ensures forall s :: s in Kept(ranked, norm) <==> s in ranked && BestOfItsTitle(s, ranked, norm)
  {
    if ranked != [] {
      var before, last := ranked[..|ranked| - 1], ranked[|ranked| - 1];
      PassKeepsTheBest(before, norm);
      assert ranked == before + [last];
      assert forall s :: s in before ==> Above(s, last);
      forall s ensures s in Kept(ranked, norm) <==> s in ranked && BestOfItsTitle(s, ranked, norm) {
        if s in before {
          assert BestOfItsTitle(s, before, norm) <==> BestOfItsTitle(s, ranked, norm);
        }
      }
    }
  }

  lemma TitlesOfNext(before: seq<Scored>, last: Scored, norm: Normalise)
    ensures Titles(before + [last], norm)
         == if TitleOf(last, norm) == "" then Titles(before, norm) else Titles(before, norm) + {TitleOf(last, norm)}
  {
    assert forall s :: s in before + [last] <==> s in before || s == last;
  }

  lemma UntitledOfNext(before: seq<Scored>, last: Scored, norm: Normalise)
    ensures Untitled(before + [last], norm)
         == if TitleOf(last, norm) == "" then Untitled(before, norm) + {last} else Untitled(before, norm)
  {
    assert forall s :: s in before + [last] <==> s in before || s == last;
  }

  lemma SizesOfNext(before: seq<Scored>, last: Scored, norm: Normalise)
    requires last !in before
    ensures |Titles(before + [last], norm)| + |Untitled(before + [last], norm)|
         == |Titles(before, norm)| + |Untitled(before, norm)|
            + if TitleOf(last, norm) != "" && TitleOf(last, norm) in Titles(before, norm) then 0 else 1
  {
    TitlesOfNext(before, last, norm);
    UntitledOfNext(before, last, norm);
    if TitleOf(last, norm) in Titles(before, norm) {
      assert Titles(before, norm) + {TitleOf(last, norm)} == Titles(before, norm);
    }
  }

  /** It keeps one candidate for each title and every candidate without a title. */
  lemma {:induction false} PassKeepsOnePerTitle(ranked: seq<Scored>, norm: Normalise)
    requires NoRepeats(ranked)
    ensures |Kept(ranked, norm)| == |Titles(ranked, norm)| + |Untitled(ranked, norm)|
  {
    if ranked != [] {
      var before, last := ranked[..|ranked| - 1], ranked[|ranked| - 1];
      PassKeepsOnePerTitle(before, norm);
      assert ranked == before + [last];
      SizesOfNext(before, last, norm);
    }
  }

  // ---------------------------------------------------------------- what a candidate's total is

  /** What the row and the company bring, field by field. */
  ghost predicate Describes(f: Facts, row: Row, c: Company) {
    && f.verdict == row.verdict && f.required == row.required && f.satisfied == row.satisfied
    && f.codes == row.codes && f.budget == row.budget && f.days == row.days
    && f.held == c.held && f.amounts == c.amounts
  }

  /** The hits of the company's first twelve signals on a bid, in the order of the signals: hit `i` of signal `k`. */
  predicate IsHit(c: Company, hitsBySignal: seq<seq<(string, real)>>, k: nat, i: nat, bidId: string) {
    k < |c.signals| && k < MAX_SIGNALS && k < |hitsBySignal| && i < |hitsBySignal[k]| && hitsBySignal[k][i].0 == bidId
  }

  function InterestOfHit(c: Company, hitsBySignal: seq<seq<(string, real)>>, k: nat, i: nat): real
    requires k < |c.signals| && k < |hitsBySignal| && i < |hitsBySignal[k]|
  {
    Interest(Some((hitsBySignal[k][i].1, c.signals[k])))
  }

  lemma {:induction false} HitsOfHas(hits: seq<(string, real)>, s: Signal, h: Hit)
    ensures h in HitsOf(hits, s) <==> exists i :: 0 <= i < |hits| && h == Hit(hits[i].0, hits[i].1, s)
  {
    if hits != [] {
      HitsOfHas(hits[..|hits| - 1], s, h);
    }
  }

  ghost predicate FoundBy(signals: seq<Signal>, hitsBySignal: seq<seq<(string, real)>>, k: nat, i: nat, h: Hit) {
    k < |signals| && k < |hitsBySignal| && i < |hitsBySignal[k]| && h == Hit(hitsBySignal[k][i].0, hitsBySignal[k][i].1, signals[k])
  }

  lemma {:induction false} FoundIsTagged(signals: seq<Signal>, hitsBySignal: seq<seq<(string, real)>>, k: nat, i: nat, h: Hit)
    requires |signals| == |hitsBySignal| && FoundBy(signals, hitsBySignal, k, i, h)
    ensures h in Tagged(signals, hitsBySignal)
  {
    var n := |signals| - 1;
    if k < n {
      FoundIsTagged(signals[..n], hitsBySignal[..n], k, i, h);
    } else {
      HitsOfHas(hitsBySignal[n], signals[n], h);
    }
  }

  lemma {:induction false} TaggedIsFound(signals: seq<Signal>, hitsBySignal: seq<seq<(string, real)>>, h: Hit) returns (k: nat, i: nat)
    requires |signals| == |hitsBySignal| && h in Tagged(signals, hitsBySignal)
    ensures FoundBy(signals, hitsBySignal, k, i, h)
  {
    var n := |signals| - 1;
    HitsOfHas(hitsBySignal[n], signals[n], h);
    if h in HitsOf(hitsBySignal[n], signals[n]) {
      k := n;
      i :| 0 <= i < |hitsBySignal[n]| && h == Hit(hitsBySignal[n][i].0, hitsBySignal[n][i].1, signals[n]);
    } else {
      k, i := TaggedIsFound(signals[..n], hitsBySignal[..n], h);
    }
  }

  /** The rows a candidate list shows: the last of each id, each once. */
  ghost predicate LastOfItsId(rows: seq<Row>, row: Row) {
    exists i :: 0 <= i < |rows| && rows[i] == row && forall j :: i < j < |rows| ==> rows[j].bidId != row.bidId
  }

  lemma LastStaysLast(rows: seq<Row>, last: Row, row: Row)
    ensures LastOfItsId(rows + [last], last)
    ensures LastOfItsId(rows, row) && row.bidId != last.bidId ==> LastOfItsId(rows + [last], row)
  {
    var more := rows + [last];
    assert more[|rows|] == last;
    if LastOfItsId(rows, row) && row.bidId != last.bidId {
      var i :| 0 <= i < |rows| && rows[i] == row && forall j :: i < j < |rows| ==> rows[j].bidId != row.bidId;
      assert more[i] == row;
    }
  }

  lemma {:induction false} CatalogueHasTheLast(rows: seq<Row>, id: string)
    ensures id in CatalogueOf(rows) ==> CatalogueOf(rows)[id].bidId == id && LastOfItsId(rows, CatalogueOf(rows)[id])
    ensures (exists i :: 0 <= i < |rows| && rows[i].bidId == id) ==> id in CatalogueOf(rows)
  {
    if rows != [] {
      var front, last := rows[..|rows| - 1], rows[|rows| - 1];
      CatalogueHasTheLast(front, id);
      assert rows == front + [last];
      LastStaysLast(front, last, if id in CatalogueOf(front) then CatalogueOf(front)[id] else last);
    }
  }

  lemma EveryIdIsScored(rows: seq<Row>, c: Company, best: Best, round: Round, id: string)
    requires exists i :: 0 <= i < |rows| && rows[i].bidId == id
    ensures exists s :: s in ScoredOf(rows, best, c, round) && s.bid.bidId == id
  {
    CatalogueHasTheLast(rows, id);
    IdsAreTheKeys(rows);
    assert id in IdsOf(rows);
    var k :| 0 <= k < |IdsOf(rows)| && IdsOf(rows)[k] == id;
    assert ScoredOf(rows, best, c, round)[k].bid.bidId == id;
  }

  lemma ScoredAreLast(rows: seq<Row>, c: Company, best: Best, round: Round)
    ensures forall s :: s in ScoredOf(rows, best, c, round) ==> LastOfItsId(rows, s.bid)
    ensures DistinctBids(ScoredOf(rows, best, c, round))
  {
    IdsAreTheKeys(rows);
    forall s | s in ScoredOf(rows, best, c, round) ensures LastOfItsId(rows, s.bid) {
      CatalogueHasTheLast(rows, s.bid.bidId);
    }
  }

  lemma DistinctIsSymmetric(a: seq<Scored>, b: seq<Scored>)
    requires multiset(a) == multiset(b) && DistinctBids(a)
    ensures DistinctBids(b)
  {
    forall i, j | 0 <= i < j < |b| ensures b[i].bid.bidId != b[j].bid.bidId {
      if b[i].bid.bidId == b[j].bid.bidId {
        assert b[i] in multiset(a) && b[j] in multiset(a);
        assert b[i] == b[j];
        assert b == b[..i] + [b[i]] + b[i + 1..j] + [b[j]] + b[j + 1..];
        assert multiset(a)[b[i]] >= 2;
        OnceInDistinct(a, b[i]);
      }
    }
  }

  lemma {:induction false} OnceInDistinct(a: seq<Scored>, s: Scored)
    requires DistinctBids(a)
    ensures multiset(a)[s] <= 1
  {
    if a != [] {
      OnceInDistinct(a[1..], s);
      assert a == [a[0]] + a[1..];
    }
  }

  /** Exactly the last row of every id is ranked, once. */
  lemma EveryCandidateIsRanked(rows: seq<Row>, c: Company, best: Best, round: Round)
    ensures var ranked := Ranking(rows, c, best, round);
      && (forall s :: s in ranked ==> LastOfItsId(rows, s.bid)) && DistinctBids(ranked)
      && (forall i :: 0 <= i < |rows| ==> exists s :: s in ranked && s.bid.bidId == rows[i].bidId)
  {
    var all, ranked := ScoredOf(rows, best, c, round), Ranking(rows, c, best, round);
    RankingIsSorted(rows, c, best, round);
    ScoredAreLast(rows, c, best, round);
    AboveIsTotal(all);
    SortBySorts(Above, all);
    DistinctIsSymmetric(all, ranked);
    forall i | 0 <= i < |rows| ensures exists s :: s in ranked && s.bid.bidId == rows[i].bidId {
      EveryIdIsScored(rows, c, best, round, rows[i].bidId);
    }
  }

  /** The hit is the kept one: none of the bid's hits weighs more. */
  ghost predicate Heaviest(c: Company, hitsBySignal: seq<seq<(string, real)>>, k: nat, i: nat, bidId: string) {
    && IsHit(c, hitsBySignal, k, i, bidId)
    && forall m: nat, j: nat :: IsHit(c, hitsBySignal, m, j, bidId) ==>
         Weighted(hitsBySignal[m][j].1, c.signals[m]) <= Weighted(hitsBySignal[k][i].1, c.signals[k])
  }

  /** A ranked candidate's total is that of a heaviest hit on it, on its own facts; without a hit, that of no interest. */
  lemma TotalIsOfTheHeaviestHit(
    rows: seq<Row>, c: Company, hitsBySignal: seq<seq<(string, real)>>, round: Round, s: Scored, f: Facts)
    requires |hitsBySignal| == |FirstSignals(c)| && s in Ranking(rows, c, BestFor(rows, c, hitsBySignal), round) && Describes(f, s.bid, c)
    ensures (forall k: nat, i: nat :: !IsHit(c, hitsBySignal, k, i, s.bid.bidId)) ==> s.total == round(Total(0.0, f))
    ensures (exists k: nat, i: nat :: IsHit(c, hitsBySignal, k, i, s.bid.bidId)) ==>
      exists k: nat, i: nat :: Heaviest(c, hitsBySignal, k, i, s.bid.bidId) && s.total == round(Total(InterestOfHit(c, hitsBySignal, k, i), f))
  {
    var signals, best, id := FirstSignals(c), BestFor(rows, c, hitsBySignal), s.bid.bidId;
    var hits := Tagged(signals, hitsBySignal);
    RankingIsSorted(rows, c, best, round);
    IdsAreTheKeys(rows);
    BestOfIsGreatest(hits, CatalogueOf(rows).Keys, id);
    assert f == FactsOf(s.bid, c);
    forall k: nat, i: nat | IsHit(c, hitsBySignal, k, i, id) ensures Hit(id, hitsBySignal[k][i].1, c.signals[k]) in hits {
      FoundIsTagged(signals, hitsBySignal, k, i, Hit(id, hitsBySignal[k][i].1, c.signals[k]));
    }
    if id in best {
      var n :| 0 <= n < |hits| && hits[n] == Hit(id, best[id].0, best[id].1);
      var k, i := TaggedIsFound(signals, hitsBySignal, hits[n]);
      assert IsHit(c, hitsBySignal, k, i, id);
      assert Heaviest(c, hitsBySignal, k, i, id);
    }
  }

  ghost predicate Monotone(round: Round) {
    forall x, y :: x <= y ==> round(x) <= round(y)
  }

  /** No score of the first twelve signals exceeds one. */
  ghost predicate AtMostOne(c: Company, hitsBySignal: seq<seq<(string, real)>>) {
    forall k: nat, i: nat, id :: IsHit(c, hitsBySignal, k, i, id) ==> hitsBySignal[k][i].1 <= 1.0
  }

  /** The total is the greatest over no hit and all the bid's hits. */
  ghost predicate GreatestTotal(total: real, c: Company, hitsBySignal: seq<seq<(string, real)>>, bidId: string, f: Facts, round: Round) {
    && round(Total(0.0, f)) <= total
    && (forall k: nat, i: nat :: IsHit(c, hitsBySignal, k, i, bidId) ==> round(Total(InterestOfHit(c, hitsBySignal, k, i), f)) <= total)
    && (total == round(Total(0.0, f)) ||
        exists k: nat, i: nat :: IsHit(c, hitsBySignal, k, i, bidId) && total == round(Total(InterestOfHit(c, hitsBySignal, k, i), f)))
  }

  /** With scores of at most one a ranked candidate gets the greatest total any of its hits gives it. */
  lemma CandidatesGetTheirGreatestTotal(
    rows: seq<Row>, c: Company, hitsBySignal: seq<seq<(string, real)>>, round: Round, s: Scored, f: Facts)
    requires |hitsBySignal| == |FirstSignals(c)| && s in Ranking(rows, c, BestFor(rows, c, hitsBySignal), round) && Describes(f, s.bid, c)
    requires Monotone(round) && AtMostOne(c, hitsBySignal)
    ensures GreatestTotal(s.total, c, hitsBySignal, s.bid.bidId, f, round)
  {
    var id := s.bid.bidId;
    TotalIsOfTheHeaviestHit(rows, c, hitsBySignal, round, s, f);
    if exists k: nat, i: nat :: IsHit(c, hitsBySignal, k, i, id) {
      var k: nat, i: nat :| Heaviest(c, hitsBySignal, k, i, id) && s.total == round(Total(InterestOfHit(c, hitsBySignal, k, i), f));
      InterestInUnit(Some((hitsBySignal[k][i].1, c.signals[k])));
      forall m: nat, j: nat | IsHit(c, hitsBySignal, m, j, id)
        ensures InterestOfHit(c, hitsBySignal, m, j) <= InterestOfHit(c, hitsBySignal, k, i)
      {
        InterestFollowsWeight(hitsBySignal[m][j].1, c.signals[m], hitsBySignal[k][i].1, c.signals[k]);
      }
    }
  }

  /** One bid interests the company at least as much as another: each hit on the other is matched by one on it, unless it adds nothing. */
  ghost predicate AtLeastAsInteresting(c: Company, hitsBySignal: seq<seq<(string, real)>>, bidId: string, other: string) {
    forall m: nat, j: nat :: IsHit(c, hitsBySignal, m, j, other) && InterestOfHit(c, hitsBySignal, m, j) > 0.0 ==>
      exists k: nat, i: nat :: IsHit(c, hitsBySignal, k, i, bidId) && InterestOfHit(c, hitsBySignal, m, j) <= InterestOfHit(c, hitsBySignal, k, i)
  }

  lemma TotalsFollowInterest(
    x: real, y: real, c: Company, hitsBySignal: seq<seq<(string, real)>>, bidId: string, other: string, f: Facts, round: Round)
    requires GreatestTotal(x, c, hitsBySignal, bidId, f, round) && GreatestTotal(y, c, hitsBySignal, other, f, round)
    requires Monotone(round) && AtLeastAsInteresting(c, hitsBySignal, bidId, other)
    ensures x >= y
  {
    if m: nat, j: nat :| IsHit(c, hitsBySignal, m, j, other) && y == round(Total(InterestOfHit(c, hitsBySignal, m, j), f)) {
      var theirs := InterestOfHit(c, hitsBySignal, m, j);
      if theirs > 0.0 {
        var k: nat, i: nat :| IsHit(c, hitsBySignal, k, i, bidId) && theirs <= InterestOfHit(c, hitsBySignal, k, i);
        MoreInterestScoresMore(theirs, InterestOfHit(c, hitsBySignal, k, i), f);
      } else {
        MoreInterestScoresMore(theirs, 0.0, f);
      }
    }
  }

  lemma MoreInterestScoresMore(interest: real, more: real, f: Facts)
    requires interest <= more
    ensures Total(interest, f) <= Total(more, f)
  {
  }

  /** Of two candidates with equal facts the more interesting one is not ranked below the other, but for equal rounded totals. */
  lemma MoreInterestRanksHigher(
    rows: seq<Row>, c: Company, hitsBySignal: seq<seq<(string, real)>>, round: Round, ranked: seq<Scored>, p: nat, q: nat, f: Facts)
    requires |hitsBySignal| == |FirstSignals(c)| && Monotone(round) && AtMostOne(c, hitsBySignal)
    requires ranked == Ranking(rows, c, BestFor(rows, c, hitsBySignal), round) && p < |ranked| && q < |ranked|
    requires Describes(f, ranked[p].bid, c) && Describes(f, ranked[q].bid, c)
    requires AtLeastAsInteresting(c, hitsBySignal, ranked[p].bid.bidId, ranked[q].bid.bidId)
    ensures ranked[p].total >= ranked[q].total && (ranked[p].total != ranked[q].total ==> p < q)
  {
    CandidatesGetTheirGreatestTotal(rows, c, hitsBySignal, round, ranked[p], f);
    CandidatesGetTheirGreatestTotal(rows, c, hitsBySignal, round, ranked[q], f);
    TotalsFollowInterest(ranked[p].total, ranked[q].total, c, hitsBySignal, ranked[p].bid.bidId, ranked[q].bid.bidId, f, round);
    RankingIsByTotalThenId(rows, c, BestFor(rows, c, hitsBySignal), round);
  }

  /** Greatest total first, and equal totals by id. */
  ghost predicate ByTotalThenId(ranked: seq<Scored>) {
    forall i, j :: 0 <= i < j < |ranked| ==>
      ranked[i].total > ranked[j].total || (ranked[i].total == ranked[j].total && LexLess(ranked[i].bid.bidId, ranked[j].bid.bidId))
  }

  lemma RankingIsByTotalThenId(rows: seq<Row>, c: Company, best: Best, round: Round)
    ensures ByTotalThenId(Ranking(rows, c, best, round))
  {
    RankingIsSorted(rows, c, best, round);
    var ranked := Ranking(rows, c, best, round);
    assert forall i, j :: 0 <= i < j < |ranked| ==> Above(ranked[i], ranked[j]);
  }

  lemma RankingIsSorted(rows: seq<Row>, c: Company, best: Best, round: Round)
    ensures var all := ScoredOf(rows, best, c, round); var ranked := Ranking(rows, c, best, round);
      && Sorted(Above, ranked) && (forall a, b :: Above(a, b) ==> !Above(b, a))
      && (forall s :: s in ranked <==> s in all) && (forall s :: s in all ==> s.bid in rows)
  {
    var all := ScoredOf(rows, best, c, round);
    IdsAreTheKeys(rows);
    AboveIsTotal(all);
    SortBySorts(Above, all);
    SameElements(SortBy(Above, all), all);
  }

  /** Exactly the best candidate of every title is kept, in rank order. */
  lemma RankingKeepsTheBestOfEachTitle(rows: seq<Row>, c: Company, best: Best, round: Round, norm: Normalise)
    ensures var all := ScoredOf(rows, best, c, round); var kept := Kept(Ranking(rows, c, best, round), norm);
      && Sorted(Above, kept)
      && (forall s :: s in kept <==> s in all && BestOfItsTitle(s, all, norm))
      && (forall s :: s in kept ==> s.bid in rows)
  {
    RankingIsSorted(rows, c, best, round);
    PassKeepsTheBest(Ranking(rows, c, best, round), norm);
    SameTitles(Ranking(rows, c, best, round), ScoredOf(rows, best, c, round), norm);
  }

  /** Two kept candidates with one title, up to normalisation, have a blank one; a missing title counts as empty. */
  lemma KeptTitlesDiffer(ranked: seq<Scored>, norm: Normalise, s: Scored, t: Scored)
    requires Sorted(Above, ranked) && s in Kept(ranked, norm) && t in Kept(ranked, norm) && s != t
    requires s.bid.title.Some? && (t.bid.title.Some? || norm("") == norm(s.bid.title.value))
    requires t.bid.title.Some? ==> norm(s.bid.title.value) == norm(t.bid.title.value)
    ensures norm(s.bid.title.value) == ""
  {
    AboveIsTotal([]);
    PassKeepsTheBest(ranked, norm);
    assert BestOfItsTitle(s, ranked, norm) && BestOfItsTitle(t, ranked, norm);
  }

  /** There is one for each title and one for each candidate without a title, up to the limit. */
  lemma RecommendationCount(rows: seq<Row>, c: Company, best: Best, round: Round, norm: Normalise, limit: nat)
    ensures var all := ScoredOf(rows, best, c, round); var kept := Kept(Ranking(rows, c, best, round), norm);
      |Take(kept, limit)| == Ordering.Min(limit, |Titles(all, norm)| + |Untitled(all, norm)|)
  {
    var ranked := Ranking(rows, c, best, round);
    RankingIsSorted(rows, c, best, round);
    SortedHasNoRepeats(ranked);
    PassKeepsOnePerTitle(ranked, norm);
    SameTitles(ranked, ScoredOf(rows, best, c, round), norm);
  }

  /** Title facts depend only on which candidates there are. */
  lemma SameTitles(a: seq<Scored>, b: seq<Scored>, norm: Normalise)
    requires forall x :: x in a <==> x in b
    ensures Titles(a, norm) == Titles(b, norm) && Untitled(a, norm) == Untitled(b, norm)
    ensures forall s :: BestOfItsTitle(s, a, norm) <==> BestOfItsTitle(s, b, norm)
  {
  }

  lemma SameElements<T>(a: seq<T>, b: seq<T>)
    requires multiset(a) == multiset(b)
    ensures forall x :: x in a <==> x in b
  {
    forall x ensures x in a <==> x in b {
      assert x in a <==> x in multiset(a);
      assert x in b <==> x in multiset(b);
    }
  }

  ghost predicate NoRepeats(s: seq<Scored>) {
    forall i, j :: 0 <= i < j < |s| ==> s[i] != s[j]
  }

  lemma SortedHasNoRepeats(ranked: seq<Scored>)
    requires Sorted(Above, ranked)
    ensures NoRepeats(ranked)
  {
    forall i, j | 0 <= i < j < |ranked| ensures ranked[i] != ranked[j] {
      LexLessIsTotal(ranked[i].bid.bidId, ranked[j].bid.bidId);
      assert Above(ranked[i], ranked[j]);
    }
  }
}
