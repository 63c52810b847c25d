/**
 The view bid_stats (alembic/versions/0006_bid_stats_matviews.py) and its reader
 (app/services/stats_service.py).  A month is a whole number: year * 12 + month.
 */
module StatsViews {
  import opened Wrappers
  import opened Grouping
  import opened Ordering
  import InstitutionRollup

  const ALL := "ALL"
  const MAS_PLACEHOLDER := "각 수요기관"
  const TOP := 8

  datatype Bid = Bid(
    bidId: string, category: string, institution: Option<string>, price: Option<int>, budget: Option<int>, month: int)

  datatype BidTag = BidTag(bidId: string, tag: string, source: string)

  datatype AxisRow = AxisRow(bid: Bid, category: string, tag: string)

  // ---------------------------------------------------------------- axis

  /** right(source, 4) = '_low'. */
  predicate LowConfidence(t: BidTag) {
    |t.source| >= 4 && t.source[|t.source| - 4..] == "_low"
  }

  function OwnTags(b: Bid, tags: seq<BidTag>): seq<BidTag> {
    Filter(tags, (t: BidTag) => t.bidId == b.bidId && !LowConfidence(t))
  }

  function TagName(t: BidTag): string { t.tag }

  function TagsOf(b: Bid, tags: seq<BidTag>): seq<string> {
    [ALL] + Map(OwnTags(b, tags), TagName)
  }

  function Crossed(b: Bid, category: string, tags: seq<string>): seq<AxisRow> {
    Map(tags, t => AxisRow(b, category, t))
  }

  /** Every bid under its category and under ALL, each with the tag ALL and its own tags. */
  function Axis(scope: seq<Bid>, tags: seq<BidTag>): seq<AxisRow> {
    if scope == [] then []
    else
      var b := scope[|scope| - 1];
      Axis(scope[..|scope| - 1], tags) + Crossed(b, b.category, TagsOf(b, tags)) + Crossed(b, ALL, TagsOf(b, tags))
  }

  /** The axis rows of one key. */
  function Of(axis: seq<AxisRow>, category: string, tag: string): seq<AxisRow> {
    Filter(axis, (r: AxisRow) => r.category == category && r.tag == tag)
  }

  // ---------------------------------------------------------------- the payload of one key

  function MonthOf(r: AxisRow): int { r.bid.month }

  function TagOf(r: AxisRow): string { r.tag }

  function CategoryOf(r: AxisRow): string { r.category }

  function LeastMonth(scope: seq<Bid>): int
    requires scope != []
  {
    if |scope| == 1 || scope[0].month < LeastMonth(scope[1..]) then scope[0].month else LeastMonth(scope[1..])
  }

  function LastMonth(scope: seq<Bid>): int
    requires scope != []
  {
    if |scope| == 1 || scope[0].month > LastMonth(scope[1..]) then scope[0].month else LastMonth(scope[1..])
  }

  /** generate_series over the period; no months without bids. */
  function Months(scope: seq<Bid>): seq<int> {
    if scope == [] then []
    else
      var first, last := LeastMonth(scope), LastMonth(scope);
      if last < first then [] else seq(last - first + 1, i => first + i)
  }

  /** The price brackets; a missing price falls through to the last one. */
  function BracketOf(r: AxisRow): int {
    if r.bid.price.None? then 4
    else if r.bid.price.value < 50000000 then 0
    else if r.bid.price.value < 200000000 then 1
    else if r.bid.price.value < 1000000000 then 2
    else if r.bid.price.value < 5000000000 then 3
    else 4
  }

  function SumOfPrices(scope: seq<Bid>): int {
    if scope == [] then 0
    else SumOfPrices(scope[1..]) + if scope[0].price.Some? then scope[0].price.value else 0
  }

  /** The bids of the category have no budget at all and prices that sum to zero. */
  predicate NoAmount(scope: seq<Bid>, category: string) {
    var bids := Filter(scope, (b: Bid) => b.category == category);
    bids != [] && SumOfPrices(bids) == 0 && forall b :: b in bids ==> b.budget.None?
  }

  predicate LacksAmount(r: AxisRow, scope: seq<Bid>) {
    r.category == ALL && NoAmount(scope, r.bid.category)
  }

  function BudgetRows(rows: seq<AxisRow>, scope: seq<Bid>): seq<AxisRow> {
    Filter(rows, (r: AxisRow) => !LacksAmount(r, scope))
  }

  function Buckets(rows: seq<AxisRow>, scope: seq<Bid>): seq<Cnt<int>> {
    Filter(Tally(BudgetRows(rows, scope), BracketOf, [0, 1, 2, 3, 4]), (g: Cnt<int>) => g.cnt > 0)
  }

  predicate IsPlaceholder(r: AxisRow) {
    r.bid.institution == Some(MAS_PLACEHOLDER)
  }

  predicate HasInstitution(r: AxisRow) {
    r.bid.institution.Some? && r.bid.institution.value != MAS_PLACEHOLDER
  }

  /** The left join with the roll-up: the names under which the rows are counted. */
  function InstitutionNames(rows: seq<AxisRow>, parents: seq<InstitutionRollup.Pair>): seq<string> {
    if rows == [] then []
    else
      var last := rows[|rows| - 1];
      InstitutionNames(rows[..|rows| - 1], parents)
      + if HasInstitution(last) then InstitutionRollup.JoinedNames(last.bid.institution.value, parents) else []
  }

  function Itself(name: string): string { name }

  /** inst: the counts by institution, before the eight largest are taken. */
  function Institutions(rows: seq<AxisRow>, parents: seq<InstitutionRollup.Pair>): seq<Cnt<string>> {
    GroupBy(InstitutionNames(rows, parents), Itself)
  }

  /** tag_rank: the counts by tag within a category. */
  function TagGroups(axis: seq<AxisRow>, category: string): seq<Cnt<string>> {
    GroupBy(TaggedRows(axis, category), TagOf)
  }

  function TaggedRows(axis: seq<AxisRow>, category: string): seq<AxisRow> {
    Filter(axis, (r: AxisRow) => r.category == category && r.tag != ALL)
  }

  function TopTags(axis: seq<AxisRow>, category: string): seq<Cnt<string>> {
    Largest(TagGroups(axis, category), TOP)
  }

  datatype Payload = Payload(
    period: Option<(int, int)>, total: nat, amountAvailable: bool, tags: seq<Cnt<string>>, monthly: seq<Cnt<int>>,
    buckets: seq<Cnt<int>>, budgetTotal: nat, institutions: seq<Cnt<string>>, excludedMas: nat)

  function PayloadOf(scope: seq<Bid>, axis: seq<AxisRow>, parents: seq<InstitutionRollup.Pair>, category: string, tag: string): Payload {
    var rows := Of(axis, category, tag);
    Payload(
      if scope == [] then None else Some((LeastMonth(scope), LastMonth(scope))),
      |rows|,
      !NoAmount(scope, category),
      TopTags(axis, category),
      Tally(rows, MonthOf, Months(scope)),
      Buckets(rows, scope),
      SumCounts(Buckets(rows, scope)),
      Largest(Institutions(rows, parents), TOP),
      |Filter(rows, IsPlaceholder)|)
  }

  // ---------------------------------------------------------------- the view

  datatype StatsKey = StatsKey(category: string, tag: string)

  function TagKeys(axis: seq<AxisRow>, categories: seq<string>): seq<StatsKey> {
    if categories == [] then []
    else
      var c := categories[|categories| - 1];
      TagKeys(axis, categories[..|categories| - 1]) + Map(TopTags(axis, c), (g: Cnt<string>) => StatsKey(c, g.key))
  }

  /** The keys: every category with the tag ALL, and every category with each of its top tags. */
  function Keys(axis: seq<AxisRow>): seq<StatsKey> {
    var categories := Distinct(Map(axis, CategoryOf));
    Map(categories, c => StatsKey(c, ALL)) + TagKeys(axis, categories)
  }

  datatype Row = Row(key: StatsKey, payload: Payload)

  function View(scope: seq<Bid>, tags: seq<BidTag>, parents: seq<InstitutionRollup.Pair>): seq<Row> {
    var axis := Axis(scope, tags);
    Map(Keys(axis), (k: StatsKey) => Row(k, PayloadOf(scope, axis, parents, k.category, k.tag)))
  }

  // ---------------------------------------------------------------- what a key counts

  ghost predicate EndsInLow(source: string) {
    exists rest: string :: source == rest + "_low"
  }

  lemma LowConfidenceIff(t: BidTag)
    ensures LowConfidence(t) <==> EndsInLow(t.source)
  {
    if LowConfidence(t) {
      assert t.source == t.source[..|t.source| - 4] + "_low";
    }
  }

  /** The bid's entries for a tag, without those of low confidence. */
  ghost function Entries(b: Bid, tags: seq<BidTag>, tag: string): seq<BidTag> {
    Filter(tags, (t: BidTag) => t.bidId == b.bidId && t.tag == tag && !EndsInLow(t.source))
  }

  /** How often a bid counts under a tag: once under ALL, and once for each of its entries. */
  ghost function Weight(b: Bid, tags: seq<BidTag>, tag: string): nat {
    |Entries(b, tags, tag)| + if tag == ALL then 1 else 0
  }

  /** The bids of the category, or all of them, as often as they count under the tag. */
  ghost function BidCount(scope: seq<Bid>, tags: seq<BidTag>, category: string, tag: string): nat {
    if scope == [] then 0
    else
      var b := scope[|scope| - 1];
      BidCount(scope[..|scope| - 1], tags, category, tag) + if category == ALL || b.category == category then Weight(b, tags, tag) else 0
  }

  lemma {:induction false} EntriesCount(b: Bid, tags: seq<BidTag>, tag: string)
    ensures CountOf(Map(OwnTags(b, tags), TagName), Itself, tag) == |Entries(b, tags, tag)|
  {
    if tags != [] {
      var front, last := tags[..|tags| - 1], tags[|tags| - 1];
      EntriesCount(b, front, tag);
      LowConfidenceIff(last);
      var own := OwnTags(b, tags);
      if own != OwnTags(b, front) {
        assert own == OwnTags(b, front) + [last];
        assert Map(own, TagName) == Map(OwnTags(b, front), TagName) + [last.tag];
        NamesConcat(Map(OwnTags(b, front), TagName), [last.tag], tag);
        assert [last.tag][..0] == [];
      }
    }
  }

  lemma TagsOfCount(b: Bid, tags: seq<BidTag>, tag: string)
    ensures CountOf(TagsOf(b, tags), Itself, tag) == Weight(b, tags, tag)
  {
    EntriesCount(b, tags, tag);
    NamesConcat([ALL], Map(OwnTags(b, tags), TagName), tag);
    assert [ALL][..0] == [];
  }

  /** The total of a key is the number of its bids, in terms of the tables. */
  lemma {:induction false} TotalIsTheBidCount(scope: seq<Bid>, tags: seq<BidTag>, category: string, tag: string)
    requires forall b :: b in scope ==> b.category != ALL
    ensures |Of(Axis(scope, tags), category, tag)| == BidCount(scope, tags, category, tag)
  {
    if scope != [] {
      var front, b := scope[..|scope| - 1], scope[|scope| - 1];
      assert b in scope;
      TotalIsTheBidCount(front, tags, category, tag);
      TagsOfCount(b, tags, tag);
      OfNextBid(Axis(front, tags), b, TagsOf(b, tags), category, tag);
    }
  }

  /** A bid is counted under a key if and only if it is in its category and has its tag, low confidence apart. */
  lemma {:induction false} AxisHas(scope: seq<Bid>, tags: seq<BidTag>, r: AxisRow)
    ensures r in Axis(scope, tags) <==>
      r.bid in scope && (r.category == ALL || r.category == r.bid.category) && Weight(r.bid, tags, r.tag) > 0
  {
    if scope != [] {
      var front, b := scope[..|scope| - 1], scope[|scope| - 1];
      assert scope == front + [b];
      AxisHas(front, tags, r);
      CrossedHas(b, b.category, tags, r);
      CrossedHas(b, ALL, tags, r);
    }
  }

  lemma CrossedHas(b: Bid, category: string, tags: seq<BidTag>, r: AxisRow)
    ensures r in Crossed(b, category, TagsOf(b, tags)) <==> r.bid == b && r.category == category && Weight(b, tags, r.tag) > 0
  {
    var names := TagsOf(b, tags);
    TagsOfCount(b, tags, r.tag);
    CountIsTheNumberOfRows(names, Itself, r.tag);
    var same := Having(names, Itself, r.tag);
    assert |same| > 0 ==> same[0] in same;
    assert r.tag in names <==> r.tag in same;
    if r.bid == b && r.category == category && r.tag in names {
      var i :| 0 <= i < |names| && names[i] == r.tag;
      assert Crossed(b, category, names)[i] == r;
    }
  }

  // ---------------------------------------------------------------- monthly counts

  lemma {:induction false} MonthsBoundTheScope(scope: seq<Bid>, b: Bid)
    requires b in scope
    ensures LeastMonth(scope) <= b.month <= LastMonth(scope)
  {
    if |scope| > 1 {
      assert scope == [scope[0]] + scope[1..];
      if b in scope[1..] {
        MonthsBoundTheScope(scope[1..], b);
      }
    }
  }

  lemma {:induction false} AxisBidsAreInScope(scope: seq<Bid>, tags: seq<BidTag>)
    ensures forall r :: r in Axis(scope, tags) ==> r.bid in scope && (r.category == ALL || r.category == r.bid.category)
  {
    if scope != [] {
      AxisBidsAreInScope(scope[..|scope| - 1], tags);
    }
  }

  lemma MonthsCoverTheScope(scope: seq<Bid>, b: Bid)
    requires b in scope
    ensures b.month in Months(scope)
  {
    MonthsBoundTheScope(scope, b);
    assert Months(scope)[b.month - LeastMonth(scope)] == b.month;
  }

  lemma {:induction false} MonthsAreThoseOfBids(scope: seq<Bid>)
    requires scope != []
    ensures exists b :: b in scope && b.month == LeastMonth(scope)
    ensures exists b :: b in scope && b.month == LastMonth(scope)
    ensures LeastMonth(scope) <= LastMonth(scope)
  {
    if |scope| > 1 {
      MonthsAreThoseOfBids(scope[1..]);
      assert scope == [scope[0]] + scope[1..];
    }
    MonthsBoundTheScope(scope, scope[0]);
  }

  /**
   The period goes from the first to the last month that has a bid, and every month of it is
   listed in order with the number of the key's rows in that month.
   */
  lemma MonthlyListsThePeriod(scope: seq<Bid>, axis: seq<AxisRow>, parents: seq<InstitutionRollup.Pair>, category: string, tag: string)
    ensures var p := PayloadOf(scope, axis, parents, category, tag);
      && (p.period.None? <==> scope == [])
      && (p.period.Some? ==>
            var (first, last) := p.period.value;
            && (forall b :: b in scope ==> first <= b.month <= last)
            && (exists b :: b in scope && b.month == first) && (exists b :: b in scope && b.month == last)
            && |p.monthly| == last - first + 1 && forall i :: 0 <= i < |p.monthly| ==> p.monthly[i].key == first + i)
      && forall i :: 0 <= i < |p.monthly| ==>
           p.monthly[i].cnt == |Having(Of(axis, category, tag), MonthOf, p.monthly[i].key)|
  {
    var rows := Of(axis, category, tag);
    TallyAt(rows, MonthOf, Months(scope));
    if scope != [] {
      MonthsAreThoseOfBids(scope);
      forall b | b in scope ensures LeastMonth(scope) <= b.month <= LastMonth(scope) {
        MonthsBoundTheScope(scope, b);
      }
    }
    forall i | 0 <= i < |Months(scope)| ensures CountOf(rows, MonthOf, Months(scope)[i]) == |Having(rows, MonthOf, Months(scope)[i])| {
      CountIsTheNumberOfRows(rows, MonthOf, Months(scope)[i]);
    }
  }

  /** For every key the monthly counts, zero-filled, add up to the total. */
  lemma MonthlySumsToTotal(scope: seq<Bid>, tags: seq<BidTag>, parents: seq<InstitutionRollup.Pair>, category: string, tag: string)
    ensures var p := PayloadOf(scope, Axis(scope, tags), parents, category, tag);
      && SumCounts(p.monthly) == p.total
      && |p.monthly| == |Months(scope)| && (forall i :: 0 <= i < |p.monthly| ==> p.monthly[i].key == Months(scope)[i])
  {
    var axis := Axis(scope, tags);
    var rows := Of(axis, category, tag);
    AxisBidsAreInScope(scope, tags);
    FilterMembers(axis, (r: AxisRow) => r.category == category && r.tag == tag);
    forall r | r in rows ensures MonthOf(r) in Months(scope) {
      MonthsCoverTheScope(scope, r.bid);
    }
    TallyConserves(rows, MonthOf, Months(scope));
    TallyAt(rows, MonthOf, Months(scope));
  }

  // ---------------------------------------------------------------- budget buckets

  /** The buckets add up to the total less the rows of categories without amounts, and those only under ALL. */
  lemma BudgetSumsToTotalLessNoAmount(scope: seq<Bid>, axis: seq<AxisRow>, parents: seq<InstitutionRollup.Pair>, category: string, tag: string)
    ensures var p := PayloadOf(scope, axis, parents, category, tag);
      && p.budgetTotal + |Filter(Of(axis, category, tag), (r: AxisRow) => LacksAmount(r, scope))| == p.total
      && (category != ALL ==> p.budgetTotal == p.total)
  {
    var rows := Of(axis, category, tag);
    var budget := BudgetRows(rows, scope);
    var groups := Tally(budget, BracketOf, [0, 1, 2, 3, 4]);
    TallyConserves(budget, BracketOf, [0, 1, 2, 3, 4]);
    DroppingZeros(groups, (g: Cnt<int>) => g.cnt > 0);
    FilterSplits(rows, r => true, (r: AxisRow) => !LacksAmount(r, scope), (r: AxisRow) => LacksAmount(r, scope));
    FilterAll(rows, r => true);
    FilterMembers(axis, (r: AxisRow) => r.category == category && r.tag == tag);
    if category != ALL {
      FilterNone(rows, (r: AxisRow) => LacksAmount(r, scope));
    }
  }

  const EDGES: seq<int> := [50_000_000, 200_000_000, 1_000_000_000, 5_000_000_000]

  /** The price lies from the lower edge of the bracket on and below its upper edge; no price is in the last bracket. */
  ghost predicate InBracket(price: Option<int>, k: int) {
    && 0 <= k <= |EDGES|
    && (price.None? ==> k == |EDGES|)
    && (price.Some? && k > 0 ==> EDGES[k - 1] <= price.value)
    && (price.Some? && k < |EDGES| ==> price.value < EDGES[k])
  }

  lemma BracketIsByItsEdges(r: AxisRow, k: int)
    ensures BracketOf(r) == k <==> InBracket(r.bid.price, k)
  {
    assert EDGES[0] < EDGES[1] < EDGES[2] < EDGES[3];
  }

  lemma {:induction false} FilterAgrees<T>(rows: seq<T>, p: T -> bool, q: T -> bool)
    requires forall r :: r in rows ==> p(r) == q(r)
    ensures Filter(rows, p) == Filter(rows, q)
  {
    if rows != [] {
      FilterAgrees(rows[..|rows| - 1], p, q);
    }
  }

  lemma BracketCounts(counted: seq<AxisRow>, keys: seq<int>, g: Cnt<int>)
    requires keys == [0, 1, 2, 3, 4]
    ensures g in Filter(Tally(counted, BracketOf, keys), (x: Cnt<int>) => x.cnt > 0)
       <==> g.key in keys && g.cnt == |Having(counted, BracketOf, g.key)| > 0
  {
    var groups := Tally(counted, BracketOf, keys);
    TallyAt(counted, BracketOf, keys);
    FilterMembers(groups, (x: Cnt<int>) => x.cnt > 0);
    CountIsTheNumberOfRows(counted, BracketOf, g.key);
    if g.key in keys {
      assert keys[g.key] == g.key;
      assert groups[g.key] in groups;
    }
  }

  /** The bucket list: ascending brackets, each with the number of its rows, and every bracket that has a row. */
  lemma BucketsAreExact(scope: seq<Bid>, axis: seq<AxisRow>, parents: seq<InstitutionRollup.Pair>, category: string, tag: string)
    ensures var p := PayloadOf(scope, axis, parents, category, tag); var counted := BudgetRows(Of(axis, category, tag), scope);
      && Ascending(p.buckets)
      && (forall g :: g in p.buckets ==> g.cnt == |Having(counted, BracketOf, g.key)|)
      && (forall r, k :: r in counted && InBracket(r.bid.price, k) ==> exists g :: g in p.buckets && g.key == k)
  {
    var counted, keys := BudgetRows(Of(axis, category, tag), scope), [0, 1, 2, 3, 4];
    var groups, buckets := Tally(counted, BracketOf, keys), Buckets(Of(axis, category, tag), scope);
    TallyAt(counted, BracketOf, keys);
    FilterKeepsAscending(groups, (g: Cnt<int>) => g.cnt > 0);
    forall g | g in buckets ensures g.cnt == |Having(counted, BracketOf, g.key)| {
      BracketCounts(counted, keys, g);
    }
    forall r, k | r in counted && InBracket(r.bid.price, k) ensures exists g :: g in buckets && g.key == k {
      BracketIsByItsEdges(r, k);
      CountIsTheNumberOfRows(counted, BracketOf, k);
      assert r in Having(counted, BracketOf, k);
      assert keys[k] == k;
      BracketCounts(counted, keys, Cnt(k, |Having(counted, BracketOf, k)|));
    }
  }

  ghost predicate Ascending(groups: seq<Cnt<int>>) {
    forall i, j :: 0 <= i < j < |groups| ==> groups[i].key < groups[j].key
  }

  lemma {:induction false} FilterKeepsAscending(groups: seq<Cnt<int>>, p: Cnt<int> -> bool)
    requires Ascending(groups)
    ensures Ascending(Filter(groups, p))
  {
    if groups != [] {
      var front, last := groups[..|groups| - 1], groups[|groups| - 1];
      FilterKeepsAscending(front, p);
      FilterMembers(front, p);
      assert forall g :: g in front ==> g.key < last.key;
    }
  }

  ghost predicate SomeAmount(scope: seq<Bid>, category: string) {
    exists b :: b in scope && b.category == category && (b.budget.Some? || (b.price.Some? && b.price.value > 0))
  }

  lemma {:induction false} SumIsZeroIffAllAre(scope: seq<Bid>)
    requires forall b :: b in scope && b.price.Some? ==> b.price.value >= 0
    ensures SumOfPrices(scope) >= 0
    ensures SumOfPrices(scope) == 0 <==> forall b :: b in scope && b.price.Some? ==> b.price.value == 0
  {
    if scope != [] {
      assert scope == [scope[0]] + scope[1..];
      SumIsZeroIffAllAre(scope[1..]);
    }
  }

  /**
   With prices that are not negative, amounts are available unless the category has bids and
   none of them has a budget or a price above zero.
   */
  lemma AmountsAreAvailableIff(scope: seq<Bid>, axis: seq<AxisRow>, parents: seq<InstitutionRollup.Pair>, category: string, tag: string)
    requires forall b :: b in scope && b.price.Some? ==> b.price.value >= 0
    ensures PayloadOf(scope, axis, parents, category, tag).amountAvailable <==>
      SomeAmount(scope, category) || forall b :: b in scope ==> b.category != category
  {
    var bids := Filter(scope, (b: Bid) => b.category == category);
    FilterMembers(scope, (b: Bid) => b.category == category);
    SumIsZeroIffAllAre(bids);
    assert bids != [] ==> bids[0] in bids;
  }

  /** The rows without a bucket: under ALL, those of categories without amounts. */
  lemma OnlyAllLacksAmounts(scope: seq<Bid>, axis: seq<AxisRow>, parents: seq<InstitutionRollup.Pair>, r: AxisRow)
    ensures LacksAmount(r, scope) <==> r.category == ALL && !PayloadOf(scope, axis, parents, r.bid.category, ALL).amountAvailable
  {
  }

  // ---------------------------------------------------------------- the totals of ALL

  function SumOfTotals(axis: seq<AxisRow>, tag: string, categories: seq<string>): nat {
    if categories == [] then 0
    else
      SumOfTotals(axis, tag, categories[..|categories| - 1]) + |Of(axis, categories[|categories| - 1], tag)|
  }

  /** Whatever the category, the crossed rows of one bid have the same tags. */
  lemma {:induction false} CrossedCount(b: Bid, own: string, category: string, tags: seq<string>, tag: string)
    requires own != category
    ensures |Of(Crossed(b, category, tags), category, tag)| == CountOf(tags, Itself, tag)
    ensures Of(Crossed(b, own, tags), category, tag) == []
  {
    var rows := Crossed(b, category, tags);
    FilterNone(Crossed(b, own, tags), (r: AxisRow) => r.category == category && r.tag == tag);
    if tags != [] {
      CrossedCount(b, own, category, tags[..|tags| - 1], tag);
      assert rows[..|rows| - 1] == Crossed(b, category, tags[..|tags| - 1]);
    }
  }

  lemma {:induction false} EmptySumOfTotals(tag: string, categories: seq<string>)
    ensures SumOfTotals([], tag, categories) == 0
  {
    if categories != [] {
      EmptySumOfTotals(tag, categories[..|categories| - 1]);
    }
  }

  lemma OfNextBid(axis: seq<AxisRow>, b: Bid, tags: seq<string>, category: string, tag: string)
    requires b.category != ALL
    ensures |Of(axis + Crossed(b, b.category, tags) + Crossed(b, ALL, tags), category, tag)|
         == |Of(axis, category, tag)| + if category == ALL || category == b.category then CountOf(tags, Itself, tag) else 0
  {
    var p := (r: AxisRow) => r.category == category && r.tag == tag;
    FilterConcat(axis + Crossed(b, b.category, tags), Crossed(b, ALL, tags), p);
    FilterConcat(axis, Crossed(b, b.category, tags), p);
    if category != ALL {
      CrossedCount(b, ALL, category, tags, tag);
    }
    if category != b.category {
      CrossedCount(b, b.category, category, tags, tag);
    }
  }

  lemma {:induction false} SumOfTotalsNextBid(axis: seq<AxisRow>, b: Bid, tags: seq<string>, tag: string, categories: seq<string>)
    requires b.category != ALL && ALL !in categories && NoRepeats(categories)
    ensures SumOfTotals(axis + Crossed(b, b.category, tags) + Crossed(b, ALL, tags), tag, categories)
         == SumOfTotals(axis, tag, categories) + if b.category in categories then CountOf(tags, Itself, tag) else 0
  {
    if categories != [] {
      var fewer, c := categories[..|categories| - 1], categories[|categories| - 1];
      SumOfTotalsNextBid(axis, b, tags, tag, fewer);
      OfNextBid(axis, b, tags, c, tag);
      assert categories == fewer + [c];
    }
  }

  /** For every tag the total of ALL is the sum of the totals of the categories. */
  lemma {:induction false} AllIsTheSumOfCategories(scope: seq<Bid>, tags: seq<BidTag>, tag: string, categories: seq<string>)
    requires NoRepeats(categories) && ALL !in categories
    requires forall b :: b in scope ==> b.category in categories
    ensures |Of(Axis(scope, tags), ALL, tag)| == SumOfTotals(Axis(scope, tags), tag, categories)
  {
    if scope == [] {
      EmptySumOfTotals(tag, categories);
    } else {
      var b, before := scope[|scope| - 1], Axis(scope[..|scope| - 1], tags);
      AllIsTheSumOfCategories(scope[..|scope| - 1], tags, tag, categories);
      assert b in scope;
      OfNextBid(before, b, TagsOf(b, tags), ALL, tag);
      SumOfTotalsNextBid(before, b, TagsOf(b, tags), tag, categories);
    }
  }

  // ---------------------------------------------------------------- institutions

  lemma {:induction false} InstitutionNamesCount(rows: seq<AxisRow>, parents: seq<InstitutionRollup.Pair>)
    requires InstitutionRollup.UniqueChildren(parents)
    ensures |InstitutionNames(rows, parents)| == |Filter(rows, HasInstitution)|
  {
    if rows != [] {
      InstitutionNamesCount(rows[..|rows| - 1], parents);
      var last := rows[|rows| - 1];
      if HasInstitution(last) {
        InstitutionRollup.JoinKeepsEachRow(last.bid.institution.value, parents);
      }
    }
  }

  lemma {:induction false} NamesConcat(a: seq<string>, b: seq<string>, name: string)
    ensures CountOf(a + b, Itself, name) == CountOf(a, Itself, name) + CountOf(b, Itself, name)
  {
    if b == [] {
      assert a + b == a;
    } else {
      assert (a + b)[..|a + b| - 1] == a + b[..|b| - 1];
      NamesConcat(a, b[..|b| - 1], name);
    }
  }

  predicate CountedUnder(r: AxisRow, parents: seq<InstitutionRollup.Pair>, name: string) {
    && r.bid.institution.Some? && r.bid.institution.value != MAS_PLACEHOLDER
    && InstitutionRollup.Resolve(r.bid.institution.value, parents) == name
  }

  function Under(rows: seq<AxisRow>, parents: seq<InstitutionRollup.Pair>, name: string): seq<AxisRow> {
    Filter(rows, (r: AxisRow) => CountedUnder(r, parents, name))
  }

  /** The count of an institution is the number of rows whose institution resolves to it. */
  lemma {:induction false} InstitutionCountsItsRows(rows: seq<AxisRow>, parents: seq<InstitutionRollup.Pair>, name: string)
    requires InstitutionRollup.UniqueChildren(parents)
    ensures CountOf(InstitutionNames(rows, parents), Itself, name)
         == |Under(rows, parents, name)|
  {
    if rows != [] {
      var before, last := rows[..|rows| - 1], rows[|rows| - 1];
      InstitutionCountsItsRows(before, parents, name);
      if HasInstitution(last) {
        var own := InstitutionRollup.Resolve(last.bid.institution.value, parents);
        InstitutionRollup.JoinKeepsEachRow(last.bid.institution.value, parents);
        NamesConcat(InstitutionNames(before, parents), [own], name);
        assert [own][..0] == [];
      } else {
        assert InstitutionNames(rows, parents) == InstitutionNames(before, parents);
      }
    }
  }

  lemma {:induction false} NamesOfRows(rows: seq<AxisRow>, parents: seq<InstitutionRollup.Pair>, r: AxisRow, name: string)
    requires InstitutionRollup.UniqueChildren(parents) && r in rows && CountedUnder(r, parents, name)
    ensures name in InstitutionNames(rows, parents)
  {
    var before, last := rows[..|rows| - 1], rows[|rows| - 1];
    assert rows == before + [last];
    if r in before {
      NamesOfRows(before, parents, r, name);
    } else {
      InstitutionRollup.JoinKeepsEachRow(last.bid.institution.value, parents);
    }
  }

  /**
   The shown institutions: at most eight, in order, each with exactly the number of rows that
   resolve to it; and every other institution that some row resolves to has fewer rows than
   all of them, or as many and a later name.
   */
  lemma TopInstitutionsAreTheLargest(rows: seq<AxisRow>, parents: seq<InstitutionRollup.Pair>)
    requires InstitutionRollup.UniqueChildren(parents)
    ensures var all := Institutions(rows, parents); var top := Largest(all, TOP);
      && |top| == Ordering.Min(TOP, |all|) && Sorted(MoreFrequent, top)
      && (forall g :: g in top ==> g.cnt == |Under(rows, parents, g.key)|)
      && (forall g, r, name :: g in top && r in rows && CountedUnder(r, parents, name) && !Shown(top, name)
            ==> MoreFrequent(g, Cnt(name, |Under(rows, parents, name)|)))
  {
    var names, all := InstitutionNames(rows, parents), Institutions(rows, parents);
    var top := Largest(all, TOP);
    GroupsAreExact(names, Itself);
    LargestAreAboveTheRest(all, TOP);
    forall g | g in top ensures g.cnt == |Under(rows, parents, g.key)| {
      assert g in all;
      InstitutionCountsItsRows(rows, parents, g.key);
    }
    forall g, r, name | g in top && r in rows && CountedUnder(r, parents, name) && !Shown(top, name)
      ensures MoreFrequent(g, Cnt(name, |Under(rows, parents, name)|))
    {
      NamesOfRows(rows, parents, r, name);
      RowHasAGroup(names, Itself, name);
      InstitutionCountsItsRows(rows, parents, name);
      assert Cnt(name, |Under(rows, parents, name)|) in all;
    }
  }

  ghost predicate Shown(top: seq<Cnt<string>>, name: string) {
    exists g :: g in top && g.key == name
  }

  /**
   The join conserves rows: institution counts, placeholder rows and rows without an
   institution add up to the total.
   */
  lemma InstitutionsConserveRows(names: set<string>, cand: seq<InstitutionRollup.Pair>, space: InstitutionRollup.Space,
                                 scope: seq<Bid>, axis: seq<AxisRow>, category: string, tag: string)
    requires InstitutionRollup.Candidates(names, cand, space)
    ensures var parents := InstitutionRollup.InstitutionParent(cand, space);
      var p := PayloadOf(scope, axis, parents, category, tag); var rows := Of(axis, category, tag);
      && p.excludedMas == |Filter(rows, (r: AxisRow) => r.bid.institution == Some("각 수요기관"))|
      && SumCounts(Institutions(rows, parents)) + p.excludedMas + |Filter(rows, (r: AxisRow) => r.bid.institution.None?)| == p.total
  {
    var parents := InstitutionRollup.InstitutionParent(cand, space);
    var rows := Of(axis, category, tag);
    InstitutionRollup.ChildNamesAreUnique(names, cand, space);
    InstitutionNamesCount(rows, parents);
    GroupByConserves(InstitutionNames(rows, parents), Itself);
    FilterAll(rows, r => true);
    FilterSplits(rows, r => true, (r: AxisRow) => r.bid.institution.Some?, (r: AxisRow) => r.bid.institution.None?);
    FilterSplits(rows, (r: AxisRow) => r.bid.institution.Some?, HasInstitution, IsPlaceholder);
    FilterAgrees(rows, IsPlaceholder, (r: AxisRow) => r.bid.institution == Some("각 수요기관"));
  }

  // ---------------------------------------------------------------- keys

  ghost predicate IsTopTag(axis: seq<AxisRow>, category: string, tag: string) {
    exists g :: g in TopTags(axis, category) && g.key == tag
  }

  /** The rows of a tag within its category are those of its key: a listed count is the total shown for the tag. */
  lemma {:induction false} TagCountIsItsTotal(axis: seq<AxisRow>, category: string, tag: string)
    requires tag != ALL
    ensures CountOf(TaggedRows(axis, category), TagOf, tag) == |Of(axis, category, tag)|
  {
    if axis != [] {
      var before, last := axis[..|axis| - 1], axis[|axis| - 1];
      TagCountIsItsTotal(before, category, tag);
      if last.category == category && last.tag != ALL {
        assert (TaggedRows(before, category) + [last])[..|TaggedRows(before, category)|] == TaggedRows(before, category);
      } else {
        assert TaggedRows(axis, category) == TaggedRows(before, category);
      }
    }
  }

  /**
   The tag list of a category: at most eight, in order, each with its total; and every tag
   that a bid of the category has but the list has not has a smaller total than all of them,
   or an equal one and a later name.
   */
  lemma TopTagsAreTheMostFrequent(axis: seq<AxisRow>, category: string)
    ensures var top := TopTags(axis, category);
      && |top| == Ordering.Min(TOP, |TagGroups(axis, category)|) && Sorted(MoreFrequent, top) && DistinctKeys(top)
      && (forall g :: g in top ==> g in TagGroups(axis, category) && g.key != ALL && g.cnt == |Of(axis, category, g.key)|)
      && (forall g, r :: g in top && r in axis && r.category == category && r.tag != ALL && !IsTopTag(axis, category, r.tag)
            ==> MoreFrequent(g, Cnt(r.tag, |Of(axis, category, r.tag)|)))
  {
    var rows, groups, top := TaggedRows(axis, category), TagGroups(axis, category), TopTags(axis, category);
    GroupsAreExact(rows, TagOf);
    LargestAreAboveTheRest(groups, TOP);
    SortedGroupsHaveDistinctKeys(groups, top);
    FilterMembers(axis, (r: AxisRow) => r.category == category && r.tag != ALL);
    forall g | g in top ensures g.key != ALL && g.cnt == |Of(axis, category, g.key)| {
      assert g in groups;
      TallyKeys(rows, TagOf, g);
      var i :| 0 <= i < |rows| && Map(rows, TagOf)[i] == g.key;
      assert rows[i] in rows && TagOf(rows[i]) == g.key;
      TagCountIsItsTotal(axis, category, g.key);
    }
    forall g, r | g in top && r in axis && r.category == category && r.tag != ALL && !IsTopTag(axis, category, r.tag)
      ensures MoreFrequent(g, Cnt(r.tag, |Of(axis, category, r.tag)|))
    {
      RowHasAGroup(rows, TagOf, r);
      TagCountIsItsTotal(axis, category, r.tag);
    }
  }

  lemma SortedGroupsHaveDistinctKeys(groups: seq<Cnt<string>>, top: seq<Cnt<string>>)
    requires DistinctKeys(groups) && Sorted(MoreFrequent, top) && (forall g :: g in top ==> g in groups)
    ensures DistinctKeys(top)
  {
    forall i, j | 0 <= i < j < |top| ensures top[i].key != top[j].key {
      assert top[i] in groups && top[j] in groups;
      assert MoreFrequent(top[i], top[j]);
      LexLessIsTotal(top[i].key, top[j].key);
    }
  }

  lemma {:induction false} TallyKeys<T>(rows: seq<T>, key: T -> string, g: Cnt<string>)
    requires g in GroupBy(rows, key)
    ensures g.key in Map(rows, key)
  {
    DistinctHasNoRepeats(Map(rows, key));
    TallyAt(rows, key, Distinct(Map(rows, key)));
    var i :| 0 <= i < |GroupBy(rows, key)| && GroupBy(rows, key)[i] == g;
    assert Distinct(Map(rows, key))[i] == g.key;
  }

  /** A top tag is a real tag of some bid of the category. */
  lemma TopTagsOccur(axis: seq<AxisRow>, category: string, tag: string)
    requires IsTopTag(axis, category, tag)
    ensures tag != ALL && exists r :: r in axis && r.category == category && r.tag == tag
  {
    var g :| g in TopTags(axis, category) && g.key == tag;
    TopTagsAreTheMostFrequent(axis, category);
    var rows := TaggedRows(axis, category);
    FilterMembers(axis, (r: AxisRow) => r.category == category && r.tag != ALL);
    TallyKeys(rows, TagOf, g);
    var i :| 0 <= i < |rows| && Map(rows, TagOf)[i] == tag;
    assert rows[i] in rows && TagOf(rows[i]) == tag;
  }

  lemma {:induction false} TagKeysAreUnique(axis: seq<AxisRow>, categories: seq<string>)
    requires NoRepeats(categories)
    ensures NoRepeats(TagKeys(axis, categories))
    ensures forall k :: k in TagKeys(axis, categories) <==> k.category in categories && IsTopTag(axis, k.category, k.tag)
  {
    if categories != [] {
      var fewer, c := categories[..|categories| - 1], categories[|categories| - 1];
      assert categories == fewer + [c];
      TagKeysAreUnique(axis, fewer);
      TopTagsAreTheMostFrequent(axis, c);
      var own := Map(TopTags(axis, c), (g: Cnt<string>) => StatsKey(c, g.key));
      OwnTagKeys(axis, c, own);
    }
  }

  lemma OwnTagKeys(axis: seq<AxisRow>, c: string, own: seq<StatsKey>)
    requires |own| == |TopTags(axis, c)|
    requires forall i :: 0 <= i < |own| ==> own[i] == StatsKey(c, TopTags(axis, c)[i].key)
    ensures forall k :: k in own <==> k.category == c && IsTopTag(axis, c, k.tag)
  {
    var top := TopTags(axis, c);
    forall k ensures k in own <==> k.category == c && IsTopTag(axis, c, k.tag) {
      if k in own {
        var i :| 0 <= i < |own| && own[i] == k;
        assert top[i] in top;
      }
      if k.category == c && IsTopTag(axis, c, k.tag) {
        var g :| g in top && g.key == k.tag;
        var i :| 0 <= i < |top| && top[i] == g;
        assert own[i] == k;
      }
    }
  }

  ghost predicate HasCategory(axis: seq<AxisRow>, category: string) {
    exists r :: r in axis && r.category == category
  }

  /** Every key appears once, so the unique index on (category, tag) holds; and which keys there are. */
  lemma KeysAreUnique(axis: seq<AxisRow>)
    ensures NoRepeats(Keys(axis))
    ensures forall k :: k in Keys(axis) <==>
      HasCategory(axis, k.category) && (k.tag == ALL || IsTopTag(axis, k.category, k.tag))
  {
    var all := Map(axis, CategoryOf);
    var categories := Distinct(all);
    DistinctHasNoRepeats(all);
    TagKeysAreUnique(axis, categories);
    var whole := Map(categories, c => StatsKey(c, ALL));
    forall c ensures c in categories <==> HasCategory(axis, c) {
      CategoriesOccur(axis, c);
    }
    forall k ensures k in whole <==> k.category in categories && k.tag == ALL {
      if k.category in categories && k.tag == ALL {
        var i :| 0 <= i < |categories| && categories[i] == k.category;
        assert whole[i] == k;
      }
    }
    forall k | k in TagKeys(axis, categories) ensures k.tag != ALL {
      TopTagsOccur(axis, k.category, k.tag);
    }
  }

  lemma CategoriesOccur(axis: seq<AxisRow>, c: string)
    ensures c in Map(axis, CategoryOf) <==> HasCategory(axis, c)
  {
    if HasCategory(axis, c) {
      var r :| r in axis && r.category == c;
      var i :| 0 <= i < |axis| && axis[i] == r;
      assert CategoryOf(axis[i]) == c;
      assert Map(axis, CategoryOf)[i] == CategoryOf(axis[i]);
    }
    if c in Map(axis, CategoryOf) {
      var i :| 0 <= i < |axis| && Map(axis, CategoryOf)[i] == c;
      assert axis[i] in axis && CategoryOf(axis[i]) == c;
    }
  }

  ghost predicate SomeBidHas(scope: seq<Bid>, category: string) {
    exists b :: b in scope && (category == ALL || b.category == category)
  }

  /** A category has statistics exactly when a bid of the period is in it; ALL when there is any bid. */
  lemma {:induction false} CategoriesOfTheAxis(scope: seq<Bid>, tags: seq<BidTag>, category: string)
    ensures HasCategory(Axis(scope, tags), category) <==> SomeBidHas(scope, category)
  {
    if scope != [] {
      var before, b := scope[..|scope| - 1], scope[|scope| - 1];
      CategoriesOfTheAxis(before, tags, category);
      assert scope == before + [b];
      var own, all := Crossed(b, b.category, TagsOf(b, tags)), Crossed(b, ALL, TagsOf(b, tags));
      assert own[0] in own && own[0].category == b.category;
      assert all[0] in all && all[0].category == ALL;
      assert forall r :: r in Axis(scope, tags) <==> r in Axis(before, tags) || r in own || r in all;
    }
  }

  // ---------------------------------------------------------------- the lists of one key

  /** By count from the largest, equal counts by name. */
  ghost predicate ByCountThenName(top: seq<Cnt<string>>) {
    forall i, j :: 0 <= i < j < |top| ==>
      top[i].cnt > top[j].cnt || (top[i].cnt == top[j].cnt && LexLess(top[i].key, top[j].key))
  }

  /** The list is full, and an entry with this name and count would come after all of it. */
  ghost predicate BelowAll(top: seq<Cnt<string>>, name: string, count: nat) {
    |top| == TOP && forall g :: g in top ==> g.cnt > count || (g.cnt == count && LexLess(g.key, name))
  }

  /**
   The tag list of a category, in terms of the tables: in order, each tag with the number of
   its bids, and a tag that some bid of the category has is left out only when eight others
   come before it.
   */
  lemma ListedTags(scope: seq<Bid>, tags: seq<BidTag>, parents: seq<InstitutionRollup.Pair>, category: string, tag: string)
    requires forall b :: b in scope ==> b.category != ALL
    ensures var top := PayloadOf(scope, Axis(scope, tags), parents, category, tag).tags;
      && |top| <= TOP && ByCountThenName(top)
      && (forall g :: g in top ==> g.key != ALL && g.cnt == BidCount(scope, tags, category, g.key))
      && (forall b, t ::
            b in scope && (category == ALL || b.category == category) && t != ALL && Entries(b, tags, t) != [] && !Shown(top, t)
            ==> BelowAll(top, t, BidCount(scope, tags, category, t)))
  {
    var axis := Axis(scope, tags);
    var top := TopTags(axis, category);
    TopTagsAreTheMostFrequent(axis, category);
    assert forall i, j :: 0 <= i < j < |top| ==> MoreFrequent(top[i], top[j]);
    forall g | g in top ensures g.cnt == BidCount(scope, tags, category, g.key) {
      TotalIsTheBidCount(scope, tags, category, g.key);
    }
    forall b, t | b in scope && (category == ALL || b.category == category) && t != ALL && Entries(b, tags, t) != [] && !Shown(top, t)
      ensures BelowAll(top, t, BidCount(scope, tags, category, t))
    {
      var r := AxisRow(b, category, t);
      AxisHas(scope, tags, r);
      TotalIsTheBidCount(scope, tags, category, t);
      TagsLeftOut(axis, category, r);
      forall g | g in top ensures MoreFrequent(g, Cnt(t, BidCount(scope, tags, category, t))) {
      }
    }
  }

  /** A list that leaves a tag out is full. */
  lemma TagsLeftOut(axis: seq<AxisRow>, category: string, r: AxisRow)
    requires r in axis && r.category == category && r.tag != ALL && !IsTopTag(axis, category, r.tag)
    ensures |TopTags(axis, category)| == TOP
  {
    var rows, groups := TaggedRows(axis, category), TagGroups(axis, category);
    FilterMembers(axis, (x: AxisRow) => x.category == category && x.tag != ALL);
    RowHasAGroup(rows, TagOf, r);
    GroupsAreExact(rows, TagOf);
    var g := Cnt(r.tag, CountOf(rows, TagOf, r.tag));
    LargestLeavesOut(groups, g);
  }

  lemma ShortListsShowAll(groups: seq<Cnt<string>>, g: Cnt<string>)
    requires DistinctKeys(groups) && g in groups && |groups| <= TOP
    ensures g in Largest(groups, TOP)
  {
    MoreFrequentIsTotal(groups);
    SortBySorts(MoreFrequent, groups);
    var sorted := SortBy(MoreFrequent, groups);
    assert Largest(groups, TOP) == sorted;
    assert g in multiset(groups);
    assert g in multiset(sorted);
  }

  lemma LargestLeavesOut(groups: seq<Cnt<string>>, g: Cnt<string>)
    requires DistinctKeys(groups) && g in groups && g !in Largest(groups, TOP)
    ensures |Largest(groups, TOP)| == TOP
  {
    LargestAreAboveTheRest(groups, TOP);
    if |groups| <= TOP {
      ShortListsShowAll(groups, g);
    }
  }

  /** The institution list in the same way, over the rows of the key and the names they resolve to. */
  lemma ListedInstitutions(scope: seq<Bid>, axis: seq<AxisRow>, parents: seq<InstitutionRollup.Pair>, category: string, tag: string)
    requires InstitutionRollup.UniqueChildren(parents)
    ensures var top, rows := PayloadOf(scope, axis, parents, category, tag).institutions, Of(axis, category, tag);
      && |top| <= TOP && ByCountThenName(top)
      && (forall g :: g in top ==> g.cnt == |Under(rows, parents, g.key)|)
      && (forall r, name :: r in rows && CountedUnder(r, parents, name) && !Shown(top, name)
            ==> BelowAll(top, name, |Under(rows, parents, name)|))
  {
    var rows := Of(axis, category, tag);
    var names, all := InstitutionNames(rows, parents), Institutions(rows, parents);
    var top := Largest(all, TOP);
    TopInstitutionsAreTheLargest(rows, parents);
    GroupsAreExact(names, Itself);
    assert forall i, j :: 0 <= i < j < |top| ==> MoreFrequent(top[i], top[j]);
    forall r, name | r in rows && CountedUnder(r, parents, name) && !Shown(top, name)
      ensures BelowAll(top, name, |Under(rows, parents, name)|)
    {
      NamesOfRows(rows, parents, r, name);
      RowHasAGroup(names, Itself, name);
      LargestLeavesOut(all, Cnt(name, CountOf(names, Itself, name)));
      forall g | g in top ensures MoreFrequent(g, Cnt(name, |Under(rows, parents, name)|)) {
      }
    }
  }

  // ---------------------------------------------------------------- the reader

  /** SELECT ... WHERE category = ... AND tag = ..., the first row found. */
  function Find(view: seq<Row>, k: StatsKey): Option<Payload> {
    if view == [] then None
    else if view[0].key == k then Some(view[0].payload)
    else Find(view[1..], k)
  }

  datatype StatsResponse = StatsResponse(appliedTag: Option<string>, payload: Payload)

  function Requested(tag: Option<string>, strip: string -> string): string {
    var text := strip(if tag.Some? then tag.value else "");
    if text == "" then ALL else text
  }

  /** None stands for the error that the statistics are unavailable. */
  function GetStats(view: seq<Row>, category: string, tag: Option<string>, strip: string -> string): Option<StatsResponse> {
    var requested := Requested(tag, strip);
    var first := Find(view, StatsKey(category, requested));
    var fallBack := first.None? && requested != ALL;
    var row := if fallBack then Find(view, StatsKey(category, ALL)) else first;
    var applied := if fallBack then ALL else requested;
    if row.None? then None
    else Some(StatsResponse(if applied == ALL then None else Some(applied), row.value))
  }

  lemma {:induction false} FindMeans(view: seq<Row>, k: StatsKey)
    ensures Find(view, k).None? <==> forall r :: r in view ==> r.key != k
    ensures Find(view, k).Some? ==> Row(k, Find(view, k).value) in view
  {
    if view != [] {
      FindMeans(view[1..], k);
      assert view == [view[0]] + view[1..];
    }
  }

  /** A lookup in the view finds exactly the keys of the view, with their payload. */
  lemma FindInView(scope: seq<Bid>, tags: seq<BidTag>, parents: seq<InstitutionRollup.Pair>, k: StatsKey)
    ensures var axis := Axis(scope, tags); var view := View(scope, tags, parents);
      Find(view, k) == if k in Keys(axis) then Some(PayloadOf(scope, axis, parents, k.category, k.tag)) else None
  {
    var axis := Axis(scope, tags);
    var keys, view := Keys(axis), View(scope, tags, parents);
    FindMeans(view, k);
    if k in keys {
      var i :| 0 <= i < |keys| && keys[i] == k;
      assert view[i].key == k && view[i] in view;
    }
  }

  /** What a lookup in the view answers, in terms of the tags of the category. */
  lemma FindAnswers(scope: seq<Bid>, tags: seq<BidTag>, parents: seq<InstitutionRollup.Pair>, category: string, tag: string)
    ensures var axis := Axis(scope, tags); var found := Find(View(scope, tags, parents), StatsKey(category, tag));
      && (found.Some? <==> HasCategory(axis, category) && (tag == ALL || IsTopTag(axis, category, tag)))
      && (found.Some? ==> found.value == PayloadOf(scope, axis, parents, category, tag))
      && (IsTopTag(axis, category, tag) ==> HasCategory(axis, category) && tag != ALL)
  {
    var axis := Axis(scope, tags);
    KeysAreUnique(axis);
    FindInView(scope, tags, parents, StatsKey(category, tag));
    if IsTopTag(axis, category, tag) {
      TopTagsOccur(axis, category, tag);
    }
  }

  /** What answers a request: the asked tag if it is listed for the category, else the whole category. */
  lemma GetStatsAnswers(scope: seq<Bid>, tags: seq<BidTag>, parents: seq<InstitutionRollup.Pair>,
                        category: string, tag: Option<string>, strip: string -> string)
    ensures var axis := Axis(scope, tags); var text := strip(if tag.Some? then tag.value else "");
      var asked := if text == "" then ALL else text;
      var answer := GetStats(View(scope, tags, parents), category, tag, strip);
      && (answer.None? <==> !HasCategory(axis, category))
      && (answer.Some? ==>
            var applied := answer.value.appliedTag;
            && applied == (if IsTopTag(axis, category, asked) then Some(asked) else None)
            && answer.value.payload == PayloadOf(scope, axis, parents, category, if applied.Some? then asked else ALL))
  {
    FindAnswers(scope, tags, parents, category, Requested(tag, strip));
    FindAnswers(scope, tags, parents, category, ALL);
  }

  /** An applied tag is always in the tag list that comes with it. */
  lemma AppliedTagIsListed(scope: seq<Bid>, tags: seq<BidTag>, parents: seq<InstitutionRollup.Pair>,
                           category: string, tag: Option<string>, strip: string -> string)
    ensures var answer := GetStats(View(scope, tags, parents), category, tag, strip);
      answer.Some? && answer.value.appliedTag.Some? ==>
        exists g :: g in answer.value.payload.tags && g.key == answer.value.appliedTag.value
  {
    GetStatsAnswers(scope, tags, parents, category, tag, strip);
  }
}
