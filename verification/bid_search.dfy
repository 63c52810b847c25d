/**
 Bid listing and search (app/infra/db/repositories/bid_repository.py and
 app/services/bid_service.py) over a fixed snapshot of bid_table: the exposure gates, the
 search filters, the deadline orders and the page arithmetic.
 */
module BidSearch {
  import opened Wrappers
  import opened Ordering
  import opened LikePattern

  const PAGE_SIZE: nat := 20
  const SEARCH_PAGE_SIZE: nat := 24

  /** `canceled` marks a cancellation notice, which repeats the notice number of what it cancels. */
  datatype Bid = Bid(
    id: string, noticeNo: string, canceled: bool, merged: bool, category: string,
    title: Option<string>, demander: Option<string>, issuer: Option<string>,
    closesAt: Option<int>, postedAt: Option<int>)

  type Table = seq<Bid>

  function Where(rows: Table, p: Bid -> bool): Table {
    if rows == [] then [] else (if p(rows[0]) then [rows[0]] else []) + Where(rows[1..], p)
  }

  lemma {:induction false} WhereSelects(rows: Table, p: Bid -> bool)
    ensures forall b :: b in Where(rows, p) <==> b in rows && p(b)
  {
    if rows != [] {
      WhereSelects(rows[1..], p);
      assert rows == [rows[0]] + rows[1..];
    }
  }

  ghost predicate DistinctIds(rows: Table) {
    forall i, j :: 0 <= i < j < |rows| ==> rows[i].id != rows[j].id
  }

  lemma {:induction false} WhereKeepsDistinctIds(rows: Table, p: Bid -> bool)
    requires DistinctIds(rows)
    ensures DistinctIds(Where(rows, p))
  {
    if rows != [] {
      var rest := rows[1..];
      forall i, j | 0 <= i < j < |rest| ensures rest[i].id != rest[j].id {
        assert rest[i] == rows[i + 1] && rest[j] == rows[j + 1];
      }
      WhereKeepsDistinctIds(rest, p);
      WhereSelects(rest, p);
      forall b | b in Where(rest, p) ensures b.id != rows[0].id {
        var i :| 0 <= i < |rest| && rest[i] == b;
        assert rows[i + 1].id != rows[0].id;
      }
    }
  }

  // ---------------------------------------------------------------- filters

  /** Merged, and no cancellation notice under the same number. */
  predicate Exposed(table: Table, b: Bid) {
    b.merged && forall c :: c in table ==> !(c.noticeNo == b.noticeNo && c.canceled)
  }

  predicate Undue(b: Bid, after: Option<int>) {
    after.None? || b.closesAt.None? || b.closesAt.value >= after.value
  }

  predicate FieldMatches(field: Option<string>, q: string, fold: char -> char) {
    field.Some? && ILike(ContainsPattern(q), field.value, fold)
  }

  predicate KeywordMatches(b: Bid, q: Option<string>, fold: char -> char) {
    q.None? || q.value == [] || FieldMatches(b.title, q.value, fold)
    || FieldMatches(b.demander, q.value, fold) || FieldMatches(b.issuer, q.value, fold)
  }

  datatype Query = Query(category: Option<string>, after: Option<int>, keyword: Option<string>)

  predicate Matches(table: Table, b: Bid, query: Query, fold: char -> char) {
    && Exposed(table, b)
    && (query.category.None? || b.category == query.category.value)
    && Undue(b, query.after)
    && KeywordMatches(b, query.keyword, fold)
  }

  /** A bid is found by a keyword exactly when one of its three names contains it up to case. */
  lemma KeywordFindsContainingNames(b: Bid, q: string, fold: char -> char)
    requires KeepsMeta(fold) && q != []
    ensures KeywordMatches(b, Some(q), fold) <==>
      exists name :: name in {b.title, b.demander, b.issuer} && name.Some? && Occurs(Fold(q, fold), Fold(name.value, fold))
  {
    forall name: Option<string> | name in {b.title, b.demander, b.issuer} && name.Some?
      ensures FieldMatches(name, q, fold) <==> Occurs(Fold(q, fold), Fold(name.value, fold))
    {
      ILikeMatchesFoldedOccurrences(q, name.value, fold);
    }
  }

  function Found(table: Table, query: Query, fold: char -> char): Table {
    Where(table, b => Matches(table, b, query, fold))
  }

  // ---------------------------------------------------------------- orders

  function Bucket(b: Bid, now: int): int {
    if b.closesAt.None? then 2 else if b.closesAt.value < now then 1 else 0
  }

  /** The folded key: the epoch, negated once it has passed. */
  function Within(b: Bid, now: int): int {
    if b.closesAt.None? then 0 else if b.closesAt.value < now then -b.closesAt.value else b.closesAt.value
  }

  /** `_deadline_order`: bucket, folded epoch, id, all ascending. */
  predicate DeadlineLess(a: Bid, b: Bid, now: int) {
    || Bucket(a, now) < Bucket(b, now)
    || (Bucket(a, now) == Bucket(b, now)
        && (Within(a, now) < Within(b, now) || (Within(a, now) == Within(b, now) && LexLess(a.id, b.id))))
  }

  /** Nearest close first, undated last: the order of list_page. */
  predicate ListLess(a: Bid, b: Bid) {
    || (a.closesAt.Some? && b.closesAt.None?)
    || (a.closesAt.Some? && b.closesAt.Some? && a.closesAt.value < b.closesAt.value)
    || (a.closesAt == b.closesAt && LexLess(a.id, b.id))
  }

  /** Latest posting first, unknown last. */
  predicate RecentLess(a: Bid, b: Bid) {
    || (a.postedAt.Some? && b.postedAt.None?)
    || (a.postedAt.Some? && b.postedAt.Some? && a.postedAt.value > b.postedAt.value)
    || (a.postedAt == b.postedAt && LexLess(a.id, b.id))
  }

  datatype Sort = Deadline | Recent

  function SearchOrder(sort: Sort, now: int): Less<Bid> {
    if sort.Recent? then (a, b) => RecentLess(a, b) else (a, b) => DeadlineLess(a, b, now)
  }

  predicate IsOpen(b: Bid, now: int) {
    b.closesAt.Some? && b.closesAt.value >= now
  }

  predicate IsClosed(b: Bid, now: int) {
    b.closesAt.Some? && b.closesAt.value < now
  }

  /** What the deadline order means: open by nearest close, then closed by latest close, then undated. */
  lemma DeadlineOrderMeans(a: Bid, b: Bid, now: int)
    ensures IsOpen(a, now) && !IsOpen(b, now) ==> DeadlineLess(a, b, now)
    ensures IsClosed(a, now) && b.closesAt.None? ==> DeadlineLess(a, b, now)
    ensures IsOpen(a, now) && IsOpen(b, now) && a.closesAt.value < b.closesAt.value ==> DeadlineLess(a, b, now)
    ensures IsClosed(a, now) && IsClosed(b, now) && a.closesAt.value > b.closesAt.value ==> DeadlineLess(a, b, now)
    ensures a.closesAt == b.closesAt ==> (DeadlineLess(a, b, now) <==> LexLess(a.id, b.id))
    ensures DeadlineLess(a, b, now) ==> !DeadlineLess(b, a, now)
  {
    LexLessIsTotal(a.id, b.id);
  }

  /** Postings from the latest, unknown ones last, equal ones by id. */
  lemma RecentOrderMeans(a: Bid, b: Bid)
    ensures a.postedAt.Some? && b.postedAt.None? ==> RecentLess(a, b) && !RecentLess(b, a)
    ensures a.postedAt.Some? && b.postedAt.Some? && a.postedAt.value > b.postedAt.value ==> RecentLess(a, b) && !RecentLess(b, a)
    ensures a.postedAt == b.postedAt ==> (RecentLess(a, b) <==> LexLess(a.id, b.id))
  {
  }

  /** The nearest close first, undated bids last, equal closes by id. */
  lemma ListOrderMeans(a: Bid, b: Bid)
    ensures a.closesAt.Some? && b.closesAt.None? ==> ListLess(a, b) && !ListLess(b, a)
    ensures a.closesAt.Some? && b.closesAt.Some? && a.closesAt.value < b.closesAt.value ==> ListLess(a, b) && !ListLess(b, a)
    ensures a.closesAt == b.closesAt ==> (ListLess(a, b) <==> LexLess(a.id, b.id))
  {
  }

  lemma DeadlineIsTransitive(a: Bid, b: Bid, c: Bid, now: int)
    requires DeadlineLess(a, b, now) && DeadlineLess(b, c, now)
    ensures DeadlineLess(a, c, now)
  {
    if LexLess(a.id, b.id) && LexLess(b.id, c.id) {
      LexLessIsTransitive(a.id, b.id, c.id);
    }
  }

  lemma RecentIsTransitive(a: Bid, b: Bid, c: Bid)
    requires RecentLess(a, b) && RecentLess(b, c)
    ensures RecentLess(a, c)
  {
    if LexLess(a.id, b.id) && LexLess(b.id, c.id) {
      LexLessIsTransitive(a.id, b.id, c.id);
    }
  }

  /** With distinct ids both search orders are strict total orders, so every page is determined. */
  lemma SearchOrderIsTotal(sort: Sort, now: int, rows: Table)
    requires DistinctIds(rows)
    ensures StrictTotalOn(SearchOrder(sort, now), rows)
  {
    var less := SearchOrder(sort, now);
    forall a, b ensures less(a, b) ==> !less(b, a) {
      LexLessIsTotal(a.id, b.id);
    }
    forall a, b, c | less(a, b) && less(b, c) ensures less(a, c) {
      if sort.Recent? {
        RecentIsTransitive(a, b, c);
      } else {
        DeadlineIsTransitive(a, b, c, now);
      }
    }
    forall i, j | 0 <= i < j < |rows| ensures less(rows[i], rows[j]) || less(rows[j], rows[i]) {
      LexLessIsTotal(rows[i].id, rows[j].id);
    }
  }

  lemma ListOrderIsTotal(rows: Table)
    requires DistinctIds(rows)
    ensures StrictTotalOn((a, b) => ListLess(a, b), rows)
  {
    var less: Less<Bid> := (a, b) => ListLess(a, b);
    forall a, b ensures less(a, b) ==> !less(b, a) {
      LexLessIsTotal(a.id, b.id);
    }
    forall a, b, c | less(a, b) && less(b, c) ensures less(a, c) {
      if LexLess(a.id, b.id) && LexLess(b.id, c.id) {
        LexLessIsTransitive(a.id, b.id, c.id);
      }
    }
    forall i, j | 0 <= i < j < |rows| ensures less(rows[i], rows[j]) || less(rows[j], rows[i]) {
      LexLessIsTotal(rows[i].id, rows[j].id);
    }
  }

  /** With closed bids filtered out the search shows the order of the home list. */
  lemma WithoutClosedBidsSearchIsTheListOrder(rows: Table, now: int)
    requires DistinctIds(rows) && forall b :: b in rows ==> Undue(b, Some(now))
    ensures SortBy(SearchOrder(Deadline, now), rows) == SortBy((a, b) => ListLess(a, b), rows)
  {
    var list: Less<Bid> := (a, b) => ListLess(a, b);
    SearchOrderIsTotal(Deadline, now, rows);
    ListOrderIsTotal(rows);
    forall a, b | a in rows && b in rows ensures SearchOrder(Deadline, now)(a, b) <==> list(a, b) {
      assert Undue(a, Some(now)) && Undue(b, Some(now));
    }
    SortByAgrees(SearchOrder(Deadline, now), list, rows);
  }

  // ---------------------------------------------------------------- the service

  function StripLeft(s: string, isSpace: char -> bool): string {
    if s != [] && isSpace(s[0]) then StripLeft(s[1..], isSpace) else s
  }

  function StripRight(s: string, isSpace: char -> bool): string {
    if s != [] && isSpace(s[|s| - 1]) then StripRight(s[..|s| - 1], isSpace) else s
  }

  /** A blank keyword is no keyword. */
  function Keyword(q: Option<string>, isSpace: char -> bool): Option<string> {
    if q.None? then None
    else
      var stripped := StripRight(StripLeft(q.value, isSpace), isSpace);
      if stripped == [] then None else Some(stripped)
  }

  lemma {:induction false} StripLeftStops(s: string, isSpace: char -> bool)
    ensures StripLeft(s, isSpace) != [] ==> !isSpace(StripLeft(s, isSpace)[0])
    ensures StripLeft(s, isSpace) == [] <==> forall i :: 0 <= i < |s| ==> isSpace(s[i])
  {
    if s != [] && isSpace(s[0]) {
      StripLeftStops(s[1..], isSpace);
      assert forall i :: 0 < i < |s| ==> s[i] == s[1..][i - 1];
    }
  }

  lemma {:induction false} StripRightKeepsHead(s: string, isSpace: char -> bool)
    requires s != [] && !isSpace(s[0])
    ensures StripRight(s, isSpace) != []
  {
    if isSpace(s[|s| - 1]) {
      StripRightKeepsHead(s[..|s| - 1], isSpace);
    }
  }

  lemma KeywordIsDroppedIffBlank(q: string, isSpace: char -> bool)
    ensures Keyword(Some(q), isSpace).None? <==> forall i :: 0 <= i < |q| ==> isSpace(q[i])
  {
    StripLeftStops(q, isSpace);
    if StripLeft(q, isSpace) != [] {
      StripRightKeepsHead(StripLeft(q, isSpace), isSpace);
    }
  }

  ghost predicate AllSpace(s: string, isSpace: char -> bool) {
    forall i :: 0 <= i < |s| ==> isSpace(s[i])
  }

  lemma {:induction false} StripLeftCuts(s: string, isSpace: char -> bool) returns (left: string)
    ensures s == left + StripLeft(s, isSpace) && AllSpace(left, isSpace)
  {
    left := "";
    if s != [] && isSpace(s[0]) {
      var more := StripLeftCuts(s[1..], isSpace);
      left := [s[0]] + more;
    }
  }

  lemma {:induction false} StripRightCuts(s: string, isSpace: char -> bool) returns (right: string)
    ensures s == StripRight(s, isSpace) + right && AllSpace(right, isSpace)
    ensures StripRight(s, isSpace) != [] ==> !isSpace(StripRight(s, isSpace)[|StripRight(s, isSpace)| - 1])
  {
    right := "";
    if s != [] && isSpace(s[|s| - 1]) {
      var more := StripRightCuts(s[..|s| - 1], isSpace);
      right := more + [s[|s| - 1]];
    }
  }

  /** A keyword that is kept is the text without the white space around it, and no more is cut. */
  lemma KeywordIsTheTextWithin(q: string, isSpace: char -> bool) returns (left: string, right: string)
    requires Keyword(Some(q), isSpace).Some?
    ensures var k := Keyword(Some(q), isSpace).value;
      && q == left + k + right && AllSpace(left, isSpace) && AllSpace(right, isSpace)
      && k != "" && !isSpace(k[0]) && !isSpace(k[|k| - 1])
  {
    left := StripLeftCuts(q, isSpace);
    right := StripRightCuts(StripLeft(q, isSpace), isSpace);
    StripLeftStops(q, isSpace);
  }

  datatype Response = Response(total: nat, items: Table)

  function SearchQuery(category: Option<string>, q: Option<string>, includeClosed: bool, now: int, isSpace: char -> bool): Query {
    Query(category, if includeClosed then None else Some(now), Keyword(q, isSpace))
  }

  /** search_bids: the count and one page, both over the same filters. */
  function SearchBids(table: Table, query: Query, sort: Sort, page: nat, now: int, fold: char -> char): Response
    requires page >= 1
  {
    var rows := Found(table, query, fold);
    Response(|rows|, Page(SortBy(SearchOrder(sort, now), rows), SEARCH_PAGE_SIZE, (page - 1) * SEARCH_PAGE_SIZE))
  }

  /** The items of pages 1 to `n`, one after the other. */
  function FirstPages(table: Table, query: Query, sort: Sort, n: nat, now: int, fold: char -> char): Table {
    if n == 0 then [] else FirstPages(table, query, sort, n - 1, now, fold) + SearchBids(table, query, sort, n, now, fold).items
  }

  lemma {:induction false} FirstPagesArePages(table: Table, query: Query, sort: Sort, n: nat, now: int, fold: char -> char)
    ensures FirstPages(table, query, sort, n, now, fold)
         == Pages(SortBy(SearchOrder(sort, now), Found(table, query, fold)), SEARCH_PAGE_SIZE, n)
  {
    if n > 0 {
      FirstPagesArePages(table, query, sort, n - 1, now, fold);
    }
  }

  /**
   Paging to the end shows every matching bid exactly once, in the order asked for, and as
   many as the reported total; pages beyond are empty.
   */
  lemma PagesShowEveryMatchOnce(table: Table, query: Query, sort: Sort, n: nat, now: int, fold: char -> char)
    requires DistinctIds(table) && n * SEARCH_PAGE_SIZE >= |Found(table, query, fold)|
    ensures var shown := FirstPages(table, query, sort, n, now, fold);
      && |shown| == SearchBids(table, query, sort, n + 1, now, fold).total
      && Sorted(SearchOrder(sort, now), shown)
      && multiset(shown) == multiset(Found(table, query, fold))
      && SearchBids(table, query, sort, n + 1, now, fold).items == []
    ensures forall b :: b in Found(table, query, fold) <==> b in table && Matches(table, b, query, fold)
  {
    var rows := Found(table, query, fold);
    var p := (b: Bid) => Matches(table, b, query, fold);
    assert rows == Where(table, p);
    WhereSelects(table, p);
    WhereKeepsDistinctIds(table, p);
    SearchOrderIsTotal(sort, now, rows);
    SortBySorts(SearchOrder(sort, now), rows);
    FirstPagesArePages(table, query, sort, n, now, fold);
    PagesConcatenate(SortBy(SearchOrder(sort, now), rows), SEARCH_PAGE_SIZE, n);
    var sorted := SortBy(SearchOrder(sort, now), rows);
    assert sorted[..|sorted|] == sorted;
  }

  /** The name contains the text, up to case. */
  ghost predicate Contains(name: Option<string>, text: string, fold: char -> char) {
    name.Some? && Occurs(Fold(text, fold), Fold(name.value, fold))
  }

  /** No notice under the bid's number cancels it. */
  ghost predicate Uncanceled(table: Table, b: Bid) {
    !exists i :: 0 <= i < |table| && table[i].canceled && table[i].noticeNo == b.noticeNo
  }

  /**
   Which bids a search shows: the merged and uncanceled ones of the category that are not
   closed, unless closed ones are asked for, and one of whose names contains the keyword.
   */
  lemma SearchShowsExactly(
    table: Table, category: Option<string>, q: Option<string>, includeClosed: bool, now: int, fold: char -> char, isSpace: char -> bool, b: Bid)
    requires KeepsMeta(fold)
    ensures b in Found(table, SearchQuery(category, q, includeClosed, now, isSpace), fold) <==>
      && b in table && b.merged && Uncanceled(table, b)
      && (category.Some? ==> b.category == category.value)
      && (includeClosed || !IsClosed(b, now))
      && (Blank(q, isSpace)
          || (Keyword(q, isSpace).Some?
              && var text := Keyword(q, isSpace).value;
                 Contains(b.title, text, fold) || Contains(b.demander, text, fold) || Contains(b.issuer, text, fold)))
  {
    var query := SearchQuery(category, q, includeClosed, now, isSpace);
    WhereSelects(table, x => Matches(table, x, query, fold));
    assert Exposed(table, b) <==> b.merged && Uncanceled(table, b);
    if q.Some? {
      KeywordIsDroppedIffBlank(q.value, isSpace);
    }
    if Keyword(q, isSpace).Some? {
      var text := Keyword(q, isSpace).value;
      assert text != "";
      KeywordFindsContainingNames(b, text, fold);
      assert KeywordMatches(b, Some(text), fold) <==>
        Contains(b.title, text, fold) || Contains(b.demander, text, fold) || Contains(b.issuer, text, fold);
    }
  }

  // ---------------------------------------------------------------- the home list

  /** list_bids' filters: the posting interval is half open, and unknown postings fall outside it. */
  predicate Listed(table: Table, b: Bid, category: Option<string>, from: Option<int>, until: Option<int>, now: int) {
    && Exposed(table, b)
    && (category.None? || b.category == category.value)
    && (from.None? || (b.postedAt.Some? && b.postedAt.value >= from.value))
    && (until.None? || (b.postedAt.Some? && b.postedAt.value < until.value))
    && Undue(b, Some(now))
  }

  function ListBids(table: Table, category: Option<string>, from: Option<int>, until: Option<int>, page: nat, now: int): Response
    requires page >= 1
  {
    var rows := Where(table, b => Listed(table, b, category, from, until, now));
    Response(|rows|, Page(SortBy((a, b) => ListLess(a, b), rows), PAGE_SIZE, (page - 1) * PAGE_SIZE))
  }

  function FirstListPages(table: Table, category: Option<string>, from: Option<int>, until: Option<int>, n: nat, now: int): Table {
    if n == 0 then []
    else FirstListPages(table, category, from, until, n - 1, now) + ListBids(table, category, from, until, n, now).items
  }

  lemma {:induction false} FirstListPagesArePages(table: Table, category: Option<string>, from: Option<int>, until: Option<int>, n: nat, now: int)
    ensures FirstListPages(table, category, from, until, n, now)
         == Pages(SortBy((a, b) => ListLess(a, b), Where(table, b => Listed(table, b, category, from, until, now))), PAGE_SIZE, n)
  {
    if n > 0 {
      FirstListPagesArePages(table, category, from, until, n - 1, now);
    }
  }

  lemma {:induction false} WhereAgrees(rows: Table, p: Bid -> bool, q: Bid -> bool)
    requires forall b :: b in rows ==> p(b) == q(b)
    ensures Where(rows, p) == Where(rows, q)
  {
    if rows != [] {
      WhereAgrees(rows[1..], p, q);
    }
  }

  ghost predicate Blank(q: Option<string>, isSpace: char -> bool) {
    q.None? || forall i :: 0 <= i < |q.value| ==> isSpace(q.value[i])
  }

  /** Which bids the home list shows: posted from `from` on and before `until`, if these are given. */
  lemma ListShowsExactly(table: Table, category: Option<string>, from: Option<int>, until: Option<int>, n: nat, now: int, b: Bid)
    requires DistinctIds(table) && n * PAGE_SIZE >= ListBids(table, category, from, until, 1, now).total
    ensures b in FirstListPages(table, category, from, until, n, now) <==>
      && b in table && b.merged && Uncanceled(table, b)
      && (category.Some? ==> b.category == category.value) && !IsClosed(b, now)
      && (from.Some? ==> b.postedAt.Some? && from.value <= b.postedAt.value)
      && (until.Some? ==> b.postedAt.Some? && b.postedAt.value < until.value)
  {
    var l := (x: Bid) => Listed(table, x, category, from, until, now);
    var less: Less<Bid> := (x, y) => ListLess(x, y);
    var rows := Where(table, l);
    WhereSelects(table, l);
    WhereKeepsDistinctIds(table, l);
    ListOrderIsTotal(rows);
    SortBySorts(less, rows);
    FirstListPagesArePages(table, category, from, until, n, now);
    PagesConcatenate(SortBy(less, rows), PAGE_SIZE, n);
    var shown := FirstListPages(table, category, from, until, n, now);
    assert shown == SortBy(less, rows);
    assert b in shown <==> b in multiset(shown);
    assert b in rows <==> b in multiset(rows);
    assert Exposed(table, b) <==> b.merged && Uncanceled(table, b);
  }

  /** Paged to the end, a search without a keyword or with a blank one and the home list show the same bids in the same order. */
  lemma DefaultSearchIsTheHomeList(
    table: Table, category: Option<string>, q: Option<string>, n: nat, m: nat, now: int, fold: char -> char, isSpace: char -> bool)
    requires DistinctIds(table) && Blank(q, isSpace)
    requires var total := ListBids(table, category, None, None, 1, now).total;
      n * SEARCH_PAGE_SIZE >= total && m * PAGE_SIZE >= total
    ensures FirstPages(table, SearchQuery(category, q, false, now, isSpace), Deadline, n, now, fold)
         == FirstListPages(table, category, None, None, m, now)
  {
    var query := SearchQuery(category, q, false, now, isSpace);
    if q.Some? {
      KeywordIsDroppedIffBlank(q.value, isSpace);
    }
    assert query == Query(category, Some(now), None);
    var p := (b: Bid) => Matches(table, b, query, fold);
    var l := (b: Bid) => Listed(table, b, category, None, None, now);
    WhereAgrees(table, p, l);
    var rows := Found(table, query, fold);
    assert rows == Where(table, p) == Where(table, l);
    WhereSelects(table, p);
    WhereKeepsDistinctIds(table, p);
    WithoutClosedBidsSearchIsTheListOrder(rows, now);
    ListOrderIsTotal(rows);
    var sorted := SortBy((a, b) => ListLess(a, b), rows);
    SortBySorts((a, b) => ListLess(a, b), rows);
    FirstPagesArePages(table, query, Deadline, n, now, fold);
    FirstListPagesArePages(table, category, None, None, m, now);
    PagesConcatenate(sorted, SEARCH_PAGE_SIZE, n);
    PagesConcatenate(sorted, PAGE_SIZE, m);
  }
}
