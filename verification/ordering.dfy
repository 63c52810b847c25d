/** Sorting by a strict order, pages of a sorted list, and the order of identifiers. */
module Ordering {
  type Less<!T> = (T, T) -> bool

  /** A strict total order on the elements of `rows`. */
  ghost predicate StrictTotalOn<T(!new)>(less: Less<T>, rows: seq<T>) {
    && (forall a, b :: less(a, b) ==> !less(b, a))
    && (forall a, b, c :: less(a, b) && less(b, c) ==> less(a, c))
    && (forall i, j :: 0 <= i < j < |rows| ==> less(rows[i], rows[j]) || less(rows[j], rows[i]))
  }

  ghost predicate Sorted<T(!new)>(less: Less<T>, rows: seq<T>) {
    forall i, j :: 0 <= i < j < |rows| ==> less(rows[i], rows[j])
  }

  function Insert<T>(less: Less<T>, x: T, rows: seq<T>): seq<T> {
    if rows == [] || less(x, rows[0]) then [x] + rows else [rows[0]] + Insert(less, x, rows[1..])
  }

  /** ORDER BY. */
  function SortBy<T>(less: Less<T>, rows: seq<T>): seq<T> {
    if rows == [] then [] else Insert(less, rows[0], SortBy(less, rows[1..]))
  }

  lemma {:induction false} InsertKeeps<T(!new)>(less: Less<T>, x: T, rows: seq<T>)
    requires forall a, b :: less(a, b) ==> !less(b, a)
    requires forall a, b, c :: less(a, b) && less(b, c) ==> less(a, c)
    requires forall y :: y in rows ==> less(x, y) || less(y, x)
    requires Sorted(less, rows)
    ensures Sorted(less, Insert(less, x, rows))
    ensures multiset(Insert(less, x, rows)) == multiset(rows) + multiset{x}
  {
    if rows == [] || less(x, rows[0]) {
      PrependKeepsSorted(less, x, rows);
    } else {
      var rest := Insert(less, x, rows[1..]);
      assert rows == [rows[0]] + rows[1..];
      InsertKeeps(less, x, rows[1..]);
      forall y | y in rest ensures less(rows[0], y) {
        assert y in multiset(rest);
        assert y in rows[1..] || y == x;
      }
      PrependKeepsSorted(less, rows[0], rest);
    }
  }

  lemma PrependKeepsSorted<T(!new)>(less: Less<T>, x: T, rows: seq<T>)
    requires forall a, b, c :: less(a, b) && less(b, c) ==> less(a, c)
    requires Sorted(less, rows) && ((rows != [] && less(x, rows[0])) || forall y :: y in rows ==> less(x, y))
    ensures Sorted(less, [x] + rows)
  {
    forall j | 0 <= j < |rows| ensures less(x, rows[j]) {
      assert j > 0 ==> less(rows[0], rows[j]);
    }
  }

  /** Sorting gives a strictly sorted rearrangement. */
  lemma {:induction false} SortBySorts<T(!new)>(less: Less<T>, rows: seq<T>)
    requires StrictTotalOn(less, rows)
    ensures Sorted(less, SortBy(less, rows)) && multiset(SortBy(less, rows)) == multiset(rows)
    ensures |SortBy(less, rows)| == |rows|
  {
    if rows != [] {
      var rest := rows[1..];
      assert rows == [rows[0]] + rest;
      assert StrictTotalOn(less, rest);
      SortBySorts(less, rest);
      forall y | y in SortBy(less, rest) ensures less(rows[0], y) || less(y, rows[0]) {
        assert y in multiset(SortBy(less, rest));
        var i :| 0 <= i < |rest| && rest[i] == y;
        assert rows[i + 1] == y;
      }
      InsertKeeps(less, rows[0], SortBy(less, rest));
      assert |multiset(SortBy(less, rows))| == |multiset(rows)|;
    }
  }

  /** It is the only one: ORDER BY a strict total order determines the result. */
  lemma {:induction false} SortedIsUnique<T(!new)>(less: Less<T>, a: seq<T>, b: seq<T>)
    requires forall x, y :: less(x, y) ==> !less(y, x)
    requires Sorted(less, a) && Sorted(less, b) && multiset(a) == multiset(b)
    ensures a == b
  {
    assert |multiset(a)| == |a| && |multiset(b)| == |b|;
    if a != [] {
      SameHead(less, a, b);
      TailMultiset(a);
      TailMultiset(b);
      SortedIsUnique(less, a[1..], b[1..]);
    }
  }

  lemma TailMultiset<T>(s: seq<T>)
    requires s != []
    ensures multiset(s[1..]) == multiset(s) - multiset{s[0]}
  {
    assert s == [s[0]] + s[1..];
  }

  lemma SameHead<T(!new)>(less: Less<T>, a: seq<T>, b: seq<T>)
    requires forall x, y :: less(x, y) ==> !less(y, x)
    requires Sorted(less, a) && Sorted(less, b) && multiset(a) == multiset(b) && a != [] && b != []
    ensures a[0] == b[0]
  {
    assert a[0] in multiset(a) && b[0] in multiset(b);
    var i :| 0 <= i < |b| && b[i] == a[0];
    var j :| 0 <= j < |a| && a[j] == b[0];
    assert i > 0 ==> less(b[0], a[0]);
    assert j > 0 ==> less(a[0], b[0]);
  }

  /** Orders that agree on the rows sort them alike. */
  lemma SortByAgrees<T(!new)>(less: Less<T>, other: Less<T>, rows: seq<T>)
    requires StrictTotalOn(less, rows) && StrictTotalOn(other, rows)
    requires forall a, b :: a in rows && b in rows ==> (less(a, b) <==> other(a, b))
    ensures SortBy(less, rows) == SortBy(other, rows)
  {
    SortBySorts(less, rows);
    SortBySorts(other, rows);
    var sorted := SortBy(other, rows);
    forall i, j | 0 <= i < j < |sorted| ensures less(sorted[i], sorted[j]) {
      assert sorted[i] in multiset(sorted) && sorted[j] in multiset(sorted);
      assert other(sorted[i], sorted[j]);
    }
    SortedIsUnique(less, SortBy(less, rows), sorted);
  }

  // ---------------------------------------------------------------- pages

  function Min(a: nat, b: nat): nat {
    if a < b then a else b
  }

  /** LIMIT and OFFSET. */
  function Page<T>(rows: seq<T>, limit: nat, offset: nat): seq<T> {
    var first := Min(offset, |rows|);
    rows[first..Min(first + limit, |rows|)]
  }

  /** The first `n` pages of `size` rows, one after the other. */
  function Pages<T>(rows: seq<T>, size: nat, n: nat): seq<T> {
    if n == 0 then [] else Pages(rows, size, n - 1) + Page(rows, size, (n - 1) * size)
  }

  lemma NextPage<T>(rows: seq<T>, size: nat, offset: nat)
    ensures rows[..Min(offset, |rows|)] + Page(rows, size, offset) == rows[..Min(offset + size, |rows|)]
  {
  }

  lemma {:induction false} PagesConcatenate<T>(rows: seq<T>, size: nat, n: nat)
    ensures Pages(rows, size, n) == rows[..Min(n * size, |rows|)]
  {
    if n > 0 {
      PagesConcatenate(rows, size, n - 1);
      NextPage(rows, size, (n - 1) * size);
      assert n * size == (n - 1) * size + size;
    }
  }

  /** The first rows of a sorted list are above all the others. */
  lemma FirstRowsAreAboveTheRest<T(!new)>(less: Less<T>, rows: seq<T>, n: nat)
    requires StrictTotalOn(less, rows)
    ensures var top := Page(SortBy(less, rows), n, 0);
      && |top| == Min(n, |rows|) && Sorted(less, top)
      && (forall g :: g in top ==> g in rows)
      && (forall g, h :: g in top && h in rows && h !in top ==> less(g, h))
  {
    SortBySorts(less, rows);
    var sorted := SortBy(less, rows);
    var top := Page(sorted, n, 0);
    assert top == sorted[..|top|];
    forall g | g in top ensures g in rows {
      assert g in multiset(sorted);
    }
    forall g, h | g in top && h in rows && h !in top ensures less(g, h) {
      assert h in multiset(sorted);
      var i :| 0 <= i < |top| && top[i] == g;
      var j :| 0 <= j < |sorted| && sorted[j] == h;
      NotAmongTheFirst(sorted, |top|, j);
    }
  }

  lemma NotAmongTheFirst<T>(s: seq<T>, n: nat, j: nat)
    requires n <= |s| && j < |s| && s[j] !in s[..n]
    ensures j >= n
  {
    assert forall i :: 0 <= i < n ==> s[..n][i] == s[i];
  }

  // ---------------------------------------------------------------- identifiers

  /** Lexicographic order of strings. */
  predicate LexLess(a: string, b: string) {
    if b == [] then false
    else if a == [] then true
    else a[0] < b[0] || (a[0] == b[0] && LexLess(a[1..], b[1..]))
  }

  lemma {:induction false} LexLessIsTotal(a: string, b: string)
    ensures LexLess(a, b) ==> !LexLess(b, a)
    ensures a != b ==> LexLess(a, b) || LexLess(b, a)
    ensures a == b ==> !LexLess(a, b)
  {
    if a != [] && b != [] {
      LexLessIsTotal(a[1..], b[1..]);
      if a[0] == b[0] {
        assert a == [a[0]] + a[1..] && b == [b[0]] + b[1..];
      }
    }
  }

  /** Dictionary order: a beginning comes before what it begins, and else the first difference decides. */
  lemma {:induction false} LexLessMeans(common: string, a: string, b: string)
    requires a == [] || b == [] || a[0] != b[0]
    ensures LexLess(common + a, common + b) <==> b != [] && (a == [] || a[0] < b[0])
  {
    if common == [] {
      assert common + a == a && common + b == b;
    } else {
      assert (common + a)[1..] == common[1..] + a && (common + b)[1..] == common[1..] + b;
      LexLessMeans(common[1..], a, b);
    }
  }

  lemma {:induction false} LexLessIsTransitive(a: string, b: string, c: string)
    requires LexLess(a, b) && LexLess(b, c)
    ensures LexLess(a, c)
  {
    if a != [] && b != [] && c != [] {
      if a[0] == b[0] && b[0] == c[0] {
        LexLessIsTransitive(a[1..], b[1..], c[1..]);
      }
    }
  }
}
