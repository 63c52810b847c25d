/** SELECT DISTINCT, WHERE and GROUP BY with COUNT, on sequences of rows. */
module Grouping {
  import opened Ordering

  function Filter<T>(rows: seq<T>, p: T -> bool): seq<T> {
    if rows == [] then []
    else Filter(rows[..|rows| - 1], p) + if p(rows[|rows| - 1]) then [rows[|rows| - 1]] else []
  }

  function Map<T, U>(rows: seq<T>, f: T -> U): seq<U> {
    seq(|rows|, i requires 0 <= i < |rows| => f(rows[i]))
  }

  /** SELECT DISTINCT, in order of first appearance. */
  function Distinct<K(==)>(s: seq<K>): seq<K> {
    if s == [] then []
    else
      var before, last := Distinct(s[..|s| - 1]), s[|s| - 1];
      if last in before then before else before + [last]
  }

  ghost predicate NoRepeats<K>(s: seq<K>) {
    forall i, j :: 0 <= i < j < |s| ==> s[i] != s[j]
  }

  function CountOf<T, K(==)>(rows: seq<T>, key: T -> K, k: K): nat {
    if rows == [] then 0
    else CountOf(rows[..|rows| - 1], key, k) + if key(rows[|rows| - 1]) == k then 1 else 0
  }

  datatype Cnt<K> = Cnt(key: K, cnt: nat)

  /** One count for each of the keys, zero where no row has it. */
  function Tally<T, K(==)>(rows: seq<T>, key: T -> K, keys: seq<K>): seq<Cnt<K>> {
    if keys == [] then []
    else
      var k := keys[|keys| - 1];
      Tally(rows, key, keys[..|keys| - 1]) + [Cnt(k, CountOf(rows, key, k))]
  }

  /** GROUP BY key: the keys that occur, each with the number of its rows. */
  function GroupBy<T, K(==)>(rows: seq<T>, key: T -> K): seq<Cnt<K>> {
    Tally(rows, key, Distinct(Map(rows, key)))
  }

  function SumCounts<K>(groups: seq<Cnt<K>>): nat {
    if groups == [] then 0 else SumCounts(groups[..|groups| - 1]) + groups[|groups| - 1].cnt
  }

  // ---------------------------------------------------------------- laws

  lemma {:induction false} FilterMembers<T>(rows: seq<T>, p: T -> bool)
    ensures forall r :: r in Filter(rows, p) <==> r in rows && p(r)
  {
    if rows != [] {
      FilterMembers(rows[..|rows| - 1], p);
      assert rows == rows[..|rows| - 1] + [rows[|rows| - 1]];
    }
  }

  lemma {:induction false} FilterConcat<T>(a: seq<T>, b: seq<T>, p: T -> bool)
    ensures Filter(a + b, p) == Filter(a, p) + Filter(b, p)
  {
    if b == [] {
      assert a + b == a;
    } else {
      assert (a + b)[..|a + b| - 1] == a + b[..|b| - 1];
      FilterConcat(a, b[..|b| - 1], p);
    }
  }

  lemma {:induction false} FilterAll<T>(rows: seq<T>, p: T -> bool)
    requires forall r :: r in rows ==> p(r)
    ensures Filter(rows, p) == rows
  {
    if rows != [] {
      var before, last := rows[..|rows| - 1], rows[|rows| - 1];
      assert rows == before + [last];
      FilterAll(before, p);
    }
  }

  lemma {:induction false} FilterNone<T>(rows: seq<T>, p: T -> bool)
    requires forall r :: r in rows ==> !p(r)
    ensures Filter(rows, p) == []
  {
    if rows != [] {
      FilterNone(rows[..|rows| - 1], p);
    }
  }

  /** Rows that meet `p` are those that meet `q` together with those that meet `r`. */
  lemma {:induction false} FilterSplits<T>(rows: seq<T>, p: T -> bool, q: T -> bool, r: T -> bool)
    requires forall x :: x in rows ==> (p(x) <==> q(x) || r(x)) && !(q(x) && r(x))
    ensures |Filter(rows, p)| == |Filter(rows, q)| + |Filter(rows, r)|
  {
    if rows != [] {
      assert rows[|rows| - 1] in rows;
      FilterSplits(rows[..|rows| - 1], p, q, r);
    }
  }

  lemma {:induction false} DistinctHasNoRepeats<K>(s: seq<K>)
    ensures NoRepeats(Distinct(s)) && forall k :: k in Distinct(s) <==> k in s
  {
    if s != [] {
      DistinctHasNoRepeats(s[..|s| - 1]);
      assert s == s[..|s| - 1] + [s[|s| - 1]];
    }
  }

  lemma {:induction false} TallyAt<T, K>(rows: seq<T>, key: T -> K, keys: seq<K>)
    ensures |Tally(rows, key, keys)| == |keys|
    ensures forall i :: 0 <= i < |keys| ==> Tally(rows, key, keys)[i] == Cnt(keys[i], CountOf(rows, key, keys[i]))
  {
    if keys != [] {
      TallyAt(rows, key, keys[..|keys| - 1]);
    }
  }

  lemma {:induction false} TallyOfNothing<T, K>(key: T -> K, keys: seq<K>)
    ensures SumCounts(Tally([], key, keys)) == 0
  {
    if keys != [] {
      TallyOfNothing(key, keys[..|keys| - 1]);
    }
  }

  /** One more row adds one to the sum, if its key is listed. */
  lemma {:induction false} TallyGrows<T, K>(rows: seq<T>, key: T -> K, keys: seq<K>)
    requires rows != [] && NoRepeats(keys)
    ensures SumCounts(Tally(rows, key, keys))
         == SumCounts(Tally(rows[..|rows| - 1], key, keys)) + if key(rows[|rows| - 1]) in keys then 1 else 0
  {
    if keys != [] {
      var fewer, k := keys[..|keys| - 1], keys[|keys| - 1];
      TallyGrows(rows, key, fewer);
      assert keys == fewer + [k];
      assert k !in fewer;
    }
  }

  /** No row is lost and none counted twice when the keys cover the rows. */
  lemma {:induction false} TallyConserves<T, K>(rows: seq<T>, key: T -> K, keys: seq<K>)
    requires NoRepeats(keys) && forall r :: r in rows ==> key(r) in keys
    ensures SumCounts(Tally(rows, key, keys)) == |rows|
  {
    if rows == [] {
      TallyOfNothing(key, keys);
    } else {
      TallyGrows(rows, key, keys);
      TallyConserves(rows[..|rows| - 1], key, keys);
    }
  }

  lemma GroupByConserves<T, K>(rows: seq<T>, key: T -> K)
    ensures SumCounts(GroupBy(rows, key)) == |rows|
  {
    DistinctHasNoRepeats(Map(rows, key));
    forall r | r in rows ensures key(r) in Map(rows, key) {
      var i :| 0 <= i < |rows| && rows[i] == r;
      assert Map(rows, key)[i] == key(r);
    }
    TallyConserves(rows, key, Distinct(Map(rows, key)));
  }

  /** The rows that have this key. */
  function Having<T, K(==)>(rows: seq<T>, key: T -> K, k: K): seq<T> {
    Filter(rows, r => key(r) == k)
  }

  /** The count of a key is the number of rows that have it. */
  lemma {:induction false} CountIsTheNumberOfRows<T, K>(rows: seq<T>, key: T -> K, k: K)
    ensures CountOf(rows, key, k) == |Having(rows, key, k)|
    ensures forall r :: r in Having(rows, key, k) <==> r in rows && key(r) == k
  {
    FilterMembers(rows, r => key(r) == k);
    if rows != [] {
      CountIsTheNumberOfRows(rows[..|rows| - 1], key, k);
    }
  }

  /** Dropping the empty groups keeps the sum. */
  lemma {:induction false} DroppingZeros<K>(groups: seq<Cnt<K>>, p: Cnt<K> -> bool)
    requires forall g :: g in groups && !p(g) ==> g.cnt == 0
    ensures SumCounts(Filter(groups, p)) == SumCounts(groups)
  {
    if groups != [] {
      var before, last := groups[..|groups| - 1], groups[|groups| - 1];
      assert last in groups;
      DroppingZeros(before, p);
      if p(last) {
        assert (Filter(before, p) + [last])[..|Filter(before, p)|] == Filter(before, p);
      } else {
        assert Filter(groups, p) == Filter(before, p);
      }
    }
  }

  // ---------------------------------------------------------------- the largest groups

  /** ORDER BY cnt DESC, key. */
  predicate MoreFrequent(a: Cnt<string>, b: Cnt<string>) {
    a.cnt > b.cnt || (a.cnt == b.cnt && LexLess(a.key, b.key))
  }

  function Largest(groups: seq<Cnt<string>>, n: nat): seq<Cnt<string>> {
    Page(SortBy(MoreFrequent, groups), n, 0)
  }

  lemma MoreFrequentIsTotal(groups: seq<Cnt<string>>)
    requires forall i, j :: 0 <= i < j < |groups| ==> groups[i].key != groups[j].key
    ensures StrictTotalOn(MoreFrequent, groups)
  {
    forall a, b ensures MoreFrequent(a, b) ==> !MoreFrequent(b, a) {
      LexLessIsTotal(a.key, b.key);
    }
    forall a, b, c | MoreFrequent(a, b) && MoreFrequent(b, c) ensures MoreFrequent(a, c) {
      if LexLess(a.key, b.key) && LexLess(b.key, c.key) {
        LexLessIsTransitive(a.key, b.key, c.key);
      }
    }
    forall i, j | 0 <= i < j < |groups| ensures MoreFrequent(groups[i], groups[j]) || MoreFrequent(groups[j], groups[i]) {
      LexLessIsTotal(groups[i].key, groups[j].key);
    }
  }

  ghost predicate DistinctKeys<K>(groups: seq<Cnt<K>>) {
    forall i, j :: 0 <= i < j < |groups| ==> groups[i].key != groups[j].key
  }

  /** The kept groups are groups in order, and each is above every group left out. */
  lemma LargestAreAboveTheRest(groups: seq<Cnt<string>>, n: nat)
    requires DistinctKeys(groups)
    ensures var top := Largest(groups, n);
      && |top| == Min(n, |groups|) && Sorted(MoreFrequent, top)
      && (forall g :: g in top ==> g in groups)
      && (forall g, h :: g in top && h in groups && h !in top ==> MoreFrequent(g, h))
  {
    MoreFrequentIsTotal(groups);
    FirstRowsAreAboveTheRest(MoreFrequent, groups, n);
  }

  /** Groups have distinct keys, each with the number of its rows. */
  lemma GroupsAreExact<T, K>(rows: seq<T>, key: T -> K)
    ensures var groups := GroupBy(rows, key);
      && DistinctKeys(groups)
      && forall i :: 0 <= i < |groups| ==> groups[i].cnt == CountOf(rows, key, groups[i].key)
  {
    DistinctHasNoRepeats(Map(rows, key));
    TallyAt(rows, key, Distinct(Map(rows, key)));
  }

  /** Every row has its group. */
  lemma RowHasAGroup<T, K>(rows: seq<T>, key: T -> K, r: T)
    requires r in rows
    ensures Cnt(key(r), CountOf(rows, key, key(r))) in GroupBy(rows, key)
  {
    var keys := Distinct(Map(rows, key));
    DistinctHasNoRepeats(Map(rows, key));
    TallyAt(rows, key, keys);
    var i :| 0 <= i < |rows| && rows[i] == r;
    assert Map(rows, key)[i] == key(r);
    assert key(r) in keys;
    var j :| 0 <= j < |keys| && keys[j] == key(r);
    assert GroupBy(rows, key)[j] == Cnt(key(r), CountOf(rows, key, key(r)));
  }
}
