/**
 The embedding cache and the `embed` call it speeds up
 (app/infra/search/recommendation_search.py): an ordered dictionary kept in recency order
 under a lock, trimmed to `maxSize` after each batch of insertions.
 */
module EmbeddingCache {
  import opened Wrappers

  datatype Text = Text(content: string)
  datatype Vector = Vector(components: seq<real>)

  // ---------------------------------------------------------------- recency

  function Remove(order: seq<Text>, k: Text): seq<Text> {
    if order == [] then []
    else if order[0] == k then Remove(order[1..], k)
    else [order[0]] + Remove(order[1..], k)
  }

  /** Moves a key to the most recent end, or adds it there. */
  function Touch(order: seq<Text>, k: Text): seq<Text> {
    Remove(order, k) + [k]
  }

  function TouchAll(order: seq<Text>, keys: seq<Text>): seq<Text> {
    if keys == [] then order else Touch(TouchAll(order, keys[..|keys| - 1]), keys[|keys| - 1])
  }

  /** The distinct keys of a history of uses, least recently used first. */
  function Recency(uses: seq<Text>): seq<Text> {
    TouchAll([], uses)
  }

  function LastN(order: seq<Text>, n: nat): (r: seq<Text>)
    ensures |r| == if |order| <= n then |order| else n
  {
    if |order| <= n then order else order[|order| - n..]
  }

  ghost predicate Distinct(s: seq<Text>) {
    forall i, j :: 0 <= i < j < |s| ==> s[i] != s[j]
  }

  lemma {:induction false} RemoveSplits(a: seq<Text>, b: seq<Text>, k: Text)
    ensures Remove(a + b, k) == Remove(a, k) + Remove(b, k)
  {
    if a == [] {
      assert a + b == b;
    } else {
      assert (a + b)[1..] == a[1..] + b;
      RemoveSplits(a[1..], b, k);
    }
  }

  lemma {:induction false} RemoveMembers(s: seq<Text>, k: Text)
    ensures forall x :: x in Remove(s, k) <==> x in s && x != k
    ensures k !in s ==> Remove(s, k) == s
  {
    if s != [] {
      RemoveMembers(s[1..], k);
      assert s == [s[0]] + s[1..];
    }
  }

  lemma {:induction false} RemoveFromDistinct(s: seq<Text>, k: Text)
    requires Distinct(s)
    ensures Distinct(Remove(s, k)) && |Remove(s, k)| == |s| - if k in s then 1 else 0
  {
    if s != [] {
      RemoveFromDistinct(s[1..], k);
      RemoveMembers(s[1..], k);
      assert s[0] !in s[1..];
      assert s == [s[0]] + s[1..];
    }
  }

  lemma TouchKeepsDistinct(s: seq<Text>, k: Text)
    requires Distinct(s)
    ensures Distinct(Touch(s, k)) && |Touch(s, k)| == |s| + if k in s then 0 else 1
    ensures forall x :: x in Touch(s, k) <==> x in s || x == k
  {
    RemoveFromDistinct(s, k);
    RemoveMembers(s, k);
  }

  lemma LastOfConcat(a: seq<Text>, b: seq<Text>)
    ensures LastN(a + b, |b|) == b
  {
  }

  lemma TouchOfNewestKey(older: seq<Text>, newest: seq<Text>, k: Text)
    requires Distinct(newest) && k in newest
    ensures LastN(Touch(older + newest, k), |newest|) == Remove(newest, k) + [k]
  {
    RemoveSplits(older, newest, k);
    RemoveFromDistinct(newest, k);
    assert Touch(older + newest, k) == Remove(older, k) + (Remove(newest, k) + [k]);
    LastOfConcat(Remove(older, k), Remove(newest, k) + [k]);
  }

  lemma TouchOfOtherKey(older: seq<Text>, newest: seq<Text>, k: Text)
    requires newest != [] && k !in newest
    ensures LastN(Touch(older + newest, k), |newest|) == newest[1..] + [k]
  {
    RemoveSplits(older, newest, k);
    RemoveMembers(newest, k);
    assert Touch(older + newest, k) == (Remove(older, k) + [newest[0]]) + (newest[1..] + [k]);
    LastOfConcat(Remove(older, k) + [newest[0]], newest[1..] + [k]);
  }

  /** What the newest `n` keys become when one key is used. */
  lemma NewestAfterTouch(s: seq<Text>, n: nat, k: Text)
    requires Distinct(s) && 1 <= n <= |s|
    ensures var newest := s[|s| - n..];
      LastN(Touch(s, k), n) == (if k in newest then Remove(newest, k) else newest[1..]) + [k]
  {
    var older, newest := s[..|s| - n], s[|s| - n..];
    assert s == older + newest;
    if k in newest {
      TouchOfNewestKey(older, newest, k);
    } else {
      TouchOfOtherKey(older, newest, k);
    }
  }

  /** Keys evicted earlier make no difference: touching commutes with keeping the newest `n`. */
  lemma TouchOfNewest(a: seq<Text>, b: seq<Text>, n: nat, k: Text)
    requires Distinct(a) && Distinct(b) && LastN(a, n) == LastN(b, n)
    ensures LastN(Touch(a, k), n) == LastN(Touch(b, k), n)
  {
    if n >= 1 && |a| >= n && |b| >= n {
      NewestAfterTouch(a, n, k);
      NewestAfterTouch(b, n, k);
      assert LastN(a, n) == a[|a| - n..] && LastN(b, n) == b[|b| - n..];
    } else if n >= 1 {
      assert a == b;
    }
  }

  lemma {:induction false} TouchAllKeepsDistinct(s: seq<Text>, keys: seq<Text>)
    requires Distinct(s)
    ensures Distinct(TouchAll(s, keys))
    ensures forall x :: x in TouchAll(s, keys) <==> x in s || x in keys
  {
    if keys != [] {
      var front, k := keys[..|keys| - 1], keys[|keys| - 1];
      TouchAllKeepsDistinct(s, front);
      TouchKeepsDistinct(TouchAll(s, front), k);
      assert keys == front + [k];
    }
  }

  lemma {:induction false} TouchAllOfNewest(a: seq<Text>, b: seq<Text>, n: nat, keys: seq<Text>)
    requires Distinct(a) && Distinct(b) && LastN(a, n) == LastN(b, n)
    ensures LastN(TouchAll(a, keys), n) == LastN(TouchAll(b, keys), n)
  {
    if keys != [] {
      var front := keys[..|keys| - 1];
      TouchAllOfNewest(a, b, n, front);
      TouchAllKeepsDistinct(a, front);
      TouchAllKeepsDistinct(b, front);
      TouchOfNewest(TouchAll(a, front), TouchAll(b, front), n, keys[|keys| - 1]);
    }
  }

  lemma {:induction false} TouchAllAppends(s: seq<Text>, a: seq<Text>, b: seq<Text>)
    ensures TouchAll(s, a + b) == TouchAll(TouchAll(s, a), b)
  {
    if b == [] {
      assert a + b == a;
    } else {
      var n := |b| - 1;
      assert (a + b)[..|a| + n] == a + b[..n];
      TouchAllAppends(s, a, b[..n]);
    }
  }

  lemma TouchAllStep(s: seq<Text>, keys: seq<Text>, k: Text)
    ensures TouchAll(s, keys + [k]) == Touch(TouchAll(s, keys), k)
  {
    assert (keys + [k])[..|keys|] == keys;
  }

  /** Some use of `k` comes after every use of `other`. */
  ghost predicate UsedAfter(uses: seq<Text>, k: Text, other: Text) {
    exists u :: 0 <= u < |uses| && uses[u] == k && other !in uses[u..]
  }

  ghost predicate ByLastUse(order: seq<Text>, uses: seq<Text>) {
    forall p, q :: 0 <= p < q < |order| ==> UsedAfter(uses, order[q], order[p])
  }

  lemma {:induction false} RemoveKeepsOrder(s: seq<Text>, k: Text, uses: seq<Text>)
    requires ByLastUse(s, uses)
    ensures ByLastUse(Remove(s, k), uses)
  {
    if s != [] {
      RemoveKeepsOrder(s[1..], k, uses);
      RemoveMembers(s[1..], k);
      forall x | x in Remove(s[1..], k) ensures UsedAfter(uses, x, s[0]) {
        assert x in s[1..];
      }
    }
  }

  lemma UsedAfterOneMore(uses: seq<Text>, k: Text, x: Text, y: Text)
    ensures UsedAfter(uses, x, y) && y != k ==> UsedAfter(uses + [k], x, y)
    ensures y != k ==> UsedAfter(uses + [k], k, y)
  {
    if UsedAfter(uses, x, y) && y != k {
      var u :| 0 <= u < |uses| && uses[u] == x && y !in uses[u..];
      assert (uses + [k])[u..] == uses[u..] + [k];
    }
    assert (uses + [k])[|uses|..] == [k];
  }

  /** Recency is by last use: of two keys the later one is used after the last use of the earlier one. */
  lemma {:induction false} RecencyIsByLastUse(uses: seq<Text>)
    ensures Distinct(Recency(uses)) && forall k :: k in Recency(uses) <==> k in uses
    ensures ByLastUse(Recency(uses), uses)
  {
    TouchAllKeepsDistinct([], uses);
    if uses != [] {
      var front, k := uses[..|uses| - 1], uses[|uses| - 1];
      RecencyIsByLastUse(front);
      var kept := Remove(Recency(front), k);
      RemoveKeepsOrder(Recency(front), k, front);
      RemoveMembers(Recency(front), k);
      assert uses == front + [k];
      forall p, q | 0 <= p < q < |kept| + 1 ensures UsedAfter(uses, (kept + [k])[q], (kept + [k])[p]) {
        assert kept[p] in kept;
        UsedAfterOneMore(front, k, (kept + [k])[q], kept[p]);
      }
    }
  }

  /** The keys not among `keys`, in their order. */
  function Others(s: seq<Text>, keys: seq<Text>): seq<Text> {
    if keys == [] then s else Remove(Others(s, keys[..|keys| - 1]), keys[|keys| - 1])
  }

  /** Touched keys come last, in recency order, after the untouched ones. */
  lemma {:induction false} TouchedComeLast(s: seq<Text>, keys: seq<Text>)
    ensures TouchAll(s, keys) == Others(s, keys) + Recency(keys)
  {
    if keys != [] {
      var front, k := keys[..|keys| - 1], keys[|keys| - 1];
      TouchedComeLast(s, front);
      RemoveSplits(Others(s, front), Recency(front), k);
    }
  }

  // ---------------------------------------------------------------- the cache as a value

  /** An ordered dictionary: its keys from oldest to newest, and their values. */
  datatype Cache = Cache(order: seq<Text>, vectors: map<Text, Vector>)
  {
    ghost predicate Valid() {
      Distinct(order) && forall k :: k in vectors <==> k in order
    }
  }

  function Hits(vectors: map<Text, Vector>, texts: seq<Text>): (hits: seq<Text>)
    ensures forall k :: k in hits <==> k in texts && k in vectors
  {
    if texts == [] then []
    else
      assert texts == texts[..|texts| - 1] + [texts[|texts| - 1]];
      Hits(vectors, texts[..|texts| - 1]) + if texts[|texts| - 1] in vectors then [texts[|texts| - 1]] else []
  }

  lemma HitsStep(vectors: map<Text, Vector>, texts: seq<Text>, k: Text)
    ensures Hits(vectors, texts + [k]) == if k in vectors then Hits(vectors, texts) + [k] else Hits(vectors, texts)
  {
    assert (texts + [k])[..|texts|] == texts;
  }

  function Keys(pairs: seq<(Text, Vector)>): seq<Text> {
    seq(|pairs|, i requires 0 <= i < |pairs| => pairs[i].0)
  }

  function PutVectors(vectors: map<Text, Vector>, pairs: seq<(Text, Vector)>): map<Text, Vector> {
    if pairs == [] then vectors
    else PutVectors(vectors, pairs[..|pairs| - 1])[pairs[|pairs| - 1].0 := pairs[|pairs| - 1].1]
  }

  function AfterGet(c: Cache, texts: seq<Text>): Cache {
    c.(order := TouchAll(c.order, Hits(c.vectors, texts)))
  }

  /** One more text read. */
  lemma NextRead(c: Cache, texts: seq<Text>, i: nat)
    requires i < |texts|
    ensures var k, before := texts[i], AfterGet(c, texts[..i]);
      && AfterGet(c, texts[..i + 1]) == (if k in c.vectors then before.(order := Touch(before.order, k)) else before)
      && Restrict(c.vectors, texts[..i + 1])
         == if k in c.vectors then Restrict(c.vectors, texts[..i])[k := c.vectors[k]] else Restrict(c.vectors, texts[..i])
  {
    assert texts[..i + 1] == texts[..i] + [texts[i]];
    HitsStep(c.vectors, texts[..i], texts[i]);
    RestrictAppend(c.vectors, texts[..i], texts[i]);
    if texts[i] in c.vectors {
      TouchAllStep(c.order, Hits(c.vectors, texts[..i]), texts[i]);
    }
  }

  function Restrict(vectors: map<Text, Vector>, keys: seq<Text>): map<Text, Vector> {
    map k | k in vectors && k in keys :: vectors[k]
  }

  function Evicted(c: Cache, maxSize: nat): Cache {
    Cache(LastN(c.order, maxSize), Restrict(c.vectors, LastN(c.order, maxSize)))
  }

  lemma RestrictAppend(vectors: map<Text, Vector>, keys: seq<Text>, k: Text)
    ensures Restrict(vectors, keys + [k]) == if k in vectors then Restrict(vectors, keys)[k := vectors[k]] else Restrict(vectors, keys)
  {
  }

  lemma RestrictStep(vectors: map<Text, Vector>, keys: seq<Text>)
    requires keys != [] && Distinct(keys)
    ensures Restrict(vectors, keys) - {keys[0]} == Restrict(vectors, keys[1..])
  {
    assert keys[0] !in keys[1..];
    assert keys == [keys[0]] + keys[1..];
  }

  function AfterPut(c: Cache, pairs: seq<(Text, Vector)>, maxSize: nat): Cache {
    Evicted(Cache(TouchAll(c.order, Keys(pairs)), PutVectors(c.vectors, pairs)), maxSize)
  }

  datatype Op = Get(texts: seq<Text>) | Put(pairs: seq<(Text, Vector)>)

  function Apply(c: Cache, op: Op, maxSize: nat): Cache {
    match op
    case Get(texts) => AfterGet(c, texts)
    case Put(pairs) => AfterPut(c, pairs, maxSize)
  }

  /** The keys an operation uses: those found, or those stored. */
  function Uses(c: Cache, op: Op): seq<Text> {
    match op
    case Get(texts) => Hits(c.vectors, texts)
    case Put(pairs) => Keys(pairs)
  }

  /** The cache and the whole history of uses after a sequence of operations. */
  function Run(ops: seq<Op>, maxSize: nat): (Cache, seq<Text>) {
    if ops == [] then (Cache([], map[]), [])
    else
      var (c, uses) := Run(ops[..|ops| - 1], maxSize);
      var op := ops[|ops| - 1];
      (Apply(c, op, maxSize), uses + Uses(c, op))
  }

  lemma {:induction false} PutVectorsKeys(vectors: map<Text, Vector>, pairs: seq<(Text, Vector)>)
    ensures forall k :: k in PutVectors(vectors, pairs) <==> k in vectors || k in Keys(pairs)
  {
    if pairs != [] {
      PutVectorsKeys(vectors, pairs[..|pairs| - 1]);
      assert Keys(pairs) == Keys(pairs[..|pairs| - 1]) + [pairs[|pairs| - 1].0];
    }
  }

  lemma ApplyKeepsValid(c: Cache, op: Op, maxSize: nat)
    requires c.Valid() && |c.order| <= maxSize
    ensures Apply(c, op, maxSize).Valid() && |Apply(c, op, maxSize).order| <= maxSize
  {
    TouchAllKeepsDistinct(c.order, Uses(c, op));
    match op
    case Get(texts) =>
      var after := TouchAll(c.order, Hits(c.vectors, texts));
      SameKeysSameLength(c.order, after);
    case Put(pairs) => PutVectorsKeys(c.vectors, pairs);
  }

  lemma SameKeysSameLength(a: seq<Text>, b: seq<Text>)
    requires Distinct(a) && Distinct(b) && forall k :: k in a <==> k in b
    ensures |a| == |b|
  {
    DistinctLength(a);
    DistinctLength(b);
    assert (set k | k in a) == (set k | k in b);
  }

  lemma {:induction false} DistinctLength(s: seq<Text>)
    requires Distinct(s)
    ensures |s| == |set k | k in s|
  {
    if s != [] {
      var front, k := s[..|s| - 1], s[|s| - 1];
      DistinctLength(front);
      assert (set x | x in s) == (set x | x in front) + {k};
    }
  }

  /** After any history the cache holds exactly the `maxSize` most recently used distinct keys, in recency order. */
  lemma {:induction false} HoldsTheMostRecent(ops: seq<Op>, maxSize: nat)
    ensures var (c, uses) := Run(ops, maxSize);
      c.Valid() && c.order == LastN(Recency(uses), maxSize)
  {
    if ops != [] {
      var n := |ops| - 1;
      HoldsTheMostRecent(ops[..n], maxSize);
      var (c, uses) := Run(ops[..n], maxSize);
      var used := Uses(c, ops[n]);
      ApplyKeepsValid(c, ops[n], maxSize);
      TouchAllKeepsDistinct([], uses);
      TouchAllOfNewest(c.order, Recency(uses), maxSize, used);
      TouchAllAppends([], uses, used);
    }
  }

  /** The last of several pairs with one key is stored; other keys keep their vectors. */
  lemma {:induction false} LastPairIsStored(vectors: map<Text, Vector>, pairs: seq<(Text, Vector)>, i: nat, k: Text)
    ensures i < |pairs| && (forall j :: i < j < |pairs| ==> pairs[j].0 != pairs[i].0) ==>
      pairs[i].0 in PutVectors(vectors, pairs) && PutVectors(vectors, pairs)[pairs[i].0] == pairs[i].1
    ensures k in vectors && k !in Keys(pairs) ==> k in PutVectors(vectors, pairs) && PutVectors(vectors, pairs)[k] == vectors[k]
  {
    if pairs != [] {
      var n := |pairs| - 1;
      LastPairIsStored(vectors, pairs[..n], i, k);
      assert Keys(pairs) == Keys(pairs[..n]) + [pairs[n].0];
    }
  }

  /** A history goes on with the next operation. */
  lemma RunGoesOn(ops: seq<Op>, op: Op, maxSize: nat)
    ensures Run([], maxSize) == (Cache([], map[]), [])
    ensures var (c, uses) := Run(ops, maxSize); Run(ops + [op], maxSize) == (Apply(c, op, maxSize), uses + Uses(c, op))
  {
    assert (ops + [op])[..|ops|] == ops;
  }

  // ---------------------------------------------------------------- true vectors

  ghost predicate Truthful(vectors: map<Text, Vector>, embedding: Text -> Vector) {
    forall k :: k in vectors ==> vectors[k] == embedding(k)
  }

  ghost predicate TruthfulPairs(pairs: seq<(Text, Vector)>, embedding: Text -> Vector) {
    forall i :: 0 <= i < |pairs| ==> pairs[i].1 == embedding(pairs[i].0)
  }

  ghost predicate TruthfulOp(op: Op, embedding: Text -> Vector) {
    op.Put? ==> TruthfulPairs(op.pairs, embedding)
  }

  lemma {:induction false} PutVectorsTruthful(vectors: map<Text, Vector>, pairs: seq<(Text, Vector)>, embedding: Text -> Vector)
    requires Truthful(vectors, embedding) && TruthfulPairs(pairs, embedding)
    ensures Truthful(PutVectors(vectors, pairs), embedding)
  {
    if pairs != [] {
      PutVectorsTruthful(vectors, pairs[..|pairs| - 1], embedding);
    }
  }

  lemma ApplyKeepsTruth(c: Cache, op: Op, maxSize: nat, embedding: Text -> Vector)
    requires Truthful(c.vectors, embedding) && TruthfulOp(op, embedding)
    ensures Truthful(Apply(c, op, maxSize).vectors, embedding)
  {
    if op.Put? {
      PutVectorsTruthful(c.vectors, op.pairs, embedding);
    }
  }

  // ---------------------------------------------------------------- embed

  /** dict.fromkeys: each text once, in first-occurrence order. */
  function FirstOccurrences(texts: seq<Text>): (r: seq<Text>)
    ensures forall k :: k in r <==> k in texts
  {
    if texts == [] then []
    else
      var n := |texts| - 1;
      assert texts == texts[..n] + [texts[n]];
      FirstOccurrences(texts[..n]) + if texts[n] in texts[..n] then [] else [texts[n]]
  }

  function NotIn(texts: seq<Text>, known: map<Text, Vector>): (r: seq<Text>)
    ensures forall k :: k in r <==> k in texts && k !in known
  {
    if texts == [] then []
    else
      var n := |texts| - 1;
      assert texts == texts[..n] + [texts[n]];
      NotIn(texts[..n], known) + if texts[n] in known then [] else [texts[n]]
  }

  /** The texts one call has to send: those not cached, each once, in first-occurrence order. */
  function Missing(texts: seq<Text>, known: map<Text, Vector>): seq<Text> {
    NotIn(FirstOccurrences(texts), known)
  }

  lemma {:induction false} FirstOccurrencesDistinct(texts: seq<Text>)
    ensures Distinct(FirstOccurrences(texts))
  {
    if texts != [] {
      FirstOccurrencesDistinct(texts[..|texts| - 1]);
    }
  }

  lemma {:induction false} NotInKeepsDistinct(texts: seq<Text>, known: map<Text, Vector>)
    requires Distinct(texts)
    ensures Distinct(NotIn(texts, known))
  {
    if texts != [] {
      var n := |texts| - 1;
      NotInKeepsDistinct(texts[..n], known);
      assert texts[n] !in texts[..n];
    }
  }

  lemma {:induction false} FirstOccurrencesOfBeginning(texts: seq<Text>, i: nat)
    requires i <= |texts|
    ensures FirstOccurrences(texts[..i]) <= FirstOccurrences(texts)
  {
    if i == |texts| {
      assert texts[..i] == texts;
    } else {
      FirstOccurrencesOfBeginning(texts[..|texts| - 1], i);
      assert texts[..|texts| - 1][..i] == texts[..i];
    }
  }

  lemma {:induction false} NotInOfBeginning(texts: seq<Text>, known: map<Text, Vector>, i: nat)
    requires i <= |texts|
    ensures NotIn(texts[..i], known) <= NotIn(texts, known)
  {
    if i == |texts| {
      assert texts[..i] == texts;
    } else {
      NotInOfBeginning(texts[..|texts| - 1], known, i);
      assert texts[..|texts| - 1][..i] == texts[..i];
    }
  }

  /** Texts are sent in the order they first came: those of any beginning of the list come first. */
  lemma MissingInOrder(texts: seq<Text>, known: map<Text, Vector>, i: nat)
    requires i <= |texts|
    ensures Missing(texts[..i], known) <= Missing(texts, known)
  {
    var some, all := FirstOccurrences(texts[..i]), FirstOccurrences(texts);
    FirstOccurrencesOfBeginning(texts, i);
    assert all[..|some|] == some;
    NotInOfBeginning(all, known, |some|);
  }

  // ---------------------------------------------------------------- what is cached afterwards

  /** The keys touched last stay if they fit. */
  lemma TouchedStayIfTheyFit(s: seq<Text>, keys: seq<Text>, maxSize: nat)
    requires |Recency(keys)| <= maxSize
    ensures forall k :: k in keys ==> k in LastN(TouchAll(s, keys), maxSize)
  {
    TouchedComeLast(s, keys);
    RecencyIsByLastUse(keys);
    var all, recent := TouchAll(s, keys), Recency(keys);
    forall k | k in keys ensures k in LastN(all, maxSize) {
      var i :| 0 <= i < |recent| && recent[i] == k;
      var from := if |all| <= maxSize then 0 else |all| - maxSize;
      assert LastN(all, maxSize)[|all| - |recent| + i - from] == k;
    }
  }

  /** The cache after a call whose remote answer arrived and whom nobody disturbed. */
  function AfterEmbed(c: Cache, texts: seq<Text>, pairs: seq<(Text, Vector)>, maxSize: nat): Cache {
    AfterPut(AfterGet(c, texts), pairs, maxSize)
  }

  /** The same texts need no remote call the next time if and only if, each taken once, they fit in the cache. */
  lemma NextCallSendsNothingIffTextsFit(c: Cache, texts: seq<Text>, pairs: seq<(Text, Vector)>, maxSize: nat)
    requires c.Valid() && |c.order| <= maxSize && Keys(pairs) == Missing(texts, c.vectors)
    ensures Missing(texts, AfterEmbed(c, texts, pairs, maxSize).vectors) == [] <==> |FirstOccurrences(texts)| <= maxSize
  {
    var hits, sent, firsts, after := Hits(c.vectors, texts), Keys(pairs), FirstOccurrences(texts), AfterEmbed(c, texts, pairs, maxSize);
    FirstOccurrencesDistinct(texts);
    ApplyKeepsValid(c, Get(texts), maxSize);
    ApplyKeepsValid(AfterGet(c, texts), Put(pairs), maxSize);
    PutVectorsKeys(c.vectors, pairs);
    if |firsts| <= maxSize {
      RecencyIsByLastUse(hits + sent);
      SameKeysSameLength(Recency(hits + sent), firsts);
      TouchAllAppends(c.order, hits, sent);
      TouchedStayIfTheyFit(c.order, hits + sent, maxSize);
      assert forall k :: k in texts ==> k in hits + sent;
      assert forall k :: k in texts ==> k in after.vectors;
      SomeKeyIn(Missing(texts, after.vectors));
    } else if Missing(texts, after.vectors) == [] {
      SubsetLength(firsts, after.order);
    }
  }

  /** Storing nothing changes nothing. */
  lemma NothingToPut(c: Cache, maxSize: nat)
    requires c.Valid() && |c.order| <= maxSize
    ensures AfterPut(c, [], maxSize) == c
  {
    assert Restrict(c.vectors, c.order) == c.vectors;
  }

  lemma SomeKeyIn(keys: seq<Text>)
    ensures keys != [] ==> exists k :: k in keys
  {
    assert keys != [] ==> keys[0] in keys;
  }

  lemma SubsetLength(a: seq<Text>, b: seq<Text>)
    requires Distinct(a) && Distinct(b) && forall k :: k in a ==> k in b
    ensures |a| <= |b|
  {
    DistinctLength(a);
    DistinctLength(b);
    var x, y := set k | k in a, set k | k in b;
    assert y == x + (y - x);
  }

  type Remote = seq<Text> -> Option<seq<Vector>>

  class EmbeddingLru {
    const maxSize: nat
    var order: seq<Text>
    var vectors: map<Text, Vector>
    ghost var history: seq<Op>

    ghost function Now(): Cache
      reads this
    {
      Cache(order, vectors)
    }

    ghost predicate Valid()
      reads this
    {
      Now().Valid() && |order| <= maxSize && Now() == Run(history, maxSize).0
    }

    constructor (maxSize: nat)
      ensures this.maxSize == maxSize && Valid() && Now() == Cache([], map[]) && history == []
    {
      this.maxSize := maxSize;
      order, vectors, history := [], map[], [];
    }

    /** Whatever was read and stored before, the most recently used keys are there, in that order. */
    ghost method Recall()
      requires Valid()
      ensures order == LastN(Recency(Run(history, maxSize).1), maxSize)
    {
      HoldsTheMostRecent(history, maxSize);
    }

    method GetMany(texts: seq<Text>) returns (found: map<Text, Vector>)
      requires Valid()
      modifies this`order, this`history
      ensures Valid() && Now() == AfterGet(old(Now()), texts) && history == old(history) + [Get(texts)]
      ensures found == Restrict(vectors, texts)
    {
      ApplyKeepsValid(Now(), Get(texts), maxSize);
      RunGoesOn(history, Get(texts), maxSize);
      found := Read(texts);
      history := history + [Get(texts)];
    }

    /** The loop over the texts: a text that is found moves to the end. */
    method Read(texts: seq<Text>) returns (found: map<Text, Vector>)
      modifies this`order
      ensures Now() == AfterGet(old(Now()), texts)
      ensures found == Restrict(vectors, texts)
    {
      ghost var start := Now();
      found := map[];
      var i := 0;
      while i < |texts|
        invariant 0 <= i <= |texts|
        invariant Now() == AfterGet(start, texts[..i]) && found == Restrict(vectors, texts[..i])
      {
        NextRead(start, texts, i);
        if texts[i] in vectors {
          order := Remove(order, texts[i]) + [texts[i]];
          found := found[texts[i] := vectors[texts[i]]];
        }
        i := i + 1;
      }
      assert texts[..i] == texts;
    }

    method PutMany(pairs: seq<(Text, Vector)>)
      requires Valid()
      modifies this`order, this`vectors, this`history
      ensures Valid() && Now() == AfterPut(old(Now()), pairs, maxSize) && history == old(history) + [Put(pairs)]
    {
      ghost var start := Now();
      Store(pairs);
      ApplyKeepsValid(start, Put(pairs), maxSize);
      TouchAllKeepsDistinct(start.order, Keys(pairs));
      PutVectorsKeys(start.vectors, pairs);
      Trim();
      RunGoesOn(history, Put(pairs), maxSize);
      history := history + [Put(pairs)];
    }

    method Store(pairs: seq<(Text, Vector)>)
      modifies this`order, this`vectors
      ensures Now() == Cache(TouchAll(old(order), Keys(pairs)), PutVectors(old(vectors), pairs))
    {
      ghost var start := Now();
      var i := 0;
      while i < |pairs|
        invariant 0 <= i <= |pairs|
        invariant order == TouchAll(start.order, Keys(pairs[..i]))
        invariant vectors == PutVectors(start.vectors, pairs[..i])
      {
        var (k, v) := pairs[i];
        assert pairs[..i + 1][..i] == pairs[..i];
        assert Keys(pairs[..i + 1]) == Keys(pairs[..i]) + [k];
        TouchAllStep(start.order, Keys(pairs[..i]), k);
        vectors := vectors[k := v];
        order := Remove(order, k) + [k];
        i := i + 1;
      }
      assert pairs[..i] == pairs;
    }

    /** popitem(last=False) until the size fits. */
    method Trim()
      requires Now().Valid()
      modifies this`order, this`vectors
      ensures Now() == Evicted(old(Now()), maxSize)
    {
      ghost var full := Now();
      assert vectors == Restrict(vectors, order);
      ghost var n := 0;
      while |order| > maxSize
        invariant 0 <= n <= |full.order| && order == full.order[n..]
        invariant n == 0 || |order| >= maxSize
        invariant vectors == Restrict(full.vectors, order)
        decreases |order|
      {
        RestrictStep(full.vectors, order);
        vectors := vectors - {order[0]};
        order := order[1..];
        n := n + 1;
      }
    }

    /** What other threads do between two critical sections. */
    method Interfere(ops: seq<Op>, ghost embedding: Text -> Vector)
      requires Valid() && Truthful(vectors, embedding)
      requires forall i :: 0 <= i < |ops| ==> TruthfulOp(ops[i], embedding)
      modifies this`order, this`vectors, this`history
      ensures Valid() && Truthful(vectors, embedding)
      ensures ops == [] ==> Now() == old(Now())
    {
      var i := 0;
      while i < |ops|
        invariant 0 <= i <= |ops| && Valid() && Truthful(vectors, embedding)
        invariant i == 0 ==> Now() == old(Now())
      {
        ghost var before := Now();
        if ops[i].Get? {
          var _ := GetMany(ops[i].texts);
        } else {
          PutMany(ops[i].pairs);
        }
        ApplyKeepsTruth(before, ops[i], maxSize, embedding);
        i := i + 1;
      }
    }
  }

  function Embeddings(texts: seq<Text>, embedding: Text -> Vector): seq<Vector> {
    seq(|texts|, i requires 0 <= i < |texts| => embedding(texts[i]))
  }

  class RecommendationSearch {
    const cache: EmbeddingLru
    const remote: Remote

    constructor (cache: EmbeddingLru, remote: Remote)
      ensures this.cache == cache && this.remote == remote
    {
      this.cache, this.remote := cache, remote;
    }

    /** An answer with the right number of vectors has the right vectors. */
    ghost predicate Faithful(embedding: Text -> Vector) {
      forall ts :: remote(ts).Some? && |remote(ts).value| == |ts| ==> remote(ts).value == Embeddings(ts, embedding)
    }

    predicate Answers(ts: seq<Text>) {
      remote(ts).Some? && |remote(ts).value| == |ts|
    }

    /** The cached texts, and those left to send. */
    method LookUp(texts: seq<Text>, ghost embedding: Text -> Vector) returns (found: map<Text, Vector>, missing: seq<Text>)
      requires cache.Valid() && Truthful(cache.vectors, embedding)
      modifies cache`order, cache`history
      ensures cache.Valid() && Truthful(found, embedding) && cache.Now() == AfterGet(old(cache.Now()), texts)
      ensures missing == Missing(texts, cache.vectors) && Distinct(missing)
      ensures forall i :: 0 <= i < |texts| ==> texts[i] in found || texts[i] in missing
    {
      found := cache.GetMany(texts);
      missing := Missing(texts, found);
      MissingAfterGet(texts, cache.vectors);
    }

    /** Sends the missing texts and files the answer in the cache and in the call's own dictionary. */
    method Fetch(sent: seq<Text>, found: map<Text, Vector>, ghost embedding: Text -> Vector)
      returns (filled: Option<map<Text, Vector>>)
      requires cache.Valid() && Truthful(cache.vectors, embedding) && Truthful(found, embedding) && Faithful(embedding)
      modifies cache`order, cache`vectors, cache`history
      ensures cache.Valid() && Truthful(cache.vectors, embedding)
      ensures filled.Some? <==> Answers(sent)
      ensures filled.Some? ==> Truthful(filled.value, embedding) && forall k :: k in filled.value <==> k in found || k in sent
      ensures filled.Some? ==> exists pairs :: Keys(pairs) == sent && cache.Now() == AfterPut(old(cache.Now()), pairs, cache.maxSize)
      ensures filled.Some? && Distinct(sent) && |sent| <= cache.maxSize ==> forall k :: k in sent ==> k in cache.vectors
      ensures filled.None? ==> cache.Now() == old(cache.Now())
    {
      var answer := remote(sent);
      if answer.None? || |answer.value| != |sent| {
        return None;
      }
      var pairs := seq(|sent|, i requires 0 <= i < |sent| => (sent[i], answer.value[i]));
      assert Keys(pairs) == sent;
      ghost var before := cache.Now();
      cache.PutMany(pairs);
      ApplyKeepsTruth(before, Put(pairs), cache.maxSize, embedding);
      PutVectorsTruthful(found, pairs, embedding);
      PutVectorsKeys(found, pairs);
      PutVectorsKeys(before.vectors, pairs);
      if Distinct(sent) && |sent| <= cache.maxSize {
        RecencyIsByLastUse(sent);
        SameKeysSameLength(Recency(sent), sent);
        TouchedStayIfTheyFit(before.order, sent, cache.maxSize);
      }
      return Some(PutVectors(found, pairs));
    }

    /** Fetches what is missing, if anything is. */
    method Fill(sent: seq<Text>, found: map<Text, Vector>, ghost embedding: Text -> Vector)
      returns (filled: Option<map<Text, Vector>>, ghost pairs: seq<(Text, Vector)>)
      requires cache.Valid() && Truthful(cache.vectors, embedding) && Truthful(found, embedding) && Faithful(embedding)
      requires Distinct(sent)
      modifies cache`order, cache`vectors, cache`history
      ensures cache.Valid() && Truthful(cache.vectors, embedding)
      ensures filled.Some? <==> sent == [] || Answers(sent)
      ensures filled.Some? ==> Truthful(filled.value, embedding) && forall k :: k in filled.value <==> k in found || k in sent
      ensures filled.Some? ==> Keys(pairs) == sent && cache.Now() == AfterPut(old(cache.Now()), pairs, cache.maxSize)
      ensures filled.Some? && |sent| <= cache.maxSize ==> forall k :: k in sent ==> k in cache.vectors
    {
      pairs := [];
      if sent == [] {
        NothingToPut(cache.Now(), cache.maxSize);
        return Some(found), pairs;
      }
      ghost var before := cache.Now();
      filled := Fetch(sent, found, embedding);
      if filled.Some? {
        pairs :| Keys(pairs) == sent && cache.Now() == AfterPut(before, pairs, cache.maxSize);
      }
    }

    /** Fills in what is missing and reads every text. */
    method Complete(texts: seq<Text>, sent: seq<Text>, found: map<Text, Vector>, ghost embedding: Text -> Vector)
      returns (result: Option<seq<Vector>>, ghost pairs: seq<(Text, Vector)>)
      requires cache.Valid() && Truthful(cache.vectors, embedding) && Truthful(found, embedding) && Faithful(embedding)
      requires Distinct(sent) && forall i :: 0 <= i < |texts| ==> texts[i] in found || texts[i] in sent
      modifies cache`order, cache`vectors, cache`history
      ensures cache.Valid() && Truthful(cache.vectors, embedding)
      ensures result.Some? <==> sent == [] || Answers(sent)
      ensures result.Some? ==> result.value == Embeddings(texts, embedding)
      ensures result.Some? ==> Keys(pairs) == sent && cache.Now() == AfterPut(old(cache.Now()), pairs, cache.maxSize)
      ensures result.Some? && |sent| <= cache.maxSize ==> forall k :: k in sent ==> k in cache.vectors
    {
      var filled;
      filled, pairs := Fill(sent, found, embedding);
      if filled.None? {
        return None, pairs;
      }
      assert forall i :: 0 <= i < |texts| ==> texts[i] in filled.value;
      return Some(ReadAll(texts, filled.value, embedding)), pairs;
    }

    /**
     Embeds the texts in order, sending only the missing ones, each once.  Other threads may
     use and evict the cache while the remote call is under way: `others` is what they do.
     The result is the embedding of every text, whatever they did.  What was sent is cached
     afterwards if it fits; and if nobody interferes and all the texts fit, they all are.
     */
    method Embed(texts: seq<Text>, others: seq<Op>, ghost embedding: Text -> Vector)
      returns (result: Option<seq<Vector>>, sent: seq<Text>)
      requires cache.Valid() && Truthful(cache.vectors, embedding) && Faithful(embedding)
      requires forall i :: 0 <= i < |others| ==> TruthfulOp(others[i], embedding)
      modifies cache`order, cache`vectors, cache`history
      ensures cache.Valid() && Truthful(cache.vectors, embedding)
      ensures sent == Missing(texts, old(cache.vectors)) && Distinct(sent)
      ensures result.Some? <==> sent == [] || Answers(sent)
      ensures result.Some? ==> result.value == Embeddings(texts, embedding)
      ensures result.Some? && |sent| <= cache.maxSize ==> forall k :: k in sent ==> k in cache.vectors
      ensures result.Some? && others == [] ==>
                (Missing(texts, cache.vectors) == [] <==> |FirstOccurrences(texts)| <= cache.maxSize)
    {
      ghost var start := cache.Now();
      sent := [];
      if texts == [] {
        return Some([]), sent;
      }
      var cached;
      cached, sent := LookUp(texts, embedding);
      cache.Interfere(others, embedding);
      ghost var pairs;
      result, pairs := Complete(texts, sent, cached, embedding);
      if result.Some? && others == [] {
        NextCallSendsNothingIffTextsFit(start, texts, pairs, cache.maxSize);
      }
    }
  }

  /** Reading every text from a truthful dictionary. */
  function ReadAll(texts: seq<Text>, cached: map<Text, Vector>, ghost embedding: Text -> Vector): (vectors: seq<Vector>)
    requires Truthful(cached, embedding) && forall i :: 0 <= i < |texts| ==> texts[i] in cached
    ensures vectors == Embeddings(texts, embedding)
  {
    seq(|texts|, i requires 0 <= i < |texts| => cached[texts[i]])
  }

  /** After the lookup, what is missing is what the cache lacked, and every text is either found or missing. */
  lemma MissingAfterGet(texts: seq<Text>, vectors: map<Text, Vector>)
    ensures var found := Restrict(vectors, texts);
      && Missing(texts, found) == Missing(texts, vectors) && Distinct(Missing(texts, found))
      && forall i :: 0 <= i < |texts| ==> texts[i] in found || texts[i] in Missing(texts, found)
  {
    var found := Restrict(vectors, texts);
    FirstOccurrencesDistinct(texts);
    NotInKeepsDistinct(FirstOccurrences(texts), found);
    SameMissing(FirstOccurrences(texts), found, vectors);
    assert forall i :: 0 <= i < |texts| ==> texts[i] in texts;
  }

  lemma {:induction false} SameMissing(texts: seq<Text>, found: map<Text, Vector>, vectors: map<Text, Vector>)
    requires forall k :: k in texts ==> (k in found <==> k in vectors)
    ensures NotIn(texts, found) == NotIn(texts, vectors)
  {
    if texts != [] {
      SameMissing(texts[..|texts| - 1], found, vectors);
    }
  }
}
