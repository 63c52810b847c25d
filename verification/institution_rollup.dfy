/**
 The view institution_parent (alembic/versions/0006_bid_stats_matviews.py): every
 institution whose name extends another institution's name by a sub-unit ending is counted
 under the shortest such name.  Prefixes are found by LIKE with the name itself as pattern,
 so a name with metacharacters matches more than its extensions.
 */
module InstitutionRollup {
  import opened Collections
  import opened Grouping
  import opened LikePattern

  const MIN_PARENT_LENGTH := 4

  const SUBUNIT: seq<string> := [
    "본부", "지사", "지역본부", "사업소", "사업단", "관리단", "출장소", "센터", "지부", "지원단",
    "사무소", "영업소", "지방청", "세관", "우체국", "보건소", "지청"]

  const INDEPENDENT: seq<string> := [
    "교육청", "대학교", "대학", "공사", "공단", "재단", "진흥원", "연구원", "병원", "공항공사",
    "시설관리공단", "도시공사", "의료원", "과학관", "박물관"]

  /** Which characters are white space. */
  type Space = char -> bool

  /** A name without its white space. */
  function Key(name: string, space: Space): string {
    Filter(name, c => !space(c))
  }

  /** Spellings that differ in white space alone have one key. */
  lemma KeyIgnoresSpace(a: string, gap: string, b: string, space: Space)
    requires forall c :: c in gap ==> space(c)
    ensures Key(a + gap + b, space) == Key(a + b, space)
  {
    FilterConcat(a + gap, b, c => !space(c));
    FilterConcat(a, gap, c => !space(c));
    FilterConcat(a, b, c => !space(c));
    FilterNone(gap, c => !space(c));
  }

  ghost predicate EndsWithOneOf(s: string, words: seq<string>) {
    exists i :: 0 <= i < |words| && |words[i]| <= |s| && s[|s| - |words[i]|..] == words[i]
  }

  datatype Pair = Pair(child: string, parent: string)

  /** The join condition of a child and a candidate parent. */
  predicate CanBeParent(child: string, parent: string, space: Space) {
    var k, pk := Key(child, space), Key(parent, space);
    MIN_PARENT_LENGTH <= |pk| < |k| && Like(pk + [ANY_RUN], k)
  }

  /** One of the allowed outcomes for one child: a candidate of the least length. */
  ghost predicate Shortest(names: set<string>, r: Pair, space: Space) {
    && r.child in names && r.parent in names && CanBeParent(r.child, r.parent, space)
    && forall p :: p in names && CanBeParent(r.child, p, space) ==> |Key(r.parent, space)| <= |Key(p, space)|
  }

  /**
   DISTINCT ON (k) ... ORDER BY k, length(pk): one row for each key that has a candidate,
   with a shortest parent; which spelling and which of several shortest parents is open.
   */
  ghost predicate Candidates(names: set<string>, cand: seq<Pair>, space: Space) {
    CandidatesOf(names, names, cand, space)
  }

  ghost predicate CandidatesOf(names: set<string>, children: set<string>, cand: seq<Pair>, space: Space) {
    && (forall i :: 0 <= i < |cand| ==> Shortest(names, cand[i], space))
    && (forall i, j :: 0 <= i < j < |cand| ==> Key(cand[i].child, space) != Key(cand[j].child, space))
    && (forall c, p :: c in children && p in names && CanBeParent(c, p, space) ==> Listed(cand, Key(c, space), space))
  }

  ghost predicate Listed(cand: seq<Pair>, k: string, space: Space) {
    exists i :: 0 <= i < |cand| && Key(cand[i].child, space) == k
  }

  /** The part of the name beyond the parent's length marks a sub-unit. */
  ghost predicate IsSubunit(r: Pair, space: Space) {
    var k, n := Key(r.child, space), |Key(r.parent, space)|;
    n <= |k| && EndsWithOneOf(k[n..], SUBUNIT) && !EndsWithOneOf(k[n..], INDEPENDENT)
  }

  /** The rows of the view, for one outcome `cand`. */
  ghost function InstitutionParent(cand: seq<Pair>, space: Space): seq<Pair> {
    Filter(cand, (r: Pair) => IsSubunit(r, space))
  }

  /** LEFT JOIN on the name, then coalesce(parent, name): the names one row becomes. */
  function JoinedNames(name: string, parents: seq<Pair>): seq<string> {
    var matches := Filter(parents, (r: Pair) => r.child == name);
    if matches == [] then [name] else Map(matches, (r: Pair) => r.parent)
  }

  /** The institution a name is counted under. */
  function Resolve(name: string, parents: seq<Pair>): string {
    JoinedNames(name, parents)[0]
  }

  ghost predicate UniqueChildren(parents: seq<Pair>) {
    forall i, j :: 0 <= i < j < |parents| ==> parents[i].child != parents[j].child
  }

  // ---------------------------------------------------------------- which candidates are rolled up

  ghost predicate EndsIn(s: string, word: string) {
    exists rest: string :: s == rest + word
  }

  /** The child's name is as many characters as the parent's, and more that end in one of the sub-unit words and none of the others. */
  ghost predicate MarksSubunit(r: Pair, space: Space) {
    exists head: string, tail: string ::
      && Key(r.child, space) == head + tail && |head| == |Key(r.parent, space)|
      && (exists i :: 0 <= i < |SUBUNIT| && EndsIn(tail, SUBUNIT[i]))
      && (forall i :: 0 <= i < |INDEPENDENT| ==> !EndsIn(tail, INDEPENDENT[i]))
  }

  lemma EndsWithOneOfIff(s: string, words: seq<string>)
    ensures EndsWithOneOf(s, words) <==> exists i :: 0 <= i < |words| && EndsIn(s, words[i])
  {
    forall i | 0 <= i < |words|
      ensures EndsIn(s, words[i]) <==> |words[i]| <= |s| && s[|s| - |words[i]|..] == words[i]
    {
      if |words[i]| <= |s| && s[|s| - |words[i]|..] == words[i] {
        assert s == s[..|s| - |words[i]|] + words[i];
      }
    }
  }

  /** The view has exactly the candidates that are marked as sub-units. */
  lemma ParentsAreTheMarkedCandidates(cand: seq<Pair>, space: Space, r: Pair)
    ensures r in InstitutionParent(cand, space) <==> r in cand && MarksSubunit(r, space)
  {
    FilterMembers(cand, (x: Pair) => IsSubunit(x, space));
    var k, n := Key(r.child, space), |Key(r.parent, space)|;
    if n <= |k| {
      EndsWithOneOfIff(k[n..], SUBUNIT);
      EndsWithOneOfIff(k[n..], INDEPENDENT);
      assert k == k[..n] + k[n..];
    }
  }

  // ---------------------------------------------------------------- the view always has an outcome

  /** A parent of the least length, among the names that can be one. */
  lemma ShortestParent(choices: set<string>, space: Space) returns (parent: string)
    requires choices != {}
    ensures parent in choices && forall p :: p in choices ==> |Key(parent, space)| <= |Key(p, space)|
    decreases choices
  {
    var first := Element(choices);
    parent := first;
    var rest := choices - {first};
    if rest != {} {
      var other := ShortestParent(rest, space);
      if |Key(other, space)| < |Key(first, space)| {
        parent := other;
      }
    }
    forall p | p in choices ensures |Key(parent, space)| <= |Key(p, space)| {
      assert p == first || p in rest;
    }
  }

  lemma ListedInMore(cand: seq<Pair>, r: Pair, k: string, space: Space)
    ensures Listed(cand, k, space) || Key(r.child, space) == k ==> Listed(cand + [r], k, space)
  {
    var more := cand + [r];
    assert more[|cand|] == r;
    if Listed(cand, k, space) {
      var i :| 0 <= i < |cand| && Key(cand[i].child, space) == k;
      assert more[i] == cand[i];
    }
  }

  lemma OneMoreCandidate(names: set<string>, children: set<string>, cand: seq<Pair>, space: Space, r: Pair)
    requires CandidatesOf(names, children, cand, space) && Shortest(names, r, space) && !Listed(cand, Key(r.child, space), space)
    ensures CandidatesOf(names, children + {r.child}, cand + [r], space)
  {
    var more := cand + [r];
    forall i, j | 0 <= i < j < |more| ensures Key(more[i].child, space) != Key(more[j].child, space) {
      if j == |cand| {
        assert more[i] == cand[i] && more[j] == r;
      }
    }
    forall c, p | c in children + {r.child} && p in names && CanBeParent(c, p, space) ensures Listed(more, Key(c, space), space) {
      ListedInMore(cand, r, Key(c, space), space);
    }
  }

  lemma NextChild(names: set<string>, children: set<string>, cand: seq<Pair>, space: Space, c: string) returns (more: seq<Pair>)
    requires CandidatesOf(names, children, cand, space) && c in names
    ensures CandidatesOf(names, children + {c}, more, space) && cand <= more
  {
    var choices := set p | p in names && CanBeParent(c, p, space);
    if choices == {} || Listed(cand, Key(c, space), space) {
      more := cand;
      assert forall p :: p in names && CanBeParent(c, p, space) ==> p in choices;
    } else {
      var parent := ShortestParent(choices, space);
      OneMoreCandidate(names, children, cand, space, Pair(c, parent));
      more := cand + [Pair(c, parent)];
    }
  }

  /** Rows that are allowed together can be completed to an allowed outcome. */
  lemma OutcomeExtending(names: set<string>, children: set<string>, start: seq<Pair>, space: Space) returns (cand: seq<Pair>)
    requires children <= names && CandidatesOf(names, {}, start, space)
    ensures CandidatesOf(names, children, cand, space) && start <= cand
    decreases children
  {
    if children == {} {
      cand := start;
    } else {
      var c := Element(children);
      var before := OutcomeExtending(names, children - {c}, start, space);
      cand := NextChild(names, children - {c}, before, space, c);
      assert children - {c} + {c} == children;
    }
  }

  /** Any set of institution names has an allowed outcome. */
  lemma OutcomesExist(names: set<string>, space: Space) returns (cand: seq<Pair>)
    ensures Candidates(names, cand, space)
  {
    cand := OutcomeExtending(names, names, [], space);
  }

  // ---------------------------------------------------------------- names are unique

  lemma {:induction false} FilterKeepsUnique(rows: seq<Pair>, p: Pair -> bool)
    requires UniqueChildren(rows)
    ensures UniqueChildren(Filter(rows, p))
  {
    if rows != [] {
      var before, last := rows[..|rows| - 1], rows[|rows| - 1];
      FilterKeepsUnique(before, p);
      FilterMembers(before, p);
      assert forall r :: r in before ==> r.child != last.child;
    }
  }

  /** No child appears twice, although two spellings of one name may both be institutions. */
  lemma ChildNamesAreUnique(names: set<string>, cand: seq<Pair>, space: Space)
    requires Candidates(names, cand, space)
    ensures UniqueChildren(InstitutionParent(cand, space))
  {
    forall i, j | 0 <= i < j < |cand| ensures cand[i].child != cand[j].child {
      assert Key(cand[i].child, space) != Key(cand[j].child, space);
    }
    FilterKeepsUnique(cand, (r: Pair) => IsSubunit(r, space));
  }

  lemma {:induction false} AtMostOneMatch(name: string, parents: seq<Pair>)
    requires UniqueChildren(parents)
    ensures |Filter(parents, (r: Pair) => r.child == name)| <= 1
  {
    if parents != [] {
      var before, last := parents[..|parents| - 1], parents[|parents| - 1];
      AtMostOneMatch(name, before);
      FilterMembers(before, (r: Pair) => r.child == name);
      if last.child == name {
        assert forall r :: r in before ==> r.child != name;
        var matches := Filter(before, (r: Pair) => r.child == name);
        assert matches != [] ==> matches[0] in matches;
      }
    }
  }

  /** So the left join neither drops nor multiplies rows: each becomes one row with its resolved name. */
  lemma JoinKeepsEachRow(name: string, parents: seq<Pair>)
    requires UniqueChildren(parents)
    ensures JoinedNames(name, parents) == [Resolve(name, parents)]
    ensures Resolve(name, parents) == name || Pair(name, Resolve(name, parents)) in parents
    ensures forall r :: r in parents && r.child == name ==> Resolve(name, parents) == r.parent
  {
    var matches := Filter(parents, (r: Pair) => r.child == name);
    AtMostOneMatch(name, parents);
    FilterMembers(parents, (r: Pair) => r.child == name);
    if matches != [] {
      assert matches[0] in matches && matches == [matches[0]];
    }
  }

  // ---------------------------------------------------------------- roll-up is idempotent

  predicate Free(s: string, meta: char) {
    meta !in s
  }

  /** LIKE of name patterns chains, unless an escape is around or an ANY_CHAR meets an ANY_RUN. */
  lemma {:induction false} LikeChains(q: string, p: string, s: string)
    requires Free(q, ESCAPE) && Free(p, ESCAPE) && (Free(p, ANY_RUN) || Free(q, ANY_CHAR))
    requires Like(q + [ANY_RUN], p) && Like(p + [ANY_RUN], s)
    ensures Like(q + [ANY_RUN], s)
    decreases |q| + |p| + |s|
  {
    var pattern := q + [ANY_RUN];
    if q == [] {
      AnyRunMatchesAll(s);
      assert pattern == [ANY_RUN];
    } else {
      assert pattern[1..] == q[1..] + [ANY_RUN] && pattern[0] == q[0];
      if q[0] == ANY_RUN && Like(pattern[1..], p) {
        LikeChains(q[1..], p, s);
      } else {
        HeadOfPattern(p, s);
        if p[0] == ANY_RUN {
          if Like(p[1..] + [ANY_RUN], s) {
            LikeChains(q, p[1..], s);
          } else {
            LikeChains(q, p, s[1..]);
          }
        } else if q[0] == ANY_RUN {
          LikeChains(q, p[1..], s[1..]);
        } else {
          LikeChains(q[1..], p[1..], s[1..]);
        }
      }
    }
  }

  /** What a match tells about the first character of an escape-free pattern. */
  lemma HeadOfPattern(p: string, s: string)
    requires p != [] && Free(p, ESCAPE) && Like(p + [ANY_RUN], s)
    ensures p[0] == ANY_RUN ==> Like(p[1..] + [ANY_RUN], s) || (s != [] && Like(p + [ANY_RUN], s[1..]))
    ensures p[0] != ANY_RUN ==> s != [] && (p[0] == ANY_CHAR || p[0] == s[0]) && Like(p[1..] + [ANY_RUN], s[1..])
  {
    assert (p + [ANY_RUN])[1..] == p[1..] + [ANY_RUN];
  }

  /** No name has the escape character, and not both wildcards are used in names. */
  ghost predicate Harmless(names: set<string>, space: Space) {
    && (forall n :: n in names ==> Free(Key(n, space), ESCAPE))
    && ((forall n :: n in names ==> Free(Key(n, space), ANY_RUN)) || (forall n :: n in names ==> Free(Key(n, space), ANY_CHAR)))
  }

  /** With harmless names a parent's parent can be the parent itself, and is shorter. */
  lemma GrandparentsQualify(names: set<string>, space: Space, c: string, p: string, q: string)
    requires Harmless(names, space) && c in names && p in names && q in names
    requires CanBeParent(c, p, space) && CanBeParent(p, q, space)
    ensures CanBeParent(c, q, space) && |Key(q, space)| < |Key(p, space)|
  {
    LikeChains(Key(q, space), Key(p, space), Key(c, space));
  }

  /** Two steps up: `c` may be counted under `p`, and `p` under `q`. */
  ghost predicate TwoSteps(names: set<string>, q: string, p: string, c: string, space: Space) {
    && Shortest(names, Pair(c, p), space) && Shortest(names, Pair(p, q), space)
    && IsSubunit(Pair(c, p), space) && IsSubunit(Pair(p, q), space)
  }

  /** The outcome counts `c` under `p` and `p` under `q`. */
  ghost predicate ResolvesTwice(cand: seq<Pair>, q: string, p: string, c: string, space: Space) {
    var parents := InstitutionParent(cand, space);
    Resolve(c, parents) == p && Resolve(p, parents) == q && p != q
  }

  lemma TwoStepsResolveTwice(names: set<string>, q: string, p: string, c: string, space: Space) returns (cand: seq<Pair>)
    requires TwoSteps(names, q, p, c, space)
    ensures Candidates(names, cand, space) && ResolvesTwice(cand, q, p, c, space)
  {
    var start := [Pair(p, q), Pair(c, p)];
    cand := OutcomeExtending(names, names, start, space);
    assert cand[0] == start[0] && cand[1] == start[1];
    var parents := InstitutionParent(cand, space);
    FilterMembers(cand, (r: Pair) => IsSubunit(r, space));
    ChildNamesAreUnique(names, cand, space);
    JoinKeepsEachRow(c, parents);
    JoinKeepsEachRow(p, parents);
    assert Pair(p, q) in cand && Pair(c, p) in cand;
  }

  ghost predicate IdempotentOn(names: set<string>, cand: seq<Pair>, space: Space) {
    var parents := InstitutionParent(cand, space);
    Candidates(names, cand, space) ==> forall n :: Resolve(Resolve(n, parents), parents) == Resolve(n, parents)
  }

  lemma NotIdempotentTakesTwoSteps(names: set<string>, cand: seq<Pair>, space: Space, n: string)
    requires Candidates(names, cand, space)
    requires var parents := InstitutionParent(cand, space); Resolve(Resolve(n, parents), parents) != Resolve(n, parents)
    ensures var parents := InstitutionParent(cand, space); var up := Resolve(n, parents);
      TwoSteps(names, Resolve(up, parents), up, n, space)
  {
    var parents := InstitutionParent(cand, space);
    var up := Resolve(n, parents);
    ChildNamesAreUnique(names, cand, space);
    FilterMembers(cand, (r: Pair) => IsSubunit(r, space));
    JoinKeepsEachRow(n, parents);
    JoinKeepsEachRow(up, parents);
    assert Pair(n, up) in cand && Pair(up, Resolve(up, parents)) in cand;
  }

  /** For any names: every allowed outcome is idempotent if and only if no name can be two steps below another. */
  lemma IdempotentIffNoTwoSteps(names: set<string>, space: Space)
    ensures (forall cand :: IdempotentOn(names, cand, space)) <==> !(exists q, p, c :: TwoSteps(names, q, p, c, space))
  {
    if q, p, c :| TwoSteps(names, q, p, c, space) {
      var cand := TwoStepsResolveTwice(names, q, p, c, space);
      assert !IdempotentOn(names, cand, space);
    }
    if cand :| !IdempotentOn(names, cand, space) {
      var parents := InstitutionParent(cand, space);
      var n :| Resolve(Resolve(n, parents), parents) != Resolve(n, parents);
      NotIdempotentTakesTwoSteps(names, cand, space, n);
    }
  }

  /** With harmless names no chosen parent has a parent of its own. */
  lemma ParentsAreNotChildren(names: set<string>, cand: seq<Pair>, space: Space, r: Pair, s: Pair)
    requires Candidates(names, cand, space) && Harmless(names, space) && r in cand && s in cand
    ensures r.parent != s.child
  {
    assert Shortest(names, r, space) && Shortest(names, s, space);
    if r.parent == s.child {
      GrandparentsQualify(names, space, r.child, r.parent, s.parent);
      assert false;
    }
  }

  /** No name can then be two steps below another. */
  lemma HarmlessNamesTakeOneStep(names: set<string>, space: Space, q: string, p: string, c: string)
    requires Harmless(names, space)
    ensures !TwoSteps(names, q, p, c, space)
  {
    if TwoSteps(names, q, p, c, space) {
      GrandparentsQualify(names, space, c, p, q);
      assert false;
    }
  }

  /** So rolling up twice is rolling up once, in every allowed outcome. */
  lemma RollUpIsIdempotent(names: set<string>, cand: seq<Pair>, space: Space, name: string)
    requires Candidates(names, cand, space) && Harmless(names, space)
    ensures var parents := InstitutionParent(cand, space);
      Resolve(Resolve(name, parents), parents) == Resolve(name, parents)
  {
    forall q, p, c ensures !TwoSteps(names, q, p, c, space) {
      HarmlessNamesTakeOneStep(names, space, q, p, c);
    }
    IdempotentIffNoTwoSteps(names, space);
    assert IdempotentOn(names, cand, space);
  }

  lemma {:induction false} KeyOfUnspaced(name: string, space: Space)
    requires forall c :: c in name ==> !space(c)
    ensures Key(name, space) == name
  {
    if name != [] {
      var before, last := name[..|name| - 1], name[|name| - 1];
      KeyOfUnspaced(before, space);
      assert name == before + [last] && last in name;
    }
  }

  function Blank(c: char): bool {
    c == ' '
  }

  ghost predicate Chained(q: string, p: string, c: string) {
    && MIN_PARENT_LENGTH <= |q| < |p| < |c|
    && Like(q + [ANY_RUN], p) && Like(p + [ANY_RUN], c) && !Like(q + [ANY_RUN], c)
  }

  ghost predicate Unspaced(s: string) {
    forall x :: x in s ==> !Blank(x)
  }

  lemma SubunitWords()
    ensures EndsWithOneOf("본부", SUBUNIT) && EndsWithOneOf("지사", SUBUNIT)
  {
    assert "본부"[0..] == SUBUNIT[0];
    assert "지사"[0..] == SUBUNIT[1];
  }

  lemma IndependentWordsDiffer(i: nat)
    requires i < |INDEPENDENT|
    ensures |INDEPENDENT[i]| >= 2 && INDEPENDENT[i][0] !in "본지"
  {
  }

  lemma SubunitWordsAreNotIndependent(w: string)
    requires |w| == 2 && w[0] in "본지"
    ensures !EndsWithOneOf(w, INDEPENDENT)
  {
    forall i: nat | i < |INDEPENDENT| && |INDEPENDENT[i]| <= |w| ensures w[|w| - |INDEPENDENT[i]|..] != INDEPENDENT[i] {
      IndependentWordsDiffer(i);
      assert w[|w| - |INDEPENDENT[i]|..][0] == w[0];
    }
  }

  lemma ChainedNamesHaveOneParent(q: string, p: string, c: string)
    requires Chained(q, p, c) && Key(q, Blank) == q && Key(p, Blank) == p && Key(c, Blank) == c
    ensures Shortest({q, p, c}, Pair(c, p), Blank) && Shortest({q, p, c}, Pair(p, q), Blank)
  {
    assert CanBeParent(c, p, Blank) && CanBeParent(p, q, Blank);
    assert forall x :: x in {q, p, c} && CanBeParent(c, x, Blank) ==> x == p;
    assert forall x :: x in {q, p, c} && CanBeParent(p, x, Blank) ==> x == q;
  }

  lemma EndsInSubunit(child: string, parent: string)
    requires Key(child, Blank) == child && Key(parent, Blank) == parent && |parent| <= |child|
    requires child[|parent|..] == "본부" || child[|parent|..] == "지사"
    ensures IsSubunit(Pair(child, parent), Blank)
  {
    SubunitWords();
    SubunitWordsAreNotIndependent("본부");
    SubunitWordsAreNotIndependent("지사");
  }

  lemma ChainedNamesTakeTwoSteps(q: string, p: string, c: string)
    requires Chained(q, p, c) && p[|q|..] == "본부" && c[|p|..] == "지사" && Unspaced(q) && Unspaced(p) && Unspaced(c)
    ensures TwoSteps({q, p, c}, q, p, c, Blank)
  {
    KeyOfUnspaced(q, Blank);
    KeyOfUnspaced(p, Blank);
    KeyOfUnspaced(c, Blank);
    ChainedNamesHaveOneParent(q, p, c);
    EndsInSubunit(p, q);
    EndsInSubunit(c, p);
  }

  lemma WildcardsMatch()
    ensures Like("ab_d%", "ab%d본부") && !Like("ab_d%", "abd본부X지사")
  {
  }

  lemma WildcardsMatchAgain()
    ensures Like("ab%d본부%", "abd본부X지사")
  {
  }

  lemma WildcardsDoNotChain()
    ensures Chained("ab_d", "ab%d본부", "abd본부X지사")
  {
    assert "ab_d" + [ANY_RUN] == "ab_d%" && "ab%d본부" + [ANY_RUN] == "ab%d본부%";
    WildcardsMatch();
    WildcardsMatchAgain();
  }

  /** An ANY_CHAR in one name and an ANY_RUN in another are enough to break it. */
  lemma WildcardsBreakIdempotence() returns (cand: seq<Pair>)
    ensures Candidates({"ab_d", "ab%d본부", "abd본부X지사"}, cand, Blank)
    ensures ResolvesTwice(cand, "ab_d", "ab%d본부", "abd본부X지사", Blank)
  {
    WildcardsDoNotChain();
    ChainedNamesTakeTwoSteps("ab_d", "ab%d본부", "abd본부X지사");
    cand := TwoStepsResolveTwice({"ab_d", "ab%d본부", "abd본부X지사"}, "ab_d", "ab%d본부", "abd본부X지사", Blank);
  }

  lemma EscapesMatch()
    ensures Like("ab\\\\c%", "ab\\cd본부") && !Like("ab\\\\c%", "abcd본부X지사")
  {
  }

  lemma EscapesMatchAgain()
    ensures Like("ab\\cd본부%", "abcd본부X지사")
  {
  }

  lemma EscapesDoNotChain()
    ensures Chained("ab\\\\c", "ab\\cd본부", "abcd본부X지사")
  {
    assert "ab\\\\c" + [ANY_RUN] == "ab\\\\c%" && "ab\\cd본부" + [ANY_RUN] == "ab\\cd본부%";
    EscapesMatch();
    EscapesMatchAgain();
  }

  /** So are escape characters alone. */
  lemma EscapesBreakIdempotence() returns (cand: seq<Pair>)
    ensures Candidates({"ab\\\\c", "ab\\cd본부", "abcd본부X지사"}, cand, Blank)
    ensures ResolvesTwice(cand, "ab\\\\c", "ab\\cd본부", "abcd본부X지사", Blank)
  {
    EscapesDoNotChain();
    ChainedNamesTakeTwoSteps("ab\\\\c", "ab\\cd본부", "abcd본부X지사");
    cand := TwoStepsResolveTwice({"ab\\\\c", "ab\\cd본부", "abcd본부X지사"}, "ab\\\\c", "ab\\cd본부", "abcd본부X지사", Blank);
  }

  // ---------------------------------------------------------------- plain names

  ghost predicate Plain(s: string) {
    Free(s, ESCAPE) && Free(s, ANY_RUN) && Free(s, ANY_CHAR)
  }

  lemma {:induction false} PlainIsItsOwnEscape(s: string)
    requires Plain(s)
    ensures EscapeEach(s) == s
  {
    if s != [] {
      PlainIsItsOwnEscape(s[1..]);
      assert s == [s[0]] + s[1..];
    }
  }

  /** A plain name matches exactly the names it begins. */
  lemma PlainPatternsArePrefixes(p: string, s: string)
    requires Plain(p)
    ensures Like(p + [ANY_RUN], s) <==> StartsWith(s, p)
  {
    PlainIsItsOwnEscape(p);
    EscapedMatchesItself(p, [ANY_RUN], s);
    if StartsWith(s, p) {
      AnyRunMatchesAll(s[|p|..]);
    }
  }

  /** With plain names a parent is a name of at least four characters that the child's name extends. */
  lemma PlainParentsAreBeginnings(child: string, parent: string, space: Space)
    requires Plain(Key(parent, space))
    ensures CanBeParent(child, parent, space) <==>
      4 <= |Key(parent, space)| && exists rest: string :: rest != "" && Key(child, space) == Key(parent, space) + rest
  {
    var k, pk := Key(child, space), Key(parent, space);
    PlainPatternsArePrefixes(pk, k);
    if CanBeParent(child, parent, space) {
      assert k == pk + k[|pk|..];
    }
  }

  /** Every name that extends another plain one of four characters has a candidate row, with a parent that is as short. */
  lemma ExtensionsAreListed(names: set<string>, cand: seq<Pair>, space: Space, child: string, parent: string, rest: string)
    requires Candidates(names, cand, space) && child in names && parent in names && Plain(Key(parent, space))
    requires 4 <= |Key(parent, space)| && rest != "" && Key(child, space) == Key(parent, space) + rest
    ensures exists r :: r in cand && Key(r.child, space) == Key(child, space) && |Key(r.parent, space)| <= |Key(parent, space)|
  {
    PlainParentsAreBeginnings(child, parent, space);
    assert Listed(cand, Key(child, space), space);
    var i :| 0 <= i < |cand| && Key(cand[i].child, space) == Key(child, space);
    assert Shortest(names, cand[i], space);
    assert CanBeParent(cand[i].child, parent, space);
    assert cand[i] in cand;
  }

  /** With plain names the outcome is determined up to white space. */
  lemma ParentKeyIsDetermined(names: set<string>, cand: seq<Pair>, other: seq<Pair>, space: Space, r: Pair, s: Pair)
    requires Candidates(names, cand, space) && Candidates(names, other, space)
    requires forall n :: n in names ==> Plain(Key(n, space))
    requires r in cand && s in other && Key(r.child, space) == Key(s.child, space)
    ensures Key(r.parent, space) == Key(s.parent, space)
  {
    assert Shortest(names, r, space) && Shortest(names, s, space);
    var k := Key(r.child, space);
    PlainPatternsArePrefixes(Key(r.parent, space), k);
    PlainPatternsArePrefixes(Key(s.parent, space), k);
    assert CanBeParent(r.child, s.parent, space) && CanBeParent(s.child, r.parent, space);
  }
}
