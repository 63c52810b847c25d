/**
 Keeping `match_results` fresh (app/services/match_refresh.py and
 app/infra/db/repositories/match_repository.py).

 `match_results` holds one row per company and bid.  It is written in three ways: the
 full rebuild of one company, the upsert of the bids normalised since a lower bound, and
 the rebuild after a profile save.  The lower bound comes from the newest `computed_at`
 of ANY company, so a write for one company moves the bound of all of them.

 `compute_match_results` is an uninterpreted function of the company's profile and the
 bid's requirement, applied to the bids that are open when the transaction starts.
 */
module MatchRefresh {
  import opened Wrappers
  import opened Collections

  type CompanyId = int
  type BidKey = int
  type Profile = int
  type Requirement = int
  type Verdict = int
  /** Microseconds. */
  type Time = int

  const OVERLAP: Time := 60_000_000

  /** A row of bid_table joined with its normalised requirement summary. */
  datatype Bid = Bid(requirement: Requirement, closesAt: Option<Time>, normalizedAt: Time)

  datatype Row = Row(verdict: Verdict, computedAt: Time)

  /** `rows` is match_results, grouped by company. */
  datatype Tables = Tables(
    bids: map<BidKey, Bid>,
    profiles: map<CompanyId, Profile>,
    active: set<CompanyId>,
    rows: map<CompanyId, map<BidKey, Row>>)
  {
    ghost predicate Valid() {
      active <= profiles.Keys && profiles.Keys == rows.Keys
    }
  }

  type Compute = (Profile, Requirement) -> Verdict

  predicate Open(bid: Bid, now: Time) {
    bid.closesAt.None? || now <= bid.closesAt.value
  }

  /** The rows compute_match_results yields for a company with this profile in a transaction stamped `stamp`. */
  function Computed(compute: Compute, bids: map<BidKey, Bid>, profile: Profile, stamp: Time): map<BidKey, Row> {
    map b | b in bids && Open(bids[b], stamp) :: Row(compute(profile, bids[b].requirement), stamp)
  }

  /** The part of them normalised after `since`. */
  function NewerThan(compute: Compute, bids: map<BidKey, Bid>, profile: Profile, since: Time, stamp: Time): map<BidKey, Row> {
    map b | b in bids && Open(bids[b], stamp) && bids[b].normalizedAt > since ::
      Row(compute(profile, bids[b].requirement), stamp)
  }

  function Recompute(compute: Compute, db: Tables, c: CompanyId, stamp: Time): Tables
    requires c in db.profiles
  {
    db.(rows := db.rows[c := Computed(compute, db.bids, db.profiles[c], stamp)])
  }

  function Upsert(compute: Compute, db: Tables, c: CompanyId, since: Time, stamp: Time): Tables
    requires c in db.profiles && c in db.rows
  {
    db.(rows := db.rows[c := db.rows[c] + NewerThan(compute, db.bids, db.profiles[c], since, stamp)])
  }

  function NormalizedStamps(db: Tables): set<Time> {
    set b | b in db.bids :: db.bids[b].normalizedAt
  }

  function ComputedStamps(db: Tables): set<Time> {
    set c, b | c in db.rows && b in db.rows[c] :: db.rows[c][b].computedAt
  }

  lemma {:induction false} MaximumExists(s: set<int>)
    requires s != {}
    ensures exists m :: m in s && forall x :: x in s ==> x <= m
  {
    var e := Element(s);
    var rest := s - {e};
    if rest == {} {
      assert s == {e};
    } else {
      MaximumExists(rest);
      var m :| m in rest && forall x :: x in rest ==> x <= m;
      var top := if m < e then e else m;
      assert top in s;
      assert forall x :: x in s ==> x == e || x in rest;
    }
  }

  /** SQL max(): NULL over no rows. */
  function Latest(s: set<Time>): (r: Option<Time>)
    ensures r.None? <==> s == {}
    ensures r.Some? ==> r.value in s && forall x :: x in s ==> x <= r.value
  {
    if s == {} then None
    else
      MaximumExists(s);
      var m :| m in s && forall x :: x in s ==> x <= m;
      Some(m)
  }

  // ---------------------------------------------------------------- one cycle

  predicate Known(db: Tables, todo: seq<CompanyId>) {
    forall i {:trigger todo[i]} :: 0 <= i < |todo| ==> todo[i] in db.profiles
  }

  datatype Mode = NoCompany | NothingNormalized | NothingNew | Full | Initial | Incremental(since: Time)
  {
    predicate Skipped() { NoCompany? || NothingNormalized? || NothingNew? }
  }

  function Decide(db: Tables, full: bool): Mode {
    if db.active == {} then NoCompany
    else if full then Full
    else
      var normalizedAt := Latest(NormalizedStamps(db));
      var computedAt := Latest(ComputedStamps(db));
      if normalizedAt.None? then NothingNormalized
      else if computedAt.None? then Initial
      else if normalizedAt.value <= computedAt.value then NothingNew
      else Incremental(computedAt.value - OVERLAP)
  }

  /** The rows a visit leaves its company: the old ones updated, or only the computed ones. */
  function RowsFor(compute: Compute, bids: map<BidKey, Bid>, profile: Profile, mode: Mode, before: map<BidKey, Row>, stamp: Time): map<BidKey, Row> {
    if mode.Incremental? then before + NewerThan(compute, bids, profile, mode.since, stamp)
    else Computed(compute, bids, profile, stamp)
  }

  function WorkOn(compute: Compute, db: Tables, mode: Mode, c: CompanyId, stamp: Time): Tables
    requires c in db.profiles && c in db.rows
  {
    db.(rows := db.rows[c := RowsFor(compute, db.bids, db.profiles[c], mode, db.rows[c], stamp)])
  }

  /** The rows of one company after the first `n` visits of the cycle. */
  function CompanyRows(
    compute: Compute, bids: map<BidKey, Bid>, profile: Profile, mode: Mode, before: map<BidKey, Row>,
    todo: seq<CompanyId>, stamps: seq<Time>, c: CompanyId, n: nat): map<BidKey, Row>
    requires n <= |todo| == |stamps|
  {
    if n == 0 then before
    else
      var rows := CompanyRows(compute, bids, profile, mode, before, todo, stamps, c, n - 1);
      if todo[n - 1] == c then RowsFor(compute, bids, profile, mode, rows, stamps[n - 1]) else rows
  }

  /** match_results after the first `n` visits: each company has the outcome of its own. */
  function RowsAfter(compute: Compute, db: Tables, mode: Mode, todo: seq<CompanyId>, stamps: seq<Time>, n: nat): map<CompanyId, map<BidKey, Row>>
    requires db.Valid() && n <= |todo| == |stamps|
  {
    map c | c in db.rows :: CompanyRows(compute, db.bids, db.profiles[c], mode, db.rows[c], todo, stamps, c, n)
  }

  /** The open bids a visit computes: all, or those normalised after the lower bound. */
  ghost function Reached(bids: map<BidKey, Bid>, mode: Mode, stamp: Time): set<BidKey> {
    set b | b in bids && Open(bids[b], stamp) && (mode.Incremental? ==> bids[b].normalizedAt > mode.since)
  }

  /** Rows the visit of one company writes. */
  function Written(compute: Compute, db: Tables, mode: Mode, c: CompanyId, stamp: Time): (n: nat)
    requires c in db.profiles
    ensures n == |Reached(db.bids, mode, stamp)|
  {
    assert mode.Incremental? ==> NewerThan(compute, db.bids, db.profiles[c], mode.since, stamp).Keys == Reached(db.bids, mode, stamp);
    assert !mode.Incremental? ==> Computed(compute, db.bids, db.profiles[c], stamp).Keys == Reached(db.bids, mode, stamp);
    if mode.Incremental? then |NewerThan(compute, db.bids, db.profiles[c], mode.since, stamp)|
    else |Computed(compute, db.bids, db.profiles[c], stamp)|
  }

  function WrittenBy(compute: Compute, db: Tables, mode: Mode, todo: seq<CompanyId>, stamps: seq<Time>, n: nat): nat
    requires Known(db, todo) && n <= |todo| == |stamps|
    decreases n
  {
    if n == 0 then 0
    else WrittenBy(compute, db, mode, todo, stamps, n - 1) + Written(compute, db, mode, todo[n - 1], stamps[n - 1])
  }

  function TablesAfter(compute: Compute, db: Tables, mode: Mode, todo: seq<CompanyId>, stamps: seq<Time>, n: nat): Tables
    requires db.Valid() && Known(db, todo) && n <= |todo| == |stamps|
  {
    db.(rows := RowsAfter(compute, db, mode, todo, stamps, n))
  }

  lemma NoVisits(compute: Compute, db: Tables, mode: Mode, todo: seq<CompanyId>, stamps: seq<Time>)
    requires db.Valid() && Known(db, todo) && |todo| == |stamps|
    ensures TablesAfter(compute, db, mode, todo, stamps, 0) == db && WrittenBy(compute, db, mode, todo, stamps, 0) == 0
  {
  }

  /** One more visit, to the tables as the first `n` visits left them. */
  lemma NextVisit(compute: Compute, db: Tables, mode: Mode, todo: seq<CompanyId>, stamps: seq<Time>, n: nat, now: Tables)
    requires db.Valid() && Known(db, todo) && n < |todo| == |stamps|
    requires now == TablesAfter(compute, db, mode, todo, stamps, n)
    ensures now.Valid() && todo[n] in now.profiles
    ensures WorkOn(compute, now, mode, todo[n], stamps[n]) == TablesAfter(compute, db, mode, todo, stamps, n + 1)
    ensures WrittenBy(compute, db, mode, todo, stamps, n + 1)
         == WrittenBy(compute, db, mode, todo, stamps, n) + Written(compute, now, mode, todo[n], stamps[n])
  {
  }

  // ---------------------------------------------------------------- freshness

  /** If bid `b` is still open, company `c` has the row a recomputation would give. */
  ghost predicate Covered(compute: Compute, db: Tables, c: CompanyId, b: BidKey, now: Time)
    requires c in db.profiles && c in db.rows && b in db.bids
  {
    Open(db.bids[b], now) ==>
      b in db.rows[c] && db.rows[c][b].verdict == compute(db.profiles[c], db.bids[b].requirement)
  }

  /** Some row was computed a full overlap after `n`: the next lower bound will be at least `n`. */
  ghost predicate Settled(db: Tables, n: Time) {
    exists w :: w in ComputedStamps(db) && n + OVERLAP <= w
  }

  /** What the matching list shows company `c`: the deadline filter of `_apply_filters`. */
  function Shown(db: Tables, c: CompanyId, now: Time): map<BidKey, Verdict>
    requires c in db.rows
  {
    map b | b in db.rows[c] && b in db.bids && Open(db.bids[b], now) :: db.rows[c][b].verdict
  }

  /** Past its close a bid is neither shown nor computed; until then, or without a close, a rebuild shows every bid. */
  lemma ShownUntilTheClose(compute: Compute, db: Tables, c: CompanyId, b: BidKey, now: Time)
    requires db.Valid() && c in db.profiles && b in db.bids
    ensures db.bids[b].closesAt.Some? && db.bids[b].closesAt.value < now ==>
      b !in Shown(db, c, now) && b !in Computed(compute, db.bids, db.profiles[c], now)
    ensures db.bids[b].closesAt.None? || now <= db.bids[b].closesAt.value ==>
      var shown := Shown(Recompute(compute, db, c, now), c, now);
      b in shown && shown[b] == compute(db.profiles[c], db.bids[b].requirement)
  {
  }

  function Restrict(m: map<BidKey, Verdict>, keys: set<BidKey>): map<BidKey, Verdict> {
    map b | b in m && b in keys :: m[b]
  }

  /** Over any set of bids, the list equals the one after a full rebuild exactly when they are covered. */
  lemma ShownIsRebuiltIffCovered(compute: Compute, db: Tables, c: CompanyId, keys: set<BidKey>, now: Time)
    requires db.Valid() && c in db.profiles && keys <= db.bids.Keys
    ensures Restrict(Shown(db, c, now), keys) == Restrict(Shown(Recompute(compute, db, c, now), c, now), keys)
      <==> forall b :: b in keys ==> Covered(compute, db, c, b, now)
  {
    var have, want := Restrict(Shown(db, c, now), keys), Restrict(Shown(Recompute(compute, db, c, now), c, now), keys);
    assert forall b :: b in want <==> b in keys && Open(db.bids[b], now);
    assert forall b :: b in want ==> want[b] == compute(db.profiles[c], db.bids[b].requirement);
    if have == want {
      forall b | b in keys ensures Covered(compute, db, c, b, now) {
        assert b in want ==> b in have && have[b] == want[b];
      }
    }
    if forall b :: b in keys ==> Covered(compute, db, c, b, now) {
      forall b ensures b in have <==> b in want {
        assert b in keys ==> Covered(compute, db, c, b, now);
      }
      forall b | b in have ensures have[b] == want[b] {
        assert Covered(compute, db, c, b, now);
      }
    }
  }

  // ---------------------------------------------------------------- runs

  /** A cycle in progress: what is left to do and the bids committed since it began. */
  datatype Cycle = Cycle(mode: Mode, start: Time, todo: seq<CompanyId>, touched: set<BidKey>)
  {
    /** The cycle will bring company `c` any bid normalised at `n` that is open then. */
    predicate Brings(c: CompanyId, n: Time) {
      c in todo && Reaches(n)
    }

    predicate Reaches(n: Time) {
      mode.Incremental? ==> n > mode.since
    }
  }

  type CycleId = nat

  type Cycles = map<CycleId, Cycle>

  /**
   Any number of cycles may be in progress, as when two slots run for a while.

   `stale` are the companies the promise leaves out: newly created ones, those whose profile was
   saved and not rebuilt since, those an aborted cycle did not reach, and those a gap opened by
   another company's rebuild may concern.  Their own rebuild or full visit brings them back.
   */
  datatype State = State(db: Tables, now: Time, cycles: Cycles, stale: set<CompanyId>)

  datatype Event =
    | Normalise(b: BidKey, bid: Bid)
    | StartCycle(k: CycleId, full: bool, todo: seq<CompanyId>)
    | Work(k: CycleId, stamp: Time)
    | Abort(k: CycleId)
    | Withdraw(c: CompanyId)
    | Create(c: CompanyId, profile: Profile)
    | SaveProfile(c: CompanyId, profile: Profile)
    | Rebuild(c: CompanyId, rebuildStamp: Time)

  /** `span` bounds a cycle from its start to its last commit, `lag` the normaliser's delay between stamp and commit. */
  datatype Config = Config(compute: Compute, span: Time, lag: Time)
  {
    ghost predicate Valid() { 0 <= span && 0 <= lag && span + lag <= OVERLAP }
  }

  /** A rebuild of `c` at `stamp` opens no gap for anyone else: every open bid it makes settled was settled already. */
  ghost predicate RebuildLeavesNoGap(db: Tables, c: CompanyId, stamp: Time, t: Time) {
    || db.active <= {c}
    || forall b :: b in db.bids && Open(db.bids[b], t) && db.bids[b].normalizedAt + OVERLAP <= stamp
         ==> Settled(db, db.bids[b].normalizedAt)
  }

  function Saved(db: Tables, c: CompanyId, profile: Profile): Tables {
    db.(profiles := db.profiles[c := profile])
  }

  /** A profile save with its rebuild. */
  function AfterSave(compute: Compute, db: Tables, c: CompanyId, profile: Profile, stamp: Time): Tables
    requires c in db.profiles
  {
    Recompute(compute, Saved(db, c, profile), c, stamp)
  }

  function Created(db: Tables, c: CompanyId, profile: Profile): Tables {
    db.(profiles := db.profiles[c := profile], active := db.active + {c}, rows := db.rows[c := map[]])
  }

  function Touch(cycles: Cycles, b: BidKey): Cycles {
    map k | k in cycles :: cycles[k].(touched := cycles[k].touched + {b})
  }

  function AfterStart(s: State, k: CycleId, full: bool, todo: seq<CompanyId>, t: Time): State {
    var mode := Decide(s.db, full);
    if mode.Skipped() then s.(now := t)
    else State(s.db, t, s.cycles[k := Cycle(mode, t, todo, {})], s.stale)
  }

  function AfterWork(compute: Compute, s: State, k: CycleId, stamp: Time, t: Time): State
    requires s.db.Valid() && k in s.cycles && s.cycles[k].todo != [] && s.cycles[k].todo[0] in s.db.profiles
  {
    var cy := s.cycles[k];
    State(WorkOn(compute, s.db, cy.mode, cy.todo[0], stamp), t,
          if |cy.todo| == 1 then s.cycles - {k} else s.cycles[k := cy.(todo := cy.todo[1..])],
          if cy.mode.Incremental? then s.stale else s.stale - {cy.todo[0]})
  }

  /** One committed event at the new instant `t`.  A cycle once started finishes or breaks off within `span`. */
  ghost predicate Next(cfg: Config, s: State, e: Event, t: Time, s': State)
    requires s.db.Valid()
  {
    && s.now < t
    && (forall k :: k in s.cycles ==> t <= s.cycles[k].start + cfg.span)
    && match e
       case Normalise(b, bid) =>
         && t - cfg.lag <= bid.normalizedAt <= t
         && s' == State(s.db.(bids := s.db.bids[b := bid]), t, Touch(s.cycles, b), s.stale)
       case StartCycle(k, full, todo) =>
         && k !in s.cycles
         && (forall c :: c in todo <==> c in s.db.active)
         && s' == AfterStart(s, k, full, todo, t)
       case Work(k, stamp) =>
         && k in s.cycles && s.cycles[k].todo != [] && s.cycles[k].todo[0] in s.db.profiles
         && stamp <= t
         && s' == AfterWork(cfg.compute, s, k, stamp, t)
       case Abort(k) =>
         && k in s.cycles
         && s' == State(s.db, t, s.cycles - {k}, s.stale + set c | c in s.cycles[k].todo)
       case Withdraw(c) =>
         s' == State(s.db.(active := s.db.active - {c}), t, s.cycles, s.stale)
       case Create(c, profile) =>
         && c !in s.db.profiles
         && s' == State(Created(s.db, c, profile), t, s.cycles, s.stale + {c})
       case SaveProfile(c, profile) =>
         && c in s.db.active
         && s' == State(Saved(s.db, c, profile), t, s.cycles, s.stale + {c})
       case Rebuild(c, stamp) =>
         && c in s.db.active && stamp <= t
         && s' == State(Recompute(cfg.compute, s.db, c, stamp), t, s.cycles,
                        if s.cycles != map[] || RebuildLeavesNoGap(s.db, c, stamp, t) then s.stale - {c}
                        else s.stale + s.db.active - {c})
  }

  ghost predicate Clocked(s: State) {
    && s.db.Valid()
    && (forall w :: w in ComputedStamps(s.db) ==> w <= s.now)
    && (forall b :: b in s.db.bids ==> s.db.bids[b].normalizedAt <= s.now)
  }

  /** The companies the promise is for. */
  function Trusted(s: State): set<CompanyId> {
    s.db.active - s.stale
  }

  /** The freshness promise between cycles: whatever lies behind the watermark by the overlap is right for all of `who`. */
  ghost predicate Fresh(compute: Compute, db: Tables, now: Time, who: set<CompanyId>)
    requires db.Valid() && who <= db.active
  {
    forall c, b :: c in who && b in db.bids && Settled(db, db.bids[b].normalizedAt)
      ==> Covered(compute, db, c, b, now)
  }

  // ---------------------------------------------------------------- the promise while cycles run

  /** The instant lies behind the watermark by the overlap, or behind what a running cycle took it for. */
  ghost predicate Due(s: State, n: Time) {
    Settled(s.db, n) || exists k :: k in s.cycles && !s.cycles[k].Reaches(n)
  }

  ghost predicate Coming(cycles: Cycles, c: CompanyId, n: Time) {
    exists k :: k in cycles && cycles[k].Brings(c, n)
  }

  /** What is due is right, or some running cycle will bring it. */
  ghost predicate Promise(compute: Compute, s: State)
    requires s.db.Valid()
  {
    forall c, b :: c in Trusted(s) && b in s.db.bids && Due(s, s.db.bids[b].normalizedAt)
      ==> Covered(compute, s.db, c, b, s.now) || Coming(s.cycles, c, s.db.bids[b].normalizedAt)
  }

  /** A cycle has brought the companies it visited all it reaches, except bids committed since it began. */
  ghost predicate Brought(compute: Compute, s: State, cy: Cycle)
    requires s.db.Valid()
  {
    forall c, b :: c in Trusted(s) && c !in cy.todo && b in s.db.bids && b !in cy.touched && cy.Reaches(s.db.bids[b].normalizedAt)
      ==> Covered(compute, s.db, c, b, s.now)
  }

  ghost predicate Timely(cfg: Config, s: State, cy: Cycle) {
    && cy.start <= s.now && !cy.mode.Skipped() && cy.todo != [] && Known(s.db, cy.todo)
    && (cy.mode.Incremental? ==> cy.mode.since + OVERLAP <= cy.start)
    && (forall b :: b in s.db.bids && b in cy.touched ==> cy.start - cfg.lag < s.db.bids[b].normalizedAt)
  }

  ghost predicate Inv(cfg: Config, s: State) {
    && Clocked(s) && Promise(cfg.compute, s)
    && (forall k :: k in s.cycles ==> Timely(cfg, s, s.cycles[k]))
    && (forall k :: k in s.cycles ==> Brought(cfg.compute, s, s.cycles[k]))
  }

  /** Between cycles that is the freshness promise. */
  lemma PromiseIsFreshness(cfg: Config, s: State)
    requires s.db.Valid() && s.cycles == map[]
    ensures Promise(cfg.compute, s) <==> Fresh(cfg.compute, s.db, s.now, Trusted(s))
  {
    forall c, n ensures !Coming(s.cycles, c, n) && (Due(s, n) <==> Settled(s.db, n)) {
    }
  }

  lemma NormaliseKeepsInv(cfg: Config, s: State, b: BidKey, bid: Bid, t: Time, s': State)
    requires cfg.Valid() && Inv(cfg, s) && Next(cfg, s, Normalise(b, bid), t, s')
    ensures Inv(cfg, s')
  {
    assert ComputedStamps(s'.db) == ComputedStamps(s.db);
    assert !Due(s', bid.normalizedAt);
    forall c, d | c in Trusted(s') && d in s'.db.bids && d != b
      ensures Covered(cfg.compute, s.db, c, d, s.now) ==> Covered(cfg.compute, s'.db, c, d, t)
      ensures Due(s', s.db.bids[d].normalizedAt) ==> Due(s, s.db.bids[d].normalizedAt)
      ensures Coming(s.cycles, c, s.db.bids[d].normalizedAt) ==> Coming(s'.cycles, c, s.db.bids[d].normalizedAt)
    {
      if k :| k in s.cycles && s.cycles[k].Brings(c, s.db.bids[d].normalizedAt) {
        assert s'.cycles[k].Brings(c, s.db.bids[d].normalizedAt);
      }
    }
  }

  /** A cycle takes for its lower bound what was settled, so that starting it makes nothing due. */
  lemma StartMakesNothingDue(cfg: Config, s: State, k: CycleId, full: bool, todo: seq<CompanyId>, t: Time, s': State, n: Time)
    requires cfg.Valid() && Inv(cfg, s) && Next(cfg, s, StartCycle(k, full, todo), t, s')
    ensures Due(s', n) ==> Due(s, n)
  {
    if j :| j in s'.cycles && !s'.cycles[j].Reaches(n) {
      if j == k {
        assert s'.cycles[k].mode.since + OVERLAP in ComputedStamps(s.db);
      } else {
        assert j in s.cycles && !s.cycles[j].Reaches(n);
      }
    }
  }

  lemma StartedIsTimely(cfg: Config, s: State, k: CycleId, full: bool, todo: seq<CompanyId>, t: Time, s': State)
    requires cfg.Valid() && Inv(cfg, s) && Next(cfg, s, StartCycle(k, full, todo), t, s') && !Decide(s.db, full).Skipped()
    ensures Timely(cfg, s', s'.cycles[k]) && Brought(cfg.compute, s', s'.cycles[k])
  {
    var c := Element(s.db.active);
    assert c in todo;
    forall i | 0 <= i < |todo| ensures todo[i] in s.db.profiles {
      var d := todo[i];
      assert d in todo;
    }
  }

  lemma StartKeepsInv(cfg: Config, s: State, k: CycleId, full: bool, todo: seq<CompanyId>, t: Time, s': State)
    requires cfg.Valid() && Inv(cfg, s) && Next(cfg, s, StartCycle(k, full, todo), t, s')
    ensures Inv(cfg, s')
  {
    forall c, d | c in Trusted(s) && d in s.db.bids
      ensures Covered(cfg.compute, s.db, c, d, s.now) ==> Covered(cfg.compute, s.db, c, d, t)
      ensures Due(s', s.db.bids[d].normalizedAt) ==> Due(s, s.db.bids[d].normalizedAt)
      ensures Coming(s.cycles, c, s.db.bids[d].normalizedAt) ==> Coming(s'.cycles, c, s.db.bids[d].normalizedAt)
    {
      StartMakesNothingDue(cfg, s, k, full, todo, t, s', s.db.bids[d].normalizedAt);
      if j :| j in s.cycles && s.cycles[j].Brings(c, s.db.bids[d].normalizedAt) {
        assert s'.cycles[j].Brings(c, s.db.bids[d].normalizedAt);
      }
    }
    if !Decide(s.db, full).Skipped() {
      StartedIsTimely(cfg, s, k, full, todo, t, s');
    }
  }

  lemma WithdrawKeepsInv(cfg: Config, s: State, c: CompanyId, t: Time, s': State)
    requires cfg.Valid() && Inv(cfg, s) && Next(cfg, s, Withdraw(c), t, s')
    ensures Inv(cfg, s')
  {
    assert ComputedStamps(s'.db) == ComputedStamps(s.db);
    forall e, d | e in Trusted(s') && d in s'.db.bids
      ensures Covered(cfg.compute, s.db, e, d, s.now) ==> Covered(cfg.compute, s'.db, e, d, t)
    {
    }
  }

  /** Stamps after company `c` was rewritten: old ones, or the new one. */
  lemma StampsAfterRewrite(db: Tables, db': Tables, c: CompanyId, stamp: Time)
    requires c in db.rows && c in db'.rows && db'.rows == db.rows[c := db'.rows[c]]
    requires forall b :: b in db'.rows[c] ==> db'.rows[c][b].computedAt == stamp || (b in db.rows[c] && db'.rows[c][b] == db.rows[c][b])
    ensures forall w :: w in ComputedStamps(db') ==> w == stamp || w in ComputedStamps(db)
  {
  }

  lemma AbortKeepsInv(cfg: Config, s: State, k: CycleId, t: Time, s': State)
    requires cfg.Valid() && Inv(cfg, s) && Next(cfg, s, Abort(k), t, s')
    ensures Inv(cfg, s')
  {
    forall e, d | e in Trusted(s') && d in s'.db.bids
      ensures Covered(cfg.compute, s.db, e, d, s.now) ==> Covered(cfg.compute, s'.db, e, d, t)
      ensures Coming(s.cycles, e, s.db.bids[d].normalizedAt) ==> Coming(s'.cycles, e, s.db.bids[d].normalizedAt)
    {
      if j :| j in s.cycles && s.cycles[j].Brings(e, s.db.bids[d].normalizedAt) {
        assert j in s'.cycles && s'.cycles[j] == s.cycles[j];
      }
    }
  }

  lemma CreateKeepsInv(cfg: Config, s: State, c: CompanyId, profile: Profile, t: Time, s': State)
    requires cfg.Valid() && Inv(cfg, s) && Next(cfg, s, Create(c, profile), t, s')
    ensures Inv(cfg, s')
  {
    CreatedHasTheSameStamps(s.db, c, profile);
    forall e, d | e in Trusted(s') && d in s'.db.bids
      ensures Covered(cfg.compute, s.db, e, d, s.now) ==> Covered(cfg.compute, s'.db, e, d, t)
    {
    }
  }

  lemma CreatedHasTheSameStamps(db: Tables, c: CompanyId, profile: Profile)
    requires db.Valid() && c !in db.profiles
    ensures ComputedStamps(Created(db, c, profile)) == ComputedStamps(db)
  {
    var db' := Created(db, c, profile);
    assert db'.rows[c] == map[];
    assert forall e :: e in db.rows ==> db'.rows[e] == db.rows[e];
    forall w ensures w in ComputedStamps(db') <==> w in ComputedStamps(db) {
      if w in ComputedStamps(db) {
        var e, b :| e in db.rows && b in db.rows[e] && db.rows[e][b].computedAt == w;
        assert e in db'.rows && b in db'.rows[e] && db'.rows[e][b].computedAt == w;
      }
    }
  }

  lemma SaveKeepsInv(cfg: Config, s: State, c: CompanyId, profile: Profile, t: Time, s': State)
    requires cfg.Valid() && Inv(cfg, s) && Next(cfg, s, SaveProfile(c, profile), t, s')
    ensures Inv(cfg, s')
  {
    assert ComputedStamps(s'.db) == ComputedStamps(s.db);
    forall e, d | e in Trusted(s') && d in s'.db.bids
      ensures Covered(cfg.compute, s.db, e, d, s.now) ==> Covered(cfg.compute, s'.db, e, d, t)
    {
    }
  }

  /**
   What a new stamp makes due while cycle `k` runs, the cycle has brought every company it has
   visited, or will bring it: the bid is old enough to have been there when the cycle began.
   */
  lemma NewlyDueIsBrought(cfg: Config, s: State, k: CycleId, stamp: Time, c: CompanyId, b: BidKey)
    requires cfg.Valid() && Inv(cfg, s) && k in s.cycles && stamp <= s.cycles[k].start + cfg.span
    requires c in Trusted(s) && b in s.db.bids && !Due(s, s.db.bids[b].normalizedAt) && s.db.bids[b].normalizedAt + OVERLAP <= stamp
    ensures Covered(cfg.compute, s.db, c, b, s.now) || s.cycles[k].Brings(c, s.db.bids[b].normalizedAt)
  {
    var cy := s.cycles[k];
    assert cy.Reaches(s.db.bids[b].normalizedAt);
    assert b !in cy.touched;
    assert c !in cy.todo ==> Covered(cfg.compute, s.db, c, b, s.now);
  }

  lemma RebuildKeepsInv(cfg: Config, s: State, c: CompanyId, stamp: Time, t: Time, s': State)
    requires cfg.Valid() && Inv(cfg, s) && Next(cfg, s, Rebuild(c, stamp), t, s')
    ensures Inv(cfg, s')
  {
    StampsAfterRewrite(s.db, s'.db, c, stamp);
    forall d | d in s'.db.bids ensures Covered(cfg.compute, s'.db, c, d, t) {
    }
    forall e, d | e in Trusted(s') && d in s'.db.bids && e != c
      ensures Covered(cfg.compute, s.db, e, d, s.now) ==> Covered(cfg.compute, s'.db, e, d, t)
    {
    }
    forall e, d | e in Trusted(s') && d in s'.db.bids && Due(s', s.db.bids[d].normalizedAt)
      ensures Covered(cfg.compute, s'.db, e, d, t) || Coming(s'.cycles, e, s.db.bids[d].normalizedAt)
    {
      if e != c && Open(s.db.bids[d], t) {
        RebuildKeepsPromise(cfg, s, c, stamp, t, s', e, d);
      }
    }
  }

  lemma RebuildKeepsPromise(cfg: Config, s: State, c: CompanyId, stamp: Time, t: Time, s': State, e: CompanyId, d: BidKey)
    requires cfg.Valid() && Inv(cfg, s) && Next(cfg, s, Rebuild(c, stamp), t, s')
    requires forall w :: w in ComputedStamps(s'.db) ==> w == stamp || w in ComputedStamps(s.db)
    requires e in Trusted(s') && e != c && d in s.db.bids && Open(s.db.bids[d], t) && Due(s', s.db.bids[d].normalizedAt)
    ensures Covered(cfg.compute, s.db, e, d, s.now) || Coming(s.cycles, e, s.db.bids[d].normalizedAt)
  {
    var n := s.db.bids[d].normalizedAt;
    assert e in Trusted(s);
    if !Due(s, n) {
      assert n + OVERLAP <= stamp;
      assert s.cycles != map[];
      var k :| k in s.cycles;
      NewlyDueIsBrought(cfg, s, k, stamp, e, d);
    }
  }

  // ---------------------------------------------------------------- one visit of a cycle

  /** A visit never makes a right row wrong. */
  lemma VisitKeepsCovered(cfg: Config, s: State, k: CycleId, stamp: Time, t: Time, s': State, c: CompanyId, b: BidKey)
    requires cfg.Valid() && Inv(cfg, s) && Next(cfg, s, Work(k, stamp), t, s')
    requires c in s.db.active && b in s.db.bids
    requires Covered(cfg.compute, s.db, c, b, s.now)
    ensures Covered(cfg.compute, s'.db, c, b, t)
  {
  }

  /** A visit leaves the visited company right on every bid the cycle reaches. */
  lemma VisitCovers(cfg: Config, s: State, k: CycleId, stamp: Time, t: Time, s': State, b: BidKey)
    requires cfg.Valid() && Inv(cfg, s) && Next(cfg, s, Work(k, stamp), t, s')
    requires b in s.db.bids && s.cycles[k].Reaches(s.db.bids[b].normalizedAt)
    ensures Covered(cfg.compute, s'.db, s.cycles[k].todo[0], b, t)
  {
  }

  /** After it the cycle has brought that company what it reaches, and so have all other cycles. */
  lemma VisitBrings(cfg: Config, s: State, k: CycleId, stamp: Time, t: Time, s': State, cy: Cycle)
    requires cfg.Valid() && Inv(cfg, s) && Next(cfg, s, Work(k, stamp), t, s')
    requires cy == s.cycles[k].(todo := s.cycles[k].todo[1..]) || exists j :: j in s.cycles && j != k && s.cycles[j] == cy
    ensures Brought(cfg.compute, s', cy)
  {
    var mine := s.cycles[k];
    forall c, b | c in Trusted(s') && c !in cy.todo && b in s.db.bids && b !in cy.touched && cy.Reaches(s.db.bids[b].normalizedAt)
      ensures Covered(cfg.compute, s'.db, c, b, t)
    {
      if c == mine.todo[0] && mine.Reaches(s.db.bids[b].normalizedAt) {
        VisitCovers(cfg, s, k, stamp, t, s', b);
      } else {
        assert c in Trusted(s);
        assert mine.todo == [mine.todo[0]] + mine.todo[1..];
        VisitKeepsCovered(cfg, s, k, stamp, t, s', c, b);
      }
    }
  }

  lemma VisitKeepsPromise(cfg: Config, s: State, k: CycleId, stamp: Time, t: Time, s': State, c: CompanyId, b: BidKey)
    requires cfg.Valid() && Inv(cfg, s) && Next(cfg, s, Work(k, stamp), t, s')
    requires forall w :: w in ComputedStamps(s'.db) ==> w == stamp || w in ComputedStamps(s.db)
    requires c in Trusted(s') && b in s.db.bids && Due(s', s.db.bids[b].normalizedAt)
    ensures Covered(cfg.compute, s'.db, c, b, t) || Coming(s'.cycles, c, s.db.bids[b].normalizedAt)
  {
    var n, mine := s.db.bids[b].normalizedAt, s.cycles[k];
    if c == mine.todo[0] && mine.Reaches(n) {
      VisitCovers(cfg, s, k, stamp, t, s', b);
    } else {
      assert c in Trusted(s);
      if Due(s, n) {
        if Covered(cfg.compute, s.db, c, b, s.now) {
          VisitKeepsCovered(cfg, s, k, stamp, t, s', c, b);
        } else {
          var j :| j in s.cycles && s.cycles[j].Brings(c, n);
          StillComing(cfg, s, k, stamp, t, s', j, c, n);
        }
      } else {
        NewlyDueIsBrought(cfg, s, k, stamp, c, b);
        if Covered(cfg.compute, s.db, c, b, s.now) {
          VisitKeepsCovered(cfg, s, k, stamp, t, s', c, b);
        } else {
          StillComing(cfg, s, k, stamp, t, s', k, c, n);
        }
      }
    }
  }

  /** What a cycle will bring it still will, unless this is the visit that brings it. */
  lemma StillComing(cfg: Config, s: State, k: CycleId, stamp: Time, t: Time, s': State, j: CycleId, c: CompanyId, n: Time)
    requires cfg.Valid() && Inv(cfg, s) && Next(cfg, s, Work(k, stamp), t, s')
    requires j in s.cycles && s.cycles[j].Brings(c, n) && !(c == s.cycles[k].todo[0] && s.cycles[k].Reaches(n))
    ensures Coming(s'.cycles, c, n)
  {
    if j == k {
      assert s.cycles[k].todo == [s.cycles[k].todo[0]] + s.cycles[k].todo[1..];
      assert k in s'.cycles && s'.cycles[k].Brings(c, n);
    } else {
      assert j in s'.cycles && s'.cycles[j].Brings(c, n);
    }
  }

  lemma WorkKeepsInv(cfg: Config, s: State, k: CycleId, stamp: Time, t: Time, s': State)
    requires cfg.Valid() && Inv(cfg, s) && Next(cfg, s, Work(k, stamp), t, s')
    ensures Inv(cfg, s')
  {
    StampsAfterRewrite(s.db, s'.db, s.cycles[k].todo[0], stamp);
    forall c, b | c in Trusted(s') && b in s.db.bids && Due(s', s.db.bids[b].normalizedAt)
      ensures Covered(cfg.compute, s'.db, c, b, t) || Coming(s'.cycles, c, s.db.bids[b].normalizedAt)
    {
      VisitKeepsPromise(cfg, s, k, stamp, t, s', c, b);
    }
    forall j | j in s'.cycles ensures Timely(cfg, s', s'.cycles[j]) && Brought(cfg.compute, s', s'.cycles[j]) {
      assert Timely(cfg, s, s.cycles[j]);
      VisitBrings(cfg, s, k, stamp, t, s', s'.cycles[j]);
    }
  }

  lemma StepKeepsInv(cfg: Config, s: State, e: Event, t: Time, s': State)
    requires cfg.Valid() && Inv(cfg, s) && Next(cfg, s, e, t, s')
    ensures Inv(cfg, s')
  {
    match e
    case Normalise(b, bid) => NormaliseKeepsInv(cfg, s, b, bid, t, s');
    case StartCycle(k, full, todo) => StartKeepsInv(cfg, s, k, full, todo, t, s');
    case Work(k, stamp) => WorkKeepsInv(cfg, s, k, stamp, t, s');
    case Abort(k) => AbortKeepsInv(cfg, s, k, t, s');
    case Withdraw(c) => WithdrawKeepsInv(cfg, s, c, t, s');
    case Create(c, profile) => CreateKeepsInv(cfg, s, c, profile, t, s');
    case SaveProfile(c, profile) => SaveKeepsInv(cfg, s, c, profile, t, s');
    case Rebuild(c, stamp) => RebuildKeepsInv(cfg, s, c, stamp, t, s');
  }

  // ---------------------------------------------------------------- theorems

  /** A run: successive committed events, each at a later instant than the one before. */
  ghost predicate IsRun(cfg: Config, trace: seq<State>, events: seq<(Event, Time)>) {
    && |trace| == |events| + 1
    && forall i :: 0 <= i < |events| ==> trace[i].db.Valid() && Next(cfg, trace[i], events[i].0, events[i].1, trace[i + 1])
  }

  /**
   Whenever no cycle is running, however cycles have overlapped before, every bid behind
   `max(computed_at)` by the overlap is right for every active company that is not stale.
   The run starts from an empty table or any other fresh one.
   */
  lemma {:induction false} RunsStayFresh(cfg: Config, trace: seq<State>, events: seq<(Event, Time)>)
    requires cfg.Valid() && IsRun(cfg, trace, events)
    requires Clocked(trace[0]) && trace[0].cycles == map[]
    requires ComputedStamps(trace[0].db) == {} || Fresh(cfg.compute, trace[0].db, trace[0].now, Trusted(trace[0]))
    ensures Inv(cfg, trace[|events|])
    ensures trace[|events|].cycles == map[] ==>
      Fresh(cfg.compute, trace[|events|].db, trace[|events|].now, Trusted(trace[|events|]))
  {
    if events == [] {
      PromiseIsFreshness(cfg, trace[0]);
    } else {
      var n := |events| - 1;
      assert IsRun(cfg, trace[..n + 1], events[..n]);
      RunsStayFresh(cfg, trace[..n + 1], events[..n]);
      StepKeepsInv(cfg, trace[n], events[n].0, events[n].1, trace[n + 1]);
      if trace[|events|].cycles == map[] {
        PromiseIsFreshness(cfg, trace[|events|]);
      }
    }
  }

  /**
   When a cycle that was not skipped commits its last company and no other is running, the
   deadline-filtered list of every active company that is not stale, over the bids committed
   before the cycle began, is the one a full rebuild would give, at that moment and at any
   later one with the same tables.  Those bids include all that were normalised a commit lag
   before the start.
   */
  lemma FinishedCycleShowsTheRebuiltList(cfg: Config, s: State, k: CycleId, stamp: Time, t: Time, s': State, c: CompanyId, later: Time)
    requires cfg.Valid() && Inv(cfg, s) && Next(cfg, s, Work(k, stamp), t, s') && s'.cycles == map[]
    requires c in Trusted(s') && t <= later
    ensures s'.db.Valid()
    ensures var before := s'.db.bids.Keys - s.cycles[k].touched;
      Restrict(Shown(s'.db, c, later), before) == Restrict(Shown(Recompute(cfg.compute, s'.db, c, later), c, later), before)
    ensures forall b :: b in s'.db.bids && s'.db.bids[b].normalizedAt <= s.cycles[k].start - cfg.lag ==> b !in s.cycles[k].touched
  {
    var cy := s.cycles[k];
    WorkKeepsInv(cfg, s, k, stamp, t, s');
    assert |cy.todo| > 1 ==> k in s'.cycles;
    VisitBrings(cfg, s, k, stamp, t, s', cy.(todo := cy.todo[1..]));
    var before := s'.db.bids.Keys - cy.touched;
    forall b | b in before ensures Covered(cfg.compute, s'.db, c, b, later) {
      if !cy.Reaches(s.db.bids[b].normalizedAt) {
        assert Due(s, s.db.bids[b].normalizedAt) && c in Trusted(s);
        assert forall j :: j in s.cycles && j != k ==> j in s'.cycles;
        assert !Coming(s.cycles, c, s.db.bids[b].normalizedAt);
        VisitKeepsCovered(cfg, s, k, stamp, t, s', c, b);
      }
      assert Covered(cfg.compute, s'.db, c, b, t);
    }
    ShownIsRebuiltIffCovered(cfg.compute, s'.db, c, before, later);
  }

  /** A full pass leaves each company exactly its computed rows, whatever the table held: stale and closed rows are gone. */
  lemma FullPassRestoresAnyTable(
    compute: Compute, db: Tables, mode: Mode, todo: seq<CompanyId>, stamps: seq<Time>, i: nat)
    requires db.Valid() && Known(db, todo) && |todo| == |stamps| && (mode.Full? || mode.Initial?)
    requires i < |todo| && forall j :: i < j < |todo| ==> todo[j] != todo[i]
    ensures todo[i] in db.profiles
    ensures RowsAfter(compute, db, mode, todo, stamps, |todo|)[todo[i]]
         == Computed(compute, db.bids, db.profiles[todo[i]], stamps[i])
  {
    LaterVisitsLeaveRows(compute, db, mode, todo, stamps, todo[i], i + 1, |todo|);
  }

  lemma {:induction false} OthersVisitsDoNothing(
    compute: Compute, bids: map<BidKey, Bid>, profile: Profile, mode: Mode, before: map<BidKey, Row>,
    todo: seq<CompanyId>, stamps: seq<Time>, c: CompanyId, m: nat, n: nat)
    requires m <= n <= |todo| == |stamps| && forall j :: m <= j < n ==> todo[j] != c
    ensures CompanyRows(compute, bids, profile, mode, before, todo, stamps, c, n)
         == CompanyRows(compute, bids, profile, mode, before, todo, stamps, c, m)
    decreases n
  {
    if m < n {
      OthersVisitsDoNothing(compute, bids, profile, mode, before, todo, stamps, c, m, n - 1);
    }
  }

  /** Visits of other companies leave the rows of a company alone. */
  lemma LaterVisitsLeaveRows(
    compute: Compute, db: Tables, mode: Mode, todo: seq<CompanyId>, stamps: seq<Time>, c: CompanyId, m: nat, n: nat)
    requires db.Valid() && Known(db, todo) && |todo| == |stamps| && c in db.profiles
    requires m <= n <= |todo| && forall j :: m <= j < n ==> todo[j] != c
    ensures RowsAfter(compute, db, mode, todo, stamps, n)[c] == RowsAfter(compute, db, mode, todo, stamps, m)[c]
  {
    OthersVisitsDoNothing(compute, db.bids, db.profiles[c], mode, db.rows[c], todo, stamps, c, m, n);
  }

  ghost predicate SameStamps(db: Tables, other: Tables) {
    && other == db.(rows := other.rows) && other.rows.Keys == db.rows.Keys
    && (forall c :: c in db.rows ==> other.rows[c].Keys == db.rows[c].Keys)
    && (forall c, b :: c in db.rows && b in db.rows[c] ==> other.rows[c][b].computedAt == db.rows[c][b].computedAt)
  }

  /** The save keeps the freshness promise for every table that has these stamps and keeps it now. */
  ghost predicate SaveKeepsPromise(
    compute: Compute, db: Tables, now: Time, c: CompanyId, profile: Profile, stamp: Time, t: Time)
    requires c in db.profiles
  {
    forall other: Tables ::
      (SameStamps(db, other) && other.Valid() && Fresh(compute, other, now, other.active)) ==>
      (AfterSave(compute, other, c, profile, stamp).Valid() && Fresh(compute, AfterSave(compute, other, c, profile, stamp), t, other.active))
  }

  lemma SameStampsSettleAlike(db: Tables, other: Tables)
    requires SameStamps(db, other)
    ensures ComputedStamps(other) == ComputedStamps(db)
  {
    assert forall c, b :: c in db.rows && b in db.rows[c] ==> other.rows[c][b].computedAt == db.rows[c][b].computedAt;
    forall w ensures w in ComputedStamps(db) <==> w in ComputedStamps(other) {
      if w in ComputedStamps(db) {
        var c, b :| c in db.rows && b in db.rows[c] && db.rows[c][b].computedAt == w;
        assert other.rows[c][b].computedAt == w;
      }
      if w in ComputedStamps(other) {
        var c, b :| c in other.rows && b in other.rows[c] && other.rows[c][b].computedAt == w;
        assert db.rows[c][b].computedAt == w;
      }
    }
  }

  /**
   A profile save between cycles keeps the promise for all tables with these stamps exactly
   when it leaves no gap: when no other company is active, or no open bid lies between the
   old watermark and the new one, each taken back by the overlap.
   */
  lemma ProfileSaveIsSafeIffNoGap(
    compute: Compute, db: Tables, now: Time, c: CompanyId, profile: Profile, stamp: Time, t: Time)
    requires Clocked(State(db, now, map[], {})) && Fresh(compute, db, now, db.active)
    requires c in db.active && stamp <= t && now < t
    ensures SaveKeepsPromise(compute, db, now, c, profile, stamp, t) <==> RebuildLeavesNoGap(db, c, stamp, t)
  {
    if RebuildLeavesNoGap(db, c, stamp, t) {
      forall other: Tables | SameStamps(db, other) && other.Valid() && Fresh(compute, other, now, other.active)
        ensures AfterSave(compute, other, c, profile, stamp).Valid()
        ensures Fresh(compute, AfterSave(compute, other, c, profile, stamp), t, other.active)
      {
        SameStampsSettleAlike(db, other);
        var cfg := Config(compute, 0, 0);
        var saved := State(Saved(other, c, profile), now, map[], {c});
        assert ComputedStamps(saved.db) == ComputedStamps(other);
        assert forall e, d :: e in Trusted(saved) && d in other.bids && Covered(compute, other, e, d, now)
                 ==> Covered(compute, saved.db, e, d, now);
        RebuildKeepsInv(cfg, saved, c, stamp, t, State(AfterSave(compute, other, c, profile, stamp), t, map[], {c} - {c}));
      }
    } else {
      var e := Element(db.active - {c});
      var b :| b in db.bids && Open(db.bids[b], t) && db.bids[b].normalizedAt + OVERLAP <= stamp && !Settled(db, db.bids[b].normalizedAt);
      GapStrands(compute, db, now, c, profile, stamp, t, e, b);
    }
  }

  /** The tables with company `e`'s row of bid `b`, if it has one, made wrong. */
  function WrongFor(compute: Compute, db: Tables, e: CompanyId, b: BidKey): Tables
    requires e in db.profiles && e in db.rows && b in db.bids
  {
    if b in db.rows[e]
    then db.(rows := db.rows[e := db.rows[e][b := db.rows[e][b].(verdict := compute(db.profiles[e], db.bids[b].requirement) + 1)]])
    else db
  }

  /** For an open bid that is not settled they keep the promise as well. */
  lemma WrongForIsFresh(compute: Compute, db: Tables, now: Time, e: CompanyId, b: BidKey)
    requires db.Valid() && Fresh(compute, db, now, db.active)
    requires e in db.active && b in db.bids && !Settled(db, db.bids[b].normalizedAt)
    ensures var other := WrongFor(compute, db, e, b);
      && SameStamps(db, other) && other.Valid() && Fresh(compute, other, now, other.active)
      && (b in other.rows[e] ==> other.rows[e][b].verdict != compute(db.profiles[e], db.bids[b].requirement))
  {
    var other := WrongFor(compute, db, e, b);
    assert SameStamps(db, other);
    SameStampsSettleAlike(db, other);
    forall d, x | d in other.active && x in other.bids && Settled(other, other.bids[x].normalizedAt)
      ensures Covered(compute, other, d, x, now)
    {
      assert Covered(compute, db, d, x, now);
    }
  }

  /** With a gap, a table that keeps the promise can lose it: company `e` misses bid `b` for good. */
  lemma GapStrands(
    compute: Compute, db: Tables, now: Time, c: CompanyId, profile: Profile, stamp: Time, t: Time, e: CompanyId, b: BidKey)
    requires Clocked(State(db, now, map[], {})) && Fresh(compute, db, now, db.active)
    requires c in db.active && e in db.active && e != c && stamp <= t && now < t
    requires b in db.bids && Open(db.bids[b], t) && db.bids[b].normalizedAt + OVERLAP <= stamp
    requires !Settled(db, db.bids[b].normalizedAt)
    ensures !SaveKeepsPromise(compute, db, now, c, profile, stamp, t)
  {
    var other := WrongFor(compute, db, e, b);
    WrongForIsFresh(compute, db, now, e, b);
    var saved := AfterSave(compute, other, c, profile, stamp);
    assert b in saved.rows[c] && saved.rows[c][b].computedAt == stamp;
    assert stamp in ComputedStamps(saved);
    assert Settled(saved, saved.bids[b].normalizedAt) && !Covered(compute, saved, e, b, t);
  }

  predicate SameVerdict(compute: Compute, bid: Bid, one: Profile, other: Profile) {
    compute(one, bid.requirement) == compute(other, bid.requirement)
  }

  ghost predicate VerdictsAgree(compute: Compute, db: Tables, now: Time, one: Profile, other: Profile) {
    forall b :: b in db.bids && Open(db.bids[b], now) && Settled(db, db.bids[b].normalizedAt)
      ==> SameVerdict(compute, db.bids[b], one, other)
  }

  /**
   A save whose rebuild fails keeps the promise exactly when the new profile has the old
   verdicts on all settled open bids.
   */
  lemma SaveWithoutRebuildIsSafeIffVerdictsAgree(compute: Compute, db: Tables, now: Time, c: CompanyId, profile: Profile)
    requires db.Valid() && Fresh(compute, db, now, db.active) && c in db.active
    ensures Saved(db, c, profile).Valid()
    ensures Fresh(compute, Saved(db, c, profile), now, db.active) <==> VerdictsAgree(compute, db, now, db.profiles[c], profile)
  {
    var saved := Saved(db, c, profile);
    assert ComputedStamps(saved) == ComputedStamps(db);
    forall e, b | e in db.active && b in db.bids && Settled(db, db.bids[b].normalizedAt)
      ensures e != c ==> Covered(compute, saved, e, b, now)
      ensures e == c && Open(db.bids[b], now) ==>
        (Covered(compute, saved, e, b, now) <==> SameVerdict(compute, db.bids[b], db.profiles[c], profile))
    {
      assert Covered(compute, db, e, b, now);
    }
    if Fresh(compute, saved, now, db.active) {
      forall b | b in db.bids && Open(db.bids[b], now) && Settled(db, db.bids[b].normalizedAt)
        ensures SameVerdict(compute, db.bids[b], db.profiles[c], profile)
      {
        assert Covered(compute, saved, c, b, now);
      }
    }
  }

  // ---------------------------------------------------------------- a cycle that breaks off

  ghost predicate Once(todo: seq<CompanyId>) {
    forall i, j :: 0 <= i < j < |todo| ==> todo[i] != todo[j]
  }

  lemma VisitedHaveTheirRows(
    compute: Compute, db: Tables, mode: Mode, todo: seq<CompanyId>, stamps: seq<Time>, n: nat, i: nat)
    requires db.Valid() && Known(db, todo) && i < n <= |todo| == |stamps| && Once(todo)
    ensures todo[i] in db.profiles
    ensures RowsAfter(compute, db, mode, todo, stamps, n)[todo[i]]
         == RowsFor(compute, db.bids, db.profiles[todo[i]], mode, db.rows[todo[i]], stamps[i])
  {
    var c := todo[i];
    OthersVisitsDoNothing(compute, db.bids, db.profiles[c], mode, db.rows[c], todo, stamps, c, i + 1, n);
    OthersVisitsDoNothing(compute, db.bids, db.profiles[c], mode, db.rows[c], todo, stamps, c, 0, i);
  }

  /** What a cycle needs to start: the tables are fresh, and it goes once over the active companies. */
  ghost predicate Ready(compute: Compute, db: Tables, now: Time, mode: Mode, full: bool, todo: seq<CompanyId>, stamps: seq<Time>, t: Time) {
    && db.Valid() && Fresh(compute, db, now, db.active) && now <= t
    && mode == Decide(db, full) && !mode.Skipped()
    && Known(db, todo) && |todo| == |stamps| && Once(todo) && (forall c :: c in todo <==> c in db.active)
    && (forall i :: 0 <= i < |stamps| ==> stamps[i] <= t)
  }

  /** Nobody is left unvisited, or every open bid that the `k` visits settle was settled before. */
  ghost predicate AbortLeavesNoGap(db: Tables, todo: seq<CompanyId>, stamps: seq<Time>, k: nat, t: Time)
    requires k <= |todo| == |stamps|
  {
    || k == |todo|
    || forall b, i :: b in db.bids && Open(db.bids[b], t) && 0 <= i < k && db.bids[b].normalizedAt + OVERLAP <= stamps[i]
         ==> Settled(db, db.bids[b].normalizedAt)
  }

  lemma VisitedAreCovered(
    compute: Compute, db: Tables, now: Time, mode: Mode, full: bool, todo: seq<CompanyId>, stamps: seq<Time>, k: nat, t: Time, i: nat, b: BidKey)
    requires Ready(compute, db, now, mode, full, todo, stamps, t) && i < k <= |todo| && b in db.bids
    ensures todo[i] in db.profiles
    ensures Covered(compute, TablesAfter(compute, db, mode, todo, stamps, k), todo[i], b, t)
  {
    VisitedHaveTheirRows(compute, db, mode, todo, stamps, k, i);
    assert todo[i] in todo;
    if mode.Incremental? && db.bids[b].normalizedAt <= mode.since {
      assert mode.since + OVERLAP in ComputedStamps(db);
      assert Covered(compute, db, todo[i], b, now);
    }
  }

  lemma StampsAfterVisits(
    compute: Compute, db: Tables, mode: Mode, todo: seq<CompanyId>, stamps: seq<Time>, k: nat, w: Time)
    requires db.Valid() && Known(db, todo) && k <= |todo| == |stamps| && Once(todo)
    requires w in ComputedStamps(TablesAfter(compute, db, mode, todo, stamps, k))
    ensures w in ComputedStamps(db) || exists i :: 0 <= i < k && stamps[i] == w
  {
    var rows: map<CompanyId, map<BidKey, Row>> := RowsAfter(compute, db, mode, todo, stamps, k);
    var c, b :| c in rows && b in rows[c] && rows[c][b].computedAt == w;
    if i :| 0 <= i < k && todo[i] == c {
      VisitedHaveTheirRows(compute, db, mode, todo, stamps, k, i);
    } else {
      LaterVisitsLeaveRows(compute, db, mode, todo, stamps, c, 0, k);
    }
  }

  lemma AbortWithoutGapIsFresh(
    compute: Compute, db: Tables, now: Time, mode: Mode, full: bool, todo: seq<CompanyId>, stamps: seq<Time>, k: nat, t: Time)
    requires Ready(compute, db, now, mode, full, todo, stamps, t) && k <= |todo| && AbortLeavesNoGap(db, todo, stamps, k, t)
    ensures Fresh(compute, TablesAfter(compute, db, mode, todo, stamps, k), t, db.active)
  {
    var after := TablesAfter(compute, db, mode, todo, stamps, k);
    forall c, b | c in db.active && b in db.bids && Settled(after, db.bids[b].normalizedAt) ensures Covered(compute, after, c, b, t) {
      var j :| 0 <= j < |todo| && todo[j] == c;
      if j < k {
        VisitedAreCovered(compute, db, now, mode, full, todo, stamps, k, t, j, b);
      } else if Open(db.bids[b], t) {
        var w :| w in ComputedStamps(after) && db.bids[b].normalizedAt + OVERLAP <= w;
        StampsAfterVisits(compute, db, mode, todo, stamps, k, w);
        assert Covered(compute, db, c, b, now);
        LaterVisitsLeaveRows(compute, db, mode, todo, stamps, c, 0, k);
      }
    }
  }

  /** The first `k` visits keep the promise for every table that has these stamps and keeps it now. */
  ghost predicate AbortKeepsPromise(
    compute: Compute, db: Tables, now: Time, mode: Mode, todo: seq<CompanyId>, stamps: seq<Time>, k: nat, t: Time)
    requires db.Valid() && Known(db, todo) && k <= |todo| == |stamps|
  {
    forall other: Tables ::
      (SameStamps(db, other) && other.Valid() && Fresh(compute, other, now, other.active)) ==>
      Fresh(compute, TablesAfter(compute, other, mode, todo, stamps, k), t, other.active)
  }

  /** Visit `i` settles an open bid that lies behind its stamp by the overlap. */
  lemma VisitSettles(
    compute: Compute, db: Tables, mode: Mode, todo: seq<CompanyId>, stamps: seq<Time>, k: nat, b: BidKey, i: nat)
    requires db.Valid() && Known(db, todo) && i < k <= |todo| == |stamps| && Once(todo)
    requires b in db.bids && Open(db.bids[b], stamps[i]) && db.bids[b].normalizedAt + OVERLAP <= stamps[i]
    requires mode.Incremental? ==> db.bids[b].normalizedAt > mode.since
    ensures Settled(TablesAfter(compute, db, mode, todo, stamps, k), db.bids[b].normalizedAt)
  {
    VisitedHaveTheirRows(compute, db, mode, todo, stamps, k, i);
    var after := TablesAfter(compute, db, mode, todo, stamps, k);
    assert b in after.rows[todo[i]] && after.rows[todo[i]][b].computedAt == stamps[i];
    assert stamps[i] in ComputedStamps(after);
  }

  lemma AbortWithGapStrands(
    compute: Compute, db: Tables, now: Time, mode: Mode, full: bool, todo: seq<CompanyId>, stamps: seq<Time>, k: nat, t: Time, b: BidKey, i: nat)
    requires Ready(compute, db, now, mode, full, todo, stamps, t) && i < k < |todo|
    requires b in db.bids && Open(db.bids[b], t) && db.bids[b].normalizedAt + OVERLAP <= stamps[i]
    requires !Settled(db, db.bids[b].normalizedAt)
    ensures !AbortKeepsPromise(compute, db, now, mode, todo, stamps, k, t)
  {
    var e := todo[k];
    assert e in todo;
    var other := WrongFor(compute, db, e, b);
    WrongForIsFresh(compute, db, now, e, b);
    var after := TablesAfter(compute, other, mode, todo, stamps, k);
    assert mode.Incremental? ==> mode.since + OVERLAP in ComputedStamps(db);
    VisitSettles(compute, other, mode, todo, stamps, k, b, i);
    LaterVisitsLeaveRows(compute, other, mode, todo, stamps, e, 0, k);
    assert !Covered(compute, after, e, b, t);
  }

  /**
   A cycle that breaks off after `k` companies moves the watermark like a profile save: it
   keeps the promise for all tables with these stamps exactly when it leaves no gap.
   */
  lemma AbortedCycleIsSafeIffNoGap(
    compute: Compute, db: Tables, now: Time, mode: Mode, full: bool, todo: seq<CompanyId>, stamps: seq<Time>, k: nat, t: Time)
    requires Ready(compute, db, now, mode, full, todo, stamps, t) && k <= |todo|
    ensures AbortKeepsPromise(compute, db, now, mode, todo, stamps, k, t) <==> AbortLeavesNoGap(db, todo, stamps, k, t)
  {
    if AbortLeavesNoGap(db, todo, stamps, k, t) {
      forall other: Tables | SameStamps(db, other) && other.Valid() && Fresh(compute, other, now, other.active)
        ensures Fresh(compute, TablesAfter(compute, other, mode, todo, stamps, k), t, other.active)
      {
        SameStampsSettleAlike(db, other);
        AbortWithoutGapIsFresh(compute, other, now, mode, full, todo, stamps, k, t);
      }
    } else {
      var b, i :| b in db.bids && Open(db.bids[b], t) && 0 <= i < k && db.bids[b].normalizedAt + OVERLAP <= stamps[i]
                  && !Settled(db, db.bids[b].normalizedAt);
      AbortWithGapStrands(compute, db, now, mode, full, todo, stamps, k, t, b, i);
    }
  }

  /**
   The gap on real numbers: company 2 lacks bid 7, normalised two minutes before company 1
   saves its profile.  The next cycle is skipped, and company 2's list stays without the bid.
   */
  lemma ProfileSaveCanStrandABid(compute: Compute)
    ensures
      var second := 1_000_000;
      var db := Tables(map[7 := Bid(0, None, 100 * second)], map[1 := 0, 2 := 0], {1, 2}, map[1 := map[], 2 := map[]]);
      var saved := AfterSave(compute, db, 1, 5, 220 * second);
      && saved.Valid() && Decide(saved, false) == NothingNew
      && Shown(saved, 2, 220 * second) == map[]
      && 7 in Shown(Recompute(compute, saved, 2, 220 * second), 2, 220 * second)
  {
    var second := 1_000_000;
    var db := Tables(map[7 := Bid(0, None, 100 * second)], map[1 := 0, 2 := 0], {1, 2}, map[1 := map[], 2 := map[]]);
    var saved := AfterSave(compute, db, 1, 5, 220 * second);
    assert saved.rows[1] == map[7 := Row(compute(5, 0), 220 * second)];
    assert saved.rows[1][7].computedAt in ComputedStamps(saved);
    assert saved.bids[7].normalizedAt in NormalizedStamps(saved);
    assert forall n :: n in NormalizedStamps(saved) ==> n == 100 * second;
    assert forall n :: n in ComputedStamps(saved) ==> n == 220 * second;
    assert saved.active != {} by { assert 1 in saved.active; }
  }

  // ---------------------------------------------------------------- one whole refresh

  /** Some row was computed no earlier than any bid was normalised. */
  ghost predicate AllSeen(db: Tables) {
    exists w :: w in ComputedStamps(db) && forall b :: b in db.bids ==> db.bids[b].normalizedAt <= w
  }

  ghost predicate NothingToDo(db: Tables, full: bool) {
    db.active == {} || (!full && (db.bids == map[] || AllSeen(db)))
  }

  ghost predicate NoRows(db: Tables) {
    forall c :: c in db.rows ==> db.rows[c] == map[]
  }

  ghost predicate Newest(db: Tables, w: Time) {
    w in ComputedStamps(db) && forall v :: v in ComputedStamps(db) ==> v <= w
  }

  /** The modes in terms of the tables: a refresh has nothing to do, rebuilds, or updates from the newest stamp less the overlap. */
  lemma DecideMeans(db: Tables, full: bool)
    ensures var mode := Decide(db, full);
      && (mode.Skipped() <==> NothingToDo(db, full))
      && (!mode.Skipped() ==> (mode.Full? <==> full) && (mode.Initial? <==> !full && NoRows(db)))
      && (mode.Incremental? ==> Newest(db, mode.since + OVERLAP))
  {
    assert forall b :: b in db.bids ==> db.bids[b].normalizedAt in NormalizedStamps(db);
    assert ComputedStamps(db) == {} <==> NoRows(db) by {
      if !NoRows(db) {
        var c :| c in db.rows && db.rows[c] != map[];
        var b := Element(db.rows[c].Keys);
        assert db.rows[c][b].computedAt in ComputedStamps(db);
      }
    }
  }

  /** Only the rows of these companies differ. */
  ghost predicate OnlyRowsOf(before: Tables, companies: seq<CompanyId>, after: Tables) {
    && after == before.(rows := after.rows) && after.rows.Keys == before.rows.Keys
    && forall c :: c in before.rows && c !in companies ==> after.rows[c] == before.rows[c]
  }

  /** Every company has exactly its computed rows. */
  ghost predicate Rebuilt(compute: Compute, before: Tables, companies: seq<CompanyId>, stamps: seq<Time>, after: Tables)
    requires before.Valid() && Known(before, companies) && |companies| == |stamps|
  {
    && OnlyRowsOf(before, companies, after)
    && forall i {:trigger companies[i]} :: 0 <= i < |companies| ==>
         after.rows[companies[i]] == Computed(compute, before.bids, before.profiles[companies[i]], stamps[i])
  }

  /** Every company keeps its rows, except that the bids normalised after `since` are computed anew. */
  ghost predicate Updated(compute: Compute, before: Tables, since: Time, companies: seq<CompanyId>, stamps: seq<Time>, after: Tables)
    requires before.Valid() && Known(before, companies) && |companies| == |stamps|
  {
    && OnlyRowsOf(before, companies, after)
    && forall i {:trigger companies[i]} :: 0 <= i < |companies| ==>
         after.rows[companies[i]]
         == before.rows[companies[i]] + NewerThan(compute, before.bids, before.profiles[companies[i]], since, stamps[i])
  }

  /** What a refresh that is not skipped leaves. */
  ghost predicate Refreshed(compute: Compute, before: Tables, full: bool, companies: seq<CompanyId>, stamps: seq<Time>, after: Tables)
    requires before.Valid() && Known(before, companies) && |companies| == |stamps|
  {
    if full || NoRows(before) then Rebuilt(compute, before, companies, stamps, after)
    else exists w :: Newest(before, w) && Updated(compute, before, w - OVERLAP, companies, stamps, after)
  }

  lemma PassRefreshes(compute: Compute, db: Tables, full: bool, todo: seq<CompanyId>, stamps: seq<Time>)
    requires db.Valid() && Known(db, todo) && |todo| == |stamps| && Once(todo) && !Decide(db, full).Skipped()
    ensures Refreshed(compute, db, full, todo, stamps, TablesAfter(compute, db, Decide(db, full), todo, stamps, |todo|))
  {
    var mode := Decide(db, full);
    DecideMeans(db, full);
    var after := TablesAfter(compute, db, mode, todo, stamps, |todo|);
    forall c | c in db.rows && c !in todo ensures after.rows[c] == db.rows[c] {
      LaterVisitsLeaveRows(compute, db, mode, todo, stamps, c, 0, |todo|);
    }
    forall i | 0 <= i < |todo|
      ensures after.rows[todo[i]] == RowsFor(compute, db.bids, db.profiles[todo[i]], mode, db.rows[todo[i]], stamps[i])
    {
      VisitedHaveTheirRows(compute, db, mode, todo, stamps, |todo|, i);
    }
    if mode.Incremental? {
      assert Updated(compute, db, mode.since + OVERLAP - OVERLAP, todo, stamps, after);
    }
  }

  lemma UpdatedCovers(
    compute: Compute, before: Tables, now: Time, w: Time, companies: seq<CompanyId>, stamps: seq<Time>, after: Tables, t: Time, i: nat, b: BidKey)
    requires before.Valid() && Known(before, companies) && |companies| == |stamps| && i < |companies| && b in before.bids
    requires Fresh(compute, before, now, before.active) && now <= t && companies[i] in before.active && stamps[i] <= t
    requires Newest(before, w) && Updated(compute, before, w - OVERLAP, companies, stamps, after)
    ensures Covered(compute, after, companies[i], b, t)
  {
    var c := companies[i];
    assert after.rows[c] == before.rows[c] + NewerThan(compute, before.bids, before.profiles[c], w - OVERLAP, stamps[i]);
    if before.bids[b].normalizedAt <= w - OVERLAP {
      assert Settled(before, before.bids[b].normalizedAt);
      assert Covered(compute, before, c, b, now);
    }
  }

  /** From fresh tables a refresh that is not skipped leaves every active company right on every bid there is. */
  lemma RefreshFromFreshCoversAll(
    compute: Compute, before: Tables, now: Time, full: bool, companies: seq<CompanyId>, stamps: seq<Time>, after: Tables, t: Time)
    requires before.Valid() && Known(before, companies) && |companies| == |stamps|
    requires Fresh(compute, before, now, before.active) && now <= t
    requires (forall c :: c in companies <==> c in before.active) && forall i :: 0 <= i < |stamps| ==> stamps[i] <= t
    requires Refreshed(compute, before, full, companies, stamps, after)
    ensures after.Valid() && forall c, b :: c in after.active && b in after.bids ==> Covered(compute, after, c, b, t)
  {
    forall c, b | c in after.active && b in after.bids ensures Covered(compute, after, c, b, t) {
      var i :| 0 <= i < |companies| && companies[i] == c;
      if full || NoRows(before) {
        assert after.rows[companies[i]] == Computed(compute, before.bids, before.profiles[c], stamps[i]);
      } else {
        var w :| Newest(before, w) && Updated(compute, before, w - OVERLAP, companies, stamps, after);
        UpdatedCovers(compute, before, now, w, companies, stamps, after, t, i, b);
      }
    }
  }

  // ---------------------------------------------------------------- the service

  lemma ReplacedRows(rows: map<CompanyId, map<BidKey, Row>>, c: CompanyId, computed: map<BidKey, Row>)
    ensures rows[c := map[]][c := rows[c := map[]][c] + computed] == rows[c := computed]
  {
    var none: map<BidKey, Row> := map[];
    assert none + computed == computed;
  }

  datatype Summary = Summary(mode: Mode, companies: nat, rows: nat)

  /** The repository over one database, and the service that drives it. */
  class MatchRefreshService {
    const compute: Compute
    var tables: Tables

    constructor (compute: Compute, tables: Tables)
      ensures this.compute == compute && this.tables == tables
    {
      this.compute, this.tables := compute, tables;
    }

    /** DELETE and INSERT of one company, committed together. */
    method RecomputeForCompany(c: CompanyId, stamp: Time) returns (rows: nat)
      requires tables.Valid() && c in tables.profiles
      modifies this`tables
      ensures tables == Recompute(compute, old(tables), c, stamp) && tables.Valid()
      ensures rows == |tables.rows[c]| == |Computed(compute, old(tables).bids, old(tables).profiles[c], stamp)|
    {
      var computed := Computed(compute, tables.bids, tables.profiles[c], stamp);
      ReplacedRows(tables.rows, c, computed);
      Delete(c);
      Insert(c, computed);
      rows := |computed|;
    }

    method Delete(c: CompanyId)
      requires c in tables.rows
      modifies this`tables
      ensures tables == old(tables).(rows := old(tables).rows[c := map[]])
    {
      tables := tables.(rows := tables.rows[c := map[]]);
    }

    /** Adds rows to those the company has. */
    method Insert(c: CompanyId, more: map<BidKey, Row>)
      requires c in tables.rows
      modifies this`tables
      ensures tables == old(tables).(rows := old(tables).rows[c := old(tables).rows[c] + more])
    {
      tables := tables.(rows := tables.rows[c := tables.rows[c] + more]);
    }

    /** INSERT ... ON CONFLICT DO UPDATE of the bids normalised after `since`. */
    method UpsertSince(c: CompanyId, since: Time, stamp: Time) returns (written: nat)
      requires tables.Valid() && c in tables.profiles
      modifies this`tables
      ensures tables == Upsert(compute, old(tables), c, since, stamp) && tables.Valid()
      ensures written == |NewerThan(compute, old(tables).bids, old(tables).profiles[c], since, stamp)|
    {
      var newer := NewerThan(compute, tables.bids, tables.profiles[c], since, stamp);
      Insert(c, newer);
      written := |newer|;
    }

    /** SELECT id ... WHERE deleted_at IS NULL ORDER BY id. */
    method ActiveCompanyIds() returns (ids: seq<CompanyId>)
      ensures forall c :: c in ids <==> c in tables.active
      ensures forall i, j :: 0 <= i < j < |ids| ==> ids[i] < ids[j]
      ensures |ids| == |tables.active|
    {
      ids := [];
      var left := tables.active;
      while left != {}
        invariant |ids| + |left| == |tables.active|
        invariant left <= tables.active && forall c :: c in ids <==> c in tables.active && c !in left
        invariant forall i, j :: 0 <= i < j < |ids| ==> ids[i] < ids[j]
        invariant forall i, c :: 0 <= i < |ids| && c in left ==> ids[i] < c
        decreases |left|
      {
        MinimumExists(left);
        var c :| c in left && forall d :: d in left ==> c <= d;
        ids := ids + [c];
        left := left - {c};
      }
    }

    method Visit(mode: Mode, c: CompanyId, stamp: Time) returns (rows: nat)
      requires tables.Valid() && c in tables.profiles && !mode.Skipped()
      modifies this`tables
      ensures tables == WorkOn(compute, old(tables), mode, c, stamp)
      ensures rows == Written(compute, old(tables), mode, c, stamp) == |Reached(old(tables).bids, mode, stamp)|
    {
      if mode.Incremental? {
        rows := UpsertSince(c, mode.since, stamp);
      } else {
        rows := RecomputeForCompany(c, stamp);
      }
    }

    /** The visit of company `i` in a cycle that began with the tables `start`. */
    method VisitNth(ghost start: Tables, mode: Mode, companies: seq<CompanyId>, stamps: seq<Time>, i: nat) returns (rows: nat)
      requires start.Valid() && Known(start, companies) && i < |companies| == |stamps| && !mode.Skipped()
      requires tables == TablesAfter(compute, start, mode, companies, stamps, i)
      modifies this`tables
      ensures tables == TablesAfter(compute, start, mode, companies, stamps, i + 1)
      ensures WrittenBy(compute, start, mode, companies, stamps, i) + rows
           == WrittenBy(compute, start, mode, companies, stamps, i + 1)
    {
      NextVisit(compute, start, mode, companies, stamps, i, tables);
      rows := Visit(mode, companies[i], stamps[i]);
    }

    /** The cycle's sum over the companies, in order. */
    method Pass(mode: Mode, companies: seq<CompanyId>, stamps: seq<Time>) returns (written: nat)
      requires tables.Valid() && Known(tables, companies) && |companies| == |stamps| && !mode.Skipped()
      modifies this`tables
      ensures tables == TablesAfter(compute, old(tables), mode, companies, stamps, |companies|)
      ensures written == WrittenBy(compute, old(tables), mode, companies, stamps, |companies|)
    {
      ghost var start := tables;
      NoVisits(compute, start, mode, companies, stamps);
      var i := 0;
      written := 0;
      while i < |companies|
        invariant 0 <= i <= |companies|
        invariant tables == TablesAfter(compute, start, mode, companies, stamps, i)
        invariant written == WrittenBy(compute, start, mode, companies, stamps, i)
      {
        var n := VisitNth(start, mode, companies, stamps, i);
        written, i := written + n, i + 1;
      }
    }

    /**
     One refresh.  `stamps[i]` is the transaction time of the i-th company's write.  A full
     refresh is never skipped while a company is active; any other is when there is no bid,
     or some row is as new as every normalisation.
     */
    method RunOnce(full: bool, stamps: seq<Time>) returns (summary: Summary, companies: seq<CompanyId>)
      requires tables.Valid() && |stamps| == |tables.active|
      modifies this`tables
      ensures (forall c :: c in companies <==> c in old(tables).active) && |companies| == |stamps|
      ensures forall i, j :: 0 <= i < j < |companies| ==> companies[i] < companies[j]
      ensures Known(old(tables), companies)
      ensures summary.mode.Skipped() <==> NothingToDo(old(tables), full)
      ensures summary.mode.Skipped() ==> tables == old(tables) && summary.companies == 0 && summary.rows == 0
      ensures !summary.mode.Skipped() ==>
                && Refreshed(compute, old(tables), full, companies, stamps, tables)
                && summary.companies == |companies|
                && summary.rows == WrittenBy(compute, old(tables), summary.mode, companies, stamps, |companies|)
      ensures summary.mode == Decide(old(tables), full)
    {
      companies := ActiveCompanyIds();
      forall i | 0 <= i < |companies| ensures companies[i] in tables.profiles {
        var c := companies[i];
        assert c in companies;
      }
      DecideMeans(tables, full);
      var mode := Decide(tables, full);
      if mode.Skipped() {
        summary := Summary(mode, 0, 0);
      } else {
        PassRefreshes(compute, tables, full, companies, stamps);
        var written := Pass(mode, companies, stamps);
        summary := Summary(mode, |companies|, written);
      }
    }
  }

  lemma {:induction false} MinimumExists(s: set<int>)
    requires s != {}
    ensures exists m :: m in s && forall x :: x in s ==> m <= x
  {
    var negated := set x | x in s :: -x;
    var e := Element(s);
    assert -e in negated;
    MaximumExists(negated);
    var m :| m in negated && forall x :: x in negated ==> x <= m;
    assert -m in s;
    forall x | x in s ensures -m <= x {
      assert -x in negated;
    }
  }

  // ---------------------------------------------------------------- the loop

  /** A tick of the loop: the local date and hour it read, and whether its refresh raised nothing. */
  datatype Tick = Tick(date: int, hour: int, succeeded: bool)

  /** The date of the last full refresh before tick `n` that succeeded. */
  ghost function LastFull(ticks: seq<Tick>, modes: seq<bool>, n: nat): Option<int>
    requires n <= |ticks| && n <= |modes|
  {
    if n == 0 then None
    else if modes[n - 1] && ticks[n - 1].succeeded then Some(ticks[n - 1].date)
    else LastFull(ticks, modes, n - 1)
  }

  lemma {:induction false} LastFullLooksBack(ticks: seq<Tick>, modes: seq<bool>, more: seq<bool>, n: nat)
    requires n <= |ticks| && n <= |modes|
    ensures LastFull(ticks, modes + more, n) == LastFull(ticks, modes, n)
  {
    if n > 0 {
      LastFullLooksBack(ticks, modes, more, n - 1);
    }
  }

  /** Tick `i` makes a full refresh: in the full hour, unless the last one that succeeded was that day's. */
  ghost predicate ByTheClock(ticks: seq<Tick>, fullHour: int, modes: seq<bool>, i: nat)
    requires i < |ticks| && i < |modes|
  {
    modes[i] <==> ticks[i].hour == fullHour && LastFull(ticks, modes, i) != Some(ticks[i].date)
  }

  method MatchRefreshLoop(ticks: seq<Tick>, fullHour: int) returns (modes: seq<bool>)
    ensures |modes| == |ticks| && forall i :: 0 <= i < |ticks| ==> ByTheClock(ticks, fullHour, modes, i)
  {
    modes := [];
    var lastFullDate: Option<int> := None;
    var i := 0;
    while i < |ticks|
      invariant 0 <= i <= |ticks| && |modes| == i
      invariant forall k :: 0 <= k < i ==> ByTheClock(ticks, fullHour, modes, k)
      invariant lastFullDate == LastFull(ticks, modes, i)
    {
      var now := ticks[i];
      var full := now.hour == fullHour && lastFullDate != Some(now.date);
      if full && now.succeeded {
        lastFullDate := Some(now.date);
      }
      ghost var before := modes;
      modes := modes + [full];
      LastFullLooksBack(ticks, before, [full], i);
      forall k | 0 <= k <= i ensures ByTheClock(ticks, fullHour, modes, k) {
        LastFullLooksBack(ticks, before, [full], k);
        assert k < i ==> ByTheClock(ticks, fullHour, before, k);
      }
      i := i + 1;
    }
  }

  ghost predicate DatesNeverGoBack(ticks: seq<Tick>) {
    forall i, j :: 0 <= i < j < |ticks| ==> ticks[i].date <= ticks[j].date
  }

  /** Some earlier tick of the same date made a full refresh that succeeded. */
  ghost predicate DoneToday(ticks: seq<Tick>, modes: seq<bool>, i: nat)
    requires i < |ticks| && i <= |modes|
  {
    exists j :: 0 <= j < i && ticks[j].date == ticks[i].date && modes[j] && ticks[j].succeeded
  }

  lemma {:induction false} LastFullOfToday(ticks: seq<Tick>, modes: seq<bool>, i: nat, n: nat)
    requires n <= i < |ticks| && i <= |modes| && DatesNeverGoBack(ticks)
    ensures LastFull(ticks, modes, n) == Some(ticks[i].date)
      <==> exists j :: 0 <= j < n && ticks[j].date == ticks[i].date && modes[j] && ticks[j].succeeded
  {
    if n > 0 {
      LastFullOfToday(ticks, modes, i, n - 1);
    }
  }

  /** While dates do not go back, the full refresh is tried in its hour until one succeeds, and never again that date. */
  lemma FullRefreshOncePerDate(ticks: seq<Tick>, fullHour: int, modes: seq<bool>, i: nat)
    requires DatesNeverGoBack(ticks) && |modes| == |ticks| && i < |ticks| && ByTheClock(ticks, fullHour, modes, i)
    ensures modes[i] <==> ticks[i].hour == fullHour && !DoneToday(ticks, modes, i)
  {
    LastFullOfToday(ticks, modes, i, i);
  }
}
