/**
 Accounts: the row created or linked on the first authenticated request, and withdrawal
 (app/infra/db/repositories/company_repository.py, app/api/deps.py).  Sign-ins and
 withdrawals interleave statement by statement; every statement sees the committed rows.
 */
module Accounts {
  import opened Wrappers
  import opened Collections

  datatype Company = Company(sub: Option<string>, email: Option<string>, deletedAt: Option<int>)

  type Table = map<int, Company>

  predicate Active(rows: Table, id: int) {
    id in rows && rows[id].deletedAt.None?
  }

  predicate Owns(rows: Table, id: int, sub: string) {
    id in rows && rows[id].sub == Some(sub)
  }

  predicate ActiveOwner(rows: Table, id: int, sub: string) {
    Active(rows, id) && Owns(rows, id, sub)
  }

  predicate HasEmail(rows: Table, id: int, email: Option<string>) {
    Active(rows, id) && email.Some? && rows[id].email == email
  }

  /** The unique index on cognito_sub, over withdrawn rows too. */
  ghost predicate Unique(rows: Table) {
    forall i, j :: i in rows && j in rows && rows[i].sub.Some? && rows[i].sub == rows[j].sub ==> i == j
  }

  ghost predicate Taken(rows: Table, sub: string) {
    exists id :: Owns(rows, id, sub)
  }

  ghost predicate WithdrawnSub(rows: Table, sub: string) {
    exists id :: Owns(rows, id, sub) && !Active(rows, id)
  }

  ghost predicate OwnsActive(rows: Table, sub: string) {
    exists id :: ActiveOwner(rows, id, sub)
  }

  /** Python's truth of an optional text. */
  predicate Given(email: Option<string>) {
    email.Some? && email.value != ""
  }

  function SetSub(rows: Table, id: int, sub: string): Table
    requires id in rows
  {
    rows[id := rows[id].(sub := Some(sub))]
  }

  function SetDeleted(rows: Table, id: int, now: int): Table
    requires id in rows
  {
    rows[id := rows[id].(deletedAt := Some(now))]
  }

  // ---------------------------------------------------------------- interleavings

  /** What a sign-in does next, or how it ended.  `Link` remembers the row and its sub as read. */
  datatype Phase =
    | Gate | BySub | ByEmail | Link(target: int, seen: Option<string>) | Insert | Requery
    | Done(id: int) | Rejected | Failed

  datatype Request = Request(sub: string, email: Option<string>, phase: Phase)

  /** Sign-ins by number, and the withdrawals that have found their row. */
  datatype State = State(rows: Table, requests: map<int, Request>, leaving: map<int, int>)

  datatype Event =
    | Arrive(r: int, sub: string, email: Option<string>)
    | CheckGate(r: int)
    | FindBySub(r: int, found: Option<int>)
    | FindByEmail(r: int, found: Option<int>)
    | CommitLink(r: int)
    | CommitInsert(r: int, id: int)
    | FindAgain(r: int, found: Option<int>)
    | FindToLeave(w: int, id: int)
    | CommitLeave(w: int, now: int)

  predicate AtPhase(st: State, r: int, p: Phase) {
    r in st.requests && st.requests[r].phase == p
  }

  ghost predicate FindsBySub(rows: Table, sub: string, found: Option<int>) {
    if found.Some? then ActiveOwner(rows, found.value, sub) else !OwnsActive(rows, sub)
  }

  /** Any of the active rows with the address may come first. */
  ghost predicate FindsByEmail(rows: Table, email: Option<string>, found: Option<int>) {
    if found.Some? then HasEmail(rows, found.value, email) else forall id :: !HasEmail(rows, id, email)
  }

  ghost predicate Enabled(st: State, e: Event) {
    match e
    case Arrive(r, _, _) => r !in st.requests
    case CheckGate(r) => AtPhase(st, r, Gate)
    case FindBySub(r, found) => AtPhase(st, r, BySub) && FindsBySub(st.rows, st.requests[r].sub, found)
    case FindByEmail(r, found) => AtPhase(st, r, ByEmail) && FindsByEmail(st.rows, st.requests[r].email, found)
    case CommitLink(r) => r in st.requests && st.requests[r].phase.Link?
    case CommitInsert(r, id) => AtPhase(st, r, Insert) && id !in st.rows
    case FindAgain(r, found) => AtPhase(st, r, Requery) && FindsBySub(st.rows, st.requests[r].sub, found)
    case FindToLeave(w, id) => w !in st.leaving && Active(st.rows, id)
    case CommitLeave(w, _) => w in st.leaving
  }

  function Move(st: State, r: int, p: Phase): State
    requires r in st.requests
  {
    st.(requests := st.requests[r := st.requests[r].(phase := p)])
  }

  /** The update of a link is refused when another row, withdrawn or not, has the sub. */
  ghost predicate LinkRefused(rows: Table, target: int, sub: string) {
    target !in rows || exists id :: id != target && Owns(rows, id, sub)
  }

  /** A link whose row was read with the very sub writes nothing. */
  ghost predicate LinkWrites(st: State, r: int) {
    && r in st.requests && st.requests[r].phase.Link?
    && st.requests[r].phase.seen != Some(st.requests[r].sub)
    && !LinkRefused(st.rows, st.requests[r].phase.target, st.requests[r].sub)
  }

  ghost function Next(st: State, e: Event): State
    requires Enabled(st, e)
  {
    match e
    case Arrive(r, sub, email) => st.(requests := st.requests[r := Request(sub, email, Gate)])
    case CheckGate(r) => Move(st, r, if WithdrawnSub(st.rows, st.requests[r].sub) then Rejected else BySub)
    case FindBySub(r, found) =>
      Move(st, r, if found.Some? then Done(found.value) else if Given(st.requests[r].email) then ByEmail else Insert)
    case FindByEmail(r, found) =>
      Move(st, r, if found.Some? then Link(found.value, st.rows[found.value].sub) else Insert)
    case CommitLink(r) =>
      var q := st.requests[r];
      if LinkWrites(st, r) then
        Move(st.(rows := SetSub(st.rows, q.phase.target, q.sub)), r, Done(q.phase.target))
      else
        Move(st, r, if q.phase.seen == Some(q.sub) then Done(q.phase.target) else Failed)
    case CommitInsert(r, id) =>
      var q := st.requests[r];
      if Taken(st.rows, q.sub) then Move(st, r, Requery)
      else Move(st.(rows := st.rows[id := Company(Some(q.sub), q.email, None)]), r, Done(id))
    case FindAgain(r, found) => Move(st, r, if found.Some? then Done(found.value) else Failed)
    case FindToLeave(w, id) => st.(leaving := st.leaving[w := id])
    case CommitLeave(w, now) =>
      if st.leaving[w] in st.rows then st.(rows := SetDeleted(st.rows, st.leaving[w], now), leaving := st.leaving - {w})
      else st.(leaving := st.leaving - {w})
  }

  ghost predicate Possible(st: State, es: seq<Event>)
    decreases es
  {
    es == [] || (Enabled(st, es[0]) && Possible(Next(st, es[0]), es[1..]))
  }

  ghost function After(st: State, es: seq<Event>): State
    requires Possible(st, es)
    decreases es
  {
    if es == [] then st else After(Next(st, es[0]), es[1..])
  }

  // ---------------------------------------------------------------- one company per sub

  /** Writing a sub that no other row has keeps the subs unique. */
  lemma WriteKeepsUnique(rows: Table, id: int, c: Company)
    requires Unique(rows) && (c.sub.Some? ==> forall other :: other != id ==> !Owns(rows, other, c.sub.value))
    ensures Unique(rows[id := c])
  {
    var after := rows[id := c];
    forall i, j | i in after && j in after && after[i].sub.Some? && after[i].sub == after[j].sub ensures i == j {
      assert c.sub.Some? ==> (i != id ==> !Owns(rows, i, c.sub.value)) && (j != id ==> !Owns(rows, j, c.sub.value));
    }
  }

  /** In every interleaving no two rows, withdrawn or not, have the same sub. */
  lemma StepKeepsUnique(st: State, e: Event)
    requires Enabled(st, e) && Unique(st.rows)
    ensures Unique(Next(st, e).rows)
  {
    if e.CommitLink? && LinkWrites(st, e.r) {
      var q := st.requests[e.r];
      WriteKeepsUnique(st.rows, q.phase.target, st.rows[q.phase.target].(sub := Some(q.sub)));
    } else if e.CommitInsert? && !Taken(st.rows, st.requests[e.r].sub) {
      var q := st.requests[e.r];
      forall other ensures !Owns(st.rows, other, q.sub) {
      }
      WriteKeepsUnique(st.rows, e.id, Company(Some(q.sub), q.email, None));
    }
  }

  /** Another sub's sign-in is about to take a row that `sub` owns, by the address. */
  ghost predicate TakenOver(st: State, e: Event, sub: string) {
    e.CommitLink? && LinkWrites(st, e.r) && st.requests[e.r].sub != sub && Owns(st.rows, st.requests[e.r].phase.target, sub)
  }

  ghost predicate NeverTakenOver(st: State, es: seq<Event>, sub: string)
    requires Possible(st, es)
    decreases es
  {
    es == [] || (!TakenOver(st, es[0], sub) && NeverTakenOver(Next(st, es[0]), es[1..], sub))
  }

  /** What the finished sign-ins of `sub` returned still belongs to it. */
  ghost predicate Settled(q: Request, rows: Table) {
    && (q.phase.Done? ==> Owns(rows, q.phase.id, q.sub))
    && (q.phase.Link? && q.phase.seen == Some(q.sub) ==> Owns(rows, q.phase.target, q.sub))
  }

  ghost predicate Inv(st: State, sub: string) {
    Unique(st.rows) && forall r :: r in st.requests && st.requests[r].sub == sub ==> Settled(st.requests[r], st.rows)
  }

  /** A row keeps its owner in exactly the steps that are not take-overs. */
  lemma OwnerChangesIffTakenOver(st: State, e: Event, id: int, sub: string)
    requires Enabled(st, e) && Unique(st.rows) && Owns(st.rows, id, sub)
    ensures Owns(Next(st, e).rows, id, sub) <==> !TakenOver(st, e, sub)
  {
    if TakenOver(st, e, sub) {
      assert Owns(st.rows, st.requests[e.r].phase.target, sub);
    }
  }

  lemma StepSettles(st: State, e: Event, sub: string, r: int)
    requires Enabled(st, e) && Inv(st, sub) && !TakenOver(st, e, sub)
    requires r in Next(st, e).requests && Next(st, e).requests[r].sub == sub
    ensures Settled(Next(st, e).requests[r], Next(st, e).rows)
  {
    var next := Next(st, e);
    if r in st.requests && st.requests[r].phase == next.requests[r].phase {
      var p := st.requests[r].phase;
      if p.Done? {
        OwnerChangesIffTakenOver(st, e, p.id, sub);
      } else if p.Link? && p.seen == Some(sub) {
        OwnerChangesIffTakenOver(st, e, p.target, sub);
      }
    }
  }

  lemma StepKeepsInv(st: State, e: Event, sub: string)
    requires Enabled(st, e) && Inv(st, sub) && !TakenOver(st, e, sub)
    ensures Inv(Next(st, e), sub)
  {
    StepKeepsUnique(st, e);
    forall r | r in Next(st, e).requests && Next(st, e).requests[r].sub == sub
      ensures Settled(Next(st, e).requests[r], Next(st, e).rows)
    {
      StepSettles(st, e, sub, r);
    }
  }

  lemma {:induction false} RunsKeepInv(st: State, es: seq<Event>, sub: string)
    requires Possible(st, es) && Inv(st, sub) && NeverTakenOver(st, es, sub)
    ensures Inv(After(st, es), sub)
    decreases es
  {
    if es != [] {
      StepKeepsInv(st, es[0], sub);
      RunsKeepInv(Next(st, es[0]), es[1..], sub);
    }
  }

  /** All sign-ins of one sub that return a company return the same one. */
  lemma OneCompanyPerSub(st: State, es: seq<Event>, sub: string, r: int, s: int)
    requires Possible(st, es) && Inv(st, sub) && NeverTakenOver(st, es, sub)
    requires r in After(st, es).requests && s in After(st, es).requests
    requires var end := After(st, es).requests; end[r].sub == sub == end[s].sub && end[r].phase.Done? && end[s].phase.Done?
    ensures After(st, es).requests[r].phase.id == After(st, es).requests[s].phase.id
  {
    RunsKeepInv(st, es, sub);
  }

  /**
   `sub` signs in with `address`, and nobody else signs in with it.  Addresses that are
   missing or empty are never looked up, so others may share those.
   */
  predicate OwnAddress(q: string, email: Option<string>, sub: string, address: Option<string>) {
    if q == sub then email == address else Given(email) ==> email != address
  }

  ghost predicate OwnAddresses(es: seq<Event>, sub: string, address: Option<string>) {
    forall i :: 0 <= i < |es| && es[i].Arrive? ==> OwnAddress(es[i].sub, es[i].email, sub, address)
  }

  /** What that keeps: the rows of `sub` have its address, and every pending link has found a row with its request's. */
  ghost predicate Apart(st: State, sub: string, address: Option<string>) {
    && (forall id :: Owns(st.rows, id, sub) ==> st.rows[id].email == address)
    && (forall r :: r in st.requests ==> ApartRequest(st.rows, st.requests[r], sub, address))
  }

  ghost predicate ApartRequest(rows: Table, q: Request, sub: string, address: Option<string>) {
    && OwnAddress(q.sub, q.email, sub, address)
    && (q.phase.ByEmail? ==> Given(q.email))
    && (q.phase.Link? ==> Given(q.email) && q.phase.target in rows && rows[q.phase.target].email == q.email)
  }

  lemma StepKeepsApart(st: State, e: Event, sub: string, address: Option<string>)
    requires Enabled(st, e) && Apart(st, sub, address)
    requires e.Arrive? ==> OwnAddress(e.sub, e.email, sub, address)
    ensures Apart(Next(st, e), sub, address) && !TakenOver(st, e, sub)
  {
  }

  lemma {:induction false} OwnAddressIsNeverTakenOver(st: State, es: seq<Event>, sub: string, address: Option<string>)
    requires Possible(st, es) && Apart(st, sub, address) && OwnAddresses(es, sub, address)
    ensures NeverTakenOver(st, es, sub)
    decreases es
  {
    if es != [] {
      StepKeepsApart(st, es[0], sub, address);
      OwnAddressIsNeverTakenOver(Next(st, es[0]), es[1..], sub, address);
    }
  }

  function Start(rows: Table): State {
    State(rows, map[], map[])
  }

  ghost predicate FinishedAs(st: State, r: int, sub: string, id: int) {
    r in st.requests && st.requests[r].sub == sub && st.requests[r].phase == Done(id)
  }

  ghost predicate SignInsAgree(st: State, sub: string) {
    forall r, s, id, other :: FinishedAs(st, r, sub, id) && FinishedAs(st, s, sub, other) ==> id == other
  }

  ghost predicate RowsHaveAddress(rows: Table, sub: string, address: Option<string>) {
    forall id :: Owns(rows, id, sub) ==> rows[id].email == address
  }

  /**
   Whoever else signs in, and whatever withdraws, all finished sign-ins of a sub return one
   company when nobody else has its verified address.
   */
  lemma FirstSignInsConverge(rows: Table, es: seq<Event>, sub: string, address: Option<string>)
    requires Unique(rows) && RowsHaveAddress(rows, sub, address)
    requires Possible(Start(rows), es) && OwnAddresses(es, sub, address)
    ensures SignInsAgree(After(Start(rows), es), sub)
  {
    OwnAddressIsNeverTakenOver(Start(rows), es, sub, address);
    RunsKeepInv(Start(rows), es, sub);
  }

  /** `sub` signs in with `address` and others with any of the addresses `others`. */
  ghost predicate ArrivesFrom(es: seq<Event>, sub: string, address: Option<string>, others: set<Option<string>>) {
    forall i :: 0 <= i < |es| && es[i].Arrive? ==> if es[i].sub == sub then es[i].email == address else es[i].email in others
  }

  ghost predicate AgreesOver(rows: Table, es: seq<Event>, sub: string, address: Option<string>, others: set<Option<string>>) {
    Unique(rows) && RowsHaveAddress(rows, sub, address) && Possible(Start(rows), es) && ArrivesFrom(es, sub, address, others)
    ==> SignInsAgree(After(Start(rows), es), sub)
  }

  /** That is the exact condition: sign-ins converge in every run if and only if no other sub may come with the address. */
  lemma SignInsConvergeIffAddressIsOwn(sub: string, address: Option<string>, others: set<Option<string>>)
    ensures (forall rows, es :: AgreesOver(rows, es, sub, address, others)) <==> !(Given(address) && address in others)
  {
    if Given(address) && address in others {
      var es := SharedAddressSplitsASub(sub, sub + "'", address);
      assert !AgreesOver(map[], es, sub, address, others);
    } else {
      forall rows, es ensures AgreesOver(rows, es, sub, address, others) {
        if Unique(rows) && RowsHaveAddress(rows, sub, address) && Possible(Start(rows), es) && ArrivesFrom(es, sub, address, others) {
          FirstSignInsConverge(rows, es, sub, address);
        }
      }
    }
  }

  ghost predicate CanLose(st: State, e: Event, id: int, sub: string) {
    Enabled(st, e) && !Owns(Next(st, e).rows, id, sub)
  }

  /** A row can change its owner next if and only if another sub's unrefused link is waiting on it. */
  lemma OwnerCanChangeIffContested(st: State, id: int, sub: string)
    requires Unique(st.rows) && Owns(st.rows, id, sub)
    ensures (exists e :: CanLose(st, e, id, sub))
      <==> exists r :: LinkWrites(st, r) && st.requests[r].phase.target == id && st.requests[r].sub != sub
  {
    if exists r :: LinkWrites(st, r) && st.requests[r].phase.target == id && st.requests[r].sub != sub {
      var r :| LinkWrites(st, r) && st.requests[r].phase.target == id && st.requests[r].sub != sub;
      OwnerChangesIffTakenOver(st, CommitLink(r), id, sub);
      assert CanLose(st, CommitLink(r), id, sub);
    }
    if exists e :: CanLose(st, e, id, sub) {
      var e :| CanLose(st, e, id, sub);
      OwnerChangesIffTakenOver(st, e, id, sub);
      assert LinkWrites(st, e.r) && Owns(st.rows, st.requests[e.r].phase.target, sub);
    }
  }

  // ---------------------------------------------------------------- withdrawn rows

  ghost predicate WithdrawnRow(rows: Table, id: int) {
    id in rows && rows[id].deletedAt.Some?
  }

  /** A commit falls on a row that was withdrawn after the sign-in or withdrawal had found it. */
  ghost predicate Disturbs(st: State, e: Event, id: int)
    requires id in st.rows
  {
    || (e.CommitLink? && LinkWrites(st, e.r) && st.requests[e.r].phase.target == id && !Owns(st.rows, id, st.requests[e.r].sub))
    || (e.CommitLeave? && e.w in st.leaving && st.leaving[e.w] == id && st.rows[id].deletedAt != Some(e.now))
  }

  lemma OnlyDisturbancesChange(st: State, e: Event, id: int)
    requires Enabled(st, e) && WithdrawnRow(st.rows, id)
    ensures WithdrawnRow(Next(st, e).rows, id)
    ensures Next(st, e).rows[id] != st.rows[id] <==> Disturbs(st, e, id)
  {
  }

  /** A sign-in has found the row by its address, while it was active, and is to write its own sub there. */
  ghost predicate Aims(rows: Table, q: Request, id: int) {
    q.phase.Link? && q.phase.target == id && q.phase.seen != Some(q.sub) && !Owns(rows, id, q.sub)
  }

  /** The row is withdrawn and nothing under way has found it before: neither a link nor another withdrawal. */
  ghost predicate Quiet(st: State, id: int) {
    && WithdrawnRow(st.rows, id)
    && (forall r :: r in st.requests ==> !Aims(st.rows, st.requests[r], id))
    && (forall w :: w in st.leaving ==> st.leaving[w] != id)
  }

  lemma StepKeepsQuiet(st: State, e: Event, id: int)
    requires Enabled(st, e) && Quiet(st, id)
    ensures Quiet(Next(st, e), id) && Next(st, e).rows[id] == st.rows[id]
  {
  }

  /** Such a row never changes again, in any continuation. */
  lemma {:induction false} WithdrawnRowsNeverChange(st: State, es: seq<Event>, id: int)
    requires Possible(st, es) && Quiet(st, id)
    ensures Quiet(After(st, es), id) && After(st, es).rows[id] == st.rows[id]
    decreases es
  {
    if es != [] {
      StepKeepsQuiet(st, es[0], id);
      WithdrawnRowsNeverChange(Next(st, es[0]), es[1..], id);
    }
  }

  ghost predicate CanChange(st: State, e: Event, id: int) {
    Enabled(st, e) && id in st.rows && id in Next(st, e).rows && Next(st, e).rows[id] != st.rows[id]
  }

  /** A withdrawn row can change next if and only if an unrefused link or a withdrawal is waiting on it. */
  lemma WithdrawnRowCanChangeIffAimedAt(st: State, id: int)
    requires WithdrawnRow(st.rows, id)
    ensures (exists e :: CanChange(st, e, id))
      <==> (exists r :: LinkWrites(st, r) && Aims(st.rows, st.requests[r], id)) || (exists w :: w in st.leaving && st.leaving[w] == id)
  {
    if r :| LinkWrites(st, r) && Aims(st.rows, st.requests[r], id) {
      OnlyDisturbancesChange(st, CommitLink(r), id);
      assert CanChange(st, CommitLink(r), id);
    }
    if w :| w in st.leaving && st.leaving[w] == id {
      var later := CommitLeave(w, st.rows[id].deletedAt.value + 1);
      OnlyDisturbancesChange(st, later, id);
      assert CanChange(st, later, id);
    }
    if e :| CanChange(st, e, id) {
      OnlyDisturbancesChange(st, e, id);
      assert e.CommitLink? ==> LinkWrites(st, e.r) && Aims(st.rows, st.requests[e.r], id);
    }
  }

  /** A withdrawn sub owns no other row, so none that is active. */
  lemma WithdrawnSubOwnsNothingActive(rows: Table, id: int, sub: string)
    requires Unique(rows) && WithdrawnRow(rows, id) && Owns(rows, id, sub)
    ensures WithdrawnSub(rows, sub) && !OwnsActive(rows, sub)
  {
    assert !Active(rows, id);
    forall other ensures !ActiveOwner(rows, other, sub) {
      assert Owns(rows, other, sub) ==> other == id;
    }
  }

  /** A withdrawn sub never again owns an active row, and its new sign-ins are rejected at the gate. */
  lemma WithdrawnSubStaysOut(st: State, es: seq<Event>, id: int, sub: string)
    requires Possible(st, es) && Unique(st.rows) && Quiet(st, id) && Owns(st.rows, id, sub)
    ensures var end := After(st, es);
      && !OwnsActive(end.rows, sub) && WithdrawnSub(end.rows, sub)
      && forall r :: AtPhase(end, r, Gate) && end.requests[r].sub == sub ==> Next(end, CheckGate(r)).requests[r].phase == Rejected
  {
    WithdrawnRowsNeverChange(st, es, id);
    RunsKeepUnique(st, es);
    WithdrawnSubOwnsNothingActive(After(st, es).rows, id, sub);
  }

  lemma {:induction false} RunsKeepUnique(st: State, es: seq<Event>)
    requires Possible(st, es) && Unique(st.rows)
    ensures Unique(After(st, es).rows)
    decreases es
  {
    if es != [] {
      StepKeepsUnique(st, es[0]);
      RunsKeepUnique(Next(st, es[0]), es[1..]);
    }
  }

  /** A sub loses its withdrawal mark exactly when a link commits on the withdrawn row. */
  lemma MarkIsLostIffLinked(st: State, e: Event, id: int, sub: string)
    requires Enabled(st, e) && Unique(st.rows) && WithdrawnRow(st.rows, id) && Owns(st.rows, id, sub)
    ensures WithdrawnSub(Next(st, e).rows, sub) <==> !(e.CommitLink? && Disturbs(st, e, id))
    ensures e.CommitLink? && Disturbs(st, e, id) ==> !Taken(Next(st, e).rows, sub)
  {
    var rows := Next(st, e).rows;
    StepKeepsUnique(st, e);
    if e.CommitLink? && Disturbs(st, e, id) {
      forall other ensures !Owns(rows, other, sub) {
        assert Owns(st.rows, other, sub) ==> other == id;
      }
    } else {
      assert Owns(rows, id, sub) && !Active(rows, id);
    }
  }

  // ---------------------------------------------------------------- a link that meets a withdrawal

  lemma Prepend(st: State, e: Event, rest: seq<Event>)
    requires Enabled(st, e) && Possible(Next(st, e), rest)
    ensures Possible(st, [e] + rest) && After(st, [e] + rest) == After(Next(st, e), rest)
  {
    assert ([e] + rest)[1..] == rest;
  }

  lemma {:induction false} Chain(st: State, first: seq<Event>, second: seq<Event>)
    requires Possible(st, first) && Possible(After(st, first), second)
    ensures Possible(st, first + second) && After(st, first + second) == After(After(st, first), second)
    decreases first
  {
    if first == [] {
      assert first + second == second;
    } else {
      Chain(Next(st, first[0]), first[1..], second);
      Prepend(st, first[0], first[1..] + second);
      assert first + second == [first[0]] + (first[1..] + second);
    }
  }

  /** A sign-in of a sub that no row has comes to look for its address. */
  lemma SignInLooksForItsAddress(st: State, r: int, sub: string, address: Option<string>) returns (es: seq<Event>)
    requires r !in st.requests && Given(address) && !Taken(st.rows, sub)
    ensures Possible(st, es) && After(st, es) == st.(requests := st.requests[r := Request(sub, address, ByEmail)])
    ensures forall e :: e in es && e.Arrive? ==> e.sub == sub && e.email == address
  {
    var s1 := st.(requests := st.requests[r := Request(sub, address, Gate)]);
    var s2 := st.(requests := st.requests[r := Request(sub, address, BySub)]);
    var s3 := st.(requests := st.requests[r := Request(sub, address, ByEmail)]);
    assert !WithdrawnSub(st.rows, sub) && !OwnsActive(st.rows, sub);
    assert Next(st, Arrive(r, sub, address)) == s1;
    assert Next(s1, CheckGate(r)) == s2;
    assert Next(s2, FindBySub(r, None)) == s3;
    Prepend(s2, FindBySub(r, None), []);
    es := [FindBySub(r, None)];
    Prepend(s1, CheckGate(r), es);
    es := [CheckGate(r)] + es;
    Prepend(st, Arrive(r, sub, address), es);
    es := [Arrive(r, sub, address)] + es;
  }

  /** It finds the active row `id`. */
  lemma SignInFindsTheRow(st: State, r: int, sub: string, address: Option<string>, id: int) returns (es: seq<Event>)
    requires r !in st.requests && Given(address) && HasEmail(st.rows, id, address) && !Taken(st.rows, sub)
    ensures Possible(st, es)
    ensures After(st, es) == st.(requests := st.requests[r := Request(sub, address, Link(id, st.rows[id].sub))])
    ensures forall e :: e in es && e.Arrive? ==> e.sub == sub && e.email == address
  {
    var looked := SignInLooksForItsAddress(st, r, sub, address);
    var s3 := After(st, looked);
    var s4 := st.(requests := st.requests[r := Request(sub, address, Link(id, st.rows[id].sub))]);
    assert Next(s3, FindByEmail(r, Some(id))) == s4;
    Prepend(s3, FindByEmail(r, Some(id)), []);
    Chain(st, looked, [FindByEmail(r, Some(id))]);
    es := looked + [FindByEmail(r, Some(id))];
  }

  /** It finds no active row and creates company `id`. */
  lemma SignInCreates(st: State, r: int, sub: string, address: Option<string>, id: int) returns (es: seq<Event>)
    requires r !in st.requests && id !in st.rows && !Taken(st.rows, sub)
    requires Given(address) && forall i :: !HasEmail(st.rows, i, address)
    ensures Possible(st, es)
    ensures After(st, es) == State(
      st.rows[id := Company(Some(sub), address, None)], st.requests[r := Request(sub, address, Done(id))], st.leaving)
    ensures forall e :: e in es && e.Arrive? ==> e.sub == sub && e.email == address
  {
    var looked := SignInLooksForItsAddress(st, r, sub, address);
    var s3 := After(st, looked);
    var s4 := st.(requests := st.requests[r := Request(sub, address, Insert)]);
    assert Next(s3, FindByEmail(r, None)) == s4;
    assert Next(s4, CommitInsert(r, id)).requests == st.requests[r := Request(sub, address, Done(id))];
    Prepend(s4, CommitInsert(r, id), []);
    Prepend(s3, FindByEmail(r, None), [CommitInsert(r, id)]);
    Chain(st, looked, [FindByEmail(r, None)] + [CommitInsert(r, id)]);
    es := looked + ([FindByEmail(r, None)] + [CommitInsert(r, id)]);
  }

  lemma OwnerWithdraws(st: State, id: int, now: int) returns (es: seq<Event>)
    requires Active(st.rows, id) && st.leaving == map[]
    ensures Possible(st, es) && After(st, es) == st.(rows := SetDeleted(st.rows, id, now))
    ensures forall e :: e in es ==> !e.Arrive?
  {
    var s1 := st.(leaving := map[7 := id]);
    assert Next(st, FindToLeave(7, id)) == s1;
    assert Next(s1, CommitLeave(7, now)).leaving == map[];
    Prepend(s1, CommitLeave(7, now), []);
    Prepend(st, FindToLeave(7, id), [CommitLeave(7, now)]);
    es := [FindToLeave(7, id)] + [CommitLeave(7, now)];
  }

  lemma LinkCommits(st: State, r: int) returns (es: seq<Event>)
    requires LinkWrites(st, r)
    ensures es == [CommitLink(r)] && Possible(st, es)
    ensures var q := st.requests[r];
      After(st, es) == Move(st.(rows := SetSub(st.rows, q.phase.target, q.sub)), r, Done(q.phase.target))
  {
    es := [CommitLink(r)];
    Prepend(st, CommitLink(r), []);
  }

  /**
   So a withdrawn row can change.  A sign-in of a new sub finds company 1 by its address, the
   owner withdraws, and the link commits.  The new sub, which never withdrew, then counts as
   withdrawn, and the withdrawn one signs in again to an active row.
   */
  lemma LinkRevivesAWithdrawnSub(one: string, two: string, address: Option<string>)
    returns (before: seq<Event>, after: seq<Event>)
    requires one != two && Given(address)
    ensures var start := Start(map[1 := Company(Some(one), address, None)]);
      && Possible(start, before)
      && var mid := After(start, before);
         && WithdrawnRow(mid.rows, 1) && Owns(mid.rows, 1, one) && Possible(mid, after)
         && var end := After(mid, after);
            Owns(end.rows, 1, two) && WithdrawnSub(end.rows, two) && OwnsActive(end.rows, one)
  {
    var start := Start(map[1 := Company(Some(one), address, None)]);
    var found := SignInFindsTheRow(start, 1, two, address, 1);
    var s1 := After(start, found);
    var left := OwnerWithdraws(s1, 1, 100);
    Chain(start, found, left);
    before := found + left;
    var mid := After(start, before);
    assert mid.rows == map[1 := Company(Some(one), address, Some(100))];
    var linked := LinkCommits(mid, 1);
    var s2 := After(mid, linked);
    assert s2.rows == map[1 := Company(Some(two), address, Some(100))];
    var again := SignInCreates(s2, 2, one, address, 2);
    Chain(mid, linked, again);
    after := linked + again;
    var end := After(mid, after);
    assert Owns(end.rows, 1, two) && !Active(end.rows, 1) && ActiveOwner(end.rows, 2, one);
  }

  /** "one" creates company 1, and "two" finds it by the address and takes it over. */
  lemma SharedAddressTakesOver(one: string, two: string, address: Option<string>) returns (es: seq<Event>)
    requires one != two && Given(address)
    ensures Possible(Start(map[]), es)
    ensures After(Start(map[]), es) == State(
      map[1 := Company(Some(two), address, None)],
      map[1 := Request(one, address, Done(1)), 2 := Request(two, address, Done(1))], map[])
    ensures forall e :: e in es && e.Arrive? ==> e.sub in {one, two} && e.email == address
  {
    var created := SignInCreates(Start(map[]), 1, one, address, 1);
    var s1 := After(Start(map[]), created);
    assert s1.rows == map[1 := Company(Some(one), address, None)];
    var found := SignInFindsTheRow(s1, 2, two, address, 1);
    var linked := LinkCommits(After(s1, found), 2);
    Chain(s1, found, linked);
    Chain(Start(map[]), created, found + linked);
    es := created + (found + linked);
    assert After(Start(map[]), es).rows == map[1 := Company(Some(two), address, None)];
    assert After(Start(map[]), es).requests == map[1 := Request(one, address, Done(1)), 2 := Request(two, address, Done(1))];
  }

  /** Once the taker has withdrawn, the first sub signs in again and is given a second company. */
  lemma SharedAddressSplitsASub(one: string, two: string, address: Option<string>) returns (es: seq<Event>)
    requires one != two && Given(address)
    ensures Possible(Start(map[]), es) && FinishedAs(After(Start(map[]), es), 1, one, 1) && FinishedAs(After(Start(map[]), es), 3, one, 2)
    ensures forall e :: e in es && e.Arrive? ==> e.sub in {one, two} && e.email == address
  {
    var taken := SharedAddressTakesOver(one, two, address);
    var s1 := After(Start(map[]), taken);
    var left := OwnerWithdraws(s1, 1, 100);
    var s2 := After(s1, left);
    assert s2.rows == map[1 := Company(Some(two), address, Some(100))];
    var again := SignInCreates(s2, 3, one, address, 2);
    Chain(s1, left, again);
    Chain(Start(map[]), taken, left + again);
    es := taken + (left + again);
  }

  // ---------------------------------------------------------------- which withdrawn rows can ever change

  /** No row outside `loose` has the sub. */
  ghost predicate Frees(rows: Table, loose: set<int>, sub: string) {
    forall id :: Owns(rows, id, sub) ==> id in loose
  }

  ghost predicate CanBeTaken(st: State, loose: set<int>, id: int) {
    exists r :: r in st.requests && Aims(st.rows, st.requests[r], id) && Frees(st.rows, loose, st.requests[r].sub)
  }

  /**
   The rows that can lose their sub.  An active row with an address always can, to a new sub
   that comes with it; any row can on which a link is waiting whose sub nobody has, or only a
   row that can lose it first.
   */
  ghost function Loose(st: State, n: nat): set<int> {
    if n == 0 then set id | id in st.rows && Active(st.rows, id) && Given(st.rows[id].email)
    else Loose(st, n - 1) + set id | id in st.rows && CanBeTaken(st, Loose(st, n - 1), id)
  }

  /** What holds from the start of any run: links have found rows, and only given addresses are looked up. */
  ghost predicate Sound(st: State) {
    && (forall r :: r in st.requests && st.requests[r].phase.Link? ==> st.requests[r].phase.target in st.rows)
    && (forall r :: r in st.requests && st.requests[r].phase.ByEmail? ==> Given(st.requests[r].email))
  }

  lemma StepKeepsSound(st: State, e: Event)
    requires Enabled(st, e) && Sound(st)
    ensures Sound(Next(st, e))
  {
  }

  function Primes(n: nat): (s: string)
    ensures |s| == n
  {
    if n == 0 then "" else Primes(n - 1) + "'"
  }

  lemma NewSub(rows: Table) returns (sub: string)
    ensures !Taken(rows, sub)
  {
    var subs := set id | id in rows && rows[id].sub.Some? :: rows[id].sub.value;
    var bound := Above(subs, (other: string) => |other|);
    sub := Primes(if bound < 0 then 0 else bound);
    forall id ensures !Owns(rows, id, sub) {
      assert id in rows && rows[id].sub.Some? ==> rows[id].sub.value in subs;
    }
  }

  lemma NewRequest(requests: map<int, Request>) returns (r: int)
    ensures r !in requests
  {
    r := Above(requests.Keys, (n: int) => n);
    assert r in requests.Keys ==> ((n: int) => n)(r) < r;
  }

  /** Only rows in `loose` and the links waiting on them were touched. */
  ghost predicate Within(st: State, end: State, loose: set<int>) {
    && end.rows.Keys == st.rows.Keys && end.leaving == st.leaving
    && (forall id :: id in st.rows && id !in loose ==> end.rows[id] == st.rows[id])
    && (forall r :: r in st.requests && st.requests[r].phase.Link? && st.requests[r].phase.target !in loose
          ==> r in end.requests && end.requests[r] == st.requests[r])
  }

  ghost predicate Lost(st: State, end: State, id: int)
    requires id in st.rows
  {
    && id in end.rows && end.rows[id].sub != st.rows[id].sub
    && (st.rows[id].sub.Some? ==> !Taken(end.rows, st.rows[id].sub.value))
  }

  /** A waiting link whose sub nobody has takes the row. */
  lemma LinkTakes(st: State, r: int, id: int) returns (es: seq<Event>)
    requires Unique(st.rows) && id in st.rows && r in st.requests && Aims(st.rows, st.requests[r], id)
    requires !Taken(st.rows, st.requests[r].sub)
    ensures Possible(st, es) && Unique(After(st, es).rows) && Within(st, After(st, es), {id}) && Lost(st, After(st, es), id)
  {
    es := LinkCommits(st, r);
    var end := After(st, es);
    WriteKeepsUnique(st.rows, id, end.rows[id]);
    if st.rows[id].sub.Some? {
      forall other ensures !Owns(end.rows, other, st.rows[id].sub.value) {
        assert Owns(st.rows, other, st.rows[id].sub.value) ==> other == id;
      }
    }
  }

  /** A new sub that comes with the address of an active row takes it. */
  lemma NewSubTakes(st: State, id: int) returns (es: seq<Event>)
    requires Unique(st.rows) && Active(st.rows, id) && Given(st.rows[id].email)
    ensures Possible(st, es) && Unique(After(st, es).rows) && Within(st, After(st, es), {id}) && Lost(st, After(st, es), id)
  {
    var sub := NewSub(st.rows);
    var r := NewRequest(st.requests);
    var found := SignInFindsTheRow(st, r, sub, st.rows[id].email, id);
    var mid := After(st, found);
    assert !Owns(st.rows, id, sub);
    var taken := LinkTakes(mid, r, id);
    Chain(st, found, taken);
    es := found + taken;
  }

  lemma {:induction false} LooseRowsLoseTheirSub(st: State, n: nat, id: int) returns (es: seq<Event>)
    requires Unique(st.rows) && id in Loose(st, n)
    ensures id in st.rows
    ensures Possible(st, es) && Unique(After(st, es).rows) && Within(st, After(st, es), Loose(st, n)) && Lost(st, After(st, es), id)
    decreases n, 0
  {
    if n == 0 {
      es := NewSubTakes(st, id);
    } else if id in Loose(st, n - 1) {
      es := LooseRowsLoseTheirSub(st, n - 1, id);
    } else {
      var r :| r in st.requests && Aims(st.rows, st.requests[r], id) && Frees(st.rows, Loose(st, n - 1), st.requests[r].sub);
      var freed := SubIsFreed(st, n - 1, st.requests[r].sub);
      var mid := After(st, freed);
      var taken := LinkTakes(mid, r, id);
      Chain(st, freed, taken);
      es := freed + taken;
    }
  }

  lemma {:induction false} SubIsFreed(st: State, n: nat, sub: string) returns (es: seq<Event>)
    requires Unique(st.rows) && Frees(st.rows, Loose(st, n), sub)
    ensures Possible(st, es) && Unique(After(st, es).rows) && Within(st, After(st, es), Loose(st, n)) && !Taken(After(st, es).rows, sub)
    decreases n, 1
  {
    es := [];
    if holder :| Owns(st.rows, holder, sub) {
      es := LooseRowsLoseTheirSub(st, n, holder);
    }
  }

  /** Rows that no continuation can take: nobody new finds them, and every waiting link's sub is held by one of them. */
  ghost predicate Locked(st: State, rows: set<int>) {
    forall id :: id in rows ==>
      && id in st.rows && !(Active(st.rows, id) && Given(st.rows[id].email))
      && forall r :: r in st.requests && Aims(st.rows, st.requests[r], id) ==> HeldWithin(st.rows, rows, st.requests[r].sub)
  }

  ghost predicate HeldWithin(table: Table, rows: set<int>, sub: string) {
    exists id :: id in rows && Owns(table, id, sub)
  }

  lemma StepKeepsSubs(st: State, e: Event, rows: set<int>)
    requires Enabled(st, e) && Sound(st) && Locked(st, rows)
    ensures forall id :: id in rows ==> id in Next(st, e).rows && Next(st, e).rows[id].sub == st.rows[id].sub
    ensures forall id :: id in rows ==> Next(st, e).rows[id].email == st.rows[id].email
  {
    if e.CommitLink? && LinkWrites(st, e.r) && st.requests[e.r].phase.target in rows {
      var q := st.requests[e.r];
      assert Aims(st.rows, q, q.phase.target) ==> HeldWithin(st.rows, rows, q.sub);
    }
  }

  lemma StepKeepsLocked(st: State, e: Event, rows: set<int>)
    requires Enabled(st, e) && Sound(st) && Locked(st, rows)
    ensures Locked(Next(st, e), rows)
  {
    StepKeepsSubs(st, e, rows);
    var next := Next(st, e);
    forall id, r | id in rows && r in next.requests && Aims(next.rows, next.requests[r], id)
      ensures HeldWithin(next.rows, rows, next.requests[r].sub)
    {
      assert r in st.requests && next.requests[r] == st.requests[r];
      assert Aims(st.rows, st.requests[r], id);
      var holder :| holder in rows && Owns(st.rows, holder, st.requests[r].sub);
      assert Owns(next.rows, holder, st.requests[r].sub);
    }
  }

  lemma {:induction false} LockedRowsNeverChange(st: State, es: seq<Event>, rows: set<int>, id: int)
    requires Possible(st, es) && Sound(st) && Locked(st, rows) && id in rows
    requires WithdrawnRow(st.rows, id) && forall w :: w in st.leaving ==> st.leaving[w] != id
    ensures id in After(st, es).rows && After(st, es).rows[id] == st.rows[id]
    decreases es
  {
    if es != [] {
      StepKeepsSubs(st, es[0], rows);
      StepKeepsLocked(st, es[0], rows);
      StepKeepsSound(st, es[0]);
      OnlyDisturbancesChange(st, es[0], id);
      LockedRowsNeverChange(Next(st, es[0]), es[1..], rows, id);
    }
  }

  ghost predicate Firm(st: State, id: int) {
    id in st.rows && forall n: nat :: id !in Loose(st, n)
  }

  /** The rows that are never loose are locked. */
  lemma FirmRowsAreLocked(st: State) returns (firm: set<int>)
    requires Unique(st.rows)
    ensures forall id :: Firm(st, id) ==> id in firm
    ensures Locked(st, firm)
  {
    firm := set id | id in st.rows && Firm(st, id);
    forall id | id in firm ensures !(Active(st.rows, id) && Given(st.rows[id].email)) {
      assert id !in Loose(st, 0);
    }
    forall id, r | id in firm && r in st.requests && Aims(st.rows, st.requests[r], id)
      ensures HeldWithin(st.rows, firm, st.requests[r].sub)
    {
      var sub := st.requests[r].sub;
      forall n: nat ensures !Frees(st.rows, Loose(st, n), sub) {
        assert id !in Loose(st, n + 1);
      }
      var holder :| Owns(st.rows, holder, sub) && holder !in Loose(st, 0);
      forall n: nat ensures holder !in Loose(st, n) {
        var other :| Owns(st.rows, other, sub) && other !in Loose(st, n);
        assert other == holder;
      }
      assert Firm(st, holder);
    }
  }

  ghost predicate ChangesAfter(st: State, es: seq<Event>, id: int) {
    Possible(st, es) && id in st.rows && !(id in After(st, es).rows && After(st, es).rows[id] == st.rows[id])
  }

  /**
   A withdrawn row changes in some continuation if and only if another withdrawal is waiting
   on it, or a link whose sub nobody has or only a row that can lose it first.
   */
  lemma WithdrawnRowEverChangesIff(st: State, id: int)
    requires Unique(st.rows) && Sound(st) && WithdrawnRow(st.rows, id)
    ensures (exists es :: ChangesAfter(st, es, id))
      <==> (exists w :: w in st.leaving && st.leaving[w] == id) || (exists n: nat :: CanBeTaken(st, Loose(st, n), id))
  {
    if w :| w in st.leaving && st.leaving[w] == id {
      var later := CommitLeave(w, st.rows[id].deletedAt.value + 1);
      Prepend(st, later, []);
      assert ChangesAfter(st, [later] + [], id);
    } else if n: nat :| CanBeTaken(st, Loose(st, n), id) {
      assert id in Loose(st, n + 1);
      var es := LooseRowsLoseTheirSub(st, n + 1, id);
      assert ChangesAfter(st, es, id);
    } else {
      var firm := FirmRowsAreLocked(st);
      forall n: nat ensures id !in Loose(st, n) {
        if id in Loose(st, n) {
          WithdrawnIsLooseOnlyIfTaken(st, n, id);
        }
      }
      assert Firm(st, id);
      forall es | Possible(st, es) ensures !ChangesAfter(st, es, id) {
        LockedRowsNeverChange(st, es, firm, id);
      }
    }
  }

  lemma {:induction false} WithdrawnIsLooseOnlyIfTaken(st: State, n: nat, id: int)
    requires WithdrawnRow(st.rows, id) && id in Loose(st, n)
    ensures exists m: nat :: m < n && CanBeTaken(st, Loose(st, m), id)
  {
    if n > 0 && id in Loose(st, n - 1) {
      WithdrawnIsLooseOnlyIfTaken(st, n - 1, id);
    }
  }

  // ---------------------------------------------------------------- a sign-in by itself

  ghost predicate SomeHasEmail(rows: Table, email: Option<string>) {
    email.Some? && email.value != "" && exists id :: HasEmail(rows, id, email)
  }

  /** What a sign-in past the gate does to the rows when nothing interleaves; None is an error. */
  ghost predicate SignedIn(before: Table, after: Table, sub: string, email: Option<string>, result: Option<int>) {
    if OwnsActive(before, sub) then
      after == before && result.Some? && ActiveOwner(before, result.value, sub)
    else if Taken(before, sub) then
      after == before && result.None?
    else if SomeHasEmail(before, email) then
      result.Some? && HasEmail(before, result.value, email) && after == SetSub(before, result.value, sub)
    else
      result.Some? && result.value !in before && after == before[result.value := Company(Some(sub), email, None)]
  }

  /** It keeps the subs unique and returns an active row of the sub, or fails because a withdrawn row has the sub. */
  lemma SignedInOwns(before: Table, after: Table, sub: string, email: Option<string>, result: Option<int>)
    requires Unique(before) && SignedIn(before, after, sub, email, result)
    ensures Unique(after) && (result.Some? ==> ActiveOwner(after, result.value, sub))
    ensures result.None? ==> after == before && WithdrawnSub(before, sub)
  {
    if OwnsActive(before, sub) {
    } else if Taken(before, sub) {
      var id :| Owns(before, id, sub);
      assert !ActiveOwner(before, id, sub);
    } else {
      assert forall id :: !Owns(before, id, sub);
      WriteKeepsUnique(before, result.value, after[result.value]);
    }
  }

  /** Of all statements so far, only those of this sign-in touched the rows. */
  ghost predicate Midway(before: Table, rows: Table, q: Request) {
    match q.phase
    case Gate => false
    case Rejected => false
    case BySub => rows == before
    case ByEmail => rows == before && !OwnsActive(before, q.sub) && Given(q.email)
    case Link(target, seen) =>
      rows == before && !OwnsActive(before, q.sub) && Given(q.email) && HasEmail(before, target, q.email)
      && seen == before[target].sub
    case Insert => rows == before && !OwnsActive(before, q.sub) && !SomeHasEmail(before, q.email)
    case Requery => rows == before && !OwnsActive(before, q.sub) && Taken(before, q.sub)
    case Done(id) => SignedIn(before, rows, q.sub, q.email, Some(id))
    case Failed => SignedIn(before, rows, q.sub, q.email, None)
  }

  ghost predicate Of(e: Event, r: int) {
    match e
    case FindBySub(x, _) => x == r
    case FindByEmail(x, _) => x == r
    case CommitLink(x) => x == r
    case CommitInsert(x, _) => x == r
    case FindAgain(x, _) => x == r
    case _ => false
  }

  lemma StatementStaysMidway(before: Table, st: State, e: Event, r: int)
    requires Enabled(st, e) && Of(e, r) && Unique(before) && Midway(before, st.rows, st.requests[r])
    ensures r in Next(st, e).requests && Midway(before, Next(st, e).rows, Next(st, e).requests[r])
  {
    var q := st.requests[r];
    if e.CommitLink? {
      LinkIsRefusedIffTaken(before, q.phase.target, q.sub);
    }
  }

  /** To an active row that the sub does not own, the link fails exactly when some row has the sub. */
  lemma LinkIsRefusedIffTaken(rows: Table, target: int, sub: string)
    requires Active(rows, target) && !OwnsActive(rows, sub)
    ensures LinkRefused(rows, target, sub) <==> Taken(rows, sub)
    ensures rows[target].sub != Some(sub)
  {
    assert !ActiveOwner(rows, target, sub);
    if Taken(rows, sub) {
      var id :| Owns(rows, id, sub);
      assert id != target;
    }
  }

  /** How far a sign-in has come. */
  function Progress(p: Phase): nat {
    match p
    case Gate => 0
    case BySub => 1
    case ByEmail => 2
    case Link(_, _) => 3
    case Insert => 3
    case Requery => 4
    case Done(_) => 5
    case Rejected => 5
    case Failed => 5
  }

  /** Every statement moves its own sign-in on and no other, so a sign-in ends after at most five; a committed withdrawal is over. */
  lemma StatementsMoveOn(st: State, e: Event, r: int)
    requires Enabled(st, e) && r in st.requests
    ensures r in Next(st, e).requests
    ensures Of(e, r) || e == CheckGate(r) ==> Progress(st.requests[r].phase) < Progress(Next(st, e).requests[r].phase) <= 5
    ensures !Of(e, r) && e != CheckGate(r) ==> Next(st, e).requests[r] == st.requests[r]
    ensures e.CommitLeave? ==> e.w !in Next(st, e).leaving
  {
  }

  /**
   Of parallel first sign-ins the one whose insert is refused returns the row of the one that
   won, while it is active; a statement fails its sign-in only when no active row has the sub
   after a refused insert, or the unique index refuses the link.
   */
  lemma FailsIff(st: State, e: Event, r: int)
    requires Enabled(st, e) && Of(e, r)
    ensures var q, after := st.requests[r], Next(st, e).requests[r].phase;
      && (after.Failed? <==>
            (e.FindAgain? && !OwnsActive(st.rows, q.sub))
            || (e.CommitLink? && q.phase.seen != Some(q.sub) && LinkRefused(st.rows, q.phase.target, q.sub)))
      && (e.FindAgain? && OwnsActive(st.rows, q.sub) ==> after.Done? && ActiveOwner(st.rows, after.id, q.sub))
  {
  }

  /** The statements of one sign-in, with no other in between, do just that. */
  lemma {:induction false} UninterruptedSignIn(before: Table, st: State, es: seq<Event>, r: int)
    requires Possible(st, es) && Unique(before) && (forall i :: 0 <= i < |es| ==> Of(es[i], r))
    requires r in st.requests && Midway(before, st.rows, st.requests[r])
    ensures r in After(st, es).requests && Midway(before, After(st, es).rows, After(st, es).requests[r])
    decreases es
  {
    if es != [] {
      StatementStaysMidway(before, st, es[0], r);
      UninterruptedSignIn(before, Next(st, es[0]), es[1..], r);
    }
  }

  // ---------------------------------------------------------------- the repository

  datatype SignIn = Unauthorized | ServerError | User(companyId: int)

  class CompanyRepository {
    var rows: Table

    constructor ()
      ensures rows == map[]
    {
      rows := map[];
    }

    method GetById(id: int) returns (found: bool)
      ensures found <==> Active(rows, id)
    {
      return id in rows && rows[id].deletedAt.None?;
    }

    method GetByCognitoSub(sub: string) returns (found: Option<int>)
      ensures FindsBySub(rows, sub, found)
    {
      if id :| id in rows && ActiveOwner(rows, id, sub) {
        return Some(id);
      }
      return None;
    }

    method GetByEmail(email: string) returns (found: Option<int>)
      ensures FindsByEmail(rows, Some(email), found)
    {
      if id :| id in rows && HasEmail(rows, id, Some(email)) {
        return Some(id);
      }
      return None;
    }

    method IsWithdrawnSub(sub: string) returns (withdrawn: bool)
      ensures withdrawn <==> WithdrawnSub(rows, sub)
    {
      if id :| id in rows && rows[id].sub == Some(sub) && rows[id].deletedAt.Some? {
        assert Owns(rows, id, sub);
        return true;
      }
      return false;
    }

    method SoftDelete(id: int, now: int) returns (ok: bool)
      modifies this
      ensures ok <==> old(Active(rows, id))
      ensures rows == if ok then SetDeleted(old(rows), id, now) else old(rows)
    {
      var found := GetById(id);
      if !found {
        return false;
      }
      rows := SetDeleted(rows, id, now);
      return true;
    }

    /** An INSERT with the next value of the id sequence, refused by the unique index. */
    method TryInsert(sub: string, email: Option<string>, nextId: int) returns (created: Option<int>)
      requires nextId !in rows
      modifies this
      ensures old(Taken(rows, sub)) ==> created.None? && rows == old(rows)
      ensures !old(Taken(rows, sub)) ==>
        created == Some(nextId) && rows == old(rows)[nextId := Company(Some(sub), email, None)]
    {
      if id :| id in rows && Owns(rows, id, sub) {
        return None;
      }
      rows := rows[nextId := Company(Some(sub), email, None)];
      return Some(nextId);
    }

    /** The UPDATE of a link, refused by the unique index. */
    method TryLink(id: int, sub: string) returns (ok: bool)
      requires id in rows
      modifies this
      ensures ok <==> !old(LinkRefused(rows, id, sub))
      ensures rows == if ok then SetSub(old(rows), id, sub) else old(rows)
    {
      if other :| other in rows && other != id && Owns(rows, other, sub) {
        return false;
      }
      rows := SetSub(rows, id, sub);
      return true;
    }

    method GetOrCreate(sub: string, email: Option<string>, nextId: int) returns (result: Option<int>)
      requires Unique(rows) && nextId !in rows
      modifies this
      ensures SignedIn(old(rows), rows, sub, email, result)
    {
      result := GetByCognitoSub(sub);
      if result.Some? {
        return;
      }
      if Given(email) {
        var existing := GetByEmail(email.value);
        if existing.Some? {
          LinkIsRefusedIffTaken(rows, existing.value, sub);
          var ok := TryLink(existing.value, sub);
          result := if ok then existing else None;
          return;
        }
      }
      assert !SomeHasEmail(rows, email);
      result := TryInsert(sub, email, nextId);
      if result.None? {
        result := GetByCognitoSub(sub);
      }
    }

    /** get_current_user after the token: the gate, then the row. */
    method CurrentUser(sub: string, email: Option<string>, nextId: int) returns (user: SignIn)
      requires Unique(rows) && nextId !in rows
      modifies this
      ensures Unique(rows)
      ensures old(WithdrawnSub(rows, sub)) ==> user == Unauthorized && rows == old(rows)
      ensures !old(WithdrawnSub(rows, sub)) ==>
        user.User? && ActiveOwner(rows, user.companyId, sub) && SignedIn(old(rows), rows, sub, email, Some(user.companyId))
    {
      var withdrawn := IsWithdrawnSub(sub);
      if withdrawn {
        return Unauthorized;
      }
      var result := GetOrCreate(sub, email, nextId);
      SignedInOwns(old(rows), rows, sub, email, result);
      if result.None? {
        return ServerError;
      }
      return User(result.value);
    }
  }
}
