/**
 Chat turns over stored sessions (app/agents/chat_service.py and
 app/infra/db/repositories/chat_repository.py).

 A turn takes the session's mutex, checks the cap, stores the user message, calls the agent
 and stores its answer.  Deleting the session or its last turn does not take the mutex, so
 both can fall between any two steps of a turn.  Each repository call commits at once.
 */
module ChatSessions {
  import opened Wrappers

  type SessionId = string
  type CompanyId = int
  type Context = string

  datatype Role = User | Assistant

  datatype Message = Message(role: Role, content: string)

  /** A session row with its messages in insertion order. */
  datatype Session = Session(owner: CompanyId, context: Option<Context>, deleted: bool, messages: seq<Message>)

  type Sessions = map<SessionId, Session>

  datatype Response = Response(content: string, context: Option<Context>)

  // ---------------------------------------------------------------- histories

  /** Stored user messages: the number of turns. */
  function Turns(h: seq<Message>): nat {
    if h == [] then 0 else Turns(h[..|h| - 1]) + if h[|h| - 1].role.User? then 1 else 0
  }

  predicate Answers(h: seq<Message>, i: nat)
    requires i < |h|
  {
    h[i].role.Assistant? && i > 0 && h[i - 1].role.User?
  }

  /** User messages, each followed by at most one answer. */
  ghost predicate Alternating(h: seq<Message>) {
    forall i :: 0 <= i < |h| && h[i].role.Assistant? ==> Answers(h, i)
  }

  /** Assistant messages that answer no user message directly before them. */
  function Orphans(h: seq<Message>): nat {
    if h == [] then 0
    else Orphans(h[..|h| - 1]) + if h[|h| - 1].role.Assistant? && !Answers(h, |h| - 1) then 1 else 0
  }

  /** How many messages the undo removes: an answer with its question, or the last message alone. */
  function UndoLength(h: seq<Message>): (n: nat)
    ensures n <= |h| && (h != [] ==> n > 0)
  {
    if h == [] then 0 else if Answers(h, |h| - 1) then 2 else 1
  }

  function Undo(h: seq<Message>): seq<Message> {
    h[..|h| - UndoLength(h)]
  }

  /** Undo calls until nothing is left. */
  function UndoCalls(h: seq<Message>): nat
    decreases |h|
  {
    if h == [] then 0 else 1 + UndoCalls(Undo(h))
  }

  lemma {:induction false} NoOrphansIffAlternating(h: seq<Message>)
    ensures Orphans(h) == 0 <==> Alternating(h)
  {
    if h != [] {
      var front := h[..|h| - 1];
      NoOrphansIffAlternating(front);
      assert forall i :: 0 <= i < |front| ==> (Answers(h, i) <==> Answers(front, i));
      if Alternating(front) && !(h[|h| - 1].role.Assistant? && !Answers(h, |h| - 1)) {
        forall i | 0 <= i < |h| && h[i].role.Assistant? ensures Answers(h, i) {
          if i < |front| {
            assert front[i] == h[i];
          }
        }
      }
      if Alternating(h) {
        forall i | 0 <= i < |front| && front[i].role.Assistant? ensures Answers(front, i) {
          assert Answers(h, i);
        }
      }
    }
  }

  /** Undoing empties a history in one call per turn plus one per orphan answer. */
  lemma {:induction false} UndoCallsCount(h: seq<Message>)
    ensures UndoCalls(h) == Turns(h) + Orphans(h)
    decreases |h|
  {
    if h != [] {
      var front := h[..|h| - 1];
      if UndoLength(h) == 2 {
        assert front[..|front| - 1] == Undo(h);
      }
      UndoCallsCount(Undo(h));
    }
  }

  /** So it takes exactly `count_turns` calls if and only if the history alternates. */
  lemma UndoEmptiesInTurnsIffAlternating(h: seq<Message>)
    ensures UndoCalls(h) == Turns(h) <==> Alternating(h)
  {
    UndoCallsCount(h);
    NoOrphansIffAlternating(h);
  }

  /** Undo after a turn restores the history before it, whether the agent answered or failed. */
  lemma UndoReversesATurn(h: seq<Message>, query: string, answer: string)
    ensures Undo(h + [Message(User, query)]) == h
    ensures Undo(h + [Message(User, query), Message(Assistant, answer)]) == h
  {
  }

  /**
   If the undo falls inside an open turn, the answer is stored without its question.  The
   history still alternates exactly when the turn before had failed and left its question
   unanswered, and then the answer is put under that older question.
   */
  lemma UndoInsideATurn(h: seq<Message>, query: string, answer: string)
    requires Alternating(h)
    ensures Undo(h + [Message(User, query)]) == h
    ensures Alternating(h + [Message(Assistant, answer)]) <==> h != [] && h[|h| - 1].role.User?
  {
    UndoReversesATurn(h, query, answer);
    var late := h + [Message(Assistant, answer)];
    assert forall i :: 0 <= i < |h| ==> (Answers(late, i) <==> Answers(h, i));
    if Alternating(late) {
      assert Answers(late, |h|);
    }
  }

  // ---------------------------------------------------------------- repository

  predicate Accessible(db: Sessions, sid: SessionId, cid: CompanyId) {
    sid in db && db[sid].owner == cid && !db[sid].deleted
  }

  /** Somebody else's session, or a deleted one. */
  predicate Forbidden(db: Sessions, sid: SessionId, cid: CompanyId) {
    sid in db && !Accessible(db, sid, cid)
  }

  /** count_turns: zero for a session that does not exist yet. */
  function TurnCount(db: Sessions, sid: SessionId): nat {
    if sid in db then Turns(db[sid].messages) else 0
  }

  /** The context of a session; none before its first answer. */
  function StoredContext(db: Sessions, sid: SessionId): Option<Context> {
    if sid in db then db[sid].context else None
  }

  function Append(s: Session, m: Message): Session {
    s.(messages := s.messages + [m])
  }

  function Opened(db: Sessions, sid: SessionId, cid: CompanyId, query: string): Sessions
    requires !Forbidden(db, sid, cid)
  {
    var row := if sid in db then db[sid] else Session(cid, None, false, []);
    db[sid := Append(row, Message(User, query))]
  }

  function Closed(db: Sessions, sid: SessionId, r: Response): Sessions
    requires sid in db
  {
    db[sid := Append(db[sid], Message(Assistant, r.content)).(context := r.context)]
  }

  function SoftDeleted(db: Sessions, sid: SessionId): Sessions
    requires sid in db
  {
    db[sid := db[sid].(deleted := true)]
  }

  function LastTurnDeleted(db: Sessions, sid: SessionId): Sessions
    requires sid in db
  {
    if db[sid].messages == [] then db
    else db[sid := db[sid].(messages := Undo(db[sid].messages), context := None)]
  }

  /** Undo after a whole turn: the stored history is the earlier one and the context is gone. */
  lemma DeleteLastTurnReversesATurn(db: Sessions, sid: SessionId, cid: CompanyId, query: string, r: Response)
    requires !Forbidden(db, sid, cid)
    ensures
      var failed := LastTurnDeleted(Opened(db, sid, cid, query), sid);
      var answered := LastTurnDeleted(Closed(Opened(db, sid, cid, query), sid, r), sid);
      var before := if sid in db then db[sid] else Session(cid, None, false, []);
      failed == answered == db[sid := before.(context := None)]
  {
    var before := if sid in db then db[sid] else Session(cid, None, false, []);
    UndoReversesATurn(before.messages, query, r.content);
    assert before.messages + [Message(User, query)] + [Message(Assistant, r.content)]
        == before.messages + [Message(User, query), Message(Assistant, r.content)];
  }

  // ---------------------------------------------------------------- interleavings

  type TurnId = nat

  /** A running turn carries the context its agent was given. */
  datatype Phase = Entered | Counted | Running(context: Option<Context>)

  /** A turn between taking and leaving the mutex; `given` tells whether the client named the session. */
  datatype Turn = Turn(sid: SessionId, cid: CompanyId, query: string, given: bool, phase: Phase)

  datatype State = State(db: Sessions, inflight: set<SessionId>, turns: map<TurnId, Turn>)

  datatype Event =
    | Enter(t: TurnId, turn: Turn)
    | CountTurns(t: TurnId)
    | OpenTurn(t: TurnId)
    | AgentFails(t: TurnId)
    | CloseTurn(t: TurnId, response: Response)
    | SoftDelete(sid: SessionId, cid: CompanyId)
    | DeleteLastTurn(sid: SessionId, cid: CompanyId)

  function Leave(s: State, t: TurnId): State
    requires t in s.turns
  {
    s.(inflight := s.inflight - {s.turns[t].sid}, turns := s.turns - {t})
  }

  /** A turn may enter with any client's session id, or with a fresh one the server drew. */
  predicate Enabled(s: State, e: Event) {
    match e
    case Enter(t, turn) => t !in s.turns && turn.phase.Entered? && (!turn.given ==> turn.sid !in s.db && turn.sid !in s.inflight)
    case CountTurns(t) => t in s.turns && s.turns[t].phase.Entered?
    case OpenTurn(t) => t in s.turns && s.turns[t].phase.Counted?
    case AgentFails(t) => t in s.turns && s.turns[t].phase.Running?
    case CloseTurn(t, _) => t in s.turns && s.turns[t].phase.Running? && s.turns[t].sid in s.db
    case SoftDelete(_, _) => true
    case DeleteLastTurn(_, _) => true
  }

  function Apply(s: State, e: Event, cap: nat): State
    requires Enabled(s, e)
  {
    match e
    case Enter(t, turn) =>
      if turn.sid in s.inflight then s
      else s.(inflight := s.inflight + {turn.sid}, turns := s.turns[t := turn])
    case CountTurns(t) =>
      var turn := s.turns[t];
      if turn.given && (Forbidden(s.db, turn.sid, turn.cid) || TurnCount(s.db, turn.sid) >= cap)
      then Leave(s, t)
      else s.(turns := s.turns[t := turn.(phase := Counted)])
    case OpenTurn(t) =>
      var turn := s.turns[t];
      if Forbidden(s.db, turn.sid, turn.cid) then Leave(s, t)
      else s.(db := Opened(s.db, turn.sid, turn.cid, turn.query), turns := s.turns[t := turn.(phase := Running(StoredContext(s.db, turn.sid)))])
    case AgentFails(t) => Leave(s, t)
    case CloseTurn(t, r) => Leave(s.(db := Closed(s.db, s.turns[t].sid, r)), t)
    case SoftDelete(sid, cid) => if Accessible(s.db, sid, cid) then s.(db := SoftDeleted(s.db, sid)) else s
    case DeleteLastTurn(sid, cid) => if Accessible(s.db, sid, cid) then s.(db := LastTurnDeleted(s.db, sid)) else s
  }

  /** A turn on the session is waiting for the agent. */
  ghost predicate RunningOn(s: State, sid: SessionId) {
    exists t :: t in s.turns && s.turns[t].sid == sid && s.turns[t].phase.Running?
  }

  /** Turns hold their sessions' mutex: at most one turn per session. */
  ghost predicate Exclusive(s: State) {
    && (forall t :: t in s.turns ==> s.turns[t].sid in s.inflight)
    && (forall t, u :: t in s.turns && u in s.turns && s.turns[t].sid == s.turns[u].sid ==> t == u)
  }

  /** No session is over the cap, nor will be when a counted turn opens. */
  ghost predicate Capped(s: State, cap: nat) {
    && (forall sid :: sid in s.db ==> Turns(s.db[sid].messages) <= cap)
    && (forall t :: t in s.turns && s.turns[t].phase.Counted? && s.turns[t].sid in s.db
          ==> Turns(s.db[s.turns[t].sid].messages) < cap)
  }

  /** Server-drawn sessions appear only when opened; an open turn belongs to the session's owner. */
  ghost predicate Owned(s: State) {
    && (forall t :: t in s.turns && !s.turns[t].phase.Running? && !s.turns[t].given ==> s.turns[t].sid !in s.db)
    && (forall t :: t in s.turns && s.turns[t].phase.Running?
          ==> s.turns[t].sid in s.db && s.db[s.turns[t].sid].owner == s.turns[t].cid)
  }

  ghost predicate Inv(s: State, cap: nat) {
    Exclusive(s) && Capped(s, cap) && Owned(s)
  }

  lemma TurnsOfAppend(h: seq<Message>, m: Message)
    ensures Turns(h + [m]) == Turns(h) + if m.role.User? then 1 else 0
  {
    assert (h + [m])[..|h|] == h;
  }

  lemma {:induction false} TurnsOfPrefix(h: seq<Message>, n: nat)
    requires n <= |h|
    ensures Turns(h[..n]) <= Turns(h)
  {
    if n < |h| {
      TurnsOfPrefix(h[..|h| - 1], n);
      assert h[..|h| - 1][..n] == h[..n];
    } else {
      assert h[..n] == h;
    }
  }

  lemma LeaveKeepsInv(s: State, t: TurnId, cap: nat)
    requires Inv(s, cap) && t in s.turns
    ensures Inv(Leave(s, t), cap)
  {
  }

  lemma OpenKeepsCap(s: State, t: TurnId, cap: nat)
    requires cap >= 1 && Exclusive(s) && Capped(s, cap) && Enabled(s, OpenTurn(t))
    requires !Forbidden(s.db, s.turns[t].sid, s.turns[t].cid)
    ensures Capped(Apply(s, OpenTurn(t), cap), cap)
  {
    var turn := s.turns[t];
    TurnsOfAppend(if turn.sid in s.db then s.db[turn.sid].messages else [], Message(User, turn.query));
  }

  lemma OpenKeepsOwners(s: State, t: TurnId, cap: nat)
    requires Exclusive(s) && Owned(s) && Enabled(s, OpenTurn(t))
    requires !Forbidden(s.db, s.turns[t].sid, s.turns[t].cid)
    ensures Exclusive(Apply(s, OpenTurn(t), cap)) && Owned(Apply(s, OpenTurn(t), cap))
  {
    var turn := s.turns[t];
    var s' := Apply(s, OpenTurn(t), cap);
    assert forall u :: u in s'.turns && u != t ==> s'.turns[u] == s.turns[u] && s.turns[u].sid != turn.sid;
  }

  lemma OpenKeepsInv(s: State, t: TurnId, cap: nat)
    requires cap >= 1 && Inv(s, cap) && Enabled(s, OpenTurn(t))
    ensures Inv(Apply(s, OpenTurn(t), cap), cap)
  {
    if Forbidden(s.db, s.turns[t].sid, s.turns[t].cid) {
      LeaveKeepsInv(s, t, cap);
      assert Apply(s, OpenTurn(t), cap) == Leave(s, t);
    } else {
      OpenKeepsCap(s, t, cap);
      OpenKeepsOwners(s, t, cap);
    }
  }

  lemma CloseKeepsInv(s: State, t: TurnId, r: Response, cap: nat)
    requires Inv(s, cap) && Enabled(s, CloseTurn(t, r))
    ensures Inv(Apply(s, CloseTurn(t, r), cap), cap)
  {
    TurnsOfAppend(s.db[s.turns[t].sid].messages, Message(Assistant, r.content));
    LeaveKeepsInv(s.(db := Closed(s.db, s.turns[t].sid, r)), t, cap);
  }

  lemma CountKeepsInv(s: State, t: TurnId, cap: nat)
    requires Inv(s, cap) && Enabled(s, CountTurns(t))
    ensures Inv(Apply(s, CountTurns(t), cap), cap)
  {
    LeaveKeepsInv(s, t, cap);
  }

  lemma DeleteKeepsInv(s: State, sid: SessionId, cid: CompanyId, cap: nat)
    requires Inv(s, cap)
    ensures Inv(Apply(s, SoftDelete(sid, cid), cap), cap)
    ensures Inv(Apply(s, DeleteLastTurn(sid, cid), cap), cap)
  {
    if Accessible(s.db, sid, cid) {
      var h := s.db[sid].messages;
      TurnsOfPrefix(h, |h| - UndoLength(h));
    }
  }

  lemma StepKeepsInv(s: State, e: Event, cap: nat)
    requires cap >= 1 && Inv(s, cap) && Enabled(s, e)
    ensures Inv(Apply(s, e, cap), cap)
  {
    match e
    case OpenTurn(t) => OpenKeepsInv(s, t, cap);
    case CloseTurn(t, r) => CloseKeepsInv(s, t, r, cap);
    case SoftDelete(sid, cid) => DeleteKeepsInv(s, sid, cid, cap);
    case DeleteLastTurn(sid, cid) => DeleteKeepsInv(s, sid, cid, cap);
    case Enter(_, _) =>
    case CountTurns(t) => CountKeepsInv(s, t, cap);
    case AgentFails(t) => LeaveKeepsInv(s, t, cap);
  }

  // ---------------------------------------------------------------- runs

  ghost predicate IsRun(trace: seq<State>, events: seq<Event>, cap: nat) {
    && |trace| == |events| + 1
    && forall i :: 0 <= i < |events| ==> Enabled(trace[i], events[i]) && trace[i + 1] == Apply(trace[i], events[i], cap)
  }

  lemma {:induction false} RunsKeepInv(trace: seq<State>, events: seq<Event>, cap: nat)
    requires cap >= 1 && IsRun(trace, events, cap) && Inv(trace[0], cap)
    ensures Inv(trace[|events|], cap)
  {
    if events != [] {
      var n := |events| - 1;
      assert IsRun(trace[..n + 1], events[..n], cap);
      RunsKeepInv(trace[..n + 1], events[..n], cap);
      StepKeepsInv(trace[n], events[n], cap);
    }
  }

  /** In every interleaving a session has at most one turn in flight and at most `cap` user messages. */
  lemma OneTurnInFlightAndCapped(trace: seq<State>, events: seq<Event>, cap: nat, i: nat, sid: SessionId)
    requires cap >= 1 && IsRun(trace, events, cap) && trace[0].turns == map[] && i < |trace|
    requires forall x :: x in trace[0].db ==> Turns(trace[0].db[x].messages) <= cap
    ensures forall t, u :: t in trace[i].turns && u in trace[i].turns && trace[i].turns[t].sid == trace[i].turns[u].sid ==> t == u
    ensures TurnCount(trace[i].db, sid) <= cap
  {
    assert IsRun(trace[..i + 1], events[..i], cap);
    RunsKeepInv(trace[..i + 1], events[..i], cap);
  }

  /** A session never changes hands, and stays deleted. */
  lemma {:induction false} OwnersNeverChange(trace: seq<State>, events: seq<Event>, cap: nat, sid: SessionId)
    requires IsRun(trace, events, cap) && sid in trace[0].db
    ensures sid in trace[|events|].db && trace[|events|].db[sid].owner == trace[0].db[sid].owner
    ensures trace[0].db[sid].deleted ==> trace[|events|].db[sid].deleted
  {
    if events != [] {
      var n := |events| - 1;
      assert IsRun(trace[..n + 1], events[..n], cap);
      OwnersNeverChange(trace[..n + 1], events[..n], cap, sid);
    }
  }

  /** What a deleted session may still receive: the one answer its turn in flight was waiting for. */
  ghost predicate AtMostOneLateAnswer(s: State, sid: SessionId, h: seq<Message>) {
    && sid in s.db && s.db[sid].deleted
    && (RunningOn(s, sid) ==> s.db[sid].messages == h)
    && (s.db[sid].messages == h ||
        (|s.db[sid].messages| == |h| + 1 && s.db[sid].messages[..|h|] == h && s.db[sid].messages[|h|].role.Assistant?))
  }

  lemma StepAfterDeletion(s: State, e: Event, cap: nat, sid: SessionId, h: seq<Message>)
    requires cap >= 1 && Inv(s, cap) && Enabled(s, e) && AtMostOneLateAnswer(s, sid, h)
    ensures AtMostOneLateAnswer(Apply(s, e, cap), sid, h)
  {
    var s' := Apply(s, e, cap);
    if RunningOn(s', sid) {
      var t :| t in s'.turns && s'.turns[t].sid == sid && s'.turns[t].phase.Running?;
      assert t in s.turns && s.turns[t] == s'.turns[t];
    }
    if e.CloseTurn? && s.turns[e.t].sid == sid {
      assert RunningOn(s, sid);
      assert s'.db[sid].messages == h + [Message(Assistant, e.response.content)];
    }
  }

  /** Once deleted, a session gets no further user message and at most one more message, an answer, in any continuation. */
  lemma {:induction false} DeletedSessionsGoQuiet(trace: seq<State>, events: seq<Event>, cap: nat, sid: SessionId)
    requires cap >= 1 && IsRun(trace, events, cap) && Inv(trace[0], cap)
    requires sid in trace[0].db && trace[0].db[sid].deleted
    ensures AtMostOneLateAnswer(trace[|events|], sid, trace[0].db[sid].messages)
    ensures Turns(trace[|events|].db[sid].messages) == Turns(trace[0].db[sid].messages)
  {
    if events != [] {
      var n := |events| - 1;
      assert IsRun(trace[..n + 1], events[..n], cap);
      DeletedSessionsGoQuiet(trace[..n + 1], events[..n], cap, sid);
      RunsKeepInv(trace[..n + 1], events[..n], cap);
      StepAfterDeletion(trace[n], events[n], cap, sid, trace[0].db[sid].messages);
      var end := trace[|events|].db[sid].messages;
      assert end == trace[0].db[sid].messages || end[..|end| - 1] == trace[0].db[sid].messages;
    }
  }

  /** Only the owner's delete of a session that is not yet deleted marks it, and nothing else of the state changes. */
  lemma DeleteMarks(s: State, sid: SessionId, cid: CompanyId, cap: nat)
    ensures var s' := Apply(s, SoftDelete(sid, cid), cap);
      if sid in s.db && s.db[sid].owner == cid && !s.db[sid].deleted
      then s' == State(s.db[sid := Session(cid, s.db[sid].context, true, s.db[sid].messages)], s.inflight, s.turns)
      else s' == s
  {
  }

  /** From its owner's delete on, whatever is under way, a session gets at most one more message, an answer. */
  lemma DeleteQuiets(trace: seq<State>, events: seq<Event>, cap: nat, i: nat, sid: SessionId, cid: CompanyId)
    requires cap >= 1 && IsRun(trace, events, cap) && Inv(trace[0], cap)
    requires i < |events| && events[i] == SoftDelete(sid, cid) && Accessible(trace[i].db, sid, cid)
    ensures AtMostOneLateAnswer(trace[|events|], sid, trace[i].db[sid].messages)
  {
    assert IsRun(trace[..i + 1], events[..i], cap);
    RunsKeepInv(trace[..i + 1], events[..i], cap);
    assert trace[i + 1] == Apply(trace[i], events[i], cap);
    DeleteKeepsInv(trace[i], sid, cid, cap);
    assert IsRun(trace[i + 1..], events[i + 1..], cap);
    DeletedSessionsGoQuiet(trace[i + 1..], events[i + 1..], cap, sid);
  }

  // ---------------------------------------------------------------- histories over runs

  /** No undo falls inside an open turn of its session. */
  predicate UndoWaits(s: State, e: Event) {
    e.DeleteLastTurn? ==> forall t :: t in s.turns && s.turns[t].sid == e.sid ==> !s.turns[t].phase.Running?
  }

  /** Every history alternates, and one with an open turn ends in that turn's question. */
  ghost predicate Ordered(s: State) {
    && (forall sid :: sid in s.db ==> Alternating(s.db[sid].messages))
    && (forall t :: t in s.turns && s.turns[t].phase.Running? && s.turns[t].sid in s.db ==>
          var h := s.db[s.turns[t].sid].messages;
          h != [] && h[|h| - 1] == Message(User, s.turns[t].query))
  }

  lemma AppendAlternates(h: seq<Message>, m: Message)
    requires Alternating(h) && (m.role.Assistant? ==> h != [] && h[|h| - 1].role.User?)
    ensures Alternating(h + [m])
  {
    var longer := h + [m];
    forall i | 0 <= i < |longer| && longer[i].role.Assistant? ensures Answers(longer, i) {
      if i < |h| {
        assert Answers(h, i);
      }
    }
  }

  lemma PrefixAlternates(h: seq<Message>, n: nat)
    requires Alternating(h) && n <= |h|
    ensures Alternating(h[..n])
  {
    forall i | 0 <= i < n && h[..n][i].role.Assistant? ensures Answers(h[..n], i) {
      assert Answers(h, i);
    }
  }

  lemma OpenKeepsOrder(s: State, t: TurnId, cap: nat)
    requires Exclusive(s) && Ordered(s) && Enabled(s, OpenTurn(t))
    ensures Ordered(Apply(s, OpenTurn(t), cap))
  {
    var turn, s' := s.turns[t], Apply(s, OpenTurn(t), cap);
    if !Forbidden(s.db, turn.sid, turn.cid) {
      OpenedAlternates(s.db, turn.sid, turn.cid, turn.query);
      forall u | u in s'.turns && s'.turns[u].phase.Running? && s'.turns[u].sid in s'.db
        ensures var h := s'.db[s'.turns[u].sid].messages; h != [] && h[|h| - 1] == Message(User, s'.turns[u].query)
      {
        assert u != t ==> s'.turns[u] == s.turns[u] && s.turns[u].sid != turn.sid;
      }
    }
  }

  lemma OpenedAlternates(db: Sessions, sid: SessionId, cid: CompanyId, query: string)
    requires !Forbidden(db, sid, cid) && forall x :: x in db ==> Alternating(db[x].messages)
    ensures var db' := Opened(db, sid, cid, query);
      && (forall x :: x in db' ==> Alternating(db'[x].messages))
      && db'[sid].messages != [] && db'[sid].messages[|db'[sid].messages| - 1] == Message(User, query)
      && forall x :: x != sid ==> (x in db' <==> x in db) && (x in db ==> db'[x] == db[x])
  {
    AppendAlternates(if sid in db then db[sid].messages else [], Message(User, query));
  }

  lemma CloseKeepsOrder(s: State, t: TurnId, r: Response, cap: nat)
    requires Exclusive(s) && Ordered(s) && Enabled(s, CloseTurn(t, r))
    ensures Ordered(Apply(s, CloseTurn(t, r), cap))
  {
    var sid := s.turns[t].sid;
    AppendAlternates(s.db[sid].messages, Message(Assistant, r.content));
    var s' := Apply(s, CloseTurn(t, r), cap);
    assert forall u :: u in s'.turns ==> s'.turns[u] == s.turns[u] && s.turns[u].sid != sid;
  }

  lemma UndoKeepsOrder(s: State, sid: SessionId, cid: CompanyId, cap: nat)
    requires Ordered(s) && UndoWaits(s, DeleteLastTurn(sid, cid))
    ensures Ordered(Apply(s, DeleteLastTurn(sid, cid), cap))
  {
    if Accessible(s.db, sid, cid) {
      var h := s.db[sid].messages;
      PrefixAlternates(h, |h| - UndoLength(h));
    }
  }

  lemma StepKeepsOrder(s: State, e: Event, cap: nat)
    requires cap >= 1 && Inv(s, cap) && Ordered(s) && Enabled(s, e) && UndoWaits(s, e)
    ensures Ordered(Apply(s, e, cap))
  {
    match e
    case OpenTurn(t) => OpenKeepsOrder(s, t, cap);
    case CloseTurn(t, r) => CloseKeepsOrder(s, t, r, cap);
    case DeleteLastTurn(sid, cid) => UndoKeepsOrder(s, sid, cid, cap);
    case Enter(_, _) =>
    case CountTurns(_) =>
    case AgentFails(_) =>
    case SoftDelete(_, _) =>
  }

  /** In runs whose undos wait for open turns, every history alternates and can be undone in exactly `count_turns` calls. */
  lemma {:induction false} HistoriesAlternate(trace: seq<State>, events: seq<Event>, cap: nat)
    requires cap >= 1 && IsRun(trace, events, cap) && Inv(trace[0], cap) && Ordered(trace[0])
    requires forall i :: 0 <= i < |events| ==> UndoWaits(trace[i], events[i])
    ensures Ordered(trace[|events|])
    ensures forall sid :: sid in trace[|events|].db ==> UndoCalls(trace[|events|].db[sid].messages) == TurnCount(trace[|events|].db, sid)
  {
    if events != [] {
      var n := |events| - 1;
      assert IsRun(trace[..n + 1], events[..n], cap);
      HistoriesAlternate(trace[..n + 1], events[..n], cap);
      RunsKeepInv(trace[..n + 1], events[..n], cap);
      StepKeepsOrder(trace[n], events[n], cap);
    }
    forall sid | sid in trace[|events|].db
      ensures UndoCalls(trace[|events|].db[sid].messages) == TurnCount(trace[|events|].db, sid)
    {
      UndoEmptiesInTurnsIffAlternating(trace[|events|].db[sid].messages);
    }
  }

  ghost predicate AllAlternate(s: State) {
    forall sid :: sid in s.db ==> Alternating(s.db[sid].messages)
  }

  /** An answer is about to be stored under a question, not where one has been undone. */
  predicate AnswersAQuestion(s: State, e: Event) {
    e.CloseTurn? && e.t in s.turns && s.turns[e.t].sid in s.db ==>
      var h := s.db[s.turns[e.t].sid].messages;
      h != [] && h[|h| - 1].role.User?
  }

  lemma AlternatingAppendIff(h: seq<Message>, m: Message)
    requires Alternating(h)
    ensures Alternating(h + [m]) <==> (m.role.Assistant? ==> h != [] && h[|h| - 1].role.User?)
  {
    if m.role.User? || (h != [] && h[|h| - 1].role.User?) {
      AppendAlternates(h, m);
    }
    assert Alternating(h + [m]) && m.role.Assistant? ==> Answers(h + [m], |h|);
  }

  /** A step keeps all histories alternating exactly when an answer it stores has its question. */
  lemma StepAlternatesIffAnswered(s: State, e: Event, cap: nat)
    requires AllAlternate(s) && Enabled(s, e)
    ensures AllAlternate(Apply(s, e, cap)) <==> AnswersAQuestion(s, e)
  {
    match e
    case OpenTurn(t) =>
      var turn := s.turns[t];
      AppendAlternates(if turn.sid in s.db then s.db[turn.sid].messages else [], Message(User, turn.query));
    case CloseTurn(t, r) =>
      var sid := s.turns[t].sid;
      AlternatingAppendIff(s.db[sid].messages, Message(Assistant, r.content));
      assert Apply(s, e, cap).db[sid].messages == s.db[sid].messages + [Message(Assistant, r.content)];
    case DeleteLastTurn(sid, cid) =>
      if Accessible(s.db, sid, cid) {
        var h := s.db[sid].messages;
        PrefixAlternates(h, |h| - UndoLength(h));
      }
    case SoftDelete(_, _) =>
    case Enter(_, _) =>
    case CountTurns(_) =>
    case AgentFails(_) =>
  }

  ghost predicate AlwaysAlternates(trace: seq<State>) {
    forall i :: 0 <= i < |trace| ==> AllAlternate(trace[i])
  }

  ghost predicate AlwaysAnswersAQuestion(trace: seq<State>, events: seq<Event>)
    requires |trace| == |events| + 1
  {
    forall i :: 0 <= i < |events| ==> AnswersAQuestion(trace[i], events[i])
  }

  lemma LastEvent(trace: seq<State>, events: seq<Event>, cap: nat)
    requires IsRun(trace, events, cap) && events != []
    ensures var n := |events| - 1;
      && IsRun(trace[..n + 1], events[..n], cap)
      && (AlwaysAlternates(trace) <==> AlwaysAlternates(trace[..n + 1]) && AllAlternate(trace[n + 1]))
      && (AlwaysAlternates(trace[..n + 1]) ==> AllAlternate(trace[n]))
      && (AlwaysAnswersAQuestion(trace, events) <==>
            AlwaysAnswersAQuestion(trace[..n + 1], events[..n]) && AnswersAQuestion(trace[n], events[n]))
  {
    var n := |events| - 1;
    assert trace == trace[..n + 1] + [trace[n + 1]] && events == events[..n] + [events[n]];
    assert trace[..n + 1][n] == trace[n];
  }

  /**
   In any run, whatever deletes fall into open turns, all histories alternate throughout if
   and only if every answer is stored under a question.
   */
  lemma {:induction false} RunsAlternateIffAnswered(trace: seq<State>, events: seq<Event>, cap: nat)
    requires IsRun(trace, events, cap) && AllAlternate(trace[0])
    ensures AlwaysAlternates(trace) <==> AlwaysAnswersAQuestion(trace, events)
  {
    if events != [] {
      var n := |events| - 1;
      LastEvent(trace, events, cap);
      RunsAlternateIffAnswered(trace[..n + 1], events[..n], cap);
      if AllAlternate(trace[n]) {
        StepAlternatesIffAnswered(trace[n], events[n], cap);
      }
    }
  }

  /** A first turn whose question is deleted before the agent has answered. */
  function UndoneTurn(turn: Turn, r: Response): seq<Event> {
    [Enter(0, turn), CountTurns(0), OpenTurn(0), DeleteLastTurn(turn.sid, turn.cid), CloseTurn(0, r)]
  }

  function UndoneTurnState(turn: Turn, r: Response, n: nat): State {
    var empty := Session(turn.cid, None, false, []);
    if n == 0 then State(map[], {}, map[])
    else if n == 1 then State(map[], {turn.sid}, map[0 := turn])
    else if n == 2 then State(map[], {turn.sid}, map[0 := turn.(phase := Counted)])
    else if n == 3 then
      State(map[turn.sid := empty.(messages := [Message(User, turn.query)])], {turn.sid}, map[0 := turn.(phase := Running(None))])
    else if n == 4 then State(map[turn.sid := empty], {turn.sid}, map[0 := turn.(phase := Running(None))])
    else State(map[turn.sid := empty.(messages := [Message(Assistant, r.content)], context := r.context)], {}, map[])
  }

  ghost predicate UndoneTurnSteps(turn: Turn, r: Response, cap: nat, n: nat)
    requires n < 5
  {
    Enabled(UndoneTurnState(turn, r, n), UndoneTurn(turn, r)[n])
    && SameState(Apply(UndoneTurnState(turn, r, n), UndoneTurn(turn, r)[n], cap), UndoneTurnState(turn, r, n + 1))
  }

  ghost predicate SameState(a: State, b: State) {
    a.db == b.db && a.inflight == b.inflight && a.turns == b.turns
  }

  lemma UndoneTurnAsks(turn: Turn, r: Response, cap: nat, n: nat)
    requires cap >= 1 && turn.phase.Entered? && n < 3
    ensures UndoneTurnSteps(turn, r, cap, n)
  {
    assert [] + [Message(User, turn.query)] == [Message(User, turn.query)];
  }

  lemma UndoneTurnAnswers(turn: Turn, r: Response, cap: nat, n: nat)
    requires 3 <= n < 5
    ensures UndoneTurnSteps(turn, r, cap, n)
  {
    var asked, answered := [Message(User, turn.query)], [Message(Assistant, r.content)];
    assert Undo(asked) == [];
    assert [] + answered == answered;
  }

  /** For every first turn that is a run, and it leaves the answer without a question. */
  lemma UndoneTurnOrphansItsAnswer(turn: Turn, r: Response, cap: nat) returns (trace: seq<State>)
    requires cap >= 1 && turn.phase.Entered?
    ensures IsRun(trace, UndoneTurn(turn, r), cap) && trace[0] == State(map[], {}, map[])
    ensures var end := trace[5].db;
      turn.sid in end && end[turn.sid].messages == [Message(Assistant, r.content)] && !Alternating(end[turn.sid].messages)
  {
    trace := seq(6, n requires 0 <= n < 6 => UndoneTurnState(turn, r, n));
    var events := UndoneTurn(turn, r);
    forall n: int | 0 <= n < |events|
      ensures Enabled(trace[n], events[n]) && trace[n + 1] == Apply(trace[n], events[n], cap)
    {
      if n < 3 {
        UndoneTurnAsks(turn, r, cap, n);
      } else {
        UndoneTurnAnswers(turn, r, cap, n);
      }
      assert UndoneTurnSteps(turn, r, cap, n);
    }
    assert !Answers([Message(Assistant, r.content)], 0);
  }

  // ---------------------------------------------------------------- what the agent is given

  predicate StoresAnswer(s: State, e: Event, sid: SessionId) {
    e.CloseTurn? && e.t in s.turns && s.turns[e.t].sid == sid
  }

  predicate UndoesATurn(s: State, e: Event, sid: SessionId) {
    e.DeleteLastTurn? && e.sid == sid && Accessible(s.db, sid, e.cid) && s.db[sid].messages != []
  }

  /** From point `i` to point `n` of a run no answer is stored in the session and none of its turns undone. */
  ghost predicate LeftAlone(trace: seq<State>, events: seq<Event>, sid: SessionId, i: nat, n: nat)
    requires |trace| == |events| + 1 && n <= |events|
  {
    forall j :: i <= j < n ==> !StoresAnswer(trace[j], events[j], sid) && !UndoesATurn(trace[j], events[j], sid)
  }

  lemma {:induction false} ContextStays(trace: seq<State>, events: seq<Event>, cap: nat, sid: SessionId, i: nat, n: nat)
    requires IsRun(trace, events, cap) && i <= n <= |events| && LeftAlone(trace, events, sid, i, n)
    ensures StoredContext(trace[n].db, sid) == StoredContext(trace[i].db, sid)
  {
    if i < n {
      ContextStays(trace, events, cap, sid, i, n - 1);
      assert trace[n] == Apply(trace[n - 1], events[n - 1], cap);
    }
  }

  /**
   In any run the agent of a turn is given the context of the last answer stored in its session,
   as it came; none after an undone turn or in a new session; and otherwise what the session had.
   */
  lemma AgentGetsTheLastContext(trace: seq<State>, events: seq<Event>, cap: nat, sid: SessionId, i: nat, n: nat, t: TurnId)
    requires IsRun(trace, events, cap) && i <= n < |events| && LeftAlone(trace, events, sid, i, n)
    requires events[n] == OpenTurn(t) && Enabled(trace[n], events[n]) && trace[n].turns[t].sid == sid
    requires !Forbidden(trace[n].db, sid, trace[n].turns[t].cid)
    ensures t in trace[n + 1].turns && trace[n + 1].turns[t].phase.Running?
    ensures var given := trace[n + 1].turns[t].phase.context;
      && given == StoredContext(trace[i].db, sid)
      && (i > 0 && StoresAnswer(trace[i - 1], events[i - 1], sid) ==> given == events[i - 1].response.context)
      && (i > 0 && UndoesATurn(trace[i - 1], events[i - 1], sid) ==> given == None)
      && (sid !in trace[i].db ==> given == None)
  {
    ContextStays(trace, events, cap, sid, i, n);
    assert trace[n + 1] == Apply(trace[n], events[n], cap);
    if i > 0 {
      assert trace[i] == Apply(trace[i - 1], events[i - 1], cap);
    }
  }

  // ---------------------------------------------------------------- the service

  datatype Reply = Busy | NotFound | TooLong | AgentFailed | Answered(response: Response)

  /** The agent, as an oracle of the question and the context of the last successful turn. */
  type Agent = (string, Option<Context>) -> Option<Response>

  /**
   A whole call: `db'` are the sessions after it.  The agent is called only for an accessible
   or new session below the cap, and then with the stored context.
   */
  ghost predicate ChatOutcome(
    db: Sessions, inflight: set<SessionId>, turn: Turn, cap: nat, agent: Agent, reply: Reply, db': Sessions)
  {
    var sid, cid, query := turn.sid, turn.cid, turn.query;
    && (reply.Busy? <==> sid in inflight)
    && (reply.NotFound? <==> sid !in inflight && Forbidden(db, sid, cid))
    && (reply.TooLong? <==> sid !in inflight && !Forbidden(db, sid, cid) && turn.given && TurnCount(db, sid) >= cap)
    && (reply.Busy? || reply.NotFound? || reply.TooLong? ==> db' == db)
    && (reply.AgentFailed? || reply.Answered? ==>
          && !Forbidden(db, sid, cid)
          && agent(query, StoredContext(db, sid)) == (if reply.Answered? then Some(reply.response) else None)
          && db' == if reply.Answered? then Closed(Opened(db, sid, cid, query), sid, reply.response) else Opened(db, sid, cid, query))
  }

  class AgentChatService {
    const cap: nat
    var sessions: Sessions
    var inflight: set<SessionId>

    constructor (cap: nat)
      ensures this.cap == cap && sessions == map[] && inflight == {}
    {
      this.cap := cap;
      sessions, inflight := map[], {};
    }

    method CountTurns(sid: SessionId, cid: CompanyId) returns (n: Option<nat>)
      ensures n == if Forbidden(sessions, sid, cid) then None else Some(TurnCount(sessions, sid))
    {
      if sid !in sessions {
        return Some(0);
      }
      var row := sessions[sid];
      if row.owner != cid || row.deleted {
        return None;
      }
      var count, i := 0, 0;
      while i < |row.messages|
        invariant 0 <= i <= |row.messages| && count == Turns(row.messages[..i])
      {
        assert row.messages[..i + 1][..i] == row.messages[..i];
        if row.messages[i].role.User? {
          count := count + 1;
        }
        i := i + 1;
      }
      assert row.messages[..i] == row.messages;
      return Some(count);
    }

    method OpenTurn(sid: SessionId, cid: CompanyId, query: string) returns (ok: bool, context: Option<Context>)
      modifies this`sessions
      ensures ok <==> !Forbidden(old(sessions), sid, cid)
      ensures sessions == if ok then Opened(old(sessions), sid, cid, query) else old(sessions)
      ensures ok ==> context == StoredContext(old(sessions), sid)
    {
      ok, context := true, None;
      if sid in sessions {
        var row := sessions[sid];
        if row.owner != cid || row.deleted {
          return false, None;
        }
        context := row.context;
      } else {
        sessions := sessions[sid := Session(cid, None, false, [])];
      }
      sessions := sessions[sid := Append(sessions[sid], Message(User, query))];
    }

    method CloseTurn(sid: SessionId, r: Response)
      requires sid in sessions
      modifies this`sessions
      ensures sessions == Closed(old(sessions), sid, r)
    {
      var row := Append(sessions[sid], Message(Assistant, r.content));
      sessions := sessions[sid := row.(context := r.context)];
    }

    /** soft_delete_session: false when the session is not the caller's or already deleted. */
    method SoftDeleteSession(sid: SessionId, cid: CompanyId) returns (ok: bool)
      modifies this`sessions
      ensures ok <==> Accessible(old(sessions), sid, cid)
      ensures ok ==> sessions == old(sessions)[sid := old(sessions)[sid].(deleted := true)]
      ensures !ok ==> sessions == old(sessions)
    {
      if sid !in sessions || sessions[sid].owner != cid || sessions[sid].deleted {
        return false;
      }
      sessions := sessions[sid := sessions[sid].(deleted := true)];
      return true;
    }

    /** delete_last_turn: None for a forbidden session, else how many messages were removed. */
    method DeleteLastTurn(sid: SessionId, cid: CompanyId) returns (removed: Option<nat>)
      modifies this`sessions
      ensures removed.Some? <==> Accessible(old(sessions), sid, cid)
      ensures removed.Some? ==> removed.value == UndoLength(old(sessions)[sid].messages)
      ensures sessions == if removed.Some? then LastTurnDeleted(old(sessions), sid) else old(sessions)
    {
      if sid !in sessions || sessions[sid].owner != cid || sessions[sid].deleted {
        return None;
      }
      var h := sessions[sid].messages;
      if h == [] {
        return Some(0);
      }
      var victims := 1;
      if h[|h| - 1].role.Assistant? && |h| > 1 && h[|h| - 2].role.User? {
        victims := victims + 1;
      }
      sessions := sessions[sid := sessions[sid].(messages := h[..|h| - victims], context := None)];
      return Some(victims);
    }

    /** A turn.  A session with a turn in flight is refused; every other outcome gives the mutex back. */
    method Chat(query: string, cid: CompanyId, sessionId: Option<SessionId>, drawn: SessionId, agent: Agent)
      returns (sid: SessionId, reply: Reply)
      requires drawn !in sessions && drawn !in inflight
      modifies this`sessions, this`inflight
      ensures inflight == old(inflight)
      ensures sid == if sessionId.Some? && sessionId.value != "" then sessionId.value else drawn
      ensures ChatOutcome(old(sessions), inflight, Turn(sid, cid, query, sessionId.Some?, Entered), cap, agent, reply, sessions)
      ensures cap >= 1 && (forall x :: x in old(sessions) ==> TurnCount(old(sessions), x) <= cap) ==>
                forall x :: x in sessions ==> TurnCount(sessions, x) <= cap
    {
      sid := if sessionId.Some? && sessionId.value != "" then sessionId.value else drawn;
      if sid in inflight {
        return sid, Busy;
      }
      inflight := inflight + {sid};
      reply := TakeTurn(query, cid, sid, sessionId.Some?, agent);
      inflight := inflight - {sid};
      ghost var turn := Turn(sid, cid, query, sessionId.Some?, Entered);
      ghost var trace, events := ChatIsARun(State(old(sessions), inflight, map[]), 0, turn, cap, agent, reply, sessions);
      if cap >= 1 && forall x :: x in old(sessions) ==> TurnCount(old(sessions), x) <= cap {
        RunsKeepInv(trace, events, cap);
      }
    }

    method TakeTurn(query: string, cid: CompanyId, sid: SessionId, given: bool, agent: Agent) returns (reply: Reply)
      requires sid in inflight && (!given ==> sid !in sessions)
      modifies this`sessions
      ensures ChatOutcome(old(sessions), {}, Turn(sid, cid, query, given, Entered), cap, agent, reply, sessions)
    {
      if given {
        var count := CountTurns(sid, cid);
        if count.None? {
          return NotFound;
        }
        if count.value >= cap {
          return TooLong;
        }
      }
      var ok, context := OpenTurn(sid, cid, query);
      if !ok {
        return NotFound;
      }
      var answer := agent(query, context);
      if answer.None? {
        return AgentFailed;
      }
      CloseTurn(sid, answer.value);
      return Answered(answer.value);
    }
  }

  // ---------------------------------------------------------------- a call is a run

  /** The steps of a call with this reply. */
  function CallEvents(t: TurnId, turn: Turn, reply: Reply): seq<Event> {
    match reply
    case Busy => [Enter(t, turn)]
    case NotFound => [Enter(t, turn), CountTurns(t)]
    case TooLong => [Enter(t, turn), CountTurns(t)]
    case AgentFailed => [Enter(t, turn), CountTurns(t), OpenTurn(t), AgentFails(t)]
    case Answered(r) => [Enter(t, turn), CountTurns(t), OpenTurn(t), CloseTurn(t, r)]
  }

  /** States with the first mutex sets and turns of a call. */
  function CallState(s: State, t: TurnId, turn: Turn, phase: Phase, db: Sessions): State {
    State(db, s.inflight + {turn.sid}, s.turns[t := turn.(phase := phase)])
  }

  /**
   Every whole call is a run of the interleaved steps, alone among whatever turns there are: it
   ends with the same turns and mutexes, and a turn that reached the agent gave it the stored
   context.
   */
  lemma ChatIsARun(s: State, t: TurnId, turn: Turn, cap: nat, agent: Agent, reply: Reply, db': Sessions)
    returns (trace: seq<State>, events: seq<Event>)
    requires Enabled(s, Enter(t, turn)) && ChatOutcome(s.db, s.inflight, turn, cap, agent, reply, db')
    ensures IsRun(trace, events, cap) && events == CallEvents(t, turn, reply)
    ensures trace[0] == s && trace[|events|] == s.(db := db')
    ensures |events| == 4 ==> t in trace[3].turns && trace[3].turns[t].phase == Running(StoredContext(s.db, turn.sid))
  {
    events := CallEvents(t, turn, reply);
    if reply.Busy? {
      trace := [s, s];
    } else {
      var entered, counted := CallState(s, t, turn, Entered, s.db), CallState(s, t, turn, Counted, s.db);
      assert turn == turn.(phase := Entered);
      assert Leave(entered, t) == s by {
        assert s.inflight + {turn.sid} - {turn.sid} == s.inflight;
        assert s.turns[t := turn] - {t} == s.turns;
      }
      if reply.NotFound? || reply.TooLong? {
        trace := [s, entered, s];
      } else {
        CallReachesTheAgent(s, t, turn, cap, agent, reply, db');
        var running := CallState(s, t, turn, Running(StoredContext(s.db, turn.sid)), Opened(s.db, turn.sid, turn.cid, turn.query));
        trace := [s, entered, counted, running, s.(db := db')];
      }
    }
  }

  lemma CallReachesTheAgent(s: State, t: TurnId, turn: Turn, cap: nat, agent: Agent, reply: Reply, db': Sessions)
    requires Enabled(s, Enter(t, turn)) && ChatOutcome(s.db, s.inflight, turn, cap, agent, reply, db')
    requires reply.AgentFailed? || reply.Answered?
    ensures var e := CallEvents(t, turn, reply);
      var counted := CallState(s, t, turn, Counted, s.db);
      var running := CallState(s, t, turn, Running(StoredContext(s.db, turn.sid)), Opened(s.db, turn.sid, turn.cid, turn.query));
      && Enabled(CallState(s, t, turn, Entered, s.db), e[1]) && Apply(CallState(s, t, turn, Entered, s.db), e[1], cap) == counted
      && Enabled(counted, e[2]) && Apply(counted, e[2], cap) == running
      && Enabled(running, e[3]) && Apply(running, e[3], cap) == s.(db := db')
  {
    assert s.inflight + {turn.sid} - {turn.sid} == s.inflight;
    forall phase: Phase ensures s.turns[t := turn.(phase := phase)] - {t} == s.turns {
    }
    forall a: Phase, b: Phase
      ensures s.turns[t := turn.(phase := a)][t := turn.(phase := b)] == s.turns[t := turn.(phase := b)]
    {
    }
  }
}
