/**
 The blue/green deployment script (deploy/deploy-blue-green.sh) as a state machine.

 The host keeps the Nginx link, the configuration Nginx has loaded, the two containers,
 the active-slot file and the legacy unit.  A run executes the script command by command;
 any command after the trap may fail with a partial effect, which enters the rollback, and
 the host may reboot between any two commands.
 */
module Deployment {
  import opened Wrappers

  datatype Slot = Blue | Green
  {
    function Other(): Slot {
      if Blue? then Green else Blue
    }
  }

  type Version = string

  datatype Container = Absent | Stopped(version: Version) | Running(version: Version)

  /** Target of the active link, resolved. */
  datatype Link = NoLink | To(slot: Slot) | Elsewhere

  /** Contents of the active-slot file. */
  datatype Record = NoFile | Names(slot: Slot) | Garbage

  /** Nginx is down, or up with the bidmate configuration it last loaded. */
  datatype Nginx = Down | Up(loaded: Option<Slot>)

  datatype Host = Host(
    link: Link, record: Record, nginx: Nginx, blue: Container, green: Container,
    legacyUp: bool, legacyEnabled: bool)
  {
    function Get(s: Slot): Container {
      if s.Blue? then blue else green
    }

    function Put(s: Slot, c: Container): Host {
      if s.Blue? then this.(blue := c) else this.(green := c)
    }

    /** Nginx (re)loads what the link points to. */
    function Loaded(): Host {
      this.(nginx := Up(if link.To? then Some(link.slot) else None))
    }
  }

  /** Nginx has a slot's configuration, and the legacy unit, which binds the same port, is up too. */
  predicate PortContested(h: Host) {
    h.nginx.Up? && h.nginx.loaded.Some? && h.legacyUp
  }

  /** The container Nginx serves is running, and Nginx has the port to itself. */
  predicate Serving(h: Host) {
    h.nginx.Up? && h.nginx.loaded.Some? && h.Get(h.nginx.loaded.value).Running? && !PortContested(h)
  }

  /** What a reboot now would come back to: the link's slot, with its container running. */
  predicate Bootable(h: Host) {
    h.link.To? && h.Get(h.link.slot).Running? && !h.legacyEnabled
  }

  /** A host between non-first deployments. */
  predicate AtRest(h: Host) {
    Serving(h) && Bootable(h) && h.link == To(h.nginx.loaded.value)
  }

  /** Running containers restart (unless-stopped), Nginx and an enabled legacy unit start. */
  function Boot(h: Host): Host {
    h.Loaded().(legacyUp := h.legacyEnabled)
  }

  lemma RebootServesIff(h: Host)
    ensures Serving(Boot(h)) <==> Bootable(h)
    ensures AtRest(Boot(h)) <==> Bootable(h)
    ensures PortContested(Boot(h)) <==> h.link.To? && h.legacyEnabled
  {
  }

  // ---------------------------------------------------------------- one run

  /** The variables of a run; `before` is the host as the run found it. */
  datatype Vars = Vars(active: Option<Slot>, candidate: Slot, version: Version, legacyWasActive: bool, before: Host)

  datatype Flags = Flags(linkChanged: bool, switched: bool, legacyStopped: bool)
  {
    predicate Any() { linkChanged || switched || legacyStopped }
  }

  datatype Detection = Refused(host: Host) | Proceed(host: Host, vars: Vars)

  /** Lines 74-152: find the active slot, repair the file, refuse what is unsafe. */
  function Detect(h: Host, version: Version): Detection {
    match h.link
    case Elsewhere => Refused(h)
    case NoLink =>
      if h.record != NoFile then Refused(h)
      else Proceed(h, Vars(None, Blue, version, h.legacyUp, h))
    case To(active) =>
      var repaired := h.(record := Names(active));
      if !h.Get(active).Running? then Refused(repaired)
      else Proceed(repaired, Vars(Some(active), active.Other(), version, h.legacyUp, h))
  }

  /** A run is not refused: nothing deployed yet, or the linked slot's container runs. */
  predicate Startable(h: Host) {
    (h.link.NoLink? && h.record.NoFile?) || (h.link.To? && h.Get(h.link.slot).Running?)
  }

  datatype Command =
    | Prepare | RemoveStale | StartCandidate | ProbeCandidate | SwitchLink | TestConfig | StopLegacy | EnableNginx
    | Reload | SmokeTest | WriteRecord | DisableLegacy | Drain | StopOld

  function Next(c: Command): Option<Command> {
    match c
    case Prepare => Some(RemoveStale)
    case RemoveStale => Some(StartCandidate)
    case StartCandidate => Some(ProbeCandidate)
    case ProbeCandidate => Some(SwitchLink)
    case SwitchLink => Some(TestConfig)
    case TestConfig => Some(StopLegacy)
    case StopLegacy => Some(EnableNginx)
    case EnableNginx => Some(Reload)
    case Reload => Some(SmokeTest)
    case SmokeTest => Some(WriteRecord)
    case WriteRecord => Some(DisableLegacy)
    case DisableLegacy => Some(Drain)
    case Drain => Some(StopOld)
    case StopOld => None
  }

  /** The host after the command succeeded. */
  function Done(c: Command, v: Vars, h: Host): Host {
    match c
    case RemoveStale => h.Put(v.candidate, Absent)
    case StartCandidate => h.Put(v.candidate, Running(v.version))
    case SwitchLink => h.(link := To(v.candidate))
    case StopLegacy => if v.legacyWasActive then h.(legacyUp := false) else h
    case EnableNginx => if h.nginx.Down? then h.Loaded() else h
    case Reload => h.Loaded()
    case WriteRecord => h.(record := Names(v.candidate))
    case DisableLegacy => if v.legacyWasActive then h.(legacyEnabled := false) else h
    case StopOld =>
      if v.active.Some? && h.Get(v.active.value).Running?
      then h.Put(v.active.value, Stopped(h.Get(v.active.value).version)) else h
    case Prepare | ProbeCandidate | TestConfig | SmokeTest | Drain => h
  }

  function FlagsAfter(c: Command, v: Vars, f: Flags): Flags {
    match c
    case SwitchLink => f.(linkChanged := true)
    case StopLegacy => f.(legacyStopped := f.legacyStopped || v.legacyWasActive)
    case Reload => f.(switched := true)
    case _ => f
  }

  /** Removing a stale container and disabling the legacy unit are ignored when they fail. */
  predicate MayDoNothing(c: Command) {
    c.RemoveStale? || c.DisableLegacy?
  }

  predicate Took(c: Command, v: Vars, h: Host, h': Host) {
    h' == Done(c, v, h) || (MayDoNothing(c) && h' == h)
  }

  /** Nginx serves this slot, and its container runs this version. */
  predicate Answers(h: Host, s: Slot, version: Version) {
    h.nginx == Up(Some(s)) && h.Get(s) == Running(version) && !PortContested(h)
  }

  /**
   A probe passes only against a running candidate; docker run needs the name free.  The
   smoke test asks port 8000 for the candidate's slot and the version of the run.
   */
  predicate CanSucceed(c: Command, v: Vars, h: Host) {
    && (c.ProbeCandidate? ==> h.Get(v.candidate).Running?)
    && (c.StartCandidate? ==> h.Get(v.candidate).Absent?)
    && (c.Reload? ==> h.nginx.Up?)
    && (c.SmokeTest? ==> Answers(h, v.candidate, v.version))
  }

  /** What a failing command may leave behind.  Renames are atomic; the rest may stop half way. */
  predicate Broken(c: Command, v: Vars, h: Host, h': Host) {
    match c
    case StartCandidate => h' == h.Put(v.candidate, h'.Get(v.candidate))
    case StopLegacy => v.legacyWasActive && h' == h.(legacyUp := h'.legacyUp)
    case EnableNginx => h' == h || h' == Done(c, v, h)
    case Reload => h' == h || (h.nginx.Up? && h' == h.Loaded())
    case StopOld => v.active.Some? && (h' == h || h' == Done(c, v, h))
    case Prepare | ProbeCandidate | SwitchLink | TestConfig | SmokeTest | WriteRecord | Drain => h' == h
    case RemoveStale | DisableLegacy => false
  }

  datatype Undo = StartOld | RestoreLink | RestoreNginx | RestoreLegacy | RestoreRecord | RemoveCandidate

  function NextUndo(u: Undo): Option<Undo> {
    match u
    case StartOld => Some(RestoreLink)
    case RestoreLink => Some(RestoreNginx)
    case RestoreNginx => Some(RestoreLegacy)
    case RestoreLegacy => Some(RestoreRecord)
    case RestoreRecord => Some(RemoveCandidate)
    case RemoveCandidate => None
  }

  function PreviousLink(v: Vars): Link {
    if v.active.Some? then To(v.active.value) else NoLink
  }

  /** One command of the rollback (lines 154-201), which ignores its own failures. */
  function Undone(u: Undo, v: Vars, f: Flags, h: Host, ok: bool): Host {
    if !ok || (!f.Any() && u != RemoveCandidate) then h
    else match u
      case StartOld =>
        if v.active.Some? && h.Get(v.active.value).Stopped?
        then h.Put(v.active.value, Running(h.Get(v.active.value).version)) else h
      case RestoreLink => h.(link := PreviousLink(v))
      case RestoreNginx =>
        if v.active.None? && v.legacyWasActive then h.(nginx := Down)
        else if h.nginx.Up? then h.Loaded() else h
      case RestoreLegacy => if v.legacyWasActive then h.(legacyUp := true, legacyEnabled := true) else h
      case RestoreRecord => h.(record := if v.active.Some? then Names(v.active.value) else NoFile)
      case RemoveCandidate => h.Put(v.candidate, Absent)
  }

  datatype Phase = Idle | Forward(at: Command, vars: Vars, flags: Flags) | Rollback(undo: Undo, vars: Vars, flags: Flags)

  datatype State = State(host: Host, phase: Phase)

  const NO_FLAGS := Flags(false, false, false)

  predicate Begins(s: State, s': State, version: Version) {
    && s.phase.Idle?
    && match Detect(s.host, version)
       case Refused(h) => s' == State(h, Idle)
       case Proceed(h, v) => s' == State(h, Forward(Prepare, v, NO_FLAGS))
  }

  /** A command succeeds, or fails into the rollback. */
  predicate Executes(s: State, s': State) {
    && s.phase.Forward?
    && var Forward(c, v, f) := s.phase;
       || (&& CanSucceed(c, v, s.host) && Took(c, v, s.host, s'.host)
           && s'.phase == if Next(c).Some? then Forward(Next(c).value, v, FlagsAfter(c, v, f)) else Idle)
       || (Broken(c, v, s.host, s'.host) && s'.phase == Rollback(StartOld, v, f))
  }

  predicate Undoes(s: State, s': State) {
    && s.phase.Rollback?
    && var Rollback(u, v, f) := s.phase;
       s' == State(Undone(u, v, f, s.host, true),
                   if NextUndo(u).Some? then Rollback(NextUndo(u).value, v, f) else Idle)
  }

  predicate Reboots(s: State, s': State) {
    s' == State(Boot(s.host), Idle)
  }

  ghost predicate Step(s: State, s': State) {
    (exists version :: Begins(s, s', version)) || Executes(s, s') || Undoes(s, s')
  }

  lemma SuccessIsAStep(s: State, s': State)
    requires s.phase.Forward? && CanSucceed(s.phase.at, s.phase.vars, s.host) && Took(s.phase.at, s.phase.vars, s.host, s'.host)
    requires s'.phase == if Next(s.phase.at).Some?
                         then Forward(Next(s.phase.at).value, s.phase.vars, FlagsAfter(s.phase.at, s.phase.vars, s.phase.flags)) else Idle
    ensures Executes(s, s') && Step(s, s')
  {
  }

  lemma UndoIsAStep(s: State, s': State)
    requires s.phase.Rollback? && s'.host == Undone(s.phase.undo, s.phase.vars, s.phase.flags, s.host, true)
    requires s'.phase == if NextUndo(s.phase.undo).Some?
                         then Rollback(NextUndo(s.phase.undo).value, s.phase.vars, s.phase.flags) else Idle
    ensures Undoes(s, s') && Step(s, s')
  {
  }

  /** What must hold of the host for the commands that check it to go on. */
  lemma ChecksHold(s: State, s': State)
    requires Executes(s, s') && !s'.phase.Rollback?
    ensures var Forward(c, v, _) := s.phase;
      && (c.StartCandidate? ==> s.host.Get(v.candidate) == Absent)
      && (c.ProbeCandidate? ==> s.host.Get(v.candidate).Running?)
      && (c.Reload? ==> s.host.nginx.Up?)
      && (c.SmokeTest? ==> s.host.nginx == Up(Some(v.candidate)) && s.host.Get(v.candidate) == Running(v.version) && !s.host.legacyUp)
  {
  }

  /** A command that fails may have done nothing, and those that are not atomic all of their work. */
  lemma FailuresMayTakeEffect(c: Command, v: Vars, h: Host)
    ensures !c.RemoveStale? && !c.DisableLegacy? && (c.StopLegacy? ==> v.legacyWasActive) && (c.StopOld? ==> v.active.Some?)
      ==> Broken(c, v, h, h)
    ensures c.StartCandidate? || c.EnableNginx? || (c.Reload? && h.nginx.Up?) || (c.StopLegacy? && v.legacyWasActive)
            || (c.StopOld? && v.active.Some?)
      ==> Broken(c, v, h, Done(c, v, h))
  {
  }

  /** The rollback never starts Nginx. */
  lemma RollbackNeverStartsNginx(u: Undo, v: Vars, f: Flags, h: Host, ok: bool)
    ensures h.nginx.Down? ==> Undone(u, v, f, h, ok).nginx.Down?
  {
  }

  // ---------------------------------------------------------------- non-first deployments

  /** The candidate has been started when the run is at `c`. */
  predicate Started(c: Command) {
    !(c.Prepare? || c.RemoveStale? || c.StartCandidate?)
  }

  /** The candidate has been probed when the run is at `c`. */
  predicate Probed(c: Command) {
    !(c.Prepare? || c.RemoveStale? || c.StartCandidate? || c.ProbeCandidate?)
  }

  predicate LinkMoved(c: Command) {
    Probed(c) && !c.SwitchLink?
  }

  predicate NginxMoved(c: Command) {
    c.SmokeTest? || c.WriteRecord? || c.DisableLegacy? || c.Drain? || c.StopOld?
  }

  predicate Recorded(c: Command) {
    c.DisableLegacy? || c.Drain? || c.StopOld?
  }

  /** The run replaces a slot that was serving, and the legacy unit is retired. */
  predicate Replaces(v: Vars) {
    && v.active.Some? && v.candidate == v.active.value.Other() && !v.legacyWasActive
    && v.before.link == To(v.active.value) && v.before.nginx == Up(v.active)
    && v.before.Get(v.active.value).Running?
  }

  predicate ForwardInv(h: Host, c: Command, v: Vars, f: Flags) {
    && Replaces(v) && !h.legacyUp && !h.legacyEnabled
    && f == Flags(LinkMoved(c), NginxMoved(c), false)
    && h.link == To(if LinkMoved(c) then v.candidate else v.active.value)
    && h.nginx == Up(Some(if NginxMoved(c) then v.candidate else v.active.value))
    && h.record == Names(if Recorded(c) then v.candidate else v.active.value)
    && h.Get(v.active.value) == v.before.Get(v.active.value)
    && (Started(c) ==> h.Get(v.candidate) == Running(v.version))
  }

  /** The old container is back, or was only stopped and nothing points to it. */
  predicate OldRecoverable(h: Host, v: Vars)
    requires v.active.Some?
  {
    var now, was := h.Get(v.active.value), v.before.Get(v.active.value);
    || now == was
    || (was.Running? && now == Stopped(was.version) && h.link == To(v.candidate) && h.nginx == Up(Some(v.candidate)))
  }

  predicate RollbackInv(h: Host, u: Undo, v: Vars, f: Flags) {
    && Replaces(v) && !h.legacyUp && !h.legacyEnabled && !f.legacyStopped
    && h.link.To? && h.nginx.Up? && h.nginx.loaded.Some?
    && (!f.Any() ==> h.link == To(v.active.value) && h.nginx == Up(v.active) && h.record == Names(v.active.value))
    && (f.Any() ==> h.Get(v.candidate) == Running(v.version))
    && (if u.StartOld? then OldRecoverable(h, v) else h.Get(v.active.value) == v.before.Get(v.active.value))
    && (!u.StartOld? && !u.RestoreLink? ==> h.link == To(v.active.value))
    && (!u.StartOld? && !u.RestoreLink? && !u.RestoreNginx? ==> h.nginx == Up(v.active))
    && (u.RemoveCandidate? ==> h.record == Names(v.active.value))
    && (f.Any() || h.link == To(v.active.value))
  }

  predicate Inv(s: State) {
    match s.phase
    case Idle => AtRest(s.host)
    case Forward(c, v, f) => ForwardInv(s.host, c, v, f)
    case Rollback(u, v, f) => RollbackInv(s.host, u, v, f)
  }

  lemma InvIsSafe(s: State)
    requires Inv(s)
    ensures Serving(s.host) && Bootable(s.host)
  {
  }

  lemma ForwardKeepsInv(s: State, s': State)
    requires Inv(s) && Executes(s, s')
    ensures Inv(s')
  {
  }

  lemma UndoKeepsInv(s: State, s': State)
    requires Inv(s) && Undoes(s, s')
    ensures Inv(s')
  {
  }

  lemma StepKeepsInv(s: State, s': State)
    requires Inv(s) && (Step(s, s') || Reboots(s, s'))
    ensures Inv(s')
  {
    if Executes(s, s') {
      ForwardKeepsInv(s, s');
    } else if Undoes(s, s') {
      UndoKeepsInv(s, s');
    }
  }

  /** Any sequence of runs, failing anywhere after the trap, and reboots between any two commands. */
  ghost predicate IsHistory(trace: seq<State>) {
    trace != [] && forall i :: 0 <= i < |trace| - 1 ==> Step(trace[i], trace[i + 1]) || Reboots(trace[i], trace[i + 1])
  }

  /** Nginx serves a running container at every step, and a reboot at any step would too. */
  lemma {:induction false} HistoriesKeepServing(trace: seq<State>)
    requires IsHistory(trace) && trace[0].phase.Idle? && AtRest(trace[0].host)
    ensures Inv(trace[|trace| - 1])
    ensures forall i :: 0 <= i < |trace| ==> Serving(trace[i].host) && Serving(Boot(trace[i].host))
  {
    var n := |trace| - 1;
    if n > 0 {
      HistoriesKeepServing(trace[..n]);
      assert trace[..n][n - 1] == trace[n - 1];
      StepKeepsInv(trace[n - 1], trace[n]);
      assert forall i :: 0 <= i < n ==> trace[i] == trace[..n][i];
    }
    InvIsSafe(trace[n]);
  }

  /** Link, loaded slot and old container are as the run found them, the record names them, the candidate is gone. */
  predicate Restored(v: Vars, h: Host) {
    && v.active.Some?
    && h.link == v.before.link && h.nginx == v.before.nginx
    && h.Get(v.active.value) == v.before.Get(v.active.value)
    && h.record == Names(v.active.value) && h.Get(v.candidate) == Absent
  }

  /** The candidate serves the version of the run; the old container is stopped, with the version it had. */
  predicate Switched(v: Vars, h: Host) {
    && v.active.Some?
    && h.link == To(v.candidate) && h.nginx == Up(Some(v.candidate)) && h.record == Names(v.candidate)
    && h.Get(v.candidate) == Running(v.version)
    && v.before.Get(v.active.value).Running? && h.Get(v.active.value) == Stopped(v.before.Get(v.active.value).version)
  }

  lemma FailedRunRestores(s: State, s': State)
    requires Inv(s) && Undoes(s, s') && s'.phase.Idle?
    ensures Restored(s.phase.vars, s'.host)
  {
  }

  lemma FinishedRunSwitches(s: State, s': State)
    requires Inv(s) && Executes(s, s') && s'.phase.Idle?
    ensures Switched(s.phase.vars, s'.host)
  {
  }

  /** After a reboot at any point the next run adopts the link's slot and repairs the record. */
  lemma NextRunAdoptsTheLink(s: State, version: Version)
    requires Inv(s)
    ensures var d := Detect(Boot(s.host), version);
      && d.Proceed? && RunOf(d.vars, Boot(s.host), version) && d.vars.active == Some(s.host.link.slot)
      && d.host == Boot(s.host).(record := Names(s.host.link.slot))
      && Inv(State(d.host, Forward(Prepare, d.vars, NO_FLAGS)))
  {
    InvIsSafe(s);
    StepKeepsInv(s, State(Boot(s.host), Idle));
    assert Begins(State(Boot(s.host), Idle), State(Detect(Boot(s.host), version).host,
                  Forward(Prepare, Detect(Boot(s.host), version).vars, NO_FLAGS)), version);
  }

  // ---------------------------------------------------------------- one run from its first to its last command

  /** The other slot serves this version, and the old container is stopped with the version it had. */
  predicate Deployed(was: Host, version: Version, h: Host)
    requires was.link.To? && was.Get(was.link.slot).Running?
  {
    var left := was.link.slot;
    var entered := left.Other();
    h == was.(link := To(entered), nginx := Up(Some(entered)), record := Names(entered))
           .Put(entered, Running(version)).Put(left, Stopped(was.Get(left).version))
  }

  /** The host is as it was, except that the record names the slot that serves and the candidate is gone. */
  predicate TakenBack(was: Host, h: Host)
    requires was.link.To?
  {
    h == was.(record := Names(was.link.slot)).Put(was.link.slot.Other(), Absent)
  }

  /** Where the run stands on the host it found and the version asked for. */
  predicate RunOf(v: Vars, was: Host, version: Version) {
    v == Vars(if was.link.To? then Some(was.link.slot) else None,
              if was.link == To(Blue) then Green else Blue, version, was.legacyUp, was)
  }

  lemma EndOfARun(was: Host, version: Version, v: Vars, h: Host)
    requires AtRest(was) && RunOf(v, was, version) && AtRest(h)
    ensures Switched(v, h) ==> Deployed(was, version, h)
    ensures Restored(v, h) ==> TakenBack(was, h)
  {
  }

  ghost predicate IsUninterruptedRun(trace: seq<State>, version: Version) {
    && |trace| > 1 && Begins(trace[0], trace[1], version)
    && forall i :: 1 <= i < |trace| - 1 ==> Executes(trace[i], trace[i + 1]) || Undoes(trace[i], trace[i + 1])
  }

  lemma {:induction false} UninterruptedRunsKeepInv(trace: seq<State>, version: Version, n: nat)
    requires IsUninterruptedRun(trace, version) && AtRest(trace[0].host) && 1 <= n < |trace|
    ensures Inv(trace[n])
    ensures trace[n].phase.Idle? || RunOf(trace[n].phase.vars, trace[0].host, version)
  {
    if n == 1 {
      StepKeepsInv(trace[0], trace[1]);
    } else {
      UninterruptedRunsKeepInv(trace, version, n - 1);
      assert Executes(trace[n - 1], trace[n]) || Undoes(trace[n - 1], trace[n]);
      StepKeepsInv(trace[n - 1], trace[n]);
    }
  }

  /** A run that gets to its end deploys the version it was asked for; one that fails takes everything back. */
  lemma FinishedRunsDeployTheVersion(trace: seq<State>, version: Version)
    requires IsUninterruptedRun(trace, version) && AtRest(trace[0].host)
    requires |trace| > 2 && trace[|trace| - 1].phase.Idle?
    ensures var h, was := trace[|trace| - 1].host, trace[0].host;
      if trace[|trace| - 2].phase.Forward? then Deployed(was, version, h) else TakenBack(was, h)
  {
    var n := |trace| - 2;
    UninterruptedRunsKeepInv(trace, version, n);
    UninterruptedRunsKeepInv(trace, version, n + 1);
    assert Executes(trace[n], trace[n + 1]) || Undoes(trace[n], trace[n + 1]);
    if Executes(trace[n], trace[n + 1]) {
      FinishedRunSwitches(trace[n], trace[n + 1]);
    } else {
      FailedRunRestores(trace[n], trace[n + 1]);
    }
    EndOfARun(trace[0].host, version, trace[n].phase.vars, trace[n + 1].host);
  }

  // ---------------------------------------------------------------- a run whose commands all work

  /** The state after the present command has worked. */
  function Succeeded(s: State): State
    requires s.phase.Forward?
  {
    var Forward(c, v, f) := s.phase;
    State(Done(c, v, s.host), if Next(c).Some? then Forward(Next(c).value, v, FlagsAfter(c, v, f)) else Idle)
  }

  function After(s: State, n: nat): State {
    if n == 0 then s
    else
      var before := After(s, n - 1);
      if before.phase.Forward? then Succeeded(before) else before
  }

  function Commands(): seq<Command> {
    [Prepare, RemoveStale, StartCandidate, ProbeCandidate, SwitchLink, TestConfig, StopLegacy, EnableNginx,
     Reload, SmokeTest, WriteRecord, DisableLegacy, Drain, StopOld]
  }

  /** The state a run from this host starts with. */
  function Start(h: Host, version: Version): State
    requires Startable(h)
  {
    var d := Detect(h, version);
    State(d.host, Forward(Prepare, d.vars, NO_FLAGS))
  }

  /** A command the run has reached and that can succeed. */
  predicate CanGoOn(s: State) {
    s.phase.Forward? && CanSucceed(s.phase.at, s.phase.vars, s.host)
  }

  lemma GoesOn(s: State)
    requires (Inv(s) || FirstInv(s)) && CanGoOn(s)
    ensures Executes(s, Succeeded(s)) && (Succeeded(s).phase.Forward? ==> CanGoOn(Succeeded(s)))
  {
  }

  lemma NextCommand(n: nat)
    requires n < |Commands()|
    ensures Next(Commands()[n]) == if n + 1 < |Commands()| then Some(Commands()[n + 1]) else None
  {
  }

  /** From a host at rest every command in turn can succeed, whatever the candidate's slot holds, and the end is the new version. */
  lemma {:induction false} WorkingRunDeploys(h: Host, version: Version, n: nat)
    requires AtRest(h) && n <= |Commands()|
    ensures var s := After(Start(h, version), n);
      && Inv(s) && (n < |Commands()| ==> CanGoOn(s) && s.phase.at == Commands()[n] && RunOf(s.phase.vars, h, version))
      && (n == |Commands()| ==> s.phase.Idle? && Deployed(h, version, s.host))
  {
    if n == 0 {
      assert Begins(State(h, Idle), Start(h, version), version);
      StepKeepsInv(State(h, Idle), Start(h, version));
    } else {
      WorkingRunDeploys(h, version, n - 1);
      var before := After(Start(h, version), n - 1);
      NextCommand(n - 1);
      GoesOn(before);
      ForwardKeepsInv(before, Succeeded(before));
      if n == |Commands()| {
        FinishedRunSwitches(before, Succeeded(before));
        EndOfARun(h, version, before.phase.vars, Succeeded(before).host);
      }
    }
  }

  // ---------------------------------------------------------------- a rollback whose commands fail

  /** The rollback from its first command, `ok` telling which of its commands take effect. */
  function AfterRollback(v: Vars, f: Flags, h: Host, ok: Undo -> bool): Host {
    var h1 := Undone(StartOld, v, f, h, ok(StartOld));
    var h2 := Undone(RestoreLink, v, f, h1, ok(RestoreLink));
    var h3 := Undone(RestoreNginx, v, f, h2, ok(RestoreNginx));
    var h4 := Undone(RestoreLegacy, v, f, h3, ok(RestoreLegacy));
    var h5 := Undone(RestoreRecord, v, f, h4, ok(RestoreRecord));
    Undone(RemoveCandidate, v, f, h5, ok(RemoveCandidate))
  }

  /** Nginx ends up on the old slot: it reloaded the restored link, or had not left the old slot. */
  predicate TrafficReturns(v: Vars, h: Host, ok: Undo -> bool)
    requires v.active.Some?
  {
    if ok(RestoreNginx) then ok(RestoreLink) || h.link == To(v.active.value)
    else h.nginx == Up(v.active)
  }

  /**
   The rollback ignores failures of its own commands and always removes the candidate.  The
   site stays up exactly when traffic returned to a running old container, or when traffic
   stayed on the candidate and its removal failed as well.
   */
  lemma RollbackServesIff(s: State, ok: Undo -> bool)
    requires Inv(s) && s.phase.Rollback? && s.phase.undo.StartOld? && s.phase.flags.Any()
    ensures var v := s.phase.vars;
      Serving(AfterRollback(v, s.phase.flags, s.host, ok)) <==>
        if TrafficReturns(v, s.host, ok) then ok(StartOld) || s.host.Get(v.active.value).Running?
        else !ok(RemoveCandidate)
  {
  }

  /** In particular a reload that fails during the rollback, after the cutover, takes the site down. */
  lemma FailedReloadTakesTheSiteDown(s: State)
    requires Inv(s) && s.phase.Rollback? && s.phase.undo.StartOld? && s.phase.flags.switched
    ensures !Serving(AfterRollback(s.phase.vars, s.phase.flags, s.host, u => u != RestoreNginx))
      <==> s.host.nginx != Up(s.phase.vars.active)
  {
    RollbackServesIff(s, u => u != RestoreNginx);
  }

  // ---------------------------------------------------------------- the first deployment

  /** No container deployment yet; the legacy unit may be serving port 8000. */
  predicate Fresh(h: Host) {
    h.link.NoLink? && h.record.NoFile? && (h.nginx.Down? || h.nginx == Up(None))
  }

  predicate PastStopLegacy(c: Command) {
    LinkMoved(c) && !c.TestConfig? && !c.StopLegacy?
  }

  predicate FirstRun(v: Vars) {
    v.active.None? && v.candidate.Blue? && Fresh(v.before) && v.legacyWasActive == v.before.legacyUp
  }

  predicate FirstForwardInv(h: Host, c: Command, v: Vars, f: Flags) {
    && FirstRun(v) && h.green == v.before.green
    && f == Flags(LinkMoved(c), NginxMoved(c), PastStopLegacy(c) && v.legacyWasActive)
    && h.link == (if LinkMoved(c) then To(Blue) else NoLink)
    && h.record == (if Recorded(c) then Names(Blue) else NoFile)
    && h.legacyUp == (v.legacyWasActive && !PastStopLegacy(c))
    && (!(c.Drain? || c.StopOld?) || !v.legacyWasActive ==> h.legacyEnabled == v.before.legacyEnabled)
    && (h.legacyEnabled ==> v.before.legacyEnabled)
    && (if NginxMoved(c) then h.nginx == Up(Some(Blue))
        else if c.Reload? then h.nginx == Up(Some(Blue)) || h.nginx == v.before.nginx
        else h.nginx == v.before.nginx)
    && (Started(c) ==> h.blue == Running(v.version)) && (c.Reload? ==> h.nginx.Up?) && !PortContested(h)
  }

  predicate FirstRollbackInv(h: Host, u: Undo, v: Vars, f: Flags) {
    && FirstRun(v) && !PortContested(h)
    && (!f.Any() ==> h == v.before.(blue := h.blue))
    && (!v.legacyWasActive ==> !h.legacyUp)
    && (!u.StartOld? && !u.RestoreLink? ==> h.link.NoLink?)
    && (!u.StartOld? && !u.RestoreLink? && !u.RestoreNginx? ==>
          if f.Any() && v.legacyWasActive then h.nginx.Down? else h.nginx.Down? || h.nginx == Up(None))
    && ((u.RestoreRecord? || u.RemoveCandidate?) && v.legacyWasActive ==> h.legacyUp)
    && (u.RemoveCandidate? ==> h.record.NoFile?)
    && (!v.legacyWasActive ==> h.legacyEnabled == v.before.legacyEnabled && (v.before.nginx.Up? ==> h.nginx.Up?))
    && (f.Any() && (u.RestoreRecord? || u.RemoveCandidate?) && v.legacyWasActive ==> h.legacyEnabled)
  }

  predicate FirstInv(s: State) {
    match s.phase
    case Idle => (Fresh(s.host) || Serving(s.host)) && !PortContested(s.host)
    case Forward(c, v, f) => FirstForwardInv(s.host, c, v, f)
    case Rollback(u, v, f) => FirstRollbackInv(s.host, u, v, f)
  }

  lemma FirstForwardKeepsInv(s: State, s': State)
    requires FirstInv(s) && Executes(s, s')
    ensures FirstInv(s')
  {
  }

  lemma FirstUndoKeepsInv(s: State, s': State)
    requires FirstInv(s) && Undoes(s, s')
    ensures FirstInv(s')
  {
  }

  lemma {:induction false} FirstRunsKeepInv(trace: seq<State>, version: Version, n: nat)
    requires IsUninterruptedRun(trace, version) && Fresh(trace[0].host) && 1 <= n < |trace|
    ensures FirstInv(trace[n])
    ensures trace[n].phase.Idle? || (trace[n].phase.vars.before == trace[0].host && trace[n].phase.vars.version == version)
  {
    if n > 1 {
      FirstRunsKeepInv(trace, version, n - 1);
      assert Executes(trace[n - 1], trace[n]) || Undoes(trace[n - 1], trace[n]);
      if Executes(trace[n - 1], trace[n]) {
        FirstForwardKeepsInv(trace[n - 1], trace[n]);
      } else {
        FirstUndoKeepsInv(trace[n - 1], trace[n]);
      }
    }
  }

  /**
   A first deployment that fails after the trap gives port 8000 back: no link, no record, the
   legacy unit up exactly if it was, and Nginx not holding the site.  A failure before the
   link moved changes nothing else.  A later one, when the legacy unit was active, leaves
   Nginx stopped, even if it was up before, and the unit enabled, even if it was not; without
   an active unit it leaves the unit as it was and stops nothing.
   */
  lemma FailedFirstRunRestoresLegacy(trace: seq<State>, version: Version)
    requires IsUninterruptedRun(trace, version) && Fresh(trace[0].host)
    requires |trace| > 2 && trace[|trace| - 2].phase.Rollback? && trace[|trace| - 1].phase.Idle?
    ensures var h, was := trace[|trace| - 1].host, trace[0].host;
      Fresh(h) && h.legacyUp == was.legacyUp && h.blue == Absent
    ensures var h, was, f := trace[|trace| - 1].host, trace[0].host, trace[|trace| - 2].phase.flags;
      && (f.Any() && was.legacyUp ==> h.nginx.Down? && h.legacyEnabled)
      && (!was.legacyUp ==> h.legacyEnabled == was.legacyEnabled && (was.nginx.Up? ==> h.nginx.Up?))
      && (!f.Any() ==> h == was.(blue := Absent))
  {
    var n := |trace| - 2;
    FirstRunsKeepInv(trace, version, n);
    assert Executes(trace[n], trace[n + 1]) || Undoes(trace[n], trace[n + 1]);
  }

  /** The version of the run serves on the first slot and the legacy unit is down. */
  predicate FirstSwitched(h: Host, version: Version) {
    && h.link == To(Blue) && h.nginx == Up(Some(Blue)) && h.record == Names(Blue)
    && h.blue == Running(version) && !h.legacyUp
  }

  /** A finished first deployment is at rest, and later histories keep serving, exactly when the legacy unit is not enabled. */
  lemma FinishedFirstRun(trace: seq<State>, version: Version)
    requires IsUninterruptedRun(trace, version) && Fresh(trace[0].host)
    requires |trace| > 2 && trace[|trace| - 2].phase.Forward? && trace[|trace| - 1].phase.Idle?
    ensures var h, was := trace[|trace| - 1].host, trace[0].host;
      && FirstSwitched(h, version) && (AtRest(h) <==> !h.legacyEnabled)
      && (h.legacyEnabled ==> was.legacyEnabled) && (!was.legacyUp ==> h.legacyEnabled == was.legacyEnabled)
  {
    var n := |trace| - 2;
    FirstRunsKeepInv(trace, version, n);
    assert Executes(trace[n], trace[n + 1]) || Undoes(trace[n], trace[n + 1]);
  }

  /** Where the script disables the legacy unit, the unit is disabled. */
  ghost predicate DisablingWorks(trace: seq<State>) {
    forall i :: 0 <= i < |trace| - 1 && trace[i].phase.Forward? && trace[i].phase.at.DisableLegacy? && trace[i + 1].phase.Forward?
      ==> trace[i + 1].host == Done(DisableLegacy, trace[i].phase.vars, trace[i].host)
  }

  lemma {:induction false} DisabledWhenPast(trace: seq<State>, version: Version, n: nat)
    requires IsUninterruptedRun(trace, version) && Fresh(trace[0].host) && 1 <= n < |trace| && DisablingWorks(trace)
    ensures trace[n].phase.Forward? && (trace[n].phase.at.Drain? || trace[n].phase.at.StopOld?)
      ==> trace[n].host.legacyEnabled == (trace[0].host.legacyEnabled && !trace[0].host.legacyUp)
  {
    FirstRunsKeepInv(trace, version, n);
    if n > 1 {
      FirstRunsKeepInv(trace, version, n - 1);
      DisabledWhenPast(trace, version, n - 1);
      assert Executes(trace[n - 1], trace[n]) || Undoes(trace[n - 1], trace[n]);
    }
  }

  /** If disabling works, that is exactly when the legacy unit had been running or had not been enabled. */
  lemma FirstRunEndsAtRestIff(trace: seq<State>, version: Version)
    requires IsUninterruptedRun(trace, version) && Fresh(trace[0].host) && DisablingWorks(trace)
    requires |trace| > 2 && trace[|trace| - 2].phase.Forward? && trace[|trace| - 1].phase.Idle?
    ensures AtRest(trace[|trace| - 1].host) <==> trace[0].host.legacyUp || !trace[0].host.legacyEnabled
  {
    var n := |trace| - 2;
    FirstRunsKeepInv(trace, version, n);
    DisabledWhenPast(trace, version, n);
    FinishedFirstRun(trace, version);
    assert Executes(trace[n], trace[n + 1]) || Undoes(trace[n], trace[n + 1]);
  }

  /**
   A reboot before a first run has moved the link leaves a fresh host.  After that the linked
   container and an enabled legacy unit both come up for the port: the host is at rest exactly
   when the unit is not enabled, and until the script has disabled it that is as the run found
   it.  Either way the next run goes on, from the slot of the link if there is one.
   */
  lemma RebootDuringAFirstRun(trace: seq<State>, version: Version, n: nat, next: Version)
    requires IsUninterruptedRun(trace, version) && Fresh(trace[0].host) && 1 <= n < |trace| && trace[n].phase.Forward?
    ensures var c, h, boot := trace[n].phase.at, trace[n].host, Boot(trace[n].host); var d := Detect(boot, next);
      && (!LinkMoved(c) ==> Fresh(boot))
      && (LinkMoved(c) ==> (AtRest(boot) <==> !h.legacyEnabled) && (PortContested(boot) <==> h.legacyEnabled))
      && (!(c.Drain? || c.StopOld?) ==> h.legacyEnabled == trace[0].host.legacyEnabled)
      && d.Proceed? && d.vars.active == (if LinkMoved(c) then Some(Blue) else None)
  {
    FirstRunsKeepInv(trace, version, n);
  }

  /** The run has come past the command that disables the legacy unit. */
  predicate PastDisabling(p: Phase) {
    p.Idle? || (p.Forward? && (p.at.Drain? || p.at.StopOld?))
  }

  lemma FirstRunGoesOn(s: State)
    requires FirstInv(s) && CanGoOn(s)
    requires s.host.legacyEnabled == (s.phase.vars.before.legacyEnabled && !(s.phase.vars.legacyWasActive && PastDisabling(s.phase)))
    ensures var s', v := Succeeded(s), s.phase.vars;
      && FirstInv(s') && s'.host.legacyEnabled == (v.before.legacyEnabled && !(v.legacyWasActive && PastDisabling(s'.phase)))
      && (s'.phase.Idle? ==> FirstSwitched(s'.host, v.version))
  {
    FirstForwardKeepsInv(s, Succeeded(s));
  }

  /** In a first run too, and a legacy unit that was running ends up disabled. */
  lemma {:induction false} WorkingFirstRunDeploys(h: Host, version: Version, n: nat)
    requires Fresh(h) && n <= |Commands()|
    ensures var s := After(Start(h, version), n);
      && FirstInv(s) && s.host.legacyEnabled == (h.legacyEnabled && !(h.legacyUp && PastDisabling(s.phase)))
      && (n < |Commands()| ==> CanGoOn(s) && s.phase.at == Commands()[n] && RunOf(s.phase.vars, h, version))
      && (n == |Commands()| ==> s.phase.Idle? && FirstSwitched(s.host, version))
  {
    if n > 0 {
      WorkingFirstRunDeploys(h, version, n - 1);
      var before := After(Start(h, version), n - 1);
      NextCommand(n - 1);
      GoesOn(before);
      FirstRunGoesOn(before);
    }
  }

  // ---------------------------------------------------------------- the script

  /** The host's resources as the script changes them, with the history of everything it did. */
  class DeployScript {
    var link: Link
    var record: Record
    var nginx: Nginx
    var blue: Container
    var green: Container
    var legacyUp: bool
    var legacyEnabled: bool
    var linkChanged: bool
    var switched: bool
    var legacyStopped: bool
    ghost var phase: Phase
    ghost var history: seq<State>

    ghost function Now(): State
      reads this
    {
      State(Host(link, record, nginx, blue, green, legacyUp, legacyEnabled), phase)
    }

    ghost predicate Valid()
      reads this
    {
      && IsHistory(history) && history[|history| - 1] == Now()
      && (!phase.Idle? ==> phase.flags == Flags(linkChanged, switched, legacyStopped))
    }

    constructor (h: Host)
      ensures Valid() && Now() == State(h, Idle) && history == [State(h, Idle)]
    {
      link, record, nginx, blue, green := h.link, h.record, h.nginx, h.blue, h.green;
      legacyUp, legacyEnabled := h.legacyUp, h.legacyEnabled;
      linkChanged, switched, legacyStopped := false, false, false;
      phase := Idle;
      history := [State(h, Idle)];
    }

    /** Appends the present state to the history, at the next point of the script. */
    ghost method Advance(s: State, p: Phase)
      requires IsHistory(history) && history[|history| - 1] == s && Step(s, State(Now().host, p))
      requires !p.Idle? ==> p.flags == Flags(linkChanged, switched, legacyStopped)
      modifies this`phase, this`history
      ensures Valid() && phase == p && history == old(history) + [Now()]
    {
      phase := p;
      history := history + [Now()];
    }

    /** Lines 74-152. */
    method FindSlots(version: Version) returns (d: Detection)
      requires Valid() && phase.Idle?
      modifies this
      ensures Valid() && d.host == Now().host
      ensures d.Proceed? <==> Startable(old(Now().host))
      ensures var h := old(Now().host); Now().host == if h.link.To? then h.(record := Names(h.link.slot)) else h
      ensures d.Proceed? ==> RunOf(d.vars, old(Now().host), version)
      ensures phase == (if d.Proceed? then Forward(Prepare, d.vars, NO_FLAGS) else Idle)
      ensures history == old(history) + [Now()] && Begins(old(Now()), Now(), version)
    {
      ghost var s := Now();
      var found := Host(link, record, nginx, blue, green, legacyUp, legacyEnabled);
      d := Detect(found, version);
      linkChanged, switched, legacyStopped := false, false, false;
      if link.To? && record != Names(link.slot) {
        record := Names(link.slot);
      }
      assert Begins(s, State(Now().host, if d.Proceed? then Forward(Prepare, d.vars, NO_FLAGS) else Idle), version);
      Advance(s, if d.Proceed? then Forward(Prepare, d.vars, NO_FLAGS) else Idle);
    }

    method SetContainer(s: Slot, c: Container)
      modifies this`blue, this`green
      ensures Now() == old(Now()).(host := old(Now()).host.Put(s, c))
    {
      if s.Blue? {
        blue := c;
      } else {
        green := c;
      }
    }

    /** What a command that succeeds does to the host. */
    method Perform(c: Command, v: Vars)
      modifies this`link, this`record, this`nginx, this`blue, this`green, this`legacyUp, this`legacyEnabled
      ensures Now() == State(Done(c, v, old(Now()).host), old(phase))
    {
      match c
      case RemoveStale => SetContainer(v.candidate, Absent);
      case StartCandidate => SetContainer(v.candidate, Running(v.version));
      case SwitchLink => link := To(v.candidate);
      case StopLegacy =>
        if v.legacyWasActive {
          legacyUp := false;
        }
      case EnableNginx =>
        if nginx.Down? {
          nginx := Up(if link.To? then Some(link.slot) else None);
        }
      case Reload => nginx := Up(if link.To? then Some(link.slot) else None);
      case WriteRecord => record := Names(v.candidate);
      case DisableLegacy =>
        if v.legacyWasActive {
          legacyEnabled := false;
        }
      case StopOld =>
        if v.active.Some? {
          var container := if v.active.value.Blue? then blue else green;
          if container.Running? {
            SetContainer(v.active.value, Stopped(container.version));
          }
        }
      case Prepare | ProbeCandidate | TestConfig | SmokeTest | Drain =>
    }

    /** A command that the script takes to have succeeded. */
    method Attempt(c: Command, v: Vars)
      modifies this`link, this`record, this`nginx, this`blue, this`green, this`legacyUp, this`legacyEnabled
      ensures Now().phase == old(phase) && Took(c, v, old(Now()).host, Now().host)
    {
      var works: bool := *;
      if works || !MayDoNothing(c) {
        Perform(c, v);
      }
    }

    /** What a command that fails leaves on the host, by any choice. */
    method Break(c: Command, v: Vars)
      requires !c.RemoveStale? && !c.DisableLegacy?
      requires c.StopLegacy? ==> v.legacyWasActive
      requires c.StopOld? ==> v.active.Some?
      modifies this`link, this`record, this`nginx, this`blue, this`green, this`legacyUp, this`legacyEnabled
      ensures Now().phase == old(phase) && Broken(c, v, old(Now()).host, Now().host)
    {
      var halfDone: bool := *;
      match c
      case StartCandidate =>
        var container: Container := *;
        SetContainer(v.candidate, container);
      case StopLegacy => legacyUp := halfDone;
      case EnableNginx =>
        if halfDone {
          Perform(c, v);
        }
      case Reload =>
        if halfDone && nginx.Up? {
          Perform(c, v);
        }
      case StopOld =>
        if halfDone {
          Perform(c, v);
        }
      case _ =>
    }

    predicate Must(c: Command, v: Vars) {
      c.RemoveStale? || c.DisableLegacy? || (c.StopLegacy? && !v.legacyWasActive) || (c.StopOld? && v.active.None?)
    }

    method Succeed(c: Command, v: Vars)
      requires Valid() && phase == Forward(c, v, Flags(linkChanged, switched, legacyStopped))
      requires CanSucceed(c, v, Now().host)
      modifies this
      ensures Valid() && history == old(history) + [Now()] && Executes(old(Now()), Now())
      ensures phase == if Next(c).Some? then Forward(Next(c).value, v, Flags(linkChanged, switched, legacyStopped)) else Idle
    {
      ghost var s := Now();
      Attempt(c, v);
      linkChanged := linkChanged || c.SwitchLink?;
      legacyStopped := legacyStopped || (c.StopLegacy? && v.legacyWasActive);
      switched := switched || c.Reload?;
      SuccessIsAStep(s, State(Now().host, if Next(c).Some? then Forward(Next(c).value, v, FlagsAfter(c, v, s.phase.flags)) else Idle));
      Advance(s, if Next(c).Some? then Forward(Next(c).value, v, FlagsAfter(c, v, s.phase.flags)) else Idle);
    }

    method Fail(c: Command, v: Vars)
      requires Valid() && phase == Forward(c, v, Flags(linkChanged, switched, legacyStopped)) && !Must(c, v)
      modifies this
      ensures Valid() && history == old(history) + [Now()] && Executes(old(Now()), Now())
      ensures phase == Rollback(StartOld, v, Flags(linkChanged, switched, legacyStopped))
    {
      ghost var s := Now();
      Break(c, v);
      Advance(s, Rollback(StartOld, v, s.phase.flags));
    }

    /** One command after the trap, with any outcome it can have: it succeeds, or fails and the trap takes over. */
    method Execute(c: Command, v: Vars) returns (ok: bool)
      requires Valid() && phase == Forward(c, v, Flags(linkChanged, switched, legacyStopped))
      modifies this
      ensures Valid() && old(history) <= history
      ensures ok ==> phase == if Next(c).Some? then Forward(Next(c).value, v, Flags(linkChanged, switched, legacyStopped)) else Idle
      ensures !ok ==> phase == Rollback(StartOld, v, Flags(linkChanged, switched, legacyStopped))
      ensures Inv(old(Now())) ==> Inv(Now()) && (phase.Idle? ==> Switched(v, Now().host))
    {
      ghost var s := Now();
      var attempt: bool := *;
      ok := Must(c, v) || (attempt && CanSucceed(c, v, Host(link, record, nginx, blue, green, legacyUp, legacyEnabled)));
      if ok {
        Succeed(c, v);
      } else {
        Fail(c, v);
      }
      if Inv(s) {
        ForwardKeepsInv(s, Now());
      }
    }

    /** Lines 235-290: pull, start the candidate, probe it directly. */
    method PrepareCandidate(v: Vars) returns (ok: bool)
      requires Valid() && phase == Forward(Prepare, v, Flags(linkChanged, switched, legacyStopped))
      modifies this
      ensures Valid() && old(history) <= history && (Inv(old(Now())) ==> Inv(Now()))
      ensures phase == if ok then Forward(SwitchLink, v, Flags(linkChanged, switched, legacyStopped))
                       else Rollback(StartOld, v, Flags(linkChanged, switched, legacyStopped))
    {
      ok := Execute(Prepare, v);
      if ok { ok := Execute(RemoveStale, v); }
      if ok { ok := Execute(StartCandidate, v); }
      if ok { ok := Execute(ProbeCandidate, v); }
    }

    /** Lines 292-295: switch the link. */
    method MoveLink(v: Vars) returns (ok: bool)
      requires Valid() && phase == Forward(SwitchLink, v, Flags(linkChanged, switched, legacyStopped))
      modifies this
      ensures Valid() && old(history) <= history && (Inv(old(Now())) ==> Inv(Now()))
      ensures phase == if ok then Forward(StopLegacy, v, Flags(linkChanged, switched, legacyStopped))
                       else Rollback(StartOld, v, Flags(linkChanged, switched, legacyStopped))
    {
      ok := Execute(SwitchLink, v);
      if ok { ok := Execute(TestConfig, v); }
    }

    /** Lines 297-304: release the port and reload Nginx. */
    method MoveNginx(v: Vars) returns (ok: bool)
      requires Valid() && phase == Forward(StopLegacy, v, Flags(linkChanged, switched, legacyStopped))
      modifies this
      ensures Valid() && old(history) <= history && (Inv(old(Now())) ==> Inv(Now()))
      ensures phase == if ok then Forward(SmokeTest, v, Flags(linkChanged, switched, legacyStopped))
                       else Rollback(StartOld, v, Flags(linkChanged, switched, legacyStopped))
    {
      ok := Execute(StopLegacy, v);
      if ok { ok := Execute(EnableNginx, v); }
      if ok { ok := Execute(Reload, v); }
    }

    /** Lines 306-329: test through Nginx, record the slot, retire the legacy unit. */
    method Confirm(v: Vars) returns (ok: bool)
      requires Valid() && phase == Forward(SmokeTest, v, Flags(linkChanged, switched, legacyStopped))
      modifies this
      ensures Valid() && old(history) <= history && (Inv(old(Now())) ==> Inv(Now()))
      ensures phase == if ok then Forward(Drain, v, Flags(linkChanged, switched, legacyStopped))
                       else Rollback(StartOld, v, Flags(linkChanged, switched, legacyStopped))
    {
      ok := Execute(SmokeTest, v);
      if ok { ok := Execute(WriteRecord, v); }
      if ok { ok := Execute(DisableLegacy, v); }
    }

    /** Lines 331-335: drain and stop the old container. */
    method Retire(v: Vars) returns (ok: bool)
      requires Valid() && phase == Forward(Drain, v, Flags(linkChanged, switched, legacyStopped))
      modifies this
      ensures Valid() && old(history) <= history
      ensures Inv(old(Now())) ==> Inv(Now()) && (ok ==> Switched(v, Now().host))
      ensures phase == if ok then Idle else Rollback(StartOld, v, Flags(linkChanged, switched, legacyStopped))
    {
      ok := Execute(Drain, v);
      if ok { ok := Execute(StopOld, v); }
    }

    /** What a command of the rollback does to the host. */
    method Revert(u: Undo, v: Vars)
      modifies this`link, this`record, this`nginx, this`blue, this`green, this`legacyUp, this`legacyEnabled
      ensures Now() == State(Undone(u, v, Flags(true, true, true), old(Now()).host, true), old(phase))
    {
      match u
      case StartOld =>
        if v.active.Some? {
          var container := if v.active.value.Blue? then blue else green;
          if container.Stopped? {
            SetContainer(v.active.value, Running(container.version));
          }
        }
      case RestoreLink => link := PreviousLink(v);
      case RestoreNginx =>
        if v.active.None? && v.legacyWasActive {
          nginx := Down;
        } else if nginx.Up? {
          nginx := Up(if link.To? then Some(link.slot) else None);
        }
      case RestoreLegacy =>
        if v.legacyWasActive {
          legacyUp, legacyEnabled := true, true;
        }
      case RestoreRecord => record := if v.active.Some? then Names(v.active.value) else NoFile;
      case RemoveCandidate => SetContainer(v.candidate, Absent);
    }

    /** One command of the rollback. */
    method Undo(u: Undo, v: Vars)
      requires Valid() && phase == Rollback(u, v, Flags(linkChanged, switched, legacyStopped))
      modifies this
      ensures Valid() && history == old(history) + [Now()] && Undoes(old(Now()), Now())
      ensures phase == if NextUndo(u).Some? then Rollback(NextUndo(u).value, v, Flags(linkChanged, switched, legacyStopped)) else Idle
    {
      ghost var s := Now();
      ghost var f := Flags(linkChanged, switched, legacyStopped);
      if linkChanged || switched || legacyStopped || u.RemoveCandidate? {
        Revert(u, v);
      }
      UndoIsAStep(s, State(Now().host, if NextUndo(u).Some? then Rollback(NextUndo(u).value, v, f) else Idle));
      Advance(s, if NextUndo(u).Some? then Rollback(NextUndo(u).value, v, f) else Idle);
    }

    /** The ERR trap. */
    method RollbackAll(v: Vars)
      requires Valid() && phase == Rollback(StartOld, v, Flags(linkChanged, switched, legacyStopped))
      modifies this
      ensures Valid() && phase.Idle? && old(history) <= history
      ensures Inv(old(Now())) ==> Inv(Now()) && Restored(v, Now().host)
    {
      ghost var s0 := Now();
      Undo(StartOld, v);
      ghost var s1 := Now();
      Undo(RestoreLink, v);
      ghost var s2 := Now();
      Undo(RestoreNginx, v);
      ghost var s3 := Now();
      Undo(RestoreLegacy, v);
      ghost var s4 := Now();
      Undo(RestoreRecord, v);
      ghost var s5 := Now();
      Undo(RemoveCandidate, v);
      if Inv(s0) {
        UndoKeepsInv(s0, s1);
        UndoKeepsInv(s1, s2);
        UndoKeepsInv(s2, s3);
        UndoKeepsInv(s3, s4);
        UndoKeepsInv(s4, s5);
        FailedRunRestores(s5, Now());
      }
    }

    /** Everything after the trap: to the end, or back by the rollback. */
    method RunForward(v: Vars) returns (ok: bool)
      requires Valid() && phase == Forward(Prepare, v, Flags(linkChanged, switched, legacyStopped))
      modifies this
      ensures Valid() && phase.Idle? && old(history) <= history
      ensures Inv(old(Now())) ==> Inv(Now()) && if ok then Switched(v, Now().host) else Restored(v, Now().host)
    {
      ok := PrepareCandidate(v);
      if ok { ok := MoveLink(v); }
      if ok { ok := MoveNginx(v); }
      if ok { ok := Confirm(v); }
      if ok { ok := Retire(v); }
      if !ok { RollbackAll(v); }
    }

    /**
     A deployment.  From a host at rest the other slot ends up with the version asked for, or
     everything is taken back, and the site never stops being served.
     */
    method Deploy(version: Version) returns (ok: bool)
      requires Valid() && phase.Idle?
      modifies this
      ensures Valid() && phase.Idle? && old(history) <= history
      ensures !Startable(old(Now()).host) ==> !ok && history == old(history) + [Now()]
      ensures AtRest(old(Now()).host) ==>
                if ok then Deployed(old(Now()).host, version, Now().host) else TakenBack(old(Now()).host, Now().host)
      ensures old(history)[0].phase.Idle? && AtRest(old(history)[0].host) ==>
                forall i :: 0 <= i < |history| ==> Serving(history[i].host) && Serving(Boot(history[i].host))
    {
      ghost var start := Now();
      var d := FindSlots(version);
      ok := d.Proceed?;
      if ok {
        assert AtRest(start.host) ==> Inv(Now()) by {
          if AtRest(start.host) {
            StepKeepsInv(start, Now());
          }
        }
        ok := RunForward(d.vars);
        if AtRest(start.host) {
          EndOfARun(start.host, version, d.vars, Now().host);
        }
      }
      if history[0].phase.Idle? && AtRest(history[0].host) {
        HistoriesKeepServing(history);
      }
    }
  }
}
