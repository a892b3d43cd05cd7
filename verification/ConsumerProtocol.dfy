/**
  The resident Consumer as a transition system. A handler of one delivery moves from effect to effect; between any
  two of them the world may change or the Consumer may die and be started again. What survives a death is the journal,
  the job and outcome files, the attempts in UAM and the processes.

  The journal is kept per delivery: `Ledgers.LedgersAreIndependent` shows that nothing else can be read from it.
*/
module ConsumerProtocol {
  import opened Wrappers
  import opened Ledgers

  // ---- processes ------------------------------------------------------------------------------------------

  datatype Owner = Owner(delivery: DeliveryId, attempt: AttemptRef)

  /**
    `confined`: it and everything it starts stay in its process group (what a `process-group` handle declares). A parent
    that is no longer alive leaves an orphan.
  */
  datatype Process = Process(
    pid: Pid, pgid: Pid, command: string, owner: Option<Owner>, confined: bool, parent: Option<Birth>)

  datatype World = World(live: map<Birth, Process>, next: Birth)

  predicate FreshPid(w: World, pid: Pid) {
    forall b :: b in w.live ==> w.live[b].pid != pid && w.live[b].pgid != pid
  }

  predicate GroupAlive(w: World, pgid: Pid) {
    exists b :: b in w.live && w.live[b].pgid == pgid
  }

  function Bear(w: World, p: Process): World {
    World(w.live[w.next := p], w.next + 1)
  }

  datatype WorldStep =
    | Exit(b: Birth)
    | Exec(b: Birth, command: string)
    | Fork(b: Birth, pid: Pid, apart: bool)
    | Unrelated(pid: Pid, pgid: Pid, command: string)
    | Adopt(orphan: Birth, parent: Birth)

  predicate ChildOf(w: World, b: Birth, parent: Birth) {
    b in w.live && parent in w.live && w.live[b].parent == Some(parent)
  }

  predicate Orphan(w: World, b: Birth) {
    b in w.live && (w.live[b].parent.Some? ==> w.live[b].parent.value !in w.live)
  }

  function MoveWorld(w: World, step: WorldStep): Option<World> {
    match step
    case Exit(b) => if b in w.live then Some(w.(live := w.live - {b})) else None
    case Exec(b, command) => if b in w.live then Some(w.(live := w.live[b := w.live[b].(command := command)])) else None
    case Fork(b, pid, apart) =>
      if b in w.live && FreshPid(w, pid) then
        var parent := w.live[b];
        Some(Bear(w, parent.(pid := pid, pgid := if apart && !parent.confined then pid else parent.pgid, parent := Some(b))))
      else None
    case Unrelated(pid, pgid, command) =>
      if FreshPid(w, pid) then Some(Bear(w, Process(pid, pgid, command, None, false, None))) else None
    case Adopt(orphan, parent) =>
      if Orphan(w, orphan) && parent in w.live then
        Some(w.(live := w.live[orphan := w.live[orphan].(parent := Some(parent))]))
      else None
  }

  // ---- the stop question ----------------------------------------------------------------------------------

  datatype StopState =
    | EndNotRecorded | ObservationFailed | ExitedBeforeObservation | ReadbackUnavailable
    | StillAlive | IdentityChanged | Unprovable | Gone

  /** A strict read of the process table for the recorded identities. */
  datatype ReadBack = Unreadable | Answer(same: bool, changed: bool)

  function SeenIn(end: EndReport): seq<Identity> {
    if end.report.Some? then end.report.value.seen else []
  }

  predicate SameThere(w: World, seen: seq<Identity>) {
    exists k, b :: 0 <= k < |seen| && b in w.live && w.live[b].pid == seen[k].pid && w.live[b].command == seen[k].command
  }

  predicate ChangedThere(w: World, seen: seq<Identity>) {
    exists k, b :: 0 <= k < |seen| && b in w.live && w.live[b].pid == seen[k].pid && w.live[b].command != seen[k].command
  }

  /** What the journal and the read-backs say about an executor; `None` where the ordinary rules apply. */
  function StateOf(handle: Option<Handle>, ended: Option<EndReport>, readBack: ReadBack, groupAlive: bool): Option<StopState> {
    match ended
    case None => if handle.Some? && handle.value.kind != ProcessGroup then Some(EndNotRecorded) else None
    case Some(end) =>
      if end.stopped then None
      else if end.report.Some? && !end.report.value.observed then Some(ObservationFailed)
      else if end.report.Some? && !end.report.value.covered then Some(ExitedBeforeObservation)
      else if readBack.Unreadable? then Some(ReadbackUnavailable)
      else if readBack.same || groupAlive then Some(StillAlive)
      else if readBack.changed then Some(IdentityChanged)
      else if SeenIn(end) != [] || (handle.Some? && handle.value.kind == ProcessGroup) then Some(Gone)
      else Some(Unprovable)
  }

  function AdvisoryOf(state: StopState): (AdvisoryPhase, string) {
    match state
    case StillAlive => (Waiting, "EXECUTOR_NOT_CONFIRMED_STOPPED")
    case IdentityChanged => (Waiting, "EXECUTOR_PID_IDENTITY_CHANGED")
    case ReadbackUnavailable => (LeftOpen, "EXECUTOR_STOP_READBACK_UNAVAILABLE")
    case ObservationFailed => (LeftOpen, "EXECUTOR_STOP_OBSERVATION_FAILED")
    case ExitedBeforeObservation => (LeftOpen, "EXECUTOR_EXITED_BEFORE_OBSERVATION")
    case EndNotRecorded => (LeftOpen, "EXECUTOR_END_NOT_RECORDED")
    case Unprovable => (LeftOpen, "EXECUTOR_STOP_UNPROVABLE")
    case Gone => (LeftOpen, "")
  }

  // ---- one delivery ---------------------------------------------------------------------------------------

  datatype Attempt = Attempt(own: bool, active: bool)

  datatype AdapterKind = LocalCommand | AgentAdapter

  datatype Outcome = Done | Failed(beforeEffect: bool)

  /** What UAM is told when an attempt is settled. */
  datatype Action =
    | NoExecutorWasStarted
    | ExecutorGoneNoOutcome
    | WorkerFailed(beforeEffect: bool)
    | TaskFailed
    | SubmitResult

  /**
    With what the handler went by: the handle and the end record of its ledger, and the outcome file it read. `since` is
    the moment at which it last found the recorded group empty; no decision reads it.
  */
  datatype Settlement = Settlement(
    attempt: AttemptRef, action: Action, handle: Option<Handle>, ended: Option<EndReport>, outcome: Option<Outcome>,
    since: Birth)

  /** Where a handler stands: the effect it performs next, with what it has read so far. */
  datatype Pc =
    | Reading(v2: bool, active: bool)
    | StartView(l: Ledger)
    | Admitted(l: Ledger, kind: AdapterKind)
    | IntentWritten(l: Ledger, kind: AdapterKind)
    | Clearing(l: Ledger, code: string)
    | Begun(attempt: AttemptRef, kind: AdapterKind)
    | LiveWritten(attempt: AttemptRef, kind: AdapterKind)
    | Prepared(attempt: AttemptRef, kind: AdapterKind)
    | JobWritten(attempt: AttemptRef)
    | Spawned(attempt: AttemptRef, kind: AdapterKind, root: Birth, pid: Pid)
    | Running(attempt: AttemptRef, kind: AdapterKind, root: Birth, pid: Pid)
    | Observed(attempt: AttemptRef, root: Birth, pid: Pid, report: StopReport)
    | Asked(attempt: AttemptRef, root: Birth, pid: Pid, report: StopReport)
    | Closed(attempt: AttemptRef, root: Birth, pid: Pid, report: StopReport, returned: bool)
    | Checked(attempt: AttemptRef, root: Birth, pid: Pid, report: StopReport, returned: bool, clear: bool)
    | RunReturned(attempt: AttemptRef, end: EndReport)
    | EndWritten(attempt: AttemptRef)
    | FinalRead(l: Ledger)
    | GroupCheck(l: Ledger, outcome: Option<Outcome>)
    | StopCheck(l: Ledger, outcome: Option<Outcome>, since: Birth)
    | StopGroup(l: Ledger, outcome: Option<Outcome>, since: Birth, readBack: ReadBack)
    | GoneSeen(l: Ledger, outcome: Option<Outcome>, since: Birth)
    | Deciding(l: Ledger, outcome: Option<Outcome>, since: Birth)
    | Submitting(l: Ledger, outcome: Option<Outcome>, since: Birth)
    | Telling(l: Ledger, action: Action, outcome: Option<Outcome>, since: Birth)
    | Told(l: Ledger, action: Action)
    | AdoptView(l: Ledger)
    | AdoptClearing(l: Ledger)
    | Adopting(l: Ledger, attempt: AttemptRef)
    | Noting(l: Ledger, phase: AdvisoryPhase, code: string)

  /** The process that an adapter spawned, and the group it leads. */
  datatype Group = Group(root: Birth, pgid: Pid)

  /** What an adapter recorded of its server's tree, and the processes as they were when it read the table. */
  datatype Observation = Observation(births: set<Birth>, world: World)

  /**
    `runs`, `adopted`, `groups`, `recorded`, `closed` and `settlements` are history: no decision reads them. `closed` says
    when an adapter that called its executor stopped had found the group empty.
  */
  datatype Delivery = Delivery(
    attempts: seq<Attempt>,
    entries: seq<Entry>,
    handler: Option<Pc>,
    jobs: set<AttemptRef>,
    outcomes: map<AttemptRef, Outcome>,
    runs: map<AttemptRef, AdapterKind>,
    adopted: set<AttemptRef>,
    groups: map<AttemptRef, Group>,
    recorded: map<AttemptRef, Observation>,
    closed: map<AttemptRef, Birth>,
    settlements: seq<Settlement>)

  const NEW_DELIVERY := Delivery([], [], None, {}, map[], map[], {}, map[], map[], map[], [])

  function At(x: Delivery, pc: Pc): Delivery {
    x.(handler := Some(pc))
  }

  function Write(x: Delivery, e: Entry, next: Option<Pc>): Delivery {
    x.(entries := x.entries + [e], handler := next)
  }

  function HandleOf(kind: AdapterKind, pid: Pid): Handle {
    Handle(if kind == LocalCommand then ProcessGroup else AgentServer, pid, pid)
  }

  predicate NoActiveAttempt(x: Delivery) {
    x.attempts == [] || !x.attempts[|x.attempts| - 1].active
  }

  /** From the inbox to an attempt that the journal calls live, or to an adopted one. */
  datatype StartStep =
    | Poll(v2: bool, active: bool)
    | ReadLedger
    | DenyStart(phase: AdvisoryPhase, code: string)
    | Admit(kind: AdapterKind)
    | TargetBusy
    | WriteIntent
    | StartRefused(code: string)
    | StartLost(effect: bool)
    | StartAccepted
    | WriteCleared
    | WriteStarted
    | LookAtUam
    | WriteNoAttempt
    | WriteAdopted

  function ActStart(x: Delivery, step: StartStep): Option<Delivery> {
    match step
    case Poll(v2, active) => if x.handler.None? then Some(At(x, Reading(v2, active))) else None
    case ReadLedger =>
      if x.handler.Some? && x.handler.value.Reading? then
        var l := LedgerOf(x.entries);
        if l.live.Some? then Some(At(x, FinalRead(l)))
        else if l.intent then Some(At(x, AdoptView(l)))
        else if !x.handler.value.v2 then Some(At(x, Noting(l, Denied, "NOT_CONTINUITY_V2")))
        else if x.handler.value.active then Some(x.(handler := None))
        else Some(At(x, StartView(l)))
      else None
    case DenyStart(phase, code) =>
      if x.handler.Some? && x.handler.value.StartView? then Some(At(x, Noting(x.handler.value.l, phase, code))) else None
    case Admit(kind) =>
      if x.handler.Some? && x.handler.value.StartView? then
        var l := x.handler.value.l;
        Some(At(x, if x.attempts != [] then Noting(l, Blocked, "PRIOR_ATTEMPT_NO_AUTOMATIC_REDO") else Admitted(l, kind)))
      else None
    case TargetBusy =>
      if x.handler.Some? && x.handler.value.Admitted? then Some(At(x, Noting(x.handler.value.l, Blocked, "TARGET_BUSY"))) else None
    case WriteIntent =>
      if x.handler.Some? && x.handler.value.Admitted? then
        Some(Write(x, Intent, Some(IntentWritten(x.handler.value.l, x.handler.value.kind))))
      else None
    case StartRefused(code) =>
      if x.handler.Some? && x.handler.value.IntentWritten? then Some(At(x, Clearing(x.handler.value.l, code))) else None
    case StartLost(effect) =>
      if x.handler.Some? && x.handler.value.IntentWritten? && (effect ==> NoActiveAttempt(x)) then
        Some(x.(handler := None, attempts := if effect then x.attempts + [Attempt(true, true)] else x.attempts))
      else None
    case StartAccepted =>
      if x.handler.Some? && x.handler.value.IntentWritten? && NoActiveAttempt(x) then
        Some(x.(attempts := x.attempts + [Attempt(true, true)],
                handler := Some(Begun(|x.attempts|, x.handler.value.kind))))
      else None
    case WriteCleared =>
      if x.handler.Some? && x.handler.value.Clearing? then
        Some(Write(x, IntentCleared, Some(Noting(x.handler.value.l, Blocked, x.handler.value.code))))
      else None
    case WriteStarted =>
      if x.handler.Some? && x.handler.value.Begun? then
        var r := x.handler.value.attempt;
        Some(Write(x, Started(r), Some(LiveWritten(r, x.handler.value.kind))))
      else None
    case LookAtUam =>
      if x.handler.Some? && x.handler.value.AdoptView? then
        var l, n := x.handler.value.l, |x.attempts|;
        Some(At(x,
          if n == 0 then AdoptClearing(l)
          else if x.attempts[n - 1].own && x.attempts[n - 1].active then Adopting(l, n - 1)
          else Noting(l, LeftOpen, "INTENT_UNRESOLVED")))
      else None
    case WriteNoAttempt =>
      if x.handler.Some? && x.handler.value.AdoptClearing? then Some(Write(x, IntentCleared, None)) else None
    case WriteAdopted =>
      if x.handler.Some? && x.handler.value.Adopting? then
        var r := x.handler.value.attempt;
        var written := Write(x, Started(r), None);
        Some(written.(adopted := x.adopted + {r}, handler := Some(FinalRead(LedgerOf(written.entries)))))
      else None
  }

  /** One call of `adapter.run`, and the record of its end. */
  datatype RunStep =
    | CallAdapter
    | AdapterRefuses
    | WriteJob
    | SpawnFails
    | Spawn(pid: Pid, command: string)
    | Announce
    | AdapterRaises
    | AnnounceAgain
    | LocalReturns(stopped: bool)
    | ObserveFails
    | Observe(seen: seq<Identity>)
    | AskExited
    | Close(returned: bool)
    | ReadTable(readable: bool)
    | Report
    | WriteEnded
    | Persist(outcome: Option<Outcome>)

  /** The identities are those of processes seen now or before: one that is still there has the PID it was seen with. */
  predicate SeenSoFar(w: World, seen: seq<Identity>) {
    forall k :: 0 <= k < |seen| ==>
      seen[k].birth < w.next && (seen[k].birth in w.live ==> w.live[seen[k].birth].pid == seen[k].pid)
  }

  /** A call of the adapter that has not returned: an exception can end it anywhere, and the Consumer keeps only that. */
  predicate InAdapter(pc: Pc) {
    pc.Prepared? || pc.JobWritten? || pc.Spawned? || pc.Running? || pc.Observed? || pc.Asked? || pc.Closed? || pc.Checked?
  }

  function Births(seen: seq<Identity>): set<Birth> {
    set k | 0 <= k < |seen| :: seen[k].birth
  }

  /** The recorded tree of a server that runs: the server, and whatever has a recorded parent. */
  predicate HoldsTree(w: World, root: Birth, births: set<Birth>) {
    root in w.live ==>
      root in births && forall b :: b in w.live && (exists c :: c in births && ChildOf(w, b, c)) ==> b in births
  }

  function Closes(w: World, x: Delivery, r: AttemptRef, stopped: bool): map<AttemptRef, Birth> {
    if stopped then x.closed[r := w.next] else x.closed
  }

  function ActRun(w: World, d: DeliveryId, x: Delivery, step: RunStep): Option<(World, Delivery)> {
    if x.handler.None? then None
    else
      var pc := x.handler.value;
      match step
      case CallAdapter =>
        if pc.LiveWritten? then Some((w, At(x, Prepared(pc.attempt, pc.kind)).(runs := x.runs[pc.attempt := pc.kind]))) else None
      case AdapterRefuses =>
        if pc.Prepared? then Some((w, At(x, RunReturned(pc.attempt, EndReport(true, None))))) else None
      case WriteJob =>
        if pc.Prepared? && pc.kind == LocalCommand then
          Some((w, At(x, JobWritten(pc.attempt)).(jobs := x.jobs + {pc.attempt})))
        else None
      case SpawnFails =>
        if pc.JobWritten? || (pc.Prepared? && pc.kind == AgentAdapter) then
          Some((w, At(x, RunReturned(pc.attempt, EndReport(true, None)))))
        else None
      case Spawn(pid, command) =>
        if FreshPid(w, pid) && (pc.JobWritten? || (pc.Prepared? && pc.kind == AgentAdapter)) then
          var kind := if pc.JobWritten? then LocalCommand else AgentAdapter;
          var root := Process(pid, pid, command, Some(Owner(d, pc.attempt)), kind == LocalCommand, None);
          Some((Bear(w, root), At(x, Spawned(pc.attempt, kind, w.next, pid)).(groups := x.groups[pc.attempt := Group(w.next, pid)])))
        else None
      case Announce =>
        if pc.Spawned? then
          Some((w, Write(x, ExecutorStarted(pc.attempt, HandleOf(pc.kind, pc.pid)),
                         Some(Running(pc.attempt, pc.kind, pc.root, pc.pid)))))
        else None
      case AdapterRaises =>
        if InAdapter(pc) then
          Some((w, At(x, RunReturned(pc.attempt, EndReport(false, None))).(recorded := x.recorded - {pc.attempt})))
        else None
      case AnnounceAgain =>
        if pc.Running? && pc.kind == AgentAdapter then
          Some((w, Write(x, ExecutorStarted(pc.attempt, HandleOf(pc.kind, pc.pid)), Some(pc))))
        else None
      case LocalReturns(stopped) =>
        if pc.Running? && pc.kind == LocalCommand && (stopped ==> !GroupAlive(w, pc.pid)) then
          Some((w, At(x, RunReturned(pc.attempt, EndReport(stopped, None))).(closed := Closes(w, x, pc.attempt, stopped))))
        else None
      case ObserveFails =>
        if pc.Running? && pc.kind == AgentAdapter then
          Some((w, At(x, Asked(pc.attempt, pc.root, pc.pid, StopReport(false, false, [])))))
        else None
      case Observe(seen) =>
        if pc.Running? && pc.kind == AgentAdapter && SeenSoFar(w, seen) && HoldsTree(w, pc.root, Births(seen)) then
          Some((w, At(x, Observed(pc.attempt, pc.root, pc.pid, StopReport(true, true, seen)))
                     .(recorded := x.recorded[pc.attempt := Observation(Births(seen), w)])))
        else None
      case AskExited =>
        if pc.Observed? then
          Some((w, At(x, Asked(pc.attempt, pc.root, pc.pid, pc.report.(covered := pc.root in w.live)))))
        else None
      case Close(returned) =>
        if pc.Asked? && (returned ==> !GroupAlive(w, pc.pid)) then
          Some((w, At(x, Closed(pc.attempt, pc.root, pc.pid, pc.report, returned))))
        else None
      case ReadTable(readable) =>
        if pc.Closed? then
          var clear := readable && !SameThere(w, pc.report.seen) && !ChangedThere(w, pc.report.seen);
          Some((w, At(x, Checked(pc.attempt, pc.root, pc.pid, pc.report, pc.returned, clear))))
        else None
      case Report =>
        if pc.Checked? then
          var confirmed := pc.returned && pc.report.observed && pc.report.covered && pc.clear && !GroupAlive(w, pc.pid);
          Some((w, At(x, RunReturned(pc.attempt, EndReport(confirmed, Some(pc.report))))
                     .(closed := Closes(w, x, pc.attempt, confirmed))))
        else None
      case WriteEnded =>
        if pc.RunReturned? then Some((w, Write(x, ExecutorEnded(pc.attempt, pc.end), Some(EndWritten(pc.attempt))))) else None
      case Persist(outcome) =>
        if pc.EndWritten? then
          var kept := if outcome.Some? then x.outcomes[pc.attempt := outcome.value] else x.outcomes;
          Some((w, At(x, FinalRead(LedgerOf(x.entries))).(outcomes := kept)))
        else None
  }

  /** Settling a live attempt from durable facts, and every other way a handler ends. */
  datatype FinalStep =
    | ReadOutcome
    | CheckGroup
    | CheckStop(readable: bool)
    | DecideStop
    | WriteReconciled
    | Decide
    | SubmitBlocked(code: string)
    | SubmitFails
    | SubmitNow
    | Tell(accepted: bool, code: string)
    | WriteSettled
    | Note
    | WriteRemark
    | Abort

  function ActFinal(w: World, x: Delivery, step: FinalStep): Option<Delivery> {
    if x.handler.None? then None
    else
      var pc := x.handler.value;
      match step
      case ReadOutcome =>
        if pc.FinalRead? && pc.l.live.Some? then
          var r := pc.l.live.value;
          Some(At(x, GroupCheck(pc.l, if r in x.outcomes then Some(x.outcomes[r]) else None)))
        else None
      case CheckGroup =>
        if pc.GroupCheck? then
          Some(At(x, if pc.l.handle.Some? && GroupAlive(w, pc.l.handle.value.pgid)
                     then Noting(pc.l, Waiting, "EXECUTOR_STILL_RUNNING") else StopCheck(pc.l, pc.outcome, w.next)))
        else None
      case CheckStop(readable) =>
        if pc.StopCheck? then
          var seen := if pc.l.ended.Some? then SeenIn(pc.l.ended.value) else [];
          var answer := if seen == [] then Answer(false, false)
                        else if !readable then Unreadable else Answer(SameThere(w, seen), ChangedThere(w, seen));
          Some(At(x, StopGroup(pc.l, pc.outcome, pc.since, answer)))
        else None
      case DecideStop =>
        if pc.StopGroup? then
          var state := StateOf(pc.l.handle, pc.l.ended, pc.readBack,
                               pc.l.handle.Some? && GroupAlive(w, pc.l.handle.value.pgid));
          Some(At(x,
            if state.None? then Deciding(pc.l, pc.outcome, pc.since)
            else if state.value == Gone then
              if pc.l.reconciled then Deciding(pc.l, pc.outcome, w.next) else GoneSeen(pc.l, pc.outcome, w.next)
            else var (phase, code) := AdvisoryOf(state.value); Noting(pc.l, phase, code)))
        else None
      case WriteReconciled =>
        if pc.GoneSeen? && pc.l.live.Some? then Some(Write(x, Reconciled(pc.l.live.value), Some(Deciding(pc.l, pc.outcome, pc.since)))) else None
      case Decide =>
        if pc.Deciding? && pc.l.live.Some? then
          Some(At(x,
            if pc.outcome.None? && pc.l.handle.None? then
              if pc.l.live.value in x.jobs then Noting(pc.l, LeftOpen, "EXECUTOR_UNKNOWN")
              else Telling(pc.l, NoExecutorWasStarted, pc.outcome, pc.since)
            else if pc.outcome.None? then Telling(pc.l, ExecutorGoneNoOutcome, pc.outcome, pc.since)
            else if pc.outcome.value.Failed? then Telling(pc.l, WorkerFailed(pc.outcome.value.beforeEffect), pc.outcome, pc.since)
            else Submitting(pc.l, pc.outcome, pc.since)))
        else None
      case SubmitBlocked(code) => if pc.Submitting? then Some(At(x, Noting(LedgerOf(x.entries), Blocked, code))) else None
      case SubmitFails => if pc.Submitting? then Some(At(x, Telling(pc.l, TaskFailed, pc.outcome, pc.since))) else None
      case SubmitNow => if pc.Submitting? then Some(At(x, Telling(pc.l, SubmitResult, pc.outcome, pc.since))) else None
      case Tell(accepted, code) =>
        if pc.Telling? && pc.l.live.Some? && pc.l.live.value < |x.attempts| then
          var r := pc.l.live.value;
          if accepted then
            Some(At(x, Told(pc.l, pc.action)).(
              attempts := x.attempts[r := x.attempts[r].(active := false)],
              settlements := x.settlements + [Settlement(r, pc.action, pc.l.handle, pc.l.ended, pc.outcome, pc.since)]))
          else Some(At(x, Noting(LedgerOf(x.entries), Blocked, code)))
        else None
      case WriteSettled =>
        if pc.Told? && pc.l.live.Some? then
          var r := pc.l.live.value;
          Some(Write(x, if pc.action == SubmitResult then Submitted(r) else Ended(r), None))
        else None
      case Note =>
        if pc.Noting? then
          Some(if pc.l.advisory == Some((pc.phase, pc.code)) then x.(handler := None)
               else Write(x, Advisory(pc.phase, pc.code), None))
        else None
      case WriteRemark => Some(Write(x, Remark, x.handler))
      case Abort => Some(x.(handler := None))
  }

  /** What others do to a delivery: UAM, other principals, and whoever writes the outcome file. */
  datatype AroundStep =
    | ForeignAttempt
    | CloseAttempt(attempt: AttemptRef)
    | WriteOutcome(attempt: AttemptRef, outcome: Outcome)
    | RemoveOutcome(attempt: AttemptRef)

  function ActAround(x: Delivery, step: AroundStep): Option<Delivery> {
    match step
    case ForeignAttempt => if NoActiveAttempt(x) then Some(x.(attempts := x.attempts + [Attempt(false, true)])) else None
    case CloseAttempt(r) =>
      if r < |x.attempts| then Some(x.(attempts := x.attempts[r := x.attempts[r].(active := false)])) else None
    case WriteOutcome(r, outcome) => Some(x.(outcomes := x.outcomes[r := outcome]))
    case RemoveOutcome(r) => Some(x.(outcomes := x.outcomes - {r}))
  }

  // ---- the whole system -----------------------------------------------------------------------------------

  datatype Step =
    | Start(d: DeliveryId, start: StartStep)
    | Run(d: DeliveryId, run: RunStep)
    | Final(d: DeliveryId, final: FinalStep)
    | Around(d: DeliveryId, around: AroundStep)
    | Processes(world: WorldStep)
    | Crash                                              // the Consumer dies; the next life starts with no handler

  datatype State = State(w: World, deliveries: map<DeliveryId, Delivery>)

  const INITIAL := State(World(map[], 0), map[])

  function Of(s: State, d: DeliveryId): Delivery {
    if d in s.deliveries then s.deliveries[d] else NEW_DELIVERY
  }

  function Put(s: State, d: DeliveryId, x: Option<Delivery>): Option<State> {
    if x.None? then None else Some(s.(deliveries := s.deliveries[d := x.value]))
  }

  function Next(s: State, step: Step): Option<State> {
    match step
    case Start(d, start) => Put(s, d, ActStart(Of(s, d), start))
    case Run(d, run) =>
      var r := ActRun(s.w, d, Of(s, d), run);
      if r.None? then None else Some(State(r.value.0, s.deliveries[d := r.value.1]))
    case Final(d, final) => Put(s, d, ActFinal(s.w, Of(s, d), final))
    case Around(d, around) => Put(s, d, ActAround(Of(s, d), around))
    case Processes(world) =>
      var w := MoveWorld(s.w, world);
      if w.None? then None else Some(s.(w := w.value))
    case Crash => Some(s.(deliveries := map d | d in s.deliveries :: s.deliveries[d].(handler := None)))
  }

  /** The state a run of steps ends in, or `None` if one of them was not possible. */
  function After(steps: seq<Step>): Option<State> {
    if steps == [] then Some(INITIAL)
    else
      var s := After(steps[..|steps| - 1]);
      if s.None? then None else Next(s.value, steps[|steps| - 1])
  }
}
