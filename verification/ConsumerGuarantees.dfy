/**
  What a reader of the Consumer's documentation may rely on, over every run: any interleaving of handlers, processes,
  UAM and outside writers, with a death of the Consumer between any two effects.
*/
module ConsumerGuarantees {
  import opened Wrappers
  import opened Ledgers
  import opened ConsumerProtocol
  import opened ConsumerSafety

  ghost predicate Reached(steps: seq<Step>, s: State) {
    After(steps) == Some(s)
  }

  lemma Sound(steps: seq<Step>, s: State, d: DeliveryId)
    requires Reached(steps, s)
    ensures WorldOk(s.w) && DeliveryOk(s.w, d, Of(s, d))
  {
    EveryRunIsSound(steps);
  }

  // ---- the stop gate ----------------------------------------------------------------------------------------

  /** The settlement was made on the handle and the end record of this journal, and there is only one of each. */
  ghost predicate SpeaksFor(entries: seq<Entry>, s: Settlement) {
    forall k :: 0 <= k < |entries| ==>
      match entries[k]
      case ExecutorStarted(r, h) => r == s.attempt && s.handle == Some(h)
      case ExecutorEnded(r, end) => r == s.attempt && s.ended == Some(end)
      case _ => true
  }

  /**
    The recorded group was empty when it was last looked at, after its root was spawned: the root is dead, and no process
    that existed then is in the group. Its number may be used again.
  */
  ghost predicate GroupGone(w: World, x: Delivery, t: Settlement) {
    && t.handle.Some? && t.attempt in x.groups && x.groups[t.attempt].pgid == t.handle.value.pgid
    && EmptySince(w, x.groups[t.attempt], t.since)
    && forall b :: b in w.live && b < t.since ==> w.live[b].pgid != t.handle.value.pgid
  }

  /**
    UAM is told the outcome of an attempt only if its adapter confirmed the stop, or its handle is a process group
    with no end record, or the observation was made and covered a live server and something was recorded to look for.
    If an executor was announced, its group has been empty and its root is dead. If one was announced or its end
    recorded, every recorded process is dead, and none that is confined to its group is left.
  */
  lemma StopGate(steps: seq<Step>, s: State, d: DeliveryId, k: nat)
    requires Reached(steps, s) && k < |Of(s, d).settlements|
    ensures var x, t := Of(s, d), Of(s, d).settlements[k];
            && SpeaksFor(x.entries, t) && GateOpen(t.handle, t.ended)
            && (t.handle.Some? ==> GroupGone(s.w, x, t))
            && (t.handle.Some? || t.ended.Some? ==> Quiet(s.w, d, x, t.attempt))
  {
    Sound(steps, s, d);
  }

  /** The server ran while its tree was read, and nothing that was in the tree then is alive now. */
  ghost predicate TreeGone(w: World, x: Delivery, r: AttemptRef) {
    && ReadAlive(x, r)
    && forall b :: IsBelow(x.recorded[r].world, x.groups[r].root, b) ==> b !in w.live
  }

  /** An announced agent is settled only when its server and everything that was below the server are dead. */
  lemma SettledAgentLeftNothing(steps: seq<Step>, s: State, d: DeliveryId, k: nat)
    requires Reached(steps, s) && k < |Of(s, d).settlements|
    requires var t := Of(s, d).settlements[k]; t.handle.Some? && t.handle.value.kind == AgentServer
    ensures TreeGone(s.w, Of(s, d), Of(s, d).settlements[k].attempt)
  {
    Sound(steps, s, d);
  }

  /**
    An end record that calls an executor stopped is right: if one was spawned, its group was found empty and its root is
    dead, nothing recorded or confined is left, and of an agent nothing of the tree.
  */
  lemma ConfirmedStopIsReal(steps: seq<Step>, s: State, d: DeliveryId, k: nat)
    requires Reached(steps, s) && k < |Of(s, d).entries|
    requires Of(s, d).entries[k].ExecutorEnded? && Of(s, d).entries[k].end.stopped
    ensures var x, r := Of(s, d), Of(s, d).entries[k].attempt;
            && Quiet(s.w, d, x, r)
            && (r in x.groups ==> r in x.closed && EmptySince(s.w, x.groups[r], x.closed[r]))
            && (r in x.groups && r in x.runs && x.runs[r] == AgentAdapter ==> TreeGone(s.w, x, r))
  {
    Sound(steps, s, d);
  }

  // ---- the recorded tree was the tree ---------------------------------------------------------------------------

  /** The world at some moment of the run. */
  ghost predicate Was(steps: seq<Step>, w: World) {
    exists n: nat :: n <= |steps| && After(steps[..n]).Some? && After(steps[..n]).value.w == w
  }

  lemma StartRecordsNothing(x: Delivery, step: StartStep)
    ensures ActStart(x, step).Some? ==> ActStart(x, step).value.recorded == x.recorded
  {
  }

  lemma FinalRecordsNothing(w: World, x: Delivery, step: FinalStep)
    ensures ActFinal(w, x, step).Some? ==> ActFinal(w, x, step).value.recorded == x.recorded
  {
  }

  lemma RunRecordsNow(w: World, d: DeliveryId, x: Delivery, step: RunStep, r: AttemptRef)
    ensures var t := ActRun(w, d, x, step);
            t.Some? && r in t.value.1.recorded ==>
              t.value.1.recorded[r].world == w || (r in x.recorded && t.value.1.recorded[r] == x.recorded[r])
  {
  }

  /** What a step adds to the records is of the world it is taken in. */
  lemma StepRecordsNow(s: State, step: Step, t: State, d: DeliveryId, r: AttemptRef)
    requires Next(s, step) == Some(t) && r in Of(t, d).recorded
    ensures Of(t, d).recorded[r].world == s.w || (r in Of(s, d).recorded && Of(t, d).recorded[r] == Of(s, d).recorded[r])
  {
    match step
    case Start(e, start) => StartRecordsNothing(Of(s, e), start);
    case Run(e, run) => RunRecordsNow(s.w, e, Of(s, e), run, r);
    case Final(e, final) => FinalRecordsNothing(s.w, Of(s, e), final);
    case _ =>
  }

  /** The tree of `SettledAgentLeftNothing` is that of a moment of the run. */
  lemma {:induction false} RecordedTreeWas(steps: seq<Step>, s: State, d: DeliveryId, r: AttemptRef)
    requires Reached(steps, s) && r in Of(s, d).recorded
    ensures Was(steps, Of(s, d).recorded[r].world)
    decreases |steps|
  {
    if steps != [] {
      var before, step := steps[..|steps| - 1], steps[|steps| - 1];
      var b := After(before).value;
      StepRecordsNow(b, step, s, d, r);
      if Of(s, d).recorded[r].world != b.w {
        RecordedTreeWas(before, b, d, r);
        var n: nat :| n <= |before| && After(before[..n]).Some? && After(before[..n]).value.w == Of(s, d).recorded[r].world;
        assert steps[..n] == before[..n];
      } else {
        assert steps[..|before|] == before;
      }
    }
  }

  lemma {:induction false} NoEndRecord(entries: seq<Entry>)
    requires forall k :: 0 <= k < |entries| ==> !entries[k].ExecutorEnded?
    ensures PastOf(entries).ended.None?
  {
    if entries != [] {
      NoEndRecord(entries[..|entries| - 1]);
    }
  }

  ghost predicate Announces(entries: seq<Entry>, kind: HandleKind) {
    exists k :: 0 <= k < |entries| && entries[k].ExecutorStarted? && entries[k].handle.kind == kind
  }

  /** An announced agent whose end was never recorded is settled in no later life, by no outcome file. */
  lemma UnrecordedEndStaysOpen(steps: seq<Step>, s: State, d: DeliveryId)
    requires Reached(steps, s) && Announces(Of(s, d).entries, AgentServer)
    requires forall k :: 0 <= k < |Of(s, d).entries| ==> !Of(s, d).entries[k].ExecutorEnded?
    ensures Of(s, d).settlements == []
  {
    var x := Of(s, d);
    Sound(steps, s, d);
    NoEndRecord(x.entries);
  }

  /** The end of an executor that was not confirmed, and whose report cannot be the basis of a later answer. */
  predicate CannotBeLifted(end: EndReport) {
    && !end.stopped && end.report.Some?
    && (!end.report.value.observed || !end.report.value.covered)
  }

  ghost predicate EndsWith(entries: seq<Entry>, end: EndReport) {
    exists k :: 0 <= k < |entries| && entries[k].ExecutorEnded? && entries[k].end == end
  }

  /** An executor whose observation failed or covered no live server stays open, whatever the table shows afterwards. */
  lemma FlaggedEndStaysOpen(steps: seq<Step>, s: State, d: DeliveryId, end: EndReport)
    requires Reached(steps, s) && EndsWith(Of(s, d).entries, end) && CannotBeLifted(end)
    ensures Of(s, d).settlements == []
  {
    Sound(steps, s, d);
  }

  /** UAM is told what the outcome file and the handle say, and nothing else. */
  lemma SettlementSaysWhatWasRead(steps: seq<Step>, s: State, d: DeliveryId, k: nat)
    requires Reached(steps, s) && k < |Of(s, d).settlements|
    ensures var t := Of(s, d).settlements[k]; SaysWhatWasRead(t.action, t.outcome, t.handle)
  {
    Sound(steps, s, d);
  }

  // ---- at most one start ------------------------------------------------------------------------------------

  /** Over any number of lives, the Consumer starts at most one attempt, and hands at most one to an adapter. */
  lemma OneAttempt(steps: seq<Step>, s: State, d: DeliveryId)
    requires Reached(steps, s)
    ensures var x := Of(s, d);
            && (forall j, k :: 0 <= j < |x.attempts| && 0 <= k < |x.attempts| && x.attempts[j].own && x.attempts[k].own ==> j == k)
            && (forall r, q :: r in x.runs && q in x.runs ==> r == q)
            && (forall r :: r in x.runs ==> r < |x.attempts| && x.attempts[r].own)
  {
    Sound(steps, s, d);
  }

  /** An adapter is called when none was called before for this delivery. */
  lemma AdapterIsCalledOnce(steps: seq<Step>, s: State, d: DeliveryId)
    requires Reached(steps, s) && Next(s, Run(d, CallAdapter)).Some?
    ensures Of(s, d).runs == map[] && Of(s, d).settlements == [] && Of(s, d).groups == map[]
  {
    Sound(steps, s, d);
  }

  /** An attempt adopted from a dangling intent never had its adapter run, and never will. */
  lemma AdoptedNeverRan(steps: seq<Step>, s: State, d: DeliveryId, r: AttemptRef)
    requires Reached(steps, s) && r in Of(s, d).adopted
    ensures Of(s, d).runs == map[] && Of(s, d).groups == map[]
    ensures forall b :: b in s.w.live ==> !Belongs(s.w.live[b], d, r)
  {
    Sound(steps, s, d);
  }

  /**
    NO_EXECUTOR_WAS_STARTED is true of the local command adapter: no process of the attempt was ever started, since
    job.json comes before the spawn.
  */
  lemma NoExecutorMeansNoProcess(steps: seq<Step>, s: State, d: DeliveryId, k: nat)
    requires Reached(steps, s) && k < |Of(s, d).settlements|
    requires Of(s, d).settlements[k].action == NoExecutorWasStarted
    requires var r := Of(s, d).settlements[k].attempt; r in Of(s, d).runs ==> Of(s, d).runs[r] == LocalCommand
    ensures var r := Of(s, d).settlements[k].attempt;
            r !in Of(s, d).groups && forall b :: b in s.w.live ==> !Belongs(s.w.live[b], d, r)
  {
    Sound(steps, s, d);
  }

  // ---- no handler is stuck ------------------------------------------------------------------------------------

  /** A step for every place that a handler can stand at, none of them its end by an exception. */
  function StepFrom(d: DeliveryId, pc: Pc): (step: Step)
    ensures (step.Start? || step.Run? || step.Final?) && step.d == d
  {
    match pc
    case Reading(_, _) => Start(d, ReadLedger)
    case StartView(_) => Start(d, DenyStart(Denied, ""))
    case Admitted(_, _) => Start(d, WriteIntent)
    case IntentWritten(_, _) => Start(d, StartRefused(""))
    case Clearing(_, _) => Start(d, WriteCleared)
    case Begun(_, _) => Start(d, WriteStarted)
    case LiveWritten(_, _) => Run(d, CallAdapter)
    case Prepared(_, _) => Run(d, AdapterRefuses)
    case JobWritten(_) => Run(d, SpawnFails)
    case Spawned(_, _, _, _) => Run(d, Announce)
    case Running(_, kind, _, _) => Run(d, if kind == LocalCommand then LocalReturns(false) else ObserveFails)
    case Observed(_, _, _, _) => Run(d, AskExited)
    case Asked(_, _, _, _) => Run(d, Close(false))
    case Closed(_, _, _, _, _) => Run(d, ReadTable(true))
    case Checked(_, _, _, _, _, _) => Run(d, Report)
    case RunReturned(_, _) => Run(d, WriteEnded)
    case EndWritten(_) => Run(d, Persist(None))
    case FinalRead(_) => Final(d, ReadOutcome)
    case GroupCheck(_, _) => Final(d, CheckGroup)
    case StopCheck(_, _, _) => Final(d, CheckStop(true))
    case StopGroup(_, _, _, _) => Final(d, DecideStop)
    case GoneSeen(_, _, _) => Final(d, WriteReconciled)
    case Deciding(_, _, _) => Final(d, Decide)
    case Submitting(_, _, _) => Final(d, SubmitNow)
    case Telling(_, _, _, _) => Final(d, Tell(true, ""))
    case Told(_, _) => Final(d, WriteSettled)
    case AdoptView(_) => Start(d, LookAtUam)
    case AdoptClearing(_) => Start(d, WriteNoAttempt)
    case Adopting(_, _) => Start(d, WriteAdopted)
    case Noting(_, _, _) => Final(d, Note)
  }

  /** A place where the attempt that is settled must be known. */
  predicate Settling(pc: Pc) {
    || pc.FinalRead? || pc.GroupCheck? || pc.StopCheck? || pc.StopGroup? || pc.GoneSeen? || pc.Deciding?
    || pc.Submitting? || pc.Telling? || pc.Told?
  }

  lemma StartGoesOn(d: DeliveryId, x: Delivery, pc: Pc)
    requires x.handler == Some(pc) && StepFrom(d, pc).Start?
    ensures ActStart(x, StepFrom(d, pc).start).Some?
  {
  }

  lemma RunGoesOn(w: World, d: DeliveryId, x: Delivery, pc: Pc)
    requires x.handler == Some(pc) && StepFrom(d, pc).Run?
    ensures ActRun(w, d, x, StepFrom(d, pc).run).Some?
  {
  }

  lemma FinalGoesOn(w: World, d: DeliveryId, x: Delivery, pc: Pc)
    requires x.handler == Some(pc) && StepFrom(d, pc).Final?
    requires Settling(pc) ==> pc.l.live.Some? && pc.l.live.value < |x.attempts|
    ensures ActFinal(w, x, StepFrom(d, pc).final).Some?
  {
  }

  lemma SettlesWhatStarted(w: World, d: DeliveryId, x: Delivery, p: Past, pc: Pc)
    requires Stands(w, d, x, p, pc) && Settling(pc)
    ensures p.started.Some? && !p.closed && pc.l.live == p.started
  {
  }

  /**
    A handler that settles an attempt read it as the live one before it asked for anything; it still is: UAM knows it,
    it is the Consumer's own, and it is the one that the journal says was started and not ended.
  */
  lemma SettledAttemptIsKnown(steps: seq<Step>, s: State, d: DeliveryId, pc: Pc)
    requires Reached(steps, s) && Of(s, d).handler == Some(pc) && Settling(pc)
    ensures var x, p := Of(s, d), PastOf(Of(s, d).entries);
            && pc.l.live.Some? && pc.l.live == p.started && !p.closed
            && pc.l.live.value < |x.attempts| && x.attempts[pc.l.live.value].own
  {
    Sound(steps, s, d);
    var p :| Explains(s.w, d, Of(s, d), p);
    SettlesWhatStarted(s.w, d, Of(s, d), p, pc);
  }

  lemma GoesOn(s: State, d: DeliveryId, pc: Pc, step: Step)
    requires Of(s, d).handler == Some(pc) && step == StepFrom(d, pc)
    requires Settling(pc) ==> pc.l.live.Some? && pc.l.live.value < |Of(s, d).attempts|
    ensures Next(s, step).Some?
  {
    match step
    case Start(_, _) => StartGoesOn(d, Of(s, d), pc);
    case Run(_, _) => RunGoesOn(s.w, d, Of(s, d), pc);
    case Final(_, _) => FinalGoesOn(s.w, d, Of(s, d), pc);
  }

  /** Wherever a handler stands in a state that a run reaches, it can go on. */
  lemma NoHandlerIsStuck(steps: seq<Step>, s: State, d: DeliveryId)
    requires Reached(steps, s) && Of(s, d).handler.Some?
    ensures Next(s, StepFrom(d, Of(s, d).handler.value)).Some?
  {
    var pc := Of(s, d).handler.value;
    if Settling(pc) {
      SettledAttemptIsKnown(steps, s, d, pc);
    }
    GoesOn(s, d, pc, StepFrom(d, pc));
  }

  // ---- where the guarantees end -----------------------------------------------------------------------------

  lemma Extended(steps: seq<Step>, step: Step)
    ensures After(steps + [step]) == if After(steps).None? then None else Next(After(steps).value, step)
  {
    assert (steps + [step])[..|steps|] == steps;
  }

  /** A run in which the only delivery so far is `d`. */
  ghost predicate Leads(steps: seq<Step>, w: World, d: DeliveryId, x: Delivery) {
    After(steps) == Some(State(w, map[d := x]))
  }

  lemma ByStart(steps: seq<Step>, w: World, d: DeliveryId, x: Delivery, step: StartStep) returns (more: seq<Step>, y: Delivery)
    requires Leads(steps, w, d, x) && ActStart(x, step).Some?
    ensures Leads(more, w, d, y) && y == ActStart(x, step).value
  {
    more, y := steps + [Start(d, step)], ActStart(x, step).value;
    Extended(steps, Start(d, step));
    assert map[d := x][d := y] == map[d := y];
  }

  lemma ByRun(steps: seq<Step>, w: World, d: DeliveryId, x: Delivery, step: RunStep)
    returns (more: seq<Step>, v: World, y: Delivery)
    requires Leads(steps, w, d, x) && ActRun(w, d, x, step).Some?
    ensures Leads(more, v, d, y) && (v, y) == ActRun(w, d, x, step).value
  {
    more := steps + [Run(d, step)];
    v, y := ActRun(w, d, x, step).value.0, ActRun(w, d, x, step).value.1;
    Extended(steps, Run(d, step));
    assert map[d := x][d := y] == map[d := y];
  }

  lemma ByFinal(steps: seq<Step>, w: World, d: DeliveryId, x: Delivery, step: FinalStep) returns (more: seq<Step>, y: Delivery)
    requires Leads(steps, w, d, x) && ActFinal(w, x, step).Some?
    ensures Leads(more, w, d, y) && y == ActFinal(w, x, step).value
  {
    more, y := steps + [Final(d, step)], ActFinal(w, x, step).value;
    Extended(steps, Final(d, step));
    assert map[d := x][d := y] == map[d := y];
  }

  lemma ByCrash(steps: seq<Step>, w: World, d: DeliveryId, x: Delivery) returns (more: seq<Step>, y: Delivery)
    requires Leads(steps, w, d, x)
    ensures Leads(more, w, d, y) && y == x.(handler := None)
  {
    more, y := steps + [Crash], x.(handler := None);
    Extended(steps, Crash);
    assert (map e | e in map[d := x] :: map[d := x][e].(handler := None)) == map[d := y];
  }

  lemma ByAround(steps: seq<Step>, w: World, d: DeliveryId, x: Delivery, step: AroundStep)
    returns (more: seq<Step>, y: Delivery)
    requires Leads(steps, w, d, x) && ActAround(x, step).Some?
    ensures Leads(more, w, d, y) && y == ActAround(x, step).value
  {
    more, y := steps + [Around(d, step)], ActAround(x, step).value;
    Extended(steps, Around(d, step));
    assert map[d := x][d := y] == map[d := y];
  }

  const NOWHERE := World(map[], 0)

  /** A first life that has journalled its intent. */
  lemma Intended(d: DeliveryId, kind: AdapterKind) returns (steps: seq<Step>, x: Delivery)
    ensures Leads(steps, NOWHERE, d, x)
    ensures x == NEW_DELIVERY.(entries := [Intent], handler := Some(IntentWritten(EMPTY_LEDGER, kind)))
  {
    var poll := Start(d, Poll(true, false));
    x := ActStart(NEW_DELIVERY, Poll(true, false)).value;
    steps := [] + [poll];
    Extended([], poll);
    steps, x := ByStart(steps, NOWHERE, d, x, ReadLedger);
    steps, x := ByStart(steps, NOWHERE, d, x, Admit(kind));
    steps, x := ByStart(steps, NOWHERE, d, x, WriteIntent);
  }

  /** A first life that starts an attempt and calls its adapter. */
  lemma FirstLife(d: DeliveryId, kind: AdapterKind) returns (steps: seq<Step>, x: Delivery)
    ensures Leads(steps, NOWHERE, d, x)
    ensures x == NEW_DELIVERY.(attempts := [Attempt(true, true)], entries := [Intent, Started(0)], runs := map[0 := kind],
                               handler := Some(Prepared(0, kind)))
  {
    var w := NOWHERE;
    steps, x := Intended(d, kind);
    steps, x := ByStart(steps, w, d, x, StartAccepted);
    steps, x := ByStart(steps, w, d, x, WriteStarted);
    steps, w, x := ByRun(steps, w, d, x, CallAdapter);
  }

  const UNANNOUNCED := Ledger(false, Some(0), None, None, None, false)

  lemma LaterReading(steps: seq<Step>, w: World, d: DeliveryId, x: Delivery) returns (more: seq<Step>, y: Delivery)
    requires Leads(steps, w, d, x) && x.handler.None? && LedgerOf(x.entries) == UNANNOUNCED
    ensures Leads(more, w, d, y) && y == At(x, FinalRead(UNANNOUNCED))
  {
    more, y := ByStart(steps, w, d, x, Poll(true, true));
    more, y := ByStart(more, w, d, y, ReadLedger);
  }

  lemma StartedLedger()
    ensures LedgerOf([Intent, Started(0)]) == UNANNOUNCED
  {
    LedgerAppend([], Intent);
    LedgerAppend([Intent], Started(0));
    assert [] + [Intent] == [Intent] && [Intent] + [Started(0)] == [Intent, Started(0)];
  }

  /** A later life that finds a live attempt and no handle passes the stop question. */
  lemma LaterLife(steps: seq<Step>, w: World, d: DeliveryId, x: Delivery) returns (more: seq<Step>, y: Delivery)
    requires Leads(steps, w, d, x) && x.handler.None? && x.entries == [Intent, Started(0)]
    ensures Leads(more, w, d, y)
    ensures y == At(x, Deciding(UNANNOUNCED, if 0 in x.outcomes then Some(x.outcomes[0]) else None, w.next))
  {
    StartedLedger();
    more, y := LaterReading(steps, w, d, x);
    more, y := ByFinal(more, w, d, y, ReadOutcome);
    more, y := ByFinal(more, w, d, y, CheckGroup);
    more, y := ByFinal(more, w, d, y, CheckStop(true));
    more, y := ByFinal(more, w, d, y, DecideStop);
  }

  /** A life that has decided on the outcome it read tells UAM, which accepts. */
  lemma Settles(steps: seq<Step>, w: World, d: DeliveryId, x: Delivery) returns (more: seq<Step>, y: Delivery)
    requires Leads(steps, w, d, x) && x.handler == Some(Submitting(UNANNOUNCED, Some(Done), w.next)) && |x.attempts| > 0
    ensures Leads(more, w, d, y) && |y.settlements| == |x.settlements| + 1
    ensures y.settlements[|x.settlements|] == Settlement(0, SubmitResult, None, None, Some(Done), w.next)
    ensures y.groups == x.groups
  {
    more, y := ByFinal(steps, w, d, x, SubmitNow);
    more, y := ByFinal(more, w, d, y, Tell(true, ""));
  }

  /** The settlement `action` of an attempt, of which a process is alive. */
  ghost predicate SettledWhileAlive(s: State, d: DeliveryId, action: Action) {
    exists k, b ::
      && 0 <= k < |Of(s, d).settlements| && Of(s, d).settlements[k].action == action
      && b in s.w.live && Belongs(s.w.live[b], d, Of(s, d).settlements[k].attempt)
  }

  /** UAM was told NO_EXECUTOR_WAS_STARTED of an attempt that no other adapter than `kind` was run for. */
  ghost predicate SaysNothingStarted(s: State, d: DeliveryId, k: nat, kind: AdapterKind) {
    && k < |Of(s, d).settlements| && Of(s, d).settlements[k].action == NoExecutorWasStarted
    && var r := Of(s, d).settlements[k].attempt; r in Of(s, d).runs ==> Of(s, d).runs[r] == kind
  }

  /** Some process was started for the attempt of a settlement. */
  ghost predicate ProcessStarted(s: State, d: DeliveryId, k: nat) {
    k < |Of(s, d).settlements| && Of(s, d).settlements[k].attempt in Of(s, d).groups
  }

  /** In no run does UAM hear it of this adapter while a process was started. */
  ghost predicate NeverMistaken(kind: AdapterKind) {
    forall steps, s, d, k: nat :: Reached(steps, s) && SaysNothingStarted(s, d, k, kind) ==> !ProcessStarted(s, d, k)
  }

  /** NO_EXECUTOR_WAS_STARTED can be relied on for the local command adapter, and for no other. */
  lemma OnlyTheLocalAdapterIsNeverMistaken(kind: AdapterKind)
    ensures NeverMistaken(kind) <==> kind == LocalCommand
  {
    if kind == LocalCommand {
      forall steps, s, d, k: nat | Reached(steps, s) && SaysNothingStarted(s, d, k, kind)
        ensures !ProcessStarted(s, d, k)
      {
        NoExecutorMeansNoProcess(steps, s, d, k);
      }
    } else {
      var steps, s := AgentMayRunUnannounced("");
      assert Reached(steps, s) && SaysNothingStarted(s, "", 0, kind) && ProcessStarted(s, "", 0);
    }
  }

  /**
    The agent adapter writes no job file: if the Consumer dies between the spawn and the announcement, the next life
    says NO_EXECUTOR_WAS_STARTED while the agent runs.
  */
  lemma AgentMayRunUnannounced(d: DeliveryId) returns (steps: seq<Step>, s: State)
    ensures Reached(steps, s) && SettledWhileAlive(s, d, NoExecutorWasStarted)
    ensures |Of(s, d).settlements| == 1 && SaysNothingStarted(s, d, 0, AgentAdapter) && ProcessStarted(s, d, 0)
  {
    var x, w;
    steps, x := FirstLife(d, AgentAdapter);
    steps, w, x := ByRun(steps, NOWHERE, d, x, Spawn(7, "agent"));
    steps, x := ByCrash(steps, w, d, x);
    steps, x := LaterLife(steps, w, d, x);
    steps, x := ByFinal(steps, w, d, x, Decide);
    steps, x := ByFinal(steps, w, d, x, Tell(true, ""));
    s := State(w, map[d := x]);
    assert Of(s, d).settlements[0].action == NoExecutorWasStarted && Belongs(s.w.live[0], d, 0);
  }

  /** The settlement went by a handle, by an end record, by both or by neither. */
  ghost predicate RestsOn(s: State, d: DeliveryId, k: nat, announced: bool, end: bool) {
    && k < |Of(s, d).settlements|
    && Of(s, d).settlements[k].handle.Some? == announced && Of(s, d).settlements[k].ended.Some? == end
  }

  /** Nothing recorded or confined is left of the attempt, and if anything was spawned its group has been empty. */
  ghost predicate ShownStopped(s: State, d: DeliveryId, k: nat) {
    && k < |Of(s, d).settlements|
    && var x, t := Of(s, d), Of(s, d).settlements[k];
       Quiet(s.w, d, x, t.attempt) && (t.attempt in x.groups ==> EmptySince(s.w, x.groups[t.attempt], t.since))
  }

  /** In every run, what is settled on such grounds was shown stopped. */
  ghost predicate AlwaysShown(announced: bool, end: bool) {
    forall steps, s, d, k: nat :: Reached(steps, s) && RestsOn(s, d, k, announced, end) ==> ShownStopped(s, d, k)
  }

  /** The stop gate holds exactly of attempts whose executor was announced or whose end was recorded. */
  lemma GateNeedsARecord(announced: bool, end: bool)
    ensures AlwaysShown(announced, end) <==> announced || end
  {
    if announced || end {
      forall steps, s, d, k: nat | Reached(steps, s) && RestsOn(s, d, k, announced, end)
        ensures ShownStopped(s, d, k)
      {
        Sound(steps, s, d);
      }
    } else {
      var steps, s := OutcomeMayPrecedeExit("");
      assert Reached(steps, s) && RestsOn(s, "", 0, announced, end) && !ShownStopped(s, "", 0);
    }
  }

  /**
    Without an announcement the stop gate says nothing: a local command that has written its
    outcome and not yet exited is settled as done if the Consumer died before the announcement.
  */
  lemma OutcomeMayPrecedeExit(d: DeliveryId) returns (steps: seq<Step>, s: State)
    ensures Reached(steps, s) && SettledWhileAlive(s, d, SubmitResult)
    ensures RestsOn(s, d, 0, false, false) && !ShownStopped(s, d, 0)
  {
    var x, w;
    steps, x := FirstLife(d, LocalCommand);
    steps, w, x := ByRun(steps, NOWHERE, d, x, WriteJob);
    steps, w, x := ByRun(steps, w, d, x, Spawn(7, "command"));
    steps, x := ByCrash(steps, w, d, x);
    steps, x := ByAround(steps, w, d, x, WriteOutcome(0, Done));
    steps, x := LaterLife(steps, w, d, x);
    steps, x := ByFinal(steps, w, d, x, Decide);
    steps, x := Settles(steps, w, d, x);
    s := State(w, map[d := x]);
    assert Of(s, d).settlements[0].action == SubmitResult && Belongs(s.w.live[0], d, 0);
  }
}
