/** What the Consumer does begin: when an attempt is started, adopted or given up, and when its stop is confirmed. */
module ConsumerStarts {
  import opened Wrappers
  import opened Ledgers
  import opened ConsumerProtocol
  import opened ConsumerSafety
  import opened ConsumerGuarantees
  import opened ConsumerProgress

  // ---- what one handling of a delivery begins -----------------------------------------------------------------

  function StartRun(x: Delivery, more: seq<StartStep>): Option<Delivery>
    decreases |more|
  {
    if more == [] then Some(x)
    else
      var y := ActStart(x, more[0]);
      if y.None? then None else StartRun(y.value, more[1..])
  }

  function Starts(d: DeliveryId, more: seq<StartStep>): seq<Step> {
    if more == [] then [] else [Start(d, more[0])] + Starts(d, more[1..])
  }

  predicate NoPoll(more: seq<StartStep>) {
    forall k :: 0 <= k < |more| ==> !more[k].Poll?
  }

  ghost predicate LeadsTo(steps: seq<Step>, d: DeliveryId, more: seq<StartStep>, y: Delivery) {
    var t := After(steps + Starts(d, more)); t.Some? && Of(t.value, d) == y
  }

  /** Without another poll these steps of the handler of `d` are possible after the run and leave the delivery as `y`. */
  ghost predicate Begins(steps: seq<Step>, d: DeliveryId, more: seq<StartStep>, y: Delivery) {
    NoPoll(more) && LeadsTo(steps, d, more, y)
  }

  lemma StartsOf(steps: seq<Step>, d: DeliveryId, more: seq<StartStep>)
    requires more != []
    ensures steps + Starts(d, more) == (steps + [Start(d, more[0])]) + Starts(d, more[1..])
  {
  }

  lemma {:induction false} BeginsExactly(steps: seq<Step>, s: State, d: DeliveryId, more: seq<StartStep>, y: Delivery)
    requires Reached(steps, s)
    ensures LeadsTo(steps, d, more, y) <==> StartRun(Of(s, d), more) == Some(y)
    decreases |more|
  {
    if more == [] {
      assert steps + Starts(d, more) == steps;
    } else {
      var step := Start(d, more[0]);
      Extended(steps, step);
      StartsOf(steps, d, more);
      if Next(s, step).None? {
        NoneStaysNone(steps + [step], Starts(d, more[1..]));
      } else {
        BeginsExactly(steps + [step], Next(s, step).value, d, more[1..], y);
      }
    }
  }

  /** A delivery of the right schema, not active at UAM, of which this journal and UAM know nothing. */
  predicate MayStart(x: Delivery, v2: bool, active: bool) {
    var l := LedgerOf(x.entries); l.live.None? && !l.intent && v2 && !active && x.attempts == []
  }

  /** An intent without a start, where UAM knows an attempt of the Consumer's own that is active. */
  predicate MayAdopt(x: Delivery) {
    && LedgerOf(x.entries).live.None? && LedgerOf(x.entries).intent && x.attempts != []
    && x.attempts[|x.attempts| - 1].own && x.attempts[|x.attempts| - 1].active
  }

  predicate MayClear(x: Delivery) {
    LedgerOf(x.entries).live.None? && LedgerOf(x.entries).intent && x.attempts == []
  }

  predicate Began(x: Delivery, kind: AdapterKind, y: Delivery) {
    && y.handler == Some(LiveWritten(|x.attempts|, kind)) && y.attempts == x.attempts + [Attempt(true, true)]
    && y.entries == x.entries + [Intent] + [Started(|x.attempts|)]
  }

  predicate Adopted(x: Delivery, y: Delivery) {
    && x.attempts != [] && y.attempts == x.attempts && y.entries == x.entries + [Started(|x.attempts| - 1)]
    && y.handler == Some(FinalRead(LedgerOf(y.entries)))
  }

  predicate ClearedIntent(x: Delivery, y: Delivery) {
    y.handler.None? && y.entries == x.entries + [IntentCleared]
  }

  predicate Finishes(x: Delivery, y: Delivery) {
    LedgerOf(x.entries).live.Some? && y == At(x, FinalRead(LedgerOf(x.entries)))
  }

  ghost predicate StandsBy(x: Delivery, v2: bool, active: bool, y: Delivery, pc: Pc) {
    var l := LedgerOf(x.entries);
    var same := y.entries == x.entries && y.attempts == x.attempts;
    var intended := y.entries == x.entries + [Intent];
    match pc
    case Reading(v, a) => v == v2 && a == active && same
    case StartView(_) => same && l.live.None? && !l.intent && v2 && !active
    case Admitted(_, _) => same && MayStart(x, v2, active)
    case IntentWritten(_, _) => intended && y.attempts == x.attempts && MayStart(x, v2, active)
    case Clearing(_, _) => intended
    case Begun(r, _) =>
      intended && r == |x.attempts| && y.attempts == x.attempts + [Attempt(true, true)] && MayStart(x, v2, active)
    case LiveWritten(_, kind) => Began(x, kind, y) && MayStart(x, v2, active)
    case AdoptView(_) => same && l.live.None? && l.intent
    case AdoptClearing(_) => same && MayClear(x)
    case Adopting(_, r) => same && MayAdopt(x) && r == |x.attempts| - 1
    case FinalRead(_) => (same && l.live.Some?) || (MayAdopt(x) && Adopted(x, y))
    case Noting(_, _, _) => same || y.entries == x.entries + [Intent] + [IntentCleared]
    case _ => false
  }

  ghost predicate Underway(x: Delivery, v2: bool, active: bool, y: Delivery) {
    if y.handler.Some? then StandsBy(x, v2, active, y, y.handler.value)
    else y.entries == x.entries || y.entries == x.entries + [Intent] || (MayClear(x) && ClearedIntent(x, y))
  }

  predicate Looks(step: StartStep) {
    step.DenyStart? || step.Admit? || step.TargetBusy?
  }

  predicate Asks(step: StartStep) {
    step.WriteIntent? || step.StartRefused? || step.StartLost? || step.StartAccepted?
  }

  predicate Records(step: StartStep) {
    step.WriteCleared? || step.WriteStarted? || step.LookAtUam?
  }

  lemma ReadsUnderway(x: Delivery, v2: bool, active: bool, y: Delivery, z: Delivery)
    requires Underway(x, v2, active, y) && ActStart(y, ReadLedger) == Some(z)
    ensures Underway(x, v2, active, z)
  {
    ReadsAs(y, LedgerOf(x.entries), z);
  }

  /** Where the reading of a ledger leads. */
  lemma ReadsAs(y: Delivery, l: Ledger, z: Delivery)
    requires y.handler.Some? && y.handler.value.Reading? && l == LedgerOf(y.entries) && ActStart(y, ReadLedger) == Some(z)
    ensures z == y.(handler := z.handler)
    ensures var pc := y.handler.value;
            z.handler == if l.live.Some? then Some(FinalRead(l))
                         else if l.intent then Some(AdoptView(l))
                         else if !pc.v2 then Some(Noting(l, Denied, "NOT_CONTINUITY_V2"))
                         else if pc.active then None else Some(StartView(l))
  {
  }

  lemma LooksUnderway(x: Delivery, v2: bool, active: bool, y: Delivery, step: StartStep, z: Delivery)
    requires Looks(step) && Underway(x, v2, active, y) && ActStart(y, step) == Some(z)
    ensures Underway(x, v2, active, z)
  {
    assert z.handler.Some? && z.entries == y.entries && z.attempts == y.attempts;
  }

  lemma AsksUnderway(x: Delivery, v2: bool, active: bool, y: Delivery, step: StartStep, z: Delivery)
    requires Asks(step) && Underway(x, v2, active, y) && ActStart(y, step) == Some(z)
    ensures Underway(x, v2, active, z)
  {
  }

  lemma RecordsUnderway(x: Delivery, v2: bool, active: bool, y: Delivery, step: StartStep, z: Delivery)
    requires Records(step) && Underway(x, v2, active, y) && ActStart(y, step) == Some(z)
    ensures Underway(x, v2, active, z)
  {
  }

  lemma AdoptsUnderway(x: Delivery, v2: bool, active: bool, y: Delivery, step: StartStep, z: Delivery)
    requires (step.WriteNoAttempt? || step.WriteAdopted?) && Underway(x, v2, active, y) && ActStart(y, step) == Some(z)
    ensures Underway(x, v2, active, z)
  {
  }

  lemma StaysUnderway(x: Delivery, v2: bool, active: bool, y: Delivery, step: StartStep, z: Delivery)
    requires Underway(x, v2, active, y) && !step.Poll? && ActStart(y, step) == Some(z)
    ensures Underway(x, v2, active, z)
  {
    if step.ReadLedger? {
      ReadsUnderway(x, v2, active, y, z);
    } else if Looks(step) {
      LooksUnderway(x, v2, active, y, step, z);
    } else if Asks(step) {
      AsksUnderway(x, v2, active, y, step, z);
    } else if Records(step) {
      RecordsUnderway(x, v2, active, y, step, z);
    } else {
      AdoptsUnderway(x, v2, active, y, step, z);
    }
  }

  lemma {:induction false} RunStaysUnderway(x: Delivery, v2: bool, active: bool, y: Delivery, more: seq<StartStep>, z: Delivery)
    requires Underway(x, v2, active, y) && NoPoll(more) && StartRun(y, more) == Some(z)
    ensures Underway(x, v2, active, z)
    decreases |more|
  {
    if more != [] {
      var next := ActStart(y, more[0]).value;
      StaysUnderway(x, v2, active, y, more[0], next);
      RunStaysUnderway(x, v2, active, next, more[1..], z);
    }
  }

  lemma OneStart(x: Delivery, step: StartStep, y: Delivery, more: seq<StartStep>)
    requires ActStart(x, step) == Some(y)
    ensures StartRun(x, [step] + more) == StartRun(y, more)
  {
    assert ([step] + more)[1..] == more;
  }

  lemma StartsRight(x: Delivery, kind: AdapterKind) returns (more: seq<StartStep>, y: Delivery)
    requires x.handler == Some(Reading(true, false)) && MayStart(x, true, false)
    ensures NoPoll(more) && StartRun(x, more) == Some(y) && Began(x, kind, y)
  {
    var l := LedgerOf(x.entries);
    var seen, admitted := At(x, StartView(l)), At(x, Admitted(l, kind));
    var intended := Write(x, Intent, Some(IntentWritten(l, kind)));
    var begun := intended.(attempts := x.attempts + [Attempt(true, true)], handler := Some(Begun(|x.attempts|, kind)));
    y := ActStart(begun, WriteStarted).value;
    OneStart(begun, WriteStarted, y, []);
    more := [WriteStarted] + [];
    OneStart(intended, StartAccepted, begun, more);
    more := [StartAccepted] + more;
    OneStart(admitted, WriteIntent, intended, more);
    more := [WriteIntent] + more;
    OneStart(seen, Admit(kind), admitted, more);
    more := [Admit(kind)] + more;
    OneStart(x, ReadLedger, seen, more);
    more := [ReadLedger] + more;
  }

  lemma AdoptsRight(x: Delivery) returns (more: seq<StartStep>, y: Delivery)
    requires x.handler.Some? && x.handler.value.Reading? && (MayAdopt(x) || MayClear(x))
    ensures NoPoll(more) && StartRun(x, more) == Some(y)
    ensures if MayAdopt(x) then Adopted(x, y) else ClearedIntent(x, y)
  {
    var seen := At(x, AdoptView(LedgerOf(x.entries)));
    var looked := ActStart(seen, LookAtUam).value;
    var last := if MayAdopt(x) then WriteAdopted else WriteNoAttempt;
    y := ActStart(looked, last).value;
    OneStart(looked, last, y, []);
    more := [last] + [];
    OneStart(seen, LookAtUam, looked, more);
    more := [LookAtUam] + more;
    OneStart(x, ReadLedger, seen, more);
    more := [ReadLedger] + more;
  }

  lemma EndsMean(x: Delivery, v2: bool, active: bool, kind: AdapterKind, y: Delivery)
    requires Underway(x, v2, active, y)
    ensures Began(x, kind, y) ==> MayStart(x, v2, active)
    ensures Adopted(x, y) ==> MayAdopt(x)
    ensures ClearedIntent(x, y) ==> MayClear(x)
  {
    assert Adopted(x, y) ==> |y.entries| == |x.entries| + 1;
    assert ClearedIntent(x, y) ==> y.entries[|x.entries|] == IntentCleared && |y.entries| == |x.entries| + 1;
    assert (x.entries + [Intent])[|x.entries|] == Intent;
  }

  lemma BeginsUnderway(steps: seq<Step>, s: State, d: DeliveryId, v2: bool, active: bool, more: seq<StartStep>, y: Delivery)
    requires Reached(steps, s) && Of(s, d).handler == Some(Reading(v2, active)) && Begins(steps, d, more, y)
    ensures Underway(Of(s, d), v2, active, y)
  {
    BeginsExactly(steps, s, d, more, y);
    RunStaysUnderway(Of(s, d), v2, active, Of(s, d), more, y);
  }

  /**
    One handling of a delivery gives an adapter of either kind an attempt to run exactly if neither the journal nor UAM
    knows anything of it, and it is of the right schema and not active.
  */
  lemma StartsExactly(steps: seq<Step>, s: State, d: DeliveryId, v2: bool, active: bool, kind: AdapterKind)
    requires Reached(steps, s) && Of(s, d).handler == Some(Reading(v2, active))
    ensures (exists more, y :: Begins(steps, d, more, y) && Began(Of(s, d), kind, y)) <==> MayStart(Of(s, d), v2, active)
  {
    var x := Of(s, d);
    forall more, y | Begins(steps, d, more, y) && Began(x, kind, y)
      ensures MayStart(x, v2, active)
    {
      BeginsUnderway(steps, s, d, v2, active, more, y);
    }
    if MayStart(x, v2, active) {
      var more, y := StartsRight(x, kind);
      BeginsExactly(steps, s, d, more, y);
      assert Begins(steps, d, more, y) && Began(x, kind, y);
    }
  }

  /**
    A dangling intent is adopted exactly if the last attempt at UAM is the Consumer's own and active, and cleared exactly
    if there is none.
  */
  lemma AdoptsExactly(steps: seq<Step>, s: State, d: DeliveryId, v2: bool, active: bool)
    requires Reached(steps, s) && Of(s, d).handler == Some(Reading(v2, active))
    ensures (exists more, y :: Begins(steps, d, more, y) && Adopted(Of(s, d), y)) <==> MayAdopt(Of(s, d))
    ensures (exists more, y :: Begins(steps, d, more, y) && ClearedIntent(Of(s, d), y)) <==> MayClear(Of(s, d))
  {
    var x := Of(s, d);
    forall more, y | Begins(steps, d, more, y)
      ensures Adopted(x, y) ==> MayAdopt(x)
      ensures ClearedIntent(x, y) ==> MayClear(x)
    {
      BeginsUnderway(steps, s, d, v2, active, more, y);
      EndsMean(x, v2, active, LocalCommand, y);
    }
    if MayAdopt(x) || MayClear(x) {
      var more, y := AdoptsRight(x);
      BeginsExactly(steps, s, d, more, y);
      assert Begins(steps, d, more, y);
    }
  }

  /** An attempt that the journal calls live is settled on, and nothing else is. */
  lemma FinishesExactly(steps: seq<Step>, s: State, d: DeliveryId, v2: bool, active: bool)
    requires Reached(steps, s) && Of(s, d).handler == Some(Reading(v2, active))
    ensures (exists more, y :: Begins(steps, d, more, y) && Finishes(Of(s, d), y)) <==> LedgerOf(Of(s, d).entries).live.Some?
  {
    var x := Of(s, d);
    if LedgerOf(x.entries).live.Some? {
      var y := At(x, FinalRead(LedgerOf(x.entries)));
      OneStart(x, ReadLedger, y, []);
      BeginsExactly(steps, s, d, [ReadLedger] + [], y);
      assert Begins(steps, d, [ReadLedger] + [], y) && Finishes(x, y);
    }
  }

  // ---- a stop that is confirmed -------------------------------------------------------------------------------

  function AdapterRun(w: World, d: DeliveryId, x: Delivery, more: seq<RunStep>): Option<(World, Delivery)>
    decreases |more|
  {
    if more == [] then Some((w, x))
    else
      var t := ActRun(w, d, x, more[0]);
      if t.None? then None else AdapterRun(t.value.0, d, t.value.1, more[1..])
  }

  /** Of a server that was asked to end: what was recorded is whole, its group is empty and nothing recorded is there. */
  predicate MayConfirm(w: World, pid: Pid, report: StopReport) {
    && report.observed && report.covered && !GroupAlive(w, pid)
    && !SameThere(w, report.seen) && !ChangedThere(w, report.seen)
  }

  predicate Confirms(y: Delivery, r: AttemptRef, report: StopReport) {
    y.handler == Some(RunReturned(r, EndReport(true, Some(report))))
  }

  predicate AboutToConfirm(w: World, pid: Pid, report: StopReport, r: AttemptRef, pc: Pc) {
    match pc
    case Asked(q, _, p, e) => q == r && p == pid && e == report
    case Closed(q, _, p, e, returned) => q == r && p == pid && e == report
    case Checked(q, _, p, e, _, clear) =>
      q == r && p == pid && e == report && (clear ==> !SameThere(w, report.seen) && !ChangedThere(w, report.seen))
    case RunReturned(q, end) => end.stopped ==> MayConfirm(w, pid, report)
    case EndWritten(_) => true
    case FinalRead(_) => true
    case _ => false
  }

  lemma StaysAbout(w: World, d: DeliveryId, pid: Pid, report: StopReport, r: AttemptRef, x: Delivery, step: RunStep)
    requires x.handler.Some? && AboutToConfirm(w, pid, report, r, x.handler.value) && ActRun(w, d, x, step).Some?
    ensures var (v, y) := ActRun(w, d, x, step).value; v == w && y.handler.Some? && AboutToConfirm(w, pid, report, r, y.handler.value)
  {
  }

  lemma {:induction false} RunStaysAbout(w: World, d: DeliveryId, pid: Pid, report: StopReport, r: AttemptRef, x: Delivery,
                                         more: seq<RunStep>, y: Delivery)
    requires x.handler.Some? && AboutToConfirm(w, pid, report, r, x.handler.value)
    requires AdapterRun(w, d, x, more).Some? && AdapterRun(w, d, x, more).value.1 == y
    ensures y.handler.Some? && AboutToConfirm(w, pid, report, r, y.handler.value)
    decreases |more|
  {
    if more != [] {
      StaysAbout(w, d, pid, report, r, x, more[0]);
      RunStaysAbout(w, d, pid, report, r, ActRun(w, d, x, more[0]).value.1, more[1..], y);
    }
  }

  lemma OneRun(w: World, d: DeliveryId, x: Delivery, step: RunStep, y: Delivery, more: seq<RunStep>)
    requires ActRun(w, d, x, step) == Some((w, y))
    ensures AdapterRun(w, d, x, [step] + more) == AdapterRun(w, d, y, more)
  {
    assert ([step] + more)[1..] == more;
  }

  lemma ConfirmsRight(w: World, d: DeliveryId, x: Delivery, r: AttemptRef, root: Birth, pid: Pid, report: StopReport)
    returns (more: seq<RunStep>, y: Delivery)
    requires x.handler == Some(Asked(r, root, pid, report)) && MayConfirm(w, pid, report)
    ensures AdapterRun(w, d, x, more) == Some((w, y)) && Confirms(y, r, report)
  {
    var closed, checked := At(x, Closed(r, root, pid, report, true)), At(x, Checked(r, root, pid, report, true, true));
    y := ActRun(w, d, checked, Report).value.1;
    OneRun(w, d, checked, Report, y, []);
    more := [Report] + [];
    OneRun(w, d, closed, ReadTable(true), checked, more);
    more := [ReadTable(true)] + more;
    OneRun(w, d, x, Close(true), closed, more);
    more := [Close(true)] + more;
  }

  /** An agent's adapter can call its server stopped exactly on these grounds. */
  lemma ConfirmsExactly(w: World, d: DeliveryId, x: Delivery, r: AttemptRef, root: Birth, pid: Pid, report: StopReport)
    requires x.handler == Some(Asked(r, root, pid, report))
    ensures (exists more, y :: AdapterRun(w, d, x, more) == Some((w, y)) && Confirms(y, r, report)) <==> MayConfirm(w, pid, report)
  {
    if MayConfirm(w, pid, report) {
      var more, y := ConfirmsRight(w, d, x, r, root, pid, report);
    }
    forall more, y | AdapterRun(w, d, x, more) == Some((w, y)) && Confirms(y, r, report)
      ensures MayConfirm(w, pid, report)
    {
      RunStaysAbout(w, d, pid, report, r, x, more, y);
    }
  }

  /** A local command's adapter, while its command runs or after it returned. */
  predicate AwaitsLocal(w: World, r: AttemptRef, pid: Pid, pc: Pc) {
    match pc
    case Running(q, kind, _, p) => q == r && kind == LocalCommand && p == pid
    case RunReturned(_, end) => end.stopped ==> !GroupAlive(w, pid)
    case EndWritten(_) => true
    case FinalRead(_) => true
    case _ => false
  }

  lemma StaysAwaiting(w: World, d: DeliveryId, r: AttemptRef, pid: Pid, x: Delivery, step: RunStep)
    requires x.handler.Some? && AwaitsLocal(w, r, pid, x.handler.value) && ActRun(w, d, x, step).Some?
    ensures var (v, y) := ActRun(w, d, x, step).value; v == w && y.handler.Some? && AwaitsLocal(w, r, pid, y.handler.value)
  {
  }

  lemma {:induction false} RunStaysAwaiting(w: World, d: DeliveryId, r: AttemptRef, pid: Pid, x: Delivery, more: seq<RunStep>, y: Delivery)
    requires x.handler.Some? && AwaitsLocal(w, r, pid, x.handler.value)
    requires AdapterRun(w, d, x, more).Some? && AdapterRun(w, d, x, more).value.1 == y
    ensures y.handler.Some? && AwaitsLocal(w, r, pid, y.handler.value)
    decreases |more|
  {
    if more != [] {
      StaysAwaiting(w, d, r, pid, x, more[0]);
      RunStaysAwaiting(w, d, r, pid, ActRun(w, d, x, more[0]).value.1, more[1..], y);
    }
  }

  /** The adapter of a local command can call it stopped exactly if its group is empty. */
  lemma LocalConfirmsExactly(w: World, d: DeliveryId, x: Delivery, r: AttemptRef, root: Birth, pid: Pid)
    requires x.handler == Some(Running(r, LocalCommand, root, pid))
    ensures (exists more, y: Delivery :: AdapterRun(w, d, x, more) == Some((w, y)) && y.handler == Some(RunReturned(r, EndReport(true, None))))
       <==> !GroupAlive(w, pid)
  {
    if !GroupAlive(w, pid) {
      var y := ActRun(w, d, x, LocalReturns(true)).value.1;
      OneRun(w, d, x, LocalReturns(true), y, []);
      assert AdapterRun(w, d, x, [LocalReturns(true)] + []) == Some((w, y));
    }
    forall more, y: Delivery | AdapterRun(w, d, x, more) == Some((w, y)) && y.handler == Some(RunReturned(r, EndReport(true, None)))
      ensures !GroupAlive(w, pid)
    {
      RunStaysAwaiting(w, d, r, pid, x, more, y);
    }
  }

  // ---- the ordinary success -------------------------------------------------------------------------------------

  lemma ByWorld(steps: seq<Step>, w: World, d: DeliveryId, x: Delivery, step: WorldStep) returns (more: seq<Step>, v: World)
    requires Leads(steps, w, d, x) && MoveWorld(w, step).Some?
    ensures Leads(more, v, d, x) && v == MoveWorld(w, step).value
  {
    more, v := steps + [Processes(step)], MoveWorld(w, step).value;
    Extended(steps, Processes(step));
  }

  /** A first life that starts a process for its attempt and announces it. */
  lemma Announced(d: DeliveryId, kind: AdapterKind) returns (steps: seq<Step>, w: World, x: Delivery)
    ensures Leads(steps, w, d, x) && w.next == 1 && w.live.Keys == {0} && w.live[0].pid == 7 && w.live[0].pgid == 7
    ensures w.live[0].command == "command" && x.handler == Some(Running(0, kind, 0, 7))
    ensures x.entries == [Intent, Started(0)] + [ExecutorStarted(0, HandleOf(kind, 7))]
    ensures x.attempts == [Attempt(true, true)] && x.settlements == [] && x.outcomes == map[]
  {
    steps, x := FirstLife(d, kind);
    w := NOWHERE;
    if kind == LocalCommand {
      steps, w, x := ByRun(steps, w, d, x, WriteJob);
    }
    steps, w, x := ByRun(steps, w, d, x, Spawn(7, "command"));
    steps, w, x := ByRun(steps, w, d, x, Announce);
  }

  /** An executor of a first life has ended, and its adapter has called it stopped. */
  predicate EndedWell(w: World, x: Delivery, kind: AdapterKind, end: EndReport) {
    && w.live == map[] && x.handler == Some(RunReturned(0, end)) && end.stopped
    && x.entries == [Intent, Started(0)] + [ExecutorStarted(0, HandleOf(kind, 7))]
    && x.attempts == [Attempt(true, true)] && x.settlements == [] && x.outcomes == map[]
  }

  lemma LocalEnds(d: DeliveryId) returns (steps: seq<Step>, w: World, x: Delivery, end: EndReport)
    ensures Leads(steps, w, d, x) && EndedWell(w, x, LocalCommand, end)
  {
    steps, w, x := Announced(d, LocalCommand);
    steps, w := ByWorld(steps, w, d, x, Exit(0));
    end := EndReport(true, None);
    steps, w, x := ByRun(steps, w, d, x, LocalReturns(true));
  }

  lemma AgentObserved(d: DeliveryId) returns (steps: seq<Step>, w: World, x: Delivery, report: StopReport)
    ensures Leads(steps, w, d, x) && w.live == map[] && x.handler == Some(Asked(0, 0, 7, report))
    ensures report == StopReport(true, true, [Identity(7, "command", 0)])
    ensures x.entries == [Intent, Started(0)] + [ExecutorStarted(0, HandleOf(AgentAdapter, 7))]
    ensures x.attempts == [Attempt(true, true)] && x.settlements == [] && x.outcomes == map[]
  {
    var seen := [Identity(7, "command", 0)];
    assert Births(seen) == {0} by {
      assert seen[0].birth == 0;
    }
    steps, w, x := Announced(d, AgentAdapter);
    steps, w, x := ByRun(steps, w, d, x, Observe(seen));
    steps, w, x := ByRun(steps, w, d, x, AskExited);
    steps, w := ByWorld(steps, w, d, x, Exit(0));
    report := StopReport(true, true, seen);
  }

  lemma AgentEnds(d: DeliveryId) returns (steps: seq<Step>, w: World, x: Delivery, end: EndReport)
    ensures Leads(steps, w, d, x) && EndedWell(w, x, AgentAdapter, end)
  {
    var report;
    steps, w, x, report := AgentObserved(d);
    end := EndReport(true, Some(report));
    steps, w, x := ByRun(steps, w, d, x, Close(true));
    steps, w, x := ByRun(steps, w, d, x, ReadTable(true));
    steps, w, x := ByRun(steps, w, d, x, Report);
  }

  lemma EndedLedger(kind: AdapterKind, end: EndReport)
    ensures LedgerOf([Intent, Started(0)] + [ExecutorStarted(0, HandleOf(kind, 7))] + [ExecutorEnded(0, end)])
         == Ledger(false, Some(0), Some(HandleOf(kind, 7)), None, Some(end), false)
  {
    StartedLedger();
    LedgerAppend([Intent, Started(0)], ExecutorStarted(0, HandleOf(kind, 7)));
    LedgerAppend([Intent, Started(0)] + [ExecutorStarted(0, HandleOf(kind, 7))], ExecutorEnded(0, end));
  }

  /** The result of an announced executor of either kind, shown stopped, with its work done. */
  predicate SubmitsResult(x: Delivery, kind: AdapterKind) {
    && |x.settlements| == 1
    && var t := x.settlements[0];
       && t.attempt == 0 && t.action == SubmitResult && t.handle == Some(HandleOf(kind, 7))
       && t.ended.Some? && t.ended.value.stopped && t.outcome == Some(Done)
  }

  /** The ordinary success: an executor of either kind is started, announced, ends, and its result is submitted. */
  lemma OrdinarySuccess(d: DeliveryId, kind: AdapterKind) returns (steps: seq<Step>, s: State)
    ensures Reached(steps, s) && SubmitsResult(Of(s, d), kind) && Of(s, d).handler.None?
  {
    var w, x, end;
    if kind == LocalCommand {
      steps, w, x, end := LocalEnds(d);
    } else {
      steps, w, x, end := AgentEnds(d);
    }
    steps, w, x := ByRun(steps, w, d, x, WriteEnded);
    steps, w, x := ByRun(steps, w, d, x, Persist(Some(Done)));
    EndedLedger(kind, end);
    var l := Ledger(false, Some(0), Some(HandleOf(kind, 7)), None, Some(end), false);
    var more, y := ReadingSettles(w, x, l);
    var t := State(w, map[d := x]);
    ContinuesExactly(steps, t, d, more, y);
    s := After(steps + Finals(d, more)).value;
    steps := steps + Finals(d, more);
  }
}
