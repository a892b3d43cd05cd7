/** What the Consumer does get done with a live attempt: when it is settled and as what, and why it is left open. */
module ConsumerProgress {
  import opened Wrappers
  import opened Ledgers
  import opened ConsumerProtocol
  import opened ConsumerSafety
  import opened ConsumerGuarantees

  // ---- steps of one handler that nothing interrupts ---------------------------------------------------------

  function FinalRun(w: World, x: Delivery, more: seq<FinalStep>): Option<Delivery>
    decreases |more|
  {
    if more == [] then Some(x)
    else
      var y := ActFinal(w, x, more[0]);
      if y.None? then None else FinalRun(w, y.value, more[1..])
  }

  function Finals(d: DeliveryId, more: seq<FinalStep>): seq<Step> {
    if more == [] then [] else [Final(d, more[0])] + Finals(d, more[1..])
  }

  /** After the run, these steps of the handler of `d` are possible and leave the delivery as `y`. */
  ghost predicate Continues(steps: seq<Step>, d: DeliveryId, more: seq<FinalStep>, y: Delivery) {
    var t := After(steps + Finals(d, more)); t.Some? && Of(t.value, d) == y
  }

  lemma FinalsOf(steps: seq<Step>, d: DeliveryId, more: seq<FinalStep>)
    requires more != []
    ensures steps + Finals(d, more) == (steps + [Final(d, more[0])]) + Finals(d, more[1..])
  {
  }

  lemma {:induction false} NoneStaysNone(steps: seq<Step>, more: seq<Step>)
    requires After(steps).None?
    ensures After(steps + more).None?
  {
    if more == [] {
      assert steps + more == steps;
    } else {
      NoneStaysNone(steps, more[..|more| - 1]);
      assert steps + more == (steps + more[..|more| - 1]) + [more[|more| - 1]];
      Extended(steps + more[..|more| - 1], more[|more| - 1]);
    }
  }

  lemma {:induction false} ContinuesExactly(steps: seq<Step>, s: State, d: DeliveryId, more: seq<FinalStep>, y: Delivery)
    requires Reached(steps, s)
    ensures Continues(steps, d, more, y) <==> FinalRun(s.w, Of(s, d), more) == Some(y)
    decreases |more|
  {
    if more == [] {
      assert steps + Finals(d, more) == steps;
    } else {
      var step := Final(d, more[0]);
      Extended(steps, step);
      FinalsOf(steps, d, more);
      if Next(s, step).None? {
        NoneStaysNone(steps + [step], Finals(d, more[1..]));
      } else {
        ContinuesExactly(steps + [step], Next(s, step).value, d, more[1..], y);
      }
    }
  }

  // ---- settling ---------------------------------------------------------------------------------------------

  function OutcomeIn(x: Delivery, r: AttemptRef): Option<Outcome> {
    if r in x.outcomes then Some(x.outcomes[r]) else None
  }

  predicate GroupEmpty(w: World, handle: Option<Handle>) {
    handle.Some? ==> !GroupAlive(w, handle.value.pgid)
  }

  /** Of an executor whose end was recorded and not confirmed, nothing recorded is there now. */
  predicate NothingThere(w: World, ended: Option<EndReport>) {
    ended.Some? && !ended.value.stopped ==> !SameThere(w, SeenIn(ended.value)) && !ChangedThere(w, SeenIn(ended.value))
  }

  predicate ShownGone(w: World, l: Ledger) {
    GroupEmpty(w, l.handle) && GateOpen(l.handle, l.ended) && NothingThere(w, l.ended)
  }

  /** No outcome and no handle, and yet a job was written: what was started is unknown. */
  predicate ExecutorUnknown(x: Delivery, l: Ledger, r: AttemptRef) {
    r !in x.outcomes && l.handle.None? && r in x.jobs
  }

  predicate CanSettle(w: World, x: Delivery, l: Ledger) {
    l.live.Some? && ShownGone(w, l) && !ExecutorUnknown(x, l, l.live.value)
  }

  /** What UAM is to be told of an attempt that nothing stands in the way of. */
  function Due(outcome: Option<Outcome>, handle: Option<Handle>): Action {
    match outcome
    case None => if handle.None? then NoExecutorWasStarted else ExecutorGoneNoOutcome
    case Some(Failed(beforeEffect)) => WorkerFailed(beforeEffect)
    case Some(Done) => SubmitResult
  }

  ghost predicate AddsSettlement(x: Delivery, l: Ledger, action: Action, y: Delivery) {
    l.live.Some? && exists since ::
      y.settlements == x.settlements + [Settlement(l.live.value, action, l.handle, l.ended, OutcomeIn(x, l.live.value), since)]
  }

  /** UAM was told what is due, the attempt is no longer active, and the journal has closed it. */
  ghost predicate Settled(x: Delivery, l: Ledger, y: Delivery) {
    && l.live.Some? && l.live.value < |y.attempts| && !y.attempts[l.live.value].active
    && var action := Due(OutcomeIn(x, l.live.value), l.handle);
       && AddsSettlement(x, l, action, y) && y.handler.None? && LedgerOf(y.entries).live.None?
       && y.entries != [] && y.entries[|y.entries| - 1] == if action == SubmitResult then Submitted(l.live.value) else Ended(l.live.value)
  }

  // ---- a way to settle ----------------------------------------------------------------------------------------

  lemma OneFinal(w: World, x: Delivery, step: FinalStep, y: Delivery, more: seq<FinalStep>)
    requires ActFinal(w, x, step) == Some(y)
    ensures FinalRun(w, x, [step] + more) == FinalRun(w, y, more)
  {
    assert ([step] + more)[1..] == more;
  }

  /** From the decision to the end. */
  lemma DecisionSettles(w: World, x: Delivery, l: Ledger, since: Birth) returns (more: seq<FinalStep>, y: Delivery)
    requires l.live.Some? && l.live.value < |x.attempts| && !ExecutorUnknown(x, l, l.live.value)
    requires x.handler == Some(Deciding(l, OutcomeIn(x, l.live.value), since))
    ensures FinalRun(w, x, more) == Some(y) && Settled(x, l, y)
  {
    var r, outcome := l.live.value, OutcomeIn(x, l.live.value);
    var action := Due(outcome, l.handle);
    var told := At(x, Telling(l, action, outcome, since));
    y := TellingSettles(w, told, l, action, outcome, since);
    more := [Tell(true, ""), WriteSettled];
    if action == SubmitResult {
      var ready := At(x, Submitting(l, outcome, since));
      OneFinal(w, ready, SubmitNow, told, more);
      more := [SubmitNow] + more;
      OneFinal(w, x, Decide, ready, more);
    } else {
      OneFinal(w, x, Decide, told, more);
    }
    more := [Decide] + more;
    var t := Settlement(r, action, l.handle, l.ended, outcome, since);
    assert y.settlements == x.settlements + [t];
  }

  lemma TellingSettles(w: World, x: Delivery, l: Ledger, action: Action, outcome: Option<Outcome>, since: Birth) returns (y: Delivery)
    requires l.live.Some? && l.live.value < |x.attempts| && x.handler == Some(Telling(l, action, outcome, since))
    ensures FinalRun(w, x, [Tell(true, ""), WriteSettled]) == Some(y)
    ensures y.settlements == x.settlements + [Settlement(l.live.value, action, l.handle, l.ended, outcome, since)]
    ensures |y.attempts| == |x.attempts| && !y.attempts[l.live.value].active && y.handler.None?
    ensures y.entries == x.entries + [if action == SubmitResult then Submitted(l.live.value) else Ended(l.live.value)]
    ensures LedgerOf(y.entries).live.None?
  {
    var z := Tells(w, x, l, action, outcome, since);
    y := ClosesIt(w, z, l, action);
    OneFinal(w, x, Tell(true, ""), z, [WriteSettled]);
    OneFinal(w, z, WriteSettled, y, []);
    assert [Tell(true, "")] + [WriteSettled] == [Tell(true, ""), WriteSettled] && [WriteSettled] + [] == [WriteSettled];
  }

  lemma Tells(w: World, x: Delivery, l: Ledger, action: Action, outcome: Option<Outcome>, since: Birth) returns (z: Delivery)
    requires l.live.Some? && l.live.value < |x.attempts| && x.handler == Some(Telling(l, action, outcome, since))
    ensures ActFinal(w, x, Tell(true, "")) == Some(z) && z.handler == Some(Told(l, action)) && z.entries == x.entries
    ensures z.settlements == x.settlements + [Settlement(l.live.value, action, l.handle, l.ended, outcome, since)]
    ensures |z.attempts| == |x.attempts| && !z.attempts[l.live.value].active
  {
    z := ActFinal(w, x, Tell(true, "")).value;
  }

  lemma ClosesIt(w: World, z: Delivery, l: Ledger, action: Action) returns (y: Delivery)
    requires l.live.Some? && z.handler == Some(Told(l, action))
    ensures ActFinal(w, z, WriteSettled) == Some(y) && y.handler.None? && LedgerOf(y.entries).live.None?
    ensures y.settlements == z.settlements && y.attempts == z.attempts
    ensures y.entries == z.entries + [if action == SubmitResult then Submitted(l.live.value) else Ended(l.live.value)]
  {
    y := ActFinal(w, z, WriteSettled).value;
    ClosedLedger(z.entries, if action == SubmitResult then Submitted(l.live.value) else Ended(l.live.value));
  }

  lemma ClosedLedger(entries: seq<Entry>, e: Entry)
    requires e.Submitted? || e.Ended?
    ensures LedgerOf(entries + [e]).live.None?
  {
    LedgerAppend(entries, e);
  }

  function AnswerNow(w: World, l: Ledger): ReadBack {
    var seen := if l.ended.Some? then SeenIn(l.ended.value) else [];
    if seen == [] then Answer(false, false) else Answer(SameThere(w, seen), ChangedThere(w, seen))
  }

  lemma GateLetsPass(w: World, l: Ledger)
    requires ShownGone(w, l)
    ensures var alive := l.handle.Some? && GroupAlive(w, l.handle.value.pgid);
            var state := StateOf(l.handle, l.ended, AnswerNow(w, l), alive); state.None? || state == Some(Gone)
  {
    GateOpensExactly(l.handle, l.ended, AnswerNow(w, l), l.handle.Some? && GroupAlive(w, l.handle.value.pgid));
  }

  lemma StopDecided(w: World, x: Delivery, l: Ledger, outcome: Option<Outcome>, since: Birth)
    returns (more: seq<FinalStep>, y: Delivery, late: Birth)
    requires x.handler == Some(StopGroup(l, outcome, since, AnswerNow(w, l))) && l.live.Some? && ShownGone(w, l)
    ensures FinalRun(w, x, more) == Some(y) && y == At(x, Deciding(l, outcome, late)).(entries := y.entries)
  {
    GateLetsPass(w, l);
    var z := ActFinal(w, x, DecideStop).value;
    if z.handler == Some(GoneSeen(l, outcome, w.next)) {
      y, late, more := ActFinal(w, z, WriteReconciled).value, w.next, [WriteReconciled] + [];
      OneFinal(w, z, WriteReconciled, y, []);
    } else {
      y, late, more := z, z.handler.value.since, [];
    }
    OneFinal(w, x, DecideStop, z, more);
    more := [DecideStop] + more;
  }

  /** From the stop question to the decision. */
  lemma GonePasses(w: World, x: Delivery, l: Ledger, outcome: Option<Outcome>, since: Birth)
    returns (more: seq<FinalStep>, y: Delivery, late: Birth)
    requires x.handler == Some(StopCheck(l, outcome, since)) && l.live.Some? && ShownGone(w, l)
    ensures FinalRun(w, x, more) == Some(y) && y == At(x, Deciding(l, outcome, late)).(entries := y.entries)
  {
    var asked := At(x, StopGroup(l, outcome, since, AnswerNow(w, l)));
    AsksStopIf(w, x, l, outcome, since, true);
    more, y, late := StopDecided(w, asked, l, outcome, since);
    OneFinal(w, x, CheckStop(true), asked, more);
    more := [CheckStop(true)] + more;
  }

  lemma {:induction false} RunOn(w: World, x: Delivery, a: seq<FinalStep>, y: Delivery, b: seq<FinalStep>)
    requires FinalRun(w, x, a) == Some(y)
    ensures FinalRun(w, x, a + b) == FinalRun(w, y, b)
    decreases |a|
  {
    if a == [] {
      assert a + b == b;
    } else {
      var z := ActFinal(w, x, a[0]).value;
      RunOn(w, z, a[1..], y, b);
      assert a + b == [a[0]] + (a[1..] + b);
      OneFinal(w, x, a[0], z, a[1..] + b);
    }
  }

  lemma ReadingSettles(w: World, x: Delivery, l: Ledger) returns (more: seq<FinalStep>, y: Delivery)
    requires x.handler == Some(FinalRead(l)) && l.live.Some? && l.live.value < |x.attempts| && CanSettle(w, x, l)
    ensures FinalRun(w, x, more) == Some(y) && Settled(x, l, y)
  {
    var outcome := OutcomeIn(x, l.live.value);
    var read, asking := At(x, GroupCheck(l, outcome)), At(x, StopCheck(l, outcome, w.next));
    var passes, decided, since := GonePasses(w, asking, l, outcome, w.next);
    var settles;
    settles, y := DecisionSettles(w, decided, l, since);
    RunOn(w, asking, passes, decided, settles);
    OneFinal(w, read, CheckGroup, asking, passes + settles);
    OneFinal(w, x, ReadOutcome, read, [CheckGroup] + (passes + settles));
    more := [ReadOutcome] + ([CheckGroup] + (passes + settles));
    var t :| y.settlements == decided.settlements
                 + [Settlement(l.live.value, Due(outcome, l.handle), l.handle, l.ended, OutcomeIn(decided, l.live.value), t)];
  }

  // ---- why an attempt stays open --------------------------------------------------------------------------------

  predicate Unconfirmed(l: Ledger) {
    l.ended.Some? && !l.ended.value.stopped
  }

  /** The report of an end, if there is one, is that of a read of the table that covered a live server. */
  predicate Covers(end: EndReport) {
    end.report.Some? ==> end.report.value.observed && end.report.value.covered
  }

  predicate WholeGroup(handle: Option<Handle>) {
    handle.Some? && handle.value.kind == ProcessGroup
  }

  /** The end was not confirmed, though its report could be the basis of an answer. */
  predicate AsksTable(l: Ledger) {
    Unconfirmed(l) && Covers(l.ended.value)
  }

  /** What each advisory says of the processes, the files and the journal; nothing else is left as an advisory. */
  predicate Because(w: World, x: Delivery, l: Ledger, phase: AdvisoryPhase, code: string) {
    if code == "EXECUTOR_STILL_RUNNING" then phase == Waiting && !GroupEmpty(w, l.handle)
    else
      && GroupEmpty(w, l.handle)
      && if phase == Waiting then
           && AsksTable(l)
           && if SameThere(w, SeenIn(l.ended.value)) then code == "EXECUTOR_NOT_CONFIRMED_STOPPED"
              else ChangedThere(w, SeenIn(l.ended.value)) && code == "EXECUTOR_PID_IDENTITY_CHANGED"
         else
           && phase == LeftOpen
           && match code
              case "EXECUTOR_END_NOT_RECORDED" => l.ended.None? && l.handle.Some? && !WholeGroup(l.handle)
              case "EXECUTOR_STOP_OBSERVATION_FAILED" =>
                Unconfirmed(l) && l.ended.value.report.Some? && !l.ended.value.report.value.observed
              case "EXECUTOR_EXITED_BEFORE_OBSERVATION" =>
                Unconfirmed(l) && l.ended.value.report.Some? && l.ended.value.report.value.observed
                && !l.ended.value.report.value.covered
              case "EXECUTOR_STOP_READBACK_UNAVAILABLE" => AsksTable(l) && SeenIn(l.ended.value) != []
              case "EXECUTOR_STOP_UNPROVABLE" => AsksTable(l) && SeenIn(l.ended.value) == [] && !WholeGroup(l.handle)
              case "EXECUTOR_UNKNOWN" => l.live.Some? && ShownGone(w, l) && ExecutorUnknown(x, l, l.live.value)
              case _ => false
  }

  // ---- no other way -------------------------------------------------------------------------------------------

  /** What is due, or, where the work was done, that the result could not be made. */
  predicate MayTell(action: Action, outcome: Option<Outcome>, handle: Option<Handle>) {
    action == Due(outcome, handle) || (action == TaskFailed && outcome == Some(Done))
  }

  /** An answer about the recorded processes: what the table shows, unless it could not be read. */
  predicate AnswersTable(w: World, l: Ledger, answer: ReadBack) {
    answer == AnswerNow(w, l) || (answer == Unreadable && l.ended.Some? && SeenIn(l.ended.value) != [])
  }

  /** A handler that began to settle by `l` stands there. */
  ghost predicate OnTheWay(w: World, x: Delivery, l: Ledger, pc: Pc) {
    exists outcome :: l.live.Some? && outcome == OutcomeIn(x, l.live.value) && StandsOn(w, x, l, outcome, pc)
  }

  predicate StandsOn(w: World, x: Delivery, l: Ledger, outcome: Option<Outcome>, pc: Pc) {
    match pc
    case FinalRead(m) => m == l
    case GroupCheck(m, o) => m == l && o == outcome
    case StopCheck(m, o, _) => m == l && o == outcome && GroupEmpty(w, l.handle)
    case StopGroup(m, o, _, answer) => m == l && o == outcome && GroupEmpty(w, l.handle) && AnswersTable(w, l, answer)
    case GoneSeen(m, o, _) => m == l && o == outcome && ShownGone(w, l)
    case Deciding(m, o, _) => m == l && o == outcome && ShownGone(w, l)
    case Submitting(m, o, _) => m == l && o == outcome && o == Some(Done) && CanSettle(w, x, l)
    case Telling(m, action, o, _) => m == l && o == outcome && MayTell(action, o, l.handle) && CanSettle(w, x, l)
    case Told(m, _) => m == l
    case Noting(_, phase, code) => phase == Blocked || Because(w, x, l, phase, code)
    case _ => false
  }

  ghost predicate SettledOnce(w: World, x: Delivery, l: Ledger, y: Delivery) {
    CanSettle(w, x, l) && exists action :: MayTell(action, OutcomeIn(x, l.live.value), l.handle) && AddsSettlement(x, l, action, y)
  }

  /** A delivery that its handler has brought from `x` to `y`. */
  ghost predicate Along(w: World, x: Delivery, l: Ledger, y: Delivery) {
    && y.jobs == x.jobs && y.outcomes == x.outcomes
    && (y.settlements == x.settlements || SettledOnce(w, x, l, y))
    && (y.handler.Some? ==> OnTheWay(w, x, l, y.handler.value))
    && (y.handler.Some? && !y.handler.value.Told? && !y.handler.value.Noting? ==> y.settlements == x.settlements)
  }

  predicate Holds(state: Option<StopState>) {
    state.Some? && state.value != Gone
  }

  /** What holds a handler back at the stop question is what its advisory says. */
  lemma StateMeans(w: World, x: Delivery, l: Ledger, answer: ReadBack)
    requires GroupEmpty(w, l.handle) && AnswersTable(w, l, answer) && Holds(StateOf(l.handle, l.ended, answer, false))
    ensures var (phase, code) := AdvisoryOf(StateOf(l.handle, l.ended, answer, false).value); Because(w, x, l, phase, code)
  {
  }

  lemma PassesShownGone(w: World, l: Ledger, answer: ReadBack)
    requires GroupEmpty(w, l.handle) && AnswersTable(w, l, answer) && !Holds(StateOf(l.handle, l.ended, answer, false))
    ensures ShownGone(w, l)
  {
    GateOpensExactly(l.handle, l.ended, answer, false);
  }

  /** The stop question where the group is empty. */
  lemma StopIsDecided(w: World, y: Delivery, z: Delivery)
    requires y.handler.Some? && y.handler.value.StopGroup? && GroupEmpty(w, y.handler.value.l.handle)
    requires ActFinal(w, y, DecideStop) == Some(z)
    ensures var pc := y.handler.value;
            var state := StateOf(pc.l.handle, pc.l.ended, pc.readBack, false);
            && z.handler.Some? && z == At(y, z.handler.value)
            && if Holds(state) then
                 var (phase, code) := AdvisoryOf(state.value); z.handler.value == Noting(pc.l, phase, code)
               else
                 || z.handler.value == Deciding(pc.l, pc.outcome, pc.since) || z.handler.value == Deciding(pc.l, pc.outcome, w.next)
                 || z.handler.value == GoneSeen(pc.l, pc.outcome, w.next)
  {
  }

  lemma DecideStopGoesOn(w: World, x: Delivery, l: Ledger, y: Delivery, z: Delivery)
    requires Along(w, x, l, y) && ActFinal(w, y, DecideStop) == Some(z)
    ensures Along(w, x, l, z)
  {
    StopOnTheWay(w, x, l, y.handler.value, y, z);
    MovesAlong(w, x, l, y, z);
  }

  lemma StopOnTheWay(w: World, x: Delivery, l: Ledger, pc: Pc, y: Delivery, z: Delivery)
    requires y.handler == Some(pc) && pc.StopGroup? && OnTheWay(w, x, l, pc) && ActFinal(w, y, DecideStop) == Some(z)
    ensures z.handler.Some? && z == At(y, z.handler.value) && OnTheWay(w, x, l, z.handler.value)
  {
    StopIsDecided(w, y, z);
    if Holds(StateOf(l.handle, l.ended, pc.readBack, false)) {
      StateMeans(w, x, l, pc.readBack);
    } else {
      PassesShownGone(w, l, pc.readBack);
    }
    assert StandsOn(w, x, l, OutcomeIn(x, l.live.value), z.handler.value);
  }

  lemma BeginsAlong(w: World, x: Delivery, l: Ledger)
    requires l.live.Some? && x.handler == Some(FinalRead(l))
    ensures Along(w, x, l, x)
  {
    assert StandsOn(w, x, l, OutcomeIn(x, l.live.value), FinalRead(l));
  }

  /** A handler that has told nothing yet moves on. */
  lemma MovesAlong(w: World, x: Delivery, l: Ledger, y: Delivery, z: Delivery)
    requires Along(w, x, l, y) && y.settlements == x.settlements
    requires z.handler.Some? && z == At(y, z.handler.value) && OnTheWay(w, x, l, z.handler.value)
    ensures Along(w, x, l, z)
  {
  }

  lemma DecideGoesOn(w: World, x: Delivery, l: Ledger, y: Delivery, z: Delivery)
    requires Along(w, x, l, y) && ActFinal(w, y, Decide) == Some(z)
    ensures Along(w, x, l, z)
  {
    DecideOnTheWay(w, x, l, y.handler.value, y, z);
    MovesAlong(w, x, l, y, z);
  }

  lemma DecideOnTheWay(w: World, x: Delivery, l: Ledger, pc: Pc, y: Delivery, z: Delivery)
    requires y.handler == Some(pc) && pc.Deciding? && OnTheWay(w, x, l, pc) && y.jobs == x.jobs && y.outcomes == x.outcomes
    requires ActFinal(w, y, Decide) == Some(z)
    ensures z.handler.Some? && z == At(y, z.handler.value) && OnTheWay(w, x, l, z.handler.value)
  {
    assert StandsOn(w, x, l, OutcomeIn(x, l.live.value), z.handler.value);
  }

  lemma TellGoesOn(w: World, x: Delivery, l: Ledger, y: Delivery, step: FinalStep, z: Delivery)
    requires step.Tell? && Along(w, x, l, y) && ActFinal(w, y, step) == Some(z)
    ensures Along(w, x, l, z)
  {
    TellSays(w, y, step, z);
    if step.accepted {
      ToldOnce(w, x, l, y.handler.value.action, y.handler.value.since, z);
    }
    assert StandsOn(w, x, l, OutcomeIn(x, l.live.value), z.handler.value);
  }

  lemma TellSays(w: World, y: Delivery, step: FinalStep, z: Delivery)
    requires step.Tell? && ActFinal(w, y, step) == Some(z)
    ensures y.handler.Some? && y.handler.value.Telling? && z.jobs == y.jobs && z.outcomes == y.outcomes
    ensures var pc := y.handler.value;
            if step.accepted then
              && pc.l.live.Some? && z.handler == Some(Told(pc.l, pc.action))
              && z.settlements == y.settlements
                   + [Settlement(pc.l.live.value, pc.action, pc.l.handle, pc.l.ended, pc.outcome, pc.since)]
            else z.settlements == y.settlements && z.handler.Some? && z.handler.value.Noting?
  {
  }

  lemma ToldOnce(w: World, x: Delivery, l: Ledger, action: Action, since: Birth, z: Delivery)
    requires CanSettle(w, x, l) && MayTell(action, OutcomeIn(x, l.live.value), l.handle)
    requires z.settlements == x.settlements + [Settlement(l.live.value, action, l.handle, l.ended, OutcomeIn(x, l.live.value), since)]
    ensures SettledOnce(w, x, l, z)
  {
    assert AddsSettlement(x, l, action, z);
  }

  lemma KeepsOnce(w: World, x: Delivery, l: Ledger, y: Delivery, z: Delivery)
    requires SettledOnce(w, x, l, y) && z.settlements == y.settlements
    ensures SettledOnce(w, x, l, z)
  {
    var action :| MayTell(action, OutcomeIn(x, l.live.value), l.handle) && AddsSettlement(x, l, action, y);
    assert AddsSettlement(x, l, action, z);
  }

  predicate Quiets(step: FinalStep) {
    !step.DecideStop? && !step.Decide? && !step.Tell? && !step.CheckStop?
  }

  lemma OthersTellNothing(w: World, y: Delivery, step: FinalStep, z: Delivery)
    requires Quiets(step) && ActFinal(w, y, step) == Some(z)
    ensures z.settlements == y.settlements && z.jobs == y.jobs && z.outcomes == y.outcomes
  {
    if step.WriteSettled? || step.WriteReconciled? || step.Note? || step.WriteRemark? {
      WritesTellNothing(w, y, step, z);
    }
  }

  lemma WritesTellNothing(w: World, y: Delivery, step: FinalStep, z: Delivery)
    requires step.WriteSettled? || step.WriteReconciled? || step.Note? || step.WriteRemark?
    requires ActFinal(w, y, step) == Some(z)
    ensures z.settlements == y.settlements && z.jobs == y.jobs && z.outcomes == y.outcomes
  {
    var e := EntryFor(y, step);
    assert z == Write(y, e, z.handler) || z == y.(handler := None);
  }

  function EntryFor(y: Delivery, step: FinalStep): Entry
  {
    if y.handler.None? then Remark
    else
      var pc := y.handler.value;
      if step.WriteSettled? && pc.Told? && pc.l.live.Some? then
        if pc.action == SubmitResult then Submitted(pc.l.live.value) else Ended(pc.l.live.value)
      else if step.WriteReconciled? && pc.GoneSeen? && pc.l.live.Some? then Reconciled(pc.l.live.value)
      else if step.Note? && pc.Noting? then Advisory(pc.phase, pc.code)
      else Remark
  }

  lemma OthersStandOnTheWay(w: World, x: Delivery, l: Ledger, y: Delivery, step: FinalStep, z: Delivery)
    requires Quiets(step) && ActFinal(w, y, step) == Some(z) && y.handler.Some? && OnTheWay(w, x, l, y.handler.value)
    requires y.jobs == x.jobs && y.outcomes == x.outcomes
    ensures z.handler.Some? ==> OnTheWay(w, x, l, z.handler.value)
    ensures z.handler.Some? && (y.handler.value.Told? || y.handler.value.Noting?) ==> z.handler == y.handler
  {
    if step.ReadOutcome? || step.CheckGroup? || step.WriteReconciled? {
      StopsOnTheWay(w, x, l, y, step, z);
    } else if step.SubmitBlocked? || step.SubmitFails? || step.SubmitNow? {
      SubmitsOnTheWay(w, x, l, y, step, z);
    }
  }

  lemma StopsOnTheWay(w: World, x: Delivery, l: Ledger, y: Delivery, step: FinalStep, z: Delivery)
    requires step.ReadOutcome? || step.CheckGroup? || step.WriteReconciled?
    requires ActFinal(w, y, step) == Some(z) && y.handler.Some? && OnTheWay(w, x, l, y.handler.value) && y.outcomes == x.outcomes
    ensures z.handler.Some? && OnTheWay(w, x, l, z.handler.value) && !y.handler.value.Told? && !y.handler.value.Noting?
  {
    assert StandsOn(w, x, l, OutcomeIn(x, l.live.value), z.handler.value);
  }

  lemma SubmitsOnTheWay(w: World, x: Delivery, l: Ledger, y: Delivery, step: FinalStep, z: Delivery)
    requires step.SubmitBlocked? || step.SubmitFails? || step.SubmitNow?
    requires ActFinal(w, y, step) == Some(z) && y.handler.Some? && OnTheWay(w, x, l, y.handler.value)
    ensures z.handler.Some? && OnTheWay(w, x, l, z.handler.value) && !y.handler.value.Told? && !y.handler.value.Noting?
  {
    assert StandsOn(w, x, l, OutcomeIn(x, l.live.value), z.handler.value);
  }

  lemma OthersGoOn(w: World, x: Delivery, l: Ledger, y: Delivery, step: FinalStep, z: Delivery)
    requires Quiets(step) && Along(w, x, l, y) && ActFinal(w, y, step) == Some(z)
    ensures Along(w, x, l, z)
  {
    OthersTellNothing(w, y, step, z);
    OthersStandOnTheWay(w, x, l, y, step, z);
    if SettledOnce(w, x, l, y) {
      KeepsOnce(w, x, l, y, z);
    }
  }

  lemma CheckStopGoesOn(w: World, x: Delivery, l: Ledger, y: Delivery, step: FinalStep, z: Delivery)
    requires step.CheckStop? && Along(w, x, l, y) && ActFinal(w, y, step) == Some(z)
    ensures Along(w, x, l, z)
  {
    assert StandsOn(w, x, l, OutcomeIn(x, l.live.value), z.handler.value);
    MovesAlong(w, x, l, y, z);
  }

  lemma StaysAlong(w: World, x: Delivery, l: Ledger, y: Delivery, step: FinalStep, z: Delivery)
    requires Along(w, x, l, y) && ActFinal(w, y, step) == Some(z)
    ensures Along(w, x, l, z)
  {
    match step
    case CheckStop(_) => CheckStopGoesOn(w, x, l, y, step, z);
    case DecideStop => DecideStopGoesOn(w, x, l, y, z);
    case Decide => DecideGoesOn(w, x, l, y, z);
    case Tell(_, _) => TellGoesOn(w, x, l, y, step, z);
    case _ => OthersGoOn(w, x, l, y, step, z);
  }

  lemma {:induction false} RunStaysAlong(w: World, x: Delivery, l: Ledger, y: Delivery, more: seq<FinalStep>, z: Delivery)
    requires Along(w, x, l, y) && FinalRun(w, y, more) == Some(z)
    ensures Along(w, x, l, z)
    decreases |more|
  {
    if more != [] {
      var next := ActFinal(w, y, more[0]).value;
      StaysAlong(w, x, l, y, more[0], next);
      RunStaysAlong(w, x, l, next, more[1..], z);
    }
  }

  /**
    A handler that has read a live attempt from the journal can bring it to its end exactly if the group is empty, the
    stop question lets it pass, nothing that was recorded is there, and it is known what was started. Then UAM is told
    what is due, and the journal closes the attempt. On no other condition, and by no other order of its steps, is
    anything told but that, or that a result could not be made of finished work.
  */
  lemma SettlesExactly(steps: seq<Step>, s: State, d: DeliveryId, l: Ledger)
    requires Reached(steps, s) && Of(s, d).handler == Some(FinalRead(l))
    ensures (exists more, y :: Continues(steps, d, more, y) && Settled(Of(s, d), l, y)) <==> CanSettle(s.w, Of(s, d), l)
    ensures forall more, y :: Continues(steps, d, more, y) && y.settlements != Of(s, d).settlements ==> SettledOnce(s.w, Of(s, d), l, y)
  {
    var x := Of(s, d);
    SettledAttemptIsKnown(steps, s, d, FinalRead(l));
    if CanSettle(s.w, x, l) {
      var more, y := ReadingSettles(s.w, x, l);
      ContinuesExactly(steps, s, d, more, y);
    }
    forall more, y | Continues(steps, d, more, y)
      ensures y.settlements == x.settlements || SettledOnce(s.w, x, l, y)
      ensures Settled(x, l, y) ==> CanSettle(s.w, x, l)
    {
      ContinuesExactly(steps, s, d, more, y);
      BeginsAlong(s.w, x, l);
      RunStaysAlong(s.w, x, l, x, more, y);
    }
  }

  // ---- which advisory is left ---------------------------------------------------------------------------------

  ghost predicate Notes(y: Delivery, phase: AdvisoryPhase, code: string) {
    y.handler.Some? && y.handler.value.Noting? && y.handler.value.phase == phase && y.handler.value.code == code
  }

  function AnswerIf(readable: bool, w: World, l: Ledger): ReadBack {
    if !readable && l.ended.Some? && SeenIn(l.ended.value) != [] then Unreadable else AnswerNow(w, l)
  }

  lemma StateFor(w: World, x: Delivery, l: Ledger, phase: AdvisoryPhase, code: string)
    requires Because(w, x, l, phase, code) && code != "EXECUTOR_STILL_RUNNING" && code != "EXECUTOR_UNKNOWN"
    ensures var state := StateOf(l.handle, l.ended, AnswerIf(code != "EXECUTOR_STOP_READBACK_UNAVAILABLE", w, l), false);
            Holds(state) && AdvisoryOf(state.value) == (phase, code)
  {
  }

  lemma AsksStopIf(w: World, x: Delivery, l: Ledger, outcome: Option<Outcome>, since: Birth, readable: bool)
    requires x.handler == Some(StopCheck(l, outcome, since))
    ensures ActFinal(w, x, CheckStop(readable)) == Some(At(x, StopGroup(l, outcome, since, AnswerIf(readable, w, l))))
  {
  }

  lemma StopNotes(w: World, x: Delivery, l: Ledger, outcome: Option<Outcome>, since: Birth, phase: AdvisoryPhase, code: string)
    returns (more: seq<FinalStep>, y: Delivery)
    requires x.handler == Some(StopCheck(l, outcome, since)) && Because(w, x, l, phase, code)
    requires code != "EXECUTOR_STILL_RUNNING" && code != "EXECUTOR_UNKNOWN"
    ensures FinalRun(w, x, more) == Some(y) && Notes(y, phase, code)
  {
    var readable := code != "EXECUTOR_STOP_READBACK_UNAVAILABLE";
    var asked := At(x, StopGroup(l, outcome, since, AnswerIf(readable, w, l)));
    AsksStopIf(w, x, l, outcome, since, readable);
    StateFor(w, x, l, phase, code);
    y := ActFinal(w, asked, DecideStop).value;
    StopIsDecided(w, asked, y);
    OneFinal(w, asked, DecideStop, y, []);
    more := [DecideStop] + [];
    OneFinal(w, x, CheckStop(readable), asked, more);
    more := [CheckStop(readable)] + more;
  }

  lemma UnknownNotes(w: World, x: Delivery, l: Ledger, since: Birth) returns (more: seq<FinalStep>, y: Delivery)
    requires l.live.Some? && x.handler == Some(StopCheck(l, OutcomeIn(x, l.live.value), since))
    requires ShownGone(w, l) && ExecutorUnknown(x, l, l.live.value)
    ensures FinalRun(w, x, more) == Some(y) && Notes(y, LeftOpen, "EXECUTOR_UNKNOWN")
  {
    var passes, decided, late := GonePasses(w, x, l, OutcomeIn(x, l.live.value), since);
    y := ActFinal(w, decided, Decide).value;
    OneFinal(w, decided, Decide, y, []);
    RunOn(w, x, passes, decided, [Decide] + []);
    more := passes + ([Decide] + []);
  }

  lemma ReadingNotes(w: World, x: Delivery, l: Ledger, phase: AdvisoryPhase, code: string) returns (more: seq<FinalStep>, y: Delivery)
    requires x.handler == Some(FinalRead(l)) && l.live.Some? && Because(w, x, l, phase, code)
    ensures FinalRun(w, x, more) == Some(y) && Notes(y, phase, code)
  {
    var read := At(x, GroupCheck(l, OutcomeIn(x, l.live.value)));
    var asking := ActFinal(w, read, CheckGroup).value;
    more, y := [], asking;
    if code == "EXECUTOR_UNKNOWN" {
      more, y := UnknownNotes(w, asking, l, w.next);
    } else if code != "EXECUTOR_STILL_RUNNING" {
      more, y := StopNotes(w, asking, l, OutcomeIn(x, l.live.value), w.next, phase, code);
    }
    OneFinal(w, read, CheckGroup, asking, more);
    OneFinal(w, x, ReadOutcome, read, [CheckGroup] + more);
    more := [ReadOutcome] + ([CheckGroup] + more);
  }

  /** An attempt that stays open is left with the advisory whose cause holds; UAM's own refusals are all `Blocked`. */
  lemma NotedExactly(steps: seq<Step>, s: State, d: DeliveryId, l: Ledger, phase: AdvisoryPhase, code: string)
    requires Reached(steps, s) && Of(s, d).handler == Some(FinalRead(l)) && phase != Blocked
    ensures (exists more, y :: Continues(steps, d, more, y) && Notes(y, phase, code)) <==> Because(s.w, Of(s, d), l, phase, code)
  {
    var x := Of(s, d);
    SettledAttemptIsKnown(steps, s, d, FinalRead(l));
    if Because(s.w, x, l, phase, code) {
      var more, y := ReadingNotes(s.w, x, l, phase, code);
      ContinuesExactly(steps, s, d, more, y);
    }
    forall more, y | Continues(steps, d, more, y) && Notes(y, phase, code)
      ensures Because(s.w, x, l, phase, code)
    {
      ContinuesExactly(steps, s, d, more, y);
      BeginsAlong(s.w, x, l);
      RunStaysAlong(s.w, x, l, x, more, y);
    }
  }
}
