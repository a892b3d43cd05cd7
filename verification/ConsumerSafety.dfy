/**
  What every run of the Consumer keeps, whatever the world does and wherever the Consumer dies: at most one attempt
  per delivery, and no attempt settled while its executor is not shown stopped. The invariant of a delivery is what the
  past of its journal explains; each step of a handler, of an adapter, of the processes and of others keeps it, and so
  every run does.
*/
module ConsumerSafety {
  import opened Wrappers
  import opened Ledgers
  import opened ConsumerProtocol

  // ---- what a journal has ever said -----------------------------------------------------------------------

  /** Unlike a ledger, nothing in it is ever cleared. */
  datatype Past = Past(started: Option<AttemptRef>, announced: Option<Handle>, ended: Option<EndReport>, closed: bool)

  function ApplyPast(p: Past, e: Entry): Past {
    match e
    case Started(r) => p.(started := Some(r))
    case ExecutorStarted(_, h) => p.(announced := Some(h))
    case ExecutorEnded(_, end) => p.(ended := Some(end))
    case Submitted(_) => p.(closed := true)
    case Ended(_) => p.(closed := true)
    case _ => p
  }

  function PastOf(entries: seq<Entry>): Past {
    if entries == [] then Past(None, None, None, false)
    else ApplyPast(PastOf(entries[..|entries| - 1]), entries[|entries| - 1])
  }

  /** The ledger is the past until the attempt is closed, and nothing afterwards. */
  predicate LedgerIsPast(l: Ledger, p: Past) {
    && l.live == (if p.closed then None else p.started)
    && l.handle == (if p.closed then None else p.announced)
    && l.ended == (if p.closed then None else p.ended)
    && (l.intent ==> p.started.None?)
    && (p.started.None? ==> p.announced.None? && p.ended.None? && !p.closed)
  }

  /** An entry that this journal may receive next. */
  predicate Fits(p: Past, e: Entry) {
    match e
    case Intent => p.started.None?
    case Started(r) => p.started.None?
    case ExecutorStarted(r, h) => p.started == Some(r) && !p.closed && (p.announced.Some? ==> p.announced == Some(h))
    case ExecutorEnded(r, end) => p.started == Some(r) && !p.closed && p.ended.None?
    case Submitted(r) => p.started == Some(r)
    case Ended(r) => p.started == Some(r)
    case _ => true
  }

  /** Every entry about an attempt says what the past says. */
  ghost predicate Uniform(entries: seq<Entry>) {
    var p := PastOf(entries);
    forall k :: 0 <= k < |entries| ==>
      match entries[k]
      case Started(r) => p.started == Some(r)
      case ExecutorStarted(r, h) => p.started == Some(r) && p.announced == Some(h)
      case ExecutorEnded(r, end) => p.started == Some(r) && p.ended == Some(end)
      case _ => true
  }

  ghost predicate LogOk(entries: seq<Entry>) {
    LedgerIsPast(LedgerOf(entries), PastOf(entries)) && Uniform(entries)
  }

  lemma AppendFits(entries: seq<Entry>, e: Entry)
    requires LogOk(entries) && Fits(PastOf(entries), e)
    ensures LogOk(entries + [e])
    ensures PastOf(entries + [e]) == ApplyPast(PastOf(entries), e)
    ensures LedgerOf(entries + [e]) == ApplyEntry(LedgerOf(entries), e)
  {
    LedgerAppend(entries, e);
    assert (entries + [e])[..|entries|] == entries;
  }

  // ---- the invariant of one delivery ----------------------------------------------------------------------

  predicate OneOwn(x: Delivery) {
    forall j, k :: 0 <= j < k < |x.attempts| ==> !(x.attempts[j].own && x.attempts[k].own)
  }

  predicate NoOwn(x: Delivery) {
    forall k :: 0 <= k < |x.attempts| ==> !x.attempts[k].own
  }

  function Recorded(x: Delivery, r: AttemptRef): set<Birth> {
    if r in x.recorded then x.recorded[r].births else {}
  }

  ghost predicate RecordedDead(w: World, x: Delivery, r: AttemptRef) {
    forall b :: b in Recorded(x, r) ==> b !in w.live
  }

  predicate Belongs(p: Process, d: DeliveryId, r: AttemptRef) {
    p.owner == Some(Owner(d, r))
  }

  ghost predicate NoneConfined(w: World, d: DeliveryId, r: AttemptRef) {
    forall b :: b in w.live ==> !(Belongs(w.live[b], d, r) && w.live[b].confined)
  }

  /** Nothing that was recorded of the executor is left, and nothing of one that stays in its group. */
  ghost predicate Quiet(w: World, d: DeliveryId, x: Delivery, r: AttemptRef) {
    RecordedDead(w, x, r) && NoneConfined(w, d, r)
  }

  /** The identities of a report are those of the recorded processes, which keep their PIDs. */
  ghost predicate SeenOk(w: World, x: Delivery, r: AttemptRef, seen: seq<Identity>) {
    && Births(seen) == Recorded(x, r)
    && forall k :: 0 <= k < |seen| && seen[k].birth in w.live ==> w.live[seen[k].birth].pid == seen[k].pid
  }

  /** `b` is the root or comes below it by that many parent links, all of processes that are alive. */
  ghost predicate Below(w: World, root: Birth, b: Birth, links: nat)
    decreases links
  {
    if links == 0 then b == root && root in w.live
    else exists c :: Below(w, root, c, links - 1) && ChildOf(w, b, c)
  }

  ghost predicate IsBelow(w: World, root: Birth, b: Birth) {
    exists links: nat :: Below(w, root, b, links)
  }

  /** The whole tree of the server, as it was when the table was read, is recorded. */
  ghost predicate WholeTree(o: Observation, root: Birth) {
    forall b :: IsBelow(o.world, root, b) ==> b in o.births
  }

  lemma {:induction false} HeldTreeIsDeep(w: World, root: Birth, births: set<Birth>, b: Birth, links: nat)
    requires HoldsTree(w, root, births) && Below(w, root, b, links)
    ensures root in w.live && b in births
    decreases links
  {
    if links > 0 {
      var c :| Below(w, root, c, links - 1) && ChildOf(w, b, c);
      HeldTreeIsDeep(w, root, births, c, links - 1);
    }
  }

  lemma HeldTreeIsWhole(w: World, root: Birth, births: set<Birth>)
    requires HoldsTree(w, root, births)
    ensures WholeTree(Observation(births, w), root)
  {
    forall b | IsBelow(w, root, b)
      ensures b in births
    {
      var links: nat :| Below(w, root, b, links);
      HeldTreeIsDeep(w, root, births, b, links);
    }
  }

  /** At the observation of the attempt its server was alive. */
  predicate ReadAlive(x: Delivery, r: AttemptRef) {
    r in x.groups && r in x.recorded && x.groups[r].root in x.recorded[r].world.live
  }

  /** The root leads its group as long as it lives. */
  ghost predicate RootOk(w: World, g: Group) {
    g.root < w.next && (g.root in w.live ==> w.live[g.root].pgid == g.pgid)
  }

  /** The group was empty at that moment: its root is dead, and whatever has its number now was born afterwards. */
  ghost predicate EmptySince(w: World, g: Group, since: Birth) {
    && g.root < since <= w.next && g.root !in w.live
    && forall b :: b in w.live && w.live[b].pgid == g.pgid ==> since <= b
  }

  lemma EmptyNow(w: World, g: Group)
    requires RootOk(w, g) && !GroupAlive(w, g.pgid)
    ensures EmptySince(w, g, w.next)
  {
  }

  /** An adapter that calls an announced executor stopped has found its group empty, and a server's tree recorded. */
  ghost predicate StopOk(w: World, x: Delivery, handle: Handle, r: AttemptRef, end: EndReport) {
    && r in x.groups && r in x.closed && EmptySince(w, x.groups[r], x.closed[r])
    && (handle.kind == AgentServer ==> end.report.Some? && end.report.value.covered)
  }

  /** What an end record says of the executor is so; without an announcement it says that nothing was spawned. */
  ghost predicate EndOk(w: World, d: DeliveryId, x: Delivery, p: Past, r: AttemptRef, end: EndReport) {
    && SeenOk(w, x, r, SeenIn(end)) && (end.stopped ==> Quiet(w, d, x, r))
    && (end.report.Some? && end.report.value.covered ==> ReadAlive(x, r))
    && (p.announced.None? ==> end.report.None? && (end.stopped ==> r !in x.groups))
    && (p.announced.Some? && end.stopped ==> StopOk(w, x, p.announced.value, r, end))
  }

  /** The processes of a delivery are those of spawned attempts; confined ones are in the group of their root. */
  ghost predicate ProcessesOk(w: World, d: DeliveryId, x: Delivery) {
    forall b :: b in w.live && w.live[b].owner.Some? && w.live[b].owner.value.delivery == d ==>
      var p := w.live[b];
      var r := p.owner.value.attempt;
      && r in x.groups && r in x.runs && (p.confined <==> x.runs[r] == LocalCommand)
      && (p.confined ==> p.pgid == x.groups[r].pgid)
  }

  ghost predicate HistoryOk(w: World, x: Delivery, p: Past) {
    && (forall r :: r in x.runs ==> p.started == Some(r))
    && (forall r :: r in x.adopted ==> p.started == Some(r) && r !in x.runs)
    && (forall r :: r in x.groups ==> r in x.runs && RootOk(w, x.groups[r]) && (x.runs[r] == LocalCommand ==> r in x.jobs))
    && (forall r :: r in x.recorded ==>
          r in x.runs && x.runs[r] == AgentAdapter && r in x.groups && WholeTree(x.recorded[r], x.groups[r].root))
    && (forall r, b :: r in x.recorded && b in x.recorded[r].births ==> b < w.next)
    && (p.announced.Some? ==>
          && p.started.Some? && p.started.value in x.groups && p.started.value in x.runs
          && p.announced == Some(HandleOf(x.runs[p.started.value], x.groups[p.started.value].pgid)))
    && (p.ended.Some? ==> p.started.Some? && p.started.value in x.runs)
  }

  /** What the stop gate lets through: the handle and the end record of a settled attempt. */
  predicate GateOpen(handle: Option<Handle>, ended: Option<EndReport>) {
    match ended
    case None => handle.Some? ==> handle.value.kind == ProcessGroup
    case Some(end) =>
      end.stopped || (
        && (end.report.Some? ==> end.report.value.observed && end.report.value.covered)
        && (SeenIn(end) != [] || (handle.Some? && handle.value.kind == ProcessGroup)))
  }

  ghost predicate Cleared(w: World, d: DeliveryId, x: Delivery, p: Past) {
    && GateOpen(p.announced, p.ended)
    && (p.started.Some? && (p.announced.Some? || p.ended.Some?) ==> Quiet(w, d, x, p.started.value))
  }

  /** The group of an announced executor was empty at that moment. */
  ghost predicate SinceOk(w: World, x: Delivery, p: Past, since: Birth) {
    p.announced.Some? ==>
      p.started.Some? && p.started.value in x.groups && EmptySince(w, x.groups[p.started.value], since)
  }

  /** No process of the attempt was announced, and none was started unless by an adapter that writes no job file. */
  predicate NothingStarted(x: Delivery, p: Past) {
    && p.announced.None? && p.started.Some?
    && (p.started.value in x.groups ==> p.started.value in x.runs && x.runs[p.started.value] == AgentAdapter)
  }

  /** What UAM is told is what the outcome file and the handle say. */
  predicate SaysWhatWasRead(action: Action, outcome: Option<Outcome>, handle: Option<Handle>) {
    match action
    case NoExecutorWasStarted => outcome.None? && handle.None?
    case ExecutorGoneNoOutcome => outcome.None? && handle.Some?
    case WorkerFailed(beforeEffect) => outcome == Some(Failed(beforeEffect))
    case TaskFailed => outcome == Some(Done)
    case SubmitResult => outcome == Some(Done)
  }

  ghost predicate SettlementsOk(w: World, d: DeliveryId, x: Delivery, p: Past) {
    && (x.settlements != [] ==> p.started.Some? && Cleared(w, d, x, p))
    && forall k :: 0 <= k < |x.settlements| ==>
      var s := x.settlements[k];
      && p.started == Some(s.attempt) && s.handle == p.announced && s.ended == p.ended
      && (s.action == NoExecutorWasStarted ==> NothingStarted(x, p))
      && SaysWhatWasRead(s.action, s.outcome, s.handle) && SinceOk(w, x, p, s.since)
  }

  /** A handler that is about to run, or runs, the adapter of its live attempt. */
  ghost predicate RunningOk(x: Delivery, p: Past, r: AttemptRef) {
    p.started == Some(r) && !p.closed && p.ended.None? && x.settlements == [] && r !in x.adopted
  }

  ghost predicate AnnouncedOk(x: Delivery, p: Past, r: AttemptRef, kind: AdapterKind, root: Birth, pid: Pid) {
    && RunningOk(x, p, r) && r in x.runs && x.runs[r] == kind && r in x.groups && x.groups[r] == Group(root, pid)
    && p.announced == Some(HandleOf(kind, pid))
  }

  /** What was recorded before the server was closed. */
  ghost predicate ReportOk(w: World, x: Delivery, r: AttemptRef, report: StopReport) {
    SeenOk(w, x, r, report.seen) && (report.covered ==> ReadAlive(x, r))
  }

  ghost predicate LiveOk(p: Past, l: Ledger) {
    p.started.Some? && !p.closed && l.live == p.started && l.handle == p.announced && l.ended == p.ended
  }

  ghost predicate Stands(w: World, d: DeliveryId, x: Delivery, p: Past, pc: Pc) {
    match pc
    case Reading(_, _) => true
    case StartView(_) => p.started.None? || p.closed
    case Admitted(_, _) => p.started.None? && NoOwn(x)
    case IntentWritten(_, _) => p.started.None? && NoOwn(x)
    case Clearing(_, _) => true
    case Begun(r, _) => p.started.None? && r < |x.attempts| && x.attempts[r].own
    case LiveWritten(r, _) => RunningOk(x, p, r) && p.announced.None? && r !in x.runs
    case Prepared(r, kind) =>
      RunningOk(x, p, r) && p.announced.None? && r in x.runs && x.runs[r] == kind && r !in x.groups && r !in x.recorded
    case JobWritten(r) =>
      && RunningOk(x, p, r) && p.announced.None? && r in x.runs && x.runs[r] == LocalCommand
      && r !in x.groups && r !in x.recorded && r in x.jobs
    case Spawned(r, kind, root, pid) =>
      && RunningOk(x, p, r) && p.announced.None? && r in x.runs && x.runs[r] == kind
      && r in x.groups && x.groups[r] == Group(root, pid) && r !in x.recorded
    case Running(r, kind, root, pid) => AnnouncedOk(x, p, r, kind, root, pid) && r !in x.recorded
    case Observed(r, root, pid, report) =>
      && AnnouncedOk(x, p, r, AgentAdapter, root, pid) && SeenOk(w, x, r, report.seen)
      && root < w.next && (root in w.live ==> ReadAlive(x, r))
    case Asked(r, root, pid, report) => AnnouncedOk(x, p, r, AgentAdapter, root, pid) && ReportOk(w, x, r, report)
    case Closed(r, root, pid, report, _) => AnnouncedOk(x, p, r, AgentAdapter, root, pid) && ReportOk(w, x, r, report)
    case Checked(r, root, pid, report, _, clear) =>
      AnnouncedOk(x, p, r, AgentAdapter, root, pid) && ReportOk(w, x, r, report) && (clear ==> RecordedDead(w, x, r))
    case RunReturned(r, end) => RunningOk(x, p, r) && r in x.runs && EndOk(w, d, x, p, r, end)
    case EndWritten(r) => p.started == Some(r) && !p.closed
    case FinalRead(l) => LiveOk(p, l)
    case GroupCheck(l, _) => LiveOk(p, l)
    case StopCheck(l, _, since) =>
      LiveOk(p, l) && SinceOk(w, x, p, since) && (p.announced.Some? ==> NoneConfined(w, d, p.started.value))
    case StopGroup(l, _, since, answer) =>
      && LiveOk(p, l) && SinceOk(w, x, p, since)
      && (p.announced.Some? ==> NoneConfined(w, d, p.started.value))
      && (p.ended.Some? && answer == Answer(false, false) ==> RecordedDead(w, x, p.started.value))
    case GoneSeen(l, _, since) => LiveOk(p, l) && Cleared(w, d, x, p) && SinceOk(w, x, p, since)
    case Deciding(l, _, since) => LiveOk(p, l) && Cleared(w, d, x, p) && SinceOk(w, x, p, since)
    case Submitting(l, outcome, since) =>
      LiveOk(p, l) && Cleared(w, d, x, p) && SinceOk(w, x, p, since) && outcome == Some(Done)
    case Telling(l, action, outcome, since) =>
      && LiveOk(p, l) && Cleared(w, d, x, p) && SinceOk(w, x, p, since)
      && (action == NoExecutorWasStarted ==> NothingStarted(x, p)) && SaysWhatWasRead(action, outcome, l.handle)
    case Told(l, _) => LiveOk(p, l)
    case AdoptView(_) => p.started.None?
    case AdoptClearing(_) => true
    case Adopting(_, r) => p.started.None? && r < |x.attempts| && x.attempts[r].own
    case Noting(_, _, _) => true
  }

  /** A handler may stand there. */
  ghost predicate PcOk(w: World, d: DeliveryId, x: Delivery, p: Past, pc: Pc) {
    exists q :: q == p && Stands(w, d, x, q, pc)
  }

  /** What holds of a delivery wherever its handler stands. */
  ghost predicate CoreOk(w: World, d: DeliveryId, x: Delivery, p: Past) {
    && OneOwn(x)
    && (p.started.Some? ==> p.started.value < |x.attempts| && x.attempts[p.started.value].own)
    && HistoryOk(w, x, p) && ProcessesOk(w, d, x)
    && (p.ended.Some? ==> EndOk(w, d, x, p, p.started.value, p.ended.value))
    && SettlementsOk(w, d, x, p)
  }

  ghost predicate Explains(w: World, d: DeliveryId, x: Delivery, p: Past) {
    && p == PastOf(x.entries) && LogOk(x.entries) && CoreOk(w, d, x, p)
    && (x.handler.Some? ==> PcOk(w, d, x, p, x.handler.value))
  }

  /** The past of its journal explains a delivery. */
  ghost predicate DeliveryOk(w: World, d: DeliveryId, x: Delivery) {
    exists p :: Explains(w, d, x, p)
  }

  predicate WorldOk(w: World) {
    forall b :: b in w.live ==> b < w.next
  }

  ghost predicate Inv(s: State) {
    WorldOk(s.w) && forall d: DeliveryId :: DeliveryOk(s.w, d, Of(s, d))
  }

  // ---- the world only forgets -----------------------------------------------------------------------------

  predicate SameKind(child: Process, parent: Process) {
    child.owner == parent.owner && child.confined == parent.confined && (child.confined ==> child.pgid == parent.pgid)
  }

  /** What a step leaves of the processes: nothing dead comes back, and what is born belongs where its parent does. */
  ghost predicate Moved(w: World, v: World) {
    && v.next >= w.next
    && (forall b :: b in v.live && b in w.live ==>
          && v.live[b].pid == w.live[b].pid && v.live[b].pgid == w.live[b].pgid
          && v.live[b].owner == w.live[b].owner && v.live[b].confined == w.live[b].confined)
    && (forall b :: b in v.live && b !in w.live ==>
          && w.next <= b < v.next
          && (v.live[b].owner.None? || exists c :: c in w.live && SameKind(v.live[b], w.live[c])))
  }

  lemma WorldStepsMove(w: World, step: WorldStep)
    requires WorldOk(w) && MoveWorld(w, step).Some?
    ensures WorldOk(MoveWorld(w, step).value) && Moved(w, MoveWorld(w, step).value)
  {
  }

  lemma QuietStays(w: World, v: World, d: DeliveryId, x: Delivery, r: AttemptRef)
    requires WorldOk(w) && Moved(w, v) && forall b :: b in Recorded(x, r) ==> b < w.next
    ensures NoneConfined(w, d, r) ==> NoneConfined(v, d, r)
    ensures RecordedDead(w, x, r) ==> RecordedDead(v, x, r)
  {
  }

  lemma SeenStays(w: World, v: World, x: Delivery, r: AttemptRef, seen: seq<Identity>)
    requires WorldOk(w) && Moved(w, v) && SeenOk(w, x, r, seen) && forall b :: b in Recorded(x, r) ==> b < w.next
    ensures SeenOk(v, x, r, seen)
  {
    forall k | 0 <= k < |seen| && seen[k].birth in v.live
      ensures v.live[seen[k].birth].pid == seen[k].pid
    {
      assert seen[k].birth in Births(seen);
    }
  }

  /** All that the invariant of a delivery asks of the world stays true. */
  ghost predicate Stays(w: World, v: World, d: DeliveryId, x: Delivery) {
    && w.next <= v.next
    && (forall b :: b in v.live && b < w.next ==> b in w.live)
    && (forall g :: RootOk(w, g) ==> RootOk(v, g))
    && (forall g, since :: EmptySince(w, g, since) ==> EmptySince(v, g, since))
    && (forall r :: NoneConfined(w, d, r) ==> NoneConfined(v, d, r))
    && (forall r :: RecordedDead(w, x, r) ==> RecordedDead(v, x, r))
    && (forall r, seen :: SeenOk(w, x, r, seen) ==> SeenOk(v, x, r, seen))
    && (ProcessesOk(w, d, x) ==> ProcessesOk(v, d, x))
  }

  lemma MovedStays(w: World, v: World, d: DeliveryId, x: Delivery)
    requires WorldOk(w) && Moved(w, v) && forall r, b :: b in Recorded(x, r) ==> b < w.next
    ensures Stays(w, v, d, x)
  {
    forall r
      ensures NoneConfined(w, d, r) ==> NoneConfined(v, d, r)
      ensures RecordedDead(w, x, r) ==> RecordedDead(v, x, r)
    {
      QuietStays(w, v, d, x, r);
    }
    forall r, seen: seq<Identity> | SeenOk(w, x, r, seen)
      ensures SeenOk(v, x, r, seen)
    {
      SeenStays(w, v, x, r, seen);
    }
  }

  lemma CoreStays(w: World, v: World, d: DeliveryId, x: Delivery, p: Past)
    requires Stays(w, v, d, x) && CoreOk(w, d, x, p)
    ensures CoreOk(v, d, x, p)
  {
  }

  lemma PcStays(w: World, v: World, d: DeliveryId, x: Delivery, p: Past, pc: Pc)
    requires Stays(w, v, d, x) && PcOk(w, d, x, p, pc)
    ensures PcOk(v, d, x, p, pc)
  {
    assert Stands(v, d, x, p, pc);
  }

  lemma DeliveryStays(w: World, v: World, d: DeliveryId, x: Delivery)
    requires WorldOk(w) && Moved(w, v) && DeliveryOk(w, d, x)
    ensures DeliveryOk(v, d, x)
  {
    MovedStays(w, v, d, x);
    CoreStays(w, v, d, x, PastOf(x.entries));
    if x.handler.Some? {
      PcStays(w, v, d, x, PastOf(x.entries), x.handler.value);
    }
    assert Explains(v, d, x, PastOf(x.entries));
  }

  // ---- every step keeps the invariant ---------------------------------------------------------------------

  /** Neither the entries nor the handler nor the outcome files matter to the rest. */
  lemma CoreReframes(w: World, d: DeliveryId, x: Delivery, y: Delivery, p: Past)
    requires CoreOk(w, d, x, p) && y == x.(entries := y.entries, handler := y.handler, outcomes := y.outcomes)
    ensures CoreOk(w, d, y, p)
  {
  }

  lemma PcReframes(w: World, d: DeliveryId, x: Delivery, y: Delivery, p: Past, pc: Pc)
    requires PcOk(w, d, x, p, pc) && y == x.(entries := y.entries, handler := y.handler, outcomes := y.outcomes)
    ensures PcOk(w, d, y, p, pc)
  {
    assert Stands(w, d, y, p, pc);
  }

  /** A handler that moves without an effect. */
  lemma PcMoves(w: World, d: DeliveryId, x: Delivery, pc: Pc, y: Delivery)
    requires DeliveryOk(w, d, x) && PcOk(w, d, x, PastOf(x.entries), pc) && y == At(x, pc)
    ensures DeliveryOk(w, d, y)
  {
    CoreReframes(w, d, x, y, PastOf(x.entries));
    PcReframes(w, d, x, y, PastOf(x.entries), pc);
    assert Explains(w, d, y, PastOf(y.entries));
  }

  lemma PcEnds(w: World, d: DeliveryId, x: Delivery, y: Delivery)
    requires DeliveryOk(w, d, x) && y == x.(handler := None)
    ensures DeliveryOk(w, d, y)
  {
    CoreReframes(w, d, x, y, PastOf(x.entries));
    assert Explains(w, d, y, PastOf(y.entries));
  }

  /** An entry that says nothing about an attempt. */
  predicate IsAside(e: Entry) {
    e.Intent? || e.IntentCleared? || e.Reconciled? || e.Advisory? || e.Remark?
  }

  lemma AsideIsWritten(w: World, d: DeliveryId, x: Delivery, e: Entry, pc: Option<Pc>, y: Delivery)
    requires DeliveryOk(w, d, x) && IsAside(e) && Fits(PastOf(x.entries), e) && y == Write(x, e, pc)
    requires pc.Some? ==> PcOk(w, d, x, PastOf(x.entries), pc.value)
    ensures DeliveryOk(w, d, y)
  {
    AppendFits(x.entries, e);
    CoreReframes(w, d, x, y, PastOf(x.entries));
    if pc.Some? {
      PcReframes(w, d, x, y, PastOf(x.entries), pc.value);
    }
    assert Explains(w, d, y, PastOf(y.entries));
  }

  /** Later attempts come behind the earlier ones, and nobody's attempt becomes another's. */
  predicate AttemptsGrow(x: Delivery, y: Delivery) {
    && |x.attempts| <= |y.attempts| && OneOwn(y)
    && forall k :: 0 <= k < |x.attempts| ==> y.attempts[k].own == x.attempts[k].own
  }

  lemma AttemptsReframe(w: World, d: DeliveryId, x: Delivery, y: Delivery, p: Past)
    requires CoreOk(w, d, x, p) && AttemptsGrow(x, y) && y == x.(attempts := y.attempts, handler := y.handler)
    ensures CoreOk(w, d, y, p)
  {
  }

  lemma PcOfAttemptsReframes(w: World, d: DeliveryId, x: Delivery, y: Delivery, p: Past, pc: Pc)
    requires PcOk(w, d, x, p, pc) && AttemptsGrow(x, y) && y == x.(attempts := y.attempts, handler := y.handler)
    requires forall k :: |x.attempts| <= k < |y.attempts| ==> !y.attempts[k].own
    ensures PcOk(w, d, y, p, pc)
  {
    assert Stands(w, d, y, p, pc);
  }

  /** The attempt that `start_attempt` records is the Consumer's first. */
  lemma OwnAttemptAppears(w: World, d: DeliveryId, x: Delivery, pc: Option<Pc>, y: Delivery)
    requires DeliveryOk(w, d, x) && NoOwn(x) && PastOf(x.entries).started.None?
    requires pc.Some? ==> pc.value.Begun? && pc.value.attempt == |x.attempts|
    requires y == x.(attempts := x.attempts + [Attempt(true, true)], handler := pc)
    ensures DeliveryOk(w, d, y)
  {
    AttemptsReframe(w, d, x, y, PastOf(x.entries));
    assert pc.Some? ==> Stands(w, d, y, PastOf(y.entries), pc.value);
    assert Explains(w, d, y, PastOf(y.entries));
  }

  /** Before a journal calls an attempt live, nothing of it exists. */
  lemma NothingBefore(w: World, d: DeliveryId, x: Delivery)
    requires DeliveryOk(w, d, x) && PastOf(x.entries).started.None?
    ensures x.runs.Keys == {} && x.adopted == {} && x.groups.Keys == {} && x.recorded.Keys == {} && x.settlements == []
  {
  }

  lemma AttemptGoesLive(w: World, d: DeliveryId, x: Delivery, r: AttemptRef, adopted: bool, z: Delivery)
    requires DeliveryOk(w, d, x) && PastOf(x.entries).started.None? && r < |x.attempts| && x.attempts[r].own
    requires z == Write(x, Started(r), None).(adopted := if adopted then x.adopted + {r} else x.adopted)
    ensures DeliveryOk(w, d, z) && PastOf(z.entries) == Past(Some(r), None, None, false)
    ensures LedgerOf(z.entries).live == Some(r) && LedgerOf(z.entries).handle.None? && LedgerOf(z.entries).ended.None?
  {
    NothingBefore(w, d, x);
    AppendFits(x.entries, Started(r));
    assert HistoryOk(w, z, PastOf(z.entries));
    assert Explains(w, d, z, PastOf(z.entries));
  }

  /** What a journalled attempt needs before it goes live. */
  lemma ReadyToGoLive(w: World, d: DeliveryId, x: Delivery)
    requires DeliveryOk(w, d, x) && x.handler.Some? && (x.handler.value.Begun? || x.handler.value.Adopting?)
    ensures var r := x.handler.value.attempt;
            PastOf(x.entries).started.None? && r < |x.attempts| && x.attempts[r].own
  {
  }

  lemma WriteStartedKeeps(w: World, d: DeliveryId, x: Delivery, y: Delivery)
    requires DeliveryOk(w, d, x) && ActStart(x, WriteStarted) == Some(y)
    ensures DeliveryOk(w, d, y)
  {
    ReadyToGoLive(w, d, x);
    NothingBefore(w, d, x);
    var z := y.(handler := None);
    AttemptGoesLive(w, d, x, x.handler.value.attempt, false, z);
    assert Stands(w, d, z, PastOf(z.entries), y.handler.value);
    PcMoves(w, d, z, y.handler.value, y);
  }

  lemma WriteAdoptedKeeps(w: World, d: DeliveryId, x: Delivery, y: Delivery)
    requires DeliveryOk(w, d, x) && ActStart(x, WriteAdopted) == Some(y)
    ensures DeliveryOk(w, d, y)
  {
    ReadyToGoLive(w, d, x);
    var z := y.(handler := None);
    AttemptGoesLive(w, d, x, x.handler.value.attempt, true, z);
    assert Stands(w, d, z, PastOf(z.entries), y.handler.value);
    PcMoves(w, d, z, y.handler.value, y);
  }

  predicate OnlyMoves(step: StartStep) {
    step.Poll? || step.ReadLedger? || step.DenyStart? || step.Admit? || step.TargetBusy? || step.StartRefused? || step.LookAtUam?
  }

  /** By its ledger a delivery is settled, looked up in UAM, refused, left to others or started. */
  lemma ReadsLedger(x: Delivery, y: Delivery, l: Ledger)
    requires ActStart(x, ReadLedger) == Some(y) && l == LedgerOf(x.entries)
    ensures || y == At(x, Noting(l, Denied, "NOT_CONTINUITY_V2")) || y == x.(handler := None)
            || (l.live.Some? && y == At(x, FinalRead(l)))
            || (l.live.None? && (if l.intent then y == At(x, AdoptView(l)) else y == At(x, StartView(l))))
  {
  }

  lemma LedgerPcs(w: World, d: DeliveryId, x: Delivery, p: Past, l: Ledger)
    requires LedgerIsPast(l, p)
    ensures l.live.Some? ==> PcOk(w, d, x, p, FinalRead(l))
    ensures l.live.None? ==> PcOk(w, d, x, p, StartView(l)) && (l.intent ==> PcOk(w, d, x, p, AdoptView(l)))
  {
    if l.live.Some? {
      assert Stands(w, d, x, p, FinalRead(l));
    } else {
      assert Stands(w, d, x, p, StartView(l));
      assert l.intent ==> Stands(w, d, x, p, AdoptView(l));
    }
  }

  /** Nothing is asked of a handler that is about to note something. */
  lemma NotingPc(w: World, d: DeliveryId, x: Delivery, p: Past, pc: Pc)
    requires pc.Noting?
    ensures PcOk(w, d, x, p, pc)
  {
    assert Stands(w, d, x, p, pc);
  }

  lemma ReadLedgerPc(w: World, d: DeliveryId, x: Delivery, p: Past, y: Delivery)
    requires LedgerIsPast(LedgerOf(x.entries), p) && ActStart(x, ReadLedger) == Some(y)
    ensures y == x.(handler := y.handler) && (y.handler.Some? ==> PcOk(w, d, x, p, y.handler.value))
  {
    ReadsLedger(x, y, LedgerOf(x.entries));
    LedgerPcs(w, d, x, p, LedgerOf(x.entries));
    if y.handler.Some? && y.handler.value.Noting? {
      NotingPc(w, d, x, p, y.handler.value);
    }
  }

  lemma PollPc(w: World, d: DeliveryId, x: Delivery, p: Past, step: StartStep, y: Delivery)
    requires step.Poll? && ActStart(x, step) == Some(y)
    ensures y == x.(handler := y.handler) && y.handler.Some? && PcOk(w, d, x, p, y.handler.value)
  {
    assert Stands(w, d, x, p, y.handler.value);
  }

  lemma ViewingStartPc(w: World, d: DeliveryId, x: Delivery, p: Past, step: StartStep, y: Delivery)
    requires OnlyMoves(step) && !step.ReadLedger? && !step.Poll? && ActStart(x, step) == Some(y)
    requires p.started.Some? ==> x.attempts != []
    requires x.handler.Some? && x.handler.value.AdoptView? ==> p.started.None?
    ensures y == x.(handler := y.handler) && y.handler.Some? && PcOk(w, d, x, p, y.handler.value)
  {
    assert p.started.None? || x.attempts != [];
    assert Stands(w, d, x, p, y.handler.value);
  }

  lemma AdoptsBeforeStart(w: World, d: DeliveryId, x: Delivery)
    requires DeliveryOk(w, d, x)
    ensures x.handler.Some? && x.handler.value.AdoptView? ==> PastOf(x.entries).started.None?
    ensures PastOf(x.entries).started.Some? ==> x.attempts != []
    ensures LedgerIsPast(LedgerOf(x.entries), PastOf(x.entries))
  {
  }

  /** Where a handler stands after it has read something. */
  lemma ReadingStartPc(w: World, d: DeliveryId, x: Delivery, step: StartStep, y: Delivery)
    requires DeliveryOk(w, d, x) && OnlyMoves(step) && ActStart(x, step) == Some(y)
    ensures y == x.(handler := y.handler) && (y.handler.Some? ==> PcOk(w, d, x, PastOf(x.entries), y.handler.value))
  {
    AdoptsBeforeStart(w, d, x);
    if step.ReadLedger? {
      ReadLedgerPc(w, d, x, PastOf(x.entries), y);
    } else if step.Poll? {
      PollPc(w, d, x, PastOf(x.entries), step, y);
    } else {
      ViewingStartPc(w, d, x, PastOf(x.entries), step, y);
    }
  }

  lemma ReadingStartKeeps(w: World, d: DeliveryId, x: Delivery, step: StartStep, y: Delivery)
    requires DeliveryOk(w, d, x) && OnlyMoves(step) && ActStart(x, step) == Some(y)
    ensures DeliveryOk(w, d, y)
  {
    ReadingStartPc(w, d, x, step, y);
    if y.handler.Some? {
      PcMoves(w, d, x, y.handler.value, y);
    } else {
      PcEnds(w, d, x, y);
    }
  }

  lemma IntentKeeps(w: World, d: DeliveryId, x: Delivery, y: Delivery)
    requires DeliveryOk(w, d, x) && ActStart(x, WriteIntent) == Some(y)
    ensures DeliveryOk(w, d, y)
  {
    assert PastOf(x.entries).started.None? && NoOwn(x);
    assert Stands(w, d, x, PastOf(x.entries), y.handler.value);
    AsideIsWritten(w, d, x, Intent, y.handler, y);
  }

  /** Whether a refusal is noted next or not, a cleared intent says nothing of an attempt. */
  lemma ClearedKeeps(w: World, d: DeliveryId, x: Delivery, next: Option<Pc>, y: Delivery)
    requires DeliveryOk(w, d, x) && y == Write(x, IntentCleared, next) && (next.Some? ==> next.value.Noting?)
    ensures DeliveryOk(w, d, y)
  {
    assert next.Some? ==> Stands(w, d, x, PastOf(x.entries), next.value);
    AsideIsWritten(w, d, x, IntentCleared, next, y);
  }

  lemma Clears(x: Delivery, step: StartStep, y: Delivery)
    requires ActStart(x, step) == Some(y) && (step.WriteCleared? || step.WriteNoAttempt?)
    ensures y == Write(x, IntentCleared, y.handler) && (y.handler.Some? ==> y.handler.value.Noting?)
  {
  }

  lemma AttemptKeeps(w: World, d: DeliveryId, x: Delivery, step: StartStep, y: Delivery)
    requires DeliveryOk(w, d, x) && ActStart(x, step) == Some(y) && (step.StartLost? || step.StartAccepted?)
    ensures DeliveryOk(w, d, y)
  {
    if step.StartLost? && !step.effect {
      PcEnds(w, d, x, y);
    } else {
      OwnAttemptAppears(w, d, x, y.handler, y);
    }
  }

  /** A step that is possible leads to a sound delivery. */
  ghost predicate StartLeadsWell(w: World, d: DeliveryId, x: Delivery, step: StartStep) {
    match ActStart(x, step)
    case None => true
    case Some(y) => DeliveryOk(w, d, y)
  }

  lemma StartKeeps(w: World, d: DeliveryId, x: Delivery, step: StartStep)
    requires DeliveryOk(w, d, x)
    ensures StartLeadsWell(w, d, x, step)
  {
    if ActStart(x, step).Some? {
      var y := ActStart(x, step).value;
      if OnlyMoves(step) {
        ReadingStartKeeps(w, d, x, step, y);
      } else if step == WriteStarted {
        WriteStartedKeeps(w, d, x, y);
      } else if step == WriteAdopted {
        WriteAdoptedKeeps(w, d, x, y);
      } else if step.StartLost? || step.StartAccepted? {
        AttemptKeeps(w, d, x, step, y);
      } else if step == WriteIntent {
        IntentKeeps(w, d, x, y);
      } else {
        Clears(x, step, y);
        ClearedKeeps(w, d, x, y.handler, y);
      }
    }
  }

  // ---- running an adapter -----------------------------------------------------------------------------------

  /** The history of the live attempt grows while its adapter runs; nothing was settled yet. */
  lemma CallKeeps(w: World, d: DeliveryId, x: Delivery, y: Delivery)
    requires DeliveryOk(w, d, x) && ActRun(w, d, x, CallAdapter) == Some((w, y))
    ensures DeliveryOk(w, d, y)
  {
    var p := PastOf(x.entries);
    assert x.settlements == [] && p.announced.None? && p.ended.None?;
    assert x.groups.Keys == {} && x.recorded.Keys == {};
    assert HistoryOk(w, y, p);
    assert ProcessesOk(w, d, y);
    assert Stands(w, d, y, PastOf(y.entries), y.handler.value);
    assert Explains(w, d, y, PastOf(y.entries));
  }

  lemma JobKeeps(w: World, d: DeliveryId, x: Delivery, y: Delivery)
    requires DeliveryOk(w, d, x) && ActRun(w, d, x, WriteJob) == Some((w, y))
    ensures DeliveryOk(w, d, y)
  {
    assert HistoryOk(w, y, PastOf(y.entries));
    assert Stands(w, d, y, PastOf(y.entries), y.handler.value);
    assert Explains(w, d, y, PastOf(y.entries));
  }

  /** Before its root is spawned an attempt has no group, and nothing was announced or ended. */
  lemma SpawnsFirst(w: World, d: DeliveryId, x: Delivery, pid: Pid, command: string)
    requires DeliveryOk(w, d, x) && ActRun(w, d, x, Spawn(pid, command)).Some?
    ensures var p, r := PastOf(x.entries), x.handler.value.attempt;
            && RunningOk(x, p, r) && p.announced.None? && r in x.runs && r !in x.groups && r !in x.recorded
            && (x.runs[r] == LocalCommand ==> x.handler.value.JobWritten? && r in x.jobs)
            && (x.runs[r] == AgentAdapter ==> x.handler.value.Prepared?)
  {
  }

  lemma SpawnedCore(w: World, d: DeliveryId, x: Delivery, p: Past, r: AttemptRef, root: Process, v: World, y: Delivery)
    requires WorldOk(w) && CoreOk(w, d, x, p) && RunningOk(x, p, r) && p.announced.None?
    requires r in x.runs && r !in x.groups && r !in x.recorded && (x.runs[r] == LocalCommand ==> r in x.jobs)
    requires root.owner == Some(Owner(d, r)) && (root.confined <==> x.runs[r] == LocalCommand)
    requires v == Bear(w, root) && y == x.(groups := x.groups[r := Group(w.next, root.pgid)], handler := y.handler)
    ensures WorldOk(v) && CoreOk(v, d, y, p)
  {
    assert HistoryOk(v, y, p);
    assert ProcessesOk(v, d, y) by {
      assert forall b :: b in v.live ==> b == w.next || (b in w.live && v.live[b] == w.live[b]);
    }
  }

  lemma SpawnKeeps(w: World, d: DeliveryId, x: Delivery, pid: Pid, command: string, v: World, y: Delivery)
    requires WorldOk(w) && DeliveryOk(w, d, x) && ActRun(w, d, x, Spawn(pid, command)) == Some((v, y))
    ensures WorldOk(v) && DeliveryOk(v, d, y)
  {
    SpawnsFirst(w, d, x, pid, command);
    var r := x.handler.value.attempt;
    var root := Process(pid, pid, command, Some(Owner(d, r)), x.handler.value.JobWritten?, None);
    SpawnedCore(w, d, x, PastOf(x.entries), r, root, v, y);
    assert Stands(v, d, y, PastOf(y.entries), y.handler.value);
    assert Explains(v, d, y, PastOf(y.entries));
  }

  lemma AnnounceKeeps(w: World, d: DeliveryId, x: Delivery, step: RunStep, y: Delivery)
    requires DeliveryOk(w, d, x) && (step.Announce? || step.AnnounceAgain?) && ActRun(w, d, x, step) == Some((w, y))
    ensures DeliveryOk(w, d, y)
  {
    var pc, p := x.handler.value, PastOf(x.entries);
    var e := ExecutorStarted(pc.attempt, HandleOf(pc.kind, pc.pid));
    assert x.settlements == [] && p.ended.None? && !p.closed && p.started == Some(pc.attempt);
    AppendFits(x.entries, e);
    assert Stands(w, d, y, PastOf(y.entries), y.handler.value);
    assert Explains(w, d, y, PastOf(y.entries));
  }

  lemma ObservedCore(w: World, d: DeliveryId, x: Delivery, p: Past, r: AttemptRef, births: set<Birth>, y: Delivery)
    requires CoreOk(w, d, x, p) && RunningOk(x, p, r) && r in x.groups && r in x.runs && x.runs[r] == AgentAdapter
    requires HoldsTree(w, x.groups[r].root, births) && forall b :: b in births ==> b < w.next
    requires y == x.(recorded := x.recorded[r := Observation(births, w)], handler := y.handler)
    ensures CoreOk(w, d, y, p)
  {
    HeldTreeIsWhole(w, x.groups[r].root, births);
    assert HistoryOk(w, y, p) && ProcessesOk(w, d, y);
  }

  lemma Observes(w: World, d: DeliveryId, x: Delivery, seen: seq<Identity>, y: Delivery)
    requires DeliveryOk(w, d, x) && ActRun(w, d, x, Observe(seen)) == Some((w, y))
    ensures var pc := x.handler.value;
            && pc.Running? && AnnouncedOk(x, PastOf(x.entries), pc.attempt, AgentAdapter, pc.root, pc.pid)
            && HoldsTree(w, pc.root, Births(seen)) && SeenSoFar(w, seen) && pc.root < w.next
            && y == x.(recorded := x.recorded[pc.attempt := Observation(Births(seen), w)],
                       handler := Some(Observed(pc.attempt, pc.root, pc.pid, StopReport(true, true, seen))))
  {
  }

  lemma ObserveKeeps(w: World, d: DeliveryId, x: Delivery, seen: seq<Identity>, y: Delivery)
    requires DeliveryOk(w, d, x) && ActRun(w, d, x, Observe(seen)) == Some((w, y))
    ensures DeliveryOk(w, d, y)
  {
    Observes(w, d, x, seen, y);
    ObservedCore(w, d, x, PastOf(x.entries), x.handler.value.attempt, Births(seen), y);
    assert Stands(w, d, y, PastOf(y.entries), y.handler.value);
    assert Explains(w, d, y, PastOf(y.entries));
  }

  lemma AdapterRunsLive(w: World, d: DeliveryId, x: Delivery, p: Past, pc: Pc)
    requires InAdapter(pc) && PcOk(w, d, x, p, pc)
    ensures RunningOk(x, p, pc.attempt) && pc.attempt in x.runs
  {
  }

  /** After an exception nothing about the processes is kept, and the end record claims no stop. */
  lemma RaiseKeeps(w: World, d: DeliveryId, x: Delivery, y: Delivery)
    requires DeliveryOk(w, d, x) && ActRun(w, d, x, AdapterRaises) == Some((w, y))
    ensures DeliveryOk(w, d, y)
  {
    AdapterRunsLive(w, d, x, PastOf(x.entries), x.handler.value);
    ForgettingKeeps(w, d, x, y, PastOf(x.entries), x.handler.value.attempt);
  }

  lemma ForgettingKeeps(w: World, d: DeliveryId, x: Delivery, y: Delivery, p: Past, r: AttemptRef)
    requires CoreOk(w, d, x, p) && RunningOk(x, p, r) && r in x.runs && p == PastOf(x.entries) && LogOk(x.entries)
    requires y == At(x, RunReturned(r, EndReport(false, None))).(recorded := x.recorded - {r})
    ensures DeliveryOk(w, d, y)
  {
    assert Recorded(y, r) == {};
    var none: seq<Identity> := [];
    assert Births(none) == {};
    assert HistoryOk(w, y, p) && ProcessesOk(w, d, y);
    assert EndOk(w, d, y, p, r, EndReport(false, None));
    assert Stands(w, d, y, PastOf(y.entries), y.handler.value);
    assert Explains(w, d, y, PastOf(y.entries));
  }

  /** The end of the live attempt is recorded once. */
  lemma EndIsWritten(w: World, d: DeliveryId, x: Delivery, r: AttemptRef, end: EndReport, y: Delivery)
    requires DeliveryOk(w, d, x) && RunningOk(x, PastOf(x.entries), r) && r in x.runs
    requires EndOk(w, d, x, PastOf(x.entries), r, end) && y == Write(x, ExecutorEnded(r, end), Some(EndWritten(r)))
    ensures DeliveryOk(w, d, y)
  {
    var p := PastOf(x.entries);
    AppendFits(x.entries, ExecutorEnded(r, end));
    CoreReframes(w, d, x, y, p);
    assert HistoryOk(w, y, p.(ended := Some(end)));
    assert EndOk(w, d, y, p.(ended := Some(end)), r, end);
    assert Stands(w, d, y, PastOf(y.entries), y.handler.value);
    assert Explains(w, d, y, PastOf(y.entries));
  }

  lemma EndKeeps(w: World, d: DeliveryId, x: Delivery, y: Delivery)
    requires DeliveryOk(w, d, x) && ActRun(w, d, x, WriteEnded) == Some((w, y))
    ensures DeliveryOk(w, d, y)
  {
    EndIsWritten(w, d, x, x.handler.value.attempt, x.handler.value.end, y);
  }

  /** A step of a run that changes nothing but where the handler stands, and what is known of the group. */
  predicate RunMoves(step: RunStep) {
    !(step.CallAdapter? || step.WriteJob? || step.Spawn? || step.Announce? || step.AnnounceAgain? || step.Observe?
      || step.AdapterRaises? || step.WriteEnded? || step.Persist?)
  }

  /** An empty process group holds nothing of an executor that stays in it. */
  lemma EmptyGroupIsQuiet(w: World, d: DeliveryId, x: Delivery, r: AttemptRef)
    requires ProcessesOk(w, d, x) && r in x.groups && !GroupAlive(w, x.groups[r].pgid)
    ensures NoneConfined(w, d, r)
  {
  }

  /** An agent's executor is never confined, and an attempt without a root has no process. */
  lemma NothingConfined(w: World, d: DeliveryId, x: Delivery, r: AttemptRef)
    requires ProcessesOk(w, d, x) && (r !in x.groups || (r in x.runs && x.runs[r] == AgentAdapter))
    ensures NoneConfined(w, d, r)
  {
  }

  /** A complete read of the table in which no recorded PID occurs: every recorded process is dead. */
  lemma AbsentIsDead(w: World, x: Delivery, r: AttemptRef, seen: seq<Identity>)
    requires SeenOk(w, x, r, seen) && !SameThere(w, seen) && !ChangedThere(w, seen)
    ensures RecordedDead(w, x, r)
  {
    forall b | b in Recorded(x, r)
      ensures b !in w.live
    {
      var k :| 0 <= k < |seen| && seen[k].birth == b;
    }
  }

  /** Where a run stands after a step that only moves it. */
  ghost predicate MovesWell(w: World, d: DeliveryId, x: Delivery, p: Past, y: Delivery) {
    && y.handler.Some? && y == x.(closed := y.closed, handler := y.handler)
    && PcOk(w, d, x.(closed := y.closed, handler := None), p, y.handler.value)
  }

  /** When an adapter finds a group empty, no end is recorded yet. */
  lemma ClosedIsNoted(w: World, d: DeliveryId, x: Delivery, y: Delivery)
    requires DeliveryOk(w, d, x) && x.handler.Some? && InAdapter(x.handler.value)
    requires y == x.(closed := y.closed, handler := None)
    ensures DeliveryOk(w, d, y)
  {
    AdapterRunsLive(w, d, x, PastOf(x.entries), x.handler.value);
    assert HistoryOk(w, y, PastOf(x.entries)) && ProcessesOk(w, d, y);
    assert Explains(w, d, y, PastOf(y.entries));
  }

  /** A run that ends with nothing left to report: the adapter refused, nothing was spawned, or the group is gone. */
  lemma ShortRunPc(w: World, d: DeliveryId, x: Delivery, p: Past, step: RunStep, y: Delivery)
    requires step.AdapterRefuses? || step.SpawnFails? || step.LocalReturns?
    requires ActRun(w, d, x, step) == Some((w, y)) && HistoryOk(w, x, p) && ProcessesOk(w, d, x)
    requires PcOk(w, d, x, p, x.handler.value)
    ensures MovesWell(w, d, x, p, y)
  {
    var pc := x.handler.value;
    if step.LocalReturns? {
      if step.stopped {
        EmptyGroupIsQuiet(w, d, x, pc.attempt);
        EmptyNow(w, x.groups[pc.attempt]);
      }
    } else {
      NothingConfined(w, d, x, pc.attempt);
    }
    assert Stands(w, d, x.(closed := y.closed, handler := None), p, y.handler.value);
  }

  /** The table could not be read, or the server is asked whether it lived when it was. */
  lemma UnobservedPc(w: World, d: DeliveryId, x: Delivery, p: Past, y: Delivery)
    requires ActRun(w, d, x, ObserveFails) == Some((w, y)) && HistoryOk(w, x, p) && PcOk(w, d, x, p, x.handler.value)
    ensures MovesWell(w, d, x, p, y)
  {
    assert Stands(w, d, x.(closed := y.closed, handler := None), p, y.handler.value);
  }

  lemma AskedPc(w: World, d: DeliveryId, x: Delivery, p: Past, y: Delivery)
    requires ActRun(w, d, x, AskExited) == Some((w, y)) && PcOk(w, d, x, p, x.handler.value)
    ensures MovesWell(w, d, x, p, y)
  {
    assert Stands(w, d, x.(closed := y.closed, handler := None), p, y.handler.value);
  }

  lemma ClosingPc(w: World, d: DeliveryId, x: Delivery, p: Past, step: RunStep, y: Delivery)
    requires step.Close? || step.ReadTable?
    requires ActRun(w, d, x, step) == Some((w, y)) && PcOk(w, d, x, p, x.handler.value)
    ensures MovesWell(w, d, x, p, y)
  {
    var pc := x.handler.value;
    if step.ReadTable? && !SameThere(w, pc.report.seen) && !ChangedThere(w, pc.report.seen) {
      AbsentIsDead(w, x, pc.attempt, pc.report.seen);
    }
    assert Stands(w, d, x.(closed := y.closed, handler := None), p, y.handler.value);
  }

  lemma ReportPc(w: World, d: DeliveryId, x: Delivery, p: Past, y: Delivery)
    requires ActRun(w, d, x, Report) == Some((w, y)) && HistoryOk(w, x, p) && ProcessesOk(w, d, x)
    requires PcOk(w, d, x, p, x.handler.value)
    ensures MovesWell(w, d, x, p, y)
  {
    var pc := x.handler.value;
    NothingConfined(w, d, x, pc.attempt);
    if !GroupAlive(w, pc.pid) {
      EmptyNow(w, x.groups[pc.attempt]);
    }
    assert Stands(w, d, x.(closed := y.closed, handler := None), p, y.handler.value);
  }

  lemma RunMovesPc(w: World, d: DeliveryId, x: Delivery, p: Past, step: RunStep, y: Delivery)
    requires RunMoves(step) && ActRun(w, d, x, step) == Some((w, y))
    requires HistoryOk(w, x, p) && ProcessesOk(w, d, x) && PcOk(w, d, x, p, x.handler.value)
    ensures MovesWell(w, d, x, p, y)
  {
    if step.Report? {
      ReportPc(w, d, x, p, y);
    } else if step.ObserveFails? {
      UnobservedPc(w, d, x, p, y);
    } else if step.AskExited? {
      AskedPc(w, d, x, p, y);
    } else if step.Close? || step.ReadTable? {
      ClosingPc(w, d, x, p, step, y);
    } else {
      ShortRunPc(w, d, x, p, step, y);
    }
  }

  lemma MovesInAdapter(w: World, d: DeliveryId, x: Delivery, step: RunStep)
    requires RunMoves(step) && ActRun(w, d, x, step).Some?
    ensures x.handler.Some? && InAdapter(x.handler.value)
  {
  }

  lemma MovedRunKeeps(w: World, d: DeliveryId, x: Delivery, y: Delivery)
    requires DeliveryOk(w, d, x) && x.handler.Some? && InAdapter(x.handler.value)
    requires MovesWell(w, d, x, PastOf(x.entries), y)
    ensures DeliveryOk(w, d, y)
  {
    var z := x.(closed := y.closed, handler := None);
    ClosedIsNoted(w, d, x, z);
    PcMoves(w, d, z, y.handler.value, y);
  }

  lemma RunMovesKeep(w: World, d: DeliveryId, x: Delivery, step: RunStep, y: Delivery)
    requires DeliveryOk(w, d, x) && RunMoves(step) && ActRun(w, d, x, step) == Some((w, y))
    ensures DeliveryOk(w, d, y)
  {
    MovesInAdapter(w, d, x, step);
    RunMovesPc(w, d, x, PastOf(x.entries), step, y);
    MovedRunKeeps(w, d, x, y);
  }

  lemma Persists(w: World, d: DeliveryId, x: Delivery, outcome: Option<Outcome>, y: Delivery)
    requires DeliveryOk(w, d, x) && ActRun(w, d, x, Persist(outcome)) == Some((w, y))
    ensures y == x.(outcomes := y.outcomes, handler := Some(FinalRead(LedgerOf(x.entries))))
    ensures LiveOk(PastOf(x.entries), LedgerOf(x.entries))
  {
  }

  lemma PersistKeeps(w: World, d: DeliveryId, x: Delivery, outcome: Option<Outcome>, y: Delivery)
    requires DeliveryOk(w, d, x) && ActRun(w, d, x, Persist(outcome)) == Some((w, y))
    ensures DeliveryOk(w, d, y)
  {
    Persists(w, d, x, outcome, y);
    CoreReframes(w, d, x, y, PastOf(x.entries));
    assert Stands(w, d, y, PastOf(y.entries), y.handler.value);
    assert Explains(w, d, y, PastOf(y.entries));
  }

  ghost predicate RunLeadsWell(w: World, d: DeliveryId, x: Delivery, step: RunStep) {
    match ActRun(w, d, x, step)
    case None => true
    case Some(r) => WorldOk(r.0) && DeliveryOk(r.0, d, r.1)
  }

  lemma RunKeepsWorld(w: World, d: DeliveryId, x: Delivery, step: RunStep)
    requires ActRun(w, d, x, step).Some? && !step.Spawn?
    ensures ActRun(w, d, x, step).value.0 == w
  {
  }

  /** A step of a run that touches no process. */
  lemma OwnRunKeeps(w: World, d: DeliveryId, x: Delivery, step: RunStep, y: Delivery)
    requires WorldOk(w) && DeliveryOk(w, d, x) && !step.Spawn? && ActRun(w, d, x, step) == Some((w, y))
    ensures DeliveryOk(w, d, y)
  {
    if RunMoves(step) {
      RunMovesKeep(w, d, x, step, y);
    } else if step.CallAdapter? {
      CallKeeps(w, d, x, y);
    } else if step.WriteJob? {
      JobKeeps(w, d, x, y);
    } else if step.Observe? {
      ObserveKeeps(w, d, x, step.seen, y);
    } else if step.AdapterRaises? {
      RaiseKeeps(w, d, x, y);
    } else if step.WriteEnded? {
      EndKeeps(w, d, x, y);
    } else if step.Persist? {
      PersistKeeps(w, d, x, step.outcome, y);
    } else {
      AnnounceKeeps(w, d, x, step, y);
    }
  }

  lemma RunKeeps(w: World, d: DeliveryId, x: Delivery, step: RunStep)
    requires WorldOk(w) && DeliveryOk(w, d, x)
    ensures RunLeadsWell(w, d, x, step)
  {
    if ActRun(w, d, x, step).Some? {
      var (v, y) := ActRun(w, d, x, step).value;
      if step.Spawn? {
        SpawnKeeps(w, d, x, step.pid, step.command, v, y);
      } else {
        RunKeepsWorld(w, d, x, step);
        OwnRunKeeps(w, d, x, step, y);
      }
    }
  }

  // ---- settling ---------------------------------------------------------------------------------------------

  predicate FinalMoves(step: FinalStep) {
    || step.ReadOutcome? || step.CheckGroup? || step.CheckStop? || step.DecideStop? || step.Decide? || step.SubmitBlocked?
    || step.SubmitFails? || step.SubmitNow? || (step.Tell? && !step.accepted)
  }

  /** Where a handler stands after a step that only moves it. */
  ghost predicate StandsWell(w: World, d: DeliveryId, x: Delivery, p: Past, y: Delivery) {
    y.handler.Some? && y == At(x, y.handler.value) && PcOk(w, d, x, p, y.handler.value)
  }

  lemma CheckedGroupPc(w: World, d: DeliveryId, x: Delivery, p: Past, y: Delivery)
    requires ActFinal(w, x, CheckGroup) == Some(y) && HistoryOk(w, x, p) && ProcessesOk(w, d, x)
    requires PcOk(w, d, x, p, x.handler.value)
    ensures StandsWell(w, d, x, p, y)
  {
    var l := x.handler.value.l;
    if l.handle.Some? && !GroupAlive(w, l.handle.value.pgid) {
      EmptyGroupIsQuiet(w, d, x, p.started.value);
      EmptyNow(w, x.groups[p.started.value]);
    }
    assert Stands(w, d, x, p, y.handler.value);
  }

  lemma CheckedStopPc(w: World, d: DeliveryId, x: Delivery, p: Past, step: FinalStep, y: Delivery)
    requires step.CheckStop? && ActFinal(w, x, step) == Some(y) && PcOk(w, d, x, p, x.handler.value)
    requires p.ended.Some? && p.started.Some? ==> SeenOk(w, x, p.started.value, SeenIn(p.ended.value))
    ensures StandsWell(w, d, x, p, y)
  {
    if p.ended.Some? {
      var seen := SeenIn(p.ended.value);
      if seen == [] {
        assert Births(seen) == {};
      } else if !SameThere(w, seen) && !ChangedThere(w, seen) {
        AbsentIsDead(w, x, p.started.value, seen);
      }
    }
    assert Stands(w, d, x, p, y.handler.value);
  }

  /** The stop question lets a handler pass exactly on these grounds. */
  lemma GateOpensExactly(handle: Option<Handle>, ended: Option<EndReport>, readBack: ReadBack, groupAlive: bool)
    ensures var s := StateOf(handle, ended, readBack, groupAlive);
            (s.None? || s.value == Gone)
              <==> GateOpen(handle, ended) && (ended.Some? && !ended.value.stopped ==> readBack == Answer(false, false) && !groupAlive)
  {
    if ended.Some? && !ended.value.stopped {
      assert readBack.Unreadable? || readBack == Answer(readBack.same, readBack.changed);
    }
  }

  /** A handler past the stop question holds an executor that is shown stopped, or that was never announced. */
  lemma StopQuestion(w: World, d: DeliveryId, x: Delivery, p: Past, readBack: ReadBack, groupAlive: bool)
    requires HistoryOk(w, x, p) && ProcessesOk(w, d, x) && p.started.Some?
    requires p.ended.Some? ==> EndOk(w, d, x, p, p.started.value, p.ended.value)
    requires p.announced.Some? ==> NoneConfined(w, d, p.started.value)
    requires p.ended.Some? && readBack == Answer(false, false) ==> RecordedDead(w, x, p.started.value)
    requires var s := StateOf(p.announced, p.ended, readBack, groupAlive); s.None? || s.value == Gone
    ensures Cleared(w, d, x, p)
  {
    GateOpensExactly(p.announced, p.ended, readBack, groupAlive);
    if p.announced.Some? && p.ended.None? {
      assert x.runs[p.started.value] == LocalCommand;
      assert Recorded(x, p.started.value) == {};
    }
  }

  /** The answer to the stop question moves a handler on, with the moment at which the group was last found empty. */
  lemma DecidesStop(w: World, x: Delivery, y: Delivery)
    requires ActFinal(w, x, DecideStop) == Some(y)
    ensures x.handler.Some? && x.handler.value.StopGroup? && y.handler.Some?
    ensures var pc, next := x.handler.value, y.handler.value;
            var alive := pc.l.handle.Some? && GroupAlive(w, pc.l.handle.value.pgid);
            var state := StateOf(pc.l.handle, pc.l.ended, pc.readBack, alive);
            && y == At(x, next)
            && (next.Noting?
                || (state.None? && next == Deciding(pc.l, pc.outcome, pc.since))
                || (state == Some(Gone)
                    && (next == GoneSeen(pc.l, pc.outcome, w.next) || next == Deciding(pc.l, pc.outcome, w.next))))
  {
  }

  /** A group that is found empty once more. */
  lemma StillEmpty(w: World, x: Delivery, p: Past, readBack: ReadBack, groupAlive: bool)
    requires HistoryOk(w, x, p) && StateOf(p.announced, p.ended, readBack, groupAlive) == Some(Gone)
    requires p.announced.Some? ==> (groupAlive <==> GroupAlive(w, p.announced.value.pgid))
    ensures SinceOk(w, x, p, w.next)
  {
    if p.announced.Some? {
      EmptyNow(w, x.groups[p.started.value]);
    }
  }

  lemma DecidedStopPc(w: World, d: DeliveryId, x: Delivery, p: Past, y: Delivery)
    requires ActFinal(w, x, DecideStop) == Some(y) && CoreOk(w, d, x, p) && PcOk(w, d, x, p, x.handler.value)
    ensures StandsWell(w, d, x, p, y)
  {
    DecidesStop(w, x, y);
    var pc, next := x.handler.value, y.handler.value;
    var alive := pc.l.handle.Some? && GroupAlive(w, pc.l.handle.value.pgid);
    if next.Noting? {
      NotingPc(w, d, x, p, next);
    } else {
      StopQuestion(w, d, x, p, pc.readBack, alive);
      if StateOf(pc.l.handle, pc.l.ended, pc.readBack, alive) == Some(Gone) {
        StillEmpty(w, x, p, pc.readBack, alive);
      }
      assert Stands(w, d, x, p, next);
    }
  }

  /** What is decided on the outcome that was read: to leave the attempt open, to submit, or what to tell. */
  lemma Decides(w: World, x: Delivery, y: Delivery)
    requires ActFinal(w, x, Decide) == Some(y)
    ensures x.handler.Some? && x.handler.value.Deciding? && x.handler.value.l.live.Some? && y.handler.Some?
    ensures var pc, next := x.handler.value, y.handler.value;
            && y == At(x, next)
            && (next.Noting? || next == Submitting(pc.l, Some(Done), pc.since)
                || (next.Telling? && next == Telling(pc.l, next.action, pc.outcome, pc.since)
                    && SaysWhatWasRead(next.action, pc.outcome, pc.l.handle)
                    && (next.action == NoExecutorWasStarted ==> pc.l.live.value !in x.jobs)))
  {
  }

  lemma DecidedPc(w: World, d: DeliveryId, x: Delivery, p: Past, y: Delivery)
    requires ActFinal(w, x, Decide) == Some(y) && HistoryOk(w, x, p) && PcOk(w, d, x, p, x.handler.value)
    ensures StandsWell(w, d, x, p, y)
  {
    Decides(w, x, y);
    var l := x.handler.value.l;
    if l.handle.None? && l.live.value !in x.jobs {
      assert NothingStarted(x, p);
    }
    assert Stands(w, d, x, p, y.handler.value);
  }

  lemma ReadOutcomePc(w: World, d: DeliveryId, x: Delivery, p: Past, y: Delivery)
    requires ActFinal(w, x, ReadOutcome) == Some(y) && PcOk(w, d, x, p, x.handler.value)
    ensures StandsWell(w, d, x, p, y)
  {
    assert Stands(w, d, x, p, y.handler.value);
  }

  lemma SubmittingPc(w: World, d: DeliveryId, x: Delivery, p: Past, step: FinalStep, y: Delivery)
    requires step.SubmitFails? || step.SubmitNow?
    requires ActFinal(w, x, step) == Some(y) && PcOk(w, d, x, p, x.handler.value)
    ensures StandsWell(w, d, x, p, y)
  {
    assert Stands(w, d, x, p, y.handler.value);
  }

  lemma RefusedPc(w: World, d: DeliveryId, x: Delivery, p: Past, step: FinalStep, y: Delivery)
    requires (step.SubmitBlocked? || (step.Tell? && !step.accepted)) && ActFinal(w, x, step) == Some(y)
    ensures StandsWell(w, d, x, p, y)
  {
    assert Stands(w, d, x, p, y.handler.value);
  }

  lemma FinalMovesPc(w: World, d: DeliveryId, x: Delivery, p: Past, step: FinalStep, y: Delivery)
    requires FinalMoves(step) && ActFinal(w, x, step) == Some(y) && CoreOk(w, d, x, p) && PcOk(w, d, x, p, x.handler.value)
    ensures StandsWell(w, d, x, p, y)
  {
    if step.CheckGroup? {
      CheckedGroupPc(w, d, x, p, y);
    } else if step.CheckStop? {
      CheckedStopPc(w, d, x, p, step, y);
    } else if step.DecideStop? {
      DecidedStopPc(w, d, x, p, y);
    } else if step.Decide? {
      DecidedPc(w, d, x, p, y);
    } else if step.ReadOutcome? {
      ReadOutcomePc(w, d, x, p, y);
    } else if step.SubmitFails? || step.SubmitNow? {
      SubmittingPc(w, d, x, p, step, y);
    } else {
      RefusedPc(w, d, x, p, step, y);
    }
  }

  lemma FinalMovesKeep(w: World, d: DeliveryId, x: Delivery, step: FinalStep, y: Delivery)
    requires DeliveryOk(w, d, x) && FinalMoves(step) && ActFinal(w, x, step) == Some(y)
    ensures DeliveryOk(w, d, y)
  {
    FinalMovesPc(w, d, x, PastOf(x.entries), step, y);
    PcMoves(w, d, x, y.handler.value, y);
  }

  lemma ReconciledKeeps(w: World, d: DeliveryId, x: Delivery, y: Delivery)
    requires DeliveryOk(w, d, x) && ActFinal(w, x, WriteReconciled) == Some(y)
    ensures DeliveryOk(w, d, y)
  {
    assert Stands(w, d, x, PastOf(x.entries), y.handler.value);
    AsideIsWritten(w, d, x, Reconciled(x.handler.value.l.live.value), y.handler, y);
  }

  lemma NoteKeeps(w: World, d: DeliveryId, x: Delivery, y: Delivery)
    requires DeliveryOk(w, d, x) && ActFinal(w, x, Note) == Some(y)
    ensures DeliveryOk(w, d, y)
  {
    var pc := x.handler.value;
    if pc.l.advisory == Some((pc.phase, pc.code)) {
      PcEnds(w, d, x, y);
    } else {
      AsideIsWritten(w, d, x, Advisory(pc.phase, pc.code), None, y);
    }
  }

  lemma RemarkKeeps(w: World, d: DeliveryId, x: Delivery, step: FinalStep, y: Delivery)
    requires DeliveryOk(w, d, x) && ActFinal(w, x, step) == Some(y) && (step.WriteRemark? || step.Abort?)
    ensures DeliveryOk(w, d, y)
  {
    if step.WriteRemark? {
      AsideIsWritten(w, d, x, Remark, x.handler, y);
    } else {
      PcEnds(w, d, x, y);
    }
  }

  /** One more settlement of what the gate let through. */
  lemma SettlementIsOk(w: World, d: DeliveryId, x: Delivery, y: Delivery, p: Past, t: Settlement)
    requires CoreOk(w, d, x, p) && Cleared(w, d, x, p) && SinceOk(w, x, p, t.since)
    requires p.started == Some(t.attempt) && t.handle == p.announced && t.ended == p.ended
    requires (t.action == NoExecutorWasStarted ==> NothingStarted(x, p)) && SaysWhatWasRead(t.action, t.outcome, t.handle)
    requires y == x.(settlements := x.settlements + [t], handler := y.handler)
    ensures CoreOk(w, d, y, p)
  {
    assert HistoryOk(w, y, p) && ProcessesOk(w, d, y);
    assert SettlementsOk(w, d, y, p);
  }

  lemma TellingIsCleared(w: World, d: DeliveryId, x: Delivery, p: Past, pc: Pc)
    requires pc.Telling? && PcOk(w, d, x, p, pc)
    ensures LiveOk(p, pc.l) && Cleared(w, d, x, p) && (pc.action == NoExecutorWasStarted ==> NothingStarted(x, p))
    ensures SaysWhatWasRead(pc.action, pc.outcome, pc.l.handle) && SinceOk(w, x, p, pc.since)
  {
  }

  lemma Tells(w: World, x: Delivery, step: FinalStep, y: Delivery)
    requires step.Tell? && step.accepted && ActFinal(w, x, step) == Some(y)
    ensures x.handler.Some? && x.handler.value.Telling? && x.handler.value.l.live.Some?
    ensures var pc := x.handler.value;
            var r := pc.l.live.value;
            && r < |x.attempts|
            && y == x.(
                 handler := Some(Told(pc.l, pc.action)),
                 attempts := x.attempts[r := x.attempts[r].(active := false)],
                 settlements := x.settlements + [Settlement(r, pc.action, pc.l.handle, pc.l.ended, pc.outcome, pc.since)])
  {
  }

  lemma ClearedReframes(w: World, d: DeliveryId, x: Delivery, y: Delivery, p: Past)
    requires y == x.(attempts := y.attempts)
    ensures Cleared(w, d, x, p) ==> Cleared(w, d, y, p)
    ensures NothingStarted(x, p) ==> NothingStarted(y, p)
    ensures forall since :: SinceOk(w, x, p, since) ==> SinceOk(w, y, p, since)
  {
  }

  /** UAM is told: the settlement is what the gate let through. */
  lemma ToldKeeps(w: World, d: DeliveryId, x: Delivery, step: FinalStep, y: Delivery)
    requires DeliveryOk(w, d, x) && step.Tell? && step.accepted && ActFinal(w, x, step) == Some(y)
    ensures DeliveryOk(w, d, y)
  {
    Tells(w, x, step, y);
    var p, pc := PastOf(x.entries), x.handler.value;
    TellingIsCleared(w, d, x, p, pc);
    var mid := x.(attempts := y.attempts);
    AttemptsReframe(w, d, x, mid, p);
    ClearedReframes(w, d, x, mid, p);
    SettlementIsOk(w, d, mid, y, p, Settlement(pc.l.live.value, pc.action, pc.l.handle, pc.l.ended, pc.outcome, pc.since));
    assert Stands(w, d, y, PastOf(y.entries), y.handler.value);
    assert Explains(w, d, y, PastOf(y.entries));
  }

  /** A closed attempt keeps everything its journal said. */
  lemma ClosingKeeps(w: World, d: DeliveryId, x: Delivery, e: Entry, y: Delivery)
    requires DeliveryOk(w, d, x) && (e.Submitted? || e.Ended?) && Fits(PastOf(x.entries), e) && y == Write(x, e, None)
    ensures DeliveryOk(w, d, y)
  {
    var p := PastOf(x.entries);
    AppendFits(x.entries, e);
    CoreReframes(w, d, x, y, p);
    assert HistoryOk(w, y, p.(closed := true)) && SettlementsOk(w, d, y, p.(closed := true));
    assert Explains(w, d, y, PastOf(y.entries));
  }

  lemma SettledKeeps(w: World, d: DeliveryId, x: Delivery, y: Delivery)
    requires DeliveryOk(w, d, x) && ActFinal(w, x, WriteSettled) == Some(y)
    ensures DeliveryOk(w, d, y)
  {
    var r := x.handler.value.l.live.value;
    ClosingKeeps(w, d, x, if x.handler.value.action == SubmitResult then Submitted(r) else Ended(r), y);
  }

  ghost predicate FinalLeadsWell(w: World, d: DeliveryId, x: Delivery, step: FinalStep) {
    match ActFinal(w, x, step)
    case None => true
    case Some(y) => DeliveryOk(w, d, y)
  }

  lemma FinalKeeps(w: World, d: DeliveryId, x: Delivery, step: FinalStep)
    requires DeliveryOk(w, d, x)
    ensures FinalLeadsWell(w, d, x, step)
  {
    if ActFinal(w, x, step).Some? {
      var y := ActFinal(w, x, step).value;
      if FinalMoves(step) {
        FinalMovesKeep(w, d, x, step, y);
      } else if step.Tell? {
        ToldKeeps(w, d, x, step, y);
      } else if step.WriteSettled? {
        SettledKeeps(w, d, x, y);
      } else if step.WriteReconciled? {
        ReconciledKeeps(w, d, x, y);
      } else if step.Note? {
        NoteKeeps(w, d, x, y);
      } else {
        RemarkKeeps(w, d, x, step, y);
      }
    }
  }

  // ---- the surroundings ---------------------------------------------------------------------------------------

  lemma OutcomesReframe(w: World, d: DeliveryId, x: Delivery, y: Delivery)
    requires DeliveryOk(w, d, x) && y == x.(outcomes := y.outcomes)
    ensures DeliveryOk(w, d, y)
  {
    CoreReframes(w, d, x, y, PastOf(x.entries));
    if x.handler.Some? {
      PcReframes(w, d, x, y, PastOf(x.entries), x.handler.value);
    }
    assert Explains(w, d, y, PastOf(y.entries));
  }

  lemma AttemptsReframeAll(w: World, d: DeliveryId, x: Delivery, y: Delivery)
    requires DeliveryOk(w, d, x) && AttemptsGrow(x, y) && y == x.(attempts := y.attempts)
    requires forall k :: |x.attempts| <= k < |y.attempts| ==> !y.attempts[k].own
    ensures DeliveryOk(w, d, y)
  {
    AttemptsReframe(w, d, x, y, PastOf(x.entries));
    if x.handler.Some? {
      PcOfAttemptsReframes(w, d, x, y, PastOf(x.entries), x.handler.value);
    }
    assert Explains(w, d, y, PastOf(y.entries));
  }

  lemma AttemptsKeep(w: World, d: DeliveryId, x: Delivery, step: AroundStep, y: Delivery)
    requires DeliveryOk(w, d, x) && ActAround(x, step) == Some(y) && (step.ForeignAttempt? || step.CloseAttempt?)
    ensures DeliveryOk(w, d, y)
  {
    assert OneOwn(x);
    AttemptsReframeAll(w, d, x, y);
  }

  ghost predicate AroundLeadsWell(w: World, d: DeliveryId, x: Delivery, step: AroundStep) {
    match ActAround(x, step)
    case None => true
    case Some(y) => DeliveryOk(w, d, y)
  }

  lemma AroundKeeps(w: World, d: DeliveryId, x: Delivery, step: AroundStep)
    requires DeliveryOk(w, d, x)
    ensures AroundLeadsWell(w, d, x, step)
  {
    if ActAround(x, step).Some? {
      var y := ActAround(x, step).value;
      if step.ForeignAttempt? || step.CloseAttempt? {
        AttemptsKeep(w, d, x, step, y);
      } else {
        OutcomesReframe(w, d, x, y);
      }
    }
  }

  // ---- runs of the whole system -------------------------------------------------------------------------------

  lemma BearStays(w: World, v: World, d: DeliveryId, x: Delivery, past: Past, p: Process)
    requires WorldOk(w) && CoreOk(w, d, x, past) && v == Bear(w, p) && p.owner.Some? && p.owner.value.delivery != d
    ensures Stays(w, v, d, x)
  {
    assert forall b :: b in v.live ==> b == w.next || (b in w.live && v.live[b] == w.live[b]);
    forall r, seen: seq<Identity> | SeenOk(w, x, r, seen)
      ensures SeenOk(v, x, r, seen)
    {
      forall k | 0 <= k < |seen| && seen[k].birth in v.live
        ensures v.live[seen[k].birth].pid == seen[k].pid
      {
        assert seen[k].birth in Births(seen);
      }
    }
  }

  /** A process that is started for one delivery changes nothing for another. */
  lemma OthersStay(w: World, v: World, d: DeliveryId, x: Delivery, p: Process)
    requires WorldOk(w) && DeliveryOk(w, d, x) && v == Bear(w, p) && p.owner.Some? && p.owner.value.delivery != d
    ensures DeliveryOk(v, d, x)
  {
    BearStays(w, v, d, x, PastOf(x.entries), p);
    CoreStays(w, v, d, x, PastOf(x.entries));
    if x.handler.Some? {
      PcStays(w, v, d, x, PastOf(x.entries), x.handler.value);
    }
    assert Explains(v, d, x, PastOf(x.entries));
  }

  lemma SpawnBears(w: World, d: DeliveryId, x: Delivery, step: RunStep, v: World, y: Delivery)
    requires step.Spawn? && ActRun(w, d, x, step) == Some((v, y))
    ensures exists p :: v == Bear(w, p) && p.owner.Some? && p.owner.value.delivery == d
  {
    var kind := if x.handler.value.JobWritten? then LocalCommand else AgentAdapter;
    var p := Process(step.pid, step.pid, step.command, Some(Owner(d, x.handler.value.attempt)), kind == LocalCommand, None);
    assert v == Bear(w, p);
  }

  lemma RunSparesOthers(w: World, d: DeliveryId, x: Delivery, step: RunStep, v: World, y: Delivery, e: DeliveryId, z: Delivery)
    requires WorldOk(w) && ActRun(w, d, x, step) == Some((v, y)) && d != e && DeliveryOk(w, e, z)
    ensures DeliveryOk(v, e, z)
  {
    if step.Spawn? {
      SpawnBears(w, d, x, step, v, y);
      var p :| v == Bear(w, p) && p.owner.Some? && p.owner.value.delivery == d;
      OthersStay(w, v, e, z, p);
    } else {
      RunKeepsWorld(w, d, x, step);
    }
  }

  ghost predicate LeadsWell(s: State, step: Step) {
    match Next(s, step)
    case None => true
    case Some(t) => Inv(t)
  }

  lemma PutKeeps(s: State, d: DeliveryId, x: Delivery, t: State)
    requires Inv(s) && DeliveryOk(s.w, d, x) && Put(s, d, Some(x)) == Some(t)
    ensures Inv(t)
  {
    forall e: DeliveryId
      ensures DeliveryOk(t.w, e, Of(t, e))
    {
      assert DeliveryOk(s.w, e, Of(s, e));
      assert Of(t, e) == if e == d then x else Of(s, e);
    }
  }

  lemma RunStepKeeps(s: State, d: DeliveryId, step: RunStep)
    requires Inv(s)
    ensures LeadsWell(s, Run(d, step))
  {
    var x := Of(s, d);
    RunKeeps(s.w, d, x, step);
    if ActRun(s.w, d, x, step).Some? {
      var (v, y) := ActRun(s.w, d, x, step).value;
      var t := Next(s, Run(d, step)).value;
      forall e: DeliveryId
        ensures DeliveryOk(v, e, Of(t, e))
      {
        if e != d {
          RunSparesOthers(s.w, d, x, step, v, y, e, Of(s, e));
        }
      }
    }
  }

  lemma WorldStepKeeps(s: State, step: WorldStep)
    requires Inv(s)
    ensures LeadsWell(s, Processes(step))
  {
    if MoveWorld(s.w, step).Some? {
      var t := Next(s, Processes(step)).value;
      WorldStepsMove(s.w, step);
      forall e: DeliveryId
        ensures DeliveryOk(t.w, e, Of(t, e))
      {
        DeliveryStays(s.w, t.w, e, Of(s, e));
      }
    }
  }

  lemma CrashKeeps(s: State)
    requires Inv(s)
    ensures LeadsWell(s, Crash)
  {
    var t := Next(s, Crash).value;
    forall e: DeliveryId
      ensures DeliveryOk(t.w, e, Of(t, e))
    {
      PcEnds(s.w, e, Of(s, e), Of(t, e));
    }
  }

  lemma StepKeeps(s: State, step: Step)
    requires Inv(s)
    ensures LeadsWell(s, step)
  {
    match step
    case Start(d, start) =>
      StartKeeps(s.w, d, Of(s, d), start);
      if Next(s, step).Some? {
        PutKeeps(s, d, ActStart(Of(s, d), start).value, Next(s, step).value);
      }
    case Run(d, run) => RunStepKeeps(s, d, run);
    case Final(d, final) =>
      FinalKeeps(s.w, d, Of(s, d), final);
      if Next(s, step).Some? {
        PutKeeps(s, d, ActFinal(s.w, Of(s, d), final).value, Next(s, step).value);
      }
    case Around(d, around) =>
      AroundKeeps(s.w, d, Of(s, d), around);
      if Next(s, step).Some? {
        PutKeeps(s, d, ActAround(Of(s, d), around).value, Next(s, step).value);
      }
    case Processes(world) => WorldStepKeeps(s, world);
    case Crash => CrashKeeps(s);
  }

  /** Every state that any run of steps reaches is sound. */
  lemma {:induction false} EveryRunIsSound(steps: seq<Step>)
    ensures After(steps).Some? ==> Inv(After(steps).value)
  {
    if steps == [] {
      forall d: DeliveryId
        ensures DeliveryOk(INITIAL.w, d, Of(INITIAL, d))
      {
        assert Explains(INITIAL.w, d, NEW_DELIVERY, PastOf([]));
      }
    } else {
      var before, step := steps[..|steps| - 1], steps[|steps| - 1];
      EveryRunIsSound(before);
      if After(before).Some? {
        StepKeeps(After(before).value, step);
      }
    }
  }
}
