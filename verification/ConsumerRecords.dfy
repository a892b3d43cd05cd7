/** How the Consumer keeps its journal short: over any run no advisory is repeated and no stop is reconciled twice. */
module ConsumerRecords {
  import opened Wrappers
  import opened Ledgers
  import opened ConsumerProtocol
  import opened ConsumerSafety
  import opened ConsumerGuarantees
  import opened ConsumerStarts

  /** What a handler has read of its journal, where it still holds it. */
  function Held(pc: Pc): Option<Ledger> {
    match pc
    case StartView(l) => Some(l)
    case Admitted(l, _) => Some(l)
    case IntentWritten(l, _) => Some(l)
    case Clearing(l, _) => Some(l)
    case FinalRead(l) => Some(l)
    case GroupCheck(l, _) => Some(l)
    case StopCheck(l, _, _) => Some(l)
    case StopGroup(l, _, _, _) => Some(l)
    case GoneSeen(l, _, _) => Some(l)
    case Deciding(l, _, _) => Some(l)
    case Submitting(l, _, _) => Some(l)
    case Telling(l, _, _, _) => Some(l)
    case Told(l, _) => Some(l)
    case AdoptView(l) => Some(l)
    case AdoptClearing(l) => Some(l)
    case Adopting(l, _) => Some(l)
    case Noting(l, _, _) => Some(l)
    case _ => None
  }

  function HeldBy(x: Delivery): Option<Ledger> {
    if x.handler.None? then None else Held(x.handler.value)
  }

  /** A place before the reconciliation would be written. */
  predicate BeforeGone(pc: Pc) {
    pc.FinalRead? || pc.GroupCheck? || pc.StopCheck? || pc.StopGroup? || pc.GoneSeen?
  }

  /** A handler goes on with what it holds, reads the journal again, or holds nothing. */
  predicate Passes(y: Delivery, z: Delivery) {
    && (HeldBy(z).Some? ==> HeldBy(z) == HeldBy(y) || HeldBy(z) == Some(LedgerOf(z.entries)))
    && (z.handler.Some? && BeforeGone(z.handler.value) && HeldBy(z) != Some(LedgerOf(z.entries)) ==>
          y.handler.Some? && BeforeGone(y.handler.value) && HeldBy(z) == HeldBy(y))
    && (z.handler.Some? && z.handler.value.GoneSeen? ==> !z.handler.value.l.reconciled || z.handler == y.handler)
  }

  /** The entry that a handler writes, and where it must stand to write it. */
  predicate Writes(y: Delivery, e: Entry, z: Delivery) {
    && (e.Advisory? ==> HeldBy(y).Some? && HeldBy(y).value.advisory != Some((e.phase, e.code)) && z.handler.None?)
    && (e.Reconciled? ==> y.handler.Some? && y.handler.value.GoneSeen? && y.handler.value.l.live == Some(e.attempt)
                          && z.handler.Some? && z.handler.value.Deciding?)
    && (e.Started? ==> y.handler.Some? && (y.handler.value.Begun? || y.handler.value.Adopting?))
    && (z.handler.Some? && BeforeGone(z.handler.value) ==> e.Remark? || HeldBy(z) == Some(LedgerOf(z.entries)))
  }

  predicate Adds(y: Delivery, more: seq<Entry>, z: Delivery) {
    |more| <= 1 && Passes(y, z) && (more != [] ==> Writes(y, more[0], z))
  }

  /** A step writes one entry or none. */
  ghost predicate Shapes(y: Delivery, z: Delivery) {
    exists more :: z.entries == y.entries + more && Adds(y, more, z)
  }

  lemma AddsNothing(y: Delivery, z: Delivery)
    requires Passes(y, z) && z.entries == y.entries
    ensures Shapes(y, z)
  {
    assert z.entries == y.entries + [] && Adds(y, [], z);
  }

  lemma AddsOne(y: Delivery, e: Entry, z: Delivery)
    requires Passes(y, z) && Writes(y, e, z) && z.entries == y.entries + [e]
    ensures Shapes(y, z)
  {
    assert Adds(y, [e], z);
  }

  predicate StartWrites(step: StartStep) {
    step.WriteIntent? || step.WriteCleared? || step.WriteStarted? || step.WriteNoAttempt? || step.WriteAdopted?
  }

  lemma StartShapes(y: Delivery, step: StartStep, z: Delivery)
    requires ActStart(y, step) == Some(z)
    ensures Shapes(y, z)
  {
    if StartWrites(step) {
      StartWritesShape(y, step, z);
    } else {
      StartReadsShape(y, step, z);
      AddsNothing(y, z);
    }
  }

  lemma StartReadsShape(y: Delivery, step: StartStep, z: Delivery)
    requires !StartWrites(step) && ActStart(y, step) == Some(z)
    ensures Passes(y, z) && z.entries == y.entries
  {
    if step.ReadLedger? {
      ReadingPasses(y, z);
    } else if step.LookAtUam? {
      LookingPasses(y, z);
    }
  }

  lemma ReadingPasses(y: Delivery, z: Delivery)
    requires ActStart(y, ReadLedger) == Some(z)
    ensures Passes(y, z) && z.entries == y.entries
  {
    ReadsAs(y, LedgerOf(y.entries), z);
  }

  lemma LookingPasses(y: Delivery, z: Delivery)
    requires ActStart(y, LookAtUam) == Some(z)
    ensures Passes(y, z) && z.entries == y.entries
  {
  }

  lemma StartWritesShape(y: Delivery, step: StartStep, z: Delivery)
    requires StartWrites(step) && ActStart(y, step) == Some(z)
    ensures Shapes(y, z)
  {
    var pc := y.handler.value;
    var e := match step
             case WriteIntent => Intent
             case WriteStarted => Started(pc.attempt)
             case WriteAdopted => Started(pc.attempt)
             case _ => IntentCleared;
    AddsOne(y, e, z);
  }

  predicate RunWrites(step: RunStep) {
    step.Announce? || step.AnnounceAgain? || step.WriteEnded?
  }

  lemma RunShapes(w: World, d: DeliveryId, y: Delivery, step: RunStep, v: World, z: Delivery)
    requires ActRun(w, d, y, step) == Some((v, z))
    ensures Shapes(y, z)
  {
    if RunWrites(step) {
      RunWritesShape(w, d, y, step, v, z);
    } else {
      RunActsShape(w, d, y, step, v, z);
      AddsNothing(y, z);
    }
  }

  lemma RunWritesShape(w: World, d: DeliveryId, y: Delivery, step: RunStep, v: World, z: Delivery)
    requires RunWrites(step) && ActRun(w, d, y, step) == Some((v, z))
    ensures Shapes(y, z)
  {
    var pc := y.handler.value;
    var e := if step.WriteEnded? then ExecutorEnded(pc.attempt, pc.end) else ExecutorStarted(pc.attempt, HandleOf(pc.kind, pc.pid));
    AddsOne(y, e, z);
  }

  lemma RunActsShape(w: World, d: DeliveryId, y: Delivery, step: RunStep, v: World, z: Delivery)
    requires !RunWrites(step) && ActRun(w, d, y, step) == Some((v, z))
    ensures Passes(y, z) && z.entries == y.entries
  {
  }

  predicate FinalWrites(step: FinalStep) {
    step.WriteReconciled? || step.WriteSettled? || step.Note? || step.WriteRemark?
  }

  lemma FinalShapes(w: World, y: Delivery, step: FinalStep, z: Delivery)
    requires ActFinal(w, y, step) == Some(z)
    ensures Shapes(y, z)
  {
    if FinalWrites(step) {
      FinalWritesShape(w, y, step, z);
    } else if step.DecideStop? || step.Decide? {
      DecisionShape(w, y, step, z);
      AddsNothing(y, z);
    } else {
      FinalReadsShape(w, y, step, z);
      AddsNothing(y, z);
    }
  }

  lemma DecisionShape(w: World, y: Delivery, step: FinalStep, z: Delivery)
    requires (step.DecideStop? || step.Decide?) && ActFinal(w, y, step) == Some(z)
    ensures Passes(y, z) && z.entries == y.entries
  {
  }

  lemma FinalReadsShape(w: World, y: Delivery, step: FinalStep, z: Delivery)
    requires !FinalWrites(step) && !step.DecideStop? && !step.Decide? && ActFinal(w, y, step) == Some(z)
    ensures Passes(y, z) && z.entries == y.entries
  {
    if step.Tell? || step.SubmitBlocked? || step.SubmitFails? || step.SubmitNow? {
      TellingPasses(w, y, step, z);
    }
  }

  lemma TellingPasses(w: World, y: Delivery, step: FinalStep, z: Delivery)
    requires step.Tell? || step.SubmitBlocked? || step.SubmitFails? || step.SubmitNow?
    requires ActFinal(w, y, step) == Some(z)
    ensures Passes(y, z) && z.entries == y.entries
  {
    if (step.Tell? && !step.accepted) || step.SubmitBlocked? {
      RefusalPasses(w, y, step, z);
    }
  }

  lemma RefusalPasses(w: World, y: Delivery, step: FinalStep, z: Delivery)
    requires ((step.Tell? && !step.accepted) || step.SubmitBlocked?) && ActFinal(w, y, step) == Some(z)
    ensures Passes(y, z) && z.entries == y.entries
  {
    assert z.handler.Some? && z.handler.value.Noting? && HeldBy(z) == Some(LedgerOf(y.entries));
  }

  lemma FinalWritesShape(w: World, y: Delivery, step: FinalStep, z: Delivery)
    requires FinalWrites(step) && ActFinal(w, y, step) == Some(z)
    ensures Shapes(y, z)
  {
    var pc := y.handler.value;
    if z.entries != y.entries {
      var e := match step
               case WriteReconciled => Reconciled(pc.l.live.value)
               case WriteSettled => if pc.action == SubmitResult then Submitted(pc.l.live.value) else Ended(pc.l.live.value)
               case Note => Advisory(pc.phase, pc.code)
               case _ => Remark;
      AddsOne(y, e, z);
    } else {
      AddsNothing(y, z);
    }
  }

  lemma RestsShape(y: Delivery, z: Delivery)
    requires z.entries == y.entries && (z.handler == y.handler || z.handler.None?)
    ensures Shapes(y, z)
  {
    AddsNothing(y, z);
  }

  lemma AroundRests(y: Delivery, step: AroundStep, z: Delivery)
    requires ActAround(y, step) == Some(z)
    ensures z.entries == y.entries && z.handler == y.handler
  {
  }

  lemma StepShapes(s: State, step: Step, t: State, d: DeliveryId)
    requires Next(s, step) == Some(t)
    ensures Shapes(Of(s, d), Of(t, d))
  {
    var y, z := Of(s, d), Of(t, d);
    if step.Start? && step.d == d {
      StartShapes(y, step.start, z);
    } else if step.Run? && step.d == d {
      RunShapes(s.w, d, y, step.run, t.w, z);
    } else if step.Final? && step.d == d {
      FinalShapes(s.w, y, step.final, z);
    } else {
      if step.Around? && step.d == d {
        AroundRests(y, step.around, z);
      }
      RestsShape(y, z);
    }
  }

  // ---- no advisory is repeated ----------------------------------------------------------------------------------

  /** Two equal advisories with none between them. */
  predicate RepeatsAt(entries: seq<Entry>, i: nat, j: nat) {
    && i < j < |entries| && entries[i].Advisory? && entries[j] == entries[i]
    && forall m :: i < m < j ==> !entries[m].Advisory?
  }

  ghost predicate NoRepeats(entries: seq<Entry>) {
    forall i, j :: 0 <= i < j < |entries| ==> !RepeatsAt(entries, i, j)
  }

  lemma AppendRepeatsNot(entries: seq<Entry>, e: Entry)
    requires NoRepeats(entries) && (e.Advisory? ==> LedgerOf(entries).advisory != Some((e.phase, e.code)))
    ensures NoRepeats(entries + [e])
  {
    var all := entries + [e];
    forall i, j | 0 <= i < j < |all|
      ensures !RepeatsAt(all, i, j)
    {
      if RepeatsAt(all, i, j) {
        assert forall m :: 0 <= m < |entries| ==> all[m] == entries[m];
        if j < |entries| {
          assert RepeatsAt(entries, i, j);
        } else {
          assert LastAdvisory(entries, i, e.phase, e.code);
          AdvisoryIsLast(entries, e.phase, e.code);
        }
      }
    }
  }

  /** What a handler holds names the last advisory of the journal. */
  predicate HoldsLast(x: Delivery) {
    HeldBy(x).Some? ==> HeldBy(x).value.advisory == LedgerOf(x.entries).advisory
  }

  lemma StepRepeatsNot(y: Delivery, z: Delivery)
    requires Shapes(y, z) && NoRepeats(y.entries) && HoldsLast(y)
    ensures NoRepeats(z.entries) && HoldsLast(z)
  {
    var more :| z.entries == y.entries + more && Adds(y, more, z);
    if more == [] {
      assert z.entries == y.entries;
    } else {
      AppendRepeatsNot(y.entries, more[0]);
      LedgerAppend(y.entries, more[0]);
      assert more == [more[0]];
    }
  }

  lemma {:induction false} RunRepeatsNot(steps: seq<Step>, s: State, d: DeliveryId)
    requires Reached(steps, s)
    ensures NoRepeats(Of(s, d).entries) && HoldsLast(Of(s, d))
    decreases |steps|
  {
    if steps != [] {
      var before, step := steps[..|steps| - 1], steps[|steps| - 1];
      var b := After(before).value;
      RunRepeatsNot(before, b, d);
      StepShapes(b, step, s, d);
      StepRepeatsNot(Of(b, d), Of(s, d));
    }
  }

  /** However often a delivery is polled, the journal never says the same twice in succession about why it waits. */
  lemma NoAdvisoryTwice(steps: seq<Step>, s: State, d: DeliveryId, i: nat, j: nat)
    requires Reached(steps, s) && i < j < |Of(s, d).entries|
    requires Of(s, d).entries[i].Advisory? && forall m :: i < m < j ==> !Of(s, d).entries[m].Advisory?
    ensures Of(s, d).entries[j] != Of(s, d).entries[i]
  {
    RunRepeatsNot(steps, s, d);
    assert !RepeatsAt(Of(s, d).entries, i, j);
  }

  // ---- no stop is reconciled twice --------------------------------------------------------------------------------

  predicate LiftedAt(entries: seq<Entry>, k: nat) {
    k < |entries| && entries[k].Reconciled?
  }

  ghost predicate Lifted(entries: seq<Entry>) {
    exists k :: LiftedAt(entries, k)
  }

  ghost predicate LiftedOnce(entries: seq<Entry>) {
    forall i, j :: LiftedAt(entries, i) && LiftedAt(entries, j) ==> i == j
  }

  /** A stop that was reconciled is so in the ledger, until the attempt is closed. */
  ghost predicate LiftedIsHeld(x: Delivery) {
    LiftedIn(x.entries, LedgerOf(x.entries), PastOf(x.entries)) && HoldsLifted(x, LedgerOf(x.entries))
  }

  ghost predicate LiftedIn(entries: seq<Entry>, l: Ledger, p: Past) {
    LiftedOnce(entries) && (Lifted(entries) ==> l.reconciled || p.closed) && (l.reconciled ==> l.live.Some?)
  }

  predicate HoldsLifted(x: Delivery, l: Ledger) {
    x.handler.Some? && BeforeGone(x.handler.value) ==>
      x.handler.value.l.reconciled == l.reconciled && (x.handler.value.GoneSeen? ==> !l.reconciled)
  }

  lemma AppendLifts(entries: seq<Entry>, e: Entry)
    ensures Lifted(entries + [e]) <==> Lifted(entries) || e.Reconciled?
    ensures LiftedOnce(entries) && !(Lifted(entries) && e.Reconciled?) ==> LiftedOnce(entries + [e])
  {
    var all := entries + [e];
    assert forall m :: 0 <= m < |entries| ==> all[m] == entries[m];
    assert all[|entries|] == e;
    forall k: nat
      ensures LiftedAt(all, k) <==> LiftedAt(entries, k) || (k == |entries| && e.Reconciled?)
    {
    }
    assert LiftedAt(all, |entries|) <==> e.Reconciled?;
  }

  /** When an entry is written: a start before any other, a reconciliation of the live attempt and not again. */
  predicate InTime(l: Ledger, p: Past, e: Entry) {
    && (e.Started? ==> p.started.None?)
    && (e.Reconciled? ==> !p.closed && !l.reconciled && l.live == Some(e.attempt))
  }

  lemma StandsInTime(w: World, d: DeliveryId, y: Delivery, p: Past, e: Entry, z: Delivery)
    requires Explains(w, d, y, p) && LiftedIsHeld(y) && Writes(y, e, z)
    ensures InTime(LedgerOf(y.entries), p, e)
  {
  }

  lemma AppendIsHeld(entries: seq<Entry>, l: Ledger, p: Past, e: Entry)
    requires l == LedgerOf(entries) && p == PastOf(entries) && LedgerIsPast(l, p) && InTime(l, p, e)
    requires LiftedIn(entries, l, p)
    ensures LiftedIn(entries + [e], ApplyEntry(l, e), ApplyPast(p, e))
  {
    AppendLifts(entries, e);
  }

  lemma Appended(entries: seq<Entry>, e: Entry)
    ensures LedgerOf(entries + [e]) == ApplyEntry(LedgerOf(entries), e)
    ensures PastOf(entries + [e]) == ApplyPast(PastOf(entries), e)
  {
    LedgerAppend(entries, e);
    assert (entries + [e])[..|entries|] == entries;
  }

  lemma PassesLifted(y: Delivery, z: Delivery, l: Ledger)
    requires Passes(y, z) && HoldsLifted(y, l) && l == LedgerOf(z.entries)
    ensures HoldsLifted(z, l)
  {
  }

  lemma WritesLifted(y: Delivery, e: Entry, z: Delivery, l: Ledger)
    requires Passes(y, z) && Writes(y, e, z) && HoldsLifted(y, l) && LedgerOf(z.entries) == ApplyEntry(l, e)
    ensures HoldsLifted(z, LedgerOf(z.entries))
  {
  }

  lemma StepLifts(w: World, d: DeliveryId, y: Delivery, z: Delivery)
    requires Shapes(y, z) && DeliveryOk(w, d, y) && LiftedIsHeld(y)
    ensures LiftedIsHeld(z)
  {
    var more :| z.entries == y.entries + more && Adds(y, more, z);
    if more == [] {
      assert z.entries == y.entries;
      PassesLifted(y, z, LedgerOf(y.entries));
    } else {
      var e := more[0];
      assert more == [e];
      var p :| Explains(w, d, y, p);
      StandsInTime(w, d, y, p, e, z);
      AppendIsHeld(y.entries, LedgerOf(y.entries), p, e);
      Appended(y.entries, e);
      WritesLifted(y, e, z, LedgerOf(y.entries));
    }
  }

  lemma {:induction false} RunLifts(steps: seq<Step>, s: State, d: DeliveryId)
    requires Reached(steps, s)
    ensures LiftedIsHeld(Of(s, d))
    decreases |steps|
  {
    if steps != [] {
      var before, step := steps[..|steps| - 1], steps[|steps| - 1];
      var b := After(before).value;
      RunLifts(before, b, d);
      Sound(before, b, d);
      StepShapes(b, step, s, d);
      StepLifts(b.w, d, Of(b, d), Of(s, d));
    }
  }

  /** A stop is reconciled in at most one record, over any number of lives. */
  lemma ReconciledOnce(steps: seq<Step>, s: State, d: DeliveryId, i: nat, j: nat)
    requires Reached(steps, s) && LiftedAt(Of(s, d).entries, i) && LiftedAt(Of(s, d).entries, j)
    ensures i == j
  {
    RunLifts(steps, s, d);
  }
}
