/** What the Consumer's journal says about a delivery: records, and their fold into a ledger. */
module Ledgers {
  import opened Wrappers

  type DeliveryId = string
  type AttemptRef = nat
  type Pid = nat

  /** A process is born once; its identity is never used again, unlike its PID. No decision reads it. */
  type Birth = nat

  datatype HandleKind = ProcessGroup | AgentServer

  /** What an announcement says of an executor: its kind, its root and the group of its root. */
  datatype Handle = Handle(kind: HandleKind, pid: Pid, pgid: Pid)

  /** A process as it was recorded. `birth` says which process it was; only proofs look at it. */
  datatype Identity = Identity(pid: Pid, command: string, birth: Birth)

  /** How an adapter saw its executor end: was the table read, did that read cover a live server, what was seen. */
  datatype StopReport = StopReport(observed: bool, covered: bool, seen: seq<Identity>)

  /** The EXECUTOR_ENDED record. */
  datatype EndReport = EndReport(stopped: bool, report: Option<StopReport>)

  datatype AdvisoryPhase = Denied | Hold | Blocked | Waiting | LeftOpen

  datatype Entry =
    | Intent
    | IntentCleared
    | Started(attempt: AttemptRef)
    | ExecutorStarted(attempt: AttemptRef, handle: Handle)
    | ExecutorEnded(attempt: AttemptRef, end: EndReport)
    | Reconciled(attempt: AttemptRef)
    | Submitted(attempt: AttemptRef)
    | Ended(attempt: AttemptRef)
    | Advisory(phase: AdvisoryPhase, code: string)
    | Remark                                             // any other phase

  /** One line of the journal. A record of no delivery concerns the Consumer itself. */
  datatype Record = Record(delivery: Option<DeliveryId>, entry: Entry)

  datatype Ledger = Ledger(
    intent: bool, live: Option<AttemptRef>, handle: Option<Handle>, advisory: Option<(AdvisoryPhase, string)>,
    ended: Option<EndReport>, reconciled: bool)

  const EMPTY_LEDGER := Ledger(false, None, None, None, None, false)

  /** What one record changes in the ledger of its delivery. */
  function ApplyEntry(l: Ledger, e: Entry): Ledger {
    match e
    case Intent => l.(intent := true)
    case IntentCleared => l.(intent := false)
    case Started(r) => l.(live := Some(r), intent := false, handle := None, ended := None, reconciled := false)
    case ExecutorStarted(r, h) => if l.live == Some(r) then l.(handle := Some(h)) else l
    case ExecutorEnded(r, end) => if l.live == Some(r) then l.(ended := Some(end)) else l
    case Reconciled(r) => if l.live == Some(r) then l.(reconciled := true) else l
    case Submitted(_) => l.(live := None, handle := None, intent := false, ended := None, reconciled := false)
    case Ended(_) => l.(live := None, handle := None, intent := false, ended := None, reconciled := false)
    case Advisory(phase, code) => l.(advisory := Some((phase, code)))
    case Remark => l
  }

  function LedgerOf(entries: seq<Entry>): Ledger {
    if entries == [] then EMPTY_LEDGER
    else ApplyEntry(LedgerOf(entries[..|entries| - 1]), entries[|entries| - 1])
  }

  /** The entries of one delivery, in journal order. */
  function EntriesOf(records: seq<Record>, d: DeliveryId): seq<Entry> {
    if records == [] then []
    else
      var before, last := EntriesOf(records[..|records| - 1], d), records[|records| - 1];
      if last.delivery == Some(d) then before + [last.entry] else before
  }

  /** All ledgers, record by record: deliveries that were never mentioned have no ledger of their own. */
  function ApplyRecord(ledgers: map<DeliveryId, Ledger>, r: Record): map<DeliveryId, Ledger> {
    match r.delivery
    case None => ledgers
    case Some(d) => ledgers[d := ApplyEntry(LedgerIn(ledgers, d), r.entry)]
  }

  function LedgerIn(ledgers: map<DeliveryId, Ledger>, d: DeliveryId): Ledger {
    if d in ledgers then ledgers[d] else EMPTY_LEDGER
  }

  function ApplyAll(ledgers: map<DeliveryId, Ledger>, records: seq<Record>): map<DeliveryId, Ledger> {
    if records == [] then ledgers
    else ApplyRecord(ApplyAll(ledgers, records[..|records| - 1]), records[|records| - 1])
  }

  /** The ledger of a delivery depends on the records of that delivery only, in their order. */
  lemma {:induction false} LedgersAreIndependent(records: seq<Record>, d: DeliveryId)
    ensures LedgerIn(ApplyAll(map[], records), d) == LedgerOf(EntriesOf(records, d))
  {
    if records != [] {
      var init, last := records[..|records| - 1], records[|records| - 1];
      LedgersAreIndependent(init, d);
      if last.delivery == Some(d) {
        assert EntriesOf(records, d)[..|EntriesOf(init, d)|] == EntriesOf(init, d);
      }
    }
  }

  lemma LedgerAppend(entries: seq<Entry>, e: Entry)
    ensures LedgerOf(entries + [e]) == ApplyEntry(LedgerOf(entries), e)
  {
    assert (entries + [e])[..|entries|] == entries;
  }

  // ---- what each field of a ledger says -------------------------------------------------------------------

  /** The advisory at `k` is the last one. */
  ghost predicate LastAdvisory(entries: seq<Entry>, k: nat, phase: AdvisoryPhase, code: string) {
    && k < |entries| && entries[k] == Advisory(phase, code)
    && forall m :: k < m < |entries| ==> !entries[m].Advisory?
  }

  lemma {:induction false} AdvisoryIsLast(entries: seq<Entry>, phase: AdvisoryPhase, code: string)
    ensures LedgerOf(entries).advisory == Some((phase, code)) <==> exists k :: LastAdvisory(entries, k, phase, code)
  {
    if entries != [] {
      var init, last := entries[..|entries| - 1], entries[|entries| - 1];
      AdvisoryIsLast(init, phase, code);
      if last.Advisory? {
        assert last == Advisory(phase, code) ==> LastAdvisory(entries, |init|, phase, code);
        forall k | LastAdvisory(entries, k, phase, code)
          ensures k == |init|
        {
        }
      } else {
        forall k: nat
          ensures LastAdvisory(entries, k, phase, code) <==> LastAdvisory(init, k, phase, code)
        {
          assert entries == init + [last];
        }
      }
    }
  }

  /** A record after which another attempt is live, or none. */
  predicate Turns(e: Entry) {
    e.Started? || e.Submitted? || e.Ended?
  }

  /** The attempt was started at `k`, and nothing since has ended it or started another. */
  ghost predicate LiveSince(entries: seq<Entry>, k: nat, r: AttemptRef) {
    && k < |entries| && entries[k] == Started(r)
    && forall m :: k < m < |entries| ==> !Turns(entries[m])
  }

  lemma {:induction false} LiveIsSince(entries: seq<Entry>, r: AttemptRef)
    ensures LedgerOf(entries).live == Some(r) <==> exists k :: LiveSince(entries, k, r)
  {
    if entries != [] {
      var init, last := entries[..|entries| - 1], entries[|entries| - 1];
      LiveIsSince(init, r);
      if Turns(last) {
        assert last == Started(r) ==> LiveSince(entries, |init|, r);
        forall k | LiveSince(entries, k, r)
          ensures k == |init|
        {
        }
      } else {
        LiveOn(init, last, r);
        assert entries == init + [last];
      }
    }
  }

  lemma LiveOn(init: seq<Entry>, last: Entry, r: AttemptRef)
    requires !Turns(last)
    ensures forall k: nat :: LiveSince(init + [last], k, r) <==> LiveSince(init, k, r)
  {
    forall k: nat
      ensures LiveSince(init + [last], k, r) <==> LiveSince(init, k, r)
    {
      assert forall m :: 0 <= m < |init| ==> (init + [last])[m] == init[m];
    }
  }

  /** What a record says of the executor of its attempt. */
  datatype Fact = Announcement(handle: Handle) | Ending(end: EndReport) | Lifting

  predicate Reports(e: Entry, r: AttemptRef, fact: Fact) {
    match fact
    case Announcement(h) => e == ExecutorStarted(r, h)
    case Ending(end) => e == ExecutorEnded(r, end)
    case Lifting => e == Reconciled(r)
  }

  predicate Concerns(e: Entry, r: AttemptRef, fact: Fact) {
    match fact
    case Announcement(_) => e.ExecutorStarted? && e.attempt == r
    case Ending(_) => e.ExecutorEnded? && e.attempt == r
    case Lifting => e == Reconciled(r)
  }

  predicate InLedger(l: Ledger, fact: Fact) {
    match fact
    case Announcement(h) => l.handle == Some(h)
    case Ending(end) => l.ended == Some(end)
    case Lifting => l.reconciled
  }

  /** The record at `m` is the last of its kind about the attempt that is live since `k`. */
  ghost predicate ToldSince(entries: seq<Entry>, k: nat, m: nat, r: AttemptRef, fact: Fact) {
    && LiveSince(entries, k, r) && k < m < |entries| && Reports(entries[m], r, fact)
    && forall n :: m < n < |entries| ==> !Concerns(entries[n], r, fact)
  }

  lemma ToldOn(init: seq<Entry>, last: Entry, r: AttemptRef, fact: Fact)
    requires !Turns(last) && !Concerns(last, r, fact)
    ensures forall k: nat, m: nat :: ToldSince(init + [last], k, m, r, fact) <==> ToldSince(init, k, m, r, fact)
  {
    LiveOn(init, last, r);
    forall k: nat, m: nat
      ensures ToldSince(init + [last], k, m, r, fact) <==> ToldSince(init, k, m, r, fact)
    {
      assert forall n :: 0 <= n < |init| ==> (init + [last])[n] == init[n];
    }
  }

  lemma ToldNow(init: seq<Entry>, last: Entry, r: AttemptRef, fact: Fact)
    requires Concerns(last, r, fact)
    ensures (exists k, m :: ToldSince(init + [last], k, m, r, fact)) <==> Reports(last, r, fact) && exists k :: LiveSince(init, k, r)
  {
    LiveOn(init, last, r);
    if Reports(last, r, fact) && exists k :: LiveSince(init, k, r) {
      var k :| LiveSince(init, k, r);
      assert ToldSince(init + [last], k, |init|, r, fact);
    }
    forall k, m | ToldSince(init + [last], k, m, r, fact)
      ensures m == |init| && LiveSince(init, k, r)
    {
      assert (init + [last])[|init|] == last;
    }
  }

  lemma NothingToldYet(init: seq<Entry>, last: Entry, r: AttemptRef, fact: Fact)
    requires Turns(last)
    ensures !exists k, m :: ToldSince(init + [last], k, m, r, fact)
  {
    assert (init + [last])[|init|] == last;
  }

  /**
    The handle, the end and the reconciliation in a ledger are those that the last record of its kind tells about the
    live attempt since it was started, whatever else stands in the journal.
  */
  lemma {:induction false} LedgerTells(entries: seq<Entry>, r: AttemptRef, fact: Fact)
    ensures LedgerOf(entries).live == Some(r) && InLedger(LedgerOf(entries), fact) <==> exists k, m :: ToldSince(entries, k, m, r, fact)
  {
    if entries != [] {
      var init, last := entries[..|entries| - 1], entries[|entries| - 1];
      assert entries == init + [last];
      LedgerTells(init, r, fact);
      LiveIsSince(init, r);
      if Turns(last) {
        NothingToldYet(init, last, r, fact);
      } else if Concerns(last, r, fact) {
        ToldNow(init, last, r, fact);
      } else {
        ToldOn(init, last, r, fact);
      }
    }
  }
}
