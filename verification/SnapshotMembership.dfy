/** Where each entry of an unstaged diff belongs, said from the listing and the worktree alone, stage by stage. */
module SnapshotMembership {
  import opened Wrappers
  import opened IndexListings
  import DescriptorWalks
  import opened SnapshotDiffs

  predicate Reports(log: seq<Omission>, reason: Reason, path: Path) {
    exists k :: 0 <= k < |log| && log[k] == Omission(reason, path)
  }

  lemma ReportsOneMore(log: seq<Omission>, o: Omission, reason: Reason, path: Path)
    ensures Reports(log + [o], reason, path) <==> Reports(log, reason, path) || o == Omission(reason, path)
  {
    var all := log + [o];
    assert all[|log|] == o && forall k :: 0 <= k < |log| ==> all[k] == log[k];
  }

  lemma ReportsJoined(a: seq<Omission>, b: seq<Omission>, reason: Reason, path: Path)
    ensures Reports(a + b, reason, path) <==> Reports(a, reason, path) || Reports(b, reason, path)
  {
    var all := a + b;
    assert forall k :: 0 <= k < |a| ==> all[k] == a[k];
    assert forall k :: 0 <= k < |b| ==> all[|a| + k] == b[k];
    if Reports(all, reason, path) {
      var k :| 0 <= k < |all| && all[k] == Omission(reason, path);
      assert if k < |a| then a[k] == all[k] else b[k - |a|] == all[k];
    }
  }

  lemma InOneMore<T>(xs: seq<T>, x: T, y: T)
    ensures y in xs + [x] <==> y in xs || y == x
  {
  }

  // ---- what is compared at all --------------------------------------------------------------------------------------

  /** Git compares the entry: no entry of its path is unmerged, it is no submodule, and neither flag is set. */
  predicate Compared(entries: seq<IndexEntry>, e: IndexEntry) {
    && e.stage == 0 && e.mode != 0xE000
    && (forall k :: 0 <= k < |entries| && entries[k].path == e.path ==> entries[k].stage == 0)
    && e.flags % 0x1_0000 < 0x8000 && e.flags % 0x8000_0000 < 0x4000_0000
  }

  lemma LowFlag(flags: nat)
    ensures flags / 0x8000 % 2 == 1 <==> flags % 0x1_0000 >= 0x8000
  {
    var q, r := flags / 0x1_0000, flags % 0x1_0000;
    assert flags / 0x8000 == 2 * q + r / 0x8000;
  }

  lemma HighFlag(flags: nat)
    ensures flags / 0x4000_0000 % 2 == 1 <==> flags % 0x8000_0000 >= 0x4000_0000
  {
    var q, r := flags / 0x8000_0000, flags % 0x8000_0000;
    assert flags / 0x4000_0000 == 2 * q + r / 0x4000_0000;
  }

  lemma EligibleIsCompared(entries: seq<IndexEntry>, e: IndexEntry)
    requires e in entries
    ensures Eligible(e, UnmergedOf(entries)) <==> Compared(entries, e)
  {
    LowFlag(e.flags);
    HighFlag(e.flags);
  }

  // ---- 1. admission -----------------------------------------------------------------------------------------------

  /** The first of these that holds of an entry is why it is left out before anything is looked at. */
  predicate RefusedFor1(rules: Rules, e: IndexEntry, reason: Reason) {
    var parts := DescriptorWalks.SplitSlash(e.path);
    var denied := AnyPart(parts, rules.denied);
    match reason
    case RefusedName => denied
    case UnsafePath => !denied && Unsafe(rules, parts)
    case ScopeDenied => !denied && !Unsafe(rules, parts) && !rules.allows(parts)
    case UnsupportedEntry =>
      !denied && !Unsafe(rules, parts) && rules.allows(parts) && e.mode !in {MODE_FILE, MODE_EXECUTABLE, MODE_LINK}
    case _ => false
  }

  lemma RefusalMeans(rules: Rules, e: IndexEntry, reason: Reason)
    ensures Refusal(rules, e) == Some(reason) <==> RefusedFor1(rules, e, reason)
  {
  }

  lemma RefusalHasReason(rules: Rules, e: IndexEntry)
    ensures Refusal(rules, e).Some? <==> exists reason :: RefusedFor1(rules, e, reason)
  {
    if Refusal(rules, e).Some? {
      RefusalMeans(rules, e, Refusal(rules, e).value);
    }
    forall reason | RefusedFor1(rules, e, reason)
      ensures Refusal(rules, e).Some?
    {
      RefusalMeans(rules, e, reason);
    }
  }

  ghost predicate RefusedAt(rules: Rules, unmerged: set<Path>, entries: seq<IndexEntry>, reason: Reason, path: Path, k: int) {
    0 <= k < |entries| && Eligible(entries[k], unmerged) && RefusedFor1(rules, entries[k], reason) && entries[k].path == path
  }

  ghost predicate AdmittedAt(rules: Rules, unmerged: set<Path>, entries: seq<IndexEntry>, c: Candidate, k: int) {
    && 0 <= k < |entries| && Eligible(entries[k], unmerged) && c == CandidateOf(entries[k])
    && forall reason :: !RefusedFor1(rules, entries[k], reason)
  }

  lemma {:induction false} AdmittedExactly(rules: Rules, unmerged: set<Path>, entries: seq<IndexEntry>, c: Candidate)
    ensures c in Admitted(rules, unmerged, entries).kept <==> exists k :: AdmittedAt(rules, unmerged, entries, c, k)
  {
    if entries != [] {
      var init, e := entries[..|entries| - 1], entries[|entries| - 1];
      AdmittedExactly(rules, unmerged, init, c);
      RefusalHasReason(rules, e);
      InOneMore(Admitted(rules, unmerged, init).kept, CandidateOf(e), c);
      forall k | k < |init|
        ensures AdmittedAt(rules, unmerged, entries, c, k) <==> AdmittedAt(rules, unmerged, init, c, k)
      {
      }
      assert AdmittedAt(rules, unmerged, entries, c, |init|) <==>
          Eligible(e, unmerged) && Refusal(rules, e).None? && c == CandidateOf(e);
    }
  }

  lemma {:induction false} RefusedExactly(rules: Rules, unmerged: set<Path>, entries: seq<IndexEntry>, reason: Reason, path: Path)
    ensures Reports(Admitted(rules, unmerged, entries).log, reason, path)
       <==> exists k :: RefusedAt(rules, unmerged, entries, reason, path, k)
  {
    if entries != [] {
      var init, e := entries[..|entries| - 1], entries[|entries| - 1];
      var before := Admitted(rules, unmerged, init).log;
      RefusedExactly(rules, unmerged, init, reason, path);
      RefusalMeans(rules, e, reason);
      if Eligible(e, unmerged) && Refusal(rules, e).Some? {
        ReportsOneMore(before, Omission(Refusal(rules, e).value, e.path), reason, path);
      }
      forall k | k < |init|
        ensures RefusedAt(rules, unmerged, entries, reason, path, k) <==> RefusedAt(rules, unmerged, init, reason, path, k)
      {
      }
      assert RefusedAt(rules, unmerged, entries, reason, path, |init|) <==>
          Eligible(e, unmerged) && Refusal(rules, e) == Some(reason) && e.path == path;
    }
  }

  // ---- 2. what may have changed -------------------------------------------------------------------------------------

  /** The entry stands in the worktree as the index has it. */
  predicate StandsAsListed(world: World, c: Candidate, n: nat) {
    world.look(n).Found? && world.sameAsIndex(c.entry, world.look(n).info)
  }

  /** It has to be looked into: nothing stands in the way to it, and it is not as the index has it. */
  predicate Differs(world: World, c: Candidate, n: nat) {
    !world.look(n).Replaced? && !StandsAsListed(world, c, n)
  }

  /** How many of the candidates differ. */
  function Differing(world: World, cs: seq<Candidate>): nat {
    if cs == [] then 0
    else Differing(world, cs[..|cs| - 1]) + if Differs(world, cs[|cs| - 1], |cs| - 1) then 1 else 0
  }

  predicate SameAt(world: World, cs: seq<Candidate>, c: Candidate, n: int) {
    0 <= n < |cs| && cs[n] == c && StandsAsListed(world, c, n)
  }

  /** It differs, and so few before it do that there is room for it. */
  predicate SuspectedAt(world: World, budgets: Budgets, cs: seq<Candidate>, n: int) {
    0 <= n < |cs| && Differs(world, cs[n], n) && Differing(world, cs[..n]) < budgets.maxCandidates
  }

  /** Why it is not looked into, where so many before it differ. */
  predicate Unexamined(world: World, budgets: Budgets, c: Candidate, n: nat, before: nat, reason: Reason) {
    || (reason == PathReplaced && world.look(n).Replaced?)
    || (reason == OverBudget && Differs(world, c, n) && before >= budgets.maxCandidates)
  }

  predicate UnexaminedAt(world: World, budgets: Budgets, cs: seq<Candidate>, reason: Reason, path: Path, n: int) {
    0 <= n < |cs| && cs[n].entry.path == path && Unexamined(world, budgets, cs[n], n, Differing(world, cs[..n]), reason)
  }

  /** How many of the candidates are looked into. */
  function Suspected(world: World, budgets: Budgets, cs: seq<Candidate>): nat {
    if cs == [] then 0
    else Suspected(world, budgets, cs[..|cs| - 1]) + if SuspectedAt(world, budgets, cs, |cs| - 1) then 1 else 0
  }

  /** One look: which of the three lists it goes to. */
  lemma ExamineOneIs(world: World, budgets: Budgets, s: Examined, c: Candidate, n: nat)
    ensures var t, look := ExamineOne(world, budgets, s, c, world.look(n)), world.look(n);
            && t.same == (if StandsAsListed(world, c, n) then s.same + [c] else s.same)
            && t.suspects == (if Differs(world, c, n) && s.examined < budgets.maxCandidates
                              then s.suspects + [Suspect(c, InfoOf(look))] else s.suspects)
            && t.log == (if look.Replaced? then s.log + [Omission(PathReplaced, c.entry.path)]
                         else if Differs(world, c, n) && s.examined >= budgets.maxCandidates
                         then s.log + [Omission(OverBudget, c.entry.path)] else s.log)
            && t.examined == s.examined + if Differs(world, c, n) then 1 else 0
  {
  }

  lemma {:induction false} ExaminedIsDiffering(world: World, budgets: Budgets, cs: seq<Candidate>)
    ensures Examine(world, budgets, cs).examined == Differing(world, cs)
    ensures |Examine(world, budgets, cs).suspects| == Suspected(world, budgets, cs)
  {
    if cs != [] {
      var n := |cs| - 1;
      ExaminedIsDiffering(world, budgets, cs[..n]);
      ExamineOneIs(world, budgets, Examine(world, budgets, cs[..n]), cs[n], n);
    }
  }

  lemma {:induction false} SameExactly(world: World, budgets: Budgets, cs: seq<Candidate>, c: Candidate)
    ensures c in Examine(world, budgets, cs).same <==> exists n :: SameAt(world, cs, c, n)
  {
    if cs != [] {
      var n := |cs| - 1;
      var init := cs[..n];
      SameExactly(world, budgets, init, c);
      ExamineOneIs(world, budgets, Examine(world, budgets, init), cs[n], n);
      InOneMore(Examine(world, budgets, init).same, cs[n], c);
      forall k | k < n
        ensures SameAt(world, cs, c, k) <==> SameAt(world, init, c, k)
      {
      }
      assert SameAt(world, cs, c, n) <==> cs[n] == c && StandsAsListed(world, c, n);
    }
  }

  lemma UnexaminedStep(world: World, budgets: Budgets, s: Examined, c: Candidate, n: nat, reason: Reason, path: Path)
    ensures Reports(ExamineOne(world, budgets, s, c, world.look(n)).log, reason, path)
       <==> Reports(s.log, reason, path) || (c.entry.path == path && Unexamined(world, budgets, c, n, s.examined, reason))
  {
    ExamineOneIs(world, budgets, s, c, n);
    ReportsOneMore(s.log, Omission(PathReplaced, c.entry.path), reason, path);
    ReportsOneMore(s.log, Omission(OverBudget, c.entry.path), reason, path);
  }

  lemma PrefixOfPrefix<T>(xs: seq<T>, n: nat)
    requires n <= |xs|
    ensures forall k :: 0 <= k <= n ==> xs[..n][..k] == xs[..k]
  {
  }

  lemma {:induction false} UnexaminedExactly(world: World, budgets: Budgets, cs: seq<Candidate>, reason: Reason, path: Path)
    ensures Reports(Examine(world, budgets, cs).log, reason, path)
       <==> exists n :: UnexaminedAt(world, budgets, cs, reason, path, n)
  {
    if cs != [] {
      var n := |cs| - 1;
      var init := cs[..n];
      UnexaminedExactly(world, budgets, init, reason, path);
      ExaminedIsDiffering(world, budgets, init);
      UnexaminedStep(world, budgets, Examine(world, budgets, init), cs[n], n, reason, path);
      PrefixOfPrefix(cs, n);
      forall k | k < n
        ensures UnexaminedAt(world, budgets, cs, reason, path, k) <==> UnexaminedAt(world, budgets, init, reason, path, k)
      {
      }
      assert UnexaminedAt(world, budgets, cs, reason, path, n) <==>
          cs[n].entry.path == path && Unexamined(world, budgets, cs[n], n, Differing(world, init), reason);
    }
  }

  /** The last candidate is a suspect behind those before it, or no suspect. */
  lemma SuspectsGrow(world: World, budgets: Budgets, cs: seq<Candidate>, n: nat)
    requires |cs| == n + 1
    ensures var before, after := Examine(world, budgets, cs[..n]).suspects, Examine(world, budgets, cs).suspects;
            && |before| == Suspected(world, budgets, cs[..n])
            && after == before + if SuspectedAt(world, budgets, cs, n) then [Suspect(cs[n], InfoOf(world.look(n)))] else []
  {
    ExaminedIsDiffering(world, budgets, cs[..n]);
    ExamineOneIs(world, budgets, Examine(world, budgets, cs[..n]), cs[n], n);
  }

  /** The suspects are those entries, in order, and each stands behind those that come before it. */
  lemma {:induction false} SuspectsExactly(world: World, budgets: Budgets, cs: seq<Candidate>, n: nat)
    requires n < |cs|
    ensures var suspects, at := Examine(world, budgets, cs).suspects, Suspected(world, budgets, cs[..n]);
            SuspectedAt(world, budgets, cs, n) ==> at < |suspects| && suspects[at] == Suspect(cs[n], InfoOf(world.look(n)))
    decreases |cs|
  {
    var last := |cs| - 1;
    SuspectsGrow(world, budgets, cs, last);
    if n < last {
      var init := cs[..last];
      assert init[..n] == cs[..n] && init[n] == cs[n];
      SuspectsExactly(world, budgets, init, n);
      SuspectInPrefix(world, budgets, cs, last, n);
    }
  }

  lemma SuspectInPrefix(world: World, budgets: Budgets, cs: seq<Candidate>, last: nat, n: nat)
    requires n < last <= |cs|
    ensures SuspectedAt(world, budgets, cs, n) <==> SuspectedAt(world, budgets, cs[..last], n)
  {
    PrefixOfPrefix(cs, last);
  }

  /** And there are no others. */
  lemma {:induction false} SuspectComesFrom(world: World, budgets: Budgets, cs: seq<Candidate>, j: nat) returns (n: nat)
    requires j < Suspected(world, budgets, cs)
    ensures SuspectedAt(world, budgets, cs, n) && Suspected(world, budgets, cs[..n]) == j
    decreases |cs|
  {
    var last := |cs| - 1;
    var init := cs[..last];
    if j < Suspected(world, budgets, init) {
      n := SuspectComesFrom(world, budgets, init, j);
      PrefixOfPrefix(cs, last);
      SuspectInPrefix(world, budgets, cs, last, n);
    } else {
      n := last;
    }
  }

  // ---- 3. what is read ------------------------------------------------------------------------------------------------

  /** The old bytes fit a file and what is left of the total. */
  predicate OldFits(budgets: Budgets, spent: nat, size: int) {
    0 <= size <= budgets.maxFileBytes && spent + size <= budgets.maxTotalBytes
  }

  /** How many new bytes may be read behind them. */
  function Room(budgets: Budgets, spent: nat, size: int): nat
    requires OldFits(budgets, spent, size)
  {
    var left := budgets.maxTotalBytes - spent - size; if left < budgets.maxFileBytes then left else budgets.maxFileBytes
  }

  /** Something that would have bytes to read stands there. */
  predicate HoldsBytes(info: Option<Info>) {
    info.Some? && !info.value.isDirectory && info.value.size > 0
  }

  /** Why a suspect is left out, when so many bytes are spent. */
  predicate Unread(world: World, budgets: Budgets, spent: nat, suspect: Suspect, answer: Answer, at: nat, reason: Reason) {
    match answer
    case Missing => reason == ObjectMissing
    case NotABlob => reason == UnsupportedEntry
    case Blob(size) =>
      if !OldFits(budgets, spent, size) || (Room(budgets, spent, size) == 0 && HoldsBytes(suspect.info)) then reason == OverBudget
      else
        match world.observe(at, Room(budgets, spent, size))
        case RefusedFor(why) => reason == why
        case seen => reason == OverBudget && spent + size + NewSize(seen) > budgets.maxTotalBytes
  }

  /** What it is read as where nothing of that stands in its way. */
  predicate ReadAs(world: World, budgets: Budgets, spent: nat, suspect: Suspect, answer: Answer, at: nat, change: Change) {
    && answer.Blob? && OldFits(budgets, spent, answer.size)
    && !(Room(budgets, spent, answer.size) == 0 && HoldsBytes(suspect.info))
    && change == Change(suspect.candidate, answer.size, world.observe(at, Room(budgets, spent, answer.size)))
    && !change.seen.RefusedFor? && spent + answer.size + NewSize(change.seen) <= budgets.maxTotalBytes
  }

  lemma VerdictMeans(world: World, budgets: Budgets, spent: nat, suspect: Suspect, answer: Answer, at: nat)
    ensures forall reason :: Verdict(world, budgets, spent, suspect, answer, at) == Failure(reason)
                        <==> Unread(world, budgets, spent, suspect, answer, at, reason)
    ensures forall change :: Verdict(world, budgets, spent, suspect, answer, at) == Success(change)
                        <==> ReadAs(world, budgets, spent, suspect, answer, at, change)
  {
  }

  /** The bytes that the changes before the `j`th suspect take. */
  function Spent(world: World, budgets: Budgets, suspects: seq<Suspect>, j: nat): nat
    requires j <= |suspects| == |world.answers|
  {
    BytesOf(WeighFirst(world, budgets, suspects, j).changed)
  }

  lemma {:induction false} SpentIsTotal(world: World, budgets: Budgets, suspects: seq<Suspect>, j: nat)
    requires j <= |suspects| == |world.answers|
    ensures WeighFirst(world, budgets, suspects, j).total == Spent(world, budgets, suspects, j)
  {
    if j > 0 {
      SpentIsTotal(world, budgets, suspects, j - 1);
      var before := WeighFirst(world, budgets, suspects, j - 1);
      WeighsNext(world, budgets, suspects, j - 1, before);
      var v := Verdict(world, budgets, before.total, suspects[j - 1], world.answers[j - 1], j - 1);
      if v.Success? {
        BytesGrow(before.changed, v.value);
      }
    }
  }

  predicate ReadAt(world: World, budgets: Budgets, suspects: seq<Suspect>, change: Change, j: int)
    requires |suspects| == |world.answers|
  {
    0 <= j < |suspects|
    && ReadAs(world, budgets, Spent(world, budgets, suspects, j), suspects[j], world.answers[j], j, change)
  }

  predicate UnreadAt(world: World, budgets: Budgets, suspects: seq<Suspect>, reason: Reason, path: Path, j: int)
    requires |suspects| == |world.answers|
  {
    && 0 <= j < |suspects| && suspects[j].candidate.entry.path == path
    && Unread(world, budgets, Spent(world, budgets, suspects, j), suspects[j], world.answers[j], j, reason)
  }

  /** How many of the first `j` suspects were read. */
  function ReadBefore(world: World, budgets: Budgets, suspects: seq<Suspect>, j: nat): nat
    requires j <= |suspects| == |world.answers|
  {
    |WeighFirst(world, budgets, suspects, j).changed|
  }

  lemma NextIsRead(world: World, budgets: Budgets, suspects: seq<Suspect>, j: nat)
    requires j < |suspects| == |world.answers|
    ensures var before, after := WeighFirst(world, budgets, suspects, j), WeighFirst(world, budgets, suspects, j + 1);
            || (exists change :: ReadAt(world, budgets, suspects, change, j) && after.changed == before.changed + [change] && after.log == before.log)
            || (after.changed == before.changed
                && exists reason :: UnreadAt(world, budgets, suspects, reason, suspects[j].candidate.entry.path, j)
                     && after.log == before.log + [Omission(reason, suspects[j].candidate.entry.path)])
  {
    var before := WeighFirst(world, budgets, suspects, j);
    SpentIsTotal(world, budgets, suspects, j);
    WeighsNext(world, budgets, suspects, j, before);
    VerdictMeans(world, budgets, before.total, suspects[j], world.answers[j], j);
    var v := Verdict(world, budgets, before.total, suspects[j], world.answers[j], j);
    if v.Success? {
      assert ReadAt(world, budgets, suspects, v.value, j);
    } else {
      assert UnreadAt(world, budgets, suspects, v.error, suspects[j].candidate.entry.path, j);
    }
  }

  /** A suspect is read as one thing, or left out for one reason, and never both. */
  lemma OneVerdict(world: World, budgets: Budgets, suspects: seq<Suspect>, j: nat, change: Change, other: Change, reason: Reason, why: Reason, path: Path)
    requires j < |suspects| == |world.answers|
    ensures ReadAt(world, budgets, suspects, change, j) ==> !UnreadAt(world, budgets, suspects, reason, path, j)
    ensures ReadAt(world, budgets, suspects, change, j) && ReadAt(world, budgets, suspects, other, j) ==> change == other
    ensures UnreadAt(world, budgets, suspects, reason, path, j) && UnreadAt(world, budgets, suspects, why, path, j) ==> reason == why
  {
    VerdictMeans(world, budgets, Spent(world, budgets, suspects, j), suspects[j], world.answers[j], j);
  }

  lemma {:induction false} ReadExactly(world: World, budgets: Budgets, suspects: seq<Suspect>, n: nat, j: nat, change: Change)
    requires j < n <= |suspects| == |world.answers|
    ensures var changed, at := WeighFirst(world, budgets, suspects, n).changed, ReadBefore(world, budgets, suspects, j);
            && at <= |changed| && ReadBefore(world, budgets, suspects, j + 1) <= |changed|
            && (ReadAt(world, budgets, suspects, change, j) ==> at < |changed| && changed[at] == change)
    decreases n
  {
    ReadGrows(world, budgets, suspects, n - 1);
    if j < n - 1 {
      ReadExactly(world, budgets, suspects, n - 1, j, change);
    } else if ReadAt(world, budgets, suspects, change, j) {
      OneRead(world, budgets, suspects, j, change);
    }
  }

  lemma ReadGrows(world: World, budgets: Budgets, suspects: seq<Suspect>, j: nat)
    requires j < |suspects| == |world.answers|
    ensures WeighFirst(world, budgets, suspects, j).changed <= WeighFirst(world, budgets, suspects, j + 1).changed
  {
    NextIsRead(world, budgets, suspects, j);
  }

  lemma OneRead(world: World, budgets: Budgets, suspects: seq<Suspect>, j: nat, change: Change)
    requires j < |suspects| == |world.answers| && ReadAt(world, budgets, suspects, change, j)
    ensures var before, after := WeighFirst(world, budgets, suspects, j), WeighFirst(world, budgets, suspects, j + 1);
            after.changed == before.changed + [change]
  {
    SpentIsTotal(world, budgets, suspects, j);
    WeighsNext(world, budgets, suspects, j, WeighFirst(world, budgets, suspects, j));
    VerdictMeans(world, budgets, Spent(world, budgets, suspects, j), suspects[j], world.answers[j], j);
  }

  lemma {:induction false} ChangeComesFrom(world: World, budgets: Budgets, suspects: seq<Suspect>, n: nat, m: nat) returns (j: nat)
    requires n <= |suspects| == |world.answers| && m < ReadBefore(world, budgets, suspects, n)
    ensures j < n && ReadBefore(world, budgets, suspects, j) == m
    ensures ReadAt(world, budgets, suspects, WeighFirst(world, budgets, suspects, n).changed[m], j)
    decreases n
  {
    NextIsRead(world, budgets, suspects, n - 1);
    if m < ReadBefore(world, budgets, suspects, n - 1) {
      j := ChangeComesFrom(world, budgets, suspects, n - 1, m);
    } else {
      j := n - 1;
    }
  }

  lemma UnreadStep(world: World, budgets: Budgets, suspects: seq<Suspect>, j: nat, reason: Reason, path: Path)
    requires j < |suspects| == |world.answers|
    ensures Reports(WeighFirst(world, budgets, suspects, j + 1).log, reason, path)
       <==> Reports(WeighFirst(world, budgets, suspects, j).log, reason, path) || UnreadAt(world, budgets, suspects, reason, path, j)
  {
    var before := WeighFirst(world, budgets, suspects, j);
    SpentIsTotal(world, budgets, suspects, j);
    WeighsNext(world, budgets, suspects, j, before);
    VerdictMeans(world, budgets, before.total, suspects[j], world.answers[j], j);
    var v := Verdict(world, budgets, before.total, suspects[j], world.answers[j], j);
    if v.Failure? {
      ReportsOneMore(before.log, Omission(v.error, suspects[j].candidate.entry.path), reason, path);
    }
  }

  lemma {:induction false} UnreadExactly(world: World, budgets: Budgets, suspects: seq<Suspect>, n: nat, reason: Reason, path: Path)
    requires n <= |suspects| == |world.answers|
    ensures Reports(WeighFirst(world, budgets, suspects, n).log, reason, path)
       <==> exists j :: j < n && UnreadAt(world, budgets, suspects, reason, path, j)
    decreases n
  {
    if n > 0 {
      UnreadExactly(world, budgets, suspects, n - 1, reason, path);
      UnreadStep(world, budgets, suspects, n - 1, reason, path);
    }
  }

  // ---- 4. what is placed ----------------------------------------------------------------------------------------------

  /** A record was placed before, and the path of this one lies below it. */
  predicate LiesBelowRecord(world: World, changed: seq<Change>, m: nat)
    requires m < |changed|
  {
    BelowPlaced(Place(world, changed[..m]).records, changed[m].candidate.parts)
  }

  predicate PlacedAt(world: World, changed: seq<Change>, c: Candidate, m: int) {
    && 0 <= m < |changed| && changed[m].candidate == c && !LiesBelowRecord(world, changed, m)
    && (changed[m].seen.Absent? || world.write(m).Written?)
  }

  predicate UnplacedAt(world: World, changed: seq<Change>, reason: Reason, path: Path, m: int) {
    && 0 <= m < |changed| && changed[m].candidate.entry.path == path
    && match reason
       case PathCollision => LiesBelowRecord(world, changed, m) || (!changed[m].seen.Absent? && world.write(m).Collided?)
       case UnsafePath => !LiesBelowRecord(world, changed, m) && !changed[m].seen.Absent? && world.write(m).Failed?
       case _ => false
  }

  lemma PlaceInPrefix(world: World, changed: seq<Change>, last: nat, m: nat, c: Candidate, reason: Reason, path: Path)
    requires m < last <= |changed|
    ensures PlacedAt(world, changed, c, m) <==> PlacedAt(world, changed[..last], c, m)
    ensures UnplacedAt(world, changed, reason, path, m) <==> UnplacedAt(world, changed[..last], reason, path, m)
  {
    PrefixOfPrefix(changed, last);
  }

  lemma RecordStep(world: World, changed: seq<Change>, m: nat, c: Candidate)
    requires |changed| == m + 1
    ensures c in Place(world, changed).records <==> c in Place(world, changed[..m]).records || PlacedAt(world, changed, c, m)
  {
    InOneMore(Place(world, changed[..m]).records, changed[m].candidate, c);
  }

  lemma UnplacedStep(world: World, changed: seq<Change>, m: nat, reason: Reason, path: Path)
    requires |changed| == m + 1
    ensures Reports(Place(world, changed).log, reason, path)
       <==> Reports(Place(world, changed[..m]).log, reason, path) || UnplacedAt(world, changed, reason, path, m)
  {
    var before, d := Place(world, changed[..m]), changed[m].candidate;
    ReportsOneMore(before.log, Omission(PathCollision, d.entry.path), reason, path);
    ReportsOneMore(before.log, Omission(UnsafePath, d.entry.path), reason, path);
  }

  lemma {:induction false} PlacedExactly(world: World, changed: seq<Change>, c: Candidate, reason: Reason, path: Path)
    ensures c in Place(world, changed).records <==> exists m :: PlacedAt(world, changed, c, m)
    ensures Reports(Place(world, changed).log, reason, path) <==> exists m :: UnplacedAt(world, changed, reason, path, m)
  {
    if changed != [] {
      var last := |changed| - 1;
      PlacedExactly(world, changed[..last], c, reason, path);
      RecordStep(world, changed, last, c);
      UnplacedStep(world, changed, last, reason, path);
      forall m | 0 <= m < last
        ensures PlacedAt(world, changed, c, m) <==> PlacedAt(world, changed[..last], c, m)
        ensures UnplacedAt(world, changed, reason, path, m) <==> UnplacedAt(world, changed[..last], reason, path, m)
      {
        PlaceInPrefix(world, changed, last, m, c, reason, path);
      }
    }
  }

  // ---- the whole --------------------------------------------------------------------------------------------------------

  function KeptOf(rules: Rules, entries: seq<IndexEntry>): seq<Candidate> {
    Admitted(rules, UnmergedOf(entries), entries).kept
  }

  /**
    The `n`th admitted candidate differs and is looked into, its blob and what stands there are read within the budgets,
    and it lies below no record and is absent or could be written.
  */
  ghost predicate BecomesRecord(world: World, budgets: Budgets, kept: seq<Candidate>, n: int) {
    && SuspectedAt(world, budgets, kept, n)
    && var suspects, j := Examine(world, budgets, kept).suspects, Suspected(world, budgets, kept[..n]);
       && |suspects| == |world.answers| && j < |suspects|
       && (exists change :: ReadAt(world, budgets, suspects, change, j))
       && PlacedAt(world, Weigh(world, budgets, suspects).changed, kept[n], ReadBefore(world, budgets, suspects, j))
  }

  /** Why and where the later stages leave a path out. */
  ghost predicate LeftOutLater(world: World, budgets: Budgets, suspects: seq<Suspect>, reason: Reason, path: Path) {
    suspects != [] && |suspects| == |world.answers| &&
    ((exists j :: UnreadAt(world, budgets, suspects, reason, path, j))
     || (exists m :: UnplacedAt(world, Weigh(world, budgets, suspects).changed, reason, path, m)))
  }

  /** What is unchanged, and what is recorded: exactly the admitted candidates that the world makes so. */
  lemma RecordsExactly(rules: Rules, world: World, budgets: Budgets, entries: seq<IndexEntry>, sorted: seq<Path>, c: Candidate)
    requires Cover(rules, world, budgets, entries, sorted).Success?
    ensures var r, kept := Cover(rules, world, budgets, entries, sorted).value, KeptOf(rules, entries);
            && (c in r.same <==> exists n :: SameAt(world, kept, c, n))
            && (c in r.records <==> exists n :: BecomesRecord(world, budgets, kept, n) && kept[n] == c)
  {
    var r, kept := Cover(rules, world, budgets, entries, sorted).value, KeptOf(rules, entries);
    var suspects := Examine(world, budgets, kept).suspects;
    SameExactly(world, budgets, kept, c);
    ExaminedIsDiffering(world, budgets, kept);
    if suspects != [] {
      PlacedExactly(world, r.changed, c, OverBudget, "");
      if c in r.records {
        var m :| PlacedAt(world, r.changed, c, m);
        var n := RecordComesFrom(world, budgets, kept, m);
      }
    }
    forall n | BecomesRecord(world, budgets, kept, n) && kept[n] == c
      ensures c in r.records
    {
      SuspectsExactly(world, budgets, kept, n);
    }
  }

  /** The candidate that a placed change is of. */
  lemma RecordComesFrom(world: World, budgets: Budgets, kept: seq<Candidate>, m: nat) returns (n: nat)
    requires var suspects := Examine(world, budgets, kept).suspects;
             && |suspects| == |world.answers|
             && var changed := Weigh(world, budgets, suspects).changed; m < |changed| && PlacedAt(world, changed, changed[m].candidate, m)
    ensures BecomesRecord(world, budgets, kept, n)
    ensures kept[n] == Weigh(world, budgets, Examine(world, budgets, kept).suspects).changed[m].candidate
  {
    var suspects := Examine(world, budgets, kept).suspects;
    ExaminedIsDiffering(world, budgets, kept);
    var j := ChangeComesFrom(world, budgets, suspects, |suspects|, m);
    n := SuspectComesFrom(world, budgets, kept, j);
    SuspectsExactly(world, budgets, kept, n);
  }

  /** Each omission has its cause, and each cause its omission. */
  lemma OmissionsExactly(rules: Rules, world: World, budgets: Budgets, entries: seq<IndexEntry>, sorted: seq<Path>,
                         reason: Reason, path: Path)
    requires Cover(rules, world, budgets, entries, sorted).Success?
    ensures var kept := KeptOf(rules, entries);
            Reports(Cover(rules, world, budgets, entries, sorted).value.log, reason, path) <==>
              || (exists k :: RefusedAt(rules, UnmergedOf(entries), entries, reason, path, k))
              || (path in sorted && world.inspect(path) == reason)
              || (exists n :: UnexaminedAt(world, budgets, kept, reason, path, n))
              || LeftOutLater(world, budgets, Examine(world, budgets, kept).suspects, reason, path)
  {
    var r, kept := Cover(rules, world, budgets, entries, sorted).value, KeptOf(rules, entries);
    var examined := Examine(world, budgets, kept);
    var refused, inspected := Admitted(rules, UnmergedOf(entries), entries).log, Inspected(world, sorted);
    RefusedExactly(rules, UnmergedOf(entries), entries, reason, path);
    InspectedExactly(world, sorted, reason, path);
    UnexaminedExactly(world, budgets, kept, reason, path);
    ReportsJoined(refused, inspected, reason, path);
    ReportsJoined(refused + inspected, examined.log, reason, path);
    if examined.suspects != [] {
      var weighed := Weigh(world, budgets, examined.suspects);
      var log := refused + inspected + examined.log;
      UnreadExactly(world, budgets, examined.suspects, |examined.suspects|, reason, path);
      PlacedExactly(world, weighed.changed, kept[0], reason, path);
      ReportsJoined(log, weighed.log, reason, path);
      ReportsJoined(log + weighed.log, Place(world, weighed.changed).log, reason, path);
    }
  }

  lemma InspectedExactly(world: World, sorted: seq<Path>, reason: Reason, path: Path)
    ensures Reports(Inspected(world, sorted), reason, path) <==> path in sorted && world.inspect(path) == reason
  {
    var log := Inspected(world, sorted);
    if path in sorted && world.inspect(path) == reason {
      var k :| 0 <= k < |sorted| && sorted[k] == path;
      assert log[k] == Omission(reason, path);
    }
  }

  /** An admitted name is reported unless as many as there is room for were before it. */
  lemma {:induction false} NamedAreReported(log: seq<Omission>, k: nat)
    requires k < |log| && Named(log[k].reason)
    ensures log[k].path in ReportedPaths(log) || |ReportedPaths(log)| == MAX_REPORTED_PATHS
  {
    if k < |log| - 1 {
      NamedAreReported(log[..|log| - 1], k);
    }
  }
}
