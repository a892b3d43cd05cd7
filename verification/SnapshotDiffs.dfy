/**
  Which paths of an index an unstaged diff covers. Every entry that Git would compare is found unchanged, is left out
  for a stated reason, or becomes a record of the private index, within the byte budget and with no path below another.
*/
module SnapshotDiffs {
  import opened Wrappers
  import opened IndexListings
  import opened DescriptorWalks

  const MODE_FILE := 0x81A4
  const MODE_EXECUTABLE := 0x81ED
  const MODE_LINK := 0xA000
  const MODE_GITLINK := 0xE000
  const FLAG_ASSUME_VALID := 0x8000
  const FLAG_SKIP_WORKTREE := 0x40000000
  const MAX_REPORTED_PATHS := 50

  type Path = string

  datatype Reason =
    | RefusedName | ScopeDenied | HardLink | SpecialFile | Unreadable | PathReplaced | ChangedDuringRead | UnsafePath
    | OverBudget | Unmerged | PathCollision | UnsupportedEntry | ObjectMissing

  datatype Omission = Omission(reason: Reason, path: Path)

  datatype Budgets = Budgets(maxEntries: nat, maxCandidates: nat, maxFileBytes: nat, maxTotalBytes: nat)

  // ---- omissions ------------------------------------------------------------------------------------------------

  predicate Named(reason: Reason) {
    reason != RefusedName && reason != ScopeDenied && reason != UnsafePath
  }

  function ReasonsOf(log: seq<Omission>): (reasons: multiset<Reason>)
    ensures |reasons| == |log|
  {
    if log == [] then multiset{} else ReasonsOf(log[..|log| - 1]) + multiset{log[|log| - 1].reason}
  }

  /** The first paths with an admitted name. */
  function ReportedPaths(log: seq<Omission>): (paths: seq<Path>)
    ensures |paths| <= MAX_REPORTED_PATHS
  {
    if log == [] then []
    else
      var before, last := ReportedPaths(log[..|log| - 1]), log[|log| - 1];
      if Named(last.reason) && |before| < MAX_REPORTED_PATHS then before + [last.path] else before
  }

  /** No refused object is named. */
  lemma {:induction false} RefusedAreNotNamed(log: seq<Omission>, path: Path)
    requires path in ReportedPaths(log)
    ensures exists k :: 0 <= k < |log| && log[k].path == path && Named(log[k].reason)
  {
    var init, last := log[..|log| - 1], log[|log| - 1];
    if path in ReportedPaths(init) {
      RefusedAreNotNamed(init, path);
      var k :| 0 <= k < |init| && init[k].path == path && Named(init[k].reason);
      assert log[k] == init[k];
    } else {
      assert log[|log| - 1].path == path;
    }
  }

  lemma LogGrows(log: seq<Omission>, o: Omission)
    ensures ReasonsOf(log + [o]) == ReasonsOf(log) + multiset{o.reason}
    ensures ReportedPaths(log + [o])
         == if Named(o.reason) && |ReportedPaths(log)| < MAX_REPORTED_PATHS then ReportedPaths(log) + [o.path] else ReportedPaths(log)
  {
    assert (log + [o])[..|log|] == log;
  }

  class Omissions {
    var reasons: multiset<Reason>
    var paths: seq<Path>
    ghost var log: seq<Omission>

    ghost predicate Valid()
      reads this
    {
      reasons == ReasonsOf(log) && paths == ReportedPaths(log)
    }

    constructor ()
      ensures Valid() && log == []
    {
      reasons, paths, log := multiset{}, [], [];
    }

    method Add(reason: Reason, path: Path)
      requires Valid()
      modifies this
      ensures Valid() && log == old(log) + [Omission(reason, path)]
    {
      LogGrows(log, Omission(reason, path));
      reasons := reasons + multiset{reason};
      if Named(reason) && |paths| < MAX_REPORTED_PATHS {
        paths := paths + [path];
      }
      log := log + [Omission(reason, path)];
    }

    method Count() returns (n: nat)
      requires Valid()
      ensures n == |log|
    {
      n := |reasons|;
    }
  }

  // ---- 1. admission ---------------------------------------------------------------------------------------------

  datatype Rules = Rules(denied: string -> bool, gitMetadata: string -> bool, allows: seq<string> -> bool)

  datatype Candidate = Candidate(entry: IndexEntry, parts: seq<string>)

  predicate HasFlag(flags: nat, flag: nat)
    requires flag > 0
  {
    flags / flag % 2 == 1
  }

  /** Git compares it: stage 0, not unmerged, no submodule, not marked to be skipped. */
  predicate Eligible(e: IndexEntry, unmerged: set<Path>) {
    && e.stage == 0 && e.path !in unmerged && e.mode != MODE_GITLINK
    && !HasFlag(e.flags, FLAG_ASSUME_VALID) && !HasFlag(e.flags, FLAG_SKIP_WORKTREE)
  }

  function UnmergedOf(entries: seq<IndexEntry>): set<Path> {
    set k | 0 <= k < |entries| && entries[k].stage != 0 :: entries[k].path
  }

  predicate AnyPart(parts: seq<string>, bad: string -> bool) {
    exists k :: 0 <= k < |parts| && bad(parts[k])
  }

  predicate Unsafe(rules: Rules, parts: seq<string>) {
    exists k :: 0 <= k < |parts| && (Empty(parts[k]) || parts[k] == ".." || '\0' in parts[k] || rules.gitMetadata(parts[k]))
  }

  /** Why an entry is left out before anything is looked at; names and authority come first. */
  function Refusal(rules: Rules, e: IndexEntry): Option<Reason> {
    var parts := SplitSlash(e.path);
    if AnyPart(parts, rules.denied) then Some(RefusedName)
    else if Unsafe(rules, parts) then Some(UnsafePath)
    else if !rules.allows(parts) then Some(ScopeDenied)
    else if e.mode != MODE_FILE && e.mode != MODE_EXECUTABLE && e.mode != MODE_LINK then Some(UnsupportedEntry)
    else None
  }

  function CandidateOf(e: IndexEntry): Candidate {
    Candidate(e, SplitSlash(e.path))
  }

  datatype Sorted<T> = Sorted(kept: seq<T>, log: seq<Omission>)

  function Keep<T>(s: Sorted<T>, x: T): Sorted<T> {
    s.(kept := s.kept + [x])
  }

  function Omit<T>(s: Sorted<T>, reason: Reason, path: Path): Sorted<T> {
    s.(log := s.log + [Omission(reason, path)])
  }

  function Admitted(rules: Rules, unmerged: set<Path>, entries: seq<IndexEntry>): Sorted<Candidate> {
    if entries == [] then Sorted([], [])
    else
      var before, e := Admitted(rules, unmerged, entries[..|entries| - 1]), entries[|entries| - 1];
      if !Eligible(e, unmerged) then before
      else if Refusal(rules, e).Some? then Omit(before, Refusal(rules, e).value, e.path)
      else Keep(before, CandidateOf(e))
  }

  // ---- 2. what may have changed -----------------------------------------------------------------------------------

  /** What the walker finds at a path: another kind of object on the way, nothing, or an entry. */
  datatype Info = Info(isDirectory: bool, size: nat)
  datatype Look = Replaced | Nothing | Found(info: Info)

  /** What the rest of the world answers, by position in the list it is asked about. */
  datatype Answer = Missing | NotABlob | Blob(size: int)
  datatype Worktree = Absent | File(executable: bool, data: seq<int>) | LinkText(target: seq<int>) | RefusedFor(reason: Reason)
  datatype Placement = Written | Collided | Failed

  datatype World = World(
    inspect: Path -> Reason,
    look: nat -> Look,
    sameAsIndex: (IndexEntry, Info) -> bool,
    answers: seq<Answer>,
    observe: (nat, nat) -> Worktree,
    write: nat -> Placement)

  datatype Suspect = Suspect(candidate: Candidate, info: Option<Info>)

  predicate IsSame(world: World, c: Candidate, look: Look) {
    look.Found? && world.sameAsIndex(c.entry, look.info)
  }

  function InfoOf(look: Look): Option<Info> {
    if look.Found? then Some(look.info) else None
  }

  /** `same`: found as the index has it. The others are looked into, up to a number of candidates. */
  datatype Examined = Examined(same: seq<Candidate>, suspects: seq<Suspect>, log: seq<Omission>, examined: nat)

  datatype Sight = Unchanged | Doubtful | LeftOut(reason: Reason)

  /** What a look at an entry says, when so many doubtful ones came before. */
  function Judge(world: World, budgets: Budgets, examined: nat, c: Candidate, look: Look): Sight {
    if look.Replaced? then LeftOut(PathReplaced)
    else if IsSame(world, c, look) then Unchanged
    else if examined + 1 > budgets.maxCandidates then LeftOut(OverBudget)
    else Doubtful
  }

  function Sort(s: Examined, c: Candidate, look: Look, sight: Sight): Examined {
    var counted := if look.Replaced? || sight.Unchanged? then s else s.(examined := s.examined + 1);
    match sight
    case Unchanged => counted.(same := s.same + [c])
    case Doubtful => counted.(suspects := s.suspects + [Suspect(c, InfoOf(look))])
    case LeftOut(reason) => counted.(log := s.log + [Omission(reason, c.entry.path)])
  }

  function ExamineOne(world: World, budgets: Budgets, s: Examined, c: Candidate, look: Look): Examined {
    Sort(s, c, look, Judge(world, budgets, s.examined, c, look))
  }

  function Examine(world: World, budgets: Budgets, admitted: seq<Candidate>): Examined {
    if admitted == [] then Examined([], [], [], 0)
    else
      var n := |admitted| - 1;
      ExamineOne(world, budgets, Examine(world, budgets, admitted[..n]), admitted[n], world.look(n))
  }

  // ---- 3. what is read --------------------------------------------------------------------------------------------

  datatype Change = Change(candidate: Candidate, oldSize: nat, seen: Worktree)

  function NewSize(seen: Worktree): nat {
    match seen
    case File(_, data) => |data|
    case LinkText(target) => |target|
    case _ => 0
  }

  datatype Weighed = Weighed(changed: seq<Change>, log: seq<Omission>, total: nat)

  function Min(a: int, b: int): int {
    if a <= b then a else b
  }

  function Limit(budgets: Budgets, total: nat, size: nat): int {
    Min(budgets.maxFileBytes, budgets.maxTotalBytes - (total + size))
  }

  /** What becomes of one suspect: a change to compare, or why not. Sizes are judged before anything is read. */
  function Verdict(world: World, budgets: Budgets, total: nat, suspect: Suspect, answer: Answer, at: nat): Result<Change, Reason> {
    if answer.Missing? then Failure(ObjectMissing)
    else if answer.NotABlob? then Failure(UnsupportedEntry)
    else if answer.size < 0 || answer.size > budgets.maxFileBytes || total + answer.size > budgets.maxTotalBytes then
      Failure(OverBudget)
    else if Limit(budgets, total, answer.size) <= 0 && suspect.info.Some? && !suspect.info.value.isDirectory
            && suspect.info.value.size > 0 then
      Failure(OverBudget)
    else
      var limit := Limit(budgets, total, answer.size);
      var seen := world.observe(at, if limit < 0 then 0 else limit);
      if seen.RefusedFor? then Failure(seen.reason)
      else if total + answer.size + NewSize(seen) > budgets.maxTotalBytes then Failure(OverBudget)
      else Success(Change(suspect.candidate, answer.size, seen))
  }

  function Settle(s: Weighed, verdict: Result<Change, Reason>, path: Path): Weighed {
    if verdict.Failure? then s.(log := s.log + [Omission(verdict.error, path)])
    else Weighed(s.changed + [verdict.value], s.log, s.total + verdict.value.oldSize + NewSize(verdict.value.seen))
  }

  function WeighOne(world: World, budgets: Budgets, s: Weighed, suspect: Suspect, answer: Answer, at: nat): Weighed {
    Settle(s, Verdict(world, budgets, s.total, suspect, answer, at), suspect.candidate.entry.path)
  }

  function Weigh(world: World, budgets: Budgets, suspects: seq<Suspect>): Weighed
    requires |suspects| == |world.answers|
  {
    WeighFirst(world, budgets, suspects, |suspects|)
  }

  function WeighFirst(world: World, budgets: Budgets, suspects: seq<Suspect>, n: nat): Weighed
    requires n <= |suspects| == |world.answers|
  {
    if n == 0 then Weighed([], [], 0)
    else WeighOne(world, budgets, WeighFirst(world, budgets, suspects, n - 1), suspects[n - 1], world.answers[n - 1], n - 1)
  }

  lemma NextWeighed(world: World, budgets: Budgets, suspects: seq<Suspect>, n: nat)
    requires n < |suspects| == |world.answers|
    ensures var before := WeighFirst(world, budgets, suspects, n);
            var verdict := Verdict(world, budgets, before.total, suspects[n], world.answers[n], n);
            WeighFirst(world, budgets, suspects, n + 1) == Settle(before, verdict, suspects[n].candidate.entry.path)
  {
  }

  // ---- 4. what is placed ------------------------------------------------------------------------------------------

  /** `placed` are the parts of the paths placed so far, in the order of the records. */
  datatype Placed = Placed(records: seq<Candidate>, log: seq<Omission>)

  predicate Beneath(parts: seq<string>, above: seq<string>) {
    0 < |above| < |parts| && above <= parts
  }

  predicate BelowPlaced(records: seq<Candidate>, parts: seq<string>) {
    exists k :: 0 <= k < |records| && Beneath(parts, records[k].parts)
  }

  function PlaceOne(world: World, s: Placed, change: Change, at: nat): Placed {
    var c := change.candidate;
    if BelowPlaced(s.records, c.parts) then s.(log := s.log + [Omission(PathCollision, c.entry.path)])
    else if change.seen.Absent? then s.(records := s.records + [c])
    else
      match world.write(at)
      case Collided => s.(log := s.log + [Omission(PathCollision, c.entry.path)])
      case Failed => s.(log := s.log + [Omission(UnsafePath, c.entry.path)])
      case Written => s.(records := s.records + [c])
  }

  function Place(world: World, changed: seq<Change>): Placed {
    if changed == [] then Placed([], [])
    else
      var n := |changed| - 1;
      PlaceOne(world, Place(world, changed[..n]), changed[n], n)
  }

  // ---- the whole ----------------------------------------------------------------------------------------------------

  datatype DiffError = TooManyEntries | AnswersDiffer

  datatype Covered = Covered(
    same: seq<Candidate>, changed: seq<Change>, records: seq<Candidate>, log: seq<Omission>, total: nat)

  function Inspected(world: World, paths: seq<Path>): seq<Omission> {
    seq(|paths|, k requires 0 <= k < |paths| => Omission(world.inspect(paths[k]), paths[k]))
  }

  /** `sorted` lists the unmerged paths. */
  function Cover(rules: Rules, world: World, budgets: Budgets, entries: seq<IndexEntry>, sorted: seq<Path>)
    : Result<Covered, DiffError>
  {
    if |entries| > budgets.maxEntries then Failure(TooManyEntries)
    else
      var admitted := Admitted(rules, UnmergedOf(entries), entries);
      var examined := Examine(world, budgets, admitted.kept);
      var log := admitted.log + Inspected(world, sorted) + examined.log;
      if examined.suspects == [] then Success(Covered(examined.same, [], [], log, 0))
      else if |examined.suspects| != |world.answers| then Failure(AnswersDiffer)
      else
        var weighed := Weigh(world, budgets, examined.suspects);
        var placed := Place(world, weighed.changed);
        Success(Covered(examined.same, weighed.changed, placed.records, log + weighed.log + placed.log, weighed.total))
  }

  // ---- conservation ---------------------------------------------------------------------------------------------------

  function One(path: Path, p: Path): nat {
    if path == p then 1 else 0
  }

  /** How often a path occurs among omissions, candidates, suspects, changes. */
  function InLog(log: seq<Omission>, p: Path): nat {
    if log == [] then 0 else InLog(log[..|log| - 1], p) + One(log[|log| - 1].path, p)
  }

  function InCandidates(cs: seq<Candidate>, p: Path): nat {
    if cs == [] then 0 else InCandidates(cs[..|cs| - 1], p) + One(cs[|cs| - 1].entry.path, p)
  }

  function InSuspects(ss: seq<Suspect>, p: Path): nat {
    if ss == [] then 0 else InSuspects(ss[..|ss| - 1], p) + One(ss[|ss| - 1].candidate.entry.path, p)
  }

  function InChanges(cs: seq<Change>, p: Path): nat {
    if cs == [] then 0 else InChanges(cs[..|cs| - 1], p) + One(cs[|cs| - 1].candidate.entry.path, p)
  }

  function InPaths(paths: seq<Path>, p: Path): nat {
    if paths == [] then 0 else InPaths(paths[..|paths| - 1], p) + One(paths[|paths| - 1], p)
  }

  function InEligible(entries: seq<IndexEntry>, unmerged: set<Path>, p: Path): nat {
    if entries == [] then 0
    else
      var e := entries[|entries| - 1];
      InEligible(entries[..|entries| - 1], unmerged, p) + if Eligible(e, unmerged) then One(e.path, p) else 0
  }

  function EligibleNumber(entries: seq<IndexEntry>, unmerged: set<Path>): nat {
    if entries == [] then 0
    else
      EligibleNumber(entries[..|entries| - 1], unmerged) + if Eligible(entries[|entries| - 1], unmerged) then 1 else 0
  }

  lemma OneMorePath(log: seq<Omission>, o: Omission, p: Path)
    ensures InLog(log + [o], p) == InLog(log, p) + One(o.path, p)
  {
    assert (log + [o])[..|log|] == log;
  }

  lemma OneMoreCandidate(cs: seq<Candidate>, c: Candidate, p: Path)
    ensures InCandidates(cs + [c], p) == InCandidates(cs, p) + One(c.entry.path, p)
  {
    assert (cs + [c])[..|cs|] == cs;
  }

  lemma OneMoreSuspect(ss: seq<Suspect>, s: Suspect, p: Path)
    ensures InSuspects(ss + [s], p) == InSuspects(ss, p) + One(s.candidate.entry.path, p)
  {
    assert (ss + [s])[..|ss|] == ss;
  }

  lemma OneMoreChange(cs: seq<Change>, c: Change, p: Path)
    ensures InChanges(cs + [c], p) == InChanges(cs, p) + One(c.candidate.entry.path, p)
  {
    assert (cs + [c])[..|cs|] == cs;
  }

  lemma {:induction false} InBoth(a: seq<Omission>, b: seq<Omission>, p: Path)
    ensures InLog(a + b, p) == InLog(a, p) + InLog(b, p)
  {
    if b == [] {
      assert a + b == a;
    } else {
      assert (a + b)[..|a + b| - 1] == a + b[..|b| - 1];
      InBoth(a, b[..|b| - 1], p);
    }
  }

  lemma {:induction false} AdmittedConserves(rules: Rules, unmerged: set<Path>, entries: seq<IndexEntry>, p: Path)
    ensures var s := Admitted(rules, unmerged, entries);
            && InEligible(entries, unmerged, p) == InCandidates(s.kept, p) + InLog(s.log, p)
            && EligibleNumber(entries, unmerged) == |s.kept| + |s.log|
  {
    if entries != [] {
      var init, e := entries[..|entries| - 1], entries[|entries| - 1];
      AdmittedConserves(rules, unmerged, init, p);
      var before := Admitted(rules, unmerged, init);
      if Eligible(e, unmerged) {
        if Refusal(rules, e).Some? {
          OneMorePath(before.log, Omission(Refusal(rules, e).value, e.path), p);
        } else {
          OneMoreCandidate(before.kept, CandidateOf(e), p);
        }
      }
    }
  }

  lemma ExamineOneConserves(world: World, budgets: Budgets, s: Examined, c: Candidate, look: Look, p: Path)
    ensures var t := ExamineOne(world, budgets, s, c, look);
            && InCandidates(t.same, p) + InSuspects(t.suspects, p) + InLog(t.log, p)
               == InCandidates(s.same, p) + InSuspects(s.suspects, p) + InLog(s.log, p) + One(c.entry.path, p)
            && |t.same| + |t.suspects| + |t.log| == |s.same| + |s.suspects| + |s.log| + 1
  {
    var sight := Judge(world, budgets, s.examined, c, look);
    if sight.LeftOut? {
      OneMorePath(s.log, Omission(sight.reason, c.entry.path), p);
    }
    OneMoreCandidate(s.same, c, p);
    OneMoreSuspect(s.suspects, Suspect(c, InfoOf(look)), p);
  }

  lemma {:induction false} ExamineConserves(world: World, budgets: Budgets, admitted: seq<Candidate>, p: Path)
    ensures var s := Examine(world, budgets, admitted);
            && InCandidates(admitted, p) == InCandidates(s.same, p) + InSuspects(s.suspects, p) + InLog(s.log, p)
            && |admitted| == |s.same| + |s.suspects| + |s.log|
  {
    if admitted != [] {
      var n := |admitted| - 1;
      ExamineConserves(world, budgets, admitted[..n], p);
      ExamineOneConserves(world, budgets, Examine(world, budgets, admitted[..n]), admitted[n], world.look(n), p);
    }
  }

  /** A suspect is left out, or is one more change. */
  lemma WeighOneCases(world: World, budgets: Budgets, s: Weighed, suspect: Suspect, answer: Answer, at: nat)
    ensures var t := WeighOne(world, budgets, s, suspect, answer, at);
            || (t.changed == s.changed && |t.log| == |s.log| + 1 && t.log == s.log + [t.log[|s.log|]]
                && t.log[|s.log|].path == suspect.candidate.entry.path)
            || (t.log == s.log && |t.changed| == |s.changed| + 1 && t.changed == s.changed + [t.changed[|s.changed|]]
                && t.changed[|s.changed|].candidate == suspect.candidate)
  {
  }

  /** Of `number` suspects, among them `times` with the path `p`, each is a change or left out. */
  predicate Balanced(s: Weighed, times: nat, number: nat, p: Path) {
    InChanges(s.changed, p) + InLog(s.log, p) == times && |s.changed| + |s.log| == number
  }

  lemma WeighOneConserves(world: World, budgets: Budgets, s: Weighed, suspect: Suspect, answer: Answer, at: nat,
                          times: nat, number: nat, p: Path)
    requires Balanced(s, times, number, p)
    ensures Balanced(WeighOne(world, budgets, s, suspect, answer, at), times + One(suspect.candidate.entry.path, p), number + 1, p)
  {
    var t := WeighOne(world, budgets, s, suspect, answer, at);
    WeighOneCases(world, budgets, s, suspect, answer, at);
    if |t.log| > |s.log| {
      OneMorePath(s.log, t.log[|s.log|], p);
    } else {
      OneMoreChange(s.changed, t.changed[|s.changed|], p);
    }
  }

  lemma FirstSuspects(suspects: seq<Suspect>, n: nat, p: Path)
    requires 0 < n <= |suspects|
    ensures InSuspects(suspects[..n], p) == InSuspects(suspects[..n - 1], p) + One(suspects[n - 1].candidate.entry.path, p)
  {
    assert suspects[..n] == suspects[..n - 1] + [suspects[n - 1]];
    OneMoreSuspect(suspects[..n - 1], suspects[n - 1], p);
  }

  /** The stage that has weighed the next suspect. */
  lemma WeighsNext(world: World, budgets: Budgets, suspects: seq<Suspect>, k: nat, before: Weighed)
    requires k < |suspects| == |world.answers| && before == WeighFirst(world, budgets, suspects, k)
    ensures WeighFirst(world, budgets, suspects, k + 1) == WeighOne(world, budgets, before, suspects[k], world.answers[k], k)
  {
  }

  lemma WeighStep(world: World, budgets: Budgets, suspects: seq<Suspect>, k: nat, p: Path, before: Weighed, times: nat)
    requires k < |suspects| == |world.answers| && before == WeighFirst(world, budgets, suspects, k)
    requires times == InSuspects(suspects[..k], p) && Balanced(before, times, k, p)
    ensures Balanced(WeighFirst(world, budgets, suspects, k + 1), InSuspects(suspects[..k + 1], p), k + 1, p)
  {
    FirstSuspects(suspects, k + 1, p);
    WeighsNext(world, budgets, suspects, k, before);
    WeighOneConserves(world, budgets, before, suspects[k], world.answers[k], k, times, k, p);
  }

  lemma WeighConserves(world: World, budgets: Budgets, suspects: seq<Suspect>, n: nat, p: Path)
    requires n <= |suspects| == |world.answers|
    ensures Balanced(WeighFirst(world, budgets, suspects, n), InSuspects(suspects[..n], p), n, p)
  {
    for k := 0 to n
      invariant Balanced(WeighFirst(world, budgets, suspects, k), InSuspects(suspects[..k], p), k, p)
    {
      WeighStep(world, budgets, suspects, k, p, WeighFirst(world, budgets, suspects, k), InSuspects(suspects[..k], p));
    }
  }

  /** A change is left out, or is one more record. */
  lemma PlaceOneCases(world: World, s: Placed, change: Change, at: nat)
    ensures var t, path := PlaceOne(world, s, change, at), change.candidate.entry.path;
            || (t.records == s.records && exists reason :: t.log == s.log + [Omission(reason, path)])
            || (t.log == s.log && t.records == s.records + [change.candidate])
  {
    var t := PlaceOne(world, s, change, at);
    if t.records == s.records && t.log != s.log {
      assert t.log == s.log + [Omission(t.log[|s.log|].reason, change.candidate.entry.path)];
    }
  }

  /** Of `number` changes, among them `times` with the path `p`, each is a record or left out. */
  predicate PlacedBalance(s: Placed, times: nat, number: nat, p: Path) {
    InCandidates(s.records, p) + InLog(s.log, p) == times && |s.records| + |s.log| == number
  }

  lemma PlaceOneConserves(world: World, s: Placed, change: Change, at: nat, times: nat, number: nat, p: Path)
    requires PlacedBalance(s, times, number, p)
    ensures PlacedBalance(PlaceOne(world, s, change, at), times + One(change.candidate.entry.path, p), number + 1, p)
  {
    var t, path := PlaceOne(world, s, change, at), change.candidate.entry.path;
    PlaceOneCases(world, s, change, at);
    if t.records == s.records && t.log != s.log {
      var reason :| t.log == s.log + [Omission(reason, path)];
      OneMorePath(s.log, Omission(reason, path), p);
    } else {
      OneMoreCandidate(s.records, change.candidate, p);
    }
  }

  lemma {:induction false} PlaceConserves(world: World, changed: seq<Change>, p: Path)
    ensures PlacedBalance(Place(world, changed), InChanges(changed, p), |changed|, p)
  {
    if changed != [] {
      var n := |changed| - 1;
      PlaceConserves(world, changed[..n], p);
      PlaceOneConserves(world, Place(world, changed[..n]), changed[n], n, InChanges(changed[..n], p), n, p);
    }
  }

  lemma {:induction false} InspectedPaths(world: World, paths: seq<Path>, p: Path)
    ensures InLog(Inspected(world, paths), p) == InPaths(paths, p)
  {
    if paths != [] {
      var init, last := paths[..|paths| - 1], paths[|paths| - 1];
      InspectedPaths(world, init, p);
      assert Inspected(world, paths) == Inspected(world, init) + [Omission(world.inspect(last), last)];
      OneMorePath(Inspected(world, init), Omission(world.inspect(last), last), p);
    }
  }

  /** Nothing is lost between what was suspected and what was recorded. */
  lemma SuspectsAreAccountedFor(world: World, budgets: Budgets, suspects: seq<Suspect>, p: Path)
    requires |suspects| == |world.answers|
    ensures var weighed := Weigh(world, budgets, suspects);
            var placed := Place(world, weighed.changed);
            && InSuspects(suspects, p) == InCandidates(placed.records, p) + InLog(weighed.log, p) + InLog(placed.log, p)
            && |suspects| == |placed.records| + |weighed.log| + |placed.log|
  {
    WeighConserves(world, budgets, suspects, |suspects|, p);
    assert suspects[..|suspects|] == suspects;
    PlaceConserves(world, Weigh(world, budgets, suspects).changed, p);
  }

  /**
    Every eligible path and every unmerged one is, as often as it is listed, unchanged, left out for a reason, or in the
    private index; and so the numbers agree.
  */
  lemma EveryPathIsAccountedFor(rules: Rules, world: World, budgets: Budgets, entries: seq<IndexEntry>, sorted: seq<Path>, p: Path)
    requires Cover(rules, world, budgets, entries, sorted).Success?
    ensures var r, unmerged := Cover(rules, world, budgets, entries, sorted).value, UnmergedOf(entries);
            && InEligible(entries, unmerged, p) + InPaths(sorted, p)
               == InCandidates(r.same, p) + InLog(r.log, p) + InCandidates(r.records, p)
            && EligibleNumber(entries, unmerged) + |sorted| == |r.same| + |r.log| + |r.records|
  {
    var admitted := Admitted(rules, UnmergedOf(entries), entries);
    var examined := Examine(world, budgets, admitted.kept);
    var inspected := Inspected(world, sorted);
    AdmittedConserves(rules, UnmergedOf(entries), entries, p);
    ExamineConserves(world, budgets, admitted.kept, p);
    InspectedPaths(world, sorted, p);
    var log := admitted.log + inspected + examined.log;
    InBoth(admitted.log, inspected, p);
    InBoth(admitted.log + inspected, examined.log, p);
    if examined.suspects != [] {
      var weighed := Weigh(world, budgets, examined.suspects);
      var placed := Place(world, weighed.changed);
      SuspectsAreAccountedFor(world, budgets, examined.suspects, p);
      InBoth(log, weighed.log, p);
      InBoth(log + weighed.log, placed.log, p);
    }
  }

  // ---- the budget -----------------------------------------------------------------------------------------------------

  function BytesOf(changed: seq<Change>): nat {
    if changed == [] then 0
    else
      var last := changed[|changed| - 1];
      BytesOf(changed[..|changed| - 1]) + last.oldSize + NewSize(last.seen)
  }

  /** The walker reads a file within the limit it is given, or refuses it. */
  ghost predicate ReadsWithin(world: World) {
    forall at, limit :: world.observe(at, limit).File? ==> |world.observe(at, limit).data| <= limit
  }

  ghost predicate EachWithin(budgets: Budgets, changed: seq<Change>) {
    forall k :: 0 <= k < |changed| ==>
      changed[k].oldSize <= budgets.maxFileBytes && (changed[k].seen.File? ==> NewSize(changed[k].seen) <= budgets.maxFileBytes)
  }

  lemma BytesGrow(changed: seq<Change>, c: Change)
    ensures BytesOf(changed + [c]) == BytesOf(changed) + c.oldSize + NewSize(c.seen)
  {
    assert (changed + [c])[..|changed|] == changed;
  }

  ghost predicate Affordable(budgets: Budgets, s: Weighed) {
    s.total == BytesOf(s.changed) <= budgets.maxTotalBytes && EachWithin(budgets, s.changed)
  }

  lemma VerdictIsAffordable(world: World, budgets: Budgets, total: nat, suspect: Suspect, answer: Answer, at: nat)
    requires ReadsWithin(world)
    ensures var v := Verdict(world, budgets, total, suspect, answer, at);
            v.Success? ==>
              && total + v.value.oldSize + NewSize(v.value.seen) <= budgets.maxTotalBytes
              && EachWithin(budgets, [v.value])
  {
  }

  lemma SettledIsAffordable(budgets: Budgets, s: Weighed, verdict: Result<Change, Reason>, path: Path)
    requires Affordable(budgets, s)
    requires verdict.Success? ==>
               && s.total + verdict.value.oldSize + NewSize(verdict.value.seen) <= budgets.maxTotalBytes
               && EachWithin(budgets, [verdict.value])
    ensures Affordable(budgets, Settle(s, verdict, path))
  {
    if verdict.Success? {
      BytesGrow(s.changed, verdict.value);
      assert [verdict.value][0] == verdict.value;
    }
  }

  lemma OneStaysAffordable(world: World, budgets: Budgets, s: Weighed, suspect: Suspect, answer: Answer, at: nat)
    requires ReadsWithin(world) && Affordable(budgets, s)
    ensures Affordable(budgets, WeighOne(world, budgets, s, suspect, answer, at))
  {
    VerdictIsAffordable(world, budgets, s.total, suspect, answer, at);
    SettledIsAffordable(budgets, s, Verdict(world, budgets, s.total, suspect, answer, at), suspect.candidate.entry.path);
  }

  /** What is compared never exceeds the budget, old and new bytes together, nor any file its own limit. */
  lemma WithinBudget(world: World, budgets: Budgets, suspects: seq<Suspect>, n: nat)
    requires n <= |suspects| == |world.answers| && ReadsWithin(world)
    ensures Affordable(budgets, WeighFirst(world, budgets, suspects, n))
  {
    for k := 0 to n
      invariant Affordable(budgets, WeighFirst(world, budgets, suspects, k))
    {
      var before := WeighFirst(world, budgets, suspects, k);
      WeighsNext(world, budgets, suspects, k, before);
      OneStaysAffordable(world, budgets, before, suspects[k], world.answers[k], k);
    }
  }

  // ---- no path below another ----------------------------------------------------------------------------------------

  /** The order of bytes. */
  predicate Before(a: string, b: string) {
    b != [] && (a == [] || a[0] < b[0] || (a[0] == b[0] && Before(a[1..], b[1..])))
  }

  /** The index lists paths in byte order, and one path by its stages. */
  predicate IndexOrder(entries: seq<IndexEntry>) {
    forall i, j :: 0 <= i < j < |entries| ==>
      Before(entries[i].path, entries[j].path) || (entries[i].path == entries[j].path && entries[i].stage < entries[j].stage)
  }

  lemma {:induction false} BeforeIsOneWay(a: string, b: string)
    requires Before(a, b)
    ensures !Before(b, a) && a != b
    decreases |a|
  {
    if a != [] && a[0] == b[0] {
      BeforeIsOneWay(a[1..], b[1..]);
    }
  }

  lemma {:induction false} PrefixIsBefore(a: string, b: string)
    requires a <= b && |a| < |b|
    ensures Before(a, b)
    decreases |a|
  {
    if a != [] {
      assert a[1..] <= b[1..];
      PrefixIsBefore(a[1..], b[1..]);
    }
  }

  function Join(parts: seq<string>): string
    requires parts != []
  {
    if |parts| == 1 then parts[0] else parts[0] + (['/'] + Join(parts[1..]))
  }

  lemma {:induction false} JoinSplit(path: string)
    ensures Join(SplitSlash(path)) == path
    decreases |path|
  {
    if path != "" {
      var rest := SplitSlash(path[1..]);
      JoinSplit(path[1..]);
      if path[0] == '/' {
        assert ([""] + rest)[1..] == rest;
        assert path == "" + (['/'] + path[1..]);
      } else {
        var parts := [[path[0]] + rest[0]] + rest[1..];
        assert parts[1..] == rest[1..];
        assert path == [path[0]] + path[1..];
        if |rest| > 1 {
          assert [path[0]] + (rest[0] + (['/'] + Join(rest[1..]))) == ([path[0]] + rest[0]) + (['/'] + Join(rest[1..]));
        }
      }
    }
  }

  lemma {:induction false} JoinPrefix(a: seq<string>, b: seq<string>)
    requires a != [] && a <= b && |a| < |b|
    ensures Join(a) + ['/'] <= Join(b)
    decreases |a|
  {
    if |a| == 1 {
      assert Join(b) == (a[0] + ['/']) + Join(b[1..]);
    } else {
      assert a[1..] <= b[1..];
      JoinPrefix(a[1..], b[1..]);
      var rest := Join(b[1..])[|Join(a[1..])| + 1..];
      assert Join(b[1..]) == Join(a[1..]) + ['/'] + rest;
      assert Join(b) == (a[0] + (['/'] + Join(a[1..]))) + ['/'] + rest;
    }
  }

  /** A path comes behind every path it lies below. */
  lemma AboveComesFirst(above: string, path: string)
    requires Beneath(SplitSlash(path), SplitSlash(above))
    ensures Before(above, path)
  {
    JoinSplit(above);
    JoinSplit(path);
    JoinPrefix(SplitSlash(above), SplitSlash(path));
    assert above <= above + ['/'];
    PrefixIsBefore(above, path);
  }

  /** Candidates as an index in order gives them. */
  ghost predicate InOrder(cs: seq<Candidate>) {
    && (forall k :: 0 <= k < |cs| ==> cs[k].parts == SplitSlash(cs[k].entry.path))
    && forall i, j :: 0 <= i < j < |cs| ==> Before(cs[i].entry.path, cs[j].entry.path)
  }

  function Candidates(changed: seq<Change>): (cs: seq<Candidate>)
    ensures |cs| == |changed| && forall k :: 0 <= k < |changed| ==> cs[k] == changed[k].candidate
  {
    seq(|changed|, k requires 0 <= k < |changed| => changed[k].candidate)
  }

  function SuspectCandidates(suspects: seq<Suspect>): (cs: seq<Candidate>)
    ensures |cs| == |suspects| && forall k :: 0 <= k < |suspects| ==> cs[k] == suspects[k].candidate
  {
    seq(|suspects|, k requires 0 <= k < |suspects| => suspects[k].candidate)
  }

  /** `part` is part of `whole`, in its order. */
  ghost predicate Within(part: seq<Candidate>, whole: seq<Candidate>) {
    exists at: seq<int> :: Picks(part, whole, at)
  }

  ghost predicate Picks(part: seq<Candidate>, whole: seq<Candidate>, at: seq<int>) {
    && |at| == |part| && (forall k :: 0 <= k < |at| ==> 0 <= at[k] < |whole| && part[k] == whole[at[k]])
    && forall i, j :: 0 <= i < j < |at| ==> at[i] < at[j]
  }

  /** No candidate lies below one that comes after it. */
  ghost predicate AboveFirst(cs: seq<Candidate>) {
    forall i, j :: 0 <= i < j < |cs| ==> !Beneath(cs[i].parts, cs[j].parts)
  }

  lemma PartIsAboveFirst(part: seq<Candidate>, whole: seq<Candidate>)
    requires Within(part, whole) && AboveFirst(whole)
    ensures AboveFirst(part)
  {
    var at :| Picks(part, whole, at);
    forall i, j | 0 <= i < j < |part|
      ensures !Beneath(part[i].parts, part[j].parts)
    {
      assert at[i] < at[j];
    }
  }

  lemma PickOn(part: seq<Candidate>, whole: seq<Candidate>, c: Candidate)
    requires Within(part, whole)
    ensures Within(part, whole + [c]) && Within(part + [c], whole + [c])
  {
    var at :| Picks(part, whole, at);
    assert Picks(part, whole + [c], at);
    assert Picks(part + [c], whole + [c], at + [|whole|]);
  }

  lemma NothingIsWithin()
    ensures Within([], [])
  {
    assert Picks([], [], []);
  }

  lemma {:induction false} SuspectsAreWithin(world: World, budgets: Budgets, admitted: seq<Candidate>)
    ensures Within(SuspectCandidates(Examine(world, budgets, admitted).suspects), admitted)
  {
    if admitted == [] {
      NothingIsWithin();
      assert SuspectCandidates([]) == [];
    } else {
      var n := |admitted| - 1;
      SuspectsAreWithin(world, budgets, admitted[..n]);
      var before := Examine(world, budgets, admitted[..n]);
      assert admitted == admitted[..n] + [admitted[n]];
      PickOn(SuspectCandidates(before.suspects), admitted[..n], admitted[n]);
      var after := Examine(world, budgets, admitted);
      assert SuspectCandidates(after.suspects) == SuspectCandidates(before.suspects)
          || SuspectCandidates(after.suspects) == SuspectCandidates(before.suspects) + [admitted[n]];
    }
  }

  lemma {:induction false} ChangesAreWithin(world: World, budgets: Budgets, suspects: seq<Suspect>, n: nat)
    requires n <= |suspects| == |world.answers|
    ensures Within(Candidates(WeighFirst(world, budgets, suspects, n).changed), SuspectCandidates(suspects[..n]))
  {
    if n == 0 {
      NothingIsWithin();
      assert Candidates([]) == [] && SuspectCandidates(suspects[..0]) == [];
    } else {
      ChangesAreWithin(world, budgets, suspects, n - 1);
      var before, last := WeighFirst(world, budgets, suspects, n - 1), suspects[n - 1];
      WeighOneCases(world, budgets, before, last, world.answers[n - 1], n - 1);
      var after := WeighFirst(world, budgets, suspects, n);
      assert SuspectCandidates(suspects[..n]) == SuspectCandidates(suspects[..n - 1]) + [last.candidate];
      PickOn(Candidates(before.changed), SuspectCandidates(suspects[..n - 1]), last.candidate);
      assert Candidates(after.changed) == Candidates(before.changed)
          || Candidates(after.changed) == Candidates(before.changed) + [last.candidate];
    }
  }

  /** No placed path lies below another one. */
  ghost predicate NoneBelow(records: seq<Candidate>) {
    forall i, j :: 0 <= i < |records| && 0 <= j < |records| ==> !Beneath(records[i].parts, records[j].parts)
  }

  lemma {:induction false} PlacedAreApart(world: World, changed: seq<Change>)
    requires AboveFirst(Candidates(changed))
    ensures NoneBelow(Place(world, changed).records)
  {
    if changed != [] {
      var n := |changed| - 1;
      var all := Candidates(changed);
      assert Candidates(changed[..n]) == all[..n] && all == all[..n] + [changed[n].candidate];
      PlacedAreApart(world, changed[..n]);
      RecordsAreWithin(world, changed[..n]);
      var before := Place(world, changed[..n]);
      if Place(world, changed).records != before.records {
        LastIsApart(before.records, all[..n], changed[n].candidate);
      }
    }
  }

  /** A path that comes behind the placed ones, and lies below none of them, has none of them below it. */
  lemma LastIsApart(records: seq<Candidate>, before: seq<Candidate>, c: Candidate)
    requires NoneBelow(records) && Within(records, before) && AboveFirst(before + [c]) && !BelowPlaced(records, c.parts)
    ensures NoneBelow(records + [c])
  {
    PickOn(records, before, c);
    PartIsAboveFirst(records + [c], before + [c]);
    var all := records + [c];
    forall i, j | 0 <= i < |all| && 0 <= j < |all|
      ensures !Beneath(all[i].parts, all[j].parts)
    {
      if i == |records| && j < |records| {
        assert !Beneath(c.parts, records[j].parts);
      }
    }
  }

  lemma OneMoreInOrder(cs: seq<Candidate>, e: IndexEntry)
    requires InOrder(cs) && forall k :: 0 <= k < |cs| ==> Before(cs[k].entry.path, e.path)
    ensures InOrder(cs + [CandidateOf(e)])
  {
  }

  ghost predicate IsFrom(c: Candidate, entries: seq<IndexEntry>, unmerged: set<Path>) {
    exists i :: 0 <= i < |entries| && c.entry == entries[i] && Eligible(entries[i], unmerged)
  }

  lemma {:induction false} AdmittedAreEligible(rules: Rules, unmerged: set<Path>, entries: seq<IndexEntry>, k: nat)
    requires k < |Admitted(rules, unmerged, entries).kept|
    ensures IsFrom(Admitted(rules, unmerged, entries).kept[k], entries, unmerged)
  {
    var init, e := entries[..|entries| - 1], entries[|entries| - 1];
    var before := Admitted(rules, unmerged, init).kept;
    if k < |before| {
      AdmittedAreEligible(rules, unmerged, init, k);
      var i :| 0 <= i < |init| && before[k].entry == init[i] && Eligible(init[i], unmerged);
      assert entries[i] == init[i];
    } else {
      assert entries[|entries| - 1] == e;
    }
  }

  /** Of two eligible entries the one listed first comes first by its path. */
  lemma EligibleInOrder(entries: seq<IndexEntry>, unmerged: set<Path>, c: Candidate)
    requires IndexOrder(entries) && entries != []
    requires IsFrom(c, entries[..|entries| - 1], unmerged) && Eligible(entries[|entries| - 1], unmerged)
    ensures Before(c.entry.path, entries[|entries| - 1].path)
  {
    var init := entries[..|entries| - 1];
    var i :| 0 <= i < |init| && c.entry == init[i] && Eligible(init[i], unmerged);
    assert entries[i] == init[i] && i < |entries| - 1;
  }

  lemma {:induction false} AdmittedAreInOrder(rules: Rules, unmerged: set<Path>, entries: seq<IndexEntry>)
    requires IndexOrder(entries)
    ensures InOrder(Admitted(rules, unmerged, entries).kept)
  {
    if entries != [] {
      var init, e := entries[..|entries| - 1], entries[|entries| - 1];
      AdmittedAreInOrder(rules, unmerged, init);
      var before := Admitted(rules, unmerged, init).kept;
      if Admitted(rules, unmerged, entries).kept != before {
        forall k | 0 <= k < |before|
          ensures Before(before[k].entry.path, e.path)
        {
          AdmittedAreEligible(rules, unmerged, init, k);
          EligibleInOrder(entries, unmerged, before[k]);
        }
        OneMoreInOrder(before, e);
      }
    }
  }

  /** What is placed are changed ones of the suspects, and those are admitted ones, all in their order. */
  lemma ChangesAreAdmitted(rules: Rules, world: World, budgets: Budgets, entries: seq<IndexEntry>)
    ensures var suspects := Examine(world, budgets, Admitted(rules, UnmergedOf(entries), entries).kept).suspects;
            && Within(SuspectCandidates(suspects), Admitted(rules, UnmergedOf(entries), entries).kept)
            && (|suspects| == |world.answers| ==>
                  Within(Candidates(Weigh(world, budgets, suspects).changed), SuspectCandidates(suspects)))
  {
    var admitted := Admitted(rules, UnmergedOf(entries), entries).kept;
    var suspects := Examine(world, budgets, admitted).suspects;
    SuspectsAreWithin(world, budgets, admitted);
    if |suspects| == |world.answers| {
      ChangesAreWithin(world, budgets, suspects, |suspects|);
      assert suspects[..|suspects|] == suspects;
    }
  }

  /** Of the records of a diff that succeeds, none lies below another. */
  ghost predicate StaysFlat(rules: Rules, world: World, budgets: Budgets, entries: seq<IndexEntry>, sorted: seq<Path>) {
    var r := Cover(rules, world, budgets, entries, sorted);
    r.Success? ==> NoneBelow(r.value.records)
  }

  lemma AboveFirstStaysFlat(rules: Rules, world: World, budgets: Budgets, entries: seq<IndexEntry>, sorted: seq<Path>)
    requires AboveFirst(Admitted(rules, UnmergedOf(entries), entries).kept)
    ensures StaysFlat(rules, world, budgets, entries, sorted)
  {
    var admitted := Admitted(rules, UnmergedOf(entries), entries).kept;
    var suspects := Examine(world, budgets, admitted).suspects;
    if |suspects| == |world.answers| {
      ChangesAreAdmitted(rules, world, budgets, entries);
      PartIsAboveFirst(SuspectCandidates(suspects), admitted);
      var changed := Weigh(world, budgets, suspects).changed;
      PartIsAboveFirst(Candidates(changed), SuspectCandidates(suspects));
      PlacedAreApart(world, changed);
    }
  }

  lemma OrderPutsAboveFirst(cs: seq<Candidate>)
    requires InOrder(cs)
    ensures AboveFirst(cs)
  {
    forall i, j | 0 <= i < j < |cs|
      ensures !Beneath(cs[i].parts, cs[j].parts)
    {
      if Beneath(cs[i].parts, cs[j].parts) {
        AboveComesFirst(cs[j].entry.path, cs[i].entry.path);
        BeforeIsOneWay(cs[j].entry.path, cs[i].entry.path);
      }
    }
  }

  /** With the listing in index order, no recorded path lies below another. */
  lemma NoPathBelowAnother(rules: Rules, world: World, budgets: Budgets, entries: seq<IndexEntry>, sorted: seq<Path>)
    requires IndexOrder(entries) && Cover(rules, world, budgets, entries, sorted).Success?
    ensures NoneBelow(Cover(rules, world, budgets, entries, sorted).value.records)
  {
    AdmittedAreInOrder(rules, UnmergedOf(entries), entries);
    OrderPutsAboveFirst(Admitted(rules, UnmergedOf(entries), entries).kept);
    AboveFirstStaysFlat(rules, world, budgets, entries, sorted);
  }

  // ---- exactly when no record lies below another ----------------------------------------------------------------------

  lemma {:induction false} SuspectsAreFew(world: World, budgets: Budgets, admitted: seq<Candidate>)
    ensures var s := Examine(world, budgets, admitted);
            |s.suspects| <= s.examined && |s.suspects| <= budgets.maxCandidates
  {
    if admitted != [] {
      SuspectsAreFew(world, budgets, admitted[..|admitted| - 1]);
    }
  }

  lemma {:induction false} RisingFits(at: seq<int>, n: nat)
    requires forall k :: 0 <= k < |at| ==> 0 <= at[k] < n
    requires forall i, j :: 0 <= i < j < |at| ==> at[i] < at[j]
    ensures |at| <= n
    decreases |at|
  {
    if at != [] {
      RisingFits(at[..|at| - 1], at[|at| - 1]);
    }
  }

  lemma PartIsShorter(part: seq<Candidate>, whole: seq<Candidate>)
    requires Within(part, whole)
    ensures |part| <= |whole|
  {
    var at :| Picks(part, whole, at);
    RisingFits(at, |whole|);
  }

  lemma OneCandidateStaysFlat(rules: Rules, world: World, budgets: Budgets, entries: seq<IndexEntry>, sorted: seq<Path>)
    requires budgets.maxCandidates < 2
    ensures StaysFlat(rules, world, budgets, entries, sorted)
  {
    var suspects := Examine(world, budgets, Admitted(rules, UnmergedOf(entries), entries).kept).suspects;
    SuspectsAreFew(world, budgets, Admitted(rules, UnmergedOf(entries), entries).kept);
    if |suspects| == |world.answers| {
      ChangesAreAdmitted(rules, world, budgets, entries);
      var changed := Weigh(world, budgets, suspects).changed;
      PartIsShorter(Candidates(changed), SuspectCandidates(suspects));
      RecordsAreWithin(world, changed);
      PartIsShorter(Place(world, changed).records, Candidates(changed));
    }
  }

  const EMPTY_FILE := Info(false, 0)

  /**
    A worktree in which the path at `i` is gone, an empty file stands at the path at `j`, and the rest is as the index
    has it.
  */
  function Turned(i: nat, j: nat): World {
    World(
      _ => Unmerged,
      n => if n == i then Nothing else if n == j then Found(EMPTY_FILE) else Found(Info(false, 1)),
      (_, info) => info != EMPTY_FILE,
      [Blob(0), Blob(0)],
      (at, _) => if at == 0 then Absent else File(false, []),
      _ => Written)
  }

  lemma {:induction false} TurnedSuspects(budgets: Budgets, admitted: seq<Candidate>, i: nat, j: nat)
    requires i < j && budgets.maxCandidates >= 2
    ensures var s := Examine(Turned(i, j), budgets, admitted);
            && s.examined == |s.suspects|
            && s.suspects == (if i < |admitted| then [Suspect(admitted[i], None)] else [])
                             + (if j < |admitted| then [Suspect(admitted[j], Some(EMPTY_FILE))] else [])
  {
    if admitted != [] {
      TurnedSuspects(budgets, admitted[..|admitted| - 1], i, j);
    }
  }

  lemma TurnedChanges(budgets: Budgets, i: nat, j: nat, a: Candidate, b: Candidate)
    ensures Weigh(Turned(i, j), budgets, [Suspect(a, None), Suspect(b, Some(EMPTY_FILE))]).changed
         == [Change(a, 0, Absent), Change(b, 0, File(false, []))]
  {
    var world, suspects := Turned(i, j), [Suspect(a, None), Suspect(b, Some(EMPTY_FILE))];
    NextWeighed(world, budgets, suspects, 0);
    NextWeighed(world, budgets, suspects, 1);
    assert WeighFirst(world, budgets, suspects, 0) == Weighed([], [], 0);
    assert WeighFirst(world, budgets, suspects, 1) == Weighed([Change(a, 0, Absent)], [], 0);
  }

  lemma TurnedRecords(i: nat, j: nat, a: Candidate, b: Candidate)
    requires Beneath(a.parts, b.parts)
    ensures !NoneBelow(Place(Turned(i, j), [Change(a, 0, Absent), Change(b, 0, File(false, []))]).records)
  {
    var first, second := Change(a, 0, Absent), Change(b, 0, File(false, []));
    assert [first, second][..1] == [first] && [first][..0] == [];
    assert Place(Turned(i, j), [first]).records == [a];
    var records := Place(Turned(i, j), [first, second]).records;
    assert records == [a, b];
    assert Beneath(records[0].parts, records[1].parts);
  }

  /** Where an admitted path is listed before one that it lies below, some worktree has both recorded. */
  lemma TurnedNests(rules: Rules, budgets: Budgets, entries: seq<IndexEntry>, sorted: seq<Path>, i: nat, j: nat)
    requires |entries| <= budgets.maxEntries && budgets.maxCandidates >= 2
    requires i < j < |Admitted(rules, UnmergedOf(entries), entries).kept|
    requires var kept := Admitted(rules, UnmergedOf(entries), entries).kept; Beneath(kept[i].parts, kept[j].parts)
    ensures Cover(rules, Turned(i, j), budgets, entries, sorted).Success?
    ensures !StaysFlat(rules, Turned(i, j), budgets, entries, sorted)
  {
    var kept := Admitted(rules, UnmergedOf(entries), entries).kept;
    TurnedSuspects(budgets, kept, i, j);
    assert Examine(Turned(i, j), budgets, kept).suspects == [Suspect(kept[i], None), Suspect(kept[j], Some(EMPTY_FILE))];
    TurnedChanges(budgets, i, j, kept[i], kept[j]);
    TurnedRecords(i, j, kept[i], kept[j]);
  }

  /**
    Whatever the worktree is like, no recorded path lies below another: exactly if there are too many entries, or fewer
    than two may be looked into, or no admitted path is listed before one that it lies below.
  */
  lemma StaysFlatExactly(rules: Rules, budgets: Budgets, entries: seq<IndexEntry>)
    ensures (forall world, sorted :: StaysFlat(rules, world, budgets, entries, sorted))
       <==> |entries| > budgets.maxEntries || budgets.maxCandidates < 2
            || AboveFirst(Admitted(rules, UnmergedOf(entries), entries).kept)
  {
    var kept := Admitted(rules, UnmergedOf(entries), entries).kept;
    if budgets.maxCandidates < 2 {
      forall world, sorted
        ensures StaysFlat(rules, world, budgets, entries, sorted)
      {
        OneCandidateStaysFlat(rules, world, budgets, entries, sorted);
      }
    } else if AboveFirst(kept) {
      forall world, sorted
        ensures StaysFlat(rules, world, budgets, entries, sorted)
      {
        AboveFirstStaysFlat(rules, world, budgets, entries, sorted);
      }
    } else if |entries| <= budgets.maxEntries {
      var i, j :| 0 <= i < j < |kept| && Beneath(kept[i].parts, kept[j].parts);
      TurnedNests(rules, budgets, entries, [], i, j);
    }
  }

  lemma SplitAB()
    ensures SplitSlash("a/b") == ["a", "b"] && SplitSlash("a") == ["a"]
  {
    var none: seq<string> := [""];
    assert "b"[1..] == "" && "a"[1..] == "" && none[1..] == [] && SplitSlash("") == none;
    assert ['b'] + "" == "b" && ['a'] + "" == "a";
    assert SplitSlash("b") == ["b"] && SplitSlash("a") == ["a"];
    assert "/b"[1..] == "b" && "a/b"[1..] == "/b";
    assert SplitSlash("/b") == [""] + ["b"];
    assert SplitSlash("a/b") == [['a'] + ""] + ["", "b"][1..];
  }

  function PlainFile(path: Path): IndexEntry {
    IndexEntry(MODE_FILE, "", 0, path, (0, 0), (0, 0), 0, 0, 0, 0, 0, 0)
  }

  const NO_RULES := Rules(_ => false, _ => false, _ => true)

  lemma PlainIsAdmitted(path: Path)
    requires forall k :: 0 <= k < |SplitSlash(path)| ==> SplitSlash(path)[k] == "a" || SplitSlash(path)[k] == "b"
    ensures Eligible(PlainFile(path), {}) && Refusal(NO_RULES, PlainFile(path)).None?
  {
    assert !AnyPart(SplitSlash(path), NO_RULES.denied) && !Unsafe(NO_RULES, SplitSlash(path));
  }

  /** A listing out of order: `a/b` was deleted, and an empty file stands at `a`. Both are recorded. */
  lemma OutOfOrderMayNest(budgets: Budgets)
    requires budgets.maxEntries >= 2 && budgets.maxCandidates >= 2
    ensures var r := Cover(NO_RULES, Turned(0, 1), budgets, [PlainFile("a/b"), PlainFile("a")], []);
            r.Success? && !NoneBelow(r.value.records)
  {
    var below, above := PlainFile("a/b"), PlainFile("a");
    var entries := [below, above];
    SplitAB();
    PlainIsAdmitted("a/b");
    PlainIsAdmitted("a");
    assert UnmergedOf(entries) == {};
    assert entries[..1] == [below] && [below][..0] == [];
    assert Admitted(NO_RULES, {}, [below]).kept == [CandidateOf(below)];
    assert Admitted(NO_RULES, {}, entries).kept == [CandidateOf(below), CandidateOf(above)];
    TurnedNests(NO_RULES, budgets, entries, [], 0, 1);
  }

  // ---- what is compared is admitted -----------------------------------------------------------------------------------

  /** An entry that Git compares and that no rule refuses. */
  ghost predicate IsAdmitted(rules: Rules, unmerged: set<Path>, c: Candidate) {
    Eligible(c.entry, unmerged) && Refusal(rules, c.entry).None? && c == CandidateOf(c.entry)
  }

  ghost predicate AllAdmitted(rules: Rules, unmerged: set<Path>, cs: seq<Candidate>) {
    forall k :: 0 <= k < |cs| ==> IsAdmitted(rules, unmerged, cs[k])
  }

  lemma {:induction false} KeptAreAdmitted(rules: Rules, unmerged: set<Path>, entries: seq<IndexEntry>)
    ensures AllAdmitted(rules, unmerged, Admitted(rules, unmerged, entries).kept)
  {
    if entries != [] {
      KeptAreAdmitted(rules, unmerged, entries[..|entries| - 1]);
    }
  }

  lemma {:induction false} SuspectsAreAdmitted(rules: Rules, unmerged: set<Path>, world: World, budgets: Budgets, admitted: seq<Candidate>)
    requires AllAdmitted(rules, unmerged, admitted)
    ensures AllAdmitted(rules, unmerged, SuspectCandidates(Examine(world, budgets, admitted).suspects))
  {
    SuspectsAreWithin(world, budgets, admitted);
    PartIsAdmitted(rules, unmerged, SuspectCandidates(Examine(world, budgets, admitted).suspects), admitted);
  }

  lemma PartIsAdmitted(rules: Rules, unmerged: set<Path>, part: seq<Candidate>, whole: seq<Candidate>)
    requires Within(part, whole) && AllAdmitted(rules, unmerged, whole)
    ensures AllAdmitted(rules, unmerged, part)
  {
    var at :| Picks(part, whole, at);
  }

  lemma {:induction false} RecordsAreWithin(world: World, changed: seq<Change>)
    ensures Within(Place(world, changed).records, Candidates(changed))
  {
    if changed == [] {
      NothingIsWithin();
      assert Candidates(changed) == [];
    } else {
      var n := |changed| - 1;
      RecordsAreWithin(world, changed[..n]);
      assert Candidates(changed) == Candidates(changed[..n]) + [changed[n].candidate];
      PickOn(Place(world, changed[..n]).records, Candidates(changed[..n]), changed[n].candidate);
    }
  }

  /** Nothing that a rule refuses is ever changed or recorded, and the changed set stays within the budget. */
  lemma OnlyAdmittedWithinBudget(rules: Rules, world: World, budgets: Budgets, entries: seq<IndexEntry>, sorted: seq<Path>)
    requires Cover(rules, world, budgets, entries, sorted).Success? && ReadsWithin(world)
    ensures var r, unmerged := Cover(rules, world, budgets, entries, sorted).value, UnmergedOf(entries);
            && AllAdmitted(rules, unmerged, Candidates(r.changed)) && AllAdmitted(rules, unmerged, r.records)
            && Affordable(budgets, Weighed(r.changed, [], r.total))
  {
    var unmerged := UnmergedOf(entries);
    var admitted := Admitted(rules, unmerged, entries).kept;
    var suspects := Examine(world, budgets, admitted).suspects;
    if suspects != [] {
      var n := |suspects|;
      KeptAreAdmitted(rules, unmerged, entries);
      SuspectsAreAdmitted(rules, unmerged, world, budgets, admitted);
      ChangesAreWithin(world, budgets, suspects, n);
      assert suspects[..n] == suspects;
      var changed := Weigh(world, budgets, suspects).changed;
      PartIsAdmitted(rules, unmerged, Candidates(changed), SuspectCandidates(suspects));
      RecordsAreWithin(world, changed);
      PartIsAdmitted(rules, unmerged, Place(world, changed).records, Candidates(changed));
      WithinBudget(world, budgets, suspects, n);
    }
  }

  function ElementsOf(paths: seq<Path>): set<Path> {
    set k | 0 <= k < |paths| :: paths[k]
  }

  /** `sorted` lists the set, each of its paths once. */
  ghost predicate Lists(sorted: seq<Path>, paths: set<Path>) {
    ElementsOf(sorted) == paths && forall i, j :: 0 <= i < j < |sorted| ==> sorted[i] != sorted[j]
  }

  lemma {:induction false} NumberListed(sorted: seq<Path>, paths: set<Path>)
    requires Lists(sorted, paths)
    ensures |sorted| == |paths|
  {
    if sorted != [] {
      var init, last := sorted[..|sorted| - 1], sorted[|sorted| - 1];
      assert last !in ElementsOf(init);
      assert paths == ElementsOf(init) + {last};
      NumberListed(init, ElementsOf(init));
    }
  }

  /** The numbers a reader of the report can add up: eligible entries and unmerged paths on one side, and what became of them. */
  lemma NumbersAgree(rules: Rules, world: World, budgets: Budgets, entries: seq<IndexEntry>, sorted: seq<Path>)
    requires Cover(rules, world, budgets, entries, sorted).Success? && Lists(sorted, UnmergedOf(entries))
    ensures var r, unmerged := Cover(rules, world, budgets, entries, sorted).value, UnmergedOf(entries);
            EligibleNumber(entries, unmerged) + |unmerged| == |r.same| + |ReasonsOf(r.log)| + |r.records|
  {
    EveryPathIsAccountedFor(rules, world, budgets, entries, sorted, "");
    NumberListed(sorted, UnmergedOf(entries));
  }

  // ---- the pipeline ---------------------------------------------------------------------------------------------------

  /** One more omission, behind those of this stage. */
  method LeaveOut(omissions: Omissions, reason: Reason, path: Path, ghost first: seq<Omission>, ghost log: seq<Omission>)
    returns (ghost more: seq<Omission>)
    requires omissions.Valid() && omissions.log == first + log
    modifies omissions
    ensures omissions.Valid() && more == log + [Omission(reason, path)] && omissions.log == first + more
  {
    omissions.Add(reason, path);
    more := log + [Omission(reason, path)];
    assert first + log + [Omission(reason, path)] == first + more;
  }

  method AdmitOne(rules: Rules, unmerged: set<Path>, e: IndexEntry, kept: seq<Candidate>, omissions: Omissions,
                  ghost first: seq<Omission>, ghost log: seq<Omission>)
    returns (admitted: seq<Candidate>, ghost logged: seq<Omission>)
    requires omissions.Valid() && omissions.log == first + log
    modifies omissions
    ensures omissions.Valid() && omissions.log == first + logged
    ensures Sorted(admitted, logged) ==
              if !Eligible(e, unmerged) then Sorted(kept, log)
              else if Refusal(rules, e).Some? then Omit(Sorted(kept, log), Refusal(rules, e).value, e.path)
              else Keep(Sorted(kept, log), CandidateOf(e))
  {
    admitted, logged := kept, log;
    if Eligible(e, unmerged) {
      var refusal := Refusal(rules, e);
      if refusal.Some? {
        logged := LeaveOut(omissions, refusal.value, e.path, first, log);
      } else {
        admitted := kept + [CandidateOf(e)];
      }
    }
  }

  method Admit(rules: Rules, unmerged: set<Path>, entries: seq<IndexEntry>, omissions: Omissions) returns (admitted: seq<Candidate>)
    requires omissions.Valid()
    modifies omissions
    ensures omissions.Valid() && admitted == Admitted(rules, unmerged, entries).kept
    ensures omissions.log == old(omissions.log) + Admitted(rules, unmerged, entries).log
  {
    ghost var first, log := omissions.log, [];
    admitted := [];
    for n := 0 to |entries|
      invariant omissions.Valid() && omissions.log == first + log
      invariant Sorted(admitted, log) == Admitted(rules, unmerged, entries[..n])
    {
      assert entries[..n + 1][..n] == entries[..n];
      admitted, log := AdmitOne(rules, unmerged, entries[n], admitted, omissions, first, log);
    }
    assert entries[..|entries|] == entries;
  }

  lemma NextInspected(world: World, sorted: seq<Path>, n: nat)
    requires n < |sorted|
    ensures Inspected(world, sorted[..n + 1]) == Inspected(world, sorted[..n]) + [Omission(world.inspect(sorted[n]), sorted[n])]
  {
  }

  method Inspect(world: World, sorted: seq<Path>, omissions: Omissions)
    requires omissions.Valid()
    modifies omissions
    ensures omissions.Valid() && omissions.log == old(omissions.log) + Inspected(world, sorted)
  {
    ghost var first, log := omissions.log, [];
    for n := 0 to |sorted|
      invariant omissions.Valid() && omissions.log == first + log && log == Inspected(world, sorted[..n])
    {
      NextInspected(world, sorted, n);
      log := LeaveOut(omissions, world.inspect(sorted[n]), sorted[n], first, log);
    }
    assert sorted[..|sorted|] == sorted;
  }

  lemma NextExamined(world: World, budgets: Budgets, admitted: seq<Candidate>, n: nat)
    requires n < |admitted|
    ensures var before := Examine(world, budgets, admitted[..n]);
            var c, look := admitted[n], world.look(n);
            Examine(world, budgets, admitted[..n + 1]) == Sort(before, c, look, Judge(world, budgets, before.examined, c, look))
  {
    assert admitted[..n + 1][..n] == admitted[..n];
  }

  /** Stat only. The entries beyond the number of candidates are left out, never dropped silently. */
  method Suspected(world: World, budgets: Budgets, admitted: seq<Candidate>, omissions: Omissions)
    returns (same: seq<Candidate>, suspects: seq<Suspect>)
    requires omissions.Valid()
    modifies omissions
    ensures var s := Examine(world, budgets, admitted);
            && omissions.Valid() && omissions.log == old(omissions.log) + s.log
            && same == s.same && suspects == s.suspects
  {
    ghost var first, log := omissions.log, [];
    var examined: nat := 0;
    same, suspects := [], [];
    for n := 0 to |admitted|
      invariant omissions.Valid() && omissions.log == first + log
      invariant Examined(same, suspects, log, examined) == Examine(world, budgets, admitted[..n])
    {
      NextExamined(world, budgets, admitted, n);
      var c, look := admitted[n], world.look(n);
      var sight := Judge(world, budgets, examined, c, look);
      if !look.Replaced? && !sight.Unchanged? {
        examined := examined + 1;
      }
      match sight
      case Unchanged => same := same + [c];
      case Doubtful => suspects := suspects + [Suspect(c, InfoOf(look))];
      case LeftOut(reason) =>
        log := LeaveOut(omissions, reason, c.entry.path, first, log);
    }
    assert admitted[..|admitted|] == admitted;
  }

  method ReadOne(world: World, budgets: Budgets, total: nat, suspect: Suspect, answer: Answer, at: nat)
    returns (r: Result<Change, Reason>)
    ensures r == Verdict(world, budgets, total, suspect, answer, at)
  {
    if answer.Missing? {
      return Failure(ObjectMissing);
    }
    if answer.NotABlob? {
      return Failure(UnsupportedEntry);
    }
    if answer.size < 0 || answer.size > budgets.maxFileBytes || total + answer.size > budgets.maxTotalBytes {
      return Failure(OverBudget);
    }
    var limit := Limit(budgets, total, answer.size);
    if limit <= 0 && suspect.info.Some? && !suspect.info.value.isDirectory && suspect.info.value.size > 0 {
      return Failure(OverBudget);
    }
    var seen := world.observe(at, if limit < 0 then 0 else limit);
    if seen.RefusedFor? {
      return Failure(seen.reason);
    }
    if total + answer.size + NewSize(seen) > budgets.maxTotalBytes {
      return Failure(OverBudget);
    }
    r := Success(Change(suspect.candidate, answer.size, seen));
  }

  method SettleOne(omissions: Omissions, verdict: Result<Change, Reason>, path: Path, before: seq<Change>, spent: nat,
                   ghost first: seq<Omission>, ghost log: seq<Omission>)
    returns (changed: seq<Change>, total: nat, ghost logged: seq<Omission>)
    requires omissions.Valid() && omissions.log == first + log
    modifies omissions
    ensures omissions.Valid() && omissions.log == first + logged
    ensures Weighed(changed, logged, total) == Settle(Weighed(before, log, spent), verdict, path)
  {
    changed, total, logged := before, spent, log;
    if verdict.Failure? {
      logged := LeaveOut(omissions, verdict.error, path, first, log);
    } else {
      changed, total := before + [verdict.value], spent + verdict.value.oldSize + NewSize(verdict.value.seen);
    }
  }

  method ReadNext(world: World, budgets: Budgets, suspects: seq<Suspect>, n: nat, before: seq<Change>, spent: nat,
                  omissions: Omissions, ghost first: seq<Omission>, ghost log: seq<Omission>)
    returns (changed: seq<Change>, total: nat, ghost logged: seq<Omission>)
    requires omissions.Valid() && omissions.log == first + log && n < |suspects| == |world.answers|
    requires Weighed(before, log, spent) == WeighFirst(world, budgets, suspects, n)
    modifies omissions
    ensures omissions.Valid() && omissions.log == first + logged
    ensures Weighed(changed, logged, total) == WeighFirst(world, budgets, suspects, n + 1)
  {
    NextWeighed(world, budgets, suspects, n);
    var verdict := ReadOne(world, budgets, spent, suspects[n], world.answers[n], n);
    changed, total, logged := SettleOne(omissions, verdict, suspects[n].candidate.entry.path, before, spent, first, log);
  }

  /** Sizes before contents: nothing beyond the budget is read. */
  method Read(world: World, budgets: Budgets, suspects: seq<Suspect>, omissions: Omissions)
    returns (changed: seq<Change>, total: nat)
    requires omissions.Valid() && |suspects| == |world.answers|
    modifies omissions
    ensures var s := Weigh(world, budgets, suspects);
            omissions.Valid() && omissions.log == old(omissions.log) + s.log && changed == s.changed && total == s.total
  {
    ghost var first, log := omissions.log, [];
    changed, total := [], 0;
    for n := 0 to |suspects|
      invariant omissions.Valid() && omissions.log == first + log
      invariant Weighed(changed, log, total) == WeighFirst(world, budgets, suspects, n)
    {
      changed, total, log := ReadNext(world, budgets, suspects, n, changed, total, omissions, first, log);
    }
  }

  method PutOne(world: World, change: Change, at: nat, records: seq<Candidate>, omissions: Omissions,
                ghost first: seq<Omission>, ghost log: seq<Omission>)
    returns (placed: seq<Candidate>, ghost logged: seq<Omission>)
    requires omissions.Valid() && omissions.log == first + log
    modifies omissions
    ensures omissions.Valid() && omissions.log == first + logged
    ensures Placed(placed, logged) == PlaceOne(world, Placed(records, log), change, at)
  {
    var c := change.candidate;
    placed, logged := records, log;
    if BelowPlaced(records, c.parts) {
      logged := LeaveOut(omissions, PathCollision, c.entry.path, first, log);
    } else if change.seen.Absent? || world.write(at).Written? {
      placed := records + [c];
    } else {
      var reason := if world.write(at).Collided? then PathCollision else UnsafePath;
      logged := LeaveOut(omissions, reason, c.entry.path, first, log);
    }
  }

  method PlaceAll(world: World, changed: seq<Change>, omissions: Omissions) returns (records: seq<Candidate>)
    requires omissions.Valid()
    modifies omissions
    ensures var s := Place(world, changed);
            omissions.Valid() && omissions.log == old(omissions.log) + s.log && records == s.records
  {
    ghost var first, log := omissions.log, [];
    records := [];
    for n := 0 to |changed|
      invariant omissions.Valid() && omissions.log == first + log
      invariant Placed(records, log) == Place(world, changed[..n])
    {
      assert changed[..n + 1][..n] == changed[..n];
      records, log := PutOne(world, changed[n], n, records, omissions, first, log);
    }
    assert changed[..|changed|] == changed;
  }

  /** `sorted` lists the unmerged paths. The records are what goes into the private index. */
  method BuildUnstagedDiff(rules: Rules, world: World, budgets: Budgets, entries: seq<IndexEntry>, sorted: seq<Path>)
    returns (r: Result<seq<Candidate>, DiffError>, omissions: Omissions, ghost same: seq<Candidate>)
    ensures fresh(omissions) && omissions.Valid()
    ensures var c := Cover(rules, world, budgets, entries, sorted);
            && (c.Failure? ==> r == Failure(c.error))
            && (c.Success? ==> r == Success(c.value.records) && omissions.log == c.value.log && same == c.value.same)
  {
    omissions := new Omissions();
    same := [];
    if |entries| > budgets.maxEntries {
      return Failure(TooManyEntries), omissions, [];
    }
    var admitted := Admit(rules, UnmergedOf(entries), entries, omissions);
    Inspect(world, sorted, omissions);
    var found, suspects := Suspected(world, budgets, admitted, omissions);
    same := found;
    ghost var log := omissions.log;
    assert [] + Admitted(rules, UnmergedOf(entries), entries).log == Admitted(rules, UnmergedOf(entries), entries).log;
    if suspects == [] {
      return Success([]), omissions, same;
    }
    if |suspects| != |world.answers| {
      return Failure(AnswersDiffer), omissions, same;
    }
    var records := ReadAndPlace(world, budgets, suspects, omissions);
    r := Success(records);
  }

  method ReadAndPlace(world: World, budgets: Budgets, suspects: seq<Suspect>, omissions: Omissions)
    returns (records: seq<Candidate>)
    requires omissions.Valid() && |suspects| == |world.answers|
    modifies omissions
    ensures var weighed := Weigh(world, budgets, suspects);
            var placed := Place(world, weighed.changed);
            && omissions.Valid() && omissions.log == old(omissions.log) + weighed.log + placed.log
            && records == placed.records
  {
    var changed, total := Read(world, budgets, suspects, omissions);
    if changed == [] {
      return [];
    }
    records := PlaceAll(world, changed, omissions);
  }
}
