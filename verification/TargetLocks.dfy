/**
  Locks on the paths a job may change. A lock belongs to an open file description, which processes share by inheriting
  descriptors; it lives as long as any descriptor of it, and nobody ever unlocks.
*/
module TargetLocks {
  import opened Wrappers

  type ProcessId = nat
  type Fd = nat
  type Description = nat
  type LockFile = string
  type JobId = nat

  // ---- the system -------------------------------------------------------------------------------------------------

  datatype Table = Table(
    fds: map<(ProcessId, Fd), Description>, files: map<Description, LockFile>, locks: map<LockFile, Description>, next: nat)

  predicate Alive(t: Table, d: Description) {
    exists k :: k in t.fds && t.fds[k] == d
  }

  ghost predicate Valid(t: Table) {
    && (forall k :: k in t.fds ==> k.1 < t.next && t.fds[k] < t.next && t.fds[k] in t.files)
    && (forall d :: d in t.files ==> d < t.next)
    && (forall f :: f in t.locks ==> Alive(t, t.locks[f]) && t.locks[f] in t.files && t.files[t.locks[f]] == f)
  }

  /** A new description of the file, with a descriptor that was never used before. */
  function Open(t: Table, p: ProcessId, f: LockFile): Table {
    Table(t.fds[(p, t.next) := t.next], t.files[t.next := f], t.locks, t.next + 1)
  }

  /** Whether another description has the lock of the file. */
  predicate Blocked(t: Table, d: Description)
    requires d in t.files
  {
    t.files[d] in t.locks && t.locks[t.files[d]] != d
  }

  function Lock(t: Table, d: Description): Table
    requires d in t.files
  {
    t.(locks := t.locks[t.files[d] := d])
  }

  /** Descriptors are closed; a lock goes with the last descriptor of its description. */
  function Close(t: Table, keys: set<(ProcessId, Fd)>): Table {
    var fds := t.fds - keys;
    t.(fds := fds, locks := map f | f in t.locks && (exists k :: k in fds && fds[k] == t.locks[f]) :: t.locks[f])
  }

  function OwnedBy(t: Table, p: ProcessId): set<(ProcessId, Fd)> {
    set k | k in t.fds && k.0 == p
  }

  /** A child with copies of some descriptors of its parent. */
  function Fork(t: Table, p: ProcessId, child: ProcessId, passed: set<Fd>): Table {
    t.(fds := t.fds + map fd | fd in passed && (p, fd) in t.fds :: (child, fd) := t.fds[(p, fd)])
  }

  // ---- any interleaving ---------------------------------------------------------------------------------------------

  datatype Step =
    | DoOpen(job: JobId, p: ProcessId, file: LockFile)
    | DoLock(p: ProcessId, fd: Fd)
    | DoClose(p: ProcessId, fd: Fd)
    | DoFork(p: ProcessId, child: ProcessId, passed: set<Fd>)
    | DoExit(p: ProcessId)

  /** `owner` and `granted` are history: which job opened a description, and which descriptions got their lock. */
  datatype State = State(t: Table, owner: map<Description, JobId>, granted: set<Description>)

  const INITIAL := State(Table(map[], map[], map[], 0), map[], {})

  function Next(s: State, step: Step): State {
    match step
    case DoOpen(job, p, file) => s.(t := Open(s.t, p, file), owner := s.owner[s.t.next := job])
    case DoLock(p, fd) =>
      if (p, fd) in s.t.fds && s.t.fds[(p, fd)] in s.t.files && !Blocked(s.t, s.t.fds[(p, fd)]) then
        s.(t := Lock(s.t, s.t.fds[(p, fd)]), granted := s.granted + {s.t.fds[(p, fd)]})
      else s
    case DoClose(p, fd) => s.(t := Close(s.t, {(p, fd)}))
    case DoFork(p, child, passed) =>
      if OwnedBy(s.t, child) == {} then s.(t := Fork(s.t, p, child, passed)) else s
    case DoExit(p) => s.(t := Close(s.t, OwnedBy(s.t, p)))
  }

  function After(steps: seq<Step>): State {
    if steps == [] then INITIAL else Next(After(steps[..|steps| - 1]), steps[|steps| - 1])
  }

  /** A description that got its lock has it as long as any process, the Consumer or not, has a descriptor of it. */
  ghost predicate Sound(s: State) {
    && Valid(s.t)
    && (forall d :: d in s.granted ==> d in s.owner && d in s.t.files)
    && (forall d :: d in s.granted && Alive(s.t, d) ==> s.t.files[d] in s.t.locks && s.t.locks[s.t.files[d]] == d)
    && (forall d :: d in s.t.files ==> d in s.owner)
  }

  lemma OpenKeeps(s: State, job: JobId, p: ProcessId, file: LockFile)
    requires Sound(s)
    ensures Sound(Next(s, DoOpen(job, p, file)))
  {
    var t, u := s.t, Open(s.t, p, file);
    forall d | Alive(u, d)
      ensures d == t.next || Alive(t, d)
    {
      var k :| k in u.fds && u.fds[k] == d;
      assert k == (p, t.next) || (k in t.fds && t.fds[k] == d);
    }
    forall f | f in t.locks
      ensures Alive(u, t.locks[f])
    {
      var k :| k in t.fds && t.fds[k] == t.locks[f];
      assert k in u.fds && u.fds[k] == t.locks[f];
    }
  }

  lemma LockKeeps(s: State, p: ProcessId, fd: Fd)
    requires Sound(s)
    ensures Sound(Next(s, DoLock(p, fd)))
  {
    var r := Next(s, DoLock(p, fd));
    if r != s {
      var d := s.t.fds[(p, fd)];
      assert Alive(s.t, d);
      assert forall e :: Alive(r.t, e) <==> Alive(s.t, e);
      forall e | e in r.granted && Alive(r.t, e)
        ensures r.t.files[e] in r.t.locks && r.t.locks[r.t.files[e]] == e
      {
        if e != d {
          assert s.t.locks[s.t.files[e]] == e;
        }
      }
    }
  }

  lemma CloseKeeps(s: State, keys: set<(ProcessId, Fd)>)
    requires Sound(s)
    ensures Sound(s.(t := Close(s.t, keys)))
  {
    var t, u := s.t, Close(s.t, keys);
    forall d | Alive(u, d)
      ensures Alive(t, d)
    {
      var k :| k in u.fds && u.fds[k] == d;
      assert k in t.fds && t.fds[k] == d;
    }
  }

  /** The descriptors after a fork: those there were, and copies of passed ones. */
  lemma ForkedFds(t: Table, p: ProcessId, child: ProcessId, passed: set<Fd>)
    requires OwnedBy(t, child) == {}
    ensures var u := Fork(t, p, child, passed);
            && (forall k :: k in t.fds ==> k in u.fds && u.fds[k] == t.fds[k])
            && forall k :: k in u.fds && k !in t.fds ==> k.0 == child && (p, k.1) in t.fds && u.fds[k] == t.fds[(p, k.1)]
  {
    forall k | k in t.fds
      ensures k.0 != child
    {
      assert k !in OwnedBy(t, child);
    }
  }

  lemma ForkedAlive(t: Table, p: ProcessId, child: ProcessId, passed: set<Fd>, d: Description)
    requires OwnedBy(t, child) == {}
    ensures Alive(Fork(t, p, child, passed), d) <==> Alive(t, d)
  {
    var u := Fork(t, p, child, passed);
    ForkedFds(t, p, child, passed);
    if Alive(u, d) {
      var k :| k in u.fds && u.fds[k] == d;
      assert (k in t.fds && t.fds[k] == d) || ((p, k.1) in t.fds && t.fds[(p, k.1)] == d);
    }
    if Alive(t, d) {
      var k :| k in t.fds && t.fds[k] == d;
      assert u.fds[k] == d;
    }
  }

  lemma ForkKeeps(s: State, p: ProcessId, child: ProcessId, passed: set<Fd>)
    requires Sound(s)
    ensures Sound(Next(s, DoFork(p, child, passed)))
  {
    if OwnedBy(s.t, child) == {} {
      ForkedFds(s.t, p, child, passed);
      forall d
        ensures Alive(Fork(s.t, p, child, passed), d) <==> Alive(s.t, d)
      {
        ForkedAlive(s.t, p, child, passed, d);
      }
    }
  }

  lemma StepKeeps(s: State, step: Step)
    requires Sound(s)
    ensures Sound(Next(s, step))
  {
    match step
    case DoOpen(job, p, file) => OpenKeeps(s, job, p, file);
    case DoLock(p, fd) => LockKeeps(s, p, fd);
    case DoClose(p, fd) => CloseKeeps(s, {(p, fd)});
    case DoFork(p, child, passed) => ForkKeeps(s, p, child, passed);
    case DoExit(p) => CloseKeeps(s, OwnedBy(s.t, p));
  }

  lemma {:induction false} EveryRunIsSound(steps: seq<Step>)
    ensures Sound(After(steps))
  {
    if steps != [] {
      EveryRunIsSound(steps[..|steps| - 1]);
      StepKeeps(After(steps[..|steps| - 1]), steps[|steps| - 1]);
    }
  }

  /** Some process, whichever, has a descriptor through which the job has the lock of the file. */
  ghost predicate Holds(s: State, job: JobId, f: LockFile) {
    exists d :: d in s.granted && d in s.owner && s.owner[d] == job && d in s.t.files && s.t.files[d] == f && Alive(s.t, d)
  }

  ghost predicate HoldsAll(s: State, job: JobId, files: set<LockFile>) {
    forall f :: f in files ==> Holds(s, job, f)
  }

  lemma OneHolder(s: State, j: JobId, k: JobId, f: LockFile)
    requires Sound(s) && Holds(s, j, f) && Holds(s, k, f)
    ensures j == k
  {
    var d :| d in s.granted && d in s.owner && s.owner[d] == j && d in s.t.files && s.t.files[d] == f && Alive(s.t, d);
    var e :| e in s.granted && e in s.owner && s.owner[e] == k && e in s.t.files && s.t.files[e] == f && Alive(s.t, e);
    assert d == s.t.locks[f] == e;
  }

  /** In no interleaving do two jobs whose paths overlap hold their locks at once. */
  lemma OverlappingJobsExclude(steps: seq<Step>, j: JobId, k: JobId, a: set<LockFile>, b: set<LockFile>)
    requires HoldsAll(After(steps), j, a) && HoldsAll(After(steps), k, b) && a * b != {}
    ensures j == k
  {
    EveryRunIsSound(steps);
    var f :| f in a * b;
    OneHolder(After(steps), j, k, f);
  }

  /** The death of one process, the Consumer's too, takes no lock from a job that another process has inherited. */
  lemma LocksOutliveTheConsumer(s: State, p: ProcessId, job: JobId, f: LockFile, d: Description, child: ProcessId, fd: Fd)
    requires Sound(s) && child != p && (child, fd) in s.t.fds && s.t.fds[(child, fd)] == d
    requires d in s.granted && s.owner[d] == job && s.t.files[d] == f
    ensures Holds(Next(s, DoExit(p)), job, f)
  {
    var u := Close(s.t, OwnedBy(s.t, p));
    assert (child, fd) in u.fds && u.fds[(child, fd)] == d;
    assert Alive(u, d);
  }

  /** When the last process that had a copy is gone, the file can be locked again. */
  lemma LastCopyFreesTheLock(s: State, keys: set<(ProcessId, Fd)>, f: LockFile)
    requires Sound(s) && f in s.t.locks
    ensures f !in Close(s.t, keys).locks <==> forall k :: k in s.t.fds && s.t.fds[k] == s.t.locks[f] ==> k in keys
  {
    var u := Close(s.t, keys);
    forall k | k in s.t.fds && s.t.fds[k] == s.t.locks[f] && f !in u.locks
      ensures k in keys
    {
      assert k in u.fds <==> k !in keys;
    }
  }

  // ---- taking and giving back ---------------------------------------------------------------------------------------

  predicate Own(s: State, d: Description, job: JobId) {
    d in s.owner && s.owner[d] == job
  }

  /** A step of the rest of the system: other jobs, in this process or another one, and other processes. */
  predicate Spares(s: State, step: Step, p: ProcessId, job: JobId) {
    match step
    case DoOpen(other, _, _) => other != job
    case DoLock(q, fd) => (q, fd) in s.t.fds ==> !Own(s, s.t.fds[(q, fd)], job)
    case DoClose(q, fd) => (q, fd) in s.t.fds ==> !Own(s, s.t.fds[(q, fd)], job)
    case DoFork(q, child, passed) =>
      child != p && forall fd :: fd in passed && (q, fd) in s.t.fds ==> !Own(s, s.t.fds[(q, fd)], job)
    case DoExit(q) => q != p
  }

  /** Through this descriptor the job has the lock of the file. */
  predicate HasOne(s: State, job: JobId, p: ProcessId, fd: Fd, f: LockFile) {
    && (p, fd) in s.t.fds && s.t.fds[(p, fd)] in s.granted && Own(s, s.t.fds[(p, fd)], job)
    && s.t.fds[(p, fd)] in s.t.files && s.t.files[s.t.fds[(p, fd)]] == f
  }

  /** The job has exactly these descriptors, all in one process. */
  ghost predicate OnlyHas(s: State, job: JobId, p: ProcessId, held: seq<Fd>) {
    && (forall i :: 0 <= i < |held| ==> held[i] < s.t.next)
    && forall k :: k in s.t.fds && Own(s, s.t.fds[k], job) ==> k.0 == p && k.1 in held
  }

  ghost predicate HasAll(s: State, job: JobId, p: ProcessId, held: seq<Fd>, files: seq<LockFile>) {
    && Sound(s) && |held| == |files| && OnlyHas(s, job, p, held)
    && forall i :: 0 <= i < |held| ==> HasOne(s, job, p, held[i], files[i])
  }

  /** What others have: their descriptors, and their locks. */
  function ForeignFds(s: State, job: JobId): map<(ProcessId, Fd), Description> {
    map k | k in s.t.fds && !Own(s, s.t.fds[k], job) :: s.t.fds[k]
  }

  function ForeignLocks(s: State, job: JobId): map<LockFile, Description> {
    map f | f in s.t.locks && !Own(s, s.t.locks[f], job) :: s.t.locks[f]
  }

  ghost predicate SameForOthers(s: State, t: State, job: JobId) {
    ForeignFds(s, job) == ForeignFds(t, job) && ForeignLocks(s, job) == ForeignLocks(t, job)
  }

  /** A step of the rest of the system takes nothing from the job and gives it nothing. */
  lemma SparedKeepsOne(s: State, step: Step, p: ProcessId, job: JobId, fd: Fd, f: LockFile)
    requires Sound(s) && Spares(s, step, p, job) && HasOne(s, job, p, fd, f)
    ensures HasOne(Next(s, step), job, p, fd, f)
  {
    if step.DoFork? && OwnedBy(s.t, step.child) == {} {
      assert (p, fd) !in (map x | x in step.passed && (step.p, x) in s.t.fds :: (step.child, x) := s.t.fds[(step.p, x)]);
    }
  }

  lemma SparedKeepsOnly(s: State, step: Step, p: ProcessId, job: JobId, held: seq<Fd>)
    requires Sound(s) && Spares(s, step, p, job) && OnlyHas(s, job, p, held)
    ensures OnlyHas(Next(s, step), job, p, held)
  {
  }

  /** One more descriptor of the job, on a description that nobody else has and that has no lock yet. */
  ghost predicate Opened(s: State, job: JobId, p: ProcessId, fd: Fd, f: LockFile) {
    && (p, fd) in s.t.fds && Own(s, s.t.fds[(p, fd)], job) && s.t.fds[(p, fd)] in s.t.files
    && s.t.files[s.t.fds[(p, fd)]] == f && !(f in s.t.locks && s.t.locks[f] == s.t.fds[(p, fd)])
  }

  lemma SparedKeepsOpened(s: State, step: Step, p: ProcessId, job: JobId, fd: Fd, f: LockFile)
    requires Sound(s) && Spares(s, step, p, job) && Opened(s, job, p, fd, f)
    ensures Opened(Next(s, step), job, p, fd, f)
  {
    if step.DoFork? && OwnedBy(s.t, step.child) == {} {
      assert (p, fd) !in (map x | x in step.passed && (step.p, x) in s.t.fds :: (step.child, x) := s.t.fds[(step.p, x)]);
    }
  }

  /** The locks taken so far, and besides them perhaps a descriptor that has none yet. */
  ghost predicate HasSome(s: State, job: JobId, p: ProcessId, held: seq<Fd>, files: seq<LockFile>, all: seq<Fd>, fd: Fd, f: LockFile) {
    && Sound(s) && |held| == |files| && OnlyHas(s, job, p, all)
    && (forall i :: 0 <= i < |held| ==> HasOne(s, job, p, held[i], files[i]))
    && (fd in all && fd !in held ==> Opened(s, job, p, fd, f))
  }

  lemma SparedKeepsSome(s: State, step: Step, p: ProcessId, job: JobId, held: seq<Fd>, files: seq<LockFile>, all: seq<Fd>, fd: Fd, f: LockFile)
    requires Spares(s, step, p, job) && HasSome(s, job, p, held, files, all, fd, f)
    ensures HasSome(Next(s, step), job, p, held, files, all, fd, f)
  {
    StepKeeps(s, step);
    SparedKeepsOnly(s, step, p, job, all);
    forall i | 0 <= i < |held|
      ensures HasOne(Next(s, step), job, p, held[i], files[i])
    {
      SparedKeepsOne(s, step, p, job, held[i], files[i]);
    }
    if fd in all && fd !in held {
      SparedKeepsOpened(s, step, p, job, fd, f);
    }
  }

  lemma OpenLeavesOthers(s: State, job: JobId, p: ProcessId, f: LockFile)
    requires Sound(s)
    ensures SameForOthers(s, Next(s, DoOpen(job, p, f)), job)
  {
    var t := Next(s, DoOpen(job, p, f));
    assert ForeignFds(s, job) == ForeignFds(t, job);
    assert ForeignLocks(s, job) == ForeignLocks(t, job);
  }

  lemma OpenAddsOne(s: State, job: JobId, p: ProcessId, held: seq<Fd>, files: seq<LockFile>, f: LockFile)
    requires HasAll(s, job, p, held, files)
    ensures HasSome(Next(s, DoOpen(job, p, f)), job, p, held, files, held + [s.t.next], s.t.next, f) && s.t.next !in held
  {
    var t, all := Next(s, DoOpen(job, p, f)), held + [s.t.next];
    OpenKeeps(s, job, p, f);
    assert all[|held|] == s.t.next;
    forall i | 0 <= i < |held|
      ensures HasOne(t, job, p, held[i], files[i])
    {
      assert HasOne(s, job, p, held[i], files[i]);
    }
    forall k | k in t.t.fds && Own(t, t.t.fds[k], job)
      ensures k.0 == p && k.1 in all
    {
    }
  }

  lemma LockLeavesOthers(s: State, job: JobId, p: ProcessId, fd: Fd, f: LockFile)
    requires Sound(s) && Opened(s, job, p, fd, f) && f !in s.t.locks
    ensures SameForOthers(s, Next(s, DoLock(p, fd)), job)
  {
    assert ForeignLocks(s, job) == ForeignLocks(Next(s, DoLock(p, fd)), job);
  }

  lemma LockAddsOne(s: State, job: JobId, p: ProcessId, held: seq<Fd>, files: seq<LockFile>, fd: Fd, f: LockFile)
    requires HasSome(s, job, p, held, files, held + [fd], fd, f) && fd !in held && f !in s.t.locks
    ensures HasAll(Next(s, DoLock(p, fd)), job, p, held + [fd], files + [f])
  {
    var t, all := Next(s, DoLock(p, fd)), held + [fd];
    assert all[|held|] == fd;
    LockKeeps(s, p, fd);
    forall i | 0 <= i < |all|
      ensures HasOne(t, job, p, all[i], (files + [f])[i])
    {
      if i < |held| {
        assert HasOne(s, job, p, held[i], files[i]);
      }
    }
  }

  lemma OwnLocksAreHeld(s: State, job: JobId, p: ProcessId, all: seq<Fd>, f: LockFile)
    requires Sound(s) && OnlyHas(s, job, p, all) && f in s.t.locks && Own(s, s.t.locks[f], job)
    ensures exists i :: 0 <= i < |all| && (p, all[i]) in s.t.fds && s.t.fds[(p, all[i])] == s.t.locks[f]
  {
    assert Alive(s.t, s.t.locks[f]);
    var k :| k in s.t.fds && s.t.fds[k] == s.t.locks[f];
    var i :| 0 <= i < |all| && all[i] == k.1;
    assert (p, all[i]) == k;
  }

  /** What blocks a description that was just opened for a file is another job's lock. */
  lemma BlockedByOthers(s: State, job: JobId, p: ProcessId, held: seq<Fd>, files: seq<LockFile>, fd: Fd, f: LockFile)
    requires HasSome(s, job, p, held, files, held + [fd], fd, f) && fd !in held && f !in files && f in s.t.locks
    ensures f in ForeignLocks(s, job)
  {
    var all := held + [fd];
    assert all[|held|] == fd;
    forall i | 0 <= i < |all|
      ensures (p, all[i]) in s.t.fds && s.t.fds[(p, all[i])] != s.t.locks[f]
    {
      if i < |held| {
        assert HasOne(s, job, p, held[i], files[i]);
      }
    }
    if Own(s, s.t.locks[f], job) {
      OwnLocksAreHeld(s, job, p, all, f);
    }
  }

  lemma CloseLeavesOthers(s: State, job: JobId, p: ProcessId, fd: Fd)
    requires Sound(s) && ((p, fd) in s.t.fds ==> Own(s, s.t.fds[(p, fd)], job))
    ensures SameForOthers(s, Next(s, DoClose(p, fd)), job)
  {
    var t := Next(s, DoClose(p, fd));
    assert ForeignFds(s, job) == ForeignFds(t, job);
    forall f | f in s.t.locks && !Own(s, s.t.locks[f], job)
      ensures f in t.t.locks && t.t.locks[f] == s.t.locks[f]
    {
      assert Alive(s.t, s.t.locks[f]);
      var k :| k in s.t.fds && s.t.fds[k] == s.t.locks[f];
      assert k in t.t.fds && t.t.fds[k] == s.t.locks[f];
    }
    assert ForeignLocks(s, job) == ForeignLocks(t, job);
  }

  lemma CloseKeepsOne(s: State, job: JobId, p: ProcessId, fd: Fd, other: Fd, f: LockFile)
    requires HasOne(s, job, p, other, f) && fd != other
    ensures HasOne(Next(s, DoClose(p, fd)), job, p, other, f)
  {
  }

  lemma CloseTakesOne(s: State, job: JobId, p: ProcessId, held: seq<Fd>, files: seq<LockFile>, fd: Fd, f: LockFile)
    requires HasSome(s, job, p, held, files, held + [fd], fd, f) && fd !in held
    ensures HasAll(Next(s, DoClose(p, fd)), job, p, held, files)
  {
    CloseKeeps(s, {(p, fd)});
    forall i | 0 <= i < |held|
      ensures HasOne(Next(s, DoClose(p, fd)), job, p, held[i], files[i])
    {
      CloseKeepsOne(s, job, p, fd, held[i], files[i]);
    }
  }

  lemma CloseFirst(s: State, job: JobId, p: ProcessId, held: seq<Fd>, files: seq<LockFile>)
    requires HasAll(s, job, p, held, files) && held != [] && files[0] !in files[1..]
    ensures HasAll(Next(s, DoClose(p, held[0])), job, p, held[1..], files[1..])
  {
    var t, rest := Next(s, DoClose(p, held[0])), held[1..];
    assert HasOne(s, job, p, held[0], files[0]);
    CloseKeeps(s, {(p, held[0])});
    forall i | 0 <= i < |rest|
      ensures HasOne(t, job, p, rest[i], files[1..][i])
    {
      assert HasOne(s, job, p, held[i + 1], files[i + 1]) && files[i + 1] in files[1..];
      CloseKeepsOne(s, job, p, held[0], held[i + 1], files[i + 1]);
    }
    forall k | k in t.t.fds && Own(t, t.t.fds[k], job)
      ensures k.0 == p && k.1 in rest
    {
      var i :| 0 <= i < |held| && held[i] == k.1;
      assert i > 0 ==> rest[i - 1] == k.1;
    }
  }

  /** Before a job has opened anything, everything is others'. */
  lemma AllAreOthers(s: State, job: JobId)
    requires forall d :: d in s.owner ==> s.owner[d] != job
    ensures ForeignFds(s, job) == s.t.fds && ForeignLocks(s, job) == s.t.locks
  {
  }

  /** And so it is when the job has no descriptor left. */
  lemma AllAreOthersAgain(t: State, job: JobId, p: ProcessId)
    requires Sound(t) && OnlyHas(t, job, p, [])
    ensures ForeignFds(t, job) == t.t.fds && ForeignLocks(t, job) == t.t.locks
  {
    forall f | f in t.t.locks
      ensures !Own(t, t.t.locks[f], job)
    {
      assert Alive(t.t, t.t.locks[f]);
    }
  }

  lemma NothingIsLeft(s: State, t: State, job: JobId, p: ProcessId)
    requires Sound(t) && SameForOthers(s, t, job) && OnlyHas(t, job, p, [])
    requires forall d :: d in s.owner ==> s.owner[d] != job
    ensures t.t.fds == s.t.fds && t.t.locks == s.t.locks
  {
    AllAreOthers(s, job);
    AllAreOthersAgain(t, job, p);
  }

  lemma LockedWereFree(s: State, t: State, job: JobId, p: ProcessId, held: seq<Fd>, files: seq<LockFile>)
    requires HasAll(t, job, p, held, files) && SameForOthers(s, t, job)
    requires forall d :: d in s.owner ==> s.owner[d] != job
    ensures forall f :: f in files ==> f !in s.t.locks
  {
    forall i | 0 <= i < |files|
      ensures files[i] !in s.t.locks
    {
      assert HasOne(t, job, p, held[i], files[i]);
      assert Alive(t.t, t.t.fds[(p, held[i])]);
      AllAreOthers(s, job);
      assert files[i] !in ForeignLocks(t, job);
    }
  }

  lemma FirstFiles(files: seq<LockFile>, n: nat)
    requires n < |files| && forall i, j :: 0 <= i < j < |files| ==> files[i] != files[j]
    ensures files[..n + 1] == files[..n] + [files[n]] && files[n] !in files[..n]
  {
  }

  /** At some moment of the run from `since` on, another job had the lock of the file. */
  ghost predicate WasTaken(steps: seq<Step>, since: nat, job: JobId, f: LockFile) {
    exists n: nat :: since <= n <= |steps| &&
      var s := After(steps[..n]); f in s.t.locks && !Own(s, s.t.locks[f], job)
  }

  lemma WasTakenStays(steps: seq<Step>, more: seq<Step>, since: nat, job: JobId, f: LockFile)
    requires WasTaken(steps, since, job, f) && steps <= more
    ensures WasTaken(more, since, job, f)
  {
    var n: nat :| since <= n <= |steps| && var s := After(steps[..n]); f in s.t.locks && !Own(s, s.t.locks[f], job);
    assert more[..n] == steps[..n];
  }

  lemma WasTakenEarlier(steps: seq<Step>, since: nat, later: nat, job: JobId, f: LockFile)
    requires WasTaken(steps, later, job, f) && since <= later
    ensures WasTaken(steps, since, job, f)
  {
  }

  lemma WasTakenNow(steps: seq<Step>, since: nat, job: JobId, f: LockFile)
    requires since <= |steps| && f in After(steps).t.locks && !Own(After(steps), After(steps).t.locks[f], job)
    ensures WasTaken(steps, since, job, f)
  {
    assert steps[..|steps|] == steps;
  }

  lemma OneMoreStep(steps: seq<Step>, step: Step)
    ensures After(steps + [step]) == Next(After(steps), step)
  {
    assert (steps + [step])[..|steps|] == steps;
  }

  lemma HasAllHolds(s: State, job: JobId, p: ProcessId, held: seq<Fd>, files: seq<LockFile>)
    requires HasAll(s, job, p, held, files)
    ensures HoldsAll(s, job, set f | f in files)
  {
    forall f | f in files
      ensures Holds(s, job, f)
    {
      var i :| 0 <= i < |files| && files[i] == f;
      assert HasOne(s, job, p, held[i], files[i]);
      assert Alive(s.t, s.t.fds[(p, held[i])]);
    }
  }

  /** The lock files of a job's paths, each once. */
  method Once(paths: seq<LockFile>) returns (files: seq<LockFile>)
    ensures forall i, j :: 0 <= i < j < |files| ==> files[i] != files[j]
    ensures forall f :: f in files <==> f in paths
  {
    files := [];
    for i := 0 to |paths|
      invariant forall j, k :: 0 <= j < k < |files| ==> files[j] != files[k]
      invariant forall f :: f in files <==> f in paths[..i]
    {
      assert paths[..i + 1] == paths[..i] + [paths[i]];
      if paths[i] !in files {
        files := files + [paths[i]];
      }
    }
    assert paths[..|paths|] == paths;
  }

  /**
    The system as one process meets it: before each of its calls the rest of the system takes some steps. `steps` is the
    run so far.
  */
  class Locker {
    const others: nat -> seq<Step>
    var calls: nat
    var state: State
    ghost var steps: seq<Step>

    ghost predicate Valid()
      reads this
    {
      state == After(steps)
    }

    ghost predicate Alone() {
      forall n :: others(n) == []
    }

    constructor (others: nat -> seq<Step>)
      ensures Valid() && this.others == others && state == INITIAL
    {
      this.others, calls, state, steps := others, 0, INITIAL, [];
    }

    method Do(step: Step)
      requires Valid()
      modifies this`state, this`steps
      ensures Valid() && steps == old(steps) + [step] && state == Next(old(state), step)
    {
      OneMoreStep(steps, step);
      state, steps := Next(state, step), steps + [step];
    }

    /** The rest of the system goes on: what the job has stays as it is. */
    method Yield(job: JobId, p: ProcessId, ghost held: seq<Fd>, ghost files: seq<LockFile>, ghost all: seq<Fd>,
                 ghost fd: Fd, ghost f: LockFile)
      requires Valid() && HasSome(state, job, p, held, files, all, fd, f)
      modifies this
      ensures Valid() && old(steps) <= steps && HasSome(state, job, p, held, files, all, fd, f)
      ensures Alone() ==> state == old(state)
    {
      var ahead := others(calls);
      calls := calls + 1;
      for i := 0 to |ahead|
        invariant Valid() && old(steps) <= steps && HasSome(state, job, p, held, files, all, fd, f)
        invariant ahead == [] ==> state == old(state)
      {
        if Spares(state, ahead[i], p, job) {
          SparedKeepsSome(state, ahead[i], p, job, held, files, all, fd, f);
          Do(ahead[i]);
        }
      }
    }

    /** Open the lock file of a path; the descriptor is new, and so is the description. */
    method OpenOne(job: JobId, p: ProcessId, f: LockFile, ghost held: seq<Fd>, ghost files: seq<LockFile>) returns (fd: Fd)
      requires Valid() && HasAll(state, job, p, held, files)
      modifies this
      ensures Valid() && old(steps) <= steps && fd !in held
      ensures HasSome(state, job, p, held, files, held + [fd], fd, f)
      ensures Alone() ==> SameForOthers(old(state), state, job)
    {
      Yield(job, p, held, files, held, 0, "");
      fd := state.t.next;
      OpenLeavesOthers(state, job, p, f);
      OpenAddsOne(state, job, p, held, files, f);
      Do(DoOpen(job, p, f));
    }

    /** Try to lock without waiting. */
    method LockOne(job: JobId, p: ProcessId, fd: Fd, ghost f: LockFile, ghost held: seq<Fd>, ghost files: seq<LockFile>)
      returns (ok: bool)
      requires Valid() && HasSome(state, job, p, held, files, held + [fd], fd, f) && fd !in held && f !in files
      modifies this
      ensures Valid() && old(steps) <= steps
      ensures ok ==> HasAll(state, job, p, held + [fd], files + [f])
      ensures !ok ==> HasSome(state, job, p, held, files, held + [fd], fd, f) && f in ForeignLocks(state, job)
      ensures Alone() ==> SameForOthers(old(state), state, job)
    {
      Yield(job, p, held, files, held + [fd], fd, f);
      assert (held + [fd])[|held|] == fd;
      ok := !Blocked(state.t, state.t.fds[(p, fd)]);
      if ok {
        LockLeavesOthers(state, job, p, fd, f);
        LockAddsOne(state, job, p, held, files, fd, f);
        Do(DoLock(p, fd));
      } else {
        BlockedByOthers(state, job, p, held, files, fd, f);
      }
    }

    method CloseOne(job: JobId, p: ProcessId, fd: Fd, ghost f: LockFile, ghost held: seq<Fd>, ghost files: seq<LockFile>)
      requires Valid() && HasSome(state, job, p, held, files, held + [fd], fd, f) && fd !in held
      modifies this
      ensures Valid() && old(steps) <= steps && HasAll(state, job, p, held, files)
      ensures Alone() ==> SameForOthers(old(state), state, job)
    {
      Yield(job, p, held, files, held + [fd], fd, f);
      assert (held + [fd])[|held|] == fd;
      CloseLeavesOthers(state, job, p, fd);
      CloseTakesOne(state, job, p, held, files, fd, f);
      Do(DoClose(p, fd));
    }

    /** The lock of one more file. If another job has it, the descriptor is closed again. */
    method TakeOne(job: JobId, p: ProcessId, f: LockFile, ghost held: seq<Fd>, ghost files: seq<LockFile>)
      returns (r: Option<Fd>)
      requires Valid() && HasAll(state, job, p, held, files) && f !in files
      modifies this
      ensures Valid() && old(steps) <= steps
      ensures r.Some? ==> HasAll(state, job, p, held + [r.value], files + [f])
      ensures r.None? ==> HasAll(state, job, p, held, files) && WasTaken(steps, |old(steps)|, job, f)
      ensures Alone() ==> SameForOthers(old(state), state, job) && (r.None? ==> f in ForeignLocks(old(state), job))
    {
      var fd := OpenOne(job, p, f, held, files);
      var ok := LockOne(job, p, fd, f, held, files);
      if ok {
        return Some(fd);
      }
      WasTakenNow(steps, |old(steps)|, job, f);
      ghost var taken := steps;
      CloseOne(job, p, fd, f, held, files);
      WasTakenStays(taken, steps, |old(steps)|, job, f);
      r := None;
    }

    method ReleaseFirst(job: JobId, p: ProcessId, held: seq<Fd>, ghost files: seq<LockFile>)
      requires Valid() && HasAll(state, job, p, held, files) && held != []
      requires forall i, j :: 0 <= i < j < |files| ==> files[i] != files[j]
      modifies this
      ensures Valid() && old(steps) <= steps && HasAll(state, job, p, held[1..], files[1..])
      ensures Alone() ==> SameForOthers(old(state), state, job)
    {
      Yield(job, p, held, files, held, 0, "");
      assert HasOne(state, job, p, held[0], files[0]);
      CloseLeavesOthers(state, job, p, held[0]);
      CloseFirst(state, job, p, held, files);
      Do(DoClose(p, held[0]));
    }

    /** The descriptors are closed and no more: an unlock would release the copies of an executor too. */
    method Release(job: JobId, p: ProcessId, held: seq<Fd>, ghost files: seq<LockFile>)
      requires Valid() && HasAll(state, job, p, held, files)
      requires forall i, j :: 0 <= i < j < |files| ==> files[i] != files[j]
      modifies this
      ensures Valid() && old(steps) <= steps && HasAll(state, job, p, [], [])
      ensures Alone() ==> SameForOthers(old(state), state, job)
    {
      assert held[0..] == held && files[0..] == files;
      for i := 0 to |held|
        invariant Valid() && old(steps) <= steps && HasAll(state, job, p, held[i..], files[i..])
        invariant Alone() ==> SameForOthers(old(state), state, job)
      {
        ghost var left := files[i..];
        assert held[i..][1..] == held[i + 1..] && left[1..] == files[i + 1..];
        ReleaseFirst(job, p, held[i..], left);
      }
    }

    /** A file was another job's: what was taken before it is given back. */
    method GiveUp(job: JobId, p: ProcessId, held: seq<Fd>, ghost files: seq<LockFile>, ghost since: nat, ghost f: LockFile)
      requires Valid() && HasAll(state, job, p, held, files) && WasTaken(steps, since, job, f)
      requires forall i, j :: 0 <= i < j < |files| ==> files[i] != files[j]
      modifies this
      ensures Valid() && old(steps) <= steps && HasAll(state, job, p, [], []) && WasTaken(steps, since, job, f)
      ensures Alone() ==> SameForOthers(old(state), state, job)
    {
      Release(job, p, held, files);
      WasTakenStays(old(steps), steps, since, job, f);
    }

    /** The next lock, or none at all. */
    method TakeNext(job: JobId, p: ProcessId, files: seq<LockFile>, i: nat, held: seq<Fd>) returns (r: Option<Fd>)
      requires Valid() && i < |files| && HasAll(state, job, p, held, files[..i])
      requires forall i, j :: 0 <= i < j < |files| ==> files[i] != files[j]
      modifies this
      ensures Valid() && old(steps) <= steps
      ensures r.Some? ==> HasAll(state, job, p, held + [r.value], files[..i + 1])
      ensures r.None? ==> HasAll(state, job, p, [], []) && WasTaken(steps, |old(steps)|, job, files[i])
      ensures Alone() ==> SameForOthers(old(state), state, job) && (r.None? ==> files[i] in ForeignLocks(old(state), job))
    {
      FirstFiles(files, i);
      r := TakeOne(job, p, files[i], held, files[..i]);
      if r.None? {
        GiveUp(job, p, held, files[..i], |old(steps)|, files[i]);
      }
    }

    /** All locks, or none and the file that another job had. */
    method TakeAll(job: JobId, p: ProcessId, files: seq<LockFile>) returns (r: Option<seq<Fd>>, ghost lost: LockFile)
      requires Valid() && HasAll(state, job, p, [], [])
      requires forall i, j :: 0 <= i < j < |files| ==> files[i] != files[j]
      modifies this
      ensures Valid() && old(steps) <= steps
      ensures r.Some? ==> HasAll(state, job, p, r.value, files)
      ensures r.None? ==> HasAll(state, job, p, [], []) && lost in files && WasTaken(steps, |old(steps)|, job, lost)
      ensures Alone() ==> SameForOthers(old(state), state, job) && (r.None? ==> lost in ForeignLocks(old(state), job))
    {
      var held: seq<Fd> := [];
      assert files[..0] == [];
      for i := 0 to |files|
        invariant Valid() && old(steps) <= steps && HasAll(state, job, p, held, files[..i])
        invariant Alone() ==> SameForOthers(old(state), state, job)
      {
        ghost var before := |steps|;
        var fd := TakeNext(job, p, files, i, held);
        if fd.None? {
          WasTakenEarlier(steps, |old(steps)|, before, job, files[i]);
          return None, files[i];
        }
        held := held + [fd.value];
      }
      assert files[..|files|] == files;
      return Some(held), "";
    }

    /**
      One lock for the file of each path, or nothing, whatever others do meanwhile. A failed try leaves no descriptor, and
      some file was another job's; where nobody else acts, a try fails exactly if some file was locked before, and then
      leaves the system as it was.
    */
    method TryAcquire(job: JobId, p: ProcessId, paths: seq<LockFile>) returns (r: Option<seq<Fd>>)
      requires Valid() && forall d :: d in state.owner ==> state.owner[d] != job
      modifies this
      ensures Valid() && old(steps) <= steps
      ensures r.Some? ==> HoldsAll(After(steps), job, set f | f in paths) && OnlyHas(state, job, p, r.value)
      ensures r.None? ==> OnlyHas(state, job, p, []) && exists f :: f in paths && WasTaken(steps, |old(steps)|, job, f)
      ensures Alone() ==> SameForOthers(old(state), state, job)
      ensures Alone() ==> (r.Some? <==> forall f :: f in paths ==> f !in old(state).t.locks)
      ensures Alone() && r.None? ==> state.t.fds == old(state).t.fds && state.t.locks == old(state).t.locks
    {
      var files := Once(paths);
      EveryRunIsSound(steps);
      ghost var lost;
      r, lost := TakeAll(job, p, files);
      if r.Some? {
        HasAllHolds(state, job, p, r.value, files);
        assert (set f | f in files) == (set f | f in paths);
        if Alone() {
          LockedWereFree(old(state), state, job, p, r.value, files);
        }
      } else {
        assert lost in paths;
        if Alone() {
          NothingIsLeft(old(state), state, job, p);
        }
      }
    }
  }
}
