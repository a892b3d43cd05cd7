/**
  What the Consumer's adapters see of the processes: rows of one read of the process table. The tree that is found in
  the rows is the tree of the processes, and the answers about recorded processes are answers about the table.
*/
module ProcessViews {
  import opened Wrappers
  import opened Ledgers
  import opened ConsumerProtocol
  import opened ConsumerSafety
  import ProcessTables

  /** No two processes that are alive have one PID. */
  ghost predicate PidsApart(w: World) {
    forall b, c :: b in w.live && c in w.live && w.live[b].pid == w.live[c].pid ==> b == c
  }

  lemma BearKeepsApart(w: World, p: Process)
    requires WorldOk(w) && PidsApart(w) && FreshPid(w, p.pid)
    ensures PidsApart(Bear(w, p))
  {
  }

  lemma WorldStepKeepsApart(w: World, step: WorldStep)
    requires WorldOk(w) && PidsApart(w) && MoveWorld(w, step).Some?
    ensures PidsApart(MoveWorld(w, step).value)
  {
    match step
    case Fork(b, pid, apart) =>
      var parent := w.live[b];
      BearKeepsApart(w, parent.(pid := pid, pgid := if apart && !parent.confined then pid else parent.pgid, parent := Some(b)));
    case Unrelated(pid, pgid, command) => BearKeepsApart(w, Process(pid, pgid, command, None, false, None));
    case _ =>
  }

  lemma SpawnIsFresh(w: World, d: DeliveryId, x: Delivery, step: RunStep)
    requires step.Spawn? && ActRun(w, d, x, step).Some?
    ensures exists p :: ActRun(w, d, x, step).value.0 == Bear(w, p) && FreshPid(w, p.pid)
  {
    var kind := if x.handler.value.JobWritten? then LocalCommand else AgentAdapter;
    var p := Process(step.pid, step.pid, step.command, Some(Owner(d, x.handler.value.attempt)), kind == LocalCommand, None);
    assert ActRun(w, d, x, step).value.0 == Bear(w, p) && FreshPid(w, p.pid);
  }

  lemma RunStepKeepsApart(w: World, d: DeliveryId, x: Delivery, step: RunStep)
    requires WorldOk(w) && PidsApart(w) && ActRun(w, d, x, step).Some?
    ensures PidsApart(ActRun(w, d, x, step).value.0)
  {
    if step.Spawn? {
      SpawnIsFresh(w, d, x, step);
      var p :| ActRun(w, d, x, step).value.0 == Bear(w, p) && FreshPid(w, p.pid);
      BearKeepsApart(w, p);
    } else {
      RunKeepsWorld(w, d, x, step);
    }
  }

  /** In every state that a run reaches, PIDs tell the living processes apart. */
  lemma {:induction false} PidsStayApart(steps: seq<Step>)
    ensures After(steps).Some? ==> PidsApart(After(steps).value.w)
    decreases |steps|
  {
    if steps != [] && After(steps).Some? {
      var before, step := steps[..|steps| - 1], steps[|steps| - 1];
      var s := After(before).value;
      PidsStayApart(before);
      EveryRunIsSound(before);
      match step
      case Processes(world) => WorldStepKeepsApart(s.w, world);
      case Run(d, run) => RunStepKeepsApart(s.w, d, Of(s, d), run);
      case _ =>
    }
  }

  // ---- the table --------------------------------------------------------------------------------------------------

  /** A row says who a process is and who its parent is; an orphan's parent is the PID of nobody here. */
  ghost predicate IsRowOf(row: ProcessTables.Row, w: World, b: Birth)
    requires b in w.live
  {
    && row.pid == w.live[b].pid && row.command == w.live[b].command
    && forall c :: c in w.live ==> (row.ppid == w.live[c].pid <==> w.live[b].parent == Some(c))
  }

  ghost predicate HasRow(rows: seq<ProcessTables.Row>, w: World, b: Birth)
    requires b in w.live
  {
    exists k :: 0 <= k < |rows| && IsRowOf(rows[k], w, b)
  }

  ghost predicate IsOfSome(row: ProcessTables.Row, w: World) {
    exists b :: b in w.live && IsRowOf(row, w, b)
  }

  /** The table lists the processes that are alive, and no others. */
  ghost predicate Prints(rows: seq<ProcessTables.Row>, w: World) {
    && PidsApart(w) && (forall b :: b in w.live ==> HasRow(rows, w, b))
    && forall k :: 0 <= k < |rows| ==> IsOfSome(rows[k], w)
  }

  lemma ChildInTable(rows: seq<ProcessTables.Row>, w: World, child: Birth, parent: Birth)
    requires Prints(rows, w) && child in w.live && parent in w.live
    ensures ProcessTables.IsChild(rows, w.live[child].pid, w.live[parent].pid) <==> ChildOf(w, child, parent)
  {
    if ProcessTables.IsChild(rows, w.live[child].pid, w.live[parent].pid) {
      var k :| 0 <= k < |rows| && rows[k].pid == w.live[child].pid && rows[k].ppid == w.live[parent].pid;
      assert IsOfSome(rows[k], w);
      var b :| b in w.live && IsRowOf(rows[k], w, b);
      assert b == child;
    }
    if ChildOf(w, child, parent) {
      assert HasRow(rows, w, child);
      var k :| 0 <= k < |rows| && IsRowOf(rows[k], w, child);
      assert rows[k].ppid == w.live[parent].pid;
    }
  }

  /** A PID of the table is that of a living process. */
  lemma PidIsAlive(rows: seq<ProcessTables.Row>, w: World, pid: Pid) returns (b: Birth)
    requires Prints(rows, w) && ProcessTables.Has(rows, pid)
    ensures b in w.live && w.live[b].pid == pid
  {
    var k :| 0 <= k < |rows| && rows[k].pid == pid;
    assert IsOfSome(rows[k], w);
    b :| b in w.live && IsRowOf(rows[k], w, b);
  }

  lemma BelowIsListed(rows: seq<ProcessTables.Row>, root: Pid, pid: Pid, steps: nat)
    requires ProcessTables.Below(rows, root, pid, steps)
    ensures ProcessTables.Has(rows, pid)
  {
    if steps > 0 {
      var parent :| ProcessTables.Below(rows, root, parent, steps - 1) && ProcessTables.IsChild(rows, pid, parent);
    }
  }

  lemma {:induction false} TreeInTable(rows: seq<ProcessTables.Row>, w: World, root: Birth, b: Birth, n: nat)
    requires Prints(rows, w) && Below(w, root, b, n)
    ensures root in w.live && b in w.live && ProcessTables.Below(rows, w.live[root].pid, w.live[b].pid, n)
    decreases n
  {
    if n == 0 {
      assert HasRow(rows, w, b);
      var k :| 0 <= k < |rows| && IsRowOf(rows[k], w, b);
      assert rows[k].pid == w.live[b].pid;
    } else {
      var c :| Below(w, root, c, n - 1) && ChildOf(w, b, c);
      TreeInTable(rows, w, root, c, n - 1);
      ChildInTable(rows, w, b, c);
    }
  }

  lemma {:induction false} TableIsTree(rows: seq<ProcessTables.Row>, w: World, root: Birth, b: Birth, n: nat)
    requires Prints(rows, w) && root in w.live && b in w.live
    requires ProcessTables.Below(rows, w.live[root].pid, w.live[b].pid, n)
    ensures Below(w, root, b, n)
    decreases n
  {
    if n > 0 {
      var parent :| ProcessTables.Below(rows, w.live[root].pid, parent, n - 1) && ProcessTables.IsChild(rows, w.live[b].pid, parent);
      BelowIsListed(rows, w.live[root].pid, parent, n - 1);
      var c := PidIsAlive(rows, w, parent);
      TableIsTree(rows, w, root, c, n - 1);
      ChildInTable(rows, w, b, c);
    }
  }

  /** The descendants by PIDs in the table are the descendants by parents among the processes. */
  lemma TreesAgree(rows: seq<ProcessTables.Row>, w: World, root: Birth, b: Birth)
    requires Prints(rows, w) && root in w.live && b in w.live
    ensures ProcessTables.IsBelow(rows, w.live[root].pid, w.live[b].pid) <==> IsBelow(w, root, b)
  {
    if IsBelow(w, root, b) {
      var n: nat :| Below(w, root, b, n);
      TreeInTable(rows, w, root, b, n);
    }
    if ProcessTables.IsBelow(rows, w.live[root].pid, w.live[b].pid) {
      var n: nat :| ProcessTables.Below(rows, w.live[root].pid, w.live[b].pid, n);
      TableIsTree(rows, w, root, b, n);
    }
  }

  // ---- what an observation records ----------------------------------------------------------------------------------

  /** What `ProcessTree` finds in the table. */
  ghost predicate IsTreeOf(found: seq<Pid>, rows: seq<ProcessTables.Row>, root: Pid) {
    forall pid :: pid in found <==> ProcessTables.IsBelow(rows, root, pid)
  }

  /** The recorded identities are those of the processes found. */
  ghost predicate Identifies(w: World, seen: seq<Identity>, found: seq<Pid>) {
    && |seen| == |found|
    && forall k :: 0 <= k < |seen| ==>
         && seen[k].pid == found[k] && seen[k].birth in w.live
         && w.live[seen[k].birth].pid == seen[k].pid && w.live[seen[k].birth].command == seen[k].command
  }

  /** Of a server that runs, the observation records itself and what is below it, and nothing else. */
  lemma ObservationIsTree(rows: seq<ProcessTables.Row>, w: World, root: Birth, found: seq<Pid>, seen: seq<Identity>, b: Birth)
    requires Prints(rows, w) && root in w.live && IsTreeOf(found, rows, w.live[root].pid) && Identifies(w, seen, found)
    ensures b in Births(seen) <==> IsBelow(w, root, b)
  {
    if b in Births(seen) {
      var k :| 0 <= k < |seen| && seen[k].birth == b;
      assert found[k] in found;
      TreesAgree(rows, w, root, b);
    }
    if IsBelow(w, root, b) {
      var n: nat :| Below(w, root, b, n);
      TreeInTable(rows, w, root, b, n);
      TreesAgree(rows, w, root, b);
      var k :| 0 <= k < |found| && found[k] == w.live[b].pid;
      assert seen[k].birth == b;
    }
  }

  /** What the walk over the table finds is what an observation of the protocol may record. */
  lemma TableIsObserved(rows: seq<ProcessTables.Row>, w: World, root: Birth, pid: Pid, found: seq<Pid>, seen: seq<Identity>)
    requires WorldOk(w) && Prints(rows, w) && (root in w.live ==> w.live[root].pid == pid)
    requires IsTreeOf(found, rows, pid) && Identifies(w, seen, found)
    ensures SeenSoFar(w, seen) && HoldsTree(w, root, Births(seen))
  {
    if root in w.live {
      assert Below(w, root, root, 0);
      ObservationIsTree(rows, w, root, found, seen, root);
      forall b, c | b in w.live && c in Births(seen) && ChildOf(w, b, c)
        ensures b in Births(seen)
      {
        ObservationIsTree(rows, w, root, found, seen, c);
        var n: nat :| Below(w, root, c, n);
        assert Below(w, root, b, n + 1);
        ObservationIsTree(rows, w, root, found, seen, b);
      }
    }
  }

  // ---- what a read-back answers -------------------------------------------------------------------------------------

  /** The row under a PID is that of the one process that has it. */
  lemma RowIsOfProcess(rows: seq<ProcessTables.Row>, w: World, b: Birth)
    requires Prints(rows, w) && b in w.live
    ensures var row := ProcessTables.RowOf(rows, w.live[b].pid); row.Some? && row.value.command == w.live[b].command
  {
    assert HasRow(rows, w, b);
    var k :| 0 <= k < |rows| && IsRowOf(rows[k], w, b);
    assert rows[k].pid == w.live[b].pid;
    ProcessTables.RowOfHas(rows, w.live[b].pid);
    var row := ProcessTables.RowOf(rows, w.live[b].pid).value;
    var j :| 0 <= j < |rows| && rows[j] == row;
    assert IsOfSome(rows[j], w);
    var c :| c in w.live && IsRowOf(rows[j], w, c);
  }

  /** Some recorded PID has a row, with the recorded command or with another one. */
  ghost predicate InTable(rows: seq<ProcessTables.Row>, seen: seq<Identity>, same: bool) {
    exists k :: 0 <= k < |seen| &&
      var row := ProcessTables.RowOf(rows, seen[k].pid); row.Some? && (row.value.command == seen[k].command) == same
  }

  ghost predicate Lives(w: World, seen: seq<Identity>, k: nat, b: Birth, same: bool)
    requires k < |seen|
  {
    b in w.live && w.live[b].pid == seen[k].pid && (w.live[b].command == seen[k].command) == same
  }

  lemma RowMeansAlive(rows: seq<ProcessTables.Row>, w: World, seen: seq<Identity>, k: nat) returns (b: Birth)
    requires Prints(rows, w) && k < |seen| && ProcessTables.RowOf(rows, seen[k].pid).Some?
    ensures Lives(w, seen, k, b, ProcessTables.RowOf(rows, seen[k].pid).value.command == seen[k].command)
  {
    ProcessTables.RowOfHas(rows, seen[k].pid);
    b := PidIsAlive(rows, w, seen[k].pid);
    RowIsOfProcess(rows, w, b);
  }

  /** The answers of the protocol about recorded processes are those of the table. */
  lemma TableAnswers(rows: seq<ProcessTables.Row>, w: World, seen: seq<Identity>)
    requires Prints(rows, w)
    ensures SameThere(w, seen) <==> InTable(rows, seen, true)
    ensures ChangedThere(w, seen) <==> InTable(rows, seen, false)
  {
    forall k: nat, b, same | k < |seen| && b in w.live && w.live[b].pid == seen[k].pid
      ensures Lives(w, seen, k, b, same) ==> InTable(rows, seen, same)
    {
      RowIsOfProcess(rows, w, b);
    }
    forall same | InTable(rows, seen, same)
      ensures exists k: nat, b :: k < |seen| && Lives(w, seen, k, b, same)
    {
      var k: nat :| k < |seen| &&
        var row := ProcessTables.RowOf(rows, seen[k].pid); row.Some? && (row.value.command == seen[k].command) == same;
      var b := RowMeansAlive(rows, w, seen, k);
    }
    if SameThere(w, seen) {
      var k, b :| 0 <= k < |seen| && b in w.live && w.live[b].pid == seen[k].pid && w.live[b].command == seen[k].command;
      assert Lives(w, seen, k, b, true);
    }
    if ChangedThere(w, seen) {
      var k, b :| 0 <= k < |seen| && b in w.live && w.live[b].pid == seen[k].pid && w.live[b].command != seen[k].command;
      assert Lives(w, seen, k, b, false);
    }
  }
}
