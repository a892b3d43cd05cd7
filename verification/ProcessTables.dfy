/** One read of the process table: the tree below a root, and which recorded processes are not shown gone. */
module ProcessTables {
  import opened Wrappers

  type Pid = nat

  datatype Row = Row(pid: Pid, ppid: Pid, command: string)

  /** The table by PID, in the order it was read. */
  predicate IsTable(rows: seq<Row>) {
    forall i, j :: 0 <= i < j < |rows| ==> rows[i].pid != rows[j].pid
  }

  predicate Has(rows: seq<Row>, pid: Pid) {
    exists k :: 0 <= k < |rows| && rows[k].pid == pid
  }

  predicate IsChild(rows: seq<Row>, child: Pid, parent: Pid) {
    exists k :: 0 <= k < |rows| && rows[k].pid == child && rows[k].ppid == parent
  }

  /** `pid` is the root, or a descendant of it by that many steps. */
  ghost predicate Below(rows: seq<Row>, root: Pid, pid: Pid, steps: nat)
    decreases steps
  {
    if steps == 0 then pid == root && Has(rows, root)
    else exists parent :: Below(rows, root, parent, steps - 1) && IsChild(rows, pid, parent)
  }

  ghost predicate IsBelow(rows: seq<Row>, root: Pid, pid: Pid) {
    exists steps: nat :: Below(rows, root, pid, steps)
  }

  predicate Distinct(pids: seq<Pid>) {
    forall i, j :: 0 <= i < j < |pids| ==> pids[i] != pids[j]
  }

  /** The children of `parent` that are not in `found` yet, in table order. */
  method NewChildren(rows: seq<Row>, parent: Pid, found: seq<Pid>) returns (children: seq<Pid>)
    requires IsTable(rows)
    ensures Distinct(children)
    ensures forall p :: p in children <==> IsChild(rows, p, parent) && p !in found
  {
    children := [];
    for k := 0 to |rows|
      invariant Distinct(children)
      invariant forall p :: p in children <==> p !in found && exists i :: 0 <= i < k && rows[i].pid == p && rows[i].ppid == parent
    {
      if rows[k].ppid == parent && rows[k].pid !in found {
        children := children + [rows[k].pid];
      }
    }
  }

  function PidsOf(rows: seq<Row>): set<Pid> {
    set k | 0 <= k < |rows| :: rows[k].pid
  }

  function SetOf(pids: seq<Pid>): set<Pid> {
    set k | 0 <= k < |pids| :: pids[k]
  }

  lemma {:induction false} DistinctSize(pids: seq<Pid>)
    requires Distinct(pids)
    ensures |SetOf(pids)| == |pids|
  {
    if pids != [] {
      var init, last := pids[..|pids| - 1], pids[|pids| - 1];
      DistinctSize(init);
      assert last !in SetOf(init);
      assert SetOf(pids) == SetOf(init) + {last};
    }
  }

  lemma DistinctBoth(a: seq<Pid>, b: seq<Pid>)
    requires Distinct(a) && Distinct(b) && forall p :: p in b ==> p !in a
    ensures Distinct(a + b)
  {
    var all := a + b;
    forall i, j | 0 <= i < j < |all|
      ensures all[i] != all[j]
    {
      if i < |a| <= j {
        assert all[j] in b && all[i] in a;
      }
    }
  }

  /** No more processes can be found than the table has rows. */
  lemma FoundFits(rows: seq<Row>, found: seq<Pid>)
    requires Distinct(found) && forall p :: p in found ==> Has(rows, p)
    ensures |found| <= |PidsOf(rows)|
  {
    DistinctSize(found);
    forall p | p in SetOf(found)
      ensures p in PidsOf(rows)
    {
      assert p in found;
      var k :| 0 <= k < |rows| && rows[k].pid == p;
    }
    CardinalityOfPart(SetOf(found), PidsOf(rows));
  }

  lemma {:induction false} CardinalityOfPart(a: set<Pid>, b: set<Pid>)
    requires a <= b
    ensures |a| <= |b|
    decreases |a|
  {
    if a != {} {
      var x :| x in a;
      CardinalityOfPart(a - {x}, b - {x});
    }
  }

  /** A set that holds the root and the children of its members holds every descendant. */
  lemma {:induction false} ClosedHoldsAll(rows: seq<Row>, root: Pid, found: seq<Pid>, pid: Pid, steps: nat)
    requires Has(rows, root) ==> root in found
    requires forall parent, child :: parent in found && IsChild(rows, child, parent) ==> child in found
    requires Below(rows, root, pid, steps)
    ensures pid in found
    decreases steps
  {
    if steps > 0 {
      var parent :| Below(rows, root, parent, steps - 1) && IsChild(rows, pid, parent);
      ClosedHoldsAll(rows, root, found, parent, steps - 1);
    }
  }

  lemma ChildIsBelow(rows: seq<Row>, root: Pid, parent: Pid, child: Pid)
    requires IsBelow(rows, root, parent) && IsChild(rows, child, parent)
    ensures IsBelow(rows, root, child)
  {
    var steps: nat :| Below(rows, root, parent, steps);
    assert Below(rows, root, child, steps + 1);
  }

  /**
    The list that is walked while it grows ends as the root and every descendant, each once, even where parent links
    form a loop.
  */
  method ProcessTree(rows: seq<Row>, root: Pid) returns (found: seq<Pid>)
    requires IsTable(rows)
    ensures Distinct(found)
    ensures forall pid :: pid in found <==> IsBelow(rows, root, pid)
  {
    found := if Has(rows, root) then [root] else [];
    if found != [] {
      assert Below(rows, root, root, 0);
    }
    var at := 0;
    while at < |found|
      invariant at <= |found| && Distinct(found) && (Has(rows, root) ==> root in found)
      invariant forall p :: p in found ==> Has(rows, p) && IsBelow(rows, root, p)
      invariant forall k, child :: 0 <= k < at && IsChild(rows, child, found[k]) ==> child in found
      decreases |PidsOf(rows)| - at
    {
      FoundFits(rows, found);
      var children := NewChildren(rows, found[at], found);
      forall child | child in children
        ensures IsBelow(rows, root, child)
      {
        ChildIsBelow(rows, root, found[at], child);
      }
      DistinctBoth(found, children);
      found := found + children;
      at := at + 1;
    }
    forall pid | IsBelow(rows, root, pid)
      ensures pid in found
    {
      var steps: nat :| Below(rows, root, pid, steps);
      ClosedHoldsAll(rows, root, found, pid, steps);
    }
  }

  // ---- what is still there ----------------------------------------------------------------------------------------

  datatype Recorded = Recorded(pid: Pid, command: string)

  datatype Present = Present(who: Recorded, commandChanged: bool)

  /** The row of a PID, if the table has it. */
  function RowOf(rows: seq<Row>, pid: Pid): Option<Row> {
    if rows == [] then None
    else if rows[0].pid == pid then Some(rows[0])
    else RowOf(rows[1..], pid)
  }

  lemma {:induction false} RowOfHas(rows: seq<Row>, pid: Pid)
    ensures RowOf(rows, pid).Some? <==> Has(rows, pid)
    ensures RowOf(rows, pid).Some? ==> RowOf(rows, pid).value in rows && RowOf(rows, pid).value.pid == pid
    decreases |rows|
  {
    if rows != [] {
      RowOfHas(rows[1..], pid);
      if Has(rows[1..], pid) {
        var k :| 0 <= k < |rows[1..]| && rows[1..][k].pid == pid;
        assert rows[k + 1].pid == pid;
      }
      if Has(rows, pid) && rows[0].pid != pid {
        var k :| 0 <= k < |rows| && rows[k].pid == pid;
        assert rows[1..][k - 1].pid == pid;
      }
    }
  }

  /**
    Asked strictly, a recorded process is left out exactly if its PID is in no row: another command line under the PID
    does not show it gone. Asked by default, it is there only with the same command line.
  */
  method StillRunning(rows: seq<Row>, seen: seq<Recorded>, strict: bool) returns (found: seq<Present>)
    ensures forall p :: p in found ==> p.who in seen && Has(rows, p.who.pid) && (p.commandChanged ==> strict)
    ensures strict ==> forall r :: r in seen && Has(rows, r.pid) ==> Present(r, true) in found || Present(r, false) in found
    ensures found == [] && strict ==> forall r :: r in seen ==> !Has(rows, r.pid)
    ensures forall p :: p in found ==> (p.commandChanged <==> RowOf(rows, p.who.pid).Some? && RowOf(rows, p.who.pid).value.command != p.who.command)
    ensures forall r :: r in seen && RowOf(rows, r.pid).Some? && RowOf(rows, r.pid).value.command == r.command ==> Present(r, false) in found
  {
    found := [];
    for k := 0 to |seen|
      invariant forall p :: p in found ==> p.who in seen[..k] && Has(rows, p.who.pid) && (p.commandChanged ==> strict)
      invariant strict ==> forall r :: r in seen[..k] && Has(rows, r.pid) ==> Present(r, true) in found || Present(r, false) in found
      invariant forall p :: p in found ==>
                  (p.commandChanged <==> RowOf(rows, p.who.pid).Some? && RowOf(rows, p.who.pid).value.command != p.who.command)
      invariant forall r :: r in seen[..k] && RowOf(rows, r.pid).Some? && RowOf(rows, r.pid).value.command == r.command ==> Present(r, false) in found
    {
      assert seen[..k + 1] == seen[..k] + [seen[k]];
      var now := RowOf(rows, seen[k].pid);
      RowOfHas(rows, seen[k].pid);
      if now.Some? {
        if now.value.command == seen[k].command {
          found := found + [Present(seen[k], false)];
        } else if strict {
          found := found + [Present(seen[k], true)];
        }
      }
    }
    assert seen[..|seen|] == seen;
  }
}
