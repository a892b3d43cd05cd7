/**
  The nested zones beneath one workspace root: which zone governs a path, where a walk that never enters a denied
  directory has to start, and which subtrees a pathspec excludes.
*/
module PathAuthority {
  import opened Wrappers
  import opened RootScopes

  datatype Operation = Read | Search | Enumerate | ScopeSearch

  datatype Zone = Zone(root: Path, foldedRoot: Path, scopeId: string, authority: Authority) {
    predicate Covers(path: Path) {
      Within(path, root)
    }

    predicate CoversFolded(folded: Path) {
      Within(folded, foldedRoot)
    }

    predicate Allows(op: Operation) {
      match op
      case Read => authority.contentRead
      case Search => authority.contentRead && authority.textSearch
      case Enumerate => authority.contentRead || authority.metadataRead
      case ScopeSearch => authority.textSearch
    }
  }

  datatype WalkError = ZoneOutsideRoot

  /** The nested scopes of a workspace root, as an immutable view. */
  function Beneath(scopes: seq<Scope>, fold: Fold, base: Path): (zones: seq<Zone>)
    ensures var nested := Nested(scopes, fold, base);
            |zones| == |nested| && forall k :: 0 <= k < |zones| ==>
              zones[k] == Zone(nested[k].root, FoldPath(fold, nested[k].root), nested[k].id, nested[k].authority)
    ensures ZonesBeneath(zones, fold, base)
  {
    var nested := Nested(scopes, fold, base);
    seq(|nested|, k requires 0 <= k < |nested| =>
      Zone(nested[k].root, FoldPath(fold, nested[k].root), nested[k].id, nested[k].authority))
  }

  predicate ZonesBeneath(zones: seq<Zone>, fold: Fold, base: Path) {
    forall k :: 0 <= k < |zones| ==>
      && zones[k].foldedRoot == FoldPath(fold, zones[k].root)
      && |zones[k].root| > |base| && Within(zones[k].foldedRoot, FoldPath(fold, base))
  }

  // ---- which zones govern a path --------------------------------------------------------------------------

  function FirstExact(zones: seq<Zone>, path: Path): (k: Option<nat>)
    ensures k.Some? ==> k.value < |zones|
  {
    if zones == [] then None
    else if zones[0].Covers(path) then Some(0)
    else
      match FirstExact(zones[1..], path)
      case None => None
      case Some(k) => Some(k + 1)
  }

  function FirstFolded(zones: seq<Zone>, folded: Path): (k: Option<nat>)
    ensures k.Some? ==> k.value < |zones|
  {
    if zones == [] then None
    else if zones[0].CoversFolded(folded) then Some(0)
    else
      match FirstFolded(zones[1..], folded)
      case None => None
      case Some(k) => Some(k + 1)
  }

  lemma {:induction false} FirstExactIsFirst(zones: seq<Zone>, path: Path)
    ensures var k := FirstExact(zones, path);
            if k.None? then forall i :: 0 <= i < |zones| ==> !zones[i].Covers(path)
            else zones[k.value].Covers(path) && forall i :: 0 <= i < k.value ==> !zones[i].Covers(path)
  {
    if zones != [] && !zones[0].Covers(path) {
      FirstExactIsFirst(zones[1..], path);
      assert forall i :: 1 <= i < |zones| ==> zones[i] == zones[1..][i - 1];
    }
  }

  lemma {:induction false} FirstFoldedIsFirst(zones: seq<Zone>, folded: Path)
    ensures var k := FirstFolded(zones, folded);
            if k.None? then forall i :: 0 <= i < |zones| ==> !zones[i].CoversFolded(folded)
            else zones[k.value].CoversFolded(folded) && forall i :: 0 <= i < k.value ==> !zones[i].CoversFolded(folded)
  {
    if zones != [] && !zones[0].CoversFolded(folded) {
      FirstFoldedIsFirst(zones[1..], folded);
      assert forall i :: 1 <= i < |zones| ==> zones[i] == zones[1..][i - 1];
    }
  }

  /** Whose word counts for a path: the zone that both readings name, or both if they differ. */
  function Governing(zones: seq<Zone>, fold: Fold, path: Path): seq<Zone> {
    var exact, folded := FirstExact(zones, path), FirstFolded(zones, FoldPath(fold, path));
    if exact == folded then if exact.None? then [] else [zones[exact.value]]
    else (if exact.Some? then [zones[exact.value]] else []) + (if folded.Some? then [zones[folded.value]] else [])
  }

  predicate ViewAllows(zones: seq<Zone>, op: Operation, k: Option<nat>)
    requires k.Some? ==> k.value < |zones|
  {
    k.None? || zones[k.value].Allows(op)
  }

  /** Both readings of the path allow the operation. */
  predicate Allows(zones: seq<Zone>, fold: Fold, op: Operation, path: Path) {
    && ViewAllows(zones, op, FirstExact(zones, path))
    && ViewAllows(zones, op, FirstFolded(zones, FoldPath(fold, path)))
  }

  lemma AllGoverningAllow(zones: seq<Zone>, fold: Fold, op: Operation, path: Path)
    ensures Allows(zones, fold, op, path) <==> forall zone :: zone in Governing(zones, fold, path) ==> zone.Allows(op)
  {
    var exact, folded := FirstExact(zones, path), FirstFolded(zones, FoldPath(fold, path));
    if exact.Some? {
      assert zones[exact.value] in Governing(zones, fold, path);
    }
    if folded.Some? {
      assert zones[folded.value] in Governing(zones, fold, path);
    }
  }

  /** Whether a walk enters a directory. */
  predicate Descends(zones: seq<Zone>, fold: Fold, op: Operation, directory: Path) {
    || Allows(zones, fold, op, directory)
    || exists k :: 0 <= k < |zones| && zones[k].Allows(op) && Within(zones[k].root, directory) && zones[k].root != directory
  }

  function Parent(path: Path): Path {
    if path == [] then [] else path[..|path| - 1]
  }

  // ---- starts of a walk -----------------------------------------------------------------------------------

  predicate IsPocket(zones: seq<Zone>, fold: Fold, op: Operation, zone: Zone) {
    Allows(zones, fold, op, zone.root) && !Allows(zones, fold, op, Parent(zone.root))
  }

  predicate LiesBeneath(zone: Zone, fold: Fold, base: Path) {
    Within(zone.foldedRoot, FoldPath(fold, base)) && |zone.root| > |base|
  }

  /** A root cut by position below the workspace root. */
  function Below(root: Path, base: Path): Path {
    if |root| >= |base| then root[|base|..] else []
  }

  /** The paths of the pockets among the first `n` zones. */
  function PocketPaths(zones: seq<Zone>, n: nat, fold: Fold, op: Operation, base: Path): set<Path>
    requires n <= |zones|
  {
    if n == 0 then {}
    else if IsPocket(zones, fold, op, zones[n - 1])
    then PocketPaths(zones, n - 1, fold, op, base) + {Below(zones[n - 1].root, base)}
    else PocketPaths(zones, n - 1, fold, op, base)
  }

  lemma PocketPathStays(zones: seq<Zone>, n: nat, fold: Fold, op: Operation, base: Path, below: Path)
    requires n < |zones|
    ensures below in PocketPaths(zones, n, fold, op, base) ==> below in PocketPaths(zones, n + 1, fold, op, base)
    ensures IsPocket(zones, fold, op, zones[n]) && below == Below(zones[n].root, base) ==>
              below in PocketPaths(zones, n + 1, fold, op, base)
  {
  }

  lemma PocketIsListed(zones: seq<Zone>, n: nat, k: nat, fold: Fold, op: Operation, base: Path, below: Path)
    requires k < n <= |zones| && IsPocket(zones, fold, op, zones[k]) && below == Below(zones[k].root, base)
    ensures below in PocketPaths(zones, n, fold, op, base)
  {
    PocketPathStays(zones, k, fold, op, base, below);
    for j := k + 1 to n
      invariant below in PocketPaths(zones, j, fold, op, base)
    {
      PocketPathStays(zones, j, fold, op, base, below);
    }
  }

  /** Every pocket among the first `n` zones lies beneath the workspace root. */
  predicate PocketsLieBeneath(zones: seq<Zone>, n: nat, fold: Fold, op: Operation, base: Path)
    requires n <= |zones|
  {
    n == 0 || (PocketsLieBeneath(zones, n - 1, fold, op, base)
      && (IsPocket(zones, fold, op, zones[n - 1]) ==> LiesBeneath(zones[n - 1], fold, base)))
  }

  lemma PocketsFailOn(zones: seq<Zone>, n: nat, fold: Fold, op: Operation, base: Path)
    requires n < |zones| && !PocketsLieBeneath(zones, n, fold, op, base)
    ensures !PocketsLieBeneath(zones, n + 1, fold, op, base)
  {
  }

  lemma PocketsFailFrom(zones: seq<Zone>, n: nat, k: nat, fold: Fold, op: Operation, base: Path)
    requires k < n <= |zones| && !PocketsLieBeneath(zones, k + 1, fold, op, base)
    ensures !PocketsLieBeneath(zones, n, fold, op, base)
  {
    for j := k + 1 to n
      invariant !PocketsLieBeneath(zones, j, fold, op, base)
    {
      PocketsFailOn(zones, j, fold, op, base);
    }
  }

  /** The zones of a snapshot lie beneath its root, so neither walk list fails on one. */
  lemma {:induction false} SnapshotNeverFails(zones: seq<Zone>, n: nat, fold: Fold, op: Operation, base: Path)
    requires ZonesBeneath(zones, fold, base) && n <= |zones|
    ensures PocketsLieBeneath(zones, n, fold, op, base) && OutermostLieBeneath(zones, n, fold, op, base)
  {
    if n > 0 {
      SnapshotNeverFails(zones, n - 1, fold, op, base);
    }
  }

  /** One zone more in both lists. */
  lemma OneMoreZone(zones: seq<Zone>, k: nat, fold: Fold, op: Operation, base: Path)
    requires k < |zones| && PocketsLieBeneath(zones, k, fold, op, base)
    ensures PocketsLieBeneath(zones, k + 1, fold, op, base)
       <==> (IsPocket(zones, fold, op, zones[k]) ==> LiesBeneath(zones[k], fold, base))
    ensures PocketPaths(zones, k + 1, fold, op, base)
         == PocketPaths(zones, k, fold, op, base)
            + if IsPocket(zones, fold, op, zones[k]) then {Below(zones[k].root, base)} else {}
  {
  }

  /** The roots, below the workspace root, of allowed zones whose parent directory is denied. */
  method Pockets(zones: seq<Zone>, fold: Fold, op: Operation, base: Path) returns (r: Result<set<Path>, WalkError>)
    ensures r.Success? <==> PocketsLieBeneath(zones, |zones|, fold, op, base)
    ensures r.Success? ==> r.value == PocketPaths(zones, |zones|, fold, op, base)
  {
    var roots: set<Path> := {};
    for k := 0 to |zones|
      invariant PocketsLieBeneath(zones, k, fold, op, base)
      invariant roots == PocketPaths(zones, k, fold, op, base)
    {
      OneMoreZone(zones, k, fold, op, base);
      var pocket := IsPocket(zones, fold, op, zones[k]);
      if pocket {
        if !LiesBeneath(zones[k], fold, base) {
          PocketsFailFrom(zones, |zones|, k, fold, op, base);
          return Failure(ZoneOutsideRoot);
        }
        roots := roots + {Below(zones[k].root, base)};
      }
    }
    return Success(roots);
  }

  /** Where a walk may start: the workspace root, or the root of a pocket. */
  predicate IsStart(zones: seq<Zone>, fold: Fold, op: Operation, base: Path, start: Path) {
    start == base || (Within(start, base) && start[|base|..] in PocketPaths(zones, |zones|, fold, op, base))
  }

  ghost predicate NamesInPlay(zones: seq<Zone>, names: set<string>) {
    forall k :: 0 <= k < |zones| ==> InPlay(zones[k].root, names)
  }

  /** Where folding confuses no names, both readings of a path name the same zone. */
  lemma OneGovernor(zones: seq<Zone>, fold: Fold, base: Path, names: set<string>, path: Path)
    requires ZonesBeneath(zones, fold, base) && NamesInPlay(zones, names) && InjectiveOn(fold, names) && InPlay(path, names)
    ensures FirstFolded(zones, FoldPath(fold, path)) == FirstExact(zones, path)
  {
    forall k | 0 <= k < |zones|
      ensures zones[k].CoversFolded(FoldPath(fold, path)) <==> zones[k].Covers(path)
    {
      FoldedWithin(fold, names, path, zones[k].root);
    }
    FirstExactIsFirst(zones, path);
    FirstFoldedIsFirst(zones, FoldPath(fold, path));
  }

  /** The first `n` names of `path` name an allowed directory. */
  predicate AllowedAt(zones: seq<Zone>, fold: Fold, op: Operation, path: Path, n: nat) {
    n <= |path| && Allows(zones, fold, op, path[..n])
  }

  lemma CoversAbove(zone: Zone, path: Path, n: nat)
    requires n < |path|
    ensures zone.Covers(path[..n]) <==> zone.Covers(path[..n + 1]) && |zone.root| <= n
  {
    if |zone.root| <= n {
      assert path[..n + 1][..|zone.root|] == path[..n][..|zone.root|];
    }
  }

  /** Denied at `n` names and allowed at one more: another zone begins there. */
  lemma AnotherZoneBegins(zones: seq<Zone>, op: Operation, path: Path, n: nat) returns (b: nat)
    requires n < |path| && !ViewAllows(zones, op, FirstExact(zones, path[..n]))
    requires ViewAllows(zones, op, FirstExact(zones, path[..n + 1]))
    ensures b < |zones| && zones[b].root == path[..n + 1] && zones[b].Allows(op)
  {
    FirstExactIsFirst(zones, path[..n]);
    FirstExactIsFirst(zones, path[..n + 1]);
    var a := FirstExact(zones, path[..n]).value;
    CoversAbove(zones[a], path, n);
    b := FirstExact(zones, path[..n + 1]).value;
    CoversAbove(zones[b], path, n);
  }

  /** A denied directory above an allowed path: somewhere on the way down stands the root of a pocket. */
  lemma PocketOnTheWay(zones: seq<Zone>, fold: Fold, op: Operation, base: Path, names: set<string>, path: Path, n: nat)
    returns (zone: Zone)
    requires ZonesBeneath(zones, fold, base) && NamesInPlay(zones, names) && InjectiveOn(fold, names) && InPlay(path, names)
    requires n < |path| && !AllowedAt(zones, fold, op, path, n) && AllowedAt(zones, fold, op, path, n + 1)
    ensures zone in zones && zone.root == path[..n + 1] && zone.Allows(op) && IsPocket(zones, fold, op, zone)
  {
    OneGovernor(zones, fold, base, names, path[..n]);
    OneGovernor(zones, fold, base, names, path[..n + 1]);
    var b := AnotherZoneBegins(zones, op, path, n);
    zone := zones[b];
    assert Parent(path[..n + 1]) == path[..n];
  }

  /** Every directory from depth `n` down to the path itself is allowed. */
  predicate AllowedFrom(zones: seq<Zone>, fold: Fold, op: Operation, path: Path, n: nat) {
    forall k :: n <= k <= |path| ==> AllowedAt(zones, fold, op, path, k)
  }

  /** How far up from `n` everything is allowed, looking no higher than `low`. */
  lemma {:induction false} AllowedRun(zones: seq<Zone>, fold: Fold, op: Operation, path: Path, low: nat, n: nat)
    returns (m: nat)
    requires low <= n <= |path| && AllowedFrom(zones, fold, op, path, n)
    ensures low <= m <= n && AllowedFrom(zones, fold, op, path, m)
    ensures m > low ==> !AllowedAt(zones, fold, op, path, m - 1)
    decreases n
  {
    if n > low && AllowedAt(zones, fold, op, path, n - 1) {
      m := AllowedRun(zones, fold, op, path, low, n - 1);
    } else {
      m := n;
    }
  }

  lemma PocketIsStart(zones: seq<Zone>, fold: Fold, op: Operation, base: Path, zone: Zone)
    requires zone in zones && IsPocket(zones, fold, op, zone) && Within(zone.root, base)
    ensures IsStart(zones, fold, op, base, zone.root)
  {
    var k :| 0 <= k < |zones| && zones[k] == zone;
    PocketIsListed(zones, |zones|, k, fold, op, base, Below(zones[k].root, base));
  }

  /** Where a run of allowed directories cannot be continued upwards, it begins at a start. */
  lemma RunBeginsAtStart(zones: seq<Zone>, fold: Fold, op: Operation, base: Path, names: set<string>, path: Path, n: nat)
    requires ZonesBeneath(zones, fold, base) && NamesInPlay(zones, names) && InjectiveOn(fold, names) && InPlay(path, names)
    requires Within(path, base) && |base| <= n <= |path| && AllowedAt(zones, fold, op, path, n)
    requires n > |base| ==> !AllowedAt(zones, fold, op, path, n - 1)
    ensures IsStart(zones, fold, op, base, path[..n])
  {
    if n > |base| {
      var zone := PocketOnTheWay(zones, fold, op, base, names, path, n - 1);
      assert path[..n][..|base|] == base;
      PocketIsStart(zones, fold, op, base, zone);
    } else {
      assert path[..n] == base;
    }
  }

  /** Every allowed path has a start from which every directory down to it is allowed. */
  lemma PocketsComplete(zones: seq<Zone>, fold: Fold, op: Operation, base: Path, names: set<string>, path: Path)
    requires ZonesBeneath(zones, fold, base) && NamesInPlay(zones, names) && InjectiveOn(fold, names) && InPlay(path, names)
    requires Within(path, base) && Allows(zones, fold, op, path)
    ensures exists n: nat :: n <= |path| && IsStart(zones, fold, op, base, path[..n]) && AllowedFrom(zones, fold, op, path, n)
  {
    assert path[..|path|] == path;
    assert AllowedAt(zones, fold, op, path, |path|);
    var n := AllowedRun(zones, fold, op, path, |base|, |path|);
    RunBeginsAtStart(zones, fold, op, base, names, path, n);
  }

  /** A walk that asks `descends` at every directory reaches every allowed path. */
  lemma AncestorsDescend(
      zones: seq<Zone>, fold: Fold, op: Operation, base: Path, names: set<string>, path: Path, above: nat)
    requires ZonesBeneath(zones, fold, base) && NamesInPlay(zones, names) && InjectiveOn(fold, names) && InPlay(path, names)
    requires above < |path| && Allows(zones, fold, op, path)
    ensures Descends(zones, fold, op, path[..above])
  {
    assert path[..|path|] == path;
    var n := AllowedRun(zones, fold, op, path, above, |path|);
    if n > above {
      var zone := PocketOnTheWay(zones, fold, op, base, names, path, n - 1);
      assert path[..n][..above] == path[..above];
      assert Within(zone.root, path[..above]) && zone.root != path[..above];
    } else {
      assert AllowedAt(zones, fold, op, path, above);
    }
  }

  // ---- the snapshot is the live authority -----------------------------------------------------------------

  /** The first nested scope that covers a path is the first scope that covers it. */
  lemma FirstNested(scopes: seq<Scope>, fold: Fold, base: Path, path: Path)
    requires Sorted(scopes) && Named(path) && Within(path, base)
    ensures var nested := Nested(scopes, fold, base);
            var n, k := FirstCovering(nested, path), FirstCovering(scopes, path);
            if n.Some? then k.Some? && scopes[k.value] == nested[n.value]
            else k == FirstCovering(scopes, base)
  {
    var nested := Nested(scopes, fold, base);
    NestedCovers(scopes, fold, base, path);
    FirstCoveringIsFirst(scopes, path);
    var k, n := FirstCovering(scopes, path), FirstCovering(nested, path);
    if n.Some? {
      var j: nat :| FirstBelow(scopes, base, path, j) && scopes[j] == nested[n.value];
      if k.value < j {
        DeepestFirst(scopes, k.value, j, path);
      }
    } else {
      CoversBase(scopes, base, path);
    }
  }

  /** Scopes at or above the base cover a path beneath it exactly when they cover the base. */
  lemma CoversBase(scopes: seq<Scope>, base: Path, path: Path)
    requires Within(path, base)
    requires forall k :: 0 <= k < |scopes| && scopes[k].Covers(path) ==> |scopes[k].root| <= |base|
    ensures FirstCovering(scopes, path) == FirstCovering(scopes, base)
  {
    forall k | 0 <= k < |scopes|
      ensures scopes[k].Covers(path) <==> scopes[k].Covers(base)
    {
      if |scopes[k].root| <= |base| {
        assert path[..|scopes[k].root|] == base[..|scopes[k].root|];
      }
    }
    FirstCoveringIsFirst(scopes, path);
    FirstCoveringIsFirst(scopes, base);
  }

  /** The first scope that covers the path and lies strictly below the base, if there is one. */
  ghost predicate FirstBelow(scopes: seq<Scope>, base: Path, path: Path, k: nat) {
    && k < |scopes| && scopes[k].Covers(path) && |scopes[k].root| > |base|
    && forall i :: 0 <= i < k && scopes[i].Covers(path) ==> |scopes[i].root| <= |base|
  }

  /** A scope that covers a path beneath the base and is deeper than the base is nested in it. */
  lemma DeeperIsNested(scope: Scope, fold: Fold, base: Path, path: Path)
    requires scope.Covers(path) && |scope.root| > |base| && Within(path, base)
    ensures IsNested(scope, fold, base)
  {
    assert scope.root[..|base|] == path[..|base|];
    WithinFolds(fold, scope.root, base);
  }

  lemma FirstBelowExtends(scopes: seq<Scope>, base: Path, path: Path, k: nat)
    requires scopes != [] && FirstBelow(scopes[..|scopes| - 1], base, path, k)
    ensures FirstBelow(scopes, base, path, k)
  {
    assert forall i :: 0 <= i < |scopes| - 1 ==> scopes[..|scopes| - 1][i] == scopes[i];
  }

  lemma FirstBelowIsLast(scopes: seq<Scope>, base: Path, path: Path)
    requires scopes != [] && scopes[|scopes| - 1].Covers(path) && |scopes[|scopes| - 1].root| > |base|
    requires var init := scopes[..|scopes| - 1];
             forall k :: 0 <= k < |init| && init[k].Covers(path) ==> |init[k].root| <= |base|
    ensures FirstBelow(scopes, base, path, |scopes| - 1)
  {
    assert forall i :: 0 <= i < |scopes| - 1 ==> scopes[..|scopes| - 1][i] == scopes[i];
  }

  /** What a nested scope that covers a path says about the scopes it was taken from. */
  ghost predicate NestedDecides(scopes: seq<Scope>, nested: seq<Scope>, base: Path, path: Path, n: Option<nat>)
    requires n.Some? ==> n.value < |nested|
  {
    if n.None? then forall k :: 0 <= k < |scopes| && scopes[k].Covers(path) ==> |scopes[k].root| <= |base|
    else exists k: nat :: FirstBelow(scopes, base, path, k) && scopes[k] == nested[n.value]
  }

  /** The first nested scope that covers a path is the first scope strictly below the base that does. */
  lemma {:induction false} NestedCovers(scopes: seq<Scope>, fold: Fold, base: Path, path: Path)
    requires Within(path, base)
    ensures var nested := Nested(scopes, fold, base);
            NestedDecides(scopes, nested, base, path, FirstCovering(nested, path))
  {
    if scopes != [] {
      var init, last := scopes[..|scopes| - 1], scopes[|scopes| - 1];
      NestedCovers(init, fold, base, path);
      var before, nested := Nested(init, fold, base), Nested(scopes, fold, base);
      AppendFirst(before, nested, path);
      var n := FirstCovering(before, path);
      if n.Some? {
        var k: nat :| FirstBelow(init, base, path, k) && init[k] == before[n.value];
        FirstBelowExtends(scopes, base, path, k);
        assert scopes[k] == nested[n.value];
      } else if last.Covers(path) && |last.root| > |base| {
        DeeperIsNested(last, fold, base, path);
        FirstBelowIsLast(scopes, base, path);
        assert nested[|before|] == last;
      } else {
        assert FirstCovering(nested, path).None? by {
          assert IsNested(last, fold, base) ==> nested[|before|] == last;
        }
        assert forall k :: 0 <= k < |init| ==> init[k] == scopes[k];
      }
    }
  }

  lemma AppendFirst(before: seq<Scope>, nested: seq<Scope>, path: Path)
    requires nested == before || (|nested| == |before| + 1 && nested[..|before|] == before)
    ensures FirstCovering(before, path).Some? ==> FirstCovering(nested, path) == FirstCovering(before, path)
    ensures FirstCovering(before, path).None? && |nested| > |before| ==>
              FirstCovering(nested, path) == if nested[|before|].Covers(path) then Some(|before|) else None
  {
    assert forall k :: 0 <= k < |before| ==> nested[k] == nested[..|before|][k];
    FirstCoveringIsFirst(before, path);
    FirstCoveringIsFirst(nested, path);
  }

  lemma SameFirst(zones: seq<Zone>, scopes: seq<Scope>, path: Path)
    requires |zones| == |scopes| && forall k :: 0 <= k < |zones| ==> (zones[k].Covers(path) <==> scopes[k].Covers(path))
    ensures FirstExact(zones, path) == FirstCovering(scopes, path)
  {
    FirstExactIsFirst(zones, path);
    FirstCoveringIsFirst(scopes, path);
  }

  /** Zone covering is scope covering. */
  lemma ZonesCoverAsScopes(scopes: seq<Scope>, fold: Fold, base: Path, path: Path)
    ensures FirstExact(Beneath(scopes, fold, base), path) == FirstCovering(Nested(scopes, fold, base), path)
  {
    SameFirst(Beneath(scopes, fold, base), Nested(scopes, fold, base), path);
  }

  /**
    The zone that governs a path in the snapshot is the scope the live registry uses for it; where no zone covers
    the path, its authority is that of the workspace root.
  */
  lemma SnapshotIsLive(scopes: seq<Scope>, fold: Fold, base: Path, names: set<string>, path: Path)
    requires Sorted(scopes) && Named(path) && Within(path, base)
    requires InjectiveOn(fold, names) && InPlay(path, names)
    requires forall k :: 0 <= k < |scopes| ==> InPlay(scopes[k].root, names)
    ensures var governing := Governing(Beneath(scopes, fold, base), fold, path);
            if governing == [] then EffectiveAuthority(scopes, fold, path) == EffectiveAuthority(scopes, fold, base)
            else |governing| == 1 && EffectiveAuthority(scopes, fold, path) == Some(governing[0].authority)
  {
    var zones, nested := Beneath(scopes, fold, base), Nested(scopes, fold, base);
    forall k | 0 <= k < |zones|
      ensures InPlay(zones[k].root, names)
    {
      assert nested[k] in scopes;
    }
    OneGovernor(zones, fold, base, names, path);
    ZonesCoverAsScopes(scopes, fold, base, path);
    FirstNested(scopes, fold, base, path);
    assert Named(base) && InPlay(base, names) by {
      assert forall k :: 0 <= k < |base| ==> path[..|base|][k] == base[k];
    }
    ViewsAgree(scopes, fold, names, path);
    ViewsAgree(scopes, fold, names, base);
  }

  // ---- excluded subtrees ----------------------------------------------------------------------------------

  predicate Denies(zones: seq<Zone>, op: Operation, zone: Zone) {
    zone in zones && !zone.Allows(op)
  }

  predicate StrictlyBelow(path: Path, root: Path) {
    Within(path, root) && path != root
  }

  /** A denying zone that no other denying zone contains. */
  predicate IsOutermost(zones: seq<Zone>, op: Operation, zone: Zone) {
    Denies(zones, op, zone) && !exists other :: other in zones && Denies(zones, op, other) && StrictlyBelow(zone.root, other.root)
  }

  /** The paths of the outermost denying zones among the first `n`. */
  function OutermostPaths(zones: seq<Zone>, n: nat, op: Operation, base: Path): set<Path>
    requires n <= |zones|
  {
    if n == 0 then {}
    else if IsOutermost(zones, op, zones[n - 1])
    then OutermostPaths(zones, n - 1, op, base) + {Below(zones[n - 1].root, base)}
    else OutermostPaths(zones, n - 1, op, base)
  }

  /** Exactly the cut roots of outermost denying zones are listed. */
  lemma {:induction false} OutermostAreListed(zones: seq<Zone>, n: nat, op: Operation, base: Path, rel: Path)
    requires n <= |zones|
    ensures rel in OutermostPaths(zones, n, op, base) <==>
              exists k :: 0 <= k < n && IsOutermost(zones, op, zones[k]) && Below(zones[k].root, base) == rel
  {
    if n > 0 {
      OutermostAreListed(zones, n - 1, op, base, rel);
    }
  }

  predicate OutermostLieBeneath(zones: seq<Zone>, n: nat, fold: Fold, op: Operation, base: Path)
    requires n <= |zones|
  {
    n == 0 || (OutermostLieBeneath(zones, n - 1, fold, op, base)
      && (IsOutermost(zones, op, zones[n - 1]) ==> LiesBeneath(zones[n - 1], fold, base)))
  }

  lemma {:induction false} OutermostFailFrom(zones: seq<Zone>, n: nat, k: nat, fold: Fold, op: Operation, base: Path)
    requires k < n <= |zones| && !OutermostLieBeneath(zones, k + 1, fold, op, base)
    ensures !OutermostLieBeneath(zones, n, fold, op, base)
  {
    if k + 1 < n {
      OutermostFailFrom(zones, n - 1, k, fold, op, base);
    }
  }

  /** The subtrees, below the workspace root, that a pathspec excludes. */
  method ExcludedSubtrees(zones: seq<Zone>, fold: Fold, op: Operation, base: Path) returns (r: Result<set<Path>, WalkError>)
    ensures r.Success? <==> OutermostLieBeneath(zones, |zones|, fold, op, base)
    ensures r.Success? ==> r.value == OutermostPaths(zones, |zones|, op, base)
  {
    var subtrees: set<Path> := {};
    for k := 0 to |zones|
      invariant OutermostLieBeneath(zones, k, fold, op, base)
      invariant subtrees == OutermostPaths(zones, k, op, base)
    {
      var outermost := IsOutermost(zones, op, zones[k]);
      if outermost {
        if !LiesBeneath(zones[k], fold, base) {
          OutermostFailFrom(zones, |zones|, k, fold, op, base);
          return Failure(ZoneOutsideRoot);
        }
        subtrees := subtrees + {Below(zones[k].root, base)};
      }
    }
    return Success(subtrees);
  }

  /** Above every denying zone stands an outermost one. */
  lemma {:induction false} OutermostAbove(zones: seq<Zone>, op: Operation, zone: Zone) returns (outer: Zone)
    requires Denies(zones, op, zone)
    ensures IsOutermost(zones, op, outer) && Within(zone.root, outer.root)
    decreases |zone.root|
  {
    if IsOutermost(zones, op, zone) {
      outer := zone;
    } else {
      var other :| other in zones && Denies(zones, op, other) && StrictlyBelow(zone.root, other.root);
      outer := OutermostAbove(zones, op, other);
      assert zone.root[..|outer.root|] == other.root[..|outer.root|];
    }
  }

  /** A refused path lies, as folded, in a zone that denies the operation. */
  lemma DenyingZone(zones: seq<Zone>, fold: Fold, op: Operation, base: Path, path: Path) returns (zone: Zone)
    requires ZonesBeneath(zones, fold, base) && !Allows(zones, fold, op, path)
    ensures Denies(zones, op, zone) && zone.CoversFolded(FoldPath(fold, path))
  {
    FirstExactIsFirst(zones, path);
    FirstFoldedIsFirst(zones, FoldPath(fold, path));
    var exact, folded := FirstExact(zones, path), FirstFolded(zones, FoldPath(fold, path));
    if ViewAllows(zones, op, exact) {
      zone := zones[folded.value];
    } else {
      zone := zones[exact.value];
      WithinFolds(fold, path, zone.root);
    }
  }

  /** What `allows` refuses beneath the root lies in an excluded subtree, whatever folding does to the names. */
  lemma ExclusionFailsClosed(zones: seq<Zone>, fold: Fold, op: Operation, base: Path, path: Path)
    requires ZonesBeneath(zones, fold, base)
    requires Within(FoldPath(fold, path), FoldPath(fold, base)) && !Allows(zones, fold, op, path)
    ensures exists rel :: rel in OutermostPaths(zones, |zones|, op, base)
              && Within(FoldPath(fold, path[|base|..]), FoldPath(fold, rel))
  {
    var folded := FoldPath(fold, path);
    var denying := DenyingZone(zones, fold, op, base, path);
    var outer := OutermostAbove(zones, op, denying);
    WithinFolds(fold, denying.root, outer.root);
    assert folded[..|outer.root|] == denying.foldedRoot[..|outer.root|] == outer.foldedRoot;
    var rel, cut := path[|base|..], outer.root[|base|..];
    forall k | 0 <= k < |cut|
      ensures FoldPath(fold, rel)[k] == FoldPath(fold, cut)[k]
    {
      assert folded[..|outer.root|][|base| + k] == outer.foldedRoot[|base| + k];
    }
    assert FoldPath(fold, rel)[..|cut|] == FoldPath(fold, cut);
    var k :| 0 <= k < |zones| && zones[k] == outer;
    OutermostAreListed(zones, |zones|, op, base, cut);
  }

  /** Nothing outside the denying zones is excluded: every excluded path is cut from a denying zone of the snapshot. */
  lemma ExcludedAreDenied(zones: seq<Zone>, fold: Fold, op: Operation, base: Path, rel: Path)
    requires ZonesBeneath(zones, fold, base) && rel in OutermostPaths(zones, |zones|, op, base)
    ensures exists zone :: zone in zones && !zone.Allows(op) && Below(zone.root, base) == rel
              && FoldPath(fold, zone.root) == FoldPath(fold, base) + FoldPath(fold, rel)
  {
    OutermostAreListed(zones, |zones|, op, base, rel);
    var k :| 0 <= k < |zones| && IsOutermost(zones, op, zones[k]) && Below(zones[k].root, base) == rel;
    var zone := zones[k];
    assert FoldPath(fold, zone.root) == FoldPath(fold, base) + FoldPath(fold, rel) by {
      assert forall k :: 0 <= k < |base| ==> zone.foldedRoot[..|base|][k] == FoldPath(fold, base)[k];
    }
  }
}
