/** What the snapshot of nested zones answers about a path, by the rights of the live registry and of its zones. */
module PathAnswers {
  import opened Wrappers
  import opened RootScopes
  import opened PathAuthority

  /** The rights that an operation needs, of one authority. */
  predicate Suffices(a: Authority, op: Operation) {
    match op
    case Read => Grants(a, ContentRead)
    case Search => Grants(a, ContentRead) && Grants(a, TextSearch)
    case Enumerate => Grants(a, ContentRead) || Grants(a, MetadataRead)
    case ScopeSearch => Grants(a, TextSearch)
  }

  lemma ZoneNeeds(zone: Zone, op: Operation)
    ensures zone.Allows(op) <==> Suffices(zone.authority, op)
  {
  }

  /** Whatever folding does to names: an operation is allowed exactly if each governing zone has the rights it needs. */
  lemma RightsDecide(zones: seq<Zone>, fold: Fold, op: Operation, path: Path)
    ensures Allows(zones, fold, op, path) <==> forall zone :: zone in Governing(zones, fold, path) ==> Suffices(zone.authority, op)
  {
    AllGoverningAllow(zones, fold, op, path);
    forall zone | zone in Governing(zones, fold, path)
      ensures zone.Allows(op) <==> Suffices(zone.authority, op)
    {
      ZoneNeeds(zone, op);
    }
  }

  /** The contents of what any governing zone protects are not read, nor are lines of it returned by a search. */
  lemma ProtectedIsNotRead(zones: seq<Zone>, fold: Fold, path: Path, zone: Zone)
    requires zone in Governing(zones, fold, path) && !zone.authority.contentRead
    ensures !Allows(zones, fold, Read, path) && !Allows(zones, fold, Search, path)
    ensures !zone.authority.metadataRead ==> !Allows(zones, fold, Enumerate, path)
  {
    RightsDecide(zones, fold, Read, path);
    RightsDecide(zones, fold, Search, path);
    RightsDecide(zones, fold, Enumerate, path);
  }

  /**
    Where a zone governs, the snapshot answers by the effective authority of the live registry, right by right; where
    none does, everything is allowed.
  */
  lemma AnswersAreLive(scopes: seq<Scope>, fold: Fold, base: Path, names: set<string>, path: Path, op: Operation)
    requires Sorted(scopes) && Named(path) && Within(path, base)
    requires InjectiveOn(fold, names) && InPlay(path, names)
    requires forall k :: 0 <= k < |scopes| ==> InPlay(scopes[k].root, names)
    ensures var zones := Beneath(scopes, fold, base);
            if Governing(zones, fold, path) == [] then Allows(zones, fold, op, path)
            else
              var a := EffectiveAuthority(scopes, fold, path);
              a.Some? && (Allows(zones, fold, op, path) <==> Suffices(a.value, op))
  {
    SnapshotIsLive(scopes, fold, base, names, path);
    RightsDecide(Beneath(scopes, fold, base), fold, op, path);
  }

  /** The answers of the registry itself, where a zone governs. */
  lemma RegistryAgrees(scopes: seq<Scope>, fold: Fold, base: Path, names: set<string>, path: Path)
    requires Sorted(scopes) && Named(path) && Within(path, base)
    requires InjectiveOn(fold, names) && InPlay(path, names)
    requires forall k :: 0 <= k < |scopes| ==> InPlay(scopes[k].root, names)
    requires Governing(Beneath(scopes, fold, base), fold, path) != []
    ensures Allows(Beneath(scopes, fold, base), fold, Read, path) <==> CanRead(scopes, fold, path)
    ensures Allows(Beneath(scopes, fold, base), fold, ScopeSearch, path) <==> CanSearch(scopes, fold, path)
  {
    AnswersAreLive(scopes, fold, base, names, path, Read);
    AnswersAreLive(scopes, fold, base, names, path, ScopeSearch);
    RegistryNeeds(scopes, fold, path);
  }

  lemma RegistryNeeds(scopes: seq<Scope>, fold: Fold, path: Path)
    ensures var a := EffectiveAuthority(scopes, fold, path);
            && (CanRead(scopes, fold, path) <==> a.Some? && Suffices(a.value, Read))
            && (CanSearch(scopes, fold, path) <==> a.Some? && Suffices(a.value, ScopeSearch))
  {
  }

  // ---- which directories are entered ----------------------------------------------------------------------------

  /** A zone that would allow the operation at its root, behind another zone with the same root that does not. */
  predicate Shadowed(zones: seq<Zone>, op: Operation, path: Path) {
    exists i, k :: 0 <= i < k < |zones| && zones[i].root == path == zones[k].root && !zones[i].Allows(op) && zones[k].Allows(op)
  }

  /** Of the zones that cover its root, the one that governs a zone's root has that very root. */
  lemma RootGoverns(scopes: seq<Scope>, fold: Fold, base: Path, k: nat)
    requires Sorted(scopes) && k < |Beneath(scopes, fold, base)| && Named(Beneath(scopes, fold, base)[k].root)
    ensures var zones := Beneath(scopes, fold, base);
            var first := FirstExact(zones, zones[k].root); first.Some? && first.value <= k && zones[first.value].root == zones[k].root
  {
    var zones, nested := Beneath(scopes, fold, base), Nested(scopes, fold, base);
    var path := zones[k].root;
    FirstExactIsFirst(zones, path);
    var i := FirstExact(zones, path).value;
    if i < k {
      NestedIsSorted(scopes, fold, base);
      DeepestFirst(nested, i, k, path);
    }
  }

  /**
    A directory is entered exactly if something at or below it is allowed. The one exception are two zones with one
    root: a walk enters the way to the second one though the first one governs.
  */
  lemma DescendsExactly(scopes: seq<Scope>, fold: Fold, op: Operation, base: Path, names: set<string>, directory: Path)
    requires Sorted(scopes) && InjectiveOn(fold, names) && InPlay(directory, names)
    requires forall k :: 0 <= k < |scopes| ==> InPlay(scopes[k].root, names) && Named(scopes[k].root)
    ensures var zones := Beneath(scopes, fold, base);
            Descends(zones, fold, op, directory) <==>
              exists path :: Within(path, directory) && InPlay(path, names)
                               && (Allows(zones, fold, op, path) || (path != directory && Shadowed(zones, op, path)))
  {
    var zones := Beneath(scopes, fold, base);
    ZonesInPlay(scopes, fold, base, names);
    if Descends(zones, fold, op, directory) {
      if Allows(zones, fold, op, directory) {
        assert Within(directory, directory);
      } else {
        var k :| 0 <= k < |zones| && zones[k].Allows(op) && Within(zones[k].root, directory) && zones[k].root != directory;
        ZoneIsOpen(scopes, fold, op, base, names, k);
      }
    }
    forall path | Within(path, directory) && InPlay(path, names)
                    && (Allows(zones, fold, op, path) || (path != directory && Shadowed(zones, op, path)))
      ensures Descends(zones, fold, op, directory)
    {
      if Allows(zones, fold, op, path) {
        if path != directory {
          AncestorsDescend(zones, fold, op, base, names, path, |directory|);
        }
      }
    }
  }

  lemma ZonesInPlay(scopes: seq<Scope>, fold: Fold, base: Path, names: set<string>)
    requires forall k :: 0 <= k < |scopes| ==> InPlay(scopes[k].root, names) && Named(scopes[k].root)
    ensures NamesInPlay(Beneath(scopes, fold, base), names)
    ensures forall k :: 0 <= k < |Beneath(scopes, fold, base)| ==> Named(Beneath(scopes, fold, base)[k].root)
  {
    var nested := Nested(scopes, fold, base);
    assert forall k :: 0 <= k < |nested| ==> nested[k] in scopes;
  }

  lemma ZoneIsOpen(scopes: seq<Scope>, fold: Fold, op: Operation, base: Path, names: set<string>, k: nat)
    requires Sorted(scopes) && InjectiveOn(fold, names)
    requires forall k :: 0 <= k < |scopes| ==> InPlay(scopes[k].root, names) && Named(scopes[k].root)
    requires k < |Beneath(scopes, fold, base)| && Beneath(scopes, fold, base)[k].Allows(op)
    ensures var zones := Beneath(scopes, fold, base);
            InPlay(zones[k].root, names) && (Allows(zones, fold, op, zones[k].root) || Shadowed(zones, op, zones[k].root))
  {
    var zones := Beneath(scopes, fold, base);
    ZonesInPlay(scopes, fold, base, names);
    RootGoverns(scopes, fold, base, k);
    OneGovernor(zones, fold, base, names, zones[k].root);
  }

  /** The root of the zone is allowed, and the directory above it is not. */
  predicate CutOff(zones: seq<Zone>, fold: Fold, op: Operation, zone: Zone) {
    Allows(zones, fold, op, zone.root) && !Allows(zones, fold, op, Parent(zone.root))
  }

  predicate StartsAt(zones: seq<Zone>, k: int, fold: Fold, op: Operation, base: Path, rel: Path) {
    0 <= k < |zones| && Below(zones[k].root, base) == rel && CutOff(zones, fold, op, zones[k])
  }

  lemma OnePocketMore(zones: seq<Zone>, n: nat, fold: Fold, op: Operation, base: Path, rel: Path)
    requires 0 < n <= |zones|
    ensures rel in PocketPaths(zones, n, fold, op, base) <==>
              rel in PocketPaths(zones, n - 1, fold, op, base) || StartsAt(zones, n - 1, fold, op, base, rel)
  {
  }

  ghost predicate StartsBefore(zones: seq<Zone>, n: nat, fold: Fold, op: Operation, base: Path, rel: Path) {
    exists k :: k < n && StartsAt(zones, k, fold, op, base, rel)
  }

  lemma OneStartMore(zones: seq<Zone>, n: nat, fold: Fold, op: Operation, base: Path, rel: Path)
    requires 0 < n <= |zones|
    ensures StartsBefore(zones, n, fold, op, base, rel) <==>
              StartsBefore(zones, n - 1, fold, op, base, rel) || StartsAt(zones, n - 1, fold, op, base, rel)
  {
  }

  /** Exactly the zones that are allowed beneath a parent that is not are listed as starts. */
  lemma {:induction false} PocketsAreListed(zones: seq<Zone>, n: nat, fold: Fold, op: Operation, base: Path, rel: Path)
    requires n <= |zones|
    ensures rel in PocketPaths(zones, n, fold, op, base) <==> StartsBefore(zones, n, fold, op, base, rel)
  {
    if n > 0 {
      PocketsAreListed(zones, n - 1, fold, op, base, rel);
      OnePocketMore(zones, n, fold, op, base, rel);
      OneStartMore(zones, n, fold, op, base, rel);
    }
  }

  // ---- which subtrees are excluded ------------------------------------------------------------------------------------

  /** A zone that denies, within no other one that does. */
  predicate DeniesAlone(zones: seq<Zone>, op: Operation, k: int) {
    && 0 <= k < |zones| && !Suffices(zones[k].authority, op)
    && forall j :: 0 <= j < |zones| && !Suffices(zones[j].authority, op) && Within(zones[k].root, zones[j].root) ==>
         zones[j].root == zones[k].root
  }

  lemma OutermostDeniesAlone(zones: seq<Zone>, op: Operation, k: nat)
    requires k < |zones|
    ensures IsOutermost(zones, op, zones[k]) <==> DeniesAlone(zones, op, k)
  {
    forall j | 0 <= j < |zones|
      ensures zones[j].Allows(op) <==> Suffices(zones[j].authority, op)
    {
      ZoneNeeds(zones[j], op);
    }
  }

  /** Excluded are exactly the roots of the zones that deny and lie within no other zone that does. */
  lemma ExcludedExactly(zones: seq<Zone>, op: Operation, base: Path, rel: Path)
    ensures rel in OutermostPaths(zones, |zones|, op, base) <==> exists k :: DeniesAlone(zones, op, k) && Below(zones[k].root, base) == rel
  {
    OutermostAreListed(zones, |zones|, op, base, rel);
    forall k | 0 <= k < |zones|
      ensures IsOutermost(zones, op, zones[k]) <==> DeniesAlone(zones, op, k)
    {
      OutermostDeniesAlone(zones, op, k);
    }
  }
}
