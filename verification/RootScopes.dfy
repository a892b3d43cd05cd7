/** Absolute paths, nested trust zones and the live authority of a path. */
module RootScopes {
  import opened Wrappers

  /** A resolved absolute path: the names below `/`. */
  type Path = seq<string>

  /** How names are compared where their spelling does not matter: by their images, under any function. */
  type Fold = string -> string

  predicate Within(path: Path, root: Path) {
    |root| <= |path| && path[..|root|] == root
  }

  function FoldPath(fold: Fold, path: Path): (f: Path)
    ensures |f| == |path| && forall k :: 0 <= k < |f| ==> f[k] == fold(path[k])
  {
    seq(|path|, k requires 0 <= k < |path| => fold(path[k]))
  }

  datatype Authority = Authority(
    discover: bool, metadataRead: bool, contentRead: bool, textSearch: bool, gitObserve: bool,
    classify: bool, index: bool, relate: bool, autoAdmit: bool, directoryAdmit: bool)
  {
    /** What both authorities grant. */
    function Meet(other: Authority): Authority {
      Authority(
        discover && other.discover, metadataRead && other.metadataRead, contentRead && other.contentRead,
        textSearch && other.textSearch, gitObserve && other.gitObserve, classify && other.classify,
        index && other.index, relate && other.relate, autoAdmit && other.autoAdmit,
        directoryAdmit && other.directoryAdmit)
    }
  }

  datatype Scope = Scope(id: string, root: Path, authority: Authority) {
    predicate Covers(path: Path) {
      Within(path, root)
    }

    predicate CoversFolded(fold: Fold, path: Path) {
      Within(FoldPath(fold, path), FoldPath(fold, root))
    }
  }

  /** The length of a path as text: a separator in front of every name, `/` alone for the root. */
  function TextLength(path: Path): nat {
    if path == [] then 1 else NamesLength(path)
  }

  function NamesLength(path: Path): nat {
    if path == [] then 0 else 1 + |path[0]| + NamesLength(path[1..])
  }

  /** Longest text first: the order in which the registry keeps its scopes. */
  predicate Sorted(scopes: seq<Scope>) {
    forall i, j :: 0 <= i < j < |scopes| ==> TextLength(scopes[i].root) >= TextLength(scopes[j].root)
  }

  /** Stable insertion from the right: what a stable descending sort returns. */
  function SortScopes(scopes: seq<Scope>): (r: seq<Scope>)
    ensures Sorted(r) && multiset(r) == multiset(scopes)
  {
    if scopes == [] then []
    else
      assert scopes == [scopes[0]] + scopes[1..];
      Insert(scopes[0], SortScopes(scopes[1..]))
  }

  /** The number of scopes whose text is longer; they stand in front. */
  function LongerCount(scope: Scope, sorted: seq<Scope>): (n: nat)
    ensures n <= |sorted|
    ensures forall k :: 0 <= k < n ==> TextLength(sorted[k].root) > TextLength(scope.root)
    ensures n < |sorted| ==> TextLength(sorted[n].root) <= TextLength(scope.root)
  {
    if sorted == [] || TextLength(sorted[0].root) <= TextLength(scope.root) then 0 else 1 + LongerCount(scope, sorted[1..])
  }

  function Insert(scope: Scope, sorted: seq<Scope>): (r: seq<Scope>)
    requires Sorted(sorted)
    ensures Sorted(r) && multiset(r) == multiset([scope] + sorted)
  {
    var n := LongerCount(scope, sorted);
    InsertionSorts(scope, sorted, n);
    InsertionKeeps(scope, sorted, n);
    sorted[..n] + [scope] + sorted[n..]
  }

  lemma InsertedAt(scope: Scope, sorted: seq<Scope>, n: nat, k: nat)
    requires n <= |sorted| && k <= |sorted|
    ensures (sorted[..n] + [scope] + sorted[n..])[k] == if k < n then sorted[k] else if k == n then scope else sorted[k - 1]
  {
  }

  lemma InsertionSorts(scope: Scope, sorted: seq<Scope>, n: nat)
    requires Sorted(sorted) && n == LongerCount(scope, sorted)
    ensures Sorted(sorted[..n] + [scope] + sorted[n..])
  {
    var r := sorted[..n] + [scope] + sorted[n..];
    forall i, j | 0 <= i < j < |r|
      ensures TextLength(r[i].root) >= TextLength(r[j].root)
    {
      InsertedAt(scope, sorted, n, i);
      InsertedAt(scope, sorted, n, j);
    }
  }

  lemma InsertionKeeps(scope: Scope, sorted: seq<Scope>, n: nat)
    requires n <= |sorted|
    ensures multiset(sorted[..n] + [scope] + sorted[n..]) == multiset([scope] + sorted)
  {
    assert sorted == sorted[..n] + sorted[n..];
  }

  /** The scope whose folded root is the deepest of those that cover the folded path; the first of the deepest. */
  function DeepestFolded(scopes: seq<Scope>, fold: Fold, path: Path): (best: Option<nat>)
    ensures best.None? ==> forall k :: 0 <= k < |scopes| ==> !scopes[k].CoversFolded(fold, path)
    ensures best.Some? ==>
              && best.value < |scopes| && scopes[best.value].CoversFolded(fold, path)
              && (forall k :: 0 <= k < |scopes| && scopes[k].CoversFolded(fold, path) ==>
                    |scopes[k].root| <= |scopes[best.value].root|)
              && (forall k :: 0 <= k < best.value && scopes[k].CoversFolded(fold, path) ==>
                    |scopes[k].root| < |scopes[best.value].root|)
  {
    if scopes == [] then None
    else
      var last := |scopes| - 1;
      var best := DeepestFolded(scopes[..last], fold, path);
      if scopes[last].CoversFolded(fold, path) && (best.None? || |scopes[last].root| > |scopes[best.value].root|)
      then Some(last) else best
  }

  function FirstCovering(scopes: seq<Scope>, path: Path): (k: Option<nat>)
    ensures k.Some? ==> k.value < |scopes|
  {
    if scopes == [] then None
    else if scopes[0].Covers(path) then Some(0)
    else
      match FirstCovering(scopes[1..], path)
      case None => None
      case Some(k) => Some(k + 1)
  }

  lemma {:induction false} FirstCoveringIsFirst(scopes: seq<Scope>, path: Path)
    ensures var k := FirstCovering(scopes, path);
            if k.None? then forall i :: 0 <= i < |scopes| ==> !scopes[i].Covers(path)
            else scopes[k.value].Covers(path) && forall i :: 0 <= i < k.value ==> !scopes[i].Covers(path)
  {
    if scopes != [] && !scopes[0].Covers(path) {
      FirstCoveringIsFirst(scopes[1..], path);
      assert forall i :: 1 <= i < |scopes| ==> scopes[i] == scopes[1..][i - 1];
    }
  }

  /** The authority of a path: what the most specific scope grants as spelled, and as folded. */
  function EffectiveAuthority(scopes: seq<Scope>, fold: Fold, path: Path): Option<Authority> {
    var exact, folded := FirstCovering(scopes, path), DeepestFolded(scopes, fold, path);
    if exact.None? || folded.None? then None
    else if exact == folded then Some(scopes[exact.value].authority)
    else Some(scopes[exact.value].authority.Meet(scopes[folded.value].authority))
  }

  predicate CanRead(scopes: seq<Scope>, fold: Fold, path: Path) {
    var a := EffectiveAuthority(scopes, fold, path); a.Some? && a.value.contentRead
  }

  predicate CanSearch(scopes: seq<Scope>, fold: Fold, path: Path) {
    var a := EffectiveAuthority(scopes, fold, path); a.Some? && a.value.textSearch
  }

  datatype Right =
    | Discover | MetadataRead | ContentRead | TextSearch | GitObserve | Classify | Index | Relate | AutoAdmit | DirectoryAdmit

  predicate Grants(a: Authority, right: Right) {
    match right
    case Discover => a.discover
    case MetadataRead => a.metadataRead
    case ContentRead => a.contentRead
    case TextSearch => a.textSearch
    case GitObserve => a.gitObserve
    case Classify => a.classify
    case Index => a.index
    case Relate => a.relate
    case AutoAdmit => a.autoAdmit
    case DirectoryAdmit => a.directoryAdmit
  }

  /** The scope stands first among those that cover the path as spelled. */
  predicate NamedAsSpelled(scopes: seq<Scope>, path: Path, k: int) {
    0 <= k < |scopes| && scopes[k].Covers(path) && forall i :: 0 <= i < k ==> !scopes[i].Covers(path)
  }

  /** No scope that covers the folded path is deeper, and none of its depth stands before it. */
  predicate NamedAsFolded(scopes: seq<Scope>, fold: Fold, path: Path, k: int) {
    && 0 <= k < |scopes| && scopes[k].CoversFolded(fold, path)
    && (forall i :: 0 <= i < |scopes| && scopes[i].CoversFolded(fold, path) ==> |scopes[i].root| <= |scopes[k].root|)
    && (forall i :: 0 <= i < k && scopes[i].CoversFolded(fold, path) ==> |scopes[i].root| < |scopes[k].root|)
  }

  lemma SpelledIsFirst(scopes: seq<Scope>, path: Path)
    ensures forall k :: NamedAsSpelled(scopes, path, k) <==> FirstCovering(scopes, path) == Some(k)
  {
    FirstCoveringIsFirst(scopes, path);
  }

  lemma FoldedIsDeepest(scopes: seq<Scope>, fold: Fold, path: Path)
    ensures forall k :: NamedAsFolded(scopes, fold, path, k) <==> DeepestFolded(scopes, fold, path) == Some(k)
  {
  }

  /** Whatever folding does: a right is granted exactly if both scopes that the two readings name grant it. */
  lemma BothReadingsGrant(scopes: seq<Scope>, fold: Fold, path: Path, right: Right)
    ensures var a := EffectiveAuthority(scopes, fold, path);
            (a.Some? && Grants(a.value, right)) <==>
              exists i, j :: NamedAsSpelled(scopes, path, i) && NamedAsFolded(scopes, fold, path, j)
                               && Grants(scopes[i].authority, right) && Grants(scopes[j].authority, right)
  {
    SpelledIsFirst(scopes, path);
    FoldedIsDeepest(scopes, fold, path);
    var exact, folded := FirstCovering(scopes, path), DeepestFolded(scopes, fold, path);
    if exact.Some? && folded.Some? {
      assert NamedAsSpelled(scopes, path, exact.value) && NamedAsFolded(scopes, fold, path, folded.value);
      MeetGrants(scopes[exact.value].authority, scopes[folded.value].authority, right);
    }
  }

  lemma MeetGrants(a: Authority, b: Authority, right: Right)
    ensures Grants(a.Meet(b), right) <==> Grants(a, right) && Grants(b, right)
  {
  }

  /** A path has an authority exactly if each of the two readings finds a scope for it. */
  lemma CoveredByBoth(scopes: seq<Scope>, fold: Fold, path: Path)
    ensures EffectiveAuthority(scopes, fold, path).Some? <==>
              (exists i :: 0 <= i < |scopes| && scopes[i].Covers(path)) && (exists j :: 0 <= j < |scopes| && scopes[j].CoversFolded(fold, path))
  {
    FirstCoveringIsFirst(scopes, path);
  }

  /** A scope strictly inside `base`, as a folding filesystem sees it. */
  predicate IsNested(scope: Scope, fold: Fold, base: Path) {
    |scope.root| > |base| && Within(FoldPath(fold, scope.root), FoldPath(fold, base))
  }

  function Nested(scopes: seq<Scope>, fold: Fold, base: Path): (r: seq<Scope>)
    ensures forall k :: 0 <= k < |r| ==> r[k] in scopes && IsNested(r[k], fold, base)
  {
    if scopes == [] then []
    else
      var rest := Nested(scopes[..|scopes| - 1], fold, base);
      if IsNested(scopes[|scopes| - 1], fold, base) then rest + [scopes[|scopes| - 1]] else rest
  }

  /** The registry of standing trust zones, most specific first. */
  class RootScopeRegistry {
    var scopes: seq<Scope>

    ghost predicate Valid()
      reads this
    {
      Sorted(scopes)
    }

    constructor ()
      ensures Valid() && scopes == []
    {
      scopes := [];
    }

    method AddScope(scope: Scope)
      requires Valid()
      modifies this
      ensures Valid() && scopes == SortScopes(old(scopes) + [scope])
      ensures multiset(scopes) == multiset(old(scopes)) + multiset{scope}
    {
      scopes := SortScopes(scopes + [scope]);
    }

    method ReplaceScopes(replacement: seq<Scope>)
      modifies this
      ensures Valid() && scopes == SortScopes(replacement) && multiset(scopes) == multiset(replacement)
    {
      scopes := SortScopes(replacement);
    }

    /** The narrower zones inside a workspace root, most specific first. */
    method NestedScopes(fold: Fold, base: Path) returns (nested: seq<Scope>)
      requires Valid()
      ensures nested == Nested(scopes, fold, base) && Sorted(nested)
    {
      nested := [];
      var k := 0;
      while k < |scopes|
        invariant k <= |scopes| && nested == Nested(scopes[..k], fold, base)
      {
        assert scopes[..k + 1][..k] == scopes[..k];
        if IsNested(scopes[k], fold, base) {
          nested := nested + [scopes[k]];
        }
        k := k + 1;
      }
      assert scopes[..k] == scopes;
      NestedIsSorted(scopes, fold, base);
    }
  }

  lemma {:induction false} NestedIsSorted(scopes: seq<Scope>, fold: Fold, base: Path)
    requires Sorted(scopes)
    ensures Sorted(Nested(scopes, fold, base))
  {
    if scopes != [] {
      var init, last := scopes[..|scopes| - 1], scopes[|scopes| - 1];
      NestedIsSorted(init, fold, base);
      forall k | 0 <= k < |Nested(init, fold, base)|
        ensures TextLength(Nested(init, fold, base)[k].root) >= TextLength(last.root)
      {
        assert Nested(init, fold, base)[k] in init;
      }
    }
  }

  // ---- names in play --------------------------------------------------------------------------------------

  /** Folding keeps these names apart. */
  ghost predicate InjectiveOn(fold: Fold, names: set<string>) {
    forall a, b :: a in names && b in names && fold(a) == fold(b) ==> a == b
  }

  ghost predicate InPlay(path: Path, names: set<string>) {
    forall k :: 0 <= k < |path| ==> path[k] in names
  }

  lemma FoldedWithin(fold: Fold, names: set<string>, path: Path, root: Path)
    requires InjectiveOn(fold, names) && InPlay(path, names) && InPlay(root, names)
    ensures Within(FoldPath(fold, path), FoldPath(fold, root)) <==> Within(path, root)
  {
    WithinFolds(fold, path, root);
    if Within(FoldPath(fold, path), FoldPath(fold, root)) {
      forall k | 0 <= k < |root|
        ensures path[k] == root[k]
      {
        assert FoldPath(fold, path)[..|root|][k] == FoldPath(fold, root)[k];
      }
    }
  }

  /** What is within a root as spelled is within it as folded. */
  lemma WithinFolds(fold: Fold, path: Path, root: Path)
    ensures Within(path, root) ==> Within(FoldPath(fold, path), FoldPath(fold, root))
  {
    if Within(path, root) {
      forall k | 0 <= k < |root|
        ensures FoldPath(fold, path)[k] == FoldPath(fold, root)[k]
      {
        assert path[..|root|][k] == root[k];
      }
    }
  }

  // ---- the order of texts is the order of depths ------------------------------------------------------------

  predicate Named(path: Path) {
    forall k :: 0 <= k < |path| ==> path[k] != ""
  }

  lemma {:induction false} NamesLengthSplits(a: Path, b: Path)
    ensures NamesLength(a + b) == NamesLength(a) + NamesLength(b)
  {
    if a == [] {
      assert a + b == b;
    } else {
      NamesLengthSplits(a[1..], b);
      assert (a + b)[1..] == a[1..] + b;
    }
  }

  /** A path strictly below another one is longer as text. */
  lemma DeeperIsLonger(path: Path, root: Path)
    requires Within(path, root) && |root| < |path| && Named(path)
    ensures TextLength(path) > TextLength(root)
  {
    var rest := path[|root|..];
    assert path == root + rest;
    NamesLengthSplits(root, rest);
    assert rest[0] == path[|root|] != "";
  }

  /** In a sorted registry no scope stands before a deeper one that covers the same path. */
  lemma DeepestFirst(scopes: seq<Scope>, i: nat, j: nat, path: Path)
    requires Sorted(scopes) && i < j < |scopes| && Named(path)
    requires scopes[i].Covers(path) && scopes[j].Covers(path)
    ensures |scopes[i].root| >= |scopes[j].root|
  {
    if |scopes[i].root| < |scopes[j].root| {
      assert scopes[j].root == path[..|scopes[j].root|];
      assert scopes[j].root[..|scopes[i].root|] == path[..|scopes[i].root|];
      assert Named(scopes[j].root);
      DeeperIsLonger(scopes[j].root, scopes[i].root);
    }
  }

  /** Where folding confuses no names, the two views of a path name one scope: the deepest that covers it. */
  lemma ViewsAgree(scopes: seq<Scope>, fold: Fold, names: set<string>, path: Path)
    requires Sorted(scopes) && Named(path) && InjectiveOn(fold, names) && InPlay(path, names)
    requires forall k :: 0 <= k < |scopes| ==> InPlay(scopes[k].root, names)
    ensures FirstCovering(scopes, path) == DeepestFolded(scopes, fold, path)
  {
    forall k | 0 <= k < |scopes|
      ensures scopes[k].CoversFolded(fold, path) <==> scopes[k].Covers(path)
    {
      FoldedWithin(fold, names, path, scopes[k].root);
    }
    FirstCoveringIsFirst(scopes, path);
    var exact, folded := FirstCovering(scopes, path), DeepestFolded(scopes, fold, path);
    if exact.Some? && exact.value < folded.value {
      DeepestFirst(scopes, exact.value, folded.value, path);
    }
  }
}
