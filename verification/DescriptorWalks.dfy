/**
  Opening a path below a root by walking its names, one descriptor at a time. The text of a link is read here and taken
  apart, so whatever happens to the tree meanwhile, what is returned was reached through real directories by names that
  are allowed.
*/
module DescriptorWalks {
  import opened Wrappers
  import opened Kernels

  const MAX_SYMLINK_HOPS := 8

  datatype Want = WantFile | WantDir

  datatype WalkError =
    | DeniedName | Escapes | InvalidName | TooManyLinks | Missing | NotADirectory | NotADirectoryTarget | NotAFile
    | PathChanged | OpenDenied(seen: Object) | Failed(fault: Fault)

  /** The components of a link's text. */
  function SplitSlash(s: string): (names: seq<Name>)
    ensures |names| > 0 && forall k :: 0 <= k < |names| ==> '/' !in names[k]
  {
    if s == "" then [""]
    else
      var rest := SplitSlash(s[1..]);
      if s[0] == '/' then [""] + rest else [[s[0]] + rest[0]] + rest[1..]
  }

  predicate Empty(name: Name) {
    name == "" || name == "."
  }

  function SkipEmpty(names: seq<Name>): (rest: seq<Name>)
    ensures |rest| <= |names| && (rest != [] ==> !Empty(rest[0]))
  {
    if names != [] && Empty(names[0]) then SkipEmpty(names[1..]) else names
  }

  predicate NoSlashes(names: seq<Name>) {
    forall k :: 0 <= k < |names| ==> '/' !in names[k]
  }

  // ---- what a walk has really passed through ------------------------------------------------------------------

  /** The objects passed through below the root, innermost last, each with its name and the call that found it. */
  datatype Trail = Start | Step(before: Trail, name: Name, held: Object, time: nat)

  function NamesOf(t: Trail): (names: seq<Name>)
    ensures |names| == |DirsOf(t)|
  {
    match t
    case Start => []
    case Step(before, name, _, _) => NamesOf(before) + [name]
  }

  function DirsOf(t: Trail): seq<Object> {
    match t
    case Start => []
    case Step(before, _, held, _) => DirsOf(before) + [held]
  }

  function Innermost(root: Object, dirs: seq<Object>): Object {
    if dirs == [] then root else dirs[|dirs| - 1]
  }

  function End(root: Object, t: Trail): (held: Object)
    ensures held == Innermost(root, DirsOf(t))
  {
    match t
    case Start => root
    case Step(_, _, held, _) => held
  }

  /**
    Every name was, at its own moment and after the name before it, found in the directory before it and no link; and
    every name is one that the rules allow.
  */
  ghost predicate Real(trees: nat -> Tree, denied: Name -> bool, root: Object, t: Trail, from: nat, to: nat) {
    match t
    case Start => true
    case Step(before, name, held, time) =>
      && Real(trees, denied, root, before, from, time) && End(root, before).Dir?
      && Plain(name) && !denied(name) && from <= time < to
      && trees(time).At(End(root, before), name) == Some(held) && !held.Link?
  }

  lemma LaterIsReal(trees: nat -> Tree, denied: Name -> bool, root: Object, t: Trail, from: nat, to: nat, later: nat)
    requires Real(trees, denied, root, t, from, to) && to <= later
    ensures Real(trees, denied, root, t, from, later)
  {
  }

  // ---- the walk on a tree that nobody changes ---------------------------------------------------------------------

  datatype Place = Place(tree: Tree, realpath: (nat, string) -> Option<seq<Name>>, denied: Name -> bool, root: Object)

  datatype Landing = Landing(parts: seq<Name>, held: Object)

  /** A link: where the walk goes on, and which names it still has to take. */
  function Followed(p: Place, names: seq<Name>, dirs: seq<Object>, target: string, rest: seq<Name>, hops: nat)
    : Result<(seq<Name>, seq<Object>, seq<Name>), WalkError>
  {
    if hops == MAX_SYMLINK_HOPS then Failure(TooManyLinks)
    else if target != "" && target[0] == '/' then
      var below := p.realpath(0, target);
      if below.None? then Failure(Escapes) else Success(([], [], below.value + rest))
    else Success((names, dirs, SplitSlash(target) + rest))
  }

  /** The last name: the object must be of the wanted kind. */
  function Landed(names: seq<Name>, name: Name, found: Object, want: Want): Result<Landing, WalkError> {
    if want == WantDir && !found.Dir? then Failure(NotADirectoryTarget)
    else if want == WantFile && !found.Regular? then Failure(NotAFile)
    else Success(Landing(names + [name], found))
  }

  /** What `pending` names from inside the directories `dirs`, entered by `names`. */
  function Resolve(p: Place, names: seq<Name>, dirs: seq<Object>, pending: seq<Name>, hops: nat, want: Want)
    : Result<Landing, WalkError>
    requires |names| == |dirs| && hops <= MAX_SYMLINK_HOPS
    decreases MAX_SYMLINK_HOPS - hops, |pending|
  {
    if pending == [] then
      if want == WantFile then Failure(NotAFile) else Success(Landing(names, Innermost(p.root, dirs)))
    else
      var name, rest := pending[0], pending[1..];
      if Empty(name) then Resolve(p, names, dirs, rest, hops, want)
      else if name == ".." then
        if names == [] then Failure(Escapes)
        else Resolve(p, names[..|names| - 1], dirs[..|dirs| - 1], rest, hops, want)
      else if '\0' in name then Failure(InvalidName)
      else if p.denied(name) then Failure(DeniedName)
      else
        var found := p.tree.At(Innermost(p.root, dirs), name);
        if found.None? then Failure(Missing)
        else if found.value.Link? then
          var next := Followed(p, names, dirs, found.value.target, rest, hops);
          if next.Failure? then Failure(next.error) else Resolve(p, next.value.0, next.value.1, next.value.2, hops + 1, want)
        else if SkipEmpty(rest) == [] then Landed(names, name, found.value, want)
        else if !found.value.Dir? then Failure(NotADirectory)
        else Resolve(p, names + [name], dirs + [found.value], SkipEmpty(rest), hops, want)
  }

  // ---- the walk ---------------------------------------------------------------------------------------------------

  datatype Opened = Opened(fd: Fd, parts: seq<Name>, held: Object)

  /** The descriptors of the directories entered, on top of those that were open before. */
  ghost predicate Standing(k: Kernel, base: map<Fd, Object>, root: Fd, entered: seq<Fd>, dirs: seq<Object>)
    reads k
  {
    && k.Valid() && root in base && base[root].Dir?
    && |entered| == |dirs| && (forall i :: 0 <= i < |dirs| ==> dirs[i].Dir?)
    && (forall i :: 0 <= i < |entered| ==> entered[i] in k.open && k.open[entered[i]] == dirs[i])
    && (forall i, j :: 0 <= i < j < |entered| ==> entered[i] != entered[j])
    && k.open - Set(entered) == base
  }

  function Current(root: Fd, entered: seq<Fd>): Fd {
    if entered == [] then root else entered[|entered| - 1]
  }

  lemma CurrentIsOpen(k: Kernel, base: map<Fd, Object>, root: Fd, entered: seq<Fd>, dirs: seq<Object>)
    requires Standing(k, base, root, entered, dirs)
    ensures Current(root, entered) in k.open && k.open[Current(root, entered)] == Innermost(base[root], dirs)
  {
  }

  /** Nothing changes and the system refuses nothing. */
  ghost predicate Quiet(k: Kernel) {
    && (forall t :: k.trees(t) == k.trees(0))
    && (forall t :: k.faults(t).None?)
    && (forall t, s :: k.realpath(t, s) == k.realpath(0, s))
  }

  ghost predicate Answers(k: Kernel) {
    forall t, s :: k.realpath(t, s).Some? ==> NoSlashes(k.realpath(t, s).value)
  }

  function PlaceOf(k: Kernel, denied: Name -> bool, root: Object): Place {
    Place(k.trees(0), k.realpath, denied, root)
  }

  function ErrorOf(e: Errno): WalkError {
    match e
    case NotFound => Missing
    case Changed => PathChanged
    case Refused(fault) => Failed(fault)
  }

  method Enter(k: Kernel, ghost base: map<Fd, Object>, root: Fd, entered: seq<Fd>, ghost dirs: seq<Object>, name: Name)
    returns (r: Result<Fd, WalkError>, ghost dir: Object)
    requires Standing(k, base, root, entered, dirs) && Plain(name)
    modifies k
    ensures k.clock == old(k.clock) + 1
    ensures r.Failure? ==> Standing(k, base, root, entered, dirs)
    ensures r.Success? ==> Standing(k, base, root, entered + [r.value], dirs + [dir]) && dir.Dir?
    ensures r.Success? ==> k.trees(old(k.clock)).At(Innermost(base[root], dirs), name) == Some(dir)
    ensures Quiet(k) ==>
              var got := OpensAs(k.trees(0).At(Innermost(base[root], dirs), name), true);
              (got.Success? ==> r.Success? && dir == got.value) && (got.Failure? ==> r == Failure(ErrorOf(got.error)))
  {
    CurrentIsOpen(k, base, root, entered, dirs);
    var got := k.OpenChild(Current(root, entered), name, true);
    if got.Failure? {
      return Failure(ErrorOf(got.error)), base[root];
    }
    dir := k.open[got.value];
    SetOfMore(entered, got.value);
    assert k.open - Set(entered + [got.value]) == base;
    r := Success(got.value);
  }

  method Leave(k: Kernel, ghost base: map<Fd, Object>, ghost root: Fd, entered: seq<Fd>, ghost dirs: seq<Object>)
    requires Standing(k, base, root, entered, dirs) && entered != []
    modifies k
    ensures k.clock == old(k.clock) && Standing(k, base, root, entered[..|entered| - 1], dirs[..|dirs| - 1])
  {
    var last := entered[|entered| - 1];
    SetOfMore(entered[..|entered| - 1], last);
    assert entered == entered[..|entered| - 1] + [last];
    k.Close(last);
    assert k.open - Set(entered[..|entered| - 1]) == base;
  }

  method LeaveAll(k: Kernel, ghost base: map<Fd, Object>, ghost root: Fd, entered: seq<Fd>, ghost dirs: seq<Object>)
    requires Standing(k, base, root, entered, dirs)
    modifies k
    ensures k.clock == old(k.clock) && k.open == base && Standing(k, base, root, [], [])
  {
    k.CloseAll(entered);
    assert Set([]) == {};
  }

  predicate IsWanted(held: Object, want: Want) {
    if want == WantDir then held.Dir? else held.Regular?
  }

  /** Open the last name and judge the object by what was opened, not by what was seen before. */
  method OpenLast(k: Kernel, ghost base: map<Fd, Object>, root: Fd, entered: seq<Fd>, ghost dirs: seq<Object>,
                  name: Name, want: Want, seen: Object)
    returns (r: Result<(Fd, Object), WalkError>)
    requires Standing(k, base, root, entered, dirs) && Plain(name)
    modifies k
    ensures k.clock == old(k.clock) + 1
    ensures r.Failure? ==> Standing(k, base, root, entered, dirs)
    ensures r.Success? ==>
              var (fd, held) := r.value;
              && fd !in base && Standing(k, base[fd := held], root, entered, dirs)
              && IsWanted(held, want) && k.trees(old(k.clock)).At(Innermost(base[root], dirs), name) == Some(held)
    ensures Quiet(k) && IsWanted(seen, want) && k.trees(0).At(Innermost(base[root], dirs), name) == Some(seen) ==>
              r.Success? && r.value.1 == seen
  {
    CurrentIsOpen(k, base, root, entered, dirs);
    var got := k.OpenChild(Current(root, entered), name, want == WantDir);
    if got.Failure? {
      return Failure(if got.error == Refused(Permission) then OpenDenied(seen) else ErrorOf(got.error));
    }
    var held := k.Fstat(got.value);
    if !IsWanted(held, want) {
      k.Close(got.value);
      assert k.open - Set(entered) == base;
      return Failure(PathChanged);
    }
    assert got.value !in Set(entered);
    assert k.open - Set(entered) == base[got.value := held];
    r := Success((got.value, held));
  }

  /** The names that a link adds. An absolute one starts again at the root, with every directory left. */
  method FollowLink(k: Kernel, ghost base: map<Fd, Object>, root: Fd, entered: seq<Fd>, ghost dirs: seq<Object>, name: Name)
    returns (again: bool, r: Result<seq<Name>, WalkError>)
    requires Standing(k, base, root, entered, dirs) && Plain(name)
    modifies k
    ensures k.clock == old(k.clock) + 1
    ensures if again then Standing(k, base, root, [], []) else Standing(k, base, root, entered, dirs)
    ensures r.Success? && Answers(k) ==> NoSlashes(r.value)
    ensures Quiet(k) && IsLinkAt(k, base[root], dirs, name) ==>
              (again, r) == LinkAnswer(k, LinkTextAt(k, base[root], dirs, name))
  {
    CurrentIsOpen(k, base, root, entered, dirs);
    var target := k.ReadLink(Current(root, entered), name);
    if target.Failure? {
      return false, Failure(ErrorOf(target.error));
    }
    if IsAbsolute(target.value) {
      LeaveAll(k, base, root, entered, dirs);
      var below := k.realpath(k.clock, target.value);
      return true, if below.None? then Failure(Escapes) else Success(below.value);
    }
    return false, Success(SplitSlash(target.value));
  }

  predicate IsAbsolute(target: string) {
    target != "" && target[0] == '/'
  }

  predicate IsLinkAt(k: Kernel, root: Object, dirs: seq<Object>, name: Name) {
    var found := k.trees(0).At(Innermost(root, dirs), name); found.Some? && found.value.Link?
  }

  function LinkTextAt(k: Kernel, root: Object, dirs: seq<Object>, name: Name): string
    requires IsLinkAt(k, root, dirs, name)
  {
    k.trees(0).At(Innermost(root, dirs), name).value.target
  }

  function LinkAnswer(k: Kernel, target: string): (bool, Result<seq<Name>, WalkError>) {
    if !IsAbsolute(target) then (false, Success(SplitSlash(target)))
    else
      var below := k.realpath(0, target);
      (true, if below.None? then Failure(Escapes) else Success(below.value))
  }

  /** The result of a walk, before its directories are left. */
  ghost predicate Arrived(k: Kernel, base: map<Fd, Object>, root: Fd, entered: seq<Fd>, dirs: seq<Object>,
                          r: Result<Opened, WalkError>)
    reads k
  {
    if r.Failure? then Standing(k, base, root, entered, dirs)
    else r.value.fd !in base && Standing(k, base[r.value.fd := r.value.held], root, entered, dirs)
  }

  ghost predicate Over(k: Kernel, base: map<Fd, Object>, root: Fd, entered: seq<Fd>, r: Result<Opened, WalkError>)
    reads k
  {
    exists dirs :: Arrived(k, base, root, entered, dirs, r)
  }

  ghost predicate ReachedBy(k: Kernel, denied: Name -> bool, clean: bool, root: Object, t: Trail, got: Opened, want: Want,
                            from: nat, to: nat)
  {
    && Real(k.trees, denied, root, t, from, to) && NamesOf(t) == got.parts && got.held == End(root, t)
    && IsWanted(got.held, want) && (clean ==> NoSlashes(got.parts))
  }

  /** The part of a result that does not depend on descriptors. */
  function Outcome(r: Result<Opened, WalkError>): Result<Landing, WalkError> {
    if r.Failure? then Failure(r.error) else Success(Landing(r.value.parts, r.value.held))
  }

  /** Where a walk stands. */
  datatype Walker = Walker(entered: seq<Fd>, below: seq<Name>, pending: seq<Name>, hops: nat)

  ghost predicate Going(k: Kernel, denied: Name -> bool, clean: bool, base: map<Fd, Object>, root: Fd, w: Walker, t: Trail, from: nat)
    reads k
  {
    && Standing(k, base, root, w.entered, DirsOf(t)) && w.below == NamesOf(t) && w.hops <= MAX_SYMLINK_HOPS
    && (clean ==> Answers(k) && NoSlashes(w.pending) && NoSlashes(w.below))
    && from <= k.clock && Real(k.trees, denied, base[root], t, from, k.clock)
  }

  /** What a walk that goes on will come to if nothing changes. */
  function Meaning(p: Place, t: Trail, pending: seq<Name>, hops: nat, want: Want): Result<Landing, WalkError>
    requires hops <= MAX_SYMLINK_HOPS
  {
    Resolve(p, NamesOf(t), DirsOf(t), pending, hops, want)
  }

  lemma EmptyMeansNothing(p: Place, t: Trail, pending: seq<Name>, hops: nat, want: Want)
    requires pending != [] && Empty(pending[0]) && hops <= MAX_SYMLINK_HOPS
    ensures Meaning(p, t, pending, hops, want) == Meaning(p, t, pending[1..], hops, want)
  {
  }

  lemma ParentMeans(p: Place, t: Trail, pending: seq<Name>, hops: nat, want: Want)
    requires pending != [] && pending[0] == ".." && hops <= MAX_SYMLINK_HOPS
    ensures Meaning(p, t, pending, hops, want)
         == if t.Start? then Failure(Escapes) else Meaning(p, t.before, pending[1..], hops, want)
  {
    if t.Step? {
      assert NamesOf(t)[..|NamesOf(t)| - 1] == NamesOf(t.before) && DirsOf(t)[..|DirsOf(t)| - 1] == DirsOf(t.before);
    }
  }

  lemma LinkMeans(k: Kernel, p: Place, t: Trail, name: Name, rest: seq<Name>, hops: nat, want: Want)
    requires Allowed(name, p.denied) && hops <= MAX_SYMLINK_HOPS && p == PlaceOf(k, p.denied, p.root)
    requires IsLinkAt(k, p.root, DirsOf(t), name)
    ensures var (again, added) := LinkAnswer(k, LinkTextAt(k, p.root, DirsOf(t), name));
            Meaning(p, t, [name] + rest, hops, want)
              == if hops == MAX_SYMLINK_HOPS then Failure(TooManyLinks)
                 else if added.Failure? then Failure(added.error)
                 else Meaning(p, if again then Start else t, added.value + rest, hops + 1, want)
  {
    assert ([name] + rest)[1..] == rest;
  }

  /** A walk that has dropped its next name is still under way. */
  lemma NextName(k: Kernel, denied: Name -> bool, clean: bool, base: map<Fd, Object>, root: Fd, w: Walker, t: Trail, from: nat)
    requires Going(k, denied, clean, base, root, w, t, from) && w.pending != []
    ensures Going(k, denied, clean, base, root, w.(pending := w.pending[1..]), t, from)
    ensures clean ==> '/' !in w.pending[0]
  {
  }

  /** A name that is looked up: neither empty nor "..", and allowed. */
  predicate Allowed(name: Name, denied: Name -> bool) {
    Plain(name) && !denied(name)
  }

  /** The name is a link: the walk goes on with what it names, or ends. */
  method TakeLink(k: Kernel, ghost denied: Name -> bool, ghost clean: bool, ghost base: map<Fd, Object>, root: Fd, w: Walker, ghost t: Trail,
                  name: Name, ghost from: nat, ghost want: Want)
    returns (v: Walker, stop: Option<WalkError>, ghost u: Trail)
    requires Going(k, denied, clean, base, root, w, t, from) && Allowed(name, denied)
    modifies k
    ensures old(k.clock) <= k.clock && Going(k, denied, clean, base, root, v, u, from)
    ensures stop.None? ==> v.hops == w.hops + 1
    ensures Quiet(k) && IsLinkAt(k, base[root], DirsOf(t), name) ==>
              Meaning(PlaceOf(k, denied, base[root]), t, [name] + w.pending, w.hops, want)
              == if stop.Some? then Failure(stop.value)
                 else Meaning(PlaceOf(k, denied, base[root]), u, v.pending, v.hops, want)
  {
    ghost var place := PlaceOf(k, denied, base[root]);
    if IsLinkAt(k, base[root], DirsOf(t), name) {
      LinkMeans(k, place, t, name, w.pending, w.hops, want);
    }
    if w.hops == MAX_SYMLINK_HOPS {
      return w, Some(TooManyLinks), t;
    }
    var again, added := FollowLink(k, base, root, w.entered, DirsOf(t), name);
    LaterIsReal(k.trees, denied, base[root], t, from, k.clock - 1, k.clock);
    u := if again then Start else t;
    v := if again then w.(entered := [], below := []) else w;
    if added.Failure? {
      return v, Some(added.error), u;
    }
    v := v.(pending := added.value + w.pending, hops := w.hops + 1);
    stop := None;
  }

  /** The name is not the last: it has to be a directory, and is entered. */
  method TakeDirectory(k: Kernel, ghost denied: Name -> bool, ghost clean: bool, ghost base: map<Fd, Object>, root: Fd, w: Walker, ghost t: Trail,
                       name: Name, seen: Object, ghost from: nat)
    returns (v: Walker, stop: Option<WalkError>, ghost u: Trail)
    requires Going(k, denied, clean, base, root, w, t, from) && Allowed(name, denied) && !seen.Link? && (clean ==> '/' !in name)
    modifies k
    ensures old(k.clock) <= k.clock && Going(k, denied, clean, base, root, v, u, from)
    ensures stop.None? ==> v.pending == w.pending && v.hops == w.hops
    ensures Quiet(k) && k.trees(0).At(Innermost(base[root], DirsOf(t)), name) == Some(seen) ==>
              && (!seen.Dir? ==> stop == Some(NotADirectory))
              && (seen.Dir? ==> stop.None? && NamesOf(u) == NamesOf(t) + [name] && DirsOf(u) == DirsOf(t) + [seen])
  {
    if !seen.Dir? {
      return w, Some(NotADirectory), t;
    }
    var fd, dir := Enter(k, base, root, w.entered, DirsOf(t), name);
    LaterIsReal(k.trees, denied, base[root], t, from, old(k.clock), k.clock);
    if fd.Failure? {
      return w, Some(fd.error), t;
    }
    return w.(entered := w.entered + [fd.value], below := w.below + [name]), None, Step(t, name, dir, k.clock - 1);
  }

  /** The last name: it is opened if it is of the wanted kind. */
  method TakeLast(k: Kernel, ghost denied: Name -> bool, ghost clean: bool, ghost base: map<Fd, Object>, root: Fd, w: Walker, ghost t: Trail,
                  name: Name, seen: Object, want: Want, ghost from: nat)
    returns (r: Result<Opened, WalkError>, ghost u: Trail)
    requires Going(k, denied, clean, base, root, w, t, from) && Allowed(name, denied) && !seen.Link? && (clean ==> '/' !in name)
    modifies k
    ensures old(k.clock) <= k.clock && Arrived(k, base, root, w.entered, DirsOf(t), r)
    ensures r.Success? ==> ReachedBy(k, denied, clean, base[root], u, r.value, want, from, k.clock)
    ensures Quiet(k) && k.trees(0).At(Innermost(base[root], DirsOf(t)), name) == Some(seen) ==>
              Outcome(r) == Landed(NamesOf(t), name, seen, want)
  {
    u := t;
    if !IsWanted(seen, want) {
      return Failure(if want == WantDir then NotADirectoryTarget else NotAFile), t;
    }
    var last := OpenLast(k, base, root, w.entered, DirsOf(t), name, want, seen);
    if last.Failure? {
      return Failure(last.error), t;
    }
    return Success(Opened(last.value.0, w.below + [name], last.value.1)), Step(t, name, last.value.1, k.clock - 1);
  }

  /** One step up: only the text of a link can ask for it. */
  method TakeParent(k: Kernel, ghost denied: Name -> bool, ghost clean: bool, ghost base: map<Fd, Object>, ghost root: Fd, w: Walker, ghost t: Trail,
                    ghost from: nat)
    returns (v: Walker, ghost u: Trail)
    requires Going(k, denied, clean, base, root, w, t, from) && w.entered != []
    modifies k
    ensures k.clock == old(k.clock) && Going(k, denied, clean, base, root, v, u, from) && t.Step? && u == t.before
    ensures v.pending == w.pending && v.hops == w.hops
  {
    Leave(k, base, root, w.entered, DirsOf(t));
    u := t.before;
    assert DirsOf(u) == DirsOf(t)[..|DirsOf(t)| - 1] && NamesOf(u) == NamesOf(t)[..|NamesOf(t)| - 1];
    LaterIsReal(k.trees, denied, base[root], u, from, t.time, k.clock);
    v := w.(entered := w.entered[..|w.entered| - 1], below := w.below[..|w.below| - 1]);
  }

  /** The names that are left when empty ones at the front are dropped. */
  method DropEmpty(pending: seq<Name>) returns (rest: seq<Name>)
    ensures rest == SkipEmpty(pending)
  {
    rest := pending;
    while rest != [] && Empty(rest[0])
      invariant SkipEmpty(rest) == SkipEmpty(pending)
      decreases |rest|
    {
      rest := rest[1..];
    }
  }

  lemma SkipEmptyKeeps(names: seq<Name>)
    ensures NoSlashes(names) ==> NoSlashes(SkipEmpty(names))
  {
  }

  lemma RefusedAt(k: Kernel, base: map<Fd, Object>, root: Fd, entered: seq<Fd>, dirs: seq<Object>, e: WalkError)
    requires Standing(k, base, root, entered, dirs)
    ensures Over(k, base, root, entered, Failure(e))
  {
    assert Arrived(k, base, root, entered, dirs, Failure(e));
  }

  /** What is done with an entry that was found. */
  method TakeFound(k: Kernel, ghost denied: Name -> bool, ghost clean: bool, ghost base: map<Fd, Object>, root: Fd, w: Walker, ghost t: Trail,
                   name: Name, seen: Object, want: Want, ghost from: nat)
    returns (r: Option<Result<Opened, WalkError>>, v: Walker, ghost u: Trail)
    requires Going(k, denied, clean, base, root, w, t, from) && Allowed(name, denied) && (clean ==> '/' !in name)
    modifies k
    ensures old(k.clock) <= k.clock
    ensures r.None? ==> Going(k, denied, clean, base, root, v, u, from) && (v.hops > w.hops || (v.hops == w.hops && |v.pending| <= |w.pending|))
    ensures r.Some? ==> Over(k, base, root, v.entered, r.value)
    ensures r.Some? && r.value.Success? ==> ReachedBy(k, denied, clean, base[root], u, r.value.value, want, from, k.clock)
    ensures Quiet(k) && k.trees(0).At(Innermost(base[root], DirsOf(t)), name) == Some(seen) ==>
              Meaning(PlaceOf(k, denied, base[root]), t, [name] + w.pending, w.hops, want)
              == if r.Some? then Outcome(r.value) else Meaning(PlaceOf(k, denied, base[root]), u, v.pending, v.hops, want)
  {
    v, u := w, t;
    assert ([name] + w.pending)[1..] == w.pending;
    var stop: Option<WalkError>;
    if seen.Link? {
      v, stop, u := TakeLink(k, denied, clean, base, root, w, t, name, from, want);
      if stop.Some? {
        RefusedAt(k, base, root, v.entered, DirsOf(u), stop.value);
      }
      return if stop.Some? then Some(Failure(stop.value)) else None, v, u;
    }
    var rest := DropEmpty(w.pending);
    SkipEmptyKeeps(w.pending);
    if rest != [] {
      v, stop, u := TakeDirectory(k, denied, clean, base, root, w.(pending := rest), t, name, seen, from);
      if stop.Some? {
        RefusedAt(k, base, root, v.entered, DirsOf(u), stop.value);
      }
      return if stop.Some? then Some(Failure(stop.value)) else None, v, u;
    }
    var last;
    last, u := TakeLast(k, denied, clean, base, root, w, t, name, seen, want, from);
    assert Arrived(k, base, root, w.entered, DirsOf(t), last);
    return Some(last), v, u;
  }

  /** One name that is neither empty nor "..". The result is the end of the walk, if it ended. */
  method TakeName(k: Kernel, denied: Name -> bool, ghost clean: bool, ghost base: map<Fd, Object>, root: Fd, w: Walker, ghost t: Trail,
                  name: Name, want: Want, ghost from: nat)
    returns (r: Option<Result<Opened, WalkError>>, v: Walker, ghost u: Trail)
    requires Going(k, denied, clean, base, root, w, t, from)
    requires !Empty(name) && name != ".." && (clean ==> '/' !in name)
    modifies k
    ensures old(k.clock) <= k.clock
    ensures r.None? ==> Going(k, denied, clean, base, root, v, u, from) && (v.hops > w.hops || (v.hops == w.hops && |v.pending| <= |w.pending|))
    ensures r.Some? ==> Over(k, base, root, v.entered, r.value)
    ensures r.Some? && r.value.Success? ==> ReachedBy(k, denied, clean, base[root], u, r.value.value, want, from, k.clock)
    ensures Quiet(k) ==>
              Meaning(PlaceOf(k, denied, base[root]), t, [name] + w.pending, w.hops, want)
              == if r.Some? then Outcome(r.value) else Meaning(PlaceOf(k, denied, base[root]), u, v.pending, v.hops, want)
  {
    v, u := w, t;
    assert ([name] + w.pending)[1..] == w.pending;
    if '\0' in name {
      RefusedAt(k, base, root, w.entered, DirsOf(t), InvalidName);
      return Some(Failure(InvalidName)), v, u;
    }
    if denied(name) {
      RefusedAt(k, base, root, w.entered, DirsOf(t), DeniedName);
      return Some(Failure(DeniedName)), v, u;
    }
    CurrentIsOpen(k, base, root, w.entered, DirsOf(t));
    var seen := k.Lstat(Current(root, w.entered), name);
    LaterIsReal(k.trees, denied, base[root], t, from, old(k.clock), k.clock);
    if seen.Failure? {
      RefusedAt(k, base, root, w.entered, DirsOf(t), ErrorOf(seen.error));
      return Some(Failure(ErrorOf(seen.error))), v, u;
    }
    r, v, u := TakeFound(k, denied, clean, base, root, w, t, name, seen.value, want, from);
  }

  /** No name is left: the walk stands on a directory, which is the answer if one was asked for. */
  method EndOnDirectory(k: Kernel, ghost denied: Name -> bool, ghost clean: bool, ghost base: map<Fd, Object>, root: Fd, w: Walker, ghost t: Trail,
                        want: Want, ghost from: nat)
    returns (r: Result<Opened, WalkError>)
    requires Going(k, denied, clean, base, root, w, t, from)
    modifies k
    ensures k.clock == old(k.clock) && Over(k, base, root, w.entered, r)
    ensures r.Success? ==> ReachedBy(k, denied, clean, base[root], t, r.value, want, from, k.clock)
    ensures Outcome(r) == if want == WantFile then Failure(NotAFile) else Success(Landing(NamesOf(t), End(base[root], t)))
  {
    if want == WantFile {
      RefusedAt(k, base, root, w.entered, DirsOf(t), NotAFile);
      return Failure(NotAFile);
    }
    CurrentIsOpen(k, base, root, w.entered, DirsOf(t));
    var copy := k.Dup(Current(root, w.entered));
    var held := k.Fstat(copy);
    assert copy !in Set(w.entered);
    assert k.open - Set(w.entered) == base[copy := held];
    r := Success(Opened(copy, w.below, held));
    assert Arrived(k, base, root, w.entered, DirsOf(t), r);
  }

  /** The next name. The result is the end of the walk, if it ended. */
  method TakeNext(k: Kernel, denied: Name -> bool, ghost clean: bool, ghost base: map<Fd, Object>, root: Fd, w: Walker,
                  ghost t: Trail, want: Want, ghost from: nat)
    returns (r: Option<Result<Opened, WalkError>>, v: Walker, ghost u: Trail)
    requires Going(k, denied, clean, base, root, w, t, from) && w.pending != []
    modifies k
    ensures old(k.clock) <= k.clock
    ensures r.None? ==> Going(k, denied, clean, base, root, v, u, from) && (v.hops > w.hops || (v.hops == w.hops && |v.pending| < |w.pending|))
    ensures r.Some? ==> Over(k, base, root, v.entered, r.value)
    ensures r.Some? && r.value.Success? ==> ReachedBy(k, denied, clean, base[root], u, r.value.value, want, from, k.clock)
    ensures Quiet(k) ==>
              Meaning(PlaceOf(k, denied, base[root]), t, w.pending, w.hops, want)
              == if r.Some? then Outcome(r.value) else Meaning(PlaceOf(k, denied, base[root]), u, v.pending, v.hops, want)
  {
    ghost var place := PlaceOf(k, denied, base[root]);
    var name, rest := w.pending[0], w.(pending := w.pending[1..]);
    NextName(k, denied, clean, base, root, w, t, from);
    if Empty(name) {
      EmptyMeansNothing(place, t, w.pending, w.hops, want);
      return None, rest, t;
    }
    if name == ".." {
      ParentMeans(place, t, w.pending, w.hops, want);
      if w.entered == [] {
        RefusedAt(k, base, root, w.entered, DirsOf(t), Escapes);
        return Some(Failure(Escapes)), w, t;
      }
      r := None;
      v, u := TakeParent(k, denied, clean, base, root, rest, t, from);
    } else {
      assert w.pending == [name] + rest.pending;
      r, v, u := TakeName(k, denied, clean, base, root, rest, t, name, want, from);
    }
  }

  /** The walk, up to the point where the directories it entered are left. */
  method Walk(k: Kernel, root: Fd, parts: seq<Name>, want: Want, denied: Name -> bool)
    returns (r: Result<Opened, WalkError>, entered: seq<Fd>, ghost t: Trail)
    requires k.Valid() && root in k.open && k.open[root].Dir?
    modifies k
    ensures old(k.clock) <= k.clock && Over(k, old(k.open), root, entered, r)
    ensures r.Success? ==> ReachedBy(k, denied, NoSlashes(parts) && Answers(k), old(k.open)[root], t, r.value, want, old(k.clock), k.clock)
    ensures Quiet(k) ==> Outcome(r) == Resolve(PlaceOf(k, denied, old(k.open)[root]), [], [], parts, 0, want)
  {
    var w := Walker([], [], parts, 0);
    ghost var base, clean := k.open, NoSlashes(parts) && Answers(k);
    ghost var place := PlaceOf(k, denied, base[root]);
    ghost var goal := Resolve(place, [], [], parts, 0, want);
    t := Start;
    assert Set([]) == {};
    while w.pending != []
      invariant old(k.clock) <= k.clock && Going(k, denied, clean, base, root, w, t, old(k.clock))
      invariant Quiet(k) ==> Meaning(place, t, w.pending, w.hops, want) == goal
      decreases MAX_SYMLINK_HOPS - w.hops, |w.pending|
    {
      var ended;
      ended, w, t := TakeNext(k, denied, clean, base, root, w, t, want, old(k.clock));
      if ended.Some? {
        return ended.value, w.entered, t;
      }
    }
    r := EndOnDirectory(k, denied, clean, base, root, w, t, want, old(k.clock));
    entered := w.entered;
  }

  /**
    Open `parts` below the root. Whatever the tree and `realpath` do meanwhile: what is returned was reached by names
    that are allowed and found to be no links, each a single component if `parts` and `realpath` give no others; it is of
    the wanted kind, and its descriptor is the only one left open. On a tree that does not change, it is what the names
    resolve to.
  */
  method OpenBeneath(k: Kernel, root: Fd, parts: seq<Name>, want: Want, denied: Name -> bool)
    returns (r: Result<Opened, WalkError>, ghost t: Trail)
    requires k.Valid() && root in k.open && k.open[root].Dir?
    modifies k
    ensures k.Valid() && old(k.clock) <= k.clock
    ensures r.Failure? ==> k.open == old(k.open)
    ensures r.Success? ==> r.value.fd !in old(k.open) && k.open == old(k.open)[r.value.fd := r.value.held]
    ensures r.Success? ==> ReachedBy(k, denied, NoSlashes(parts) && Answers(k), old(k.open)[root], t, r.value, want, old(k.clock), k.clock)
    ensures Quiet(k) ==> Outcome(r) == Resolve(PlaceOf(k, denied, old(k.open)[root]), [], [], parts, 0, want)
  {
    var entered;
    r, entered, t := Walk(k, root, parts, want, denied);
    ghost var dirs :| Arrived(k, old(k.open), root, entered, dirs, r);
    k.CloseAll(entered);
  }

  // ---- reading what was opened --------------------------------------------------------------------------------------

  const READ_CHUNK_BYTES := 65536

  /** Reads may be short, but before the end of the file one that asks for something gets something. */
  ghost predicate ShortReads(file: seq<int>, take: (nat, nat) -> nat) {
    forall at: nat, most: nat :: at <= |file| ==>
      take(at, most) <= most && at + take(at, most) <= |file| && (0 < most && at < |file| ==> 0 < take(at, most))
  }

  /** The whole file if `limit` is enough for it, and nothing otherwise; what counts are the bytes that arrive. */
  method ReadBounded(file: seq<int>, take: (nat, nat) -> nat, limit: nat) returns (r: Option<seq<int>>)
    requires ShortReads(file, take)
    ensures r == if |file| <= limit then Some(file) else None
  {
    var held: seq<int> := [];
    while true
      invariant |held| <= limit && held <= file
      decreases limit - |held|
    {
      var most := if READ_CHUNK_BYTES < limit + 1 - |held| then READ_CHUNK_BYTES else limit + 1 - |held|;
      var size := take(|held|, most);
      if size == 0 {
        assert |held| == |file| && file == held;
        return Some(held);
      }
      if |held| + size > limit {
        return None;
      }
      held := held + file[|held|..|held| + size];
    }
  }
}
