/** What links and parents in a path mean: the path with their text in their place, for at most eight links. */
module LinkResolutions {
  import opened Wrappers
  import opened Kernels
  import opened DescriptorWalks
  import opened PathResolutions
  import StrictWalkers

  lemma {:induction false} EmptiesMeanNothing(p: Place, names: seq<Name>, dirs: seq<Object>, pending: seq<Name>, hops: nat, want: Want)
    requires |names| == |dirs| && hops <= MAX_SYMLINK_HOPS
    ensures Resolve(p, names, dirs, pending, hops, want) == Resolve(p, names, dirs, SkipEmpty(pending), hops, want)
    decreases |pending|
  {
    if pending != [] && Empty(pending[0]) {
      EmptiesMeanNothing(p, names, dirs, pending[1..], hops, want);
    }
  }

  /** One real directory further, whatever follows. */
  lemma EntersDirectory(p: Place, names: seq<Name>, dirs: seq<Object>, name: Name, dir: Object, tail: seq<Name>, hops: nat, want: Want)
    requires |names| == |dirs| && hops <= MAX_SYMLINK_HOPS && Allowed(name, p.denied)
    requires p.tree.At(Innermost(p.root, dirs), name) == Some(dir) && dir.Dir?
    ensures Resolve(p, names, dirs, [name] + tail, hops, want) == Resolve(p, names + [name], dirs + [dir], tail, hops, want)
  {
    assert ([name] + tail)[1..] == tail;
    EmptiesMeanNothing(p, names + [name], dirs + [dir], tail, hops, want);
  }

  /** From the root, the names of the directories that were entered lead to them again. */
  lemma {:induction false} Treads(p: Place, names: seq<Name>, dirs: seq<Object>, tail: seq<Name>, hops: nat, want: Want)
    requires p.root.Dir? && Trod(p, names, dirs) && hops <= MAX_SYMLINK_HOPS
    ensures Resolve(p, [], [], names + tail, hops, want) == Resolve(p, names, dirs, tail, hops, want)
    decreases |names|
  {
    if names == [] {
      assert dirs == [] && names + tail == tail;
    } else {
      var n := |names| - 1;
      var name, dir := names[n], dirs[n];
      Treads(p, names[..n], dirs[..n], [name] + tail, hops, want);
      LastTrod(p, names, dirs);
      EntersDirectory(p, names[..n], dirs[..n], name, dir, tail, hops, want);
      assert names[..n] + ([name] + tail) == names + tail && names[..n] + [name] == names && dirs[..n] + [dir] == dirs;
    }
  }

  lemma LastTrod(p: Place, names: seq<Name>, dirs: seq<Object>)
    requires Trod(p, names, dirs) && names != []
    ensures var n := |names| - 1;
            && Trod(p, names[..n], dirs[..n]) && Allowed(names[n], p.denied) && dirs[n].Dir?
            && p.tree.At(Innermost(p.root, dirs[..n]), names[n]) == Some(dirs[n])
  {
  }

  predicate LinkStands(p: Place, dirs: seq<Object>, name: Name, target: string) {
    var found := p.tree.At(Innermost(p.root, dirs), name); found.Some? && found.value.Link? && found.value.target == target
  }

  /**
    Behind names that lead through real directories: a link with a relative text means the text in its place, and one
    more link followed; after eight the walk is refused.
  */
  lemma LinkIsItsText(p: Place, names: seq<Name>, dirs: seq<Object>, name: Name, target: string, rest: seq<Name>, hops: nat, want: Want)
    requires p.root.Dir? && Trod(p, names, dirs) && Allowed(name, p.denied) && hops <= MAX_SYMLINK_HOPS
    requires LinkStands(p, dirs, name, target) && !IsAbsolute(target)
    ensures Resolve(p, [], [], names + ([name] + rest), hops, want)
         == if hops == MAX_SYMLINK_HOPS then Failure(TooManyLinks)
            else Resolve(p, [], [], names + (SplitSlash(target) + rest), hops + 1, want)
  {
    Treads(p, names, dirs, [name] + rest, hops, want);
    assert ([name] + rest)[1..] == rest;
    if hops < MAX_SYMLINK_HOPS {
      Treads(p, names, dirs, SplitSlash(target) + rest, hops + 1, want);
    }
  }

  /** A link with an absolute text means what the system makes of that text, below the root or nothing. */
  lemma AbsoluteLinkIsReal(p: Place, names: seq<Name>, dirs: seq<Object>, name: Name, target: string, rest: seq<Name>, hops: nat, want: Want)
    requires p.root.Dir? && Trod(p, names, dirs) && Allowed(name, p.denied) && hops < MAX_SYMLINK_HOPS
    requires LinkStands(p, dirs, name, target) && IsAbsolute(target)
    ensures Resolve(p, [], [], names + ([name] + rest), hops, want)
         == if p.realpath(0, target).None? then Failure(Escapes)
            else Resolve(p, [], [], p.realpath(0, target).value + rest, hops + 1, want)
  {
    Treads(p, names, dirs, [name] + rest, hops, want);
    assert ([name] + rest)[1..] == rest;
  }

  /** A parent behind a real directory takes both away; at the root it leaves the root. */
  lemma ParentTakesBoth(p: Place, names: seq<Name>, dirs: seq<Object>, rest: seq<Name>, hops: nat, want: Want)
    requires p.root.Dir? && Trod(p, names, dirs) && hops <= MAX_SYMLINK_HOPS
    ensures Resolve(p, [], [], names + ([".."] + rest), hops, want)
         == if names == [] then Failure(Escapes) else Resolve(p, [], [], names[..|names| - 1] + rest, hops, want)
  {
    Treads(p, names, dirs, [".."] + rest, hops, want);
    assert ([".."] + rest)[1..] == rest;
    if names != [] {
      Treads(p, names[..|names| - 1], dirs[..|dirs| - 1], rest, hops, want);
    }
  }

  /** An empty name or a dot means nothing, wherever it stands. */
  lemma EmptyNameMeansNothing(p: Place, names: seq<Name>, dirs: seq<Object>, name: Name, rest: seq<Name>, hops: nat, want: Want)
    requires p.root.Dir? && Trod(p, names, dirs) && Empty(name) && hops <= MAX_SYMLINK_HOPS
    ensures Resolve(p, [], [], names + ([name] + rest), hops, want) == Resolve(p, [], [], names + rest, hops, want)
  {
    Treads(p, names, dirs, [name] + rest, hops, want);
    Treads(p, names, dirs, rest, hops, want);
    assert ([name] + rest)[1..] == rest;
  }

  /** What stops a walk behind real directories: the name itself, then what stands under it. */
  lemma StopsExactly(p: Place, names: seq<Name>, dirs: seq<Object>, name: Name, rest: seq<Name>, hops: nat, want: Want)
    requires p.root.Dir? && Trod(p, names, dirs) && hops <= MAX_SYMLINK_HOPS && !Empty(name) && name != ".."
    ensures var r, found := Resolve(p, [], [], names + ([name] + rest), hops, want), p.tree.At(Innermost(p.root, dirs), name);
            && ('\0' in name ==> r == Failure(InvalidName))
            && ('\0' !in name && p.denied(name) ==> r == Failure(DeniedName))
            && (Allowed(name, p.denied) && found.None? ==> r == Failure(Missing))
            && (Allowed(name, p.denied) && found.Some? && !found.value.Link? && !found.value.Dir? ==>
                  r == if SkipEmpty(rest) != [] then Failure(NotADirectory)
                       else if want == WantDir then Failure(NotADirectoryTarget)
                       else if found.value.Regular? then Success(Landing(names + [name], found.value)) else Failure(NotAFile))
  {
    Treads(p, names, dirs, [name] + rest, hops, want);
    assert ([name] + rest)[1..] == rest;
  }

  // ---- the walk by names alone --------------------------------------------------------------------------------------

  /** A place where nothing is refused by its name. */
  function Unrestricted(tree: Tree, root: Object): Place {
    Place(tree, (_, _) => None, _ => false, root)
  }

  lemma DescendOn(tree: Tree, at: Object, parts: seq<Name>)
    requires parts != []
    ensures var n := |parts| - 1;
            StrictWalkers.Descend(tree, at, parts)
              == var half := StrictWalkers.Descend(tree, at, parts[..n]);
                 if !half.Directory? then half
                 else
                   var found := tree.At(half.held, parts[n]);
                   if found.None? then StrictWalkers.NotThere
                   else if found.value.Link? then StrictWalkers.InTheWay
                   else if !found.value.Dir? then StrictWalkers.NotThere else StrictWalkers.Directory(found.value)
  {
    var n := |parts| - 1;
    StrictWalkers.DescendInTwo(tree, at, parts, n);
    assert parts[n..][0] == parts[n] && parts[n..][1..] == [];
  }

  /** A strict walk comes to a directory exactly if its names reach one through real directories. */
  lemma {:induction false} DescendIsReach(tree: Tree, root: Object, parts: seq<Name>, dir: Object)
    requires root.Dir? && forall k :: 0 <= k < |parts| ==> Plain(parts[k])
    ensures StrictWalkers.Descend(tree, root, parts) == StrictWalkers.Directory(dir)
       <==> Reach(Unrestricted(tree, root), parts) == Some(dir) && dir.Dir?
    decreases |parts|
  {
    if parts != [] {
      var n := |parts| - 1;
      DescendOn(tree, root, parts);
      var half := StrictWalkers.Descend(tree, root, parts[..n]);
      var before := Reach(Unrestricted(tree, root), parts[..n]);
      DescendIsReach(tree, root, parts[..n], if half.Directory? then half.held else root);
      if before.Some? {
        DescendIsReach(tree, root, parts[..n], before.value);
      }
    }
  }
}
