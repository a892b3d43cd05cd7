/**
  What a walk resolves to when nobody changes the tree: an object that its names reach through directories alone, the
  same whenever those names are walked again.
*/
module PathResolutions {
  import opened Wrappers
  import opened Kernels
  import opened DescriptorWalks

  /** The object that the names reach from the root through directories, with no link and no name refused. */
  function Reach(p: Place, names: seq<Name>): Option<Object> {
    if names == [] then Some(p.root)
    else
      var before, name := Reach(p, names[..|names| - 1]), names[|names| - 1];
      if before.None? || !before.value.Dir? || !Allowed(name, p.denied) then None
      else
        var found := p.tree.At(before.value, name);
        if found.Some? && !found.value.Link? then found else None
  }

  /** The directories that a walk has entered are those its names reach. */
  ghost predicate Trod(p: Place, names: seq<Name>, dirs: seq<Object>) {
    && |names| == |dirs| && Reach(p, names) == Some(Innermost(p.root, dirs)) && Innermost(p.root, dirs).Dir?
    && (names != [] ==> Trod(p, names[..|names| - 1], dirs[..|dirs| - 1]))
  }

  lemma TrodOn(p: Place, names: seq<Name>, dirs: seq<Object>, name: Name, dir: Object)
    requires Trod(p, names, dirs) && Allowed(name, p.denied)
    requires p.tree.At(Innermost(p.root, dirs), name) == Some(dir) && !dir.Link?
    ensures Reach(p, names + [name]) == Some(dir)
    ensures dir.Dir? ==> Trod(p, names + [name], dirs + [dir])
  {
    assert (names + [name])[..|names|] == names && (dirs + [dir])[..|dirs|] == dirs;
  }

  lemma FollowedIsTrod(p: Place, names: seq<Name>, dirs: seq<Object>, target: string, rest: seq<Name>, hops: nat)
    requires p.root.Dir? && Trod(p, names, dirs) && hops <= MAX_SYMLINK_HOPS
    ensures var next := Followed(p, names, dirs, target, rest, hops);
            next.Success? ==> Trod(p, next.value.0, next.value.1) && hops < MAX_SYMLINK_HOPS
  {
  }

  /** An answer that can be walked again: its parts reach its object, which is of the wanted kind. */
  predicate Reaches(p: Place, r: Result<Landing, WalkError>, want: Want) {
    r.Success? ==> Reach(p, r.value.parts) == Some(r.value.held) && IsWanted(r.value.held, want)
  }

  /** Whatever links the names went through, the parts that are returned reach the object without any. */
  lemma {:induction false} ResolvedIsReached(p: Place, names: seq<Name>, dirs: seq<Object>, pending: seq<Name>, hops: nat, want: Want)
    requires p.root.Dir? && Trod(p, names, dirs) && hops <= MAX_SYMLINK_HOPS
    ensures Reaches(p, Resolve(p, names, dirs, pending, hops, want), want)
    decreases MAX_SYMLINK_HOPS - hops, |pending|, 1
  {
    if pending != [] {
      var name, rest := pending[0], pending[1..];
      if Empty(name) {
        ResolvedIsReached(p, names, dirs, rest, hops, want);
      } else if name == ".." {
        if names != [] {
          ResolvedIsReached(p, names[..|names| - 1], dirs[..|dirs| - 1], rest, hops, want);
        }
      } else if Allowed(name, p.denied) {
        EntryIsReached(p, names, dirs, pending, hops, want);
      }
    }
  }

  lemma {:induction false} EntryIsReached(p: Place, names: seq<Name>, dirs: seq<Object>, pending: seq<Name>, hops: nat, want: Want)
    requires p.root.Dir? && Trod(p, names, dirs) && hops <= MAX_SYMLINK_HOPS
    requires pending != [] && Allowed(pending[0], p.denied)
    ensures Reaches(p, Resolve(p, names, dirs, pending, hops, want), want)
    decreases MAX_SYMLINK_HOPS - hops, |pending|, 0
  {
    var name, rest := pending[0], pending[1..];
    var found := p.tree.At(Innermost(p.root, dirs), name);
    if found.Some? {
      if found.value.Link? {
        var next := Followed(p, names, dirs, found.value.target, rest, hops);
        FollowedIsTrod(p, names, dirs, found.value.target, rest, hops);
        if next.Success? {
          ResolvedIsReached(p, next.value.0, next.value.1, next.value.2, hops + 1, want);
        }
      } else if SkipEmpty(rest) == [] {
        LandedIsReached(p, names, dirs, name, found.value, want);
      } else if found.value.Dir? {
        TrodOn(p, names, dirs, name, found.value);
        ResolvedIsReached(p, names + [name], dirs + [found.value], SkipEmpty(rest), hops, want);
      }
    }
  }

  lemma LandedIsReached(p: Place, names: seq<Name>, dirs: seq<Object>, name: Name, held: Object, want: Want)
    requires Trod(p, names, dirs) && Allowed(name, p.denied)
    requires p.tree.At(Innermost(p.root, dirs), name) == Some(held) && !held.Link?
    ensures Reaches(p, Landed(names, name, held, want), want)
  {
    TrodOn(p, names, dirs, name, held);
  }

  lemma {:induction false} ReachPrefix(p: Place, names: seq<Name>, n: nat)
    requires n < |names| && Reach(p, names).Some?
    ensures Reach(p, names[..n]).Some? && Reach(p, names[..n]).value.Dir?
    ensures Allowed(names[n], p.denied) && Reach(p, names[..n + 1]).Some?
    ensures p.tree.At(Reach(p, names[..n]).value, names[n]) == Reach(p, names[..n + 1])
    ensures !Reach(p, names[..n + 1]).value.Link?
    decreases |names|
  {
    var init := names[..|names| - 1];
    if n == |init| {
      assert names[..n + 1] == names;
    } else {
      assert init[..n] == names[..n] && init[..n + 1] == names[..n + 1];
      ReachPrefix(p, init, n);
    }
    assert names[..n + 1][..n] == names[..n];
  }

  /** One name on: an allowed entry that is no link, with no empty name behind it. */
  lemma ResolvesOn(p: Place, names: seq<Name>, dirs: seq<Object>, pending: seq<Name>, rest: seq<Name>, want: Want, found: Object)
    requires |names| == |dirs| && pending != [] && rest == pending[1..] && Allowed(pending[0], p.denied)
    requires p.tree.At(Innermost(p.root, dirs), pending[0]) == Some(found) && !found.Link?
    requires SkipEmpty(rest) == rest
    ensures Resolve(p, names, dirs, pending, 0, want)
         == if rest == [] then Landed(names, pending[0], found, want)
            else if !found.Dir? then Failure(NotADirectory)
            else Resolve(p, names + [pending[0]], dirs + [found], rest, 0, want)
  {
  }

  /** What the names up to `n + 1` reach, and that no empty name follows. */
  lemma NextOnTheWay(p: Place, names: seq<Name>, n: nat)
    requires n < |names| && Reach(p, names).Some?
    ensures var next := Reach(p, names[..n + 1]);
            && Allowed(names[n], p.denied) && next.Some? && !next.value.Link?
            && Reach(p, names[..n]).Some? && p.tree.At(Reach(p, names[..n]).value, names[n]) == next
            && (n + 1 < |names| ==> next.value.Dir? && Allowed(names[n + 1], p.denied))
  {
    ReachPrefix(p, names, n);
    if n + 1 < |names| {
      ReachPrefix(p, names, n + 1);
    }
  }

  lemma NamesSplit(names: seq<Name>, n: nat)
    requires n < |names|
    ensures names[n..] != [] && names[n..][0] == names[n] && names[n..][1..] == names[n + 1..]
    ensures names[..n] + [names[n]] == names[..n + 1]
    ensures n + 1 < |names| ==> names[n + 1..][0] == names[n + 1]
    ensures n + 1 == |names| ==> names[..n + 1] == names && names[n + 1..] == []
  {
  }

  /** Names that reach an object of the wanted kind resolve to it, from any point on the way. */
  lemma {:induction false} ReachedIsResolved(p: Place, names: seq<Name>, n: nat, dirs: seq<Object>, want: Want)
    requires n <= |names| && Reach(p, names).Some? && IsWanted(Reach(p, names).value, want)
    requires Trod(p, names[..n], dirs)
    ensures Resolve(p, names[..n], dirs, names[n..], 0, want) == Success(Landing(names, Reach(p, names).value))
    decreases |names| - n
  {
    if n == |names| {
      assert names[..n] == names && names[n..] == [];
    } else {
      NextOnTheWay(p, names, n);
      NamesSplit(names, n);
      var next := Reach(p, names[..n + 1]).value;
      if n + 1 < |names| {
        TrodOn(p, names[..n], dirs, names[n], next);
        ReachedIsResolved(p, names, n + 1, dirs + [next], want);
      }
      ResolvesOn(p, names[..n], dirs, names[n..], names[n + 1..], want, next);
    }
  }

  /** A path resolves to itself exactly if it reaches an object of the wanted kind through real directories. */
  lemma OwnNamesResolve(p: Place, names: seq<Name>, want: Want)
    requires p.root.Dir?
    ensures (exists held :: Resolve(p, [], [], names, 0, want) == Success(Landing(names, held)))
       <==> (Reach(p, names).Some? && IsWanted(Reach(p, names).value, want))
  {
    ResolvedIsReached(p, [], [], names, 0, want);
    if Reach(p, names).Some? && IsWanted(Reach(p, names).value, want) {
      assert names[..0] == [] && names[0..] == names;
      ReachedIsResolved(p, names, 0, [], want);
    }
  }

  /** What a walk returned can be walked again by the returned names, and is the same object. */
  lemma WalkedAgain(p: Place, pending: seq<Name>, want: Want)
    requires p.root.Dir?
    ensures var r := Resolve(p, [], [], pending, 0, want);
            r.Success? ==> Resolve(p, [], [], r.value.parts, 0, want) == r
  {
    ResolvedIsReached(p, [], [], pending, 0, want);
    var r := Resolve(p, [], [], pending, 0, want);
    if r.Success? {
      assert r.value.parts[..0] == [] && r.value.parts[0..] == r.value.parts;
      ReachedIsResolved(p, r.value.parts, 0, [], want);
    }
  }
}
