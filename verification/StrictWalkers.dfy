/**
  A walker that goes from path to path through a chain of open directories, leaving and entering only what differs. On a
  tree that does not change, a lookup answers what a walk from the root answers, whatever was looked up before.
*/
module StrictWalkers {
  import opened Wrappers
  import opened Kernels
  import DescriptorWalks

  datatype Place = Directory(held: Object) | NotThere | InTheWay

  /** A walk from `at`, by the names alone. A link ends it as an obstacle, any other object that is no directory as if it were missing. */
  function Descend(tree: Tree, at: Object, parts: seq<Name>): Place
    decreases |parts|
  {
    if parts == [] then Directory(at)
    else
      var found := tree.At(at, parts[0]);
      if found.None? then NotThere
      else if found.value.Link? then InTheWay
      else if !found.value.Dir? then NotThere
      else Descend(tree, found.value, parts[1..])
  }

  /** A walk can stop on the way and go on from there. */
  lemma {:induction false} DescendInTwo(tree: Tree, at: Object, parts: seq<Name>, n: nat)
    requires n <= |parts|
    ensures var half := Descend(tree, at, parts[..n]);
            Descend(tree, at, parts) == if half.Directory? then Descend(tree, half.held, parts[n..]) else half
    decreases n
  {
    if n == 0 {
      assert parts[..0] == [] && parts[0..] == parts;
    } else {
      var found := tree.At(at, parts[0]);
      assert parts[..n][1..] == parts[1..][..n - 1] && parts[1..][n - 1..] == parts[n..];
      if found.Some? && found.value.Dir? {
        DescendInTwo(tree, found.value, parts[1..], n - 1);
      }
    }
  }

  lemma DescendOn(tree: Tree, root: Object, names: seq<Name>, at: Object, name: Name, dir: Object)
    requires Descend(tree, root, names) == Directory(at) && tree.At(at, name) == Some(dir) && dir.Dir?
    ensures Descend(tree, root, names + [name]) == Directory(dir)
  {
    DescendInTwo(tree, root, names + [name], |names|);
    assert (names + [name])[..|names|] == names && (names + [name])[|names|..] == [name] && [name][1..] == [];
  }

  /** Each directory is what the names up to it reach. */
  ghost predicate Nested(tree: Tree, root: Object, names: seq<Name>, dirs: seq<Object>) {
    && |names| == |dirs|
    && forall n :: 0 <= n <= |names| ==>
         Descend(tree, root, names[..n]) == Directory(DescriptorWalks.Innermost(root, dirs[..n]))
  }

  lemma NestedOn(tree: Tree, root: Object, names: seq<Name>, dirs: seq<Object>, name: Name, dir: Object)
    requires Nested(tree, root, names, dirs)
    requires tree.At(DescriptorWalks.Innermost(root, dirs), name) == Some(dir) && dir.Dir?
    ensures Nested(tree, root, names + [name], dirs + [dir])
  {
    var more, deeper := names + [name], dirs + [dir];
    forall n | 0 <= n <= |more|
      ensures Descend(tree, root, more[..n]) == Directory(DescriptorWalks.Innermost(root, deeper[..n]))
    {
      if n < |more| {
        assert more[..n] == names[..n] && deeper[..n] == dirs[..n];
      } else {
        assert names[..|names|] == names && dirs[..|dirs|] == dirs;
        DescendOn(tree, root, names, DescriptorWalks.Innermost(root, dirs), name, dir);
        assert more[..n] == more && deeper[..n] == deeper;
      }
    }
  }

  lemma NestedLess(tree: Tree, root: Object, names: seq<Name>, dirs: seq<Object>)
    requires Nested(tree, root, names, dirs) && names != []
    ensures Nested(tree, root, names[..|names| - 1], dirs[..|dirs| - 1])
  {
    var less, higher := names[..|names| - 1], dirs[..|dirs| - 1];
    forall n | 0 <= n <= |less|
      ensures less[..n] == names[..n] && higher[..n] == dirs[..n]
    {
    }
  }

  lemma NestedEnd(tree: Tree, root: Object, names: seq<Name>, dirs: seq<Object>)
    requires Nested(tree, root, names, dirs)
    ensures Descend(tree, root, names) == Directory(DescriptorWalks.Innermost(root, dirs))
  {
    assert names[..|names|] == names && dirs[..|dirs|] == dirs;
  }

  lemma PrefixOn(names: seq<Name>, parts: seq<Name>)
    requires names <= parts && |names| < |parts|
    ensures names + [parts[|names|]] <= parts
  {
  }

  lemma FirstNameStops(tree: Tree, at: Object, parts: seq<Name>)
    requires parts != [] && !Descend(tree, at, [parts[0]]).Directory?
    ensures Descend(tree, at, parts) == Descend(tree, at, [parts[0]])
  {
    assert [parts[0]][1..] == [];
  }

  /** What stops a walk one name further stops the whole walk. */
  lemma StopsHere(tree: Tree, root: Object, names: seq<Name>, parts: seq<Name>, at: Object)
    requires names <= parts && |names| < |parts| && Descend(tree, root, names) == Directory(at)
    requires !Descend(tree, at, [parts[|names|]]).Directory?
    ensures Descend(tree, root, parts) == Descend(tree, at, [parts[|names|]])
  {
    DescendInTwo(tree, root, parts, |names|);
    assert parts[..|names|] == names && parts[|names|..][0] == parts[|names|];
    FirstNameStops(tree, at, parts[|names|..]);
  }

  datatype Entry = Entry(name: Name, fd: Fd)

  function Names(chain: seq<Entry>): (names: seq<Name>)
    ensures |names| == |chain|
  {
    if chain == [] then [] else Names(chain[..|chain| - 1]) + [chain[|chain| - 1].name]
  }

  function Fds(chain: seq<Entry>): (fds: seq<Fd>)
    ensures |fds| == |chain|
  {
    if chain == [] then [] else Fds(chain[..|chain| - 1]) + [chain[|chain| - 1].fd]
  }

  lemma {:induction false} NameAt(chain: seq<Entry>, n: nat)
    requires n < |chain|
    ensures Names(chain)[n] == chain[n].name && Names(chain[..n]) == Names(chain)[..n]
    decreases |chain|
  {
    var init := chain[..|chain| - 1];
    if n < |init| {
      NameAt(init, n);
      assert init[..n] == chain[..n];
    }
  }

  lemma OneMore(chain: seq<Entry>, e: Entry)
    ensures Names(chain + [e]) == Names(chain) + [e.name] && Fds(chain + [e]) == Fds(chain) + [e.fd]
  {
    assert (chain + [e])[..|chain|] == chain;
  }

  datatype Found = At(fd: Fd) | NoDirectory | PathReplaced | Unavailable(fault: Fault)

  predicate PlainParts(parts: seq<Name>) {
    forall k :: 0 <= k < |parts| ==> Plain(parts[k])
  }

  /** The walker refuses no name: what it is asked for was admitted before. */
  const NONE_DENIED: Name -> bool := _ => false

  lemma EndIsDirectory(kernel: Kernel, base: map<Fd, Object>, root: Fd, fds: seq<Fd>, trail: DescriptorWalks.Trail, dir: Object)
    requires DescriptorWalks.Standing(kernel, base, root, fds, DescriptorWalks.DirsOf(trail) + [dir])
    ensures DescriptorWalks.End(base[root], trail).Dir?
  {
    var dirs := DescriptorWalks.DirsOf(trail);
    if dirs != [] {
      assert (dirs + [dir])[|dirs| - 1] == DescriptorWalks.End(base[root], trail);
    }
  }

  class StrictWalker {
    const kernel: Kernel
    const root: Fd
    ghost const rootObject: Object
    var chain: seq<Entry>
    ghost var trail: DescriptorWalks.Trail       // how the chain was entered
    ghost var base: map<Fd, Object>              // what else is open

    ghost function Dirs(): seq<Object>
      reads this
    {
      DescriptorWalks.DirsOf(trail)
    }

    /** What the chain holds was entered by its names, each an entry of the directory before it at its own moment. */
    ghost predicate Entered()
      reads this, kernel
    {
      && DescriptorWalks.NamesOf(trail) == Names(chain)
      && DescriptorWalks.Real(kernel.trees, NONE_DENIED, rootObject, trail, 0, kernel.clock)
    }

    /** The chain is open directories, really entered; if nothing changes, they are what its names reach. */
    ghost predicate Valid()
      reads this, kernel
    {
      && DescriptorWalks.Standing(kernel, base, root, Fds(chain), Dirs())
      && base[root] == rootObject && PlainParts(Names(chain)) && Entered()
      && (DescriptorWalks.Quiet(kernel) ==> Nested(kernel.trees(0), rootObject, Names(chain), Dirs()))
    }

    constructor (kernel: Kernel, root: Fd)
      requires kernel.Valid() && root in kernel.open && kernel.open[root].Dir?
      ensures Valid() && this.kernel == kernel && this.root == root && chain == [] && base == kernel.open
    {
      this.kernel, this.root, this.rootObject, chain, base := kernel, root, kernel.open[root], [], kernel.open;
      trail := DescriptorWalks.Start;
      new;
      assert Set([]) == {};
    }

    /** Leave the innermost directory. */
    method Pop()
      requires Valid() && chain != []
      modifies this`chain, this`trail, kernel
      ensures Valid() && chain == old(chain)[..|old(chain)| - 1] && trail == old(trail).before && kernel.clock == old(kernel.clock)
      ensures Names(chain) == old(Names(chain))[..|old(chain)| - 1]
    {
      ghost var names, dirs := Names(chain), Dirs();
      if DescriptorWalks.Quiet(kernel) {
        NestedLess(kernel.trees(0), rootObject, names, dirs);
      }
      DescriptorWalks.Leave(kernel, base, root, Fds(chain), dirs);
      DescriptorWalks.LaterIsReal(kernel.trees, NONE_DENIED, rootObject, trail.before, 0, trail.time, kernel.clock);
      chain, trail := chain[..|chain| - 1], trail.before;
      assert Names(chain) == names[..|names| - 1] && Dirs() == dirs[..|dirs| - 1];
    }

    /** One name down: nothing there, a link in the way, or one more directory in the chain. */
    method Push(name: Name) returns (r: Found)
      requires Valid() && Plain(name)
      modifies this`chain, this`trail, kernel
      ensures Valid() && old(kernel.clock) <= kernel.clock
      ensures if r.At? then chain == old(chain) + [Entry(name, r.fd)] else chain == old(chain)
      ensures DescriptorWalks.Quiet(kernel) ==>
                var place := Descend(kernel.trees(0), DescriptorWalks.Innermost(rootObject, old(Dirs())), [name]);
                Answers(r, place) && (place.Directory? ==> Dirs() == old(Dirs()) + [place.held])
    {
      DescriptorWalks.CurrentIsOpen(kernel, base, root, Fds(chain), Dirs());
      var seen := kernel.Lstat(DescriptorWalks.Current(root, Fds(chain)), name);
      DescriptorWalks.LaterIsReal(kernel.trees, NONE_DENIED, rootObject, trail, 0, old(kernel.clock), kernel.clock);
      assert [name][1..] == [];
      if seen.Failure? {
        return if seen.error.NotFound? then NoDirectory else if seen.error.Refused? then Unavailable(seen.error.fault) else PathReplaced;
      }
      if seen.value.Link? {
        return PathReplaced;
      }
      if !seen.value.Dir? {
        return NoDirectory;
      }
      r := PushSeen(name, seen.value);
    }

    /** A directory was seen at the name: it is entered, and given up again if it is another one by then. */
    method PushSeen(name: Name, seen: Object) returns (r: Found)
      requires Valid() && Plain(name) && seen.Dir?
      modifies this`chain, this`trail, kernel
      ensures Valid() && old(kernel.clock) <= kernel.clock
      ensures if r.At? then chain == old(chain) + [Entry(name, r.fd)] && Dirs() == old(Dirs()) + [seen] else chain == old(chain)
      ensures DescriptorWalks.Quiet(kernel) ==>
                (kernel.trees(0).At(DescriptorWalks.Innermost(rootObject, old(Dirs())), name) == Some(seen) ==> r.At?)
    {
      var fd, dir := DescriptorWalks.Enter(kernel, base, root, Fds(chain), Dirs(), name);
      DescriptorWalks.LaterIsReal(kernel.trees, NONE_DENIED, rootObject, trail, 0, old(kernel.clock), kernel.clock);
      if fd.Failure? {
        return if fd.error.Missing? then NoDirectory else if fd.error.Failed? then Unavailable(fd.error.fault) else PathReplaced;
      }
      assert (Fds(chain) + [fd.value])[|chain|] == fd.value;
      var held := kernel.Fstat(fd.value);
      if held != seen {
        GiveUp(fd.value, dir);
        return PathReplaced;
      }
      Deepen(name, fd.value, dir);
      return At(fd.value);
    }

    /** The descriptor just entered is closed again. */
    method GiveUp(fd: Fd, ghost dir: Object)
      requires DescriptorWalks.Standing(kernel, base, root, Fds(chain) + [fd], Dirs() + [dir])
      requires base[root] == rootObject && PlainParts(Names(chain)) && Entered()
      requires DescriptorWalks.Quiet(kernel) ==> Nested(kernel.trees(0), rootObject, Names(chain), Dirs())
      modifies kernel
      ensures Valid() && kernel.clock == old(kernel.clock)
    {
      ghost var fds, dirs := Fds(chain) + [fd], Dirs() + [dir];
      assert fds[..|fds| - 1] == Fds(chain) && dirs[..|dirs| - 1] == Dirs();
      DescriptorWalks.Leave(kernel, base, root, Fds(chain) + [fd], dirs);
    }

    /** The descriptor just entered joins the chain. */
    method Deepen(name: Name, fd: Fd, ghost dir: Object)
      requires DescriptorWalks.Standing(kernel, base, root, Fds(chain) + [fd], Dirs() + [dir]) && dir.Dir?
      requires base[root] == rootObject && PlainParts(Names(chain)) && Plain(name) && |Dirs()| == |chain| && Entered()
      requires DescriptorWalks.Quiet(kernel) ==> Nested(kernel.trees(0), rootObject, Names(chain), Dirs())
      requires kernel.clock > 0
      requires DescriptorWalks.Real(kernel.trees, NONE_DENIED, rootObject, trail, 0, kernel.clock - 1)
      requires kernel.trees(kernel.clock - 1).At(DescriptorWalks.Innermost(rootObject, Dirs()), name) == Some(dir)
      modifies this`chain, this`trail
      ensures Valid() && chain == old(chain) + [Entry(name, fd)] && Dirs() == old(Dirs()) + [dir]
    {
      OneMore(chain, Entry(name, fd));
      if DescriptorWalks.Quiet(kernel) {
        assert kernel.trees(kernel.clock - 1) == kernel.trees(0);
        NestedOn(kernel.trees(0), rootObject, Names(chain), Dirs(), name, dir);
      }
      EndIsDirectory(kernel, base, root, Fds(chain) + [fd], trail, dir);
      chain, trail := chain + [Entry(name, fd)], DescriptorWalks.Step(trail, name, dir, kernel.clock - 1);
    }

    /** How many names the path shares with the chain. */
    method Shared(parts: seq<Name>) returns (keep: nat)
      ensures keep <= |chain| && keep <= |parts| && Names(chain)[..keep] == parts[..keep]
      ensures keep < |chain| && keep < |parts| ==> Names(chain)[keep] != parts[keep]
    {
      keep := 0;
      while keep < |chain| && keep < |parts| && chain[keep].name == parts[keep]
        invariant keep <= |chain| && keep <= |parts| && Names(chain)[..keep] == parts[..keep]
      {
        NameAt(chain, keep);
        assert Names(chain)[..keep + 1] == parts[..keep + 1];
        keep := keep + 1;
      }
      if keep < |chain| {
        NameAt(chain, keep);
      }
    }

    /** Leave what the path does not share with the chain. */
    method KeepShared(parts: seq<Name>)
      requires Valid()
      modifies this`chain, this`trail, kernel
      ensures Valid() && Names(chain) <= parts
    {
      var keep := Shared(parts);
      while |chain| > keep
        invariant Valid() && keep <= |chain| && Names(chain)[..keep] == parts[..keep]
        decreases |chain|
      {
        Pop();
      }
      assert Names(chain)[..keep] == Names(chain);
    }

    /** The next name of the path, if the chain does not hold all of it. */
    method Advance(parts: seq<Name>) returns (r: Found)
      requires Valid() && PlainParts(parts) && Names(chain) <= parts && |chain| < |parts|
      modifies this`chain, this`trail, kernel
      ensures Valid() && Names(chain) <= parts && |chain| == |old(chain)| + (if r.At? then 1 else 0)
      ensures DescriptorWalks.Quiet(kernel) && !r.At? ==> Answers(r, Descend(kernel.trees(0), rootObject, parts))
    {
      var name := parts[|chain|];
      ghost var names, at := Names(chain), DescriptorWalks.Innermost(rootObject, Dirs());
      if DescriptorWalks.Quiet(kernel) {
        NestedEnd(kernel.trees(0), rootObject, names, Dirs());
      }
      r := Push(name);
      if r.At? {
        OneMore(old(chain), Entry(name, r.fd));
        PrefixOn(names, parts);
      } else if DescriptorWalks.Quiet(kernel) {
        StopsHere(kernel.trees(0), rootObject, names, parts, at);
      }
    }

    /** Directory `parts`, with what the chain already holds of the way. */
    method Lookup(parts: seq<Name>) returns (r: Found)
      requires Valid() && PlainParts(parts)
      modifies this`chain, this`trail, kernel
      ensures Valid() && Names(chain) <= parts
      ensures r.At? ==>
                && Names(chain) == parts && r.fd in kernel.open
                && kernel.open[r.fd] == DescriptorWalks.End(rootObject, trail) && DescriptorWalks.NamesOf(trail) == parts
                && DescriptorWalks.Real(kernel.trees, NONE_DENIED, rootObject, trail, 0, kernel.clock)
      ensures DescriptorWalks.Quiet(kernel) ==> Answers(r, Descend(kernel.trees(0), rootObject, parts))
      ensures DescriptorWalks.Quiet(kernel) && r.At? ==>
                Descend(kernel.trees(0), rootObject, parts) == Directory(kernel.open[r.fd])
    {
      KeepShared(parts);
      while |chain| < |parts|
        invariant Valid() && Names(chain) <= parts
        decreases |parts| - |chain|
      {
        r := Advance(parts);
        if !r.At? {
          return;
        }
      }
      if DescriptorWalks.Quiet(kernel) {
        NestedEnd(kernel.trees(0), rootObject, Names(chain), Dirs());
      }
      DescriptorWalks.CurrentIsOpen(kernel, base, root, Fds(chain), Dirs());
      r := At(DescriptorWalks.Current(root, Fds(chain)));
    }

    /** Everything the walker opened is closed, once; `root` is closed by whoever opened it. */
    method Close()
      requires Valid()
      modifies this`chain, this`trail, kernel
      ensures Valid() && chain == [] && kernel.open == base
    {
      while chain != []
        invariant Valid()
        decreases |chain|
      {
        Pop();
      }
      assert Set([]) == {};
    }
  }

  predicate Answers(r: Found, place: Place) {
    match place
    case Directory(_) => r.At?
    case NotThere => r.NoDirectory?
    case InTheWay => r.PathReplaced?
  }
}
