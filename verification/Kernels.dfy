/**
  A process on a filesystem that others change while it works. Every system call sees the tree of its own moment; a
  descriptor keeps naming the object it was opened on.
*/
module Kernels {
  import opened Wrappers

  type Name = string
  type Fd = nat

  /** Objects are never reused; a symbolic link keeps its text. */
  datatype Object = Dir(id: nat) | Regular(id: nat) | Link(id: nat, target: string) | Special(id: nat)

  /**
    What the system finds from each directory at one moment: under a name without a separator its entry, and under any
    other what the system's own walk comes to.
  */
  datatype Tree = Tree(entries: map<(Object, Name), Object>) {
    function At(dir: Object, name: Name): Option<Object> {
      if (dir, name) in entries then Some(entries[(dir, name)]) else None
    }
  }

  datatype Fault = Permission | InputOutput

  datatype Errno = NotFound | Changed | Refused(fault: Fault)

  /** A name that is looked up below a directory. */
  predicate Plain(name: Name) {
    name != "" && name != "." && name != ".." && '\0' !in name
  }

  /** What `open` without following links does with an entry. */
  function OpensAs(found: Option<Object>, directory: bool): Result<Object, Errno> {
    if found.None? then Failure(NotFound)
    else if found.value.Link? || (directory && !found.value.Dir?) then Failure(Changed)
    else Success(found.value)
  }

  class Kernel {
    const trees: nat -> Tree                     // by the number of the call
    const faults: nat -> Option<Fault>           // calls that the system refuses
    const realpath: (nat, string) -> Option<seq<Name>>   // names below the root, or outside of it; any answer
    var clock: nat
    var open: map<Fd, Object>
    var unused: Fd

    constructor (trees: nat -> Tree, faults: nat -> Option<Fault>, realpath: (nat, string) -> Option<seq<Name>>)
      ensures Valid() && open == map[]
      ensures this.trees == trees && this.faults == faults && this.realpath == realpath
    {
      this.trees, this.faults, this.realpath := trees, faults, realpath;
      clock, open, unused := 0, map[], 0;
    }

    ghost predicate Valid()
      reads this
    {
      forall fd :: fd in open ==> fd < unused
    }

    method Lstat(dir: Fd, name: Name) returns (r: Result<Object, Errno>)
      requires Valid() && dir in open && Plain(name)
      modifies this
      ensures Valid() && open == old(open) && clock == old(clock) + 1
      ensures faults(old(clock)).None? ==>
                var found := trees(old(clock)).At(open[dir], name);
                r == if found.Some? then Success(found.value) else Failure(NotFound)
      ensures faults(old(clock)).Some? ==> r == Failure(Refused(faults(old(clock)).value))
    {
      var fault, found := faults(clock), trees(clock).At(open[dir], name);
      clock := clock + 1;
      r := if fault.Some? then Failure(Refused(fault.value)) else if found.Some? then Success(found.value) else Failure(NotFound);
    }

    method ReadLink(dir: Fd, name: Name) returns (r: Result<string, Errno>)
      requires Valid() && dir in open && Plain(name)
      modifies this
      ensures Valid() && open == old(open) && clock == old(clock) + 1
      ensures faults(old(clock)).None? && trees(old(clock)).At(open[dir], name).Some? ==>
                var found := trees(old(clock)).At(open[dir], name).value;
                r == if found.Link? then Success(found.target) else Failure(Refused(InputOutput))
    {
      var fault, found := faults(clock), trees(clock).At(open[dir], name);
      clock := clock + 1;
      if fault.Some? {
        return Failure(Refused(fault.value));
      }
      if found.None? {
        return Failure(NotFound);
      }
      r := if found.value.Link? then Success(found.value.target) else Failure(Refused(InputOutput));
    }

    method OpenChild(dir: Fd, name: Name, directory: bool) returns (r: Result<Fd, Errno>)
      requires Valid() && dir in open && Plain(name)
      modifies this
      ensures Valid() && clock == old(clock) + 1
      ensures r.Failure? ==> open == old(open)
      ensures faults(old(clock)).Some? ==> r == Failure(Refused(faults(old(clock)).value))
      ensures faults(old(clock)).None? ==>
                var got := OpensAs(trees(old(clock)).At(old(open)[dir], name), directory);
                && (got.Failure? ==> r == Failure(got.error))
                && (got.Success? ==> r.Success? && r.value !in old(open) && open == old(open)[r.value := got.value])
    {
      var fault, got := faults(clock), OpensAs(trees(clock).At(open[dir], name), directory);
      clock := clock + 1;
      if fault.Some? {
        return Failure(Refused(fault.value));
      }
      if got.Failure? {
        return Failure(got.error);
      }
      r := Success(unused);
      open, unused := open[unused := got.value], unused + 1;
    }

    method Fstat(fd: Fd) returns (held: Object)
      requires Valid() && fd in open
      ensures held == open[fd]
    {
      held := open[fd];
    }

    method Dup(fd: Fd) returns (copy: Fd)
      requires Valid() && fd in open
      modifies this
      ensures Valid() && clock == old(clock)
      ensures copy !in old(open) && open == old(open)[copy := old(open)[fd]]
    {
      copy := unused;
      open, unused := open[unused := open[fd]], unused + 1;
    }

    /** Only an open descriptor can be closed. */
    method Close(fd: Fd)
      requires Valid() && fd in open
      modifies this
      ensures Valid() && open == old(open) - {fd} && clock == old(clock)
    {
      open := open - {fd};
    }

    method CloseAll(fds: seq<Fd>)
      requires Valid() && (forall i :: 0 <= i < |fds| ==> fds[i] in open)
      requires forall i, j :: 0 <= i < j < |fds| ==> fds[i] != fds[j]
      modifies this
      ensures Valid() && clock == old(clock)
      ensures open == old(open) - Set(fds)
    {
      for i := 0 to |fds|
        invariant Valid() && clock == old(clock)
        invariant open == old(open) - Set(fds[..i])
        invariant forall j :: i <= j < |fds| ==> fds[j] in open
      {
        SetOfMore(fds[..i], fds[i]);
        assert fds[..i + 1] == fds[..i] + [fds[i]];
        Close(fds[i]);
      }
      assert fds[..|fds|] == fds;
    }
  }

  function Set(fds: seq<Fd>): set<Fd> {
    set i | 0 <= i < |fds| :: fds[i]
  }

  lemma SetOfMore(fds: seq<Fd>, fd: Fd)
    ensures Set(fds + [fd]) == Set(fds) + {fd}
  {
    forall x
      ensures x in Set(fds + [fd]) <==> x in Set(fds) + {fd}
    {
      if x in Set(fds) {
        var i :| 0 <= i < |fds| && fds[i] == x;
        assert (fds + [fd])[i] == x;
      }
      if x == fd {
        assert (fds + [fd])[|fds|] == x;
      }
    }
  }
}
