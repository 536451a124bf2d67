/**
 What pipe, fork, dup2, close and open do to the descriptor tables of processes.
 */
module Kernel {

  /** What a descriptor refers to. Pipes are numbered in the order they are made. */
  datatype End =
    | Inherited(id: nat)
    | ReadEnd(pipe: nat)
    | WriteEnd(pipe: nat)
    | File(name: string, writing: bool)

  predicate IsPipeEnd(e: End) {
    e.ReadEnd? || e.WriteEnd?
  }

  type Table = map<nat, End>

  const STDIN: nat := 0
  const STDOUT: nat := 1

  /** The least descriptor not in use from `k` on. */
  function FreeFrom(t: Table, k: nat): (fd: nat)
    ensures fd >= k && fd !in t
    ensures forall f :: k <= f < fd ==> f in t
    decreases set f | f in t && f >= k
  {
    if k in t then
      assert (set f | f in t && f >= k) == (set f | f in t && f >= k + 1) + {k};
      FreeFrom(t, k + 1)
    else k
  }

  function LowestFree(t: Table): nat {
    FreeFrom(t, 0)
  }

  class Process {
    var fds: Table

    constructor (t: Table)
      ensures fds == t
    {
      fds := t;
    }

    /** pipe(2): two new descriptors, the lowest free ones. */
    method Pipe(id: nat) returns (r: nat, w: nat)
      modifies this
      ensures r == LowestFree(old(fds)) && w == LowestFree(old(fds)[r := ReadEnd(id)])
      ensures r != w && r !in old(fds) && w !in old(fds)
      ensures fds == old(fds)[r := ReadEnd(id)][w := WriteEnd(id)]
    {
      r := LowestFree(fds);
      fds := fds[r := ReadEnd(id)];
      w := LowestFree(fds);
      fds := fds[w := WriteEnd(id)];
    }

    /** fork(2): the child starts with a copy of the table. */
    method Fork() returns (child: Process)
      ensures fresh(child) && child.fds == fds
    {
      child := new Process(fds);
    }

    /** dup2(2) fails when the source is not open. */
    method Dup2(source: int, target: nat) returns (ok: bool)
      modifies this
      ensures ok <==> source >= 0 && source in old(fds)
      ensures fds == if ok then old(fds)[target := old(fds)[source]] else old(fds)
    {
      ok := source >= 0 && source in fds;
      if ok {
        fds := fds[target := fds[source]];
      }
    }

    /** close(2) fails when the descriptor is not open. */
    method Close(fd: int) returns (ok: bool)
      modifies this
      ensures ok <==> fd >= 0 && fd in old(fds)
      ensures fds == if ok then old(fds) - {fd} else old(fds)
    {
      ok := fd >= 0 && fd in fds;
      if ok {
        fds := fds - {fd};
      }
    }

    method Open(name: string, writing: bool) returns (fd: nat)
      modifies this
      ensures fd == LowestFree(old(fds))
      ensures fds == old(fds)[fd := File(name, writing)]
    {
      fd := LowestFree(fds);
      fds := fds[fd := File(name, writing)];
    }
  }
}
