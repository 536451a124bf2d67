/**
 What redirections come to: said of the descriptors alone, without the calls that bring it
 about.
 */
module WiringEffect {
  import opened Kernel

  /** The file is for descriptor 1 if it is written, and for descriptor 0 if it is read. */
  predicate IsFor(file: End, d: nat) {
    file.File? && (if file.writing then d == 1 else d == 0)
  }

  ghost predicate IsLastFor(files: seq<End>, k: nat, d: nat) {
    k < |files| && IsFor(files[k], d) && forall m :: k < m < |files| ==> !IsFor(files[m], d)
  }

  /** The last file for the descriptor has it; without one it keeps what it had. */
  ghost predicate StandsAt(u: Table, t: Table, files: seq<End>, d: nat) {
    && d in u
    && (forall k :: 0 <= k < |files| && IsLastFor(files, k, d) ==> u[d] == files[k])
    && ((forall k :: 0 <= k < |files| ==> !IsFor(files[k], d)) ==> d in t && u[d] == t[d])
  }

  /** All descriptors but 0 and 1 are as before, and the new ones are open files, as many as
      were opened. */
  ghost predicate KeepsOthers(u: Table, t: Table, files: seq<End>) {
    && (forall fd :: fd in t && fd != 0 && fd != 1 ==> fd in u && u[fd] == t[fd])
    && (forall fd :: fd in u && fd !in t ==> u[fd] in files)
    && |u.Keys| == |t.Keys| + |files|
  }

  /** From table `t`, carrying out redirections to and from these files leads to `u`. */
  ghost predicate Performs(u: Table, t: Table, files: seq<End>) {
    StandsAt(u, t, files, 0) && StandsAt(u, t, files, 1) && KeepsOthers(u, t, files)
  }

  /** A file that is opened before the others. */
  lemma FirstStands(u: Table, t: Table, v: Table, files: seq<End>, d: nat, l: nat, e: nat)
    requires files != [] && IsFor(files[0], e) && l !in t && e in t && d in t
    requires v == t[l := files[0]][e := files[0]]
    requires StandsAt(u, v, files[1..], d)
    ensures StandsAt(u, t, files, d)
  {
    var rest := files[1..];
    if k: nat :| k < |rest| && IsFor(rest[k], d) {
      assert IsFor(files[k + 1], d);
    } else {
      assert u[d] == v[d];
      assert forall m :: 0 < m < |files| ==> files[m] == rest[m - 1] && !IsFor(rest[m - 1], d);
    }
    forall k | 0 <= k < |files| && IsLastFor(files, k, d)
      ensures u[d] == files[k]
    {
      if k > 0 {
        assert forall m :: k - 1 < m < |rest| ==> rest[m] == files[m + 1];
        assert IsLastFor(rest, k - 1, d);
      } else {
        assert forall m :: 0 <= m < |rest| ==> rest[m] == files[m + 1];
      }
    }
  }

  lemma FirstKeeps(u: Table, t: Table, v: Table, files: seq<End>, l: nat, e: nat)
    requires files != [] && IsFor(files[0], e) && l !in t && 0 in t && 1 in t
    requires v == t[l := files[0]][e := files[0]]
    requires KeepsOthers(u, v, files[1..])
    ensures KeepsOthers(u, t, files)
  {
    assert v.Keys == t.Keys + {l};
    forall fd | fd in u && fd !in t
      ensures u[fd] in files
    {
      if fd == l {
        assert u[fd] == v[fd] == files[0];
      }
    }
  }

  /** Pipe ends are where they were, except that a file takes the place of its descriptor's. */
  lemma PipesStay(u: Table, t: Table, files: seq<End>, fd: nat)
    requires Performs(u, t, files) && forall k :: 0 <= k < |files| ==> files[k].File?
    ensures fd in u && IsPipeEnd(u[fd]) ==> fd in t && t[fd] == u[fd] && forall k :: 0 <= k < |files| ==> !IsFor(files[k], fd)
    ensures fd in t && (forall k :: 0 <= k < |files| ==> !IsFor(files[k], fd)) ==> fd in u && u[fd] == t[fd]
  {
    if k: nat :| k < |files| && IsFor(files[k], fd) {
      var last := LastFor(files, fd, k);
      assert u[fd] == files[last];
    }
  }

  lemma {:induction false} LastFor(files: seq<End>, d: nat, k: nat) returns (last: nat)
    requires k < |files| && IsFor(files[k], d)
    ensures IsLastFor(files, last, d)
    decreases |files| - k
  {
    if m: nat :| k < m < |files| && IsFor(files[m], d) {
      last := LastFor(files, d, m);
    } else {
      last := k;
    }
  }
}
