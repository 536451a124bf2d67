/**
 The pipeline with redirections: after a child has attached its pipe ends, it opens the
 files of its command and puts them in the place of standard input or output.
 */
module WiringRedirected {
  import opened Kernel
  import opened Wiring
  import opened WiringEffect
  import opened CommandLine

  function Target(r: Redirection): nat {
    if r.writing then STDOUT else STDIN
  }

  /** The table after opening the files of `rs` one after the other: each takes the lowest
      free descriptor, stays open there, and replaces its standard descriptor. */
  function Redirected(t: Table, rs: seq<Redirection>): Table
    decreases |rs|
  {
    if rs == [] then t
    else
      var file := File(rs[0].file, rs[0].writing);
      Redirected(t[LowestFree(t) := file][Target(rs[0]) := file], rs[1..])
  }

  function FilesOf(rs: seq<Redirection>): seq<End> {
    seq(|rs|, k requires 0 <= k < |rs| => File(rs[k].file, rs[k].writing))
  }

  /** However many redirections there are, each takes effect, the last one on a descriptor wins. */
  lemma {:induction false} RedirectedPerforms(t: Table, rs: seq<Redirection>)
    requires StandardOpen(t)
    ensures Performs(Redirected(t, rs), t, FilesOf(rs))
    decreases |rs|
  {
    if rs != [] {
      var files, l := FilesOf(rs), LowestFree(t);
      var e := if rs[0].writing then 1 else 0;
      var v := t[l := files[0]][e := files[0]];
      RedirectedPerforms(v, rs[1..]);
      assert FilesOf(rs[1..]) == files[1..];
      FirstStands(Redirected(t, rs), t, v, files, 0, l, e);
      FirstStands(Redirected(t, rs), t, v, files, 1, l, e);
      FirstKeeps(Redirected(t, rs), t, v, files, l, e);
    }
  }

  /** The redirections from `l` on that point at the command whose first word is `cmd`. */
  function Matching(redirs: seq<Redirection>, l: nat, cmd: nat): seq<Redirection>
    decreases |redirs| - l
  {
    if l < |redirs| && redirs[l].cmd == cmd then [redirs[l]] + Matching(redirs, l + 1, cmd) else []
  }

  predicate AllStart(cmds: seq<seq<nat>>) {
    forall i :: 0 <= i < |cmds| ==> cmds[i] != []
  }

  /** The shell's own index into the redirections when it starts child `i`: it moves on by
      one for each child that had any. */
  function ParentIndex(cmds: seq<seq<nat>>, redirs: seq<Redirection>, i: nat): nat
    requires AllStart(cmds) && i <= |cmds|
  {
    if i == 0 then 0
    else
      var l := ParentIndex(cmds, redirs, i - 1);
      if l < |redirs| && redirs[l].cmd == cmds[i - 1][0] then l + 1 else l
  }

  /** The redirections child `i` carries out. */
  function Applied(cmds: seq<seq<nat>>, redirs: seq<Redirection>, i: nat): seq<Redirection>
    requires AllStart(cmds) && i < |cmds|
  {
    Matching(redirs, ParentIndex(cmds, redirs, i), cmds[i][0])
  }

  lemma AllPerform(t: Table, cmds: seq<seq<nat>>, redirs: seq<Redirection>)
    requires AllStart(cmds) && StandardOpen(t)
    ensures forall i :: 0 <= i < |cmds| ==>
              var wired, rs := Wired(t, |cmds|, i), Applied(cmds, redirs, i);
              Performs(Redirected(wired, rs), wired, FilesOf(rs))
  {
    forall i | 0 <= i < |cmds|
      ensures var wired, rs := Wired(t, |cmds|, i), Applied(cmds, redirs, i);
        Performs(Redirected(wired, rs), wired, FilesOf(rs))
    {
      RedirectedPerforms(Wired(t, |cmds|, i), Applied(cmds, redirs, i));
    }
  }

  /** The child's redirection loop; `fd` has room for two files. */
  method ApplyRedirections(child: Process, redirs: seq<Redirection>, start: nat, cmd: nat) returns (ok: bool)
    requires |Matching(redirs, start, cmd)| <= 2
    modifies child
    ensures ok && child.fds == Redirected(old(child.fds), Matching(redirs, start, cmd))
    ensures StandardOpen(old(child.fds)) ==>
              Performs(child.fds, old(child.fds), FilesOf(Matching(redirs, start, cmd)))
  {
    if StandardOpen(child.fds) {
      RedirectedPerforms(child.fds, Matching(redirs, start, cmd));
    }
    var fd := new int[2] [-1, 0];
    var fdIdx, l := 0, start;
    ghost var goal := Redirected(child.fds, Matching(redirs, start, cmd));
    while l < |redirs| && redirs[l].cmd == cmd
      invariant fdIdx + |Matching(redirs, l, cmd)| <= 2
      invariant goal == Redirected(child.fds, Matching(redirs, l, cmd))
      invariant 0 <= fdIdx
      decreases |redirs| - l
    {
      assert Matching(redirs, l, cmd)[1..] == Matching(redirs, l + 1, cmd);
      fd[fdIdx] := child.Open(redirs[l].file, redirs[l].writing);
      ok := child.Dup2(fd[fdIdx], Target(redirs[l]));
      if !ok { return; }
      l := l + 1;
      fdIdx := fdIdx + 1;
    }
    return true;
  }

  /** The child's section, up to the start of its program. */
  method StartChild(parent: Process, pipeList: array2<int>, cmds: seq<seq<nat>>, redirs: seq<Redirection>, i: nat,
                    l: nat, isRedir: bool, ghost t: Table)
    returns (child: Process, ok: bool)
    requires i < |cmds| && AllStart(cmds) && l == ParentIndex(cmds, redirs, i)
    requires isRedir <==> l < |redirs| && redirs[l].cmd == cmds[i][0]
    requires |Applied(cmds, redirs, i)| <= 2
    requires pipeList.Length0 + 1 == |cmds| && pipeList.Length1 == 2
    requires StandardOpen(t) && AtFork(t, parent.fds, pipeList, |cmds|, i)
    ensures fresh(child) && ok
    ensures child.fds == Redirected(Wired(t, |cmds|, i), Applied(cmds, redirs, i))
  {
    child := parent.Fork();
    ok := AttachPipes(child, pipeList, |cmds|, i, t);
    if |redirs| > 0 && isRedir {
      ok := ApplyRedirections(child, redirs, l, cmds[i][0]);
    }
  }

  /** `my_pipe` with redirections: exactly what each child's table is when its program starts. */
  method MyPipe(parent: Process, cmds: seq<seq<nat>>, redirs: seq<Redirection>)
    returns (children: seq<Process>, ok: bool)
    requires cmds != [] && AllStart(cmds) && StandardOpen(parent.fds)
    requires forall i :: 0 <= i < |cmds| ==> |Applied(cmds, redirs, i)| <= 2
    modifies parent
    ensures ok && |children| == |cmds| && parent.fds == old(parent.fds)
    ensures forall i :: 0 <= i < |cmds| ==>
              children[i].fds == Redirected(Wired(old(parent.fds), |cmds|, i), Applied(cmds, redirs, i))
    ensures forall i :: 0 <= i < |cmds| ==>
              Performs(children[i].fds, Wired(old(parent.fds), |cmds|, i), FilesOf(Applied(cmds, redirs, i)))
  {
    ghost var t := parent.fds;
    var n := |cmds|;
    var pipeList := new int[n - 1, 2]((_, _) => 0);
    children, ok := [], true;
    var l, isRedir := 0, false;
    for i := 0 to n
      invariant fresh(pipeList) && ok && |children| == i
      invariant BeforeChild(t, parent.fds, pipeList, n, i)
      invariant l == ParentIndex(cmds, redirs, i) && !isRedir
      invariant forall k :: 0 <= k < i ==>
                  && fresh(children[k]) && children[k] != parent
                  && children[k].fds == Redirected(Wired(t, n, k), Applied(cmds, redirs, k))
    {
      if i < n - 1 {
        var r, w := parent.Pipe(i);
        pipeList[i, READ], pipeList[i, WRITE] := r, w;
      }
      if l < |redirs| && redirs[l].cmd == cmds[i][0] {
        isRedir := true;
      }
      var child;
      child, ok := StartChild(parent, pipeList, cmds, redirs, i, l, isRedir, t);
      children := children + [child];
      CloseInParent(parent, pipeList, n, i, t);
      if |redirs| > 0 && isRedir {
        l := l + 1;
        isRedir := false;
      }
    }    AllPerform(t, cmds, redirs);
  }

  // ---------------------------------------------------------------- what a redirection does

  /** The file wins on its descriptor; the other standard descriptor, and every pipe end
      anywhere else, is what it was. */
  lemma OneRedirection(t: Table, r: Redirection)
    requires StandardOpen(t)
    ensures var u, d := Redirected(t, [r]), Target(r);
      && d in u && u[d] == File(r.file, r.writing)
      && (forall fd :: fd in t && fd != d ==> fd in u && u[fd] == t[fd])
      && (forall fd :: fd in u && IsPipeEnd(u[fd]) ==> fd != d && fd in t && u[fd] == t[fd])
  {
    assert [r][1..] == [];
    assert Redirected(t, [r]) == t[LowestFree(t) := File(r.file, r.writing)][Target(r) := File(r.file, r.writing)];
  }
}
