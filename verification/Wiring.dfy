/**
 Starting the commands of a pipeline: one pipe between each two neighbours, one child per
 command, and in each process exactly the right descriptors left open.
 */
module Wiring {
  import opened Kernel

  const READ: nat := 0
  const WRITE: nat := 1

  /** The table child `i` of `n` is meant to run with: what the shell had, with standard
      input read from the pipe before it and standard output written to the pipe behind it. */
  function Wired(t: Table, n: nat, i: nat): Table {
    var withInput := if i > 0 then t[STDIN := ReadEnd(i - 1)] else t;
    if i + 1 < n then withInput[STDOUT := WriteEnd(i)] else withInput
  }

  /** Descriptor by descriptor: 0 is the pipe from the command before, 1 the pipe to the one
      behind, and everything else, at the ends of the pipeline 0 or 1 too, is the shell's. */
  lemma WiredTable(t: Table, n: nat, i: nat, fd: nat)
    requires i < n
    ensures i > 0 ==> 0 in Wired(t, n, i) && Wired(t, n, i)[0] == ReadEnd(i - 1)
    ensures i < n - 1 ==> 1 in Wired(t, n, i) && Wired(t, n, i)[1] == WriteEnd(i)
    ensures !(fd == 0 && i > 0) && !(fd == 1 && i < n - 1) ==>
              (fd in Wired(t, n, i) <==> fd in t) && (fd in t ==> Wired(t, n, i)[fd] == t[fd])
  {
  }

  ghost predicate NoPipes(t: Table) {
    forall fd :: fd in t ==> !IsPipeEnd(t[fd])
  }

  ghost predicate StandardOpen(t: Table) {
    0 in t && 1 in t && 2 in t
  }

  /** Every pipe has one writer and one reader in the whole pipeline, and nobody holds
      anything else of it: the reader sees end of file when its one writer is done. */
  lemma OneWriterOneReader(t: Table, n: nat, i: nat, fd: nat, k: nat)
    requires NoPipes(t) && i < n && k + 1 < n
    ensures fd in Wired(t, n, i) && Wired(t, n, i)[fd] == WriteEnd(k) <==> i == k && fd == STDOUT
    ensures fd in Wired(t, n, i) && Wired(t, n, i)[fd] == ReadEnd(k) <==> i == k + 1 && fd == STDIN
  {
  }

  /** The table of the shell when it is about to start child `i`: what it began with and
      the read end of the pipe before. */
  ghost predicate BeforeChild(t: Table, fds: Table, pipeList: array2<int>, n: nat, i: nat)
    reads pipeList
    requires pipeList.Length0 + 1 == n && pipeList.Length1 == 2 && i <= n
  {
    if i == 0 || i == n then fds == t
    else
      && pipeList[i - 1, WRITE] == -1
      && pipeList[i - 1, READ] >= 0 && pipeList[i - 1, READ] !in t
      && fds == t[pipeList[i - 1, READ] := ReadEnd(i - 1)]
  }

  /** The table after the pipe behind child `i` has been made, if there is one. */
  ghost predicate AtFork(t: Table, fds: Table, pipeList: array2<int>, n: nat, i: nat)
    reads pipeList
    requires pipeList.Length0 + 1 == n && pipeList.Length1 == 2 && i < n
  {
    && (i > 0 ==> pipeList[i - 1, WRITE] == -1 && pipeList[i - 1, READ] >= 0 && pipeList[i - 1, READ] !in t)
    && var before := if i > 0 then t[pipeList[i - 1, READ] as nat := ReadEnd(i - 1)] else t;
       if i + 1 == n then fds == before
       else
         var r, w := pipeList[i, READ], pipeList[i, WRITE];
         && r >= 0 && w >= 0 && r != w && r !in before && w !in before
         && fds == before[r := ReadEnd(i)][w := WriteEnd(i)]
  }

  /** The child's part before the redirections: attach the pipe ends to standard input and
      output, close everything else of the pipes. */
  method AttachPipes(child: Process, pipeList: array2<int>, n: nat, pipeIdx: nat, ghost t: Table) returns (ok: bool)
    requires pipeList.Length0 + 1 == n && pipeList.Length1 == 2 && pipeIdx < n
    requires StandardOpen(t) && AtFork(t, child.fds, pipeList, n, pipeIdx)
    modifies child
    ensures ok && child.fds == Wired(t, n, pipeIdx)
  {
    var pipeNum := n - 1;
    if pipeNum > 0 {
      var prevPipeIdx := if pipeIdx > 0 then pipeIdx - 1 else pipeIdx;
      var end := if pipeIdx > 0 then READ else WRITE;
      ok := child.Dup2(pipeList[prevPipeIdx, end], end);
      if !ok { return; }
      if pipeIdx > 0 && pipeIdx < pipeNum {
        ok := child.Dup2(pipeList[pipeIdx, WRITE], STDOUT);
        if !ok { return; }
      }
      if pipeList[prevPipeIdx, WRITE] > 0 {
        ok := child.Close(pipeList[prevPipeIdx, WRITE]);
        if !ok { return; }
      }
      ok := child.Close(pipeList[prevPipeIdx, READ]);
      if !ok { return; }
      if pipeIdx > 0 && pipeIdx < pipeNum {
        ok := child.Close(pipeList[pipeIdx, WRITE]);
        if !ok { return; }
        ok := child.Close(pipeList[pipeIdx, READ]);
        if !ok { return; }
      }
    }
    return true;
  }

  /** The shell's part after a fork: it keeps no write end, and the read end of one pipe. */
  method CloseInParent(parent: Process, pipeList: array2<int>, n: nat, pipeIdx: nat, ghost t: Table)
    requires pipeList.Length0 + 1 == n && pipeList.Length1 == 2 && pipeIdx < n
    requires AtFork(t, parent.fds, pipeList, n, pipeIdx)
    modifies parent, pipeList
    ensures BeforeChild(t, parent.fds, pipeList, n, pipeIdx + 1)
  {
    var pipeNum := n - 1;
    if pipeNum > 0 {
      var prevPipeIdx := if pipeIdx > 0 then pipeIdx - 1 else pipeIdx;
      if pipeIdx < pipeNum {
        var _ := parent.Close(pipeList[pipeIdx, WRITE]);
        pipeList[pipeIdx, WRITE] := -1;
      }
      if pipeIdx > 0 {
        var _ := parent.Close(pipeList[prevPipeIdx, READ]);
        pipeList[prevPipeIdx, READ] := -1;
      }
    }
  }

  /** `my_pipe` without redirections. Every child runs with the table it is meant to have,
      and the shell ends with the table it began with. */
  method MyPipe(parent: Process, n: nat) returns (children: seq<Process>, ok: bool)
    requires n > 0 && StandardOpen(parent.fds)
    modifies parent
    ensures ok && |children| == n && parent.fds == old(parent.fds)
    ensures forall i :: 0 <= i < n ==> children[i].fds == Wired(old(parent.fds), n, i)
  {
    ghost var t := parent.fds;
    var pipeList := new int[n - 1, 2]((_, _) => 0);
    children, ok := [], true;
    for i := 0 to n
      invariant fresh(pipeList) && ok && |children| == i
      invariant BeforeChild(t, parent.fds, pipeList, n, i)
      invariant forall k :: 0 <= k < i ==>
                  fresh(children[k]) && children[k] != parent && children[k].fds == Wired(t, n, k)
    {
      if i < n - 1 {
        var r, w := parent.Pipe(i);
        pipeList[i, READ], pipeList[i, WRITE] := r, w;
      }
      assert AtFork(t, parent.fds, pipeList, n, i);
      var child := parent.Fork();
      ok := AttachPipes(child, pipeList, n, i, t);
      children := children + [child];
      CloseInParent(parent, pipeList, n, i, t);
    }
  }
}
