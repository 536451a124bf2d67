/**
 `exec_cmd_list` of the small shell. It attaches the first pipe end, then carries out a
 redirection, then attaches the second pipe end, so that a middle command's output
 redirection does not survive.
 */
module MiniBash {
  import opened Kernel
  import opened Wiring
  import opened CommandLine
  import CommandLineParsers
  import WiringRedirected
  import opened CommandLineRoundTrip
  import opened ShellPipeline

  predicate Points(redirs: seq<Redirection>, k: nat, cmd: nat) {
    k < |redirs| && redirs[k].cmd == cmd
  }

  predicate Middle(n: nat, i: nat) {
    0 < i < n - 1
  }

  /** The redirections a child carries out: at most two, and only if the shell's index stands
      at the first of them. */
  function Carried(redirs: seq<Redirection>, idx: nat, cmd: nat): (carried: seq<Redirection>)
    ensures |carried| <= 2
  {
    if !Points(redirs, idx, cmd) then []
    else if !Points(redirs, idx + 1, cmd) then [redirs[idx]]
    else [redirs[idx], redirs[idx + 1]]
  }

  /** What standard descriptor `d` refers to in the end. A second redirection wins, and is
      opened for writing whatever its direction; the output of a first one loses to the
      pipe of a middle command. */
  function StandardEnd(wired: Table, middle: bool, carried: seq<Redirection>, d: nat): End
    requires d in wired
  {
    if |carried| > 1 && WiringRedirected.Target(carried[1]) == d then File(carried[1].file, true)
    else if |carried| > 0 && WiringRedirected.Target(carried[0]) == d && !(middle && d == STDOUT)
    then File(carried[0].file, carried[0].writing)
    else wired[d]
  }

  /** What a child that carried out these redirections has opened. */
  predicate IsOpened(carried: seq<Redirection>, e: End) {
    || (|carried| > 0 && e == File(carried[0].file, carried[0].writing))
    || (|carried| > 1 && e == File(carried[1].file, true))
  }

  /** What the child of command `i` runs with, exactly but for the numbers of the descriptors
      on which it keeps what it opened. */
  ghost predicate ChildTable(fds: Table, t: Table, n: nat, i: nat, carried: seq<Redirection>)
    requires i < n && StandardOpen(t)
  {
    ChildEnds(fds, t, n, i, carried) && |fds.Keys| == |t.Keys| + |carried|
  }

  ghost predicate ChildEnds(fds: Table, t: Table, n: nat, i: nat, carried: seq<Redirection>)
    requires i < n && StandardOpen(t)
  {
    var wired := Wired(t, n, i);
    && (carried == [] ==> fds == wired)
    && STDIN in fds && fds[STDIN] == StandardEnd(wired, Middle(n, i), carried, STDIN)
    && STDOUT in fds && fds[STDOUT] == StandardEnd(wired, Middle(n, i), carried, STDOUT)
    && Inherits(fds, t)
    && OpensOnly(fds, t, carried)
  }

  ghost predicate Inherits(fds: Table, t: Table) {
    forall fd :: fd in t && fd != STDIN && fd != STDOUT ==> fd in fds && fds[fd] == t[fd]
  }

  ghost predicate OpensOnly(fds: Table, t: Table, carried: seq<Redirection>) {
    forall fd :: fd in fds && fd != STDIN && fd != STDOUT && fd !in t ==> IsOpened(carried, fds[fd])
  }

  /** Of the pipes a child holds nothing but its own ends, on its standard descriptors. */
  lemma OwnPipeEndsOnly(fds: Table, t: Table, n: nat, i: nat, carried: seq<Redirection>, fd: nat)
    requires i < n && StandardOpen(t) && NoPipes(t) && ChildTable(fds, t, n, i, carried)
    requires fd in fds && IsPipeEnd(fds[fd])
    ensures (fd == STDIN || fd == STDOUT) && fds[fd] == Wired(t, n, i)[fd]
  {
    if fd != STDIN && fd != STDOUT {
    }
  }

  function Opened(u: Table, r: Redirection, writing: bool): Table {
    var file := File(r.file, writing);
    u[LowestFree(u) := file][WiringRedirected.Target(r) := file]
  }

  function FirstAttached(u: Table, i: nat, first: int): Table {
    var end := if i > 0 then STDIN else STDOUT;
    if first >= 0 && first in u then u[end := u[first as nat]] else u
  }

  function SecondAttached(u: Table, n: nat, i: nat, second: int): Table {
    if Middle(n, i) && second >= 0 && second in u then u[STDOUT := u[second as nat]] else u
  }

  /** The table after the dup2 calls and redirections, in the order the child makes them.
      `first` is the descriptor of its first pipe end, `second` that of a middle command's other. */
  function Attached(u: Table, n: nat, i: nat, first: int, second: int, carried: seq<Redirection>): Table {
    var u1 := FirstAttached(u, i, first);
    var u2 := if |carried| > 0 then Opened(u1, carried[0], carried[0].writing) else u1;
    var u3 := SecondAttached(u2, n, i, second);
    if |carried| > 1 then Opened(u3, carried[1], true) else u3
  }

  /** The descriptor of the pipe end a child attaches first. */
  function FirstEnd(pipeList: array2<int>, n: nat, i: nat): int
    reads pipeList
    requires pipeList.Length0 + 1 == n && pipeList.Length1 == 2 && i < n
  {
    if n == 1 then -1 else if i > 0 then pipeList[i - 1, READ] else pipeList[i, WRITE]
  }

  function SecondEnd(pipeList: array2<int>, n: nat, i: nat): int
    reads pipeList
    requires pipeList.Length0 + 1 == n && pipeList.Length1 == 2 && i < n
  {
    if Middle(n, i) then pipeList[i, WRITE] else -1
  }

  method Attach(child: Process, pipeList: array2<int>, n: nat, i: nat,
                redirs: seq<Redirection>, start: nat, cmd: nat, ghost t: Table)
    returns (ok: bool)
    requires pipeList.Length0 + 1 == n && pipeList.Length1 == 2 && i < n
    requires StandardOpen(t) && AtFork(t, child.fds, pipeList, n, i)
    modifies child
    ensures ok
    ensures child.fds == Attached(old(child.fds), n, i, FirstEnd(pipeList, n, i), SecondEnd(pipeList, n, i),
                                  Carried(redirs, start, cmd))
  {
    var redirIdx, pipeNum := start, n - 1;
    var prev := if i > 0 then i - 1 else i;
    var end := if i > 0 then READ else WRITE;
    if pipeNum > 0 && pipeList[prev, end] > 0 {
      ok := child.Dup2(pipeList[prev, end], end);
      if !ok { return; }
    }
    if redirIdx < |redirs| && redirs[redirIdx].cmd == cmd {
      var fd := child.Open(redirs[redirIdx].file, redirs[redirIdx].writing);
      ok := child.Dup2(fd, WiringRedirected.Target(redirs[redirIdx]));
      if !ok { return; }
      redirIdx := redirIdx + 1;
    }
    if i > 0 && i < pipeNum {
      ok := child.Dup2(pipeList[i, WRITE], STDOUT);
      if !ok { return; }
    }
    if redirIdx > 0 && redirIdx < |redirs| && redirs[redirIdx].cmd == cmd {
      var fd := child.Open(redirs[redirIdx].file, true);
      ok := child.Dup2(fd, WiringRedirected.Target(redirs[redirIdx]));
      if !ok { return; }
    }
    ok := true;
  }

  /** The pipe descriptors a child closes. */
  function ToClose(pipeList: array2<int>, n: nat, i: nat): set<int>
    reads pipeList
    requires pipeList.Length0 + 1 == n && pipeList.Length1 == 2 && i < n
  {
    if n == 1 then {}
    else if i == 0 then {pipeList[0, WRITE], pipeList[0, READ]}
    else if i < n - 1 then {pipeList[i - 1, READ], pipeList[i, WRITE], pipeList[i, READ]}
    else {pipeList[i - 1, READ]}
  }

  function Without(u: Table, closed: set<int>): Table {
    map fd | fd in u && fd !in closed :: u[fd]
  }

  method ClosePipes(child: Process, pipeList: array2<int>, n: nat, i: nat, ghost t: Table, ghost u: Table)
    returns (ok: bool)
    requires pipeList.Length0 + 1 == n && pipeList.Length1 == 2 && i < n
    requires StandardOpen(t) && AtFork(t, u, pipeList, n, i) && u.Keys <= child.fds.Keys
    modifies child
    ensures ok && child.fds == Without(old(child.fds), ToClose(pipeList, n, i))
  {
    var pipeNum := n - 1;
    var prev := if i > 0 then i - 1 else i;
    if pipeNum > 0 && pipeList[prev, WRITE] > 0 {
      ok := child.Close(pipeList[prev, WRITE]);
      if !ok { return; }
    }
    if pipeNum > 0 {
      ok := child.Close(pipeList[prev, READ]);
      if !ok { return; }
    }
    if i > 0 && i < pipeNum {
      ok := child.Close(pipeList[i, WRITE]);
      if !ok { return; }
      ok := child.Close(pipeList[i, READ]);
      if !ok { return; }
    }
    ok := true;
  }

  lemma OnlyTableIs(t: Table, u: Table, pipeList: array2<int>, n: nat, i: nat,
                    carried: seq<Redirection>)
    requires pipeList.Length0 + 1 == n && pipeList.Length1 == 2 && i < n && |carried| <= 2 && n == 1
    requires StandardOpen(t) && NoPipes(t) && AtFork(t, u, pipeList, n, i)
    ensures var v := Attached(u, n, i, FirstEnd(pipeList, n, i), SecondEnd(pipeList, n, i), carried);
      u.Keys <= v.Keys && ChildEnds(Without(v, ToClose(pipeList, n, i)), t, n, i, carried)
  {
  }

  lemma FirstTableIs(t: Table, u: Table, pipeList: array2<int>, n: nat, i: nat,
                     carried: seq<Redirection>)
    requires pipeList.Length0 + 1 == n && pipeList.Length1 == 2 && i < n && |carried| <= 2 && n > 1 && i == 0
    requires StandardOpen(t) && NoPipes(t) && AtFork(t, u, pipeList, n, i)
    ensures var v := Attached(u, n, i, FirstEnd(pipeList, n, i), SecondEnd(pipeList, n, i), carried);
      u.Keys <= v.Keys && ChildEnds(Without(v, ToClose(pipeList, n, i)), t, n, i, carried)
  {
  }

  lemma MiddleTableIs(t: Table, u: Table, pipeList: array2<int>, n: nat, i: nat,
                      carried: seq<Redirection>)
    requires pipeList.Length0 + 1 == n && pipeList.Length1 == 2 && i < n && |carried| <= 2 && Middle(n, i)
    requires StandardOpen(t) && NoPipes(t) && AtFork(t, u, pipeList, n, i)
    ensures var v := Attached(u, n, i, FirstEnd(pipeList, n, i), SecondEnd(pipeList, n, i), carried);
      u.Keys <= v.Keys && ChildEnds(Without(v, ToClose(pipeList, n, i)), t, n, i, carried)
  {
  }

  lemma LastTableIs(t: Table, u: Table, pipeList: array2<int>, n: nat, i: nat,
                    carried: seq<Redirection>)
    requires pipeList.Length0 + 1 == n && pipeList.Length1 == 2 && i < n && |carried| <= 2 && n > 1 && i == n - 1
    requires StandardOpen(t) && NoPipes(t) && AtFork(t, u, pipeList, n, i)
    ensures var v := Attached(u, n, i, FirstEnd(pipeList, n, i), SecondEnd(pipeList, n, i), carried);
      u.Keys <= v.Keys && ChildEnds(Without(v, ToClose(pipeList, n, i)), t, n, i, carried)
  {
  }

  lemma EndsAre(t: Table, u: Table, pipeList: array2<int>, n: nat, i: nat,
                carried: seq<Redirection>)
    requires pipeList.Length0 + 1 == n && pipeList.Length1 == 2 && i < n && |carried| <= 2
    requires StandardOpen(t) && NoPipes(t) && AtFork(t, u, pipeList, n, i)
    ensures var v := Attached(u, n, i, FirstEnd(pipeList, n, i), SecondEnd(pipeList, n, i), carried);
      u.Keys <= v.Keys && ChildEnds(Without(v, ToClose(pipeList, n, i)), t, n, i, carried)
  {
    if n == 1 {
      OnlyTableIs(t, u, pipeList, n, i, carried);
    } else if i == 0 {
      FirstTableIs(t, u, pipeList, n, i, carried);
    } else if i < n - 1 {
      MiddleTableIs(t, u, pipeList, n, i, carried);
    } else {
      LastTableIs(t, u, pipeList, n, i, carried);
    }
  }

  /** The pipe descriptors a child closes are all it has at first besides the inherited ones. */
  lemma ForkKeys(t: Table, u: Table, pipeList: array2<int>, n: nat, i: nat, fd: nat)
    requires pipeList.Length0 + 1 == n && pipeList.Length1 == 2 && i < n
    requires StandardOpen(t) && AtFork(t, u, pipeList, n, i)
    ensures fd in u <==> fd in t || fd in ToClose(pipeList, n, i)
    ensures fd in t ==> fd !in ToClose(pipeList, n, i)
  {
  }

  lemma OpenedKeys(u: Table, r: Redirection, writing: bool)
    requires 0 in u && 1 in u
    ensures Opened(u, r, writing).Keys == u.Keys + {LowestFree(u)}
    ensures |Opened(u, r, writing).Keys| == |u.Keys| + 1
  {
  }

  lemma EndsKeys(u: Table, n: nat, i: nat, first: int, second: int)
    requires 0 in u && 1 in u
    ensures FirstAttached(u, i, first).Keys == u.Keys && SecondAttached(u, n, i, second).Keys == u.Keys
  {
  }

  /** Each redirection adds one descriptor. */
  lemma AttachedKeys(u: Table, n: nat, i: nat, first: int, second: int, carried: seq<Redirection>)
    requires |carried| <= 2 && 0 in u && 1 in u
    ensures u.Keys <= Attached(u, n, i, first, second, carried).Keys
    ensures |Attached(u, n, i, first, second, carried).Keys| == |u.Keys| + |carried|
  {
    var u1 := FirstAttached(u, i, first);
    EndsKeys(u, n, i, first, second);
    EndsKeys(u1, n, i, first, second);
    if |carried| > 0 {
      var u2 := Opened(u1, carried[0], carried[0].writing);
      OpenedKeys(u1, carried[0], carried[0].writing);
      EndsKeys(u2, n, i, first, second);
      if |carried| > 1 {
        OpenedKeys(SecondAttached(u2, n, i, second), carried[1], true);
      }
    }
  }

  lemma KeysCount(t: Table, u: Table, pipeList: array2<int>, n: nat, i: nat, carried: seq<Redirection>)
    requires pipeList.Length0 + 1 == n && pipeList.Length1 == 2 && i < n && |carried| <= 2
    requires StandardOpen(t) && AtFork(t, u, pipeList, n, i)
    ensures var v := Attached(u, n, i, FirstEnd(pipeList, n, i), SecondEnd(pipeList, n, i), carried);
      |Without(v, ToClose(pipeList, n, i)).Keys| == |t.Keys| + |carried|
  {
    ForkKeys(t, u, pipeList, n, i, 0);
    ForkKeys(t, u, pipeList, n, i, 1);
    var v := Attached(u, n, i, FirstEnd(pipeList, n, i), SecondEnd(pipeList, n, i), carried);
    AttachedKeys(u, n, i, FirstEnd(pipeList, n, i), SecondEnd(pipeList, n, i), carried);
    LeftKeys(t, u, v, ToClose(pipeList, n, i)) by {
      forall fd: nat
        ensures fd in u <==> fd in t || fd in ToClose(pipeList, n, i)
        ensures fd in t ==> fd !in ToClose(pipeList, n, i)
      {
        ForkKeys(t, u, pipeList, n, i, fd);
      }
    }
  }

  /** Of what is added to a table nothing is closed again. */
  lemma LeftKeys(t: Table, u: Table, v: Table, closed: set<int>)
    requires u.Keys <= v.Keys
    requires forall fd: nat :: (fd in u <==> fd in t || fd in closed) && (fd in t ==> fd !in closed)
    ensures |Without(v, closed).Keys| == |t.Keys| + |v.Keys| - |u.Keys|
  {
    var left := Without(v, closed).Keys;
    forall fd: nat
      ensures fd in left <==> fd in t.Keys + (v.Keys - u.Keys)
    {
    }
    assert left == t.Keys + (v.Keys - u.Keys);
    Exchanged(t.Keys, u.Keys, v.Keys);
  }

  lemma Exchanged(few: set<nat>, some: set<nat>, many: set<nat>)
    requires few <= some <= many
    ensures |few + (many - some)| == |few| + |many| - |some|
  {
    assert many == some + (many - some);
  }

  /** Attaching, redirecting and closing together give the child the table it is meant to have. */
  lemma ClosedTableIs(t: Table, u: Table, pipeList: array2<int>, n: nat, i: nat,
                      carried: seq<Redirection>)
    requires pipeList.Length0 + 1 == n && pipeList.Length1 == 2 && i < n && |carried| <= 2
    requires StandardOpen(t) && NoPipes(t) && AtFork(t, u, pipeList, n, i)
    ensures var v := Attached(u, n, i, FirstEnd(pipeList, n, i), SecondEnd(pipeList, n, i), carried);
      u.Keys <= v.Keys && ChildTable(Without(v, ToClose(pipeList, n, i)), t, n, i, carried)
  {
    EndsAre(t, u, pipeList, n, i, carried);
    KeysCount(t, u, pipeList, n, i, carried);
  }

  /** The child's section, up to the start of its program. */
  method StartChild(parent: Process, pipeList: array2<int>, n: nat, i: nat,
                    redirs: seq<Redirection>, redirIdx: nat, cmd: nat, ghost t: Table)
    returns (child: Process, ok: bool)
    requires pipeList.Length0 + 1 == n && pipeList.Length1 == 2 && i < n
    requires StandardOpen(t) && NoPipes(t) && AtFork(t, parent.fds, pipeList, n, i)
    ensures fresh(child) && ok
    ensures ChildTable(child.fds, t, n, i, Carried(redirs, redirIdx, cmd))
  {
    child := parent.Fork();
    ghost var u := child.fds;
    ok := true;
    ClosedTableIs(t, u, pipeList, n, i, Carried(redirs, redirIdx, cmd));
    if n > 1 || |redirs| > 0 {
      ok := Attach(child, pipeList, n, i, redirs, redirIdx, cmd, t);
      ok := ClosePipes(child, pipeList, n, i, t, u);
    }
  }

  /** The shell's index after starting the child of a command. */
  function NextIndex(redirs: seq<Redirection>, idx: nat, cmd: nat): nat {
    if idx < |redirs| then
      var next := if redirs[idx].cmd == cmd then idx + 1 else idx;
      if next + 1 < |redirs| && redirs[next + 1].cmd == cmd then next + 1 else next
    else idx
  }

  function ShellIndex(cmds: seq<seq<nat>>, redirs: seq<Redirection>, i: nat): nat
    requires WiringRedirected.AllStart(cmds) && i <= |cmds|
  {
    if i == 0 then 0 else NextIndex(redirs, ShellIndex(cmds, redirs, i - 1), cmds[i - 1][0])
  }

  method AdvanceIndex(redirs: seq<Redirection>, idx: nat, cmd: nat) returns (redirIdx: nat)
    ensures redirIdx == NextIndex(redirs, idx, cmd)
  {
    redirIdx := idx;
    if redirIdx < |redirs| {
      if redirs[redirIdx].cmd == cmd {
        redirIdx := redirIdx + 1;
      }
      if redirIdx + 1 < |redirs| && redirs[redirIdx + 1].cmd == cmd {
        redirIdx := redirIdx + 1;
      }
    }
  }

  /** The redirections the child of command `i` carries out. */
  function CarriedBy(cmds: seq<seq<nat>>, redirs: seq<Redirection>, i: nat): seq<Redirection>
    requires WiringRedirected.AllStart(cmds) && i < |cmds|
  {
    Carried(redirs, ShellIndex(cmds, redirs, i), cmds[i][0])
  }

  /** The tables of the first `n` children. */
  ghost predicate Tables(tables: seq<Table>, t: Table, cmds: seq<seq<nat>>, redirs: seq<Redirection>, n: nat)
    requires WiringRedirected.AllStart(cmds) && n <= |tables| && n <= |cmds| && StandardOpen(t)
  {
    n == 0 ||
    (&& ChildTable(tables[n - 1], t, |cmds|, n - 1, CarriedBy(cmds, redirs, n - 1))
     && Tables(tables, t, cmds, redirs, n - 1))
  }

  lemma {:induction false} TablesGrow(tables: seq<Table>, u: Table, t: Table, cmds: seq<seq<nat>>,
                                      redirs: seq<Redirection>, n: nat)
    requires WiringRedirected.AllStart(cmds) && n <= |tables| && n <= |cmds| && StandardOpen(t)
    requires Tables(tables, t, cmds, redirs, n)
    ensures Tables(tables + [u], t, cmds, redirs, n)
  {
    if n > 0 {
      TablesGrow(tables, u, t, cmds, redirs, n - 1);
    }
  }

  lemma OneMoreTable(tables: seq<Table>, u: Table, t: Table, cmds: seq<seq<nat>>, redirs: seq<Redirection>, i: nat)
    requires WiringRedirected.AllStart(cmds) && i == |tables| < |cmds| && StandardOpen(t)
    requires Tables(tables, t, cmds, redirs, i)
    requires ChildTable(u, t, |cmds|, i, CarriedBy(cmds, redirs, i))
    ensures Tables(tables + [u], t, cmds, redirs, i + 1)
  {
    TablesGrow(tables, u, t, cmds, redirs, i);
  }

  lemma {:induction false} TableOf(tables: seq<Table>, t: Table, cmds: seq<seq<nat>>,
                                   redirs: seq<Redirection>, n: nat, i: nat)
    requires WiringRedirected.AllStart(cmds) && i < n <= |cmds| == |tables| && StandardOpen(t)
    requires Tables(tables, t, cmds, redirs, n)
    ensures ChildTable(tables[i], t, |cmds|, i, CarriedBy(cmds, redirs, i))
    decreases n
  {
    if i < n - 1 {
      TableOf(tables, t, cmds, redirs, n - 1, i);
    }
  }

  /** The shell's part of the loop for command `i`. */
  method StartCommand(parent: Process, pipeList: array2<int>, n: nat, i: nat,
                      redirs: seq<Redirection>, redirIdx: nat, cmd: nat, ghost t: Table)
    returns (child: Process, ok: bool)
    requires pipeList.Length0 + 1 == n && pipeList.Length1 == 2 && i < n
    requires StandardOpen(t) && NoPipes(t) && BeforeChild(t, parent.fds, pipeList, n, i)
    modifies parent, pipeList
    ensures fresh(child) && ok
    ensures ChildTable(child.fds, t, n, i, Carried(redirs, redirIdx, cmd))
    ensures BeforeChild(t, parent.fds, pipeList, n, i + 1)
  {
    if i < n - 1 {
      var r, w := parent.Pipe(i);
      pipeList[i, READ], pipeList[i, WRITE] := r, w;
    }
    child, ok := StartChild(parent, pipeList, n, i, redirs, redirIdx, cmd, t);
    ghost var fds := child.fds;
    CloseInParent(parent, pipeList, n, i, t);
    assert child.fds == fds;
  }

  /** One turn of the loop, added to the record of the turns before. */
  method StartNext(parent: Process, pipeList: array2<int>, i: nat, cmds: seq<seq<nat>>, redirs: seq<Redirection>,
                   redirIdx: nat, ghost t: Table, ghost tables: seq<Table>)
    returns (child: Process, next: nat, ok: bool)
    requires pipeList.Length0 + 1 == |cmds| && pipeList.Length1 == 2 && i < |cmds| && |tables| == i
    requires WiringRedirected.AllStart(cmds) && StandardOpen(t) && NoPipes(t)
    requires BeforeChild(t, parent.fds, pipeList, |cmds|, i)
    requires redirIdx == ShellIndex(cmds, redirs, i) && Tables(tables, t, cmds, redirs, i)
    modifies parent, pipeList
    ensures fresh(child) && ok && BeforeChild(t, parent.fds, pipeList, |cmds|, i + 1)
    ensures next == ShellIndex(cmds, redirs, i + 1)
    ensures Tables(tables + [child.fds], t, cmds, redirs, i + 1)
  {
    child, ok := StartCommand(parent, pipeList, |cmds|, i, redirs, redirIdx, cmds[i][0], t);
    next := AdvanceIndex(redirs, redirIdx, cmds[i][0]);
    OneMoreTable(tables, child.fds, t, cmds, redirs, i);
  }

  ghost predicate HaveTables(children: seq<Process>, tables: seq<Table>)
    reads children
  {
    |children| == |tables| && forall k :: 0 <= k < |children| ==> children[k].fds == tables[k]
  }

  /** The children started so far have their tables, and keep them when others are started. */
  ghost predicate Started(children: seq<Process>, tables: seq<Table>, parent: Process)
    reads children
  {
    HaveTables(children, tables) && parent !in children
  }

  /** Between two turns of the loop: the shell's own table and index, and what was started. */
  ghost predicate AtTurn(t: Table, parent: Process, pipeList: array2<int>, i: nat, cmds: seq<seq<nat>>,
                         redirs: seq<Redirection>, redirIdx: nat, children: seq<Process>, tables: seq<Table>)
    reads parent, pipeList, children
    requires WiringRedirected.AllStart(cmds) && StandardOpen(t)
  {
    && pipeList.Length0 + 1 == |cmds| && pipeList.Length1 == 2 && i <= |cmds| && |tables| == i
    && BeforeChild(t, parent.fds, pipeList, |cmds|, i)
    && redirIdx == ShellIndex(cmds, redirs, i)
    && Tables(tables, t, cmds, redirs, i)
    && Started(children, tables, parent)
  }

  /** One more child beside those already started, whose tables it leaves alone. */
  method StartAnother(parent: Process, pipeList: array2<int>, i: nat, cmds: seq<seq<nat>>, redirs: seq<Redirection>,
                      redirIdx: nat, children: seq<Process>, ghost t: Table, ghost tables: seq<Table>)
    returns (all: seq<Process>, next: nat, ok: bool, ghost allTables: seq<Table>)
    requires WiringRedirected.AllStart(cmds) && StandardOpen(t) && NoPipes(t) && i < |cmds|
    requires AtTurn(t, parent, pipeList, i, cmds, redirs, redirIdx, children, tables)
    modifies parent, pipeList
    ensures ok && AtTurn(t, parent, pipeList, i + 1, cmds, redirs, next, all, allTables)
  {
    var child;
    child, next, ok := StartNext(parent, pipeList, i, cmds, redirs, redirIdx, t, tables);
    all, allTables := children + [child], tables + [child.fds];
  }

  /** The loop of `exec_cmd_list`, with a record of every child's table. */
  method StartAll(parent: Process, cmds: seq<seq<nat>>, redirs: seq<Redirection>, pipeList: array2<int>, ghost t: Table)
    returns (children: seq<Process>, ok: bool, ghost tables: seq<Table>)
    requires cmds != [] && WiringRedirected.AllStart(cmds) && StandardOpen(t) && NoPipes(t) && parent.fds == t
    requires pipeList.Length0 + 1 == |cmds| && pipeList.Length1 == 2
    modifies parent, pipeList
    ensures ok && |children| == |cmds| && parent.fds == t
    ensures HaveTables(children, tables) && Tables(tables, t, cmds, redirs, |cmds|)
  {
    children, ok, tables := [], true, [];
    var redirIdx := 0;
    for i := 0 to |cmds|
      invariant ok && AtTurn(t, parent, pipeList, i, cmds, redirs, redirIdx, children, tables)
    {
      children, redirIdx, ok, tables :=
        StartAnother(parent, pipeList, i, cmds, redirs, redirIdx, children, t, tables);
    }
  }

  /** `exec_cmd_list`: the table of every child, and the shell left with what it began with. */
  method ExecCmdList(parent: Process, cmds: seq<seq<nat>>, redirs: seq<Redirection>)
    returns (children: seq<Process>, ok: bool)
    requires cmds != [] && WiringRedirected.AllStart(cmds) && StandardOpen(parent.fds) && NoPipes(parent.fds)
    modifies parent
    ensures ok && |children| == |cmds| && parent.fds == old(parent.fds)
    ensures forall i :: 0 <= i < |cmds| ==>
              ChildTable(children[i].fds, old(parent.fds), |cmds|, i, CarriedBy(cmds, redirs, i))
  {
    ghost var t, n := parent.fds, |cmds|;
    var pipeList := new int[|cmds| - 1, 2]((_, _) => 0);
    ghost var tables;
    children, ok, tables := StartAll(parent, cmds, redirs, pipeList, t);
    forall i | 0 <= i < n
      ensures ChildTable(children[i].fds, t, n, i, CarriedBy(cmds, redirs, i))
    {
      TableOf(tables, t, cmds, redirs, n, i);
    }
  }

  // ---------------------------------------------------------------- which redirections take effect

  /** The shell's index after a command whose redirections begin at `o`: with at most one it
      comes to the end of them, with more, or when it was behind already, it falls short. */
  lemma NextIndexIs(redirs: seq<Redirection>, idx: nat, o: nat, rs: seq<Redir>, cmd: nat)
    requires IsSegment(redirs, o, rs, cmd) && idx <= o
    requires forall k :: 0 <= k < o ==> redirs[k].cmd < cmd
    ensures NextIndex(redirs, idx, cmd) <= o + |rs|
    ensures NextIndex(redirs, idx, cmd) == o + |rs| <==> idx == o && |rs| <= 1
  {
    if rs != [] {
      assert redirs[o + 0] == Redirection(rs[0].writing, rs[0].file, cmd);
    }
    if |rs| > 1 {
      assert redirs[o + 1] == Redirection(rs[1].writing, rs[1].file, cmd);
    }
    if |rs| > 2 {
      assert redirs[o + 2] == Redirection(rs[2].writing, rs[2].file, cmd);
    }
  }

  /** What the child carries out when the index stands at `idx`. */
  lemma CarriedIs(redirs: seq<Redirection>, idx: nat, o: nat, rs: seq<Redir>, cmd: nat)
    requires IsSegment(redirs, o, rs, cmd) && idx <= o
    requires forall k :: 0 <= k < o ==> redirs[k].cmd < cmd
    ensures Carried(redirs, idx, cmd) == if idx == o then FirstTwo(rs, cmd) else []
  {
    if idx == o && rs != [] {
      assert redirs[o + 0] == Redirection(rs[0].writing, rs[0].file, cmd);
      if |rs| > 1 {
        assert redirs[o + 1] == Redirection(rs[1].writing, rs[1].file, cmd);
      }
    }
  }

  function FirstTwo(rs: seq<Redir>, cmd: nat): seq<Redirection> {
    if rs == [] then []
    else if |rs| == 1 then [Redirection(rs[0].writing, rs[0].file, cmd)]
    else [Redirection(rs[0].writing, rs[0].file, cmd), Redirection(rs[1].writing, rs[1].file, cmd)]
  }

  /** The redirections of earlier commands point further to the front. */
  lemma {:induction false} PointsBack(p: seq<Command>, start: nat, i: nat, k: nat)
    requires HasWords(p) && i < |p| && k < RedirsBefore(p, i)
    ensures k < |Expected(p, start).redirections| && Expected(p, start).redirections[k].cmd < StartOf(p, start, i)
    decreases i
  {
    RedirsBeforeNext(p, i - 1);
    StartsIncrease(p, start, i - 1, i);
    if k < RedirsBefore(p, i - 1) {
      PointsBack(p, start, i - 1, k);
    } else {
      SegmentAt(p, start, i - 1, k - RedirsBefore(p, i - 1));
    }
  }

  lemma AllPointBack(p: seq<Command>, start: nat, i: nat)
    requires HasWords(p) && i < |p|
    ensures RedirsBefore(p, i) <= |Expected(p, start).redirections|
    ensures forall k :: 0 <= k < RedirsBefore(p, i) ==> Expected(p, start).redirections[k].cmd < StartOf(p, start, i)
  {
    SegmentIs(p, start, i);
    forall k | 0 <= k < RedirsBefore(p, i)
      ensures Expected(p, start).redirections[k].cmd < StartOf(p, start, i)
    {
      PointsBack(p, start, i, k);
    }
  }

  lemma NextIndexAt(p: seq<Command>, start: nat, i: nat, idx: nat)
    requires HasWords(p) && i < |p| && idx <= RedirsBefore(p, i)
    ensures var next := NextIndex(Expected(p, start).redirections, idx, StartOf(p, start, i));
      next <= RedirsBefore(p, i + 1) && (next == RedirsBefore(p, i + 1) <==> idx == RedirsBefore(p, i) && |p[i].redirs| <= 1)
  {
    SegmentIs(p, start, i);
    AllPointBack(p, start, i);
    NextIndexIs(Expected(p, start).redirections, idx, RedirsBefore(p, i), p[i].redirs, StartOf(p, start, i));
    RedirsBeforeNext(p, i);
  }

  /** The index `idx` at command `i` is in step exactly when no command before had several. */
  ghost predicate InStep(p: seq<Command>, i: nat, idx: nat)
    requires i <= |p|
  {
    idx <= RedirsBefore(p, i) && (idx == RedirsBefore(p, i) <==> SingleBefore(p, i))
  }

  lemma InStepOnce(p: seq<Command>, start: nat, i: nat, idx: nat, cmd: nat)
    requires HasWords(p) && i < |p| && InStep(p, i, idx) && cmd == StartOf(p, start, i)
    ensures InStep(p, i + 1, NextIndex(Expected(p, start).redirections, idx, cmd))
  {
    NextIndexAt(p, start, i, idx);
    assert SingleBefore(p, i + 1) <==> SingleBefore(p, i) && |p[i].redirs| <= 1;
  }

  lemma ShellIndexNext(cmds: seq<seq<nat>>, redirs: seq<Redirection>, i: nat, idx: nat)
    requires WiringRedirected.AllStart(cmds) && i < |cmds| && idx == ShellIndex(cmds, redirs, i)
    ensures ShellIndex(cmds, redirs, i + 1) == NextIndex(redirs, idx, cmds[i][0])
  {
  }

  lemma {:induction false} IndexInStep(p: seq<Command>, start: nat, cmds: seq<seq<nat>>, redirs: seq<Redirection>, i: nat)
    requires HasWords(p) && i <= |p| && |cmds| == |p| && WiringRedirected.AllStart(cmds)
    requires redirs == Expected(p, start).redirections
    requires forall k :: 0 <= k < |p| ==> cmds[k][0] == StartOf(p, start, k)
    ensures InStep(p, i, ShellIndex(cmds, redirs, i))
    decreases i
  {
    if i > 0 {
      IndexInStep(p, start, cmds, redirs, i - 1);
      var idx := ShellIndex(cmds, redirs, i - 1);
      InStepOnce(p, start, i - 1, idx, cmds[i - 1][0]);
      ShellIndexNext(cmds, redirs, i - 1, idx);
    }
  }

  /** The shell's index keeps step if and only if no command so far had more than one
      redirection; once behind it stays behind. */
  lemma ShellIndexKeepsStep(p: seq<Command>, start: nat, i: nat)
    requires HasWords(p) && i <= |p|
    ensures WiringRedirected.AllStart(Expected(p, start).cmds) && i <= |Expected(p, start).cmds|
    ensures ShellIndex(Expected(p, start).cmds, Expected(p, start).redirections, i) <= RedirsBefore(p, i)
    ensures ShellIndex(Expected(p, start).cmds, Expected(p, start).redirections, i) == RedirsBefore(p, i)
       <==> SingleBefore(p, i)
  {
    CommandsStart(p, start);
    IndexInStep(p, start, Expected(p, start).cmds, Expected(p, start).redirections, i);
  }

  /** The child of command `i` carries out the first two of its own redirections if no command
      before had more than one, and otherwise none. */
  lemma WhatIsCarried(p: seq<Command>, start: nat, i: nat)
    requires HasWords(p) && i < |p|
    ensures WiringRedirected.AllStart(Expected(p, start).cmds) && i < |Expected(p, start).cmds|
    ensures CarriedBy(Expected(p, start).cmds, Expected(p, start).redirections, i)
         == if SingleBefore(p, i) then FirstTwo(p[i].redirs, StartOf(p, start, i)) else []
  {
    var e := Expected(p, start);
    CommandsStart(p, start);
    ShellIndexKeepsStep(p, start, i);
    SegmentIs(p, start, i);
    AllPointBack(p, start, i);
    CarriedIs(e.redirections, ShellIndex(e.cmds, e.redirections, i), RedirsBefore(p, i),
              p[i].redirs, StartOf(p, start, i));
  }

  function TargetOf(r: Redir): nat {
    if r.writing then 1 else 0
  }

  /** What standard descriptor `d` of the child of command `i` refers to, for any numbers of
      redirections: behind a command with several, what it does without redirections; else the
      file of the second one, opened for writing even if it is to be read; else that of the
      first, unless it is the output of a middle command; never that of a third. */
  function Effect(p: seq<Command>, i: nat, t: Table, d: nat): End
    requires i < |p| && d in Wired(t, |p|, i)
  {
    var rs := p[i].redirs;
    if !SingleBefore(p, i) then Wired(t, |p|, i)[d]
    else if |rs| > 1 && d == TargetOf(rs[1]) then File(rs[1].file, true)
    else if |rs| > 0 && d == TargetOf(rs[0]) && !(d == 1 && 0 < i < |p| - 1) then File(rs[0].file, rs[0].writing)
    else Wired(t, |p|, i)[d]
  }

  /** The whole table of a child, with what it keeps open besides its standard descriptors. */
  ghost predicate RunsWith(fds: Table, p: seq<Command>, i: nat, t: Table)
    requires i < |p| && StandardOpen(t)
  {
    var rs := p[i].redirs;
    && 0 in fds && fds[0] == Effect(p, i, t, 0)
    && 1 in fds && fds[1] == Effect(p, i, t, 1)
    && Inherits(fds, t)
    && (rs == [] || !SingleBefore(p, i) ==> fds == Wired(t, |p|, i))
    && |fds.Keys| == |t.Keys| + (if !SingleBefore(p, i) then 0 else if |rs| > 2 then 2 else |rs|)
    && (forall fd :: fd in fds && fd != 0 && fd != 1 && fd !in t ==>
          || (|rs| > 0 && fds[fd] == File(rs[0].file, rs[0].writing))
          || (|rs| > 1 && fds[fd] == File(rs[1].file, true)))
  }

  lemma RedirectionTakesEffect(p: seq<Command>, start: nat, i: nat, fds: Table, t: Table)
    requires HasWords(p) && i < |p| && StandardOpen(t)
    requires WiringRedirected.AllStart(Expected(p, start).cmds) && |Expected(p, start).cmds| == |p|
    requires ChildTable(fds, t, |p|, i, CarriedBy(Expected(p, start).cmds, Expected(p, start).redirections, i))
    ensures RunsWith(fds, p, i, t)
  {
    WhatIsCarried(p, start, i);
  }

  /** What the parser makes of the words of a pipeline. */
  lemma ParsedPipeline(p: seq<Command>)
    requires GoodPipeline(0, p)
    ensures HasWords(p) && Print(p) != [] && Parse(Print(p), 0) == Success(Expected(p, 0))
    ensures |Expected(p, 0).cmds| == |p| && WiringRedirected.AllStart(Expected(p, 0).cmds)
  {
    assert [] + Print(p) == Print(p);
    ParseUndoesPrint([], p);
    PrintedUsageOk([], p);
    assert HasWords(p) by {
      assert forall k :: 0 <= k < |p| ==> GoodCommand(0, p[k]);
    }
    CommandsStart(p, 0);
  }

  /** From the words to the descriptors, for pipelines with any redirections. */
  method RunPipeline(parent: Process, argv: seq<string>, ghost p: seq<Command>)
    returns (children: seq<Process>, ok: bool)
    requires argv == Print(p) && GoodPipeline(0, p)
    requires StandardOpen(parent.fds) && NoPipes(parent.fds)
    modifies parent
    ensures ok && |children| == |p| && parent.fds == old(parent.fds)
    ensures forall i :: 0 <= i < |p| ==> RunsWith(children[i].fds, p, i, old(parent.fds))
  {
    ParsedPipeline(p);
    var result := CommandLineParsers.ParseZeroBased(argv);
    var parsed := result.parsed;
    children, ok := ExecCmdList(parent, parsed.cmds, parsed.redirections);
    forall i | 0 <= i < |p|
      ensures RunsWith(children[i].fds, p, i, old(parent.fds))
    {
      RedirectionTakesEffect(p, 0, i, children[i].fds, old(parent.fds));
    }
  }
}
