/**
 Parser and wiring together: which redirections reach which command.
 */
module ShellPipeline {
  import opened Kernel
  import opened Wiring
  import opened CommandLine
  import opened CommandLineParsers
  import opened CommandLineRoundTrip
  import opened WiringEffect
  import opened WiringRedirected

  /** Where command `i` of a pipeline printed from `start` begins. */
  function StartOf(p: seq<Command>, start: nat, i: nat): nat
    requires i < |p|
    decreases i
  {
    if i == 0 then start else StartOf(p[1..], start + |PrintCommand(p[0])| + 1, i - 1)
  }

  /** How many redirections the commands before `i` have. */
  function RedirsBefore(p: seq<Command>, i: nat): nat
    requires i <= |p|
    decreases i
  {
    if i == 0 then 0 else |p[0].redirs| + RedirsBefore(p[1..], i - 1)
  }

  lemma {:induction false} AttachIs(rs: seq<Redir>, cmd: nat)
    ensures |Attach(rs, cmd)| == |rs|
    ensures forall k :: 0 <= k < |rs| ==> Attach(rs, cmd)[k] == Redirection(rs[k].writing, rs[k].file, cmd)
  {
    if rs != [] {
      AttachIs(rs[1..], cmd);
    }
  }

  /** All redirections of a pipeline point at or behind its start. */
  lemma {:induction false} PointsForward(p: seq<Command>, start: nat)
    ensures forall m :: 0 <= m < |Expected(p, start).redirections| ==> Expected(p, start).redirections[m].cmd >= start
    decreases |p|
  {
    if p != [] {
      AttachIs(p[0].redirs, start);
      PointsForward(p[1..], start + |PrintCommand(p[0])| + 1);
    }
  }

  lemma {:induction false} CommandAt(p: seq<Command>, start: nat, i: nat)
    requires i < |p|
    ensures |Expected(p, start).cmds| == |p| && StartOf(p, start, i) >= start
    ensures Expected(p, start).cmds[i] == Range(StartOf(p, start, i), StartOf(p, start, i) + |p[i].args|)
    decreases |p|
  {
    var next := start + |PrintCommand(p[0])| + 1;
    if |p| > 1 {
      CommandAt(p[1..], next, if i == 0 then 0 else i - 1);
    }
  }

  /** From position `o` on the redirections are those of `rs`, for the command at `cmd`, and
      all behind them are for commands further on. */
  ghost predicate IsSegment(redirs: seq<Redirection>, o: nat, rs: seq<Redir>, cmd: nat) {
    && o + |rs| <= |redirs|
    && (forall k :: 0 <= k < |rs| ==> redirs[o + k] == Redirection(rs[k].writing, rs[k].file, cmd))
    && (forall m :: o + |rs| <= m < |redirs| ==> redirs[m].cmd > cmd)
  }

  lemma SegmentFirst(rest: seq<Redirection>, rs: seq<Redir>, cmd: nat)
    requires forall m :: 0 <= m < |rest| ==> rest[m].cmd > cmd
    ensures IsSegment(Attach(rs, cmd) + rest, 0, rs, cmd)
  {
    AttachIs(rs, cmd);
  }

  lemma SegmentBehind(head: seq<Redirection>, rest: seq<Redirection>, o: nat, rs: seq<Redir>, cmd: nat)
    requires IsSegment(rest, o, rs, cmd)
    ensures IsSegment(head + rest, |head| + o, rs, cmd)
  {
    forall k | 0 <= k < |rs|
      ensures (head + rest)[|head| + o + k] == Redirection(rs[k].writing, rs[k].file, cmd)
    {
      assert (head + rest)[|head| + o + k] == rest[o + k];
    }
  }

  /** The redirections of command `i` stand together within the whole parse. */
  lemma {:induction false} SegmentIs(p: seq<Command>, start: nat, i: nat)
    requires i < |p| && HasWords(p)
    ensures IsSegment(Expected(p, start).redirections, RedirsBefore(p, i), p[i].redirs, StartOf(p, start, i))
    decreases |p|
  {
    var next := start + |PrintCommand(p[0])| + 1;
    var rest := Expected(p[1..], next).redirections;
    if i == 0 {
      PointsForward(p[1..], next);
      SegmentFirst(rest, p[0].redirs, start);
    } else {
      AttachIs(p[0].redirs, start);
      SegmentIs(p[1..], next, i - 1);
      SegmentBehind(Attach(p[0].redirs, start), rest, RedirsBefore(p[1..], i - 1), p[i].redirs, StartOf(p, start, i));
    }
  }

  /** Command `i` and its redirections within the whole parse. */
  lemma Segment(p: seq<Command>, start: nat, i: nat)
    requires i < |p| && HasWords(p)
    ensures var e, o, s := Expected(p, start), RedirsBefore(p, i), StartOf(p, start, i);
      && s >= start && |e.cmds| == |p| && e.cmds[i] == Range(s, s + |p[i].args|)
      && IsSegment(e.redirections, o, p[i].redirs, s)
  {
    CommandAt(p, start, i);
    SegmentIs(p, start, i);
  }

  lemma SegmentAt(p: seq<Command>, start: nat, i: nat, k: nat)
    requires i < |p| && HasWords(p) && k < |p[i].redirs|
    ensures RedirsBefore(p, i) + k < |Expected(p, start).redirections|
    ensures Expected(p, start).redirections[RedirsBefore(p, i) + k].cmd == StartOf(p, start, i)
  {
    Segment(p, start, i);
    var r := p[i].redirs[k];
  }

  lemma {:induction false} StartsIncrease(p: seq<Command>, start: nat, i: nat, k: nat)
    requires i < k < |p|
    ensures StartOf(p, start, i) < StartOf(p, start, k)
    decreases i
  {
    var next := start + |PrintCommand(p[0])| + 1;
    if i > 0 {
      StartsIncrease(p[1..], next, i - 1, k - 1);
    } else {
      StartFollows(p[1..], next, k - 1);
    }
  }

  lemma {:induction false} StartFollows(p: seq<Command>, start: nat, i: nat)
    requires i < |p|
    ensures StartOf(p, start, i) >= start
    decreases i
  {
    if i > 0 {
      StartFollows(p[1..], start + |PrintCommand(p[0])| + 1, i - 1);
    }
  }

  lemma {:induction false} RedirsBeforeNext(p: seq<Command>, i: nat)
    requires i < |p|
    ensures RedirsBefore(p, i + 1) == RedirsBefore(p, i) + |p[i].redirs|
    decreases i
  {
    if i > 0 {
      RedirsBeforeNext(p[1..], i - 1);
    }
  }

  ghost predicate HasWords(p: seq<Command>) {
    forall k :: 0 <= k < |p| ==> p[k].args != []
  }

  /** No command before `i` has more than one redirection. */
  predicate SingleBefore(p: seq<Command>, i: nat)
    requires i <= |p|
  {
    forall k :: 0 <= k < i ==> |p[k].redirs| <= 1
  }

  lemma CommandsStart(p: seq<Command>, start: nat)
    requires HasWords(p)
    ensures |Expected(p, start).cmds| == |p| && AllStart(Expected(p, start).cmds)
    ensures forall i :: 0 <= i < |p| ==> Expected(p, start).cmds[i][0] == StartOf(p, start, i)
  {
    if p != [] {
      Segment(p, start, 0);
    }
    forall i | 0 <= i < |p|
      ensures Expected(p, start).cmds[i] != [] && Expected(p, start).cmds[i][0] == StartOf(p, start, i)
    {
      Segment(p, start, i);
    }
  }

  /** The redirection the shell's index stands on is command `i`'s own, if it has one. */
  lemma PointsAtOwn(p: seq<Command>, start: nat, i: nat)
    requires HasWords(p) && i < |p|
    ensures var redirs, l := Expected(p, start).redirections, RedirsBefore(p, i);
      l < |redirs| && redirs[l].cmd == StartOf(p, start, i) <==> p[i].redirs != []
  {
    Segment(p, start, i);
    if p[i].redirs != [] {
      SegmentAt(p, start, i, 0);
    }
  }

  /** As long as no command has more than one redirection the shell's index keeps step. */
  lemma {:induction false} IndexKeepsStep(p: seq<Command>, start: nat, i: nat)
    requires HasWords(p) && i <= |p| && SingleBefore(p, i)
    ensures AllStart(Expected(p, start).cmds) && i <= |Expected(p, start).cmds|
    ensures ParentIndex(Expected(p, start).cmds, Expected(p, start).redirections, i) == RedirsBefore(p, i)
    decreases i
  {
    CommandsStart(p, start);
    if i > 0 {
      IndexKeepsStep(p, start, i - 1);
      PointsAtOwn(p, start, i - 1);
      RedirsBeforeNext(p, i - 1);
    }
  }

  /** After command `k` with more than one redirection the index stands on its second. */
  lemma IndexOnSecond(p: seq<Command>, start: nat, k: nat)
    requires HasWords(p) && k < |p| && SingleBefore(p, k) && |p[k].redirs| > 1
    ensures AllStart(Expected(p, start).cmds) && k < |Expected(p, start).cmds|
    ensures ParentIndex(Expected(p, start).cmds, Expected(p, start).redirections, k + 1) == RedirsBefore(p, k) + 1
  {
    CommandsStart(p, start);
    IndexKeepsStep(p, start, k);
    PointsAtOwn(p, start, k);
  }

  /** Behind a command with more than one redirection it stays on that command's second. */
  lemma {:induction false} IndexIsStuck(p: seq<Command>, start: nat, k: nat, i: nat)
    requires HasWords(p) && k < i <= |p| && SingleBefore(p, k) && |p[k].redirs| > 1
    ensures AllStart(Expected(p, start).cmds) && i <= |Expected(p, start).cmds|
    ensures ParentIndex(Expected(p, start).cmds, Expected(p, start).redirections, i) == RedirsBefore(p, k) + 1
    decreases i
  {
    if i == k + 1 {
      IndexOnSecond(p, start, k);
    } else {
      CommandsStart(p, start);
      SegmentAt(p, start, k, 1);
      IndexIsStuck(p, start, k, i - 1);
      StartsIncrease(p, start, k, i - 1);
    }
  }

  lemma {:induction false} MatchingIs(redirs: seq<Redirection>, l: nat, cmd: nat, rs: seq<Redir>)
    requires l + |rs| <= |redirs|
    requires forall k :: 0 <= k < |rs| ==> redirs[l + k] == Redirection(rs[k].writing, rs[k].file, cmd)
    requires l + |rs| < |redirs| ==> redirs[l + |rs|].cmd != cmd
    ensures Matching(redirs, l, cmd) == Attach(rs, cmd)
    decreases |rs|
  {
    if rs != [] {
      assert redirs[l] == redirs[l + 0];
      forall k | 0 <= k < |rs| - 1
        ensures redirs[l + 1 + k] == Redirection(rs[1..][k].writing, rs[1..][k].file, cmd)
      {
        assert redirs[l + (k + 1)] == Redirection(rs[k + 1].writing, rs[k + 1].file, cmd);
      }
      MatchingIs(redirs, l + 1, cmd, rs[1..]);
    }
  }

  /** From its first redirection on, a command's own match, and no others. */
  lemma MatchingOwn(p: seq<Command>, start: nat, i: nat)
    requires HasWords(p) && i < |p|
    ensures Matching(Expected(p, start).redirections, RedirsBefore(p, i), StartOf(p, start, i))
         == Attach(p[i].redirs, StartOf(p, start, i))
  {
    SegmentIs(p, start, i);
    MatchingIs(Expected(p, start).redirections, RedirsBefore(p, i), StartOf(p, start, i), p[i].redirs);
  }

  lemma AppliedInStep(p: seq<Command>, start: nat, i: nat)
    requires HasWords(p) && i < |p| && SingleBefore(p, i)
    ensures AllStart(Expected(p, start).cmds) && i < |Expected(p, start).cmds|
    ensures Applied(Expected(p, start).cmds, Expected(p, start).redirections, i)
         == Attach(p[i].redirs, StartOf(p, start, i))
  {
    CommandsStart(p, start);
    IndexKeepsStep(p, start, i);
    MatchingOwn(p, start, i);
  }

  lemma AppliedWhenStuck(p: seq<Command>, start: nat, k: nat, i: nat)
    requires HasWords(p) && k < i < |p| && SingleBefore(p, k) && |p[k].redirs| > 1
    ensures AllStart(Expected(p, start).cmds) && i < |Expected(p, start).cmds|
    ensures Applied(Expected(p, start).cmds, Expected(p, start).redirections, i) == []
  {
    CommandsStart(p, start);
    IndexIsStuck(p, start, k, i);
    SegmentAt(p, start, k, 1);
    StartsIncrease(p, start, k, i);
  }

  lemma {:induction false} FirstDouble(p: seq<Command>, i: nat) returns (k: nat)
    requires i <= |p| && !SingleBefore(p, i)
    ensures k < i && SingleBefore(p, k) && |p[k].redirs| > 1
    decreases i
  {
    if SingleBefore(p, i - 1) {
      k := i - 1;
    } else {
      k := FirstDouble(p, i - 1);
    }
  }

  /** A command gets exactly the redirections it was written with if and only if it has none
      or no command before it has more than one. */
  lemma RedirectionsReachTheirCommand(p: seq<Command>, start: nat, i: nat)
    requires HasWords(p) && i < |p|
    ensures AllStart(Expected(p, start).cmds) && i < |Expected(p, start).cmds|
    ensures Applied(Expected(p, start).cmds, Expected(p, start).redirections, i)
              == Attach(p[i].redirs, StartOf(p, start, i))
       <==> p[i].redirs == [] || SingleBefore(p, i)
  {
    AttachIs(p[i].redirs, StartOf(p, start, i));
    if SingleBefore(p, i) {
      AppliedInStep(p, start, i);
    } else {
      var k := FirstDouble(p, i);
      AppliedWhenStuck(p, start, k, i);
    }
  }

  function FilesWritten(rs: seq<Redir>): seq<End> {
    seq(|rs|, k requires 0 <= k < |rs| => File(rs[k].file, rs[k].writing))
  }

  /** What the child of command `i` runs with: behind a command with several redirections the
      table without any, and else its own carried out from there. */
  ghost predicate RunsRedirected(fds: Table, p: seq<Command>, i: nat, t: Table)
    requires i < |p|
  {
    var wired := Wired(t, |p|, i);
    if p[i].redirs == [] || !SingleBefore(p, i) then fds == wired
    else
      && Performs(fds, wired, FilesWritten(p[i].redirs))
      && forall fd :: fd in fds && IsPipeEnd(fds[fd]) ==> fd in wired && wired[fd] == fds[fd]
  }

  lemma AppliedRuns(p: seq<Command>, start: nat, i: nat, fds: Table, t: Table)
    requires HasWords(p) && i < |p| && StandardOpen(t)
    requires AllStart(Expected(p, start).cmds) && |Expected(p, start).cmds| == |p|
    requires fds == Redirected(Wired(t, |p|, i), Applied(Expected(p, start).cmds, Expected(p, start).redirections, i))
    ensures RunsRedirected(fds, p, i, t)
  {
    var wired, rs := Wired(t, |p|, i), Attach(p[i].redirs, StartOf(p, start, i));
    if SingleBefore(p, i) {
      AppliedInStep(p, start, i);
      AttachIs(p[i].redirs, StartOf(p, start, i));
      RedirectedPerforms(wired, rs);
      assert FilesOf(rs) == FilesWritten(p[i].redirs);
      forall fd | fd in fds && IsPipeEnd(fds[fd])
        ensures fd in wired && wired[fd] == fds[fd]
      {
        PipesStay(fds, wired, FilesOf(rs), fd);
      }
    } else {
      var k := FirstDouble(p, i);
      AppliedWhenStuck(p, start, k, i);
    }
  }

  lemma AtMostTwoApplied(p: seq<Command>, start: nat, i: nat)
    requires HasWords(p) && i < |p| && (SingleBefore(p, i) ==> |p[i].redirs| <= 2)
    ensures AllStart(Expected(p, start).cmds) && i < |Expected(p, start).cmds|
    ensures |Applied(Expected(p, start).cmds, Expected(p, start).redirections, i)| <= 2
  {
    if SingleBefore(p, i) {
      AppliedInStep(p, start, i);
      AttachIs(p[i].redirs, StartOf(p, start, i));
    } else {
      var k := FirstDouble(p, i);
      AppliedWhenStuck(p, start, k, i);
    }
  }

  /** From the words to the descriptors: each child runs with its files where they were
      written and with the other pipe ends where they belong, up to and with the first
      command that has two redirections; the commands behind that one run without theirs. */
  method RunPipeline(parent: Process, argv: seq<string>, ghost p: seq<Command>)
    returns (children: seq<Process>, ok: bool)
    requires argv != [] && argv[1..] == Print(p)
    requires GoodPipeline(1, p) && StandardOpen(parent.fds)
    requires forall i :: 0 <= i < |p| && SingleBefore(p, i) ==> |p[i].redirs| <= 2
    modifies parent
    ensures ok && |children| == |p| && parent.fds == old(parent.fds)
    ensures forall i :: 0 <= i < |p| ==> RunsRedirected(children[i].fds, p, i, old(parent.fds))
  {
    assert argv == argv[..1] + Print(p);
    ParseUndoesPrint(argv[..1], p);
    var result := ParseOneBased(argv);
    var parsed := result.parsed;
    assert HasWords(p) by {
      assert forall k :: 0 <= k < |p| ==> GoodCommand(1, p[k]);
    }
    CommandsStart(p, 1);
    forall i | 0 <= i < |p|
      ensures |Applied(parsed.cmds, parsed.redirections, i)| <= 2
    {
      AtMostTwoApplied(p, 1, i);
    }
    children, ok := WiringRedirected.MyPipe(parent, parsed.cmds, parsed.redirections);
    forall i | 0 <= i < |p|
      ensures RunsRedirected(children[i].fds, p, i, old(parent.fds))
    {
      AppliedRuns(p, 1, i, children[i].fds, old(parent.fds));
    }
  }

  /** Two redirections of one command: `a < f > g` reads `f` and writes `g`. */
  lemma InAndOutRuns(u: Table, t: Table, f: string, g: string)
    requires Performs(u, t, FilesWritten([Redir(false, f), Redir(true, g)]))
    ensures 0 in u && u[0] == File(f, false) && 1 in u && u[1] == File(g, true)
  {
    var files := FilesWritten([Redir(false, f), Redir(true, g)]);
    assert files == [File(f, false), File(g, true)];
    assert IsLastFor(files, 0, 0) && IsLastFor(files, 1, 1);
  }
}
