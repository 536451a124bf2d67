/** Writing a pipeline out as words, and reading it back. */
module CommandLineRoundTrip {
  import opened CommandLine
  import opened CommandLineUsage

  datatype Redir = Redir(writing: bool, file: string)

  datatype Command = Command(args: seq<string>, redirs: seq<Redir>)

  function PrintRedirs(rs: seq<Redir>): (ws: seq<string>)
    ensures |ws| == 2 * |rs|
  {
    if rs == [] then [] else [if rs[0].writing then ">" else "<", rs[0].file] + PrintRedirs(rs[1..])
  }

  function PrintCommand(c: Command): seq<string> {
    c.args + PrintRedirs(c.redirs)
  }

  function Print(p: seq<Command>): seq<string>
    decreases |p|
  {
    if p == [] then []
    else if |p| == 1 then PrintCommand(p[0])
    else PrintCommand(p[0]) + ["|"] + Print(p[1..])
  }

  predicate IsOperator(w: string) {
    IsPipe(w) || IsRedirection(w)
  }

  /** A command has at least one word, and no word of its own looks like an operator. */
  ghost predicate GoodCommand(base: nat, c: Command) {
    && c.args != []
    && (forall i :: 0 <= i < |c.args| ==> !Stops(base, c.args[i]))
    && (forall i :: 0 <= i < |c.redirs| ==> !IsOperator(c.redirs[i].file))
  }

  ghost predicate GoodPipeline(base: nat, p: seq<Command>) {
    p != [] && forall i :: 0 <= i < |p| ==> GoodCommand(base, p[i])
  }

  function Attach(rs: seq<Redir>, cmd: nat): seq<Redirection> {
    if rs == [] then [] else [Redirection(rs[0].writing, rs[0].file, cmd)] + Attach(rs[1..], cmd)
  }

  /** The parse of a pipeline printed from position `start` on: each command's own words, and
      all redirections in order, each attached to its own command's first word. */
  function Expected(p: seq<Command>, start: nat): Parsed
    decreases |p|
  {
    if p == [] then Parsed([], [])
    else
      var rest := Expected(p[1..], start + |PrintCommand(p[0])| + 1);
      Parsed([Range(start, start + |p[0].args|)] + rest.cmds, Attach(p[0].redirs, start) + rest.redirections)
  }

  // ---------------------------------------------------------------- one command

  /** `start` is where the programs look for a command: at the base, or behind a pipe. */
  predicate AtCommand(argv: seq<string>, base: nat, start: nat) {
    && base <= start < |argv|
    && (start > base ==> IsPipe(argv[start - 1]))
  }

  predicate AtCommandEnd(argv: seq<string>, end: nat) {
    end == |argv| || (end < |argv| && IsPipe(argv[end]))
  }

  lemma {:induction false} WordsEndIs(argv: seq<string>, base: nat, j: nat, k: nat)
    requires j <= k <= |argv| && forall i :: j <= i < k ==> !Stops(base, argv[i])
    requires k < |argv| ==> Stops(base, argv[k])
    ensures WordsEnd(argv, base, j) == k
    decreases k - j
  {
    if j < k {
      WordsEndIs(argv, base, j + 1, k);
    }
  }

  lemma {:induction false} OwnerIs(argv: seq<string>, base: nat, start: nat, j: nat)
    requires base <= 1 && AtCommand(argv, base, start)
    requires start <= j < |argv| && forall i :: start <= i <= j ==> !IsPipe(argv[i])
    ensures Owner(argv, base, j) == start
  {
    if j > start {
      OwnerIs(argv, base, start, j - 1);
    }
  }

  lemma {:induction false} RedirectionsAre(argv: seq<string>, base: nat, start: nat, j: nat, rs: seq<Redir>, end: nat)
    requires base <= 1 && EndsInWord(argv) && AtCommand(argv, base, start) && AtCommandEnd(argv, end)
    requires start <= j <= end <= |argv| && argv[j..end] == PrintRedirs(rs)
    requires forall i :: 0 <= i < |rs| ==> !IsOperator(rs[i].file)
    requires forall i :: start <= i < j ==> !IsPipe(argv[i])
    ensures RedirectionsAt(argv, base, j) == Attach(rs, start)
    ensures RedirectionsEnd(argv, j) == end
    decreases |rs|
  {
    if rs != [] {
      assert argv[j] == argv[j..end][0] && argv[j + 1] == argv[j..end][1];
      assert argv[j + 2..end] == argv[j..end][2..] == PrintRedirs(rs[1..]);
      OwnerIs(argv, base, start, j);
      RedirectionsAre(argv, base, start, j + 2, rs[1..], end);
    }
  }

  lemma OneCommand(argv: seq<string>, base: nat, start: nat, c: Command, end: nat)
    requires base <= 1 && EndsInWord(argv) && AtCommand(argv, base, start) && AtCommandEnd(argv, end)
    requires GoodCommand(base, c) && start <= end <= |argv| && argv[start..end] == PrintCommand(c)
    ensures WordsEnd(argv, base, start) == start + |c.args|
    ensures RedirectionsAt(argv, base, start + |c.args|) == Attach(c.redirs, start)
    ensures RedirectionsEnd(argv, start + |c.args|) == end
    ensures start + |c.args| < end ==> IsRedirection(argv[start + |c.args|])
  {
    var e := start + |c.args|;
    assert forall i :: start <= i < e ==> argv[i] == argv[start..end][i - start] == c.args[i - start];
    assert argv[e..end] == argv[start..end][|c.args|..] == PrintRedirs(c.redirs);
    if e < end {
      assert argv[e] == argv[e..end][0];
    }
    WordsEndIs(argv, base, start, e);
    RedirectionsAre(argv, base, start, e, c.redirs, end);
  }

  // ---------------------------------------------------------------- all commands

  /** Where the first command of a printed pipeline stands, and what follows it. */
  lemma FirstPrinted(argv: seq<string>, start: nat, p: seq<Command>)
    requires start <= |argv| && p != [] && argv[start..] == Print(p)
    ensures var end := start + |PrintCommand(p[0])|;
      && end <= |argv| && argv[start..end] == PrintCommand(p[0])
      && (|p| == 1 ==> end == |argv|)
      && (|p| > 1 ==> end < |argv| && argv[end] == "|" && argv[end + 1..] == Print(p[1..]))
  {
    var width := |PrintCommand(p[0])|;
    assert argv[start..start + width] == argv[start..][..width] == PrintCommand(p[0]);
    if |p| > 1 {
      assert argv[start + width] == argv[start..][width];
      assert argv[start + width + 1..] == argv[start..][width + 1..] == Print(p[1..]);
    }
  }

  /** One turn of the command loop on a printed command. */
  lemma OneTurn(argv: seq<string>, base: nat, start: nat, c: Command, end: nat, n: nat)
    requires base <= 1 && EndsInWord(argv) && AtCommand(argv, base, start) && AtCommandEnd(argv, end)
    requires GoodCommand(base, c) && start <= end <= |argv| && argv[start..end] == PrintCommand(c)
    requires n > 0 && (end == |argv| ==> n == 1)
    ensures var all, rest := Commands(argv, base, start, n), Commands(argv, base, end + 1, n - 1);
      && all.cmds == [Range(start, start + |c.args|)] + rest.cmds
      && all.redirections == Attach(c.redirs, start) + rest.redirections
  {
    OneCommand(argv, base, start, c, end);
  }

  /** The words of the commands stand in argv from `start` to the end, with pipes between. */
  ghost predicate Laid(argv: seq<string>, start: nat, p: seq<Command>)
    decreases |p|
  {
    && p != []
    && var end := start + |PrintCommand(p[0])|;
    && end <= |argv| && argv[start..end] == PrintCommand(p[0])
    && if |p| == 1 then end == |argv| else end < |argv| && argv[end] == "|" && Laid(argv, end + 1, p[1..])
  }

  lemma {:induction false} PrintedIsLaid(argv: seq<string>, start: nat, p: seq<Command>)
    requires start <= |argv| && p != [] && argv[start..] == Print(p)
    ensures Laid(argv, start, p)
    decreases |p|
  {
    FirstPrinted(argv, start, p);
    if |p| > 1 {
      PrintedIsLaid(argv, start + |PrintCommand(p[0])| + 1, p[1..]);
    }
  }

  lemma ExpectedFirst(p: seq<Command>, start: nat, end: nat)
    requires p != [] && end == start + |PrintCommand(p[0])|
    ensures var rest := Expected(p[1..], end + 1);
      && Expected(p, start).cmds == [Range(start, start + |p[0].args|)] + rest.cmds
      && Expected(p, start).redirections == Attach(p[0].redirs, start) + rest.redirections
  {
  }

  lemma FirstLaid(argv: seq<string>, start: nat, p: seq<Command>, end: nat)
    requires Laid(argv, start, p) && end == start + |PrintCommand(p[0])|
    ensures start <= end <= |argv| && argv[start..end] == PrintCommand(p[0]) && AtCommandEnd(argv, end)
    ensures end == |argv| ==> |p| == 1
  {
  }

  /** One turn of the loop, with what it and `Expected` have in common behind the first command. */
  lemma TurnAgrees(argv: seq<string>, base: nat, start: nat, p: seq<Command>, end: nat)
    requires base <= 1 && EndsInWord(argv) && AtCommand(argv, base, start)
    requires GoodPipeline(base, p) && Laid(argv, start, p) && end == start + |PrintCommand(p[0])|
    requires Commands(argv, base, end + 1, |p| - 1) == Expected(p[1..], end + 1)
    ensures Commands(argv, base, start, |p|).cmds == Expected(p, start).cmds
    ensures Commands(argv, base, start, |p|).redirections == Expected(p, start).redirections
  {
    FirstLaid(argv, start, p, end);
    ExpectedFirst(p, start, end);
    assert GoodCommand(base, p[0]);
    OneTurn(argv, base, start, p[0], end, |p|);
  }

  lemma TurnIs(argv: seq<string>, base: nat, start: nat, p: seq<Command>, end: nat, n: nat)
    requires base <= 1 && EndsInWord(argv) && AtCommand(argv, base, start) && n == |p|
    requires GoodPipeline(base, p) && Laid(argv, start, p) && end == start + |PrintCommand(p[0])|
    requires Commands(argv, base, end + 1, n - 1) == Expected(p[1..], end + 1)
    ensures Commands(argv, base, start, n) == Expected(p, start)
  {
    TurnAgrees(argv, base, start, p, end);
  }

  lemma LastTurn(argv: seq<string>, base: nat, start: nat, p: seq<Command>, end: nat)
    requires base <= 1 && EndsInWord(argv) && AtCommand(argv, base, start) && |p| == 1
    requires GoodPipeline(base, p) && Laid(argv, start, p) && end == start + |PrintCommand(p[0])|
    ensures Commands(argv, base, start, 1) == Expected(p, start)
  {
    assert Commands(argv, base, end + 1, 0) == Expected(p[1..], end + 1);
    TurnIs(argv, base, start, p, end, 1);
  }

  /** Behind the pipe the rest of the pipeline stands in the same way. */
  lemma BehindThePipe(argv: seq<string>, base: nat, start: nat, p: seq<Command>, end: nat)
    requires base <= start && |p| > 1 && GoodPipeline(base, p)
    requires Laid(argv, start, p) && end == start + |PrintCommand(p[0])|
    ensures AtCommand(argv, base, end + 1) && GoodPipeline(base, p[1..]) && Laid(argv, end + 1, p[1..])
  {
    assert Laid(argv, end + 1, p[1..]);
    assert GoodCommand(base, p[1]);
    forall i | 0 <= i < |p[1..]|
      ensures GoodCommand(base, p[1..][i])
    {
      assert p[1..][i] == p[i + 1];
    }
    LaidIsInside(argv, end + 1, p[1..]);
  }

  lemma LaidIsInside(argv: seq<string>, start: nat, p: seq<Command>)
    requires Laid(argv, start, p) && p[0].args != []
    ensures start < |argv|
  {
  }

  lemma {:induction false} CommandsAre(argv: seq<string>, base: nat, start: nat, p: seq<Command>, n: nat)
    requires base <= 1 && EndsInWord(argv) && AtCommand(argv, base, start)
    requires GoodPipeline(base, p) && Laid(argv, start, p) && n == |p|
    ensures Commands(argv, base, start, n) == Expected(p, start)
    decreases n
  {
    var end := start + |PrintCommand(p[0])|;
    if n == 1 {
      LastTurn(argv, base, start, p, end);
    } else {
      BehindThePipe(argv, base, start, p, end);
      CommandsAre(argv, base, end + 1, p[1..], n - 1);
      TurnIs(argv, base, start, p, end, n);
    }
  }

  // ---------------------------------------------------------------- the usage checks

  lemma {:induction false} PrintRedirsWords(base: nat, rs: seq<Redir>)
    requires forall i :: 0 <= i < |rs| ==> !IsOperator(rs[i].file)
    ensures forall i :: 0 <= i < 2 * |rs| ==> !IsPipe(PrintRedirs(rs)[i])
    ensures rs != [] ==> !IsOperator(PrintRedirs(rs)[2 * |rs| - 1])
  {
    if rs != [] {
      PrintRedirsWords(base, rs[1..]);
    }
  }

  lemma PrintCommandWords(base: nat, c: Command)
    requires GoodCommand(base, c)
    ensures var ws := PrintCommand(c);
      && ws != [] && !IsOperator(ws[0]) && !IsOperator(ws[|ws| - 1])
      && forall i :: 0 <= i < |ws| ==> !IsPipe(ws[i])
  {
    PrintRedirsWords(base, c.redirs);
  }

  lemma {:induction false} LastWord(base: nat, p: seq<Command>)
    requires GoodPipeline(base, p)
    ensures Print(p) != [] && !IsOperator(Print(p)[0]) && !IsOperator(Print(p)[|Print(p)| - 1])
    decreases |p|
  {
    PrintCommandWords(base, p[0]);
    if |p| > 1 {
      LastWord(base, p[1..]);
    }
  }

  lemma {:induction false} SkipWords(argv: seq<string>, i: nat, j: nat)
    requires i <= j <= |argv| && forall k :: i <= k < j ==> !IsPipe(argv[k])
    ensures CountPipes(argv, i) == CountPipes(argv, j)
    decreases j - i
  {
    if i < j {
      SkipWords(argv, i + 1, j);
    }
  }

  lemma {:induction false} PipesBetweenCommands(argv: seq<string>, base: nat, start: nat, p: seq<Command>)
    requires start <= |argv| && GoodPipeline(base, p) && argv[start..] == Print(p)
    ensures CountPipes(argv, start) == |p| - 1
    decreases |p|
  {
    var end := start + |PrintCommand(p[0])|;
    FirstPrinted(argv, start, p);
    PrintCommandWords(base, p[0]);
    assert forall k :: start <= k < end ==> argv[k] == argv[start..end][k - start];
    SkipWords(argv, start, end);
    if |p| > 1 {
      PipesBetweenCommands(argv, base, end + 1, p[1..]);
    }
  }

  // ---------------------------------------------------------------- the round trip

  lemma PrintedUsageOk(prefix: seq<string>, p: seq<Command>)
    requires |prefix| <= 1 && GoodPipeline(|prefix|, p)
    ensures var argv := prefix + Print(p);
      |prefix| < |argv| && UsageOk(argv, |prefix|) && EndsInWord(argv)
  {
    var base, argv := |prefix|, prefix + Print(p);
    LastWord(base, p);
    assert argv[base] == Print(p)[0] && argv[|argv| - 1] == Print(p)[|Print(p)| - 1];
  }

  lemma PrintedCommands(prefix: seq<string>, p: seq<Command>)
    requires |prefix| <= 1 && GoodPipeline(|prefix|, p)
    ensures var argv := prefix + Print(p);
      && |prefix| < |argv| && CountPipes(argv, |prefix|) == |p| - 1
      && EndsInWord(argv) && Commands(argv, |prefix|, |prefix|, |p|) == Expected(p, |prefix|)
  {
    var base, argv := |prefix|, prefix + Print(p);
    PrintedUsageOk(prefix, p);
    assert argv[base..] == Print(p);
    PipesBetweenCommands(argv, base, base, p);
    PrintedIsLaid(argv, base, p);
    CommandsAre(argv, base, base, p, |p|);
  }

  /** Parsing what `Print` wrote gives back the same commands, the same redirections in the
      same order, and each of them on its own command's first word. `prefix` is the program
      name the one-based program skips, and nothing for the zero-based one. */
  lemma ParseUndoesPrint(prefix: seq<string>, p: seq<Command>)
    requires |prefix| <= 1 && GoodPipeline(|prefix|, p)
    ensures Parse(prefix + Print(p), |prefix|) == Success(Expected(p, |prefix|))
  {
    PrintedUsageOk(prefix, p);
    PrintedCommands(prefix, p);
  }

  /** The words a parsed command points to. */
  function WordsOf(argv: seq<string>, cmd: seq<nat>): seq<string>
    requires forall k :: 0 <= k < |cmd| ==> cmd[k] < |argv|
  {
    seq(|cmd|, k requires 0 <= k < |cmd| => argv[cmd[k]])
  }

  lemma {:induction false} ExpectedCount(p: seq<Command>, start: nat)
    ensures |Expected(p, start).cmds| == |p|
    decreases |p|
  {
    if p != [] {
      ExpectedCount(p[1..], start + |PrintCommand(p[0])| + 1);
    }
  }

  ghost predicate PointsTo(argv: seq<string>, cmd: seq<nat>, words: seq<string>) {
    && (forall k :: 0 <= k < |cmd| ==> cmd[k] < |argv|)
    && WordsOf(argv, cmd) == words
  }

  lemma RangePointsTo(argv: seq<string>, start: nat, end: nat, c: Command)
    requires start <= end <= |argv| && argv[start..end] == PrintCommand(c)
    ensures PointsTo(argv, Range(start, start + |c.args|), c.args)
  {
    forall k | 0 <= k < |c.args|
      ensures argv[start + k] == c.args[k]
    {
      assert argv[start + k] == argv[start..end][k];
    }
  }

  /** The pointers of command `i` lead to its words, and its first word is where the
      redirections of command `i` point. */
  lemma {:induction false} ExpectedWords(argv: seq<string>, base: nat, start: nat, p: seq<Command>, i: nat)
    requires start <= |argv| && GoodPipeline(base, p) && argv[start..] == Print(p) && i < |p|
    ensures |Expected(p, start).cmds| == |p|
    ensures var cmd := Expected(p, start).cmds[i];
      && (forall k :: 0 <= k < |cmd| ==> cmd[k] < |argv|)
      && WordsOf(argv, cmd) == p[i].args
    decreases |p|
  {
    var end := start + |PrintCommand(p[0])|;
    ExpectedCount(p, start);
    FirstPrinted(argv, start, p);
    if i == 0 {
      RangePointsTo(argv, start, end, p[0]);
      assert Expected(p, start).cmds[0] == Range(start, start + |p[0].args|);
    } else {
      ExpectedWords(argv, base, end + 1, p[1..], i - 1);
      assert Expected(p, start).cmds[i] == Expected(p[1..], end + 1).cmds[i - 1];
    }
  }

  /** `a < f > g | b`, as a pipeline. */
  function InAndOutPipeline(a: string, f: string, g: string, b: string): seq<Command> {
    [Command([a], [Redir(false, f), Redir(true, g)]), Command([b], [])]
  }

  lemma PrintInAndOut(a: string, f: string, g: string, b: string)
    ensures Print(InAndOutPipeline(a, f, g, b)) == [a, "<", f, ">", g, "|", b]
  {
    var p := InAndOutPipeline(a, f, g, b);
    var c, d := p[0], p[1];
    assert c.redirs[1..] == [Redir(true, g)] && c.redirs[1..][1..] == [];
    assert PrintRedirs(c.redirs[1..]) == [">", g];
    assert PrintRedirs(c.redirs) == ["<", f] + PrintRedirs(c.redirs[1..]);
    assert PrintCommand(c) == [a, "<", f, ">", g] && PrintCommand(d) == [b];
    assert p[1..] == [d];
  }

  lemma ParsePipeline(prefix: seq<string>, a: string, f: string, g: string, b: string, argv: seq<string>, start: nat)
    requires start == |prefix| <= 1 && IsPlain(a) && IsPlain(f) && IsPlain(g) && IsPlain(b)
    requires argv == prefix + [a, "<", f, ">", g, "|", b]
    ensures Parse(argv, start)
         == Success(Parsed([[start], [start + 6]], [Redirection(false, f, start), Redirection(true, g, start)]))
  {
    var p := InAndOutPipeline(a, f, g, b);
    PrintInAndOut(a, f, g, b);
    ParseUndoesPrint(prefix, p);
    ExpectedOfTwo(p[0], p[1], start);
  }

  /** One line in full, with and without a program name before it: `a < f > g | b`. */
  lemma InAndOut(prog: string, a: string, f: string, g: string, b: string)
    requires IsPlain(a) && IsPlain(f) && IsPlain(g) && IsPlain(b)
    ensures Parse([prog, a, "<", f, ">", g, "|", b], 1)
         == Success(Parsed([[1], [7]], [Redirection(false, f, 1), Redirection(true, g, 1)]))
    ensures Parse([a, "<", f, ">", g, "|", b], 0)
         == Success(Parsed([[0], [6]], [Redirection(false, f, 0), Redirection(true, g, 0)]))
  {
    ParsePipeline([prog], a, f, g, b, [prog, a, "<", f, ">", g, "|", b], 1);
    ParsePipeline([], a, f, g, b, [a, "<", f, ">", g, "|", b], 0);
  }

  lemma ExpectedOfTwo(c: Command, d: Command, start: nat)
    requires |c.args| == |d.args| == 1 && |c.redirs| == 2 && d.redirs == []
    ensures Expected([c, d], start)
         == Parsed([[start], [start + 6]], [Redirection(c.redirs[0].writing, c.redirs[0].file, start),
                                            Redirection(c.redirs[1].writing, c.redirs[1].file, start)])
  {
    assert [c, d][1..] == [d] && [d][1..] == [];
    assert c.redirs[1..][1..] == [];
    assert Attach(c.redirs[1..][1..], start) == [];
    assert Attach(c.redirs[1..], start) == [Redirection(c.redirs[1].writing, c.redirs[1].file, start)];
    var next := start + |PrintCommand(c)| + 1;
    assert Range(start, start + 1) == [start] && Range(next, next + 1) == [next];
    assert Expected([d], next).cmds == [[next]];
    assert Expected([d], next).redirections == [];
    assert Expected([d][1..], next + |PrintCommand(d)| + 1) == Parsed([], []);
  }
}
