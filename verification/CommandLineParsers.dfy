/** The two programs' parsers, loop by loop. */
module CommandLineParsers {
  import opened CommandLine
  import opened CommandLineUsage

  /** The first loop: counts pipes and remembers the last operators. */
  method CountOperators(argv: seq<string>, base: nat) returns (pipeNum: nat, pipeIdx: int, redirIdx: int)
    requires base <= 1 && |argv| > 0
    ensures pipeNum == CountPipes(argv, base)
    ensures pipeIdx == LastPipe(argv, base, |argv|, None(base))
    ensures redirIdx == LastRedirection(argv, base, |argv|, None(base))
  {
    pipeNum, pipeIdx, redirIdx := 0, None(base), None(base);
    for i := base to |argv|
      invariant pipeNum + CountPipes(argv, i) == CountPipes(argv, base)
      invariant pipeIdx == LastPipe(argv, base, i, None(base))
      invariant redirIdx == LastRedirection(argv, base, i, None(base))
    {
      if IsPipe(argv[i]) {
        pipeNum := pipeNum + 1;
        pipeIdx := i;
      } else if IsRedirection(argv[i]) {
        redirIdx := i;
      }
    }
  }

  /** Counts the words of a command from `start` on, then copies their pointers. */
  method TakeWords(argv: seq<string>, base: nat, start: nat) returns (cmd: seq<nat>, j: nat)
    ensures j == WordsEnd(argv, base, start) && cmd == Range(start, j)
  {
    var argNum: nat := 0;
    j := start;
    while j < |argv| && !Stops(base, argv[j])
      invariant j == start + argNum && WordsEnd(argv, base, j) == WordsEnd(argv, base, start)
    {
      argNum := argNum + 1;
      j := j + 1;
    }
    cmd, j := [], start;
    for l := 0 to argNum
      invariant j == start + l && cmd == Range(start, j)
    {
      cmd := cmd + [j];
      j := j + 1;
    }
  }

  /** Takes the operator and file name pairs from `start` on. */
  method TakeRedirections(argv: seq<string>, base: nat, start: nat) returns (redirs: seq<Redirection>, j: nat)
    requires EndsInWord(argv)
    ensures j == RedirectionsEnd(argv, start) && redirs == RedirectionsAt(argv, base, start)
  {
    redirs, j := [], start;
    while j < |argv| && IsRedirection(argv[j])
      invariant j >= start && RedirectionsEnd(argv, j) == RedirectionsEnd(argv, start)
      invariant redirs + RedirectionsAt(argv, base, j) == RedirectionsAt(argv, base, start)
      decreases |argv| - j
    {
      var cntIdx: nat := j;
      while cntIdx > 0 && !IsPipe(argv[cntIdx])
        invariant cntIdx <= j && Owner(argv, base, cntIdx) == Owner(argv, base, j)
      {
        cntIdx := cntIdx - 1;
      }
      var cmd := if base == 1 then cntIdx + 1 else if IsPipe(argv[cntIdx]) then cntIdx + 1 else cntIdx;
      redirs := redirs + [Redirection(argv[j][0] == '>', argv[j + 1], cmd)];
      j := j + 2;
    }
    assert redirs + [] == redirs;
  }

  /** Where the search for the next command starts. */
  function NextStart(argv: seq<string>, base: nat, start: nat): nat {
    var e := WordsEnd(argv, base, start);
    if e < |argv| && (IsPipe(argv[e]) || IsRedirection(argv[e])) then RedirectionsEnd(argv, e) + 1 else start + base
  }

  /** One turn of the command loop: what was found so far and what is still to come. */
  lemma NextCommand(argv: seq<string>, base: nat, start: nat, n: nat, cmds: seq<seq<nat>>, redirs: seq<Redirection>)
    requires EndsInWord(argv) && n > 0
    ensures var all, rest := Commands(argv, base, start, n), Commands(argv, base, NextStart(argv, base, start), n - 1);
      var e := WordsEnd(argv, base, start);
      && cmds + all.cmds == (cmds + [Range(start, e)]) + rest.cmds
      && redirs + all.redirections == (redirs + RedirectionsAt(argv, base, e)) + rest.redirections
  {
  }

  /** One command's words, then its redirections if an operator follows. */
  method TakeCommand(argv: seq<string>, base: nat, start: nat)
    returns (cmd: seq<nat>, redirs: seq<Redirection>, j: nat, more: bool)
    requires EndsInWord(argv)
    ensures var e := WordsEnd(argv, base, start);
      && cmd == Range(start, e) && redirs == RedirectionsAt(argv, base, e)
      && NextStart(argv, base, start) == (if more then j + 1 else start + base)
  {
    cmd, j := TakeWords(argv, base, start);
    redirs, more := [], j < |argv| && (IsPipe(argv[j]) || IsRedirection(argv[j]));
    if more {
      redirs, j := TakeRedirections(argv, base, j);
    }
  }

  /** The command loop of the one-based program; `nextCmdIdx` is the operator before a command. */
  method OneBasedCommands(argv: seq<string>, cmdNum: nat) returns (cmds: seq<seq<nat>>, toFrom: seq<Redirection>)
    requires EndsInWord(argv)
    ensures Parsed(cmds, toFrom) == Commands(argv, 1, 1, cmdNum)
  {
    cmds, toFrom := [], [];
    var nextCmdIdx: nat := 0;
    ghost var all := Commands(argv, 1, 1, cmdNum);
    for i := 0 to cmdNum
      invariant cmds + Commands(argv, 1, nextCmdIdx + 1, cmdNum - i).cmds == all.cmds
      invariant toFrom + Commands(argv, 1, nextCmdIdx + 1, cmdNum - i).redirections == all.redirections
    {
      NextCommand(argv, 1, nextCmdIdx + 1, cmdNum - i, cmds, toFrom);
      nextCmdIdx := nextCmdIdx + 1;
      var cmd, redirs, j, more := TakeCommand(argv, 1, nextCmdIdx);
      cmds, toFrom := cmds + [cmd], toFrom + redirs;
      if more {
        nextCmdIdx := j;
      }
    }
    assert cmds + [] == cmds && toFrom + [] == toFrom;
  }

  /** The command loop of the zero-based program; `nextCmdIdx` is where a command starts. */
  method ZeroBasedCommands(argv: seq<string>, cmdNum: nat) returns (cmds: seq<seq<nat>>, toFrom: seq<Redirection>)
    requires EndsInWord(argv)
    ensures Parsed(cmds, toFrom) == Commands(argv, 0, 0, cmdNum)
  {
    cmds, toFrom := [], [];
    var nextCmdIdx: nat := 0;
    ghost var all := Commands(argv, 0, 0, cmdNum);
    for i := 0 to cmdNum
      invariant cmds + Commands(argv, 0, nextCmdIdx, cmdNum - i).cmds == all.cmds
      invariant toFrom + Commands(argv, 0, nextCmdIdx, cmdNum - i).redirections == all.redirections
    {
      NextCommand(argv, 0, nextCmdIdx, cmdNum - i, cmds, toFrom);
      var cmd, redirs, j, more := TakeCommand(argv, 0, nextCmdIdx);
      cmds, toFrom := cmds + [cmd], toFrom + redirs;
      if more {
        nextCmdIdx := j + 1;
      }
    }
    assert cmds + [] == cmds && toFrom + [] == toFrom;
  }

  /** `main` of the program that takes its pipeline from argv[1] on. */
  method ParseOneBased(argv: seq<string>) returns (result: Result)
    requires |argv| > 0
    ensures result == Parse(argv, 1)
    ensures result == UsageError <==> Refused(argv, 1)
  {
    UsageErrorIff(argv, 1);
    var pipeNum, pipeIdx, redirIdx := CountOperators(argv, 1);
    if pipeIdx == 1 || pipeIdx == |argv| - 1 {
      return UsageError;
    }
    if redirIdx == 1 || redirIdx == |argv| - 1 {
      return UsageError;
    }
    LastRedirectionIs(argv, 1, |argv|);
    var cmds, toFrom := OneBasedCommands(argv, pipeNum + 1);
    return Success(Parsed(cmds, toFrom));
  }

  /** The parser inside `parse_cmd`, whose pipeline starts at argv[0]. */
  method ParseZeroBased(argv: seq<string>) returns (result: Result)
    requires |argv| > 0
    ensures result == Parse(argv, 0)
    ensures result == UsageError <==> Refused(argv, 0)
  {
    UsageErrorIff(argv, 0);
    var pipeNum, pipeIdx, redirIdx := CountOperators(argv, 0);
    if pipeIdx == 0 || pipeIdx == |argv| - 1 {
      return UsageError;
    }
    if redirIdx == 0 || redirIdx == |argv| - 1 {
      return UsageError;
    }
    LastRedirectionIs(argv, 0, |argv|);
    var cmds, toFrom := ZeroBasedCommands(argv, pipeNum + 1);
    return Success(Parsed(cmds, toFrom));
  }
}
