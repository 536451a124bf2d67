/** Which words the two programs refuse. */
module CommandLineUsage {
  import opened CommandLine

  /** A word that begins with one of two characters. */
  predicate Begins(w: string, a: char, b: char) {
    w != "" && (w[0] == a || w[0] == b)
  }

  /** The last of the words that begin so stands first or last. */
  ghost predicate AtTheEdge(argv: seq<string>, base: nat, a: char, b: char) {
    exists i :: base <= i < |argv| && (i == base || i == |argv| - 1) && Begins(argv[i], a, b)
             && forall k :: i < k < |argv| ==> !Begins(argv[k], a, b)
  }

  ghost predicate Refused(argv: seq<string>, base: nat) {
    || (base == 1 && |argv| == 1)
    || AtTheEdge(argv, base, '|', '|')
    || AtTheEdge(argv, base, '<', '>')
  }

  lemma {:induction false} LastPipeIs(argv: seq<string>, base: nat, i: nat, none: int)
    requires base <= i <= |argv| && none < base
    ensures var k := LastPipe(argv, base, i, none);
      && (k >= base ==> k < i && Begins(argv[k], '|', '|'))
      && forall j :: base <= j < i && j > k ==> !Begins(argv[j], '|', '|')
  {
    if i > base {
      LastPipeIs(argv, base, i - 1, none);
    }
  }

  lemma {:induction false} LastRedirectionStands(argv: seq<string>, base: nat, i: nat, none: int)
    requires base <= i <= |argv| && none < base
    ensures var k := LastRedirection(argv, base, i, none);
      && (k >= base ==> k < i && Begins(argv[k], '<', '>'))
      && forall j :: base <= j < i && j > k ==> !Begins(argv[j], '<', '>')
  {
    if i > base {
      LastRedirectionStands(argv, base, i - 1, none);
    }
  }

  /** The place of the last such word decides. */
  lemma EdgeIs(argv: seq<string>, base: nat, a: char, b: char, k: int)
    requires k >= base ==> k < |argv| && Begins(argv[k], a, b)
    requires forall j :: base <= j < |argv| && j > k ==> !Begins(argv[j], a, b)
    ensures AtTheEdge(argv, base, a, b) <==> k >= base && (k == base || k == |argv| - 1)
  {
  }

  /** What the programs refuse: the last pipe, or the last redirection, must stand neither
      first nor last, and the one-based program needs a word behind its own name. */
  lemma UsageErrorIff(argv: seq<string>, base: nat)
    requires base <= 1 && |argv| > 0
    ensures Parse(argv, base) == UsageError <==> Refused(argv, base)
  {
    var n := |argv|;
    LastPipeIs(argv, base, n, None(base));
    LastRedirectionStands(argv, base, n, None(base));
    EdgeIs(argv, base, '|', '|', LastPipe(argv, base, n, None(base)));
    EdgeIs(argv, base, '<', '>', LastRedirection(argv, base, n, None(base)));
  }

  /** A word that begins with none of the three operators. */
  predicate IsPlain(w: string) {
    w != "" && w[0] != '|' && w[0] != '<' && w[0] != '>'
  }

  /** A word behind a redirection is no argument of its command: the parsers take it for the
      operator before the next one, which comes out empty. Here it is `a > f x | b`. */
  lemma WordBehindRedirection(prog: string, a: string, f: string, x: string, b: string)
    requires IsPlain(a) && IsPlain(f) && IsPlain(x) && IsPlain(b)
    ensures Parse([prog, a, ">", f, x, "|", b], 1) == Success(Parsed([[1], []], [Redirection(true, f, 1)]))
  {
    var argv := [prog, a, ">", f, x, "|", b];
    assert LastPipe(argv, 1, 7, 0) == 5 by {
      assert LastPipe(argv, 1, 6, 0) == 5;
    }
    assert LastRedirection(argv, 1, 7, 0) == 2 by {
      assert LastRedirection(argv, 1, 3, 0) == 2;
      assert LastRedirection(argv, 1, 4, 0) == 2;
      assert LastRedirection(argv, 1, 5, 0) == 2;
      assert LastRedirection(argv, 1, 6, 0) == 2;
    }
    assert CountPipes(argv, 1) == 1 by {
      assert CountPipes(argv, 6) == 0 && CountPipes(argv, 5) == 1;
      assert CountPipes(argv, 4) == 1 && CountPipes(argv, 3) == 1 && CountPipes(argv, 2) == 1;
    }
    assert WordsEnd(argv, 1, 1) == 2 && WordsEnd(argv, 1, 5) == 5;
    assert RedirectionsEnd(argv, 4) == 4 && RedirectionsEnd(argv, 2) == 4 && RedirectionsEnd(argv, 5) == 5;
    assert Owner(argv, 1, 2) == 1 by {
      assert Owner(argv, 1, 0) == 1 && Owner(argv, 1, 1) == 1;
    }
    assert RedirectionsAt(argv, 1, 4) == [] && RedirectionsAt(argv, 1, 5) == [];
    assert RedirectionsAt(argv, 1, 2) == [Redirection(true, f, 1)];
    assert Commands(argv, 1, 6, 0) == Parsed([], []);
    assert Range(5, 5) == [] && Range(1, 2) == [1];
    var second := Commands(argv, 1, 5, 1);
    assert second.cmds == [[]] && second.redirections == [];
    assert Commands(argv, 1, 1, 2) == Parsed([[1]] + [[]], [Redirection(true, f, 1)] + []);
  }

  /** An empty word ends a command of the zero-based program, and is a word to the other. */
  lemma EmptyWord(prog: string, a: string, b: string)
    requires IsPlain(a) && IsPlain(b)
    ensures Parse([a, "", b], 0) == Success(Parsed([[0]], []))
    ensures Parse([prog, a, "", b], 1) == Success(Parsed([[1, 2, 3]], []))
  {
    var zero, one := [a, "", b], [prog, a, "", b];
    assert !Stops(0, a) && !Stops(1, a) && !Stops(1, b);
    NoOperators(zero, 0, 0);
    NoOperators(one, 1, 1);
    assert WordsEnd(zero, 0, 1) == 1 && WordsEnd(zero, 0, 0) == 1;
    OneRun(zero, 0, 0, 1);
    assert WordsEnd(one, 1, 4) == 4 && WordsEnd(one, 1, 3) == 4;
    assert WordsEnd(one, 1, 2) == 4 && WordsEnd(one, 1, 1) == 4;
    OneRun(one, 1, 1, 4);
    assert Range(0, 1) == [0] && Range(1, 4) == [1, 2, 3];
  }

  lemma {:induction false} NoOperators(argv: seq<string>, base: nat, i: nat)
    requires base <= i <= |argv|
    requires forall k :: base <= k < |argv| ==> !IsPipe(argv[k]) && !IsRedirection(argv[k])
    ensures CountPipes(argv, i) == 0
    ensures LastPipe(argv, base, |argv| + base - i, None(base)) == None(base)
    ensures LastRedirection(argv, base, |argv| + base - i, None(base)) == None(base)
    decreases |argv| - i
  {
    if i < |argv| {
      NoOperators(argv, base, i + 1);
    }
  }

  /** A command with no operator behind it. */
  lemma OneRun(argv: seq<string>, base: nat, start: nat, end: nat)
    requires EndsInWord(argv) && WordsEnd(argv, base, start) == end
    requires end < |argv| ==> !IsPipe(argv[end]) && !IsRedirection(argv[end])
    ensures Commands(argv, base, start, 1).cmds == [Range(start, end)]
    ensures Commands(argv, base, start, 1).redirections == []
  {
    assert Commands(argv, base, start + base, 0) == Parsed([], []);
  }
}
