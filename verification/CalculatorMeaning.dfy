/**
 What the calculator's lines mean: a postfix line computes the value of the expression it
 spells, and what a reset leaves behind.
 */
module CalculatorMeaning {
  import opened Calculator

  datatype Expr = Num(value: real, effect: TypeEffect) | Bin(op: Operator, left: Expr, right: Expr)

  function Postfix(e: Expr): seq<Token> {
    match e
    case Num(value, effect) => [Number(value, effect)]
    case Bin(op, left, right) => Postfix(left) + Postfix(right) + [Oper(op)]
  }

  /** The value of an expression read left to right, with the type of the line so far. */
  datatype Meaning = Value(v: real, kind: Type) | Refused(kind: Type) | NoMeaning

  function Eval(e: Expr, kind: Type): Meaning {
    match e
    case Num(value, effect) => Value(value, AfterNumber(effect, kind))
    case Bin(op, left, right) =>
      var x := Eval(left, kind);
      if !x.Value? then x
      else
        var y := Eval(right, x.kind);
        if !y.Value? then y
        else if op == DIV && y.v == 0.0 then Refused(y.kind)
        else if op == REM && y.kind == DOUBLE then Refused(y.kind)
        else if op == REM && !RemainderDefined(x.v, y.v) then NoMeaning
        else Value(Compute(op, x.v, y.v), y.kind)
  }

  /** The slots of the stack an expression needs while it is evaluated. */
  function Need(e: Expr): nat {
    match e
    case Num(_, _) => 1
    case Bin(_, left, right) => if Need(left) > Need(right) then Need(left) else Need(right) + 1
  }

  /** Running one list of tokens after another. */
  function RunFrom(r: Result, tokens: seq<Token>): Result {
    if r.Going? then Run(r.s, tokens) else r
  }

  lemma {:induction false} RunConcat(s: State, first: seq<Token>, second: seq<Token>)
    ensures Run(s, first + second) == RunFrom(Run(s, first), second)
    decreases |second|
  {
    if second == [] {
      assert first + second == first;
    } else {
      var init, last := second[..|second| - 1], second[|second| - 1];
      RunConcat(s, first, init);
      assert first + second == (first + init) + [last];
      assert second == init + [last];
    }
  }

  /** The outcome of a list of tokens is the one the meaning calls for. */
  predicate Agrees(r: Result, m: Meaning, stack: seq<real>) {
    match m
    case Value(v, kind) => r == Going(State(stack + [v], kind))
    case Refused(kind) => r.Reset? && r.s.kind == kind
    case NoMeaning => r == Undefined
  }

  lemma RunOperator(s: State, tokens: seq<Token>, op: Operator)
    ensures Run(s, tokens + [Oper(op)]) == RunFrom(Run(s, tokens), [Oper(op)])
  {
    RunConcat(s, tokens, [Oper(op)]);
  }

  /** An operator over two values that lie on the stack. */
  lemma OperatorRuns(op: Operator, left: Expr, right: Expr, kind: Type, x: Meaning, y: Meaning, stack: seq<real>)
    requires |stack| + 2 <= ARRAY_SIZE && x.Value? && y.Value?
    requires x == Eval(left, kind) && y == Eval(right, x.kind)
    ensures Agrees(Apply(State(stack + [x.v] + [y.v], y.kind), op), Eval(Bin(op, left, right), kind), stack)
  {
    var s := stack + [x.v] + [y.v];
    assert Top(s) == y.v && Popped(s) == stack + [x.v];
    assert Top(stack + [x.v]) == x.v && Popped(stack + [x.v]) == stack;
  }

  /** The token loop on a postfix expression: it pushes the value and leaves what was below
      untouched exactly when the expression has a value, is cut short exactly when an
      operator refuses, and nothing else happens. */
  lemma {:induction false} PostfixRuns(e: Expr, stack: seq<real>, kind: Type)
    requires |stack| + Need(e) <= ARRAY_SIZE
    ensures Agrees(Run(State(stack, kind), Postfix(e)), Eval(e, kind), stack)
    decreases e
  {
    var s := State(stack, kind);
    match e
    case Num(value, effect) =>
      assert Run(s, []) == Going(s);
    case Bin(op, left, right) =>
      RunOperator(s, Postfix(left) + Postfix(right), op);
      RunConcat(s, Postfix(left), Postfix(right));
      PostfixRuns(left, stack, kind);
      var x := Eval(left, kind);
      if x.Value? {
        PostfixRuns(right, stack + [x.v], x.kind);
        var y := Eval(right, x.kind);
        if y.Value? {
          OneOperator(State(stack + [x.v] + [y.v], y.kind), op);
          OperatorRuns(op, left, right, kind, x, y, stack);
        }
      }
  }

  lemma OneOperator(s: State, op: Operator)
    ensures Run(s, [Oper(op)]) == Apply(s, op)
  {
    assert Run(s, []) == Going(s);
  }

  /** A line that holds one expression shows its value if and only if it has one, and then
      the stack is as it was and the type is forgotten. */
  lemma LineShowsValue(e: Expr, s: State)
    requires |s.stack| + Need(e) <= ARRAY_SIZE
    ensures Eval(e, s.kind).Value? ==>
              && LineOutput(s, Postfix(e)) == Shown(Eval(e, s.kind).v)
              && LineResult(s, Postfix(e)) == Going(State(s.stack, INT))
    ensures !Eval(e, s.kind).Value? ==>
              LineOutput(s, Postfix(e)) == Nothing && !LineResult(s, Postfix(e)).Going?
  {
    PostfixRuns(e, s.stack, s.kind);
    var m := Eval(e, s.kind);
    if m.Value? {
      assert Popped(s.stack + [m.v]) == s.stack;
    }
  }

  function Lines(es: seq<Expr>): seq<seq<Token>> {
    seq(|es|, i requires 0 <= i < |es| => Postfix(es[i]))
  }

  /** Every expression has a value and fits the stack. */
  predicate AllHaveValues(es: seq<Expr>) {
    forall k :: 0 <= k < |es| ==> Need(es[k]) <= ARRAY_SIZE && Eval(es[k], INT).Value?
  }

  function AllShown(es: seq<Expr>): seq<Output>
    requires AllHaveValues(es)
  {
    seq(|es|, k requires 0 <= k < |es| => Shown(Eval(es[k], INT).v))
  }

  /** A session of such lines shows each line's own value: no line affects a later one. */
  lemma {:induction false} SessionShowsValues(es: seq<Expr>, i: nat)
    requires i <= |es| && AllHaveValues(es)
    ensures Session(State([], INT), Lines(es), i) == AllShown(es)[i..]
    decreases |es| - i
  {
    if i < |es| {
      LineShowsValue(es[i], State([], INT));
      SessionShowsValues(es, i + 1);
      assert AllShown(es)[i..] == [AllShown(es)[i]] + AllShown(es)[i + 1..];
    }
  }

  // ---------------------------------------------------------------- what a reset leaves

  /** A reset stops at a stored nought: what lies below the topmost one stays. */
  lemma {:induction false} ResetStopsAtZero(stack: seq<real>, k: nat)
    requires k < |stack| && stack[k] == 0.0
    requires forall j :: k < j < |stack| ==> stack[j] != 0.0
    ensures PoppedToZero(stack) == stack[..k]
    decreases |stack|
  {
    if k < |stack| - 1 {
      ResetStopsAtZero(Popped(stack), k);
      assert Popped(stack)[..k] == stack[..k];
    }
  }

  lemma {:induction false} ResetWithoutZero(stack: seq<real>)
    requires forall j :: 0 <= j < |stack| ==> stack[j] != 0.0
    ensures PoppedToZero(stack) == []
    decreases |stack|
  {
    if stack != [] {
      ResetWithoutZero(Popped(stack));
    }
  }

  /** The topmost nought, if there is one. */
  lemma {:induction false} TopmostZero(stack: seq<real>) returns (k: int)
    ensures -1 <= k < |stack|
    ensures k >= 0 ==> stack[k] == 0.0
    ensures forall j :: k < j < |stack| ==> stack[j] != 0.0
    decreases |stack|
  {
    if stack == [] {
      k := -1;
    } else if Top(stack) == 0.0 {
      k := |stack| - 1;
    } else {
      k := TopmostZero(Popped(stack));
      forall j | k < j < |stack|
        ensures stack[j] != 0.0
      {
        assert j < |stack| - 1 ==> stack[j] == Popped(stack)[j];
      }
    }
  }

  /** A reset empties the stack if and only if no nought is stored above its bottom slot. */
  lemma {:induction false} ResetEmptiesIff(stack: seq<real>)
    ensures PoppedToZero(stack) == [] <==> forall k :: 1 <= k < |stack| ==> stack[k] != 0.0
  {
    var k := TopmostZero(stack);
    if k < 0 {
      ResetWithoutZero(stack);
    } else {
      ResetStopsAtZero(stack, k);
    }
  }

  // ---------------------------------------------------------------- a type that outlives its line

  /** The operator is refused, and the line given up, in this state. */
  predicate Refuses(s: State, token: Token) {
    token.Oper? && ((token.op == DIV && Top(s.stack) == 0.0) || (token.op == REM && s.kind == DOUBLE))
  }

  /** Some token of the line is an operator refused on a line with a decimal point. */
  ghost predicate RefusedWhileDouble(s: State, tokens: seq<Token>) {
    exists i :: 0 <= i < |tokens| && RefusedAt(s, tokens, i)
  }

  predicate RefusedAt(s: State, tokens: seq<Token>, i: int)
    requires 0 <= i < |tokens|
  {
    var r := Run(s, tokens[..i]);
    r.Going? && r.s.kind == DOUBLE && Refuses(r.s, tokens[i])
  }

  lemma {:induction false} ResetAtSomeToken(s: State, tokens: seq<Token>) returns (i: nat)
    requires !Run(s, tokens).Going?
    ensures i < |tokens| && Run(s, tokens[..i]).Going?
    ensures Run(s, tokens) == Take(Run(s, tokens[..i]).s, tokens[i])
    decreases |tokens|
  {
    var n := |tokens| - 1;
    if Run(s, tokens[..n]).Going? {
      i := n;
    } else {
      i := ResetAtSomeToken(s, tokens[..n]);
      assert tokens[..n][..i] == tokens[..i];
    }
  }

  /** The next line starts with the type of this one exactly when an operator was refused
      on a line with a decimal point; otherwise it starts as INT. */
  lemma TypeOutlivesLine(s: State, tokens: seq<Token>)
    ensures var r := LineResult(s, tokens);
      r.Going? || r.Reset? ==> (r.s.kind == DOUBLE <==> RefusedWhileDouble(s, tokens))
  {
    var r := Run(s, tokens);
    if r.Reset? {
      var i := ResetAtSomeToken(s, tokens);
      if r.s.kind == DOUBLE {
        assert RefusedAt(s, tokens, i);
      }
    }
    if RefusedWhileDouble(s, tokens) {
      var i :| 0 <= i < |tokens| && RefusedAt(s, tokens, i);
      assert tokens[..i + 1][..i] == tokens[..i];
      RunStops(s, tokens, i + 1);
    }
  }

  predicate WholeNumbers(e: Expr) {
    match e
    case Num(_, effect) => effect == Keep
    case Bin(_, left, right) => WholeNumbers(left) && WholeNumbers(right)
  }

  predicate HasRemainder(e: Expr) {
    match e
    case Num(_, _) => false
    case Bin(op, left, right) => op == REM || HasRemainder(left) || HasRemainder(right)
  }

  lemma {:induction false} TypeOfWholeNumbers(e: Expr, kind: Type)
    requires WholeNumbers(e) && Eval(e, INT).Value?
    ensures kind == INT || !HasRemainder(e) ==> Eval(e, kind) == Value(Eval(e, INT).v, kind)
    ensures kind == DOUBLE && HasRemainder(e) ==> Eval(e, kind) == Refused(DOUBLE)
    decreases e
  {
    match e
    case Num(_, _) =>
    case Bin(op, left, right) =>
      TypeOfWholeNumbers(left, INT);
      TypeOfWholeNumbers(left, kind);
      TypeOfWholeNumbers(right, INT);
      TypeOfWholeNumbers(right, kind);
  }

  /** A line of whole numbers that has a value shows it if and only if it takes no remainder
      or the type left over from an earlier line is not DOUBLE. */
  lemma WholeLineShownIff(e: Expr, s: State)
    requires WholeNumbers(e) && Eval(e, INT).Value? && |s.stack| + Need(e) <= ARRAY_SIZE
    ensures LineOutput(s, Postfix(e)) == Shown(Eval(e, INT).v) <==> s.kind == INT || !HasRemainder(e)
  {
    TypeOfWholeNumbers(e, s.kind);
    LineShowsValue(e, s);
  }

  lemma {:induction false} ResetShrinks(stack: seq<real>)
    ensures |PoppedToZero(stack)| <= |stack|
    decreases |stack|
  {
    if Top(stack) != END_OF_STACK {
      ResetShrinks(Popped(stack));
    }
  }

  lemma {:induction false} RunGrowsByTokens(s: State, tokens: seq<Token>)
    ensures var r := Run(s, tokens);
      r.Going? || r.Reset? ==> |r.s.stack| <= |s.stack| + |tokens|
    decreases |tokens|
  {
    if tokens != [] {
      var r := Run(s, tokens[..|tokens| - 1]);
      RunGrowsByTokens(s, tokens[..|tokens| - 1]);
      if r.Going? {
        ResetShrinks(r.s.stack);
        ResetShrinks(Popped(r.s.stack));
      }
    }
  }

  /** `1.5 2 %`, then `5 3 %`: the second line is refused although no number in it has a
      point, and on its own it shows 2. */
  lemma RefusedAfterAnotherLine()
    ensures var e := Bin(REM, Num(5.0, Keep), Num(3.0, Keep));
      var bad := Postfix(Bin(REM, Num(1.5, Point), Num(2.0, Keep)));
      && Session(State([], INT), [Postfix(e)], 0) == [Shown(2.0)]
      && Session(State([], INT), [bad, Postfix(e)], 0) == [Nothing, Nothing]
  {
    var start := State([], INT);
    var e := Bin(REM, Num(5.0, Keep), Num(3.0, Keep));
    var d := Bin(REM, Num(1.5, Point), Num(2.0, Keep));
    var bad := Postfix(d);
    assert Truncate(5.0) == 5 && Truncate(3.0) == 3;
    assert Eval(e, INT) == Value(2.0, INT);
    LineShowsValue(e, start);
    assert Session(start, [Postfix(e)], 1) == [];
    assert Eval(d, INT) == Refused(DOUBLE);
    LineShowsValue(d, start);
    PostfixRuns(d, [], INT);
    var after := LineResult(start, bad);
    assert after.Reset? && after.s.kind == DOUBLE;
    RunGrowsByTokens(start, bad);
    TypeOfWholeNumbers(e, DOUBLE);
    LineShowsValue(e, after.s);
    PostfixRuns(e, after.s.stack, DOUBLE);
    var lines := [bad, Postfix(e)];
    assert Session(LineResult(after.s, Postfix(e)).s, lines, 2) == [];
    assert Session(after.s, lines, 1) == [Nothing];
  }
}
