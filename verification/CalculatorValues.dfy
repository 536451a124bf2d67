/**
 The numbers a line shows, said in arithmetic alone: without the calculator's own way of
 computing them.
 */
module CalculatorValues {
  import opened Calculator
  import opened CalculatorMeaning

  /** `n` is `x` without its fraction. */
  predicate IsWholePart(x: real, n: int) {
    if x >= 0.0 then n as real <= x < n as real + 1.0 else n as real - 1.0 < x <= n as real
  }

  predicate FitsInt32(n: int) {
    -2147483648 <= n <= 2147483647
  }

  /** The pairs of which C takes a remainder. */
  predicate HasRemainder32(a: int, b: int) {
    FitsInt32(a) && FitsInt32(b) && b != 0 && !(a == -2147483648 && b == -1)
  }

  /** What a division of `a` by `b` towards zero leaves. */
  ghost predicate IsRemainder(a: int, b: int, r: int) {
    && (if b > 0 then -b < r < b else b < r < -b)
    && (if a >= 0 then r >= 0 else r <= 0)
    && exists k: int :: a == k * b + r
  }

  /** `v` is a whole number, and the remainder of the whole parts. */
  ghost predicate IsRealRemainder(x: real, y: real, v: real) {
    && v.Floor as real == v
    && exists a, b :: IsWholePart(x, a) && IsWholePart(y, b) && HasRemainder32(a, b) && IsRemainder(a, b, v.Floor)
  }

  /** `v` is the result of an operator on `x` and, entered after it, `y`. */
  ghost predicate IsResult(op: Operator, x: real, y: real, v: real) {
    match op
    case ADD => v == x + y
    case SUB => v == x - y
    case MUL => v == x * y
    case DIV => y != 0.0 && v * y == x
    case REM => IsRealRemainder(x, y, v)
  }

  lemma WholePartIs(x: real, n: int)
    ensures IsWholePart(x, n) <==> n == Truncate(x)
  {
  }

  /** A multiple of `b` other than 0 is at least as far from 0 as `b`. */
  lemma MultipleIsFar(d: int, b: int)
    requires b != 0 && d != 0
    ensures if (b > 0) == (d > 0) then d * b >= (if b > 0 then b else -b) else d * b <= (if b > 0 then -b else b)
  {
    var e, f := if d > 0 then d else -d, if b > 0 then b else -b;
    assert e * f == (e - 1) * f + f;
    assert (e - 1) * f >= 0;
    assert d * b == if (b > 0) == (d > 0) then e * f else -(e * f);
  }

  lemma RemaindersAgree(b: int, k: int, m: int, r: int, q: int)
    requires b != 0 && k * b + r == m * b + q
    requires if b > 0 then -b < q - r < b else b < q - r < -b
    ensures r == q
  {
    assert (k - m) * b == k * b - m * b;
    if k != m {
      MultipleIsFar(k - m, b);
    }
  }

  lemma RemainderIs(a: int, b: int, r: int)
    requires b != 0
    ensures IsRemainder(a, b, r) <==> r == Remainder(a, b)
  {
    var q := Remainder(a, b);
    var m := if a >= 0 then a / b else -(-a / b);
    assert a == m * b + q;
    assert IsRemainder(a, b, q);
    if IsRemainder(a, b, r) {
      var k: int :| a == k * b + r;
      RemaindersAgree(b, k, m, r, q);
    }
  }

  lemma QuotientIs(x: real, y: real, v: real)
    requires y != 0.0
    ensures v * y == x <==> v == x / y
  {
  }

  lemma RealRemainderIs(x: real, y: real, v: real)
    ensures IsRealRemainder(x, y, v) <==> RemainderDefined(x, y) && v == Remainder(Truncate(x), Truncate(y)) as real
  {
    var a, b := Truncate(x), Truncate(y);
    WholePartIs(x, a);
    WholePartIs(y, b);
    if IsRealRemainder(x, y, v) {
      var a1, b1 :| IsWholePart(x, a1) && IsWholePart(y, b1) && HasRemainder32(a1, b1)
                 && IsRemainder(a1, b1, v.Floor);
      WholePartIs(x, a1);
      WholePartIs(y, b1);
      RemainderIs(a, b, v.Floor);
    }
    if RemainderDefined(x, y) {
      RemainderIs(a, b, Remainder(a, b));
    }
  }

  /** The calculator computes what the operator means, and refuses what has no result. */
  lemma ComputeIs(op: Operator, x: real, y: real, v: real)
    ensures IsResult(op, x, y, v) <==>
            && (op == DIV ==> y != 0.0)
            && (op == REM ==> RemainderDefined(x, y))
            && v == Compute(op, x, y)
  {
    if op == DIV && y != 0.0 {
      QuotientIs(x, y, v);
    }
    RealRemainderIs(x, y, v);
  }

  // ---------------------------------------------------------------- one operator

  /** The `k`-th number from the top, counting from 1; an empty stack has noughts. */
  function Operand(stack: seq<real>, k: nat): real
    requires k > 0
  {
    if k <= |stack| then stack[|stack| - k] else 0.0
  }

  /** What is left without the two operands. */
  function Below(stack: seq<real>): seq<real> {
    if |stack| >= 2 then stack[..|stack| - 2] else []
  }

  /** An operator puts its result in the place of its two operands if it has one, and a
      remainder only on a line that is not DOUBLE. */
  lemma OperatorMeans(stack: seq<real>, kind: Type, op: Operator, v: real)
    requires |stack| <= 256
    ensures Take(State(stack, kind), Oper(op)) == Going(State(Below(stack) + [v], kind))
      <==> IsResult(op, Operand(stack, 2), Operand(stack, 1), v) && !(op == REM && kind == DOUBLE)
    ensures var r, below := Take(State(stack, kind), Oper(op)), Below(stack);
      r.Going? ==> |r.s.stack| == |below| + 1 && r == Going(State(below + [r.s.stack[|below|]], kind))
  {
    var x, y := Operand(stack, 2), Operand(stack, 1);
    var below := Below(stack);
    ComputeIs(op, x, y, v);
    assert Top(stack) == y && Top(Popped(stack)) == x;
    assert Popped(Popped(stack)) == below;
    assert (below + [v])[|below|] == v;
    if (op == DIV ==> y != 0.0) && (op == REM ==> RemainderDefined(x, y)) {
      var w := Compute(op, x, y);
      assert Pushed(below, w) == below + [w];
      assert (below + [w])[|below|] == w;
    }
  }

  /** When an operator is refused, and what the reset leaves; `k` is the topmost nought below
      the right operand, or -1 if there is none. */
  lemma OperatorRefuses(stack: seq<real>, kind: Type, op: Operator, k: int)
    requires -1 <= k && (k >= 0 ==> k + 1 < |stack| && stack[k] == 0.0)
    requires forall j :: k < j < |stack| - 1 ==> stack[j] != 0.0
    ensures var r := Take(State(stack, kind), Oper(op));
      && (r.Reset? <==> (op == DIV && Operand(stack, 1) == 0.0) || (op == REM && kind == DOUBLE))
      && (r.Reset? ==> r.s == State(if k < 0 then [] else stack[..k], kind))
  {
    var rest := Popped(stack);
    if k < 0 {
      ResetWithoutZero(rest);
    } else {
      ResetStopsAtZero(rest, k);
      assert rest[..k] == stack[..k];
    }
  }

  /** The remainders C does not define. */
  lemma OperatorIsUndefined(stack: seq<real>, kind: Type, op: Operator, a: int, b: int)
    requires IsWholePart(Operand(stack, 2), a) && IsWholePart(Operand(stack, 1), b)
    ensures Take(State(stack, kind), Oper(op)) == Undefined <==> op == REM && kind == INT && !HasRemainder32(a, b)
  {
    WholePartIs(Operand(stack, 2), a);
    WholePartIs(Operand(stack, 1), b);
    assert Top(stack) == Operand(stack, 1) && Top(Popped(stack)) == Operand(stack, 2);
  }

  // ---------------------------------------------------------------- one operator on a line of its own

  /** The type of a line after two numbers. */
  predicate IsDouble(first: TypeEffect, second: TypeEffect) {
    second == Point || (second == Keep && first == Point)
  }

  /** The token after a line that has run so far. */
  lemma RunNext(s: State, tokens: seq<Token>, last: Token)
    requires Run(s, tokens).Going?
    ensures Run(s, tokens + [last]) == Take(Run(s, tokens).s, last)
  {
    assert (tokens + [last])[..|tokens|] == tokens;
  }

  /** A line that ends in an operator, when what comes before it left at most two numbers. */
  lemma LastOperator(tokens: seq<Token>, stack: seq<real>, kind: Type, op: Operator, v: real)
    requires Run(State([], INT), tokens) == Going(State(stack, kind)) && |stack| <= 2
    ensures LineOutput(State([], INT), tokens + [Oper(op)]) == Shown(v)
      <==> IsResult(op, Operand(stack, 2), Operand(stack, 1), v) && !(op == REM && kind == DOUBLE)
  {
    RunNext(State([], INT), tokens, Oper(op));
    OperatorMeans(stack, kind, op, v);
    assert Below(stack) == [];
    var r := Take(State(stack, kind), Oper(op));
    if r.Going? {
      assert r == Going(State([] + [r.s.stack[0]], kind));
      assert r.s.stack == [r.s.stack[0]];
    }
    assert [] + [v] == [v];
  }

  /** `x y op` shows exactly the result of the operator on `x` and `y`. */
  lemma TwoNumbers(x: real, f: TypeEffect, y: real, g: TypeEffect, op: Operator, v: real)
    ensures LineOutput(State([], INT), [Number(x, f), Number(y, g), Oper(op)]) == Shown(v)
      <==> IsResult(op, x, y, v) && !(op == REM && IsDouble(f, g))
  {
    var s := State([], INT);
    RunNext(s, [], Number(x, f));
    RunNext(s, [Number(x, f)], Number(y, g));
    assert [] + [Number(x, f)] == [Number(x, f)];
    assert [Number(x, f)] + [Number(y, g)] == [Number(x, f), Number(y, g)];
    assert [Number(x, f), Number(y, g)] + [Oper(op)] == [Number(x, f), Number(y, g), Oper(op)];
    LastOperator([Number(x, f), Number(y, g)], [x, y], if IsDouble(f, g) then DOUBLE else INT, op, v);
  }

  /** An operand that is not there is a nought: `y op` is `0 y op`. */
  lemma OneNumber(y: real, g: TypeEffect, op: Operator, v: real)
    ensures LineOutput(State([], INT), [Number(y, g), Oper(op)]) == Shown(v)
      <==> IsResult(op, 0.0, y, v) && !(op == REM && g == Point)
  {
    RunNext(State([], INT), [], Number(y, g));
    assert [] + [Number(y, g)] == [Number(y, g)];
    assert [Number(y, g)] + [Oper(op)] == [Number(y, g), Oper(op)];
    LastOperator([Number(y, g)], [y], if g == Point then DOUBLE else INT, op, v);
  }

  // ---------------------------------------------------------------- expressions

  /** `v` is the value of the expression. */
  ghost predicate Denotes(e: Expr, v: real) {
    match e
    case Num(value, _) => v == value
    case Bin(op, left, right) => exists x, y :: Denotes(left, x) && Denotes(right, y) && IsResult(op, x, y, v)
  }

  /** The type after the numbers of an expression: that of the last one that sets it. */
  function TypeAfter(e: Expr, kind: Type): Type {
    match e
    case Num(_, effect) => if effect == Point then DOUBLE else if effect == Malformed then INT else kind
    case Bin(_, left, right) => TypeAfter(right, TypeAfter(left, kind))
  }

  /** No remainder is taken while the line is DOUBLE. */
  predicate RemaindersAllowed(e: Expr, kind: Type) {
    match e
    case Num(_, _) => true
    case Bin(op, left, right) =>
      && RemaindersAllowed(left, kind)
      && RemaindersAllowed(right, TypeAfter(left, kind))
      && !(op == REM && TypeAfter(e, kind) == DOUBLE)
  }

  /** An operator over two expressions of which one value each is known. */
  lemma BinHasValue(op: Operator, left: Expr, right: Expr, kind: Type, x: real, y: real, v: real)
    requires Eval(left, kind) == Value(x, TypeAfter(left, kind))
    requires Eval(right, TypeAfter(left, kind)) == Value(y, TypeAfter(Bin(op, left, right), kind))
    ensures Eval(Bin(op, left, right), kind) == Value(v, TypeAfter(Bin(op, left, right), kind))
      <==> IsResult(op, x, y, v) && !(op == REM && TypeAfter(Bin(op, left, right), kind) == DOUBLE)
    ensures Eval(Bin(op, left, right), kind).Value? ==>
              Eval(Bin(op, left, right), kind).kind == TypeAfter(Bin(op, left, right), kind)
  {
    ComputeIs(op, x, y, v);
  }

  /** What evaluation finds is what the expression denotes. */
  lemma {:induction false} EvalIsDenoted(e: Expr, kind: Type)
    requires Eval(e, kind).Value?
    ensures Eval(e, kind).kind == TypeAfter(e, kind)
    ensures Denotes(e, Eval(e, kind).v) && RemaindersAllowed(e, kind)
    decreases e
  {
    match e
    case Num(_, _) =>
    case Bin(op, left, right) =>
      var l := TypeAfter(left, kind);
      EvalIsDenoted(left, kind);
      EvalIsDenoted(right, l);
      BinHasValue(op, left, right, kind, Eval(left, kind).v, Eval(right, l).v, Eval(e, kind).v);
  }

  /** An expression denotes no other value than evaluation finds. */
  lemma {:induction false} DenotedIsEval(e: Expr, kind: Type, v: real)
    requires Denotes(e, v) && RemaindersAllowed(e, kind)
    ensures Eval(e, kind) == Value(v, TypeAfter(e, kind))
    decreases e
  {
    match e
    case Num(_, _) =>
    case Bin(op, left, right) =>
      var x, y :| Denotes(left, x) && Denotes(right, y) && IsResult(op, x, y, v);
      DenotedIsEval(left, kind, x);
      DenotedIsEval(right, TypeAfter(left, kind), y);
      BinHasValue(op, left, right, kind, x, y, v);
  }

  /** A line that holds one expression shows the value it denotes, and nothing else. */
  lemma LineShowsDenoted(e: Expr, s: State, v: real)
    requires |s.stack| + Need(e) <= 256
    ensures LineOutput(s, Postfix(e)) == Shown(v) <==> Denotes(e, v) && RemaindersAllowed(e, s.kind)
  {
    LineShowsValue(e, s);
    if Eval(e, s.kind).Value? {
      EvalIsDenoted(e, s.kind);
    }
    if Denotes(e, v) && RemaindersAllowed(e, s.kind) {
      DenotedIsEval(e, s.kind, v);
    }
  }

  /** What the calculator prints for a list of expressions that have values. */
  lemma SessionShowsDenoted(es: seq<Expr>, vs: seq<real>)
    requires |es| == |vs|
    requires forall k :: 0 <= k < |es| ==>
               Need(es[k]) <= 256 && Denotes(es[k], vs[k]) && RemaindersAllowed(es[k], INT)
    ensures Session(State([], INT), Lines(es), 0) == seq(|vs|, k requires 0 <= k < |vs| => Shown(vs[k]))
  {
    forall k | 0 <= k < |es|
      ensures Eval(es[k], INT) == Value(vs[k], TypeAfter(es[k], INT))
    {
      DenotedIsEval(es[k], INT, vs[k]);
    }
    SessionShowsValues(es, 0);
  }

  // ---------------------------------------------------------------- the slots of the stack

  function Numbers(xs: seq<real>): seq<Token> {
    seq(|xs|, i requires 0 <= i < |xs| => Number(xs[i], Keep))
  }

  lemma {:induction false} NumbersFillTheStack(xs: seq<real>)
    ensures Run(State([], INT), Numbers(xs)) == Going(State(if |xs| <= 256 then xs else xs[..256], INT))
    decreases |xs|
  {
    if xs != [] {
      var init := xs[..|xs| - 1];
      NumbersFillTheStack(init);
      assert Numbers(xs)[..|xs| - 1] == Numbers(init);
      assert |xs| <= 256 ==> init + [xs[|xs| - 1]] == xs;
      assert |xs| > 256 ==> init[..256] == xs[..256] && (|xs| == 257 ==> init == xs[..256]);
    }
  }

  /** 256 numbers have room; those behind them are dropped, and the 256th is shown. */
  lemma ManyNumbers(xs: seq<real>)
    ensures LineOutput(State([], INT), Numbers(xs))
         == if xs == [] then Nothing else Shown(xs[if |xs| <= 256 then |xs| - 1 else 255])
  {
    NumbersFillTheStack(xs);
  }

  /** Numbers are read up to a token that is none and no operator, or that is out of range. */
  lemma CutShort(xs: seq<real>, bad: Token, rest: seq<Token>)
    requires bad == Invalid || bad == OutOfRange
    ensures Run(State([], INT), Numbers(xs) + [bad] + rest)
         == Take(State(if |xs| <= 256 then xs else xs[..256], INT), bad)
  {
    var tokens := Numbers(xs) + [bad] + rest;
    NumbersFillTheStack(xs);
    RunNext(State([], INT), Numbers(xs), bad);
    assert tokens[..|xs| + 1] == Numbers(xs) + [bad];
    RunStops(State([], INT), tokens, |xs| + 1);
  }

  /** A number out of range ends the program; any other bad token only its line. */
  lemma BadTokens(xs: seq<real>, bad: Token, rest: seq<Token>, x: real)
    requires bad == Invalid || bad == OutOfRange
    requires forall i :: 0 <= i < |xs| ==> xs[i] != 0.0
    ensures Session(State([], INT), [Numbers(xs) + [bad] + rest, Numbers([x])], 0)
         == if bad == OutOfRange then [Nothing] else [Nothing, Shown(x)]
  {
    var s, lines := State([], INT), [Numbers(xs) + [bad] + rest, Numbers([x])];
    CutShort(xs, bad, rest);
    if bad == Invalid {
      ResetWithoutZero(if |xs| <= 256 then xs else xs[..256]);
      assert LineResult(s, lines[0]) == Reset(s);
      ManyNumbers([x]);
      NumbersFillTheStack([x]);
      assert Session(LineResult(s, lines[1]).s, lines, 2) == [];
      assert Session(s, lines, 1) == [Shown(x)];
    }
  }
}
