/**
 The calculator in reverse Polish notation: a stack of 256 numbers and the loop over the
 tokens of a line. Numbers are exact.
 */
module Calculator {

  const ARRAY_SIZE := 256
  const END_OF_STACK := 0.0

  datatype Type = INT | DOUBLE

  /** What reading a number does to the line's type: a decimal point makes it DOUBLE; a
      character that belongs to no number makes it INT, and the number still counts. */
  datatype TypeEffect = Keep | Point | Malformed

  datatype Operator = ADD | MUL | SUB | DIV | REM

  datatype Token =
    | Number(value: real, effect: TypeEffect)
    | Oper(op: Operator)
    | Invalid      // neither a number nor an operator, and the newline on its own
    | OutOfRange   // a number `strtod` refuses

  datatype State = State(stack: seq<real>, kind: Type)

  datatype Result =
    | Going(s: State)
    | Reset(s: State)     // the rest of the line is skipped
    | Fatal               // the program leaves
    | Undefined           // the C expression of a remainder has no defined value

  // ---------------------------------------------------------------- arithmetic

  const INT_LIMIT := 0x8000_0000

  /** Conversion to `int` drops the fraction. */
  function Truncate(x: real): int {
    if x >= 0.0 then x.Floor else -(-x).Floor
  }

  predicate FitsInt(n: int) {
    -INT_LIMIT <= n < INT_LIMIT
  }

  predicate RemainderDefined(x: real, y: real) {
    && FitsInt(Truncate(x)) && FitsInt(Truncate(y)) && Truncate(y) != 0
    && !(Truncate(x) == -INT_LIMIT && Truncate(y) == -1)
  }

  /** The remainder takes the sign of the dividend. */
  function Remainder(a: int, b: int): int
    requires b != 0
  {
    if a >= 0 then a % b else -(-a % b)
  }

  function Compute(op: Operator, x: real, y: real): real
    requires op == DIV ==> y != 0.0
    requires op == REM ==> RemainderDefined(x, y)
  {
    match op
    case ADD => x + y
    case MUL => x * y
    case SUB => x - y
    case DIV => x / y
    case REM => Remainder(Truncate(x), Truncate(y)) as real
  }

  // ---------------------------------------------------------------- the stack

  function Pushed(stack: seq<real>, x: real): seq<real> {
    if |stack| >= ARRAY_SIZE then stack else stack + [x]
  }

  function Top(stack: seq<real>): real {
    if stack == [] then END_OF_STACK else stack[|stack| - 1]
  }

  function Popped(stack: seq<real>): seq<real> {
    if stack == [] then [] else stack[..|stack| - 1]
  }

  /** `while (pop() != EOS)`. */
  function PoppedToZero(stack: seq<real>): seq<real> {
    if Top(stack) != END_OF_STACK then PoppedToZero(Popped(stack)) else Popped(stack)
  }

  class Stack {
    const data: array<real>
    var idx: nat

    ghost predicate Valid()
      reads this
    {
      data.Length == ARRAY_SIZE && idx <= ARRAY_SIZE
    }

    ghost function Contents(): (s: seq<real>)
      reads this, data
      requires Valid()
    {
      data[..idx]
    }

    constructor ()
      ensures Valid() && Contents() == [] && fresh(data)
    {
      data := new real[ARRAY_SIZE](_ => 0.0);
      idx := 0;
    }

    method Push(item: real)
      requires Valid()
      modifies this`idx, data
      ensures Valid()
      ensures Contents() == Pushed(old(Contents()), item)
    {
      if idx >= ARRAY_SIZE {
        return;
      }
      data[idx] := item;
      idx := idx + 1;
    }

    method Pop() returns (item: real)
      requires Valid()
      modifies this`idx
      ensures Valid()
      ensures item == Top(old(Contents())) && Contents() == Popped(old(Contents()))
    {
      if idx == 0 {
        return END_OF_STACK;
      }
      idx := idx - 1;
      item := data[idx];
      assert Contents() == Popped(old(Contents()));
    }

    method PopToZero()
      requires Valid()
      modifies this`idx
      ensures Valid()
      ensures Contents() == PoppedToZero(old(Contents()))
    {
      var item := Pop();
      while item != END_OF_STACK
        invariant Valid()
        invariant PoppedToZero(old(Contents()))
               == if item != END_OF_STACK then PoppedToZero(Contents()) else Contents()
        decreases item != END_OF_STACK, idx
      {
        item := Pop();
      }
    }
  }

  // ---------------------------------------------------------------- one line

  function AfterNumber(effect: TypeEffect, kind: Type): Type {
    match effect
    case Keep => kind
    case Point => DOUBLE
    case Malformed => INT
  }

  function Apply(s: State, op: Operator): Result {
    var y := Top(s.stack);
    var rest := Popped(s.stack);
    if (op == DIV && y == 0.0) || (op == REM && s.kind == DOUBLE) then Reset(s.(stack := PoppedToZero(rest)))
    else
      var x := Top(rest);
      if op == REM && !RemainderDefined(x, y) then Undefined
      else Going(s.(stack := Pushed(Popped(rest), Compute(op, x, y))))
  }

  function Take(s: State, token: Token): Result {
    match token
    case Number(value, effect) => Going(State(Pushed(s.stack, value), AfterNumber(effect, s.kind)))
    case Oper(op) => Apply(s, op)
    case Invalid => Reset(State(PoppedToZero(s.stack), INT))
    case OutOfRange => Fatal
  }

  /** The token loop. */
  function Run(s: State, tokens: seq<Token>): Result {
    if tokens == [] then Going(s)
    else
      var r := Run(s, tokens[..|tokens| - 1]);
      if r.Going? then Take(r.s, tokens[|tokens| - 1]) else r
  }

  datatype Output = Shown(value: real) | Nothing

  /** What a whole line leaves: one that was not cut short takes the top off the stack and
      forgets its type. */
  function LineResult(s: State, tokens: seq<Token>): Result {
    var r := Run(s, tokens);
    if r.Going? then Going(State(Popped(r.s.stack), INT)) else r
  }

  /** What a whole line prints: the top of the stack, if there is one and it was not cut short. */
  function LineOutput(s: State, tokens: seq<Token>): Output {
    var r := Run(s, tokens);
    if r.Going? && r.s.stack != [] then Shown(Top(r.s.stack)) else Nothing
  }

  lemma {:induction false} RunStops(s: State, tokens: seq<Token>, i: nat)
    requires i <= |tokens| && !Run(s, tokens[..i]).Going?
    ensures Run(s, tokens) == Run(s, tokens[..i])
    decreases |tokens| - i
  {
    if i == |tokens| {
      assert tokens[..i] == tokens;
    } else {
      assert tokens[..i + 1][..i] == tokens[..i];
      RunStops(s, tokens, i + 1);
    }
  }

  /** Where control goes after a token, or after a line. */
  datatype Flow = NextToken | TryAgain | Leave | Crash

  function FlowOf(r: Result): Flow {
    match r
    case Going(_) => NextToken
    case Reset(_) => TryAgain
    case Fatal => Leave
    case Undefined => Crash
  }

  /** The operator cases of the switch. */
  method Operate(stack: Stack, kind: Type, op: Operator) returns (flow: Flow)
    requires stack.Valid()
    modifies stack, stack.data
    ensures stack.Valid()
    ensures var r := Apply(State(old(stack.Contents()), kind), op);
      && flow == FlowOf(r)
      && (r.Going? || r.Reset? ==> r.s == State(stack.Contents(), kind))
  {
    if op == ADD || op == MUL {
      var val1 := stack.Pop();
      var val2 := stack.Pop();
      var val := if op == ADD then val1 + val2 else val1 * val2;
      assert val == Compute(op, val2, val1);
      stack.Push(val);
    } else {
      var val2 := stack.Pop();
      if op == DIV && val2 == 0.0 {
        stack.PopToZero();
        return TryAgain;
      } else if op == REM && kind == DOUBLE {
        stack.PopToZero();
        return TryAgain;
      }
      var val1 := stack.Pop();
      if op == REM && !RemainderDefined(val1, val2) {
        return Crash;
      }
      stack.Push(if op == SUB then val1 - val2 else if op == DIV then val1 / val2
                 else Remainder(Truncate(val1), Truncate(val2)) as real);
    }
    return NextToken;
  }

  /** The token loop over one line, then the printing of its result. */
  method CalculateLine(stack: Stack, kind0: Type, tokens: seq<Token>)
    returns (kind: Type, flow: Flow, output: Output)
    requires stack.Valid()
    modifies stack, stack.data
    ensures stack.Valid()
    ensures output == LineOutput(State(old(stack.Contents()), kind0), tokens)
    ensures var r := LineResult(State(old(stack.Contents()), kind0), tokens);
      && flow == FlowOf(r)
      && (r.Going? || r.Reset? ==> r.s == State(stack.Contents(), kind))
  {
    kind, output := kind0, Nothing;
    ghost var s := State(stack.Contents(), kind0);
    for i := 0 to |tokens|
      invariant stack.Valid()
      invariant Run(s, tokens[..i]) == Going(State(stack.Contents(), kind))
    {
      assert tokens[..i + 1][..i] == tokens[..i];
      flow := NextToken;
      match tokens[i] {
        case Number(value, effect) =>
          stack.Push(value);
          kind := AfterNumber(effect, kind);
        case Oper(op) =>
          flow := Operate(stack, kind, op);
        case Invalid =>
          kind := INT;
          stack.PopToZero();
          flow := TryAgain;
        case OutOfRange =>
          flow := Leave;
      }
      if flow != NextToken {
        RunStops(s, tokens, i + 1);
        return;
      }
    }
    assert tokens[..|tokens|] == tokens;
    if stack.idx > 0 {
      var val := stack.Pop();
      output := Shown(val);
    }
    kind, flow := INT, NextToken;
  }

  /** What the lines from the `i`th on print, line by line, up to where the program leaves. */
  function Session(s: State, lines: seq<seq<Token>>, i: nat): seq<Output>
    requires i <= |lines|
    decreases |lines| - i
  {
    if i == |lines| then []
    else
      var r := LineResult(s, lines[i]);
      [LineOutput(s, lines[i])] + if r.Going? || r.Reset? then Session(r.s, lines, i + 1) else []
  }

  /** The shown part and the rest of a session, at one line. */
  lemma OneLine(shown: seq<Output>, s: State, lines: seq<seq<Token>>, i: nat)
    requires i < |lines|
    ensures var r, more := LineResult(s, lines[i]), shown + [LineOutput(s, lines[i])];
      shown + Session(s, lines, i) == if r.Going? || r.Reset? then more + Session(r.s, lines, i + 1) else more
  {
  }

  method Calculator(lines: seq<seq<Token>>) returns (outputs: seq<Output>)
    ensures outputs == Session(State([], INT), lines, 0)
  {
    var stack := new Stack();
    var kind := INT;
    outputs := [];
    ghost var s := State([], INT);
    for i := 0 to |lines|
      invariant stack.Valid() && fresh(stack) && fresh(stack.data)
      invariant s == State(stack.Contents(), kind)
      invariant outputs + Session(s, lines, i) == Session(State([], INT), lines, 0)
    {
      var flow, output;
      kind, flow, output := CalculateLine(stack, kind, lines[i]);
      OneLine(outputs, s, lines, i);
      outputs := outputs + [output];
      if flow != NextToken && flow != TryAgain {
        return;
      }
      s := LineResult(s, lines[i]).s;
    }
  }
}
