/**
 The two programs that share a counter without a lock. Every thread runs the increment
 loop over the same variable; a load, the addition and a store are steps of their own, and
 any thread may take the next step.
 */
module Races {
  import opened Sums

  /** `reload` selects the program: a load in every iteration (true), or one load before
      the loop (false). */
  datatype Config = Config(threads: nat, iterations: nat, reload: bool)

  datatype Pc = Load | Add | Store

  datatype State = State(a: int, pcs: seq<Pc>, tmps: seq<int>, done: seq<int>)

  function Init(c: Config): State {
    State(0, seq(c.threads, _ => Load), seq(c.threads, _ => 0), seq(c.threads, _ => 0))
  }

  predicate Shaped(c: Config, s: State) {
    |s.pcs| == |s.tmps| == |s.done| == c.threads
  }

  predicate LoopHead(c: Config, pc: Pc) {
    pc == if c.reload then Load else Add
  }

  /** The thread has left its loop. */
  predicate Finished(c: Config, s: State, k: nat)
    requires Shaped(c, s) && k < c.threads
  {
    LoopHead(c, s.pcs[k]) && s.done[k] >= c.iterations
  }

  predicate AllFinished(c: Config, s: State)
    requires Shaped(c, s)
  {
    forall k: nat :: k < c.threads ==> Finished(c, s, k)
  }

  function Step(c: Config, s: State, k: nat): (t: State)
    requires Shaped(c, s) && k < c.threads
    ensures Shaped(c, t)
  {
    match s.pcs[k]
    case Load => s.(tmps := s.tmps[k := s.a], pcs := s.pcs[k := Add])
    case Add => s.(tmps := s.tmps[k := s.tmps[k] + 1], pcs := s.pcs[k := Store])
    case Store =>
      s.(a := s.tmps[k], done := s.done[k := s.done[k] + 1], pcs := s.pcs[k := if c.reload then Load else Add])
  }

  /** One unfinished thread takes one step. */
  ghost predicate Moves(c: Config, s: State, t: State) {
    Shaped(c, s) && exists k: nat :: k < c.threads && !Finished(c, s, k) && t == Step(c, s, k)
  }

  ghost predicate IsRun(c: Config, run: seq<State>) {
    && run != [] && Shaped(c, run[0])
    && forall i :: 0 < i < |run| ==> Moves(c, run[i - 1], run[i])
  }

  /** Some run takes `s` to `t`. */
  ghost predicate Leads(c: Config, s: State, t: State) {
    exists run: seq<State> :: IsRun(c, run) && run[0] == s && run[|run| - 1] == t
  }

  /** The value `v` is what one run of the whole program leaves in the counter. */
  ghost predicate PossibleResult(c: Config, v: int) {
    exists t: State :: Leads(c, Init(c), t) && Shaped(c, t) && AllFinished(c, t) && t.a == v
  }

  /** The least that can be left. */
  function Lowest(c: Config): nat {
    if c.threads == 0 then 0
    else if c.reload && c.threads > 1 && c.iterations > 2 then 2
    else c.iterations
  }

  // ---------------------------------------------------------------- every result is in the range

  /** The value a thread last loaded, or last stored when it loads only once. */
  function Base(s: State, k: nat): int
    requires k < |s.pcs| && k < |s.tmps|
  {
    if s.pcs[k] == Store then s.tmps[k] - 1 else s.tmps[k]
  }

  ghost predicate ThreadInv(c: Config, s: State, k: nat)
    requires Shaped(c, s) && k < c.threads
  {
    && 0 <= s.done[k] <= c.iterations
    && (s.pcs[k] == Store || (c.reload && s.pcs[k] == Add) ==> s.done[k] < c.iterations)
    && (s.pcs[k] == Load && !c.reload ==> s.done[k] == 0)
    && (s.done[k] > 0 ==> s.a >= 1)
    && (s.pcs[k] != Load ==>
          && 0 <= Base(s, k) <= Sum(s.done)
          && (s.done[k] > 0 ==> Base(s, k) >= 1)
          && (!c.reload || c.threads == 1 ==> Base(s, k) >= s.done[k]))
    && (c.threads == 1 ==> s.a >= s.done[k])
  }

  ghost predicate Inv(c: Config, s: State) {
    && Shaped(c, s)
    && 0 <= s.a <= Sum(s.done)
    && (forall k: nat :: k < c.threads ==> ThreadInv(c, s, k))
    && (AllFinished(c, s) ==> s.a >= Lowest(c))
  }

  lemma InitInv(c: Config)
    ensures Inv(c, Init(c))
  {
    SumBounds(Init(c).done, 0, 0);
    if c.threads > 0 && c.iterations > 0 {
      assert !Finished(c, Init(c), 0);
    }
  }

  lemma StepKeepsSum(c: Config, s: State, k: nat)
    requires Shaped(c, s) && k < c.threads
    ensures Sum(Step(c, s, k).done) == Sum(s.done) + if s.pcs[k] == Store then 1 else 0
  {
    SumUpdate(s.done, k, s.done[k] + 1);
  }

  lemma StepKeepsThread(c: Config, s: State, k: nat, j: nat)
    requires Inv(c, s) && k < c.threads && j < c.threads && !Finished(c, s, k)
    ensures ThreadInv(c, Step(c, s, k), j)
  {
    StepKeepsSum(c, s, k);
    assert ThreadInv(c, s, k) && ThreadInv(c, s, j);
  }

  lemma StepKeepsInv(c: Config, s: State, k: nat)
    requires Inv(c, s) && k < c.threads && !Finished(c, s, k)
    ensures Inv(c, Step(c, s, k))
  {
    var t := Step(c, s, k);
    StepKeepsSum(c, s, k);
    assert ThreadInv(c, s, k);
    forall j: nat | j < c.threads
      ensures ThreadInv(c, t, j)
    {
      StepKeepsThread(c, s, k, j);
    }
    assert AllFinished(c, t) ==> Finished(c, t, k);
  }

  lemma {:induction false} RunKeepsInv(c: Config, run: seq<State>, i: nat)
    requires IsRun(c, run) && Inv(c, run[0]) && i < |run|
    ensures Inv(c, run[i])
  {
    if i > 0 {
      RunKeepsInv(c, run, i - 1);
      assert Moves(c, run[i - 1], run[i]);
      var k: nat :| k < c.threads && !Finished(c, run[i - 1], k) && run[i] == Step(c, run[i - 1], k);
      StepKeepsInv(c, run[i - 1], k);
    }
  }

  lemma FinishedInRange(c: Config, s: State)
    requires Inv(c, s) && AllFinished(c, s)
    ensures Lowest(c) <= s.a <= c.threads * c.iterations
  {
    forall k | 0 <= k < |s.done|
      ensures 0 <= s.done[k] <= c.iterations
    {
      assert ThreadInv(c, s, k);
    }
    SumBounds(s.done, 0, c.iterations);
    assert c.threads * c.iterations == c.iterations * |s.done|;
  }

  /** The steps a thread has left. */
  function StepsLeft(c: Config, pc: Pc, done: int): int {
    3 * (c.iterations - done)
    + (if c.reload then (if pc == Load then 0 else if pc == Add then -1 else -2)
       else if pc == Load then 1 else if pc == Add then 0 else -1)
  }

  function Measure(c: Config, s: State): int
    requires Shaped(c, s)
  {
    Sum(seq(c.threads, k requires 0 <= k < c.threads => StepsLeft(c, s.pcs[k], s.done[k])))
  }

  lemma MeasureIsNatural(c: Config, s: State)
    requires Inv(c, s)
    ensures Measure(c, s) >= 0
  {
    var left := seq(c.threads, k requires 0 <= k < c.threads => StepsLeft(c, s.pcs[k], s.done[k]));
    forall k | 0 <= k < c.threads
      ensures 0 <= left[k] <= 3 * c.iterations + 1
    {
      assert ThreadInv(c, s, k);
    }
    SumBounds(left, 0, 3 * c.iterations + 1);
  }

  lemma StepMeasured(c: Config, s: State, k: nat)
    requires Shaped(c, s) && k < c.threads
    ensures Measure(c, Step(c, s, k)) < Measure(c, s)
  {
    var t := Step(c, s, k);
    var before := seq(c.threads, j requires 0 <= j < c.threads => StepsLeft(c, s.pcs[j], s.done[j]));
    var after := seq(c.threads, j requires 0 <= j < c.threads => StepsLeft(c, t.pcs[j], t.done[j]));
    assert after == before[k := after[k]];
    SumUpdate(before, k, after[k]);
  }

  /** No interleaving leaves less than the lowest result or more than all the increments. */
  lemma ResultsAreBounded(c: Config, v: int)
    requires PossibleResult(c, v)
    ensures Lowest(c) <= v <= c.threads * c.iterations
  {
    var t: State :| Leads(c, Init(c), t) && Shaped(c, t) && AllFinished(c, t) && t.a == v;
    var run :| IsRun(c, run) && run[0] == Init(c) && run[|run| - 1] == t;
    InitInv(c);
    RunKeepsInv(c, run, |run| - 1);
    FinishedInRange(c, t);
  }

  // ---------------------------------------------------------------- every value in the range is a result

  lemma LeadsNowhere(c: Config, s: State)
    requires Shaped(c, s)
    ensures Leads(c, s, s)
  {
    assert IsRun(c, [s]);
  }

  lemma LeadsOn(c: Config, s: State, t: State, u: State)
    requires Leads(c, s, t) && Leads(c, t, u)
    ensures Leads(c, s, u)
  {
    var first :| IsRun(c, first) && first[0] == s && first[|first| - 1] == t;
    var second :| IsRun(c, second) && second[0] == t && second[|second| - 1] == u;
    var run := first + second[1..];
    forall i | 0 < i < |run|
      ensures Moves(c, run[i - 1], run[i])
    {
      if i < |first| {
        assert Moves(c, first[i - 1], first[i]);
      } else {
        var j := i - |first| + 1;
        assert Moves(c, second[j - 1], second[j]);
        assert run[i] == second[j];
        assert run[i - 1] == if j == 1 then t else second[j - 1];
      }
    }
    assert run[|run| - 1] == u;
    assert IsRun(c, run);
  }

  /** One more step of thread `k`. */
  lemma LeadsStep(c: Config, s: State, t: State, k: nat)
    requires Shaped(c, t) && Leads(c, s, t) && k < c.threads && !Finished(c, t, k)
    ensures Leads(c, s, Step(c, t, k))
  {
    var u := Step(c, t, k);
    var run := [t, u];
    assert Moves(c, t, u);
    assert IsRun(c, run);
    LeadsOn(c, s, t, u);
  }

  /** At the loop head, with the counter as the thread last saw it if it loads only once. */
  predicate InStep(c: Config, s: State, k: nat)
    requires Shaped(c, s) && k < c.threads
  {
    || (s.pcs[k] == Load && (c.reload || s.done[k] == 0))
    || (s.pcs[k] == Add && !c.reload && s.tmps[k] == s.a)
  }

  predicate SameOthers(s: State, t: State, k: nat) {
    && |t.pcs| == |s.pcs| && |t.tmps| == |s.tmps| && |t.done| == |s.done|
    && (forall j :: 0 <= j < |s.pcs| && j != k ==> t.pcs[j] == s.pcs[j])
    && (forall j :: 0 <= j < |s.tmps| && j != k ==> t.tmps[j] == s.tmps[j])
    && (forall j :: 0 <= j < |s.done| && j != k ==> t.done[j] == s.done[j])
  }

  /** An undisturbed iteration adds one. */
  lemma OneIteration(c: Config, s: State, k: nat) returns (t: State)
    requires Shaped(c, s) && k < c.threads && InStep(c, s, k) && s.done[k] < c.iterations
    ensures Shaped(c, t) && Leads(c, s, t) && SameOthers(s, t, k)
    ensures t.a == s.a + 1 && t.done[k] == s.done[k] + 1 && InStep(c, t, k) && LoopHead(c, t.pcs[k])
  {
    t := s;
    LeadsNowhere(c, s);
    if t.pcs[k] == Load {
      LeadsStep(c, s, t, k);
      t := Step(c, t, k);
    }
    LeadsStep(c, s, t, k);
    t := Step(c, t, k);
    LeadsStep(c, s, t, k);
    t := Step(c, t, k);
  }

  /** `m` undisturbed iterations of one thread add `m`. */
  lemma {:induction false} Solo(c: Config, s: State, k: nat, m: nat) returns (t: State)
    requires Shaped(c, s) && k < c.threads && InStep(c, s, k) && s.done[k] + m <= c.iterations
    ensures Shaped(c, t) && Leads(c, s, t) && SameOthers(s, t, k)
    ensures t.a == s.a + m && t.done[k] == s.done[k] + m && InStep(c, t, k)
    ensures m > 0 ==> LoopHead(c, t.pcs[k])
    ensures m == 0 ==> t == s
    decreases m
  {
    if m == 0 {
      t := s;
      LeadsNowhere(c, s);
    } else {
      var t1 := OneIteration(c, s, k);
      t := Solo(c, t1, k, m - 1);
      LeadsOn(c, s, t1, t);
    }
  }

  /** Of the threads after the first, those before `p` have finished, those after `p`
      have not begun, and `p` is at its loop head with iterations left. */
  ghost predicate InTurn(c: Config, s: State, p: nat) {
    && Shaped(c, s) && 1 <= p <= c.threads
    && (forall j: nat :: 1 <= j < p ==> Finished(c, s, j))
    && (forall j: nat :: p < j < c.threads ==> s.pcs[j] == Load && s.done[j] == 0)
    && (p < c.threads ==> InStep(c, s, p) && 0 <= s.done[p] < c.iterations)
  }

  /** The iterations the threads after the first have still to do. */
  function Remaining(c: Config, s: State, p: nat): int
    requires Shaped(c, s) && p <= c.threads
  {
    (c.threads - p) * c.iterations - if p < c.threads then s.done[p] else 0
  }

  lemma TurnGoesOn(c: Config, s: State, t: State, p: nat, q: nat)
    requires InTurn(c, s, p) && p < c.threads && Shaped(c, t) && SameOthers(s, t, p)
    requires t.done[p] == s.done[p] + 1 && InStep(c, t, p) && LoopHead(c, t.pcs[p])
    requires q == if t.done[p] < c.iterations then p else p + 1
    ensures InTurn(c, t, q) && Remaining(c, t, q) == Remaining(c, s, p) - 1
  {
    forall j: nat | 1 <= j < q
      ensures Finished(c, t, j)
    {
      assert j != p ==> Finished(c, s, j);
    }
  }

  /** The threads after the first take turns for `m` iterations; the first stays as it is. */
  lemma {:induction false} TakeTurns(c: Config, s: State, p: nat, m: nat) returns (t: State, q: nat)
    requires InTurn(c, s, p) && m <= Remaining(c, s, p) && c.iterations > 0
    ensures InTurn(c, t, q) && Leads(c, s, t)
    ensures t.a == s.a + m && Remaining(c, t, q) == Remaining(c, s, p) - m
    ensures t.pcs[0] == s.pcs[0] && t.tmps[0] == s.tmps[0] && t.done[0] == s.done[0]
    decreases m
  {
    if m == 0 {
      t, q := s, p;
      LeadsNowhere(c, s);
    } else {
      assert p < c.threads;
      var t1 := OneIteration(c, s, p);
      var p1 := if t1.done[p] < c.iterations then p else p + 1;
      TurnGoesOn(c, s, t1, p, p1);
      t, q := TakeTurns(c, t1, p1, m - 1);
      LeadsOn(c, s, t1, t);
    }
  }

  lemma NothingRemains(c: Config, s: State, p: nat)
    requires InTurn(c, s, p) && Remaining(c, s, p) == 0
    ensures forall j: nat :: 1 <= j < c.threads ==> Finished(c, s, j)
  {
    if p < c.threads {
      ProductIsNatural(c.threads - p - 1, c.iterations);
    }
  }

  /** The first thread finishes after all others, from the value it loaded. */
  lemma FirstGoesLast(c: Config, s: State) returns (t: State)
    requires Shaped(c, s) && c.threads > 0 && s.pcs[0] == Add && 0 <= s.done[0] < c.iterations
    requires forall j: nat :: 1 <= j < c.threads ==> Finished(c, s, j)
    ensures Shaped(c, t) && Leads(c, s, t) && AllFinished(c, t)
    ensures t.a == s.tmps[0] + c.iterations - s.done[0]
  {
    LeadsNowhere(c, s);
    var t1 := Step(c, s, 0);
    LeadsStep(c, s, s, 0);
    var t2 := Step(c, t1, 0);
    LeadsStep(c, s, t1, 0);
    t := Solo(c, t2, 0, c.iterations - s.done[0] - 1);
    LeadsOn(c, s, t2, t);
    forall k: nat | k < c.threads
      ensures Finished(c, t, k)
    {
      if k > 0 {
        assert Finished(c, s, k);
      }
    }
  }

  lemma FirstLoads(c: Config, s: State, p: nat)
    requires InTurn(c, s, p) && s.pcs[0] == Load
    ensures InTurn(c, Step(c, s, 0), p)
  {
    var t := Step(c, s, 0);
    forall j: nat | 1 <= j < p
      ensures Finished(c, t, j)
    {
      assert Finished(c, s, j);
    }
  }

  /** The first thread loads when the others have counted to `b`, and then waits for them. */
  lemma LastFrom(c: Config, b: nat)
    requires c.threads > 0 && c.iterations > 0 && b <= (c.threads - 1) * c.iterations
    ensures PossibleResult(c, b + c.iterations)
  {
    var s := Init(c);
    var s1, p1 := TakeTurns(c, s, 1, b);
    LeadsStep(c, s, s1, 0);
    var s2 := Step(c, s1, 0);
    FirstLoads(c, s1, p1);
    var s3 := OthersFinish(c, s2, p1);
    LeadsOn(c, s, s2, s3);
    var t := FirstGoesLast(c, s3);
    LeadsOn(c, s, s3, t);
    assert t.a == b + c.iterations;
  }

  /** All threads after the first run to their end. */
  lemma OthersFinish(c: Config, s: State, p: nat) returns (t: State)
    requires InTurn(c, s, p) && c.iterations > 0
    ensures Shaped(c, t) && Leads(c, s, t)
    ensures t.pcs[0] == s.pcs[0] && t.tmps[0] == s.tmps[0] && t.done[0] == s.done[0]
    ensures forall j: nat :: 1 <= j < c.threads ==> Finished(c, t, j)
  {
    ProductIsNatural(c.threads - p, c.iterations);
    if p < c.threads {
      ProductIsNatural(c.threads - p - 1, c.iterations);
    }
    var q;
    t, q := TakeTurns(c, s, p, Remaining(c, s, p));
    NothingRemains(c, t, q);
  }

  /** The second thread loads nought; the first counts on; the second writes one over it,
      which the first loads. */
  lemma CountLost(c: Config, v: nat) returns (t: State)
    requires c.reload && c.threads > 1 && 2 <= v < c.iterations
    ensures InTurn(c, t, 1) && Leads(c, Init(c), t)
    ensures t.pcs[0] == Add && t.tmps[0] == 1 && t.done[0] == c.iterations - v + 1
  {
    var s := Init(c);
    LeadsNowhere(c, s);
    LeadsStep(c, s, s, 1);
    var s1 := Step(c, s, 1);
    var s2 := Solo(c, s1, 0, c.iterations - v + 1);
    LeadsOn(c, s, s1, s2);
    LeadsStep(c, s, s2, 1);
    var s3 := Step(c, s2, 1);
    LeadsStep(c, s, s3, 1);
    var s4 := Step(c, s3, 1);
    LeadsStep(c, s, s4, 0);
    t := Step(c, s4, 0);
  }

  lemma FewAreLeft(c: Config, v: nat)
    requires c.reload && c.threads > 1 && 2 <= v < c.iterations
    ensures PossibleResult(c, v)
  {
    var s := Init(c);
    var s1 := CountLost(c, v);
    var s2 := OthersFinish(c, s1, 1);
    LeadsOn(c, s, s1, s2);
    var t := FirstGoesLast(c, s2);
    LeadsOn(c, s, s2, t);
  }

  /** No iterations, or no threads: nothing is ever counted. */
  lemma {:induction false} NothingToCount(c: Config, s: State, k: nat)
    requires Shaped(c, s) && c.iterations == 0 && k <= c.threads && s.a == 0 && Leads(c, Init(c), s)
    requires forall j: nat :: j < k ==> Finished(c, s, j)
    requires forall j: nat :: k <= j < c.threads ==> s.pcs[j] == Load && s.done[j] == 0
    ensures PossibleResult(c, 0)
    decreases c.threads - k
  {
    if k == c.threads {
      assert AllFinished(c, s);
    } else if c.reload {
      NothingToCount(c, s, k + 1);
    } else {
      LeadsStep(c, Init(c), s, k);
      var t := Step(c, s, k);
      forall j: nat | j < k + 1
        ensures Finished(c, t, j)
      {
        assert j < k ==> Finished(c, s, j);
      }
      NothingToCount(c, t, k + 1);
    }
  }

  lemma InRangeIsPossible(c: Config, v: int)
    requires c.threads > 0 && c.iterations > 0
    requires Lowest(c) <= v <= c.threads * c.iterations
    ensures PossibleResult(c, v)
  {
    if v >= c.iterations {
      LastFrom(c, v - c.iterations);
    } else {
      FewAreLeft(c, v);
    }
  }

  /** What the program can print: exactly the values from the lowest to the number of all
      increments, for any number of threads and iterations. */
  lemma ResultsAreExactly(c: Config, v: int)
    ensures PossibleResult(c, v) <==> Lowest(c) <= v <= c.threads * c.iterations
  {
    if PossibleResult(c, v) {
      ResultsAreBounded(c, v);
    }
    if Lowest(c) <= v <= c.threads * c.iterations {
      if c.threads == 0 {
        LeadsNowhere(c, Init(c));
        assert AllFinished(c, Init(c));
      } else if c.iterations == 0 {
        LeadsNowhere(c, Init(c));
        NothingToCount(c, Init(c), 0);
      } else {
        InRangeIsPossible(c, v);
      }
    }
  }
}
