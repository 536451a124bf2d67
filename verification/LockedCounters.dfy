/**
 The three programs that share a counter under a mutex: a lock around every increment, one
 lock around the whole loop, and a private count merged under the lock. The increment of
 the shared variable is a load and a store. All three refine one counter whose additions
 are indivisible.
 */
module LockedCounters {
  import opened Sums

  datatype Style = FineGrained | CoarseGrained | LocalAccumulation

  datatype Config = Config(threads: nat, iterations: nat, style: Style)

  datatype Owner = Free | Held(id: nat)

  datatype Pc =
    | Count    // about to test the loop that counts privately
    | Lock     // about to lock
    | Test     // holding the mutex, about to test the loop
    | Load     // about to read the shared counter
    | Store    // about to write it
    | Unlock
    | Done

  /** `loops[k]` is the loop variable of thread `k`, `tmps[k]` its private count and
      `loaded[k]` what it last read. */
  datatype State = State(a: int, mutex: Owner, pcs: seq<Pc>, loops: seq<int>, tmps: seq<int>, loaded: seq<int>)

  predicate Shaped(c: Config, s: State) {
    |s.pcs| == |s.loops| == |s.tmps| == |s.loaded| == c.threads
  }

  function Start(c: Config): Pc {
    match c.style
    case FineGrained => if c.iterations == 0 then Done else Lock
    case CoarseGrained => Lock
    case LocalAccumulation => Count
  }

  function Init(c: Config): State {
    State(0, Free, seq(c.threads, _ => Start(c)), seq(c.threads, _ => 0), seq(c.threads, _ => 0), seq(c.threads, _ => 0))
  }

  predicate Enabled(c: Config, s: State, k: nat)
    requires Shaped(c, s)
  {
    k < c.threads && s.pcs[k] != Done && (s.pcs[k] == Lock ==> s.mutex == Free)
  }

  /** What one store adds. */
  function Addend(c: Config, tmp: int): int {
    if c.style == LocalAccumulation then tmp else 1
  }

  function AfterLock(c: Config): Pc {
    if c.style == CoarseGrained then Test else Load
  }

  function AfterStore(c: Config): Pc {
    if c.style == CoarseGrained then Test else Unlock
  }

  function AfterUnlock(c: Config, i: int): Pc {
    if c.style == FineGrained && i < c.iterations then Lock else Done
  }

  function Step(c: Config, s: State, k: nat): (t: State)
    requires Shaped(c, s) && Enabled(c, s, k)
    ensures Shaped(c, t)
  {
    var i := s.loops[k];
    match s.pcs[k]
    case Count =>
      if i < c.iterations then s.(tmps := s.tmps[k := s.tmps[k] + 1], loops := s.loops[k := i + 1])
      else s.(pcs := s.pcs[k := Lock])
    case Lock => s.(mutex := Held(k), pcs := s.pcs[k := AfterLock(c)])
    case Test => s.(pcs := s.pcs[k := if i < c.iterations then Load else Unlock])
    case Load => s.(loaded := s.loaded[k := s.a], pcs := s.pcs[k := Store])
    case Store =>
      s.(a := s.loaded[k] + Addend(c, s.tmps[k]),
         loops := if c.style == LocalAccumulation then s.loops else s.loops[k := i + 1],
         pcs := s.pcs[k := AfterStore(c)])
    case Unlock => s.(mutex := Free, pcs := s.pcs[k := AfterUnlock(c, i)])
  }

  ghost predicate Moves(c: Config, s: State, t: State) {
    Shaped(c, s) && exists k: nat :: Enabled(c, s, k) && t == Step(c, s, k)
  }

  ghost predicate IsRun(c: Config, run: seq<State>) {
    && run != [] && run[0] == Init(c)
    && forall i :: 0 < i < |run| ==> Moves(c, run[i - 1], run[i])
  }

  // ---------------------------------------------------------------- the indivisible counter

  datatype Atomic = Atomic(a: int, added: seq<int>)

  function AtomicInit(c: Config): Atomic {
    Atomic(0, seq(c.threads, _ => 0))
  }

  /** Thread `k` adds `d` in one step; no thread adds more than its iterations. */
  ghost predicate Adds(c: Config, x: Atomic, y: Atomic, k: nat, d: int) {
    && |x.added| == c.threads && k < c.threads && d >= 0
    && x.added[k] + d <= c.iterations
    && y == Atomic(x.a + d, x.added[k := x.added[k] + d])
  }

  ghost predicate AtomicMoves(c: Config, x: Atomic, y: Atomic) {
    x == y || exists k: nat, d: int :: Adds(c, x, y, k, d)
  }

  ghost predicate IsAtomicRun(c: Config, run: seq<Atomic>) {
    && run != [] && run[0] == AtomicInit(c)
    && forall i :: 0 < i < |run| ==> AtomicMoves(c, run[i - 1], run[i])
  }

  ghost predicate AtomicInv(c: Config, x: Atomic) {
    && |x.added| == c.threads && x.a == Sum(x.added)
    && forall k :: 0 <= k < c.threads ==> 0 <= x.added[k] <= c.iterations
  }

  lemma {:induction false} AtomicRunKeepsInv(c: Config, run: seq<Atomic>, i: nat)
    requires IsAtomicRun(c, run) && i < |run|
    ensures AtomicInv(c, run[i])
  {
    if i == 0 {
      SumBounds(run[0].added, 0, 0);
    } else {
      AtomicRunKeepsInv(c, run, i - 1);
      var x, y := run[i - 1], run[i];
      assert AtomicMoves(c, x, y);
      if x != y {
        var k: nat, d: int :| Adds(c, x, y, k, d);
        SumUpdate(x.added, k, x.added[k] + d);
      }
    }
  }

  // ---------------------------------------------------------------- the invariant of the programs

  predicate Holds(pc: Pc) {
    pc in {Test, Load, Store, Unlock}
  }

  /** How much of the counter thread `k` has contributed. */
  function Added(c: Config, pc: Pc, i: int): int {
    if c.style != LocalAccumulation then i
    else if pc == Unlock || pc == Done then c.iterations else 0
  }

  ghost predicate ThreadInv(c: Config, s: State, k: nat)
    requires Shaped(c, s) && k < c.threads
  {
    var pc, i := s.pcs[k], s.loops[k];
    && 0 <= i <= c.iterations
    && (Holds(pc) <==> s.mutex == Held(k))
    && (pc == Store ==> s.loaded[k] == s.a)
    && (match c.style
        case FineGrained =>
          pc in {Lock, Load, Store, Unlock, Done} && (pc == Done ==> i == c.iterations)
          && (pc in {Lock, Load, Store} ==> i < c.iterations)
        case CoarseGrained =>
          pc in {Lock, Test, Load, Store, Unlock, Done} && (pc in {Unlock, Done} ==> i == c.iterations)
          && (pc in {Load, Store} ==> i < c.iterations)
        case LocalAccumulation =>
          pc in {Count, Lock, Load, Store, Unlock, Done} && s.tmps[k] == i
          && (pc != Count ==> i == c.iterations))
  }

  ghost predicate Inv(c: Config, s: State) {
    && Shaped(c, s)
    && (s.mutex.Held? ==> s.mutex.id < c.threads)
    && forall k: nat :: k < c.threads ==> ThreadInv(c, s, k)
  }

  lemma StepKeepsInv(c: Config, s: State, k: nat)
    requires Inv(c, s) && Enabled(c, s, k)
    ensures Inv(c, Step(c, s, k))
  {
    var t := Step(c, s, k);
    forall j: nat | j < c.threads
      ensures ThreadInv(c, t, j)
    {
      StepKeepsThread(c, s, k, j);
    }
  }

  lemma StepKeepsThread(c: Config, s: State, k: nat, j: nat)
    requires Inv(c, s) && Enabled(c, s, k) && j < c.threads
    ensures ThreadInv(c, Step(c, s, k), j)
  {
    assert ThreadInv(c, s, k) && ThreadInv(c, s, j);
  }

  lemma {:induction false} RunKeepsInv(c: Config, run: seq<State>, i: nat)
    requires IsRun(c, run) && i < |run|
    ensures Inv(c, run[i])
  {
    if i > 0 {
      RunKeepsInv(c, run, i - 1);
      assert Moves(c, run[i - 1], run[i]);
      var k: nat :| Enabled(c, run[i - 1], k) && run[i] == Step(c, run[i - 1], k);
      StepKeepsInv(c, run[i - 1], k);
    }
  }

  // ---------------------------------------------------------------- refinement

  function Abs(c: Config, s: State): (x: Atomic)
    requires Shaped(c, s)
    ensures |x.added| == c.threads
  {
    Atomic(s.a, seq(c.threads, k requires 0 <= k < c.threads => Added(c, s.pcs[k], s.loops[k])))
  }

  /** A store under the lock is one indivisible addition; every other step changes nothing. */
  lemma StepRefines(c: Config, s: State, k: nat)
    requires Inv(c, s) && Enabled(c, s, k)
    ensures var x, y := Abs(c, s), Abs(c, Step(c, s, k));
      if s.pcs[k] == Store then Adds(c, x, y, k, Addend(c, s.tmps[k])) else x == y
  {
    assert ThreadInv(c, s, k);
    var x, y := Abs(c, s), Abs(c, Step(c, s, k));
    if s.pcs[k] == Store {
      assert y.added == x.added[k := x.added[k] + Addend(c, s.tmps[k])];
    } else {
      assert x.added == y.added;
    }
  }

  /** Every run of each of the three programs is a run of the indivisible counter. */
  lemma RunRefines(c: Config, run: seq<State>)
    requires IsRun(c, run)
    ensures forall i :: 0 <= i < |run| ==> Shaped(c, run[i])
    ensures IsAtomicRun(c, seq(|run|, i requires 0 <= i < |run| && Shaped(c, run[i]) => Abs(c, run[i])))
  {
    forall i | 0 <= i < |run|
      ensures Inv(c, run[i])
    {
      RunKeepsInv(c, run, i);
    }
    var xs := seq(|run|, i requires 0 <= i < |run| && Shaped(c, run[i]) => Abs(c, run[i]));
    assert xs[0] == AtomicInit(c) by {
      assert xs[0].added == AtomicInit(c).added;
    }
    forall i | 0 < i < |xs|
      ensures AtomicMoves(c, xs[i - 1], xs[i])
    {
      assert Moves(c, run[i - 1], run[i]);
      var k: nat :| Enabled(c, run[i - 1], k) && run[i] == Step(c, run[i - 1], k);
      StepRefines(c, run[i - 1], k);
      assert ThreadInv(c, run[i - 1], k);
    }
  }

  // ---------------------------------------------------------------- what the programs print

  predicate AllDone(s: State) {
    forall k :: 0 <= k < |s.pcs| ==> s.pcs[k] == Done
  }

  lemma InitInv(c: Config)
    ensures Inv(c, Init(c)) && AtomicInv(c, Abs(c, Init(c)))
  {
    assert Abs(c, Init(c)).added == seq(c.threads, _ => 0);
    SumBounds(Abs(c, Init(c)).added, 0, 0);
  }

  lemma StepKeepsAtomicInv(c: Config, s: State, k: nat)
    requires Inv(c, s) && Enabled(c, s, k) && AtomicInv(c, Abs(c, s))
    ensures AtomicInv(c, Abs(c, Step(c, s, k)))
  {
    StepRefines(c, s, k);
    if s.pcs[k] == Store {
      var x := Abs(c, s);
      SumUpdate(x.added, k, x.added[k] + Addend(c, s.tmps[k]));
    }
  }

  lemma DoneCountsAll(c: Config, s: State)
    requires Inv(c, s) && AtomicInv(c, Abs(c, s)) && AllDone(s)
    ensures s.a == c.threads * c.iterations
  {
    forall k | 0 <= k < c.threads
      ensures Abs(c, s).added[k] == c.iterations
    {
      assert ThreadInv(c, s, k);
    }
    SumBounds(Abs(c, s).added, c.iterations, c.iterations);
  }

  lemma NothingIsLost(c: Config, run: seq<State>)
    requires IsRun(c, run)
    ensures var s := run[|run| - 1];
      && Shaped(c, s)
      && s.a == Sum(Abs(c, s).added)
      && (AllDone(s) ==> s.a == c.threads * c.iterations)
  {
    RunRefines(c, run);
    var s := run[|run| - 1];
    var xs := seq(|run|, i requires 0 <= i < |run| && Shaped(c, run[i]) => Abs(c, run[i]));
    AtomicRunKeepsInv(c, xs, |run| - 1);
    RunKeepsInv(c, run, |run| - 1);
    if AllDone(s) {
      DoneCountsAll(c, s);
    }
  }

  /** While somebody is not done, somebody can go on. */
  lemma SomeThreadCanStep(c: Config, s: State)
    requires Inv(c, s) && !AllDone(s)
    ensures exists k: nat :: k < c.threads && Enabled(c, s, k)
  {
    var k: nat :| k < c.threads && s.pcs[k] != Done;
    if !Enabled(c, s, k) {
      assert ThreadInv(c, s, s.mutex.id);
      assert Enabled(c, s, s.mutex.id);
    }
  }

  /** No two threads are between lock and unlock, and no reachable state is stuck. */
  lemma OneAtATime(c: Config, run: seq<State>)
    requires IsRun(c, run)
    ensures var s := run[|run| - 1];
      && Shaped(c, s)
      && (forall i, j :: 0 <= i < c.threads && 0 <= j < c.threads && Holds(s.pcs[i]) && Holds(s.pcs[j]) ==> i == j)
      && (AllDone(s) <==> !exists k: nat :: Enabled(c, s, k))
  {
    var s := run[|run| - 1];
    RunKeepsInv(c, run, |run| - 1);
    forall i, j | 0 <= i < c.threads && 0 <= j < c.threads && Holds(s.pcs[i]) && Holds(s.pcs[j])
      ensures i == j
    {
      assert ThreadInv(c, s, i) && ThreadInv(c, s, j);
    }
    if !AllDone(s) {
      SomeThreadCanStep(c, s);
    }
  }

  // ---------------------------------------------------------------- what tells the programs apart

  /** How often the mutex is taken in the first `n` steps of a run. */
  ghost function LocksIn(run: seq<State>, n: nat): nat
    requires n < |run|
  {
    if n == 0 then 0 else LocksIn(run, n - 1) + (if run[n - 1].mutex == Free && run[n].mutex != Free then 1 else 0)
  }

  /** How often thread `k` has taken it, to judge by where it is. */
  function Taken(c: Config, pc: Pc, i: int): int {
    if c.style == FineGrained then (if pc == Load || pc == Store then i + 1 else i)
    else if pc == Count || pc == Lock then 0 else 1
  }

  function TakenBy(c: Config, s: State): seq<int>
    requires Shaped(c, s)
  {
    seq(c.threads, k requires 0 <= k < c.threads => Taken(c, s.pcs[k], s.loops[k]))
  }

  lemma StepTakes(c: Config, s: State, k: nat)
    requires Inv(c, s) && Enabled(c, s, k)
    ensures var t := Step(c, s, k);
      Sum(TakenBy(c, t)) == Sum(TakenBy(c, s)) + (if s.mutex == Free && t.mutex != Free then 1 else 0)
  {
    assert ThreadInv(c, s, k);
    var t := Step(c, s, k);
    var before, after := TakenBy(c, s), TakenBy(c, t);
    assert after == before[k := after[k]];
    SumUpdate(before, k, after[k]);
  }

  lemma {:induction false} RunTakes(c: Config, run: seq<State>, n: nat)
    requires IsRun(c, run) && n < |run|
    ensures Shaped(c, run[n]) && LocksIn(run, n) == Sum(TakenBy(c, run[n]))
  {
    RunKeepsInv(c, run, n);
    if n == 0 {
      SumBounds(TakenBy(c, run[0]), 0, 0);
    } else {
      RunTakes(c, run, n - 1);
      RunKeepsInv(c, run, n - 1);
      assert Moves(c, run[n - 1], run[n]);
      var k: nat :| Enabled(c, run[n - 1], k) && run[n] == Step(c, run[n - 1], k);
      StepTakes(c, run[n - 1], k);
    }
  }

  /** By the end the fine-grained program has locked once for every increment, the other two
      once for every thread. */
  lemma LocksTaken(c: Config, run: seq<State>)
    requires IsRun(c, run) && AllDone(run[|run| - 1])
    ensures LocksIn(run, |run| - 1) == if c.style == FineGrained then c.threads * c.iterations else c.threads
  {
    var s := run[|run| - 1];
    RunTakes(c, run, |run| - 1);
    RunKeepsInv(c, run, |run| - 1);
    var each := if c.style == FineGrained then c.iterations else 1;
    forall k | 0 <= k < c.threads
      ensures TakenBy(c, s)[k] == each
    {
      assert ThreadInv(c, s, k);
    }
    SumBounds(TakenBy(c, s), each, each);
  }

  /** A step leaves the counter alone or adds 1, or, in the program that counts privately, all
      the iterations of a thread at once. */
  lemma StepAdds(c: Config, s: State, k: nat)
    requires Inv(c, s) && Enabled(c, s, k)
    ensures var t := Step(c, s, k);
      if s.pcs[k] != Store then t.a == s.a
      else t.a == s.a + if c.style == LocalAccumulation then c.iterations else 1
  {
    assert ThreadInv(c, s, k);
  }

  // ---------------------------------------------------------------- every run ends

  /** The steps a thread has left. */
  function StepsLeft(c: Config, pc: Pc, i: int): int {
    var left := c.iterations - i;
    match pc
    case Done => 0
    case Unlock => if c.style == FineGrained then 4 * left + 1 else 1
    case Count => left + 5
    case Lock => if c.style == FineGrained then 4 * left else if c.style == CoarseGrained then 3 * left + 3 else 4
    case Test => 3 * left + 2
    case Load => if c.style == FineGrained then 4 * left - 1 else if c.style == CoarseGrained then 3 * left + 1 else 3
    case Store => if c.style == FineGrained then 4 * left - 2 else if c.style == CoarseGrained then 3 * left else 2
  }

  function Measure(c: Config, s: State): int
    requires Shaped(c, s)
  {
    Sum(seq(c.threads, k requires 0 <= k < c.threads => StepsLeft(c, s.pcs[k], s.loops[k])))
  }

  lemma MeasureIsNatural(c: Config, s: State)
    requires Inv(c, s)
    ensures Measure(c, s) >= 0
  {
    var left := seq(c.threads, k requires 0 <= k < c.threads => StepsLeft(c, s.pcs[k], s.loops[k]));
    forall k | 0 <= k < c.threads
      ensures 0 <= left[k] <= 4 * c.iterations + 5
    {
      assert ThreadInv(c, s, k);
    }
    SumBounds(left, 0, 4 * c.iterations + 5);
  }

  lemma StepMeasured(c: Config, s: State, k: nat)
    requires Inv(c, s) && Enabled(c, s, k)
    ensures Measure(c, Step(c, s, k)) < Measure(c, s)
  {
    assert ThreadInv(c, s, k);
    var t := Step(c, s, k);
    var before := seq(c.threads, j requires 0 <= j < c.threads => StepsLeft(c, s.pcs[j], s.loops[j]));
    var after := seq(c.threads, j requires 0 <= j < c.threads => StepsLeft(c, t.pcs[j], t.loops[j]));
    assert after == before[k := after[k]];
    SumUpdate(before, k, after[k]);
  }
}
