/**
 The processes over the shared segment refine a system in which a consumer moves goods,
 a supplier restocks and `jobs` counts down in one indivisible step each. What holds of
 every run of that small system is carried back to the processes.
 */
module WarehouseRefinement {
  import opened Sums
  import opened Warehouse

  // ---------------------------------------------------------------- the atomic system

  datatype Atomic = Atomic(
    demands: seq<int>,
    stocks: seq<int>,
    jobs: int,
    left: seq<bool>,
    gone: seq<bool>,
    restocks: nat)

  function AtomicInit(c: Config): Atomic {
    Atomic(seq(c.consumers, _ => c.demand), seq(c.suppliers, _ => c.supply), c.consumers,
           seq(c.consumers, _ => false), seq(c.suppliers, _ => false), 0)
  }

  ghost predicate AtomicShaped(c: Config, x: Atomic) {
    && |x.demands| == |x.left| == c.consumers
    && |x.stocks| == |x.gone| == c.suppliers
  }

  /** A consumer takes what it needs, or all there is, from a supplier that has some. */
  ghost predicate Take(c: Config, x: Atomic, y: Atomic, i: nat, j: nat) {
    && AtomicShaped(c, x) && i < c.consumers && j < c.suppliers
    && x.demands[i] > 0 && x.stocks[j] > 0
    && |y.demands| == c.consumers
    && var take := x.demands[i] - y.demands[i];
       && IsLesser(take, x.demands[i], x.stocks[j])
       && y == x.(demands := x.demands[i := x.demands[i] - take], stocks := x.stocks[j := x.stocks[j] - take])
  }

  ghost predicate Restock(c: Config, x: Atomic, y: Atomic, j: nat) {
    && AtomicShaped(c, x) && j < c.suppliers && !x.gone[j]
    && y == x.(stocks := x.stocks[j := x.stocks[j] + c.supply], restocks := x.restocks + 1)
  }

  /** A satisfied consumer takes itself off `jobs`, once. */
  ghost predicate Leave(c: Config, x: Atomic, y: Atomic, i: nat) {
    && AtomicShaped(c, x) && i < c.consumers && !x.left[i] && x.demands[i] == 0
    && y == x.(jobs := x.jobs - 1, left := x.left[i := true])
  }

  ghost predicate Go(c: Config, x: Atomic, y: Atomic, j: nat) {
    && AtomicShaped(c, x) && j < c.suppliers && !x.gone[j] && x.jobs <= 0
    && y == x.(gone := x.gone[j := true])
  }

  ghost predicate AtomicNext(c: Config, x: Atomic, y: Atomic) {
    || x == y
    || (exists i: nat, j: nat :: Take(c, x, y, i, j))
    || (exists j: nat :: Restock(c, x, y, j))
    || (exists i: nat :: Leave(c, x, y, i))
    || (exists j: nat :: Go(c, x, y, j))
  }

  ghost predicate AtomicRun(c: Config, xs: seq<Atomic>) {
    && xs != [] && xs[0] == AtomicInit(c)
    && forall k :: 0 <= k < |xs| - 1 ==> AtomicNext(c, xs[k], xs[k + 1])
  }

  function Present(left: seq<bool>): seq<int> {
    seq(|left|, i requires 0 <= i < |left| => if left[i] then 0 else 1)
  }

  ghost predicate AtomicInv(c: Config, x: Atomic) {
    && AtomicShaped(c, x)
    && (forall i :: 0 <= i < c.consumers ==> 0 <= x.demands[i] && (x.left[i] ==> x.demands[i] == 0))
    && (forall j :: 0 <= j < c.suppliers ==> 0 <= x.stocks[j])
    && x.jobs == Sum(Present(x.left))
    && (forall j :: 0 <= j < c.suppliers && x.gone[j] ==> x.jobs <= 0)
    // stock in store = initial stock + restocks - satisfied demand
    && Sum(x.stocks) == c.supply * (c.suppliers + x.restocks) - (c.consumers * c.demand - Sum(x.demands))
  }

  lemma AtomicInitInv(c: Config)
    requires ValidConfig(c)
    ensures AtomicInv(c, AtomicInit(c))
  {
    var x := AtomicInit(c);
    SumBounds(x.demands, c.demand, c.demand);
    SumBounds(x.stocks, c.supply, c.supply);
    SumBounds(Present(x.left), 1, 1);
  }

  lemma TakeKeeps(c: Config, x: Atomic, y: Atomic, i: nat, j: nat)
    requires AtomicInv(c, x) && Take(c, x, y, i, j)
    ensures AtomicInv(c, y)
  {
    SumUpdate(x.demands, i, y.demands[i]);
    SumUpdate(x.stocks, j, y.stocks[j]);
  }

  lemma RestockKeeps(c: Config, x: Atomic, y: Atomic, j: nat)
    requires ValidConfig(c) && AtomicInv(c, x) && Restock(c, x, y, j)
    ensures AtomicInv(c, y)
  {
    SumUpdate(x.stocks, j, y.stocks[j]);
    assert c.supply * (c.suppliers + y.restocks) == c.supply * (c.suppliers + x.restocks) + c.supply;
  }

  lemma LeaveKeeps(c: Config, x: Atomic, y: Atomic, i: nat)
    requires AtomicInv(c, x) && Leave(c, x, y, i)
    ensures AtomicInv(c, y)
  {
    SumUpdate(Present(x.left), i, 0);
    assert Present(y.left) == Present(x.left)[i := 0];
  }

  lemma AtomicNextKeeps(c: Config, x: Atomic, y: Atomic)
    requires ValidConfig(c) && AtomicInv(c, x) && AtomicNext(c, x, y)
    ensures AtomicInv(c, y)
  {
    if i: nat, j: nat :| Take(c, x, y, i, j) {
      TakeKeeps(c, x, y, i, j);
    } else if j: nat :| Restock(c, x, y, j) {
      RestockKeeps(c, x, y, j);
    } else if i: nat :| Leave(c, x, y, i) {
      LeaveKeeps(c, x, y, i);
    } else if j: nat :| Go(c, x, y, j) {
    }
  }

  lemma {:induction false} AtomicRunKeeps(c: Config, xs: seq<Atomic>, k: nat)
    requires ValidConfig(c) && AtomicRun(c, xs) && k < |xs|
    ensures AtomicInv(c, xs[k])
  {
    if k == 0 {
      AtomicInitInv(c);
    } else {
      AtomicRunKeeps(c, xs, k - 1);
      AtomicNextKeeps(c, xs[k - 1], xs[k]);
    }
  }

  /** With nobody left, `jobs` is 0, and with `jobs` at 0 nobody is left. */
  lemma {:induction false} NobodyPresent(left: seq<bool>)
    ensures Sum(Present(left)) >= 0
    ensures Sum(Present(left)) == 0 <==> forall i :: 0 <= i < |left| ==> left[i]
  {
    if left != [] {
      NobodyPresent(left[1..]);
      assert Present(left)[1..] == Present(left[1..]);
      assert forall i :: 1 <= i < |left| ==> left[i] == left[1..][i - 1];
      assert forall i :: 0 <= i < |left| - 1 ==> left[1..][i] == left[i + 1];
    }
  }

  // ---------------------------------------------------------------- the abstraction

  /** Goods already off the consumer's demand but not yet off the supplier's stock. */
  function InFlight(pc: ConsumerPc): int {
    if pc.CLoadStock? || pc.CStoreStock? then pc.take else 0
  }

  function InFlights(consumers: seq<ConsumerPc>): seq<int> {
    seq(|consumers|, i requires 0 <= i < |consumers| => InFlight(consumers[i]))
  }

  function HasGone(pc: SupplierPc): bool {
    pc == SJobsPost(true) || pc == SDone
  }

  function Abs(c: Config, s: State): (x: Atomic)
    requires Shaped(c, s)
  {
    Atomic(
      seq(c.consumers, i requires 0 <= i < c.consumers => s.segment[DemandCell(c, i)] + InFlight(s.consumers[i])),
      seq(c.suppliers, j requires 0 <= j < c.suppliers => s.segment[StockCell(c, j)]),
      s.segment[JobsCell(c)],
      seq(c.consumers, i requires 0 <= i < c.consumers => HasLeft(s.consumers[i])),
      seq(c.suppliers, j requires 0 <= j < c.suppliers => HasGone(s.suppliers[j])),
      s.restocks)
  }

  lemma InitRefines(c: Config)
    requires ValidConfig(c)
    ensures Abs(c, Init(c)) == AtomicInit(c)
  {
  }

  /** The store into the stock is where the atomic system moves the goods. */
  lemma DeliveryRefines(c: Config, s: State, i: nat, pick: nat)
    requires Inv(c, s) && Enabled(c, s, ConsumerStep(i, pick)) && s.consumers[i].CStoreStock?
    ensures Take(c, Abs(c, s), Abs(c, NextConsumer(c, s, i, pick)), i, s.consumers[i].sup)
  {
    var j, take := s.consumers[i].sup, s.consumers[i].take;
    var x, y := Abs(c, s), Abs(c, NextConsumer(c, s, i, pick));
    assert ConsumerInv(c, s, i);
    assert y.demands == x.demands[i := x.demands[i] - take];
    assert y.stocks == x.stocks[j := x.stocks[j] - take];
    assert y.left == x.left;
  }

  lemma LeavingRefines(c: Config, s: State, i: nat, pick: nat)
    requires Inv(c, s) && Enabled(c, s, ConsumerStep(i, pick)) && s.consumers[i].CStoreJobs?
    ensures Leave(c, Abs(c, s), Abs(c, NextConsumer(c, s, i, pick)), i)
  {
    var x, y := Abs(c, s), Abs(c, NextConsumer(c, s, i, pick));
    assert ConsumerInv(c, s, i);
    assert y.left == x.left[i := true];
    assert y.demands == x.demands && y.stocks == x.stocks;
  }

  /** The demand of a consumer, with what it is moving, changes in no other step. */
  lemma InHandKept(c: Config, s: State, i: nat, pick: nat)
    requires Inv(c, s) && Enabled(c, s, ConsumerStep(i, pick))
    requires !s.consumers[i].CStoreStock? && !s.consumers[i].CStoreJobs?
    ensures var t := NextConsumer(c, s, i, pick);
      && t.segment[DemandCell(c, i)] + InFlight(t.consumers[i])
      == s.segment[DemandCell(c, i)] + InFlight(s.consumers[i])
      && HasLeft(t.consumers[i]) == HasLeft(s.consumers[i])
  {
    assert ConsumerInv(c, s, i);
  }

  lemma OtherConsumerStepsStutter(c: Config, s: State, i: nat, pick: nat)
    requires Inv(c, s) && Enabled(c, s, ConsumerStep(i, pick))
    requires !s.consumers[i].CStoreStock? && !s.consumers[i].CStoreJobs?
    ensures Abs(c, NextConsumer(c, s, i, pick)) == Abs(c, s)
  {
    var t := NextConsumer(c, s, i, pick);
    InHandKept(c, s, i, pick);
    forall k | 0 <= k < |s.segment| && k != DemandCell(c, i)
      ensures t.segment[k] == s.segment[k]
    {
    }
  }

  lemma ConsumerRefines(c: Config, s: State, i: nat, pick: nat)
    requires Inv(c, s) && Enabled(c, s, ConsumerStep(i, pick))
    ensures AtomicNext(c, Abs(c, s), Abs(c, NextConsumer(c, s, i, pick)))
  {
    match s.consumers[i] {
      case CStoreStock(_, _, _) => DeliveryRefines(c, s, i, pick);
      case CStoreJobs(_) => LeavingRefines(c, s, i, pick);
      case _ => OtherConsumerStepsStutter(c, s, i, pick);
    }
  }

  lemma SupplierRefines(c: Config, s: State, j: nat)
    requires Inv(c, s) && Enabled(c, s, SupplierStep(j))
    ensures AtomicNext(c, Abs(c, s), Abs(c, NextSupplier(c, s, j)))
  {
    var t := NextSupplier(c, s, j);
    var x, y := Abs(c, s), Abs(c, t);
    assert SupplierInv(c, s, j);
    match s.suppliers[j] {
      case SStore(reg) =>
        assert y.demands == x.demands;
        assert y.stocks == x.stocks[j := x.stocks[j] + c.supply];
        assert Restock(c, x, y, j);
      case SJobsTest =>
        if s.segment[JobsCell(c)] <= 0 {
          assert y.gone == x.gone[j := true];
          assert Go(c, x, y, j);
        } else {
          assert x == y;
        }
      case SDone =>
      case _ =>
        assert x == y;
    }
  }

  /** The state after the first `k` steps of a run. */
  ghost function After(c: Config, s: State, acts: seq<Action>, t: State, k: nat): (u: State)
    requires Shaped(c, s) && Runs(c, s, acts, t) && k <= |acts|
    ensures Shaped(c, u)
    decreases k
  {
    if k == 0 then s else After(c, Next(c, s, acts[0]), acts[1..], t, k - 1)
  }

  lemma {:induction false} AfterStep(c: Config, s: State, acts: seq<Action>, t: State, k: nat)
    requires Shaped(c, s) && Runs(c, s, acts, t) && k < |acts|
    ensures var u := After(c, s, acts, t, k);
      Enabled(c, u, acts[k]) && After(c, s, acts, t, k + 1) == Next(c, u, acts[k])
    decreases k
  {
    if k > 0 {
      AfterStep(c, Next(c, s, acts[0]), acts[1..], t, k - 1);
    }
  }

  lemma {:induction false} AfterAll(c: Config, s: State, acts: seq<Action>, t: State)
    requires Shaped(c, s) && Runs(c, s, acts, t)
    ensures After(c, s, acts, t, |acts|) == t
    decreases |acts|
  {
    if acts != [] {
      AfterAll(c, Next(c, s, acts[0]), acts[1..], t);
    }
  }

  lemma {:induction false} AfterInv(c: Config, s: State, acts: seq<Action>, t: State, k: nat)
    requires Inv(c, s) && Runs(c, s, acts, t) && k <= |acts|
    ensures Inv(c, After(c, s, acts, t, k))
    decreases k
  {
    if k > 0 {
      AfterInv(c, s, acts, t, k - 1);
      AfterStep(c, s, acts, t, k - 1);
      InvKept(c, After(c, s, acts, t, k - 1), acts[k - 1]);
    }
  }

  lemma StepRefines(c: Config, s: State, a: Action)
    requires Inv(c, s) && Enabled(c, s, a)
    ensures AtomicNext(c, Abs(c, s), Abs(c, Next(c, s, a)))
  {
    match a
    case ConsumerStep(i, pick) => ConsumerRefines(c, s, i, pick);
    case SupplierStep(j) => SupplierRefines(c, s, j);
  }

  lemma AfterStepRefines(c: Config, s: State, acts: seq<Action>, t: State, k: nat)
    requires Inv(c, s) && Runs(c, s, acts, t) && k < |acts|
    ensures AtomicNext(c, Abs(c, After(c, s, acts, t, k)), Abs(c, After(c, s, acts, t, k + 1)))
  {
    AfterInv(c, s, acts, t, k);
    AfterStep(c, s, acts, t, k);
    StepRefines(c, After(c, s, acts, t, k), acts[k]);
  }

  /** The abstract states of a run, one for each of its states. */
  ghost function AbsRun(c: Config, s: State, acts: seq<Action>, t: State): seq<Atomic>
    requires Shaped(c, s) && Runs(c, s, acts, t)
  {
    seq(|acts| + 1, k requires 0 <= k <= |acts| => Abs(c, After(c, s, acts, t, k)))
  }

  /** Every run of the processes, state by state, is a run of the atomic system. */
  lemma RunRefines(c: Config, s: State, acts: seq<Action>, t: State)
    requires ValidConfig(c) && s == Init(c) && Runs(c, s, acts, t)
    ensures Inv(c, t)
    ensures AtomicRun(c, AbsRun(c, s, acts, t)) && AbsRun(c, s, acts, t)[|acts|] == Abs(c, t)
  {
    InitInv(c);
    InitRefines(c);
    AfterInv(c, s, acts, t, |acts|);
    AfterAll(c, s, acts, t);
    forall k | 0 <= k < |acts|
      ensures AtomicNext(c, AbsRun(c, s, acts, t)[k], AbsRun(c, s, acts, t)[k + 1])
    {
      AfterStepRefines(c, s, acts, t, k);
    }
  }

  ghost predicate Reachable(c: Config, s: State) {
    exists acts :: Runs(c, Init(c), acts, s)
  }

  lemma ReachableInv(c: Config, s: State)
    requires ValidConfig(c) && Reachable(c, s)
    ensures Inv(c, s) && AtomicInv(c, Abs(c, s))
  {
    var acts :| Runs(c, Init(c), acts, s);
    RunRefines(c, Init(c), acts, s);
    AtomicRunKeeps(c, AbsRun(c, Init(c), acts, s), |acts|);
  }

  // ---------------------------------------------------------------- what every run keeps

  function Demands(c: Config, s: State): seq<int>
    requires Shaped(c, s)
  {
    s.segment[..c.consumers]
  }

  function Stocks(c: Config, s: State): seq<int>
    requires Shaped(c, s)
  {
    s.segment[c.consumers..JobsCell(c)]
  }

  lemma {:induction false} SumOfSums(xs: seq<int>, ys: seq<int>, zs: seq<int>)
    requires |xs| == |ys| == |zs|
    requires forall i :: 0 <= i < |xs| ==> zs[i] == xs[i] + ys[i]
    ensures Sum(zs) == Sum(xs) + Sum(ys)
  {
    if xs != [] {
      SumOfSums(xs[1..], ys[1..], zs[1..]);
    }
  }

  lemma AbstractParts(c: Config, s: State)
    requires Inv(c, s)
    ensures Abs(c, s).stocks == Stocks(c, s)
    ensures Sum(Abs(c, s).demands) == Sum(Demands(c, s)) + Sum(InFlights(s.consumers))
  {
    SumOfSums(Demands(c, s), InFlights(s.consumers), Abs(c, s).demands);
  }

  /** Goods are conserved in the segment itself, counting those a consumer is moving. */
  lemma GoodsConserved(c: Config, s: State)
    requires ValidConfig(c) && Reachable(c, s)
    ensures Shaped(c, s)
    ensures Sum(Stocks(c, s))
            == c.supply * (c.suppliers + s.restocks)
               - (c.consumers * c.demand - (Sum(Demands(c, s)) + Sum(InFlights(s.consumers))))
  {
    ReachableInv(c, s);
    AbstractParts(c, s);
  }

  /** Over the cells: consumer `i` is about to take as much as it wants and no more than there
      is, and all of one of them; what it took has emptied its demand or the stock. */
  lemma TakesAllItCan(c: Config, s: State, i: nat)
    requires ValidConfig(c) && Reachable(c, s) && i < |s.consumers|
    ensures |s.segment| == c.consumers + c.suppliers + 1 && i < c.consumers
    ensures match s.consumers[i]
      case CLoadDemand(j, take) =>
        && j < c.suppliers && 0 < take <= s.segment[i] && take <= s.segment[c.consumers + j]
        && (take == s.segment[i] || take == s.segment[c.consumers + j])
      case CCheck(j) =>
        j < c.suppliers && (s.segment[i] == 0 || s.segment[c.consumers + j] == 0)
      case _ => true
  {
    ReachableInv(c, s);
    assert ConsumerInv(c, s, i);
  }

  /** The step that delivers leaves nothing wanted, or nothing in stock. */
  lemma DeliveryEmptiesOne(c: Config, s: State, i: nat, pick: nat)
    requires ValidConfig(c) && Reachable(c, s) && Shaped(c, s) && Enabled(c, s, ConsumerStep(i, pick))
    requires s.consumers[i].CStoreStock?
    ensures var j, t := s.consumers[i].sup, Next(c, s, ConsumerStep(i, pick));
      && i < |t.segment| && c.consumers + j < |t.segment|
      && (t.segment[i] == 0 || t.segment[c.consumers + j] == 0)
      && t.segment[c.consumers + j] == s.segment[c.consumers + j] - s.consumers[i].take
  {
    ReachableInv(c, s);
    assert ConsumerInv(c, s, i);
  }

  lemma NothingGoesNegative(c: Config, s: State, k: nat)
    requires ValidConfig(c) && Reachable(c, s) && k < |s.segment|
    ensures s.segment[k] >= 0
  {
    ReachableInv(c, s);
    if k < c.consumers {
      assert ConsumerInv(c, s, k);
    } else if k < JobsCell(c) {
      assert SupplierInv(c, s, k - c.consumers);
    } else {
      NobodyPresent(Abs(c, s).left);
    }
  }

  /** A supplier that has left, or decided to, leaves nobody's demand behind. */
  lemma SuppliersLeaveLast(c: Config, s: State, j: nat)
    requires ValidConfig(c) && Reachable(c, s)
    requires j < |s.suppliers| && HasGone(s.suppliers[j])
    ensures Shaped(c, s)
    ensures s.segment[JobsCell(c)] == 0
    ensures forall i :: 0 <= i < c.consumers ==> s.segment[DemandCell(c, i)] == 0 && HasLeft(s.consumers[i])
  {
    ReachableInv(c, s);
    var x := Abs(c, s);
    assert x.gone[j];
    NobodyPresent(x.left);
    forall i | 0 <= i < c.consumers
      ensures s.segment[DemandCell(c, i)] == 0 && HasLeft(s.consumers[i])
    {
      assert x.left[i];
      assert ConsumerInv(c, s, i);
    }
  }

  /** `jobs` is the number of consumers that have not done their decrement, and only
      satisfied consumers do it. */
  lemma JobsCountConsumers(c: Config, s: State)
    requires ValidConfig(c) && Reachable(c, s)
    ensures Shaped(c, s)
    ensures s.segment[JobsCell(c)] == Sum(StillHere(s.consumers))
    ensures forall i :: 0 <= i < c.consumers && s.segment[DemandCell(c, i)] > 0 ==> !HasLeft(s.consumers[i])
  {
    ReachableInv(c, s);
    forall i | 0 <= i < c.consumers && s.segment[DemandCell(c, i)] > 0
      ensures !HasLeft(s.consumers[i])
    {
      assert ConsumerInv(c, s, i);
    }
  }

  /** At any moment a stock, and `jobs`, is in the hands of one process, and no process has
      two semaphores. */
  lemma SemaphoresExclude(c: Config, s: State, j: nat)
    requires ValidConfig(c) && Reachable(c, s) && j < c.suppliers
    ensures Shaped(c, s)
    ensures forall i, k :: 0 <= i < k < c.consumers ==>
              !(ConsumerHolds(s.consumers[i], j) && ConsumerHolds(s.consumers[k], j))
    ensures forall i :: 0 <= i < c.consumers ==>
              !(ConsumerHolds(s.consumers[i], j) && SupplierHolds(s.suppliers[j]))
    ensures forall i :: 0 <= i < c.consumers && s.holders[j] == Consumer(i) ==>
              s.jobsHolder != Consumer(i) && forall k :: 0 <= k < c.suppliers && k != j ==> s.holders[k] != Consumer(i)
    ensures forall i, k :: 0 <= i < k < c.consumers ==>
              !(ConsumerHoldsJobs(s.consumers[i]) && ConsumerHoldsJobs(s.consumers[k]))
    ensures forall i, k :: 0 <= i < k < c.suppliers ==>
              !(SupplierHoldsJobs(s.suppliers[i]) && SupplierHoldsJobs(s.suppliers[k]))
    ensures forall i, k :: 0 <= i < c.consumers && 0 <= k < c.suppliers ==>
              !(ConsumerHoldsJobs(s.consumers[i]) && SupplierHoldsJobs(s.suppliers[k]))
    ensures s.holders[j] == Supplier(j) ==>
              s.jobsHolder != Supplier(j) && forall k :: 0 <= k < c.suppliers && k != j ==> s.holders[k] != Supplier(j)
  {
    ReachableInv(c, s);
    assert StockSemaphoreInv(c, s, j);
    forall k | 0 <= k < c.suppliers && k != j && s.holders[j] != Nobody
      ensures s.holders[k] != s.holders[j]
    {
      assert StockSemaphoreInv(c, s, k);
    }
  }

  ghost predicate AllDone(c: Config, s: State)
    requires Shaped(c, s)
  {
    && (forall i :: 0 <= i < c.consumers ==> s.consumers[i] == CDone)
    && (forall j :: 0 <= j < c.suppliers ==> s.suppliers[j] == SDone)
  }

  ghost predicate CanMove(c: Config, s: State)
    requires Shaped(c, s)
  {
    exists a :: Enabled(c, s, a)
  }

  lemma ConsumerOrHolderMoves(c: Config, s: State, i: nat)
    requires Inv(c, s) && i < c.consumers && s.consumers[i] != CDone
    ensures CanMove(c, s)
  {
    if Enabled(c, s, ConsumerStep(i, 0)) {
    } else if s.consumers[i] == CWait {
      assert StockSemaphoreInv(c, s, 0);
      HolderMoves(c, s, s.holders[0]);
    } else {
      HolderMoves(c, s, s.jobsHolder);
    }
  }

  lemma SupplierOrHolderMoves(c: Config, s: State, j: nat)
    requires Inv(c, s) && j < c.suppliers && s.suppliers[j] != SDone
    ensures CanMove(c, s)
  {
    if Enabled(c, s, SupplierStep(j)) {
    } else if s.suppliers[j] == SWait {
      assert StockSemaphoreInv(c, s, j);
      HolderMoves(c, s, s.holders[j]);
    } else {
      HolderMoves(c, s, s.jobsHolder);
    }
  }

  /** Whoever holds a semaphore is waiting for nothing. */
  lemma HolderMoves(c: Config, s: State, h: Holder)
    requires Inv(c, s) && h != Nobody
    requires h == s.jobsHolder || exists j :: 0 <= j < c.suppliers && s.holders[j] == h
    ensures CanMove(c, s)
  {
    if h != s.jobsHolder {
      var j :| 0 <= j < c.suppliers && s.holders[j] == h;
      assert StockSemaphoreInv(c, s, j);
    }
    match h
    case Consumer(i) => assert Enabled(c, s, ConsumerStep(i, 0));
    case Supplier(j) => assert Enabled(c, s, SupplierStep(j));
  }

  lemma NoDeadlock(c: Config, s: State)
    requires ValidConfig(c) && Reachable(c, s)
    ensures Shaped(c, s)
    ensures CanMove(c, s) <==> !AllDone(c, s)
  {
    ReachableInv(c, s);
    if !AllDone(c, s) {
      if i :| 0 <= i < c.consumers && s.consumers[i] != CDone {
        ConsumerOrHolderMoves(c, s, i);
      } else {
        var j :| 0 <= j < c.suppliers && s.suppliers[j] != SDone;
        SupplierOrHolderMoves(c, s, j);
      }
    }
  }

  // ---------------------------------------------------------------- how much can happen

  /** The steps of a run that move goods, and those that take a consumer off `jobs`. */
  ghost function Deliveries(c: Config, s: State, acts: seq<Action>, t: State): nat
    requires Shaped(c, s) && Runs(c, s, acts, t)
    decreases |acts|
  {
    if acts == [] then 0
    else
      (if acts[0].ConsumerStep? && s.consumers[acts[0].id].CStoreStock? then 1 else 0)
      + Deliveries(c, Next(c, s, acts[0]), acts[1..], t)
  }

  ghost function Departures(c: Config, s: State, acts: seq<Action>, t: State): nat
    requires Shaped(c, s) && Runs(c, s, acts, t)
    decreases |acts|
  {
    if acts == [] then 0
    else
      (if acts[0].ConsumerStep? && s.consumers[acts[0].id].CStoreJobs? then 1 else 0)
      + Departures(c, Next(c, s, acts[0]), acts[1..], t)
  }

  lemma StepCounts(c: Config, s: State, a: Action)
    requires Inv(c, s) && Enabled(c, s, a)
    ensures var x, y := Abs(c, s), Abs(c, Next(c, s, a));
      && Sum(y.demands) + (if a.ConsumerStep? && s.consumers[a.id].CStoreStock? then 1 else 0) <= Sum(x.demands)
      && y.jobs + (if a.ConsumerStep? && s.consumers[a.id].CStoreJobs? then 1 else 0) == x.jobs
  {
    var x, y := Abs(c, s), Abs(c, Next(c, s, a));
    if a.SupplierStep? {
      assert x.demands == y.demands && x.jobs == y.jobs by {
      }
    } else if s.consumers[a.id].CStoreStock? {
      DeliveryRefines(c, s, a.id, a.pick);
      SumUpdate(x.demands, a.id, y.demands[a.id]);
    } else if s.consumers[a.id].CStoreJobs? {
      LeavingRefines(c, s, a.id, a.pick);
    } else {
      OtherConsumerStepsStutter(c, s, a.id, a.pick);
    }
  }

  lemma {:induction false} RunKeepsInv(c: Config, s: State, acts: seq<Action>, t: State)
    requires Inv(c, s) && Runs(c, s, acts, t)
    ensures Inv(c, t)
  {
    AfterInv(c, s, acts, t, |acts|);
    AfterAll(c, s, acts, t);
  }

  lemma {:induction false} RunCounts(c: Config, s: State, acts: seq<Action>, t: State)
    requires Inv(c, s) && Runs(c, s, acts, t) && Inv(c, t)
    ensures Sum(Abs(c, t).demands) + Deliveries(c, s, acts, t) <= Sum(Abs(c, s).demands)
    ensures Abs(c, t).jobs + Departures(c, s, acts, t) == Abs(c, s).jobs
    decreases |acts|
  {
    if acts != [] {
      StepCounts(c, s, acts[0]);
      InvKept(c, s, acts[0]);
      RunCounts(c, Next(c, s, acts[0]), acts[1..], t);
    }
  }

  /** However long a run is, goods are moved at most once for each unit wanted, and each
      consumer leaves once; all the rest is empty visits and restocks. */
  lemma ProgressIsBounded(c: Config, acts: seq<Action>, t: State)
    requires ValidConfig(c) && Runs(c, Init(c), acts, t)
    ensures Deliveries(c, Init(c), acts, t) <= c.demand * c.consumers
    ensures Departures(c, Init(c), acts, t) <= c.consumers
  {
    assert Reachable(c, t);
    ReachableInv(c, t);
    InitInv(c);
    InitRefines(c);
    RunCounts(c, Init(c), acts, t);
    SumBounds(Abs(c, Init(c)).demands, c.demand, c.demand);
    NobodyPresent(Abs(c, t).left);
    AbstractDemands(c, t, c.consumers);
  }

  lemma {:induction false} AbstractDemands(c: Config, s: State, n: nat)
    requires Inv(c, s) && n <= c.consumers
    ensures Sum(Abs(c, s).demands[c.consumers - n..]) >= 0
    ensures n == c.consumers ==> Sum(Abs(c, s).demands) >= 0
  {
    var xs := Abs(c, s).demands;
    if n > 0 {
      assert xs[c.consumers - n..][1..] == xs[c.consumers - (n - 1)..];
      assert ConsumerInv(c, s, c.consumers - n);
      AbstractDemands(c, s, n - 1);
    }
    assert xs[0..] == xs;
  }
}
