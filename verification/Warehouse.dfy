/**
 Consumers and suppliers over one shared memory segment, with a binary semaphore for each
 supplier and one for `jobs`.

 The segment is the flat array the processes share: the demands, then the stocks, then
 `jobs`. Each `-=`, `+=` and `--` is a load step followed by a store step, so that only
 the semaphores keep the updates apart.
 */
module Warehouse {
  import opened Sums

  datatype Config = Config(consumers: nat, suppliers: nat, demand: int, supply: int)

  ghost predicate ValidConfig(c: Config) {
    c.consumers > 0 && c.suppliers > 0 && c.demand > 0 && c.supply > 0
  }

  datatype ConsumerPc =
    | CWait                                   // about to wait on a supplier's semaphore
    | CTest(sup: nat)                         // about to test the stock
    | CSize(sup: nat)                         // about to compute `take`
    | CLoadDemand(sup: nat, take: int)
    | CStoreDemand(sup: nat, take: int, reg: int)
    | CLoadStock(sup: nat, take: int)
    | CStoreStock(sup: nat, take: int, reg: int)
    | CCheck(sup: nat)                        // about to test the own demand
    | CPost(sup: nat, leaving: bool)
    | CJobsWait
    | CLoadJobs
    | CStoreJobs(reg: int)
    | CJobsPost
    | CDone

  datatype SupplierPc =
    | SWait
    | SLoad
    | SStore(reg: int)
    | SPost
    | SJobsWait
    | SJobsTest
    | SJobsPost(leaving: bool)
    | SDone

  datatype Holder = Nobody | Consumer(id: nat) | Supplier(id: nat)

  /** `semaphores` and `jobsSemaphore` are the values the kernel keeps; the last three
      fields are history, read by no step. */
  datatype State = State(
    segment: seq<int>,
    semaphores: seq<nat>,
    jobsSemaphore: nat,
    consumers: seq<ConsumerPc>,
    suppliers: seq<SupplierPc>,
    holders: seq<Holder>,
    jobsHolder: Holder,
    restocks: nat)

  function DemandCell(c: Config, i: nat): nat { i }
  function StockCell(c: Config, j: nat): nat { c.consumers + j }
  function JobsCell(c: Config): nat { c.consumers + c.suppliers }

  datatype Action =
    | ConsumerStep(id: nat, pick: nat)   // `pick` is the supplier rand() selects
    | SupplierStep(id: nat)

  function Init(c: Config): State {
    State(seq(c.consumers, _ => c.demand) + seq(c.suppliers, _ => c.supply) + [c.consumers],
          seq(c.suppliers, _ => 1), 1,
          seq(c.consumers, _ => CWait), seq(c.suppliers, _ => SWait),
          seq(c.suppliers, _ => Nobody), Nobody, 0)
  }

  predicate Shaped(c: Config, s: State) {
    && |s.segment| == c.consumers + c.suppliers + 1
    && |s.semaphores| == |s.suppliers| == |s.holders| == c.suppliers
    && |s.consumers| == c.consumers
    && (forall i :: 0 <= i < c.consumers ==> (AtStock(s.consumers[i]) ==> s.consumers[i].sup < c.suppliers))
  }

  predicate Enabled(c: Config, s: State, a: Action)
    requires Shaped(c, s)
  {
    match a
    case ConsumerStep(i, pick) =>
      i < c.consumers && (
        match s.consumers[i]
        case CWait => pick < c.suppliers && s.semaphores[pick] > 0
        case CJobsWait => s.jobsSemaphore > 0
        case CDone => false
        case _ => true)
    case SupplierStep(j) =>
      j < c.suppliers && (
        match s.suppliers[j]
        case SWait => s.semaphores[j] > 0
        case SJobsWait => s.jobsSemaphore > 0
        case SDone => false
        case _ => true)
  }

  function NextConsumer(c: Config, s: State, i: nat, pick: nat): State
    requires Shaped(c, s) && Enabled(c, s, ConsumerStep(i, pick))
  {
    match s.consumers[i]
    case CWait =>
      s.(consumers := s.consumers[i := CTest(pick)],
         semaphores := s.semaphores[pick := s.semaphores[pick] - 1],
         holders := s.holders[pick := Consumer(i)])
    case CTest(j) =>
      s.(consumers := s.consumers[i := if s.segment[StockCell(c, j)] <= 0 then CPost(j, false) else CSize(j)])
    case CSize(j) =>
      var demand, stock := s.segment[DemandCell(c, i)], s.segment[StockCell(c, j)];
      s.(consumers := s.consumers[i := CLoadDemand(j, if demand < stock then demand else stock)])
    case CLoadDemand(j, take) =>
      s.(consumers := s.consumers[i := CStoreDemand(j, take, s.segment[DemandCell(c, i)])])
    case CStoreDemand(j, take, reg) =>
      s.(consumers := s.consumers[i := CLoadStock(j, take)],
         segment := s.segment[DemandCell(c, i) := reg - take])
    case CLoadStock(j, take) =>
      s.(consumers := s.consumers[i := CStoreStock(j, take, s.segment[StockCell(c, j)])])
    case CStoreStock(j, take, reg) =>
      s.(consumers := s.consumers[i := CCheck(j)],
         segment := s.segment[StockCell(c, j) := reg - take])
    case CCheck(j) =>
      s.(consumers := s.consumers[i := CPost(j, s.segment[DemandCell(c, i)] <= 0)])
    case CPost(j, leaving) =>
      s.(consumers := s.consumers[i := if leaving then CJobsWait else CWait],
         semaphores := s.semaphores[j := s.semaphores[j] + 1],
         holders := s.holders[j := Nobody])
    case CJobsWait =>
      s.(consumers := s.consumers[i := CLoadJobs],
         jobsSemaphore := s.jobsSemaphore - 1,
         jobsHolder := Consumer(i))
    case CLoadJobs =>
      s.(consumers := s.consumers[i := CStoreJobs(s.segment[JobsCell(c)])])
    case CStoreJobs(reg) =>
      s.(consumers := s.consumers[i := CJobsPost],
         segment := s.segment[JobsCell(c) := reg - 1])
    case CJobsPost =>
      s.(consumers := s.consumers[i := CDone],
         jobsSemaphore := s.jobsSemaphore + 1,
         jobsHolder := Nobody)
    case CDone => s
  }

  function NextSupplier(c: Config, s: State, j: nat): State
    requires Shaped(c, s) && Enabled(c, s, SupplierStep(j))
  {
    match s.suppliers[j]
    case SWait =>
      s.(suppliers := s.suppliers[j := SLoad],
         semaphores := s.semaphores[j := s.semaphores[j] - 1],
         holders := s.holders[j := Supplier(j)])
    case SLoad =>
      s.(suppliers := s.suppliers[j := SStore(s.segment[StockCell(c, j)])])
    case SStore(reg) =>
      s.(suppliers := s.suppliers[j := SPost],
         segment := s.segment[StockCell(c, j) := reg + c.supply],
         restocks := s.restocks + 1)
    case SPost =>
      s.(suppliers := s.suppliers[j := SJobsWait],
         semaphores := s.semaphores[j := s.semaphores[j] + 1],
         holders := s.holders[j := Nobody])
    case SJobsWait =>
      s.(suppliers := s.suppliers[j := SJobsTest],
         jobsSemaphore := s.jobsSemaphore - 1,
         jobsHolder := Supplier(j))
    case SJobsTest =>
      s.(suppliers := s.suppliers[j := SJobsPost(s.segment[JobsCell(c)] <= 0)])
    case SJobsPost(leaving) =>
      s.(suppliers := s.suppliers[j := if leaving then SDone else SWait],
         jobsSemaphore := s.jobsSemaphore + 1,
         jobsHolder := Nobody)
    case SDone => s
  }

  function Next(c: Config, s: State, a: Action): (t: State)
    requires Shaped(c, s) && Enabled(c, s, a)
    ensures Shaped(c, t)
  {
    match a
    case ConsumerStep(i, pick) => NextConsumer(c, s, i, pick)
    case SupplierStep(j) => NextSupplier(c, s, j)
  }

  ghost predicate Runs(c: Config, s: State, acts: seq<Action>, t: State)
    requires Shaped(c, s)
    decreases |acts|
  {
    if acts == [] then s == t
    else Enabled(c, s, acts[0]) && Runs(c, Next(c, s, acts[0]), acts[1..], t)
  }

  // ---------------------------------------------------------------- invariant

  /** Consumer program points between the wait and the post of a supplier's semaphore. */
  predicate AtStock(pc: ConsumerPc) {
    pc.CTest? || pc.CSize? || pc.CLoadDemand? || pc.CStoreDemand? || pc.CLoadStock? || pc.CStoreStock?
    || pc.CCheck? || pc.CPost?
  }

  predicate ConsumerHolds(pc: ConsumerPc, j: nat) {
    AtStock(pc) && pc.sup == j
  }

  predicate ConsumerHoldsJobs(pc: ConsumerPc) {
    pc.CLoadJobs? || pc.CStoreJobs? || pc.CJobsPost?
  }

  predicate SupplierHolds(pc: SupplierPc) {
    pc.SLoad? || pc.SStore? || pc.SPost?
  }

  predicate SupplierHoldsJobs(pc: SupplierPc) {
    pc.SJobsTest? || pc.SJobsPost?
  }

  /** A semaphore is 1 when nobody is between its wait and post, 0 when exactly one is. */
  ghost predicate StockSemaphoreInv(c: Config, s: State, j: nat)
    requires Shaped(c, s) && j < c.suppliers
  {
    && s.semaphores[j] == (if s.holders[j] == Nobody then 1 else 0)
    && (s.holders[j] == Supplier(j) <==> SupplierHolds(s.suppliers[j]))
    && (s.holders[j].Supplier? ==> s.holders[j].id == j)
    && (s.holders[j].Consumer? ==> s.holders[j].id < c.consumers)
    && (forall i :: 0 <= i < c.consumers ==> (s.holders[j] == Consumer(i) <==> ConsumerHolds(s.consumers[i], j)))
  }

  ghost predicate StockSemaphoresInv(c: Config, s: State)
    requires Shaped(c, s)
  {
    forall j :: 0 <= j < c.suppliers ==> StockSemaphoreInv(c, s, j)
  }

  ghost predicate JobsSemaphoreInv(c: Config, s: State)
    requires Shaped(c, s)
  {
    && s.jobsSemaphore == (if s.jobsHolder == Nobody then 1 else 0)
    && (s.jobsHolder.Consumer? ==> s.jobsHolder.id < c.consumers)
    && (s.jobsHolder.Supplier? ==> s.jobsHolder.id < c.suppliers)
    && (forall i :: 0 <= i < c.consumers ==> (s.jobsHolder == Consumer(i) <==> ConsumerHoldsJobs(s.consumers[i])))
    && (forall j :: 0 <= j < c.suppliers ==> (s.jobsHolder == Supplier(j) <==> SupplierHoldsJobs(s.suppliers[j])))
  }

  /** What a consumer's program point says about the cells it works on: a value it has
      loaded is still the value of the cell. */
  ghost predicate ConsumerInv(c: Config, s: State, i: nat)
    requires Shaped(c, s) && i < c.consumers
  {
    var demand := s.segment[DemandCell(c, i)];
    match s.consumers[i]
    case CWait | CTest(_) => demand > 0
    case CSize(j) => demand > 0 && s.segment[StockCell(c, j)] > 0
    case CLoadDemand(j, take) =>
      IsLesser(take, demand, s.segment[StockCell(c, j)]) && take > 0
    case CStoreDemand(j, take, reg) =>
      IsLesser(take, demand, s.segment[StockCell(c, j)]) && take > 0 && reg == demand
    case CLoadStock(j, take) =>
      IsLesser(take, demand + take, s.segment[StockCell(c, j)]) && take > 0
    case CStoreStock(j, take, reg) =>
      IsLesser(take, demand + take, s.segment[StockCell(c, j)]) && take > 0 && reg == s.segment[StockCell(c, j)]
    case CCheck(j) => demand >= 0 && (demand == 0 || s.segment[StockCell(c, j)] == 0)
    case CPost(_, leaving) => if leaving then demand == 0 else demand > 0
    case CStoreJobs(reg) => demand == 0 && reg == s.segment[JobsCell(c)]
    case CJobsWait | CLoadJobs | CJobsPost | CDone => demand == 0
  }

  /** As much as is wanted, if there is that much, and else all there is. */
  predicate IsLesser(take: int, demand: int, stock: int) {
    take <= demand && take <= stock && (take == demand || take == stock)
  }

  ghost predicate SupplierInv(c: Config, s: State, j: nat)
    requires Shaped(c, s) && j < c.suppliers
  {
    && s.segment[StockCell(c, j)] >= 0
    && (s.suppliers[j].SStore? ==> s.suppliers[j].reg == s.segment[StockCell(c, j)])
    && (s.suppliers[j].SDone? || s.suppliers[j] == SJobsPost(true) ==> s.segment[JobsCell(c)] <= 0)
  }

  predicate HasLeft(pc: ConsumerPc) {
    pc.CJobsPost? || pc.CDone?
  }

  function StillHere(consumers: seq<ConsumerPc>): seq<int> {
    seq(|consumers|, i requires 0 <= i < |consumers| => if HasLeft(consumers[i]) then 0 else 1)
  }

  /** `jobs` counts the consumers that have not done their decrement. */
  ghost predicate JobsInv(c: Config, s: State)
    requires Shaped(c, s)
  {
    s.segment[JobsCell(c)] == Sum(StillHere(s.consumers))
  }

  ghost predicate Inv(c: Config, s: State) {
    && ValidConfig(c)
    && Shaped(c, s)
    && StockSemaphoresInv(c, s)
    && JobsSemaphoreInv(c, s)
    && (forall i :: 0 <= i < c.consumers ==> ConsumerInv(c, s, i))
    && (forall j :: 0 <= j < c.suppliers ==> SupplierInv(c, s, j))
    && JobsInv(c, s)
  }

  lemma InitInv(c: Config)
    requires ValidConfig(c)
    ensures Inv(c, Init(c))
  {
    SumBounds(StillHere(Init(c).consumers), 1, 1);
  }

  /** Inside its critical section a consumer changes no semaphore. */
  lemma ConsumerKeepsHolding(c: Config, s: State, i: nat, pick: nat, j: nat)
    requires Inv(c, s) && Enabled(c, s, ConsumerStep(i, pick)) && j < c.suppliers
    requires s.consumers[i] != CWait && !(s.consumers[i].CPost? && s.consumers[i].sup == j)
    ensures StockSemaphoreInv(c, NextConsumer(c, s, i, pick), j)
  {
    assert StockSemaphoreInv(c, s, j);
    var t := NextConsumer(c, s, i, pick);
    assert t.holders[j] == s.holders[j] && t.semaphores[j] == s.semaphores[j];
    assert ConsumerHolds(t.consumers[i], j) == ConsumerHolds(s.consumers[i], j);
  }

  lemma StockSemaphoreKeptByConsumer(c: Config, s: State, i: nat, pick: nat, j: nat)
    requires Inv(c, s) && Enabled(c, s, ConsumerStep(i, pick)) && j < c.suppliers
    ensures StockSemaphoreInv(c, NextConsumer(c, s, i, pick), j)
  {
    assert StockSemaphoreInv(c, s, j);
    var pc := s.consumers[i];
    if pc.CWait? {
    } else if pc.CPost? && pc.sup == j {
      assert ConsumerHolds(pc, j);
    } else {
      ConsumerKeepsHolding(c, s, i, pick, j);
    }
  }

  lemma StockSemaphoreKeptBySupplier(c: Config, s: State, k: nat, j: nat)
    requires Inv(c, s) && Enabled(c, s, SupplierStep(k)) && j < c.suppliers
    ensures StockSemaphoreInv(c, NextSupplier(c, s, k), j)
  {
    assert StockSemaphoreInv(c, s, j);
    assert StockSemaphoreInv(c, s, k);
  }

  lemma JobsSemaphoreKept(c: Config, s: State, a: Action)
    requires Inv(c, s) && Enabled(c, s, a)
    ensures JobsSemaphoreInv(c, Next(c, s, a))
  {
  }

  /** Two processes inside the same critical section are one process. */
  lemma OneHolder(c: Config, s: State, i: nat, k: nat, j: nat)
    requires Inv(c, s) && i < c.consumers && k < c.consumers && j < c.suppliers
    requires ConsumerHolds(s.consumers[i], j)
    ensures ConsumerHolds(s.consumers[k], j) ==> i == k
    ensures !SupplierHolds(s.suppliers[j])
  {
    assert StockSemaphoreInv(c, s, j);
  }

  /** The cells a process may write: a consumer its own demand while it holds some stock,
      and anybody a stock, or `jobs`, while it holds the semaphore of that cell. */
  ghost predicate MayWrite(c: Config, s: State, a: Action, cell: nat)
    requires Shaped(c, s) && Enabled(c, s, a)
  {
    var me := if a.ConsumerStep? then Consumer(a.id) else Supplier(a.id);
    || (a.ConsumerStep? && AtStock(s.consumers[a.id]) && cell == DemandCell(c, a.id))
    || (c.consumers <= cell < c.consumers + c.suppliers && s.holders[cell - c.consumers] == me)
    || (cell == JobsCell(c) && s.jobsHolder == me)
  }

  /** Each step leaves every other cell of the segment alone. */
  lemma StepsWriteOnlyTheirCells(c: Config, s: State, a: Action, cell: nat)
    requires Inv(c, s) && Enabled(c, s, a) && cell < |s.segment|
    ensures Next(c, s, a).segment[cell] != s.segment[cell] ==> MayWrite(c, s, a, cell)
  {
    if a.ConsumerStep? {
      var pc := s.consumers[a.id];
      if AtStock(pc) {
        assert StockSemaphoreInv(c, s, pc.sup);
      }
    } else {
      assert StockSemaphoreInv(c, s, a.id);
    }
  }

  lemma OwnStepKept(c: Config, s: State, i: nat, pick: nat)
    requires Inv(c, s) && Enabled(c, s, ConsumerStep(i, pick))
    ensures ConsumerInv(c, NextConsumer(c, s, i, pick), i)
  {
    assert ConsumerInv(c, s, i);
    if AtStock(s.consumers[i]) {
      assert SupplierInv(c, s, s.consumers[i].sup);
    }
  }

  /** What consumer `i` relies on survives the steps of everybody else. */
  lemma OtherStepKept(c: Config, s: State, a: Action, i: nat)
    requires Inv(c, s) && Enabled(c, s, a) && i < c.consumers
    requires !(a.ConsumerStep? && a.id == i)
    ensures ConsumerInv(c, Next(c, s, a), i)
  {
    assert ConsumerInv(c, s, i);
    var pc := s.consumers[i];
    assert Next(c, s, a).consumers[i] == pc;
    StepsWriteOnlyTheirCells(c, s, a, DemandCell(c, i));
    StepsWriteOnlyTheirCells(c, s, a, JobsCell(c));
    if AtStock(pc) {
      StepsWriteOnlyTheirCells(c, s, a, StockCell(c, pc.sup));
      assert StockSemaphoreInv(c, s, pc.sup);
    }
  }

  lemma SuppliersKept(c: Config, s: State, a: Action, j: nat)
    requires Inv(c, s) && Enabled(c, s, a) && j < c.suppliers
    ensures SupplierInv(c, Next(c, s, a), j)
  {
    assert SupplierInv(c, s, j);
    if a.ConsumerStep? {
      assert ConsumerInv(c, s, a.id);
      if ConsumerHolds(s.consumers[a.id], j) {
        OneHolder(c, s, a.id, a.id, j);
      }
    } else {
      assert SupplierInv(c, s, a.id);
    }
  }

  lemma JobsKept(c: Config, s: State, a: Action)
    requires Inv(c, s) && Enabled(c, s, a)
    ensures JobsInv(c, Next(c, s, a))
  {
    var t := Next(c, s, a);
    if a.ConsumerStep? {
      assert ConsumerInv(c, s, a.id);
      var here := StillHere(s.consumers);
      var x := if HasLeft(t.consumers[a.id]) then 0 else 1;
      assert StillHere(t.consumers) == here[a.id := x];
      SumUpdate(here, a.id, x);
    }
  }

  lemma InvKept(c: Config, s: State, a: Action)
    requires Inv(c, s) && Enabled(c, s, a)
    ensures Inv(c, Next(c, s, a))
  {
    JobsSemaphoreKept(c, s, a);
    JobsKept(c, s, a);
    forall i | 0 <= i < c.consumers
      ensures ConsumerInv(c, Next(c, s, a), i)
    {
      if a.ConsumerStep? && a.id == i {
        OwnStepKept(c, s, i, a.pick);
      } else {
        OtherStepKept(c, s, a, i);
      }
    }
    forall j | 0 <= j < c.suppliers
      ensures SupplierInv(c, Next(c, s, a), j)
    {
      SuppliersKept(c, s, a, j);
    }
    forall j | 0 <= j < c.suppliers
      ensures StockSemaphoreInv(c, Next(c, s, a), j)
    {
      match a
      case ConsumerStep(i, pick) => StockSemaphoreKeptByConsumer(c, s, i, pick, j);
      case SupplierStep(k) => StockSemaphoreKeptBySupplier(c, s, k, j);
    }
  }
}
