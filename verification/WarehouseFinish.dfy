/**
 Every consumer can be satisfied: from any state the processes can get into, some
 scheduling of them, with some choices of suppliers, ends with everybody gone.
 */
module WarehouseFinish {
  import opened Sums
  import opened Warehouse
  import opened WarehouseRefinement

  ghost predicate CanReach(c: Config, s: State, t: State) {
    Shaped(c, s) && exists acts :: Runs(c, s, acts, t)
  }

  lemma ReachSelf(c: Config, s: State)
    requires Shaped(c, s)
    ensures CanReach(c, s, s)
  {
    assert Runs(c, s, [], s);
  }

  lemma {:induction false} RunThenRun(c: Config, s: State, first: seq<Action>, t: State, second: seq<Action>, u: State)
    requires Shaped(c, s) && Runs(c, s, first, t) && Shaped(c, t) && Runs(c, t, second, u)
    ensures Runs(c, s, first + second, u)
    decreases |first|
  {
    if first == [] {
      assert first + second == second;
    } else {
      RunThenRun(c, Next(c, s, first[0]), first[1..], t, second, u);
      assert (first + second)[1..] == first[1..] + second;
    }
  }

  lemma ReachOn(c: Config, s: State, t: State, u: State)
    requires CanReach(c, s, t) && CanReach(c, t, u)
    ensures CanReach(c, s, u)
  {
    var first :| Runs(c, s, first, t);
    var second :| Runs(c, t, second, u);
    RunThenRun(c, s, first, t, second, u);
  }

  lemma ReachStep(c: Config, s: State, t: State, a: Action)
    requires CanReach(c, s, t) && Shaped(c, t) && Enabled(c, t, a)
    ensures CanReach(c, s, Next(c, t, a))
  {
    var u := Next(c, t, a);
    assert Runs(c, u, [], u);
    assert [a][1..] == [];
    assert Runs(c, t, [a], u);
    ReachOn(c, s, t, u);
  }

  lemma ReachKeepsInv(c: Config, s: State, t: State)
    requires Inv(c, s) && CanReach(c, s, t)
    ensures Inv(c, t)
  {
    var acts :| Runs(c, s, acts, t);
    RunKeepsInv(c, s, acts, t);
  }

  // ---------------------------------------------------------------- letting go of the semaphores

  /** The steps to a post, for a process that holds a semaphore. */
  function ConsumerToPost(pc: ConsumerPc): int {
    match pc
    case CTest(_) => 8
    case CSize(_) => 7
    case CLoadDemand(_, _) => 6
    case CStoreDemand(_, _, _) => 5
    case CLoadStock(_, _) => 4
    case CStoreStock(_, _, _) => 3
    case CCheck(_) => 2
    case CPost(_, _) => 1
    case CLoadJobs => 3
    case CStoreJobs(_) => 2
    case CJobsPost => 1
    case CWait | CJobsWait | CDone => 0
  }

  function SupplierToPost(pc: SupplierPc): int {
    match pc
    case SLoad => 3
    case SStore(_) | SJobsTest => 2
    case SPost | SJobsPost(_) => 1
    case SWait | SJobsWait | SDone => 0
  }

  function ConsumersToPost(consumers: seq<ConsumerPc>): seq<int> {
    seq(|consumers|, i requires 0 <= i < |consumers| => ConsumerToPost(consumers[i]))
  }

  function SuppliersToPost(suppliers: seq<SupplierPc>): seq<int> {
    seq(|suppliers|, j requires 0 <= j < |suppliers| => SupplierToPost(suppliers[j]))
  }

  function ToPost(s: State): int {
    Sum(ConsumersToPost(s.consumers)) + Sum(SuppliersToPost(s.suppliers))
  }

  lemma ToPostIsNatural(s: State)
    ensures ToPost(s) >= 0
  {
    SumBounds(ConsumersToPost(s.consumers), 0, 8);
    SumBounds(SuppliersToPost(s.suppliers), 0, 3);
  }

  ghost predicate Quiet(c: Config, s: State) {
    && Shaped(c, s)
    && (forall i :: 0 <= i < c.consumers ==> s.consumers[i].CWait? || s.consumers[i].CJobsWait? || s.consumers[i].CDone?)
    && (forall j :: 0 <= j < c.suppliers ==> s.suppliers[j].SWait? || s.suppliers[j].SJobsWait? || s.suppliers[j].SDone?)
  }

  lemma ConsumerNearsPost(c: Config, s: State, i: nat)
    requires Shaped(c, s) && i < c.consumers && ConsumerToPost(s.consumers[i]) > 0
    ensures Enabled(c, s, ConsumerStep(i, 0)) && ToPost(Next(c, s, ConsumerStep(i, 0))) < ToPost(s)
  {
    var t := Next(c, s, ConsumerStep(i, 0));
    assert ConsumersToPost(t.consumers) == ConsumersToPost(s.consumers)[i := ConsumerToPost(t.consumers[i])];
    SumUpdate(ConsumersToPost(s.consumers), i, ConsumerToPost(t.consumers[i]));
  }

  lemma SupplierNearsPost(c: Config, s: State, j: nat)
    requires Shaped(c, s) && j < c.suppliers && SupplierToPost(s.suppliers[j]) > 0
    ensures Enabled(c, s, SupplierStep(j)) && ToPost(Next(c, s, SupplierStep(j))) < ToPost(s)
  {
    var t := Next(c, s, SupplierStep(j));
    assert SuppliersToPost(t.suppliers) == SuppliersToPost(s.suppliers)[j := SupplierToPost(t.suppliers[j])];
    SumUpdate(SuppliersToPost(s.suppliers), j, SupplierToPost(t.suppliers[j]));
  }

  /** Those who hold a semaphore are waiting for nothing, and post it. */
  lemma {:induction false} LetGo(c: Config, s: State) returns (t: State)
    requires Inv(c, s)
    ensures CanReach(c, s, t) && Inv(c, t) && Quiet(c, t)
    decreases ToPost(s)
  {
    ToPostIsNatural(s);
    ReachSelf(c, s);
    t := s;
    if !Quiet(c, s) {
      var a;
      if i :| 0 <= i < c.consumers && ConsumerToPost(s.consumers[i]) > 0 {
        ConsumerNearsPost(c, s, i);
        a := ConsumerStep(i, 0);
      } else {
        var j :| 0 <= j < c.suppliers && SupplierToPost(s.suppliers[j]) > 0;
        SupplierNearsPost(c, s, j);
        a := SupplierStep(j);
      }
      InvKept(c, s, a);
      ReachStep(c, s, s, a);
      t := LetGo(c, Next(c, s, a));
      ReachOn(c, s, Next(c, s, a), t);
    }
  }

  /** Nobody holds anything. */
  ghost predicate Free(c: Config, s: State) {
    && Quiet(c, s) && s.jobsSemaphore == 1
    && forall j :: 0 <= j < c.suppliers ==> s.semaphores[j] == 1
  }

  lemma QuietIsFree(c: Config, s: State)
    requires Inv(c, s) && Quiet(c, s)
    ensures Free(c, s)
  {
    forall j | 0 <= j < c.suppliers
      ensures s.semaphores[j] == 1
    {
      assert StockSemaphoreInv(c, s, j);
    }
  }

  // ---------------------------------------------------------------- one process at a time

  /** The state `s` with consumer `i` inside the critical section of supplier `j`. */
  function Inside(c: Config, s: State, i: nat, j: nat, pc: ConsumerPc, segment: seq<int>): State
    requires Shaped(c, s) && i < c.consumers && j < c.suppliers
  {
    s.(consumers := s.consumers[i := pc], semaphores := s.semaphores[j := 0],
       holders := s.holders[j := Consumer(i)], segment := segment)
  }

  /** A waiting consumer goes in to a supplier that has something and works out its take. */
  lemma GoesIn(c: Config, s: State, i: nat, j: nat, take: int) returns (t: State)
    requires Free(c, s) && i < c.consumers && j < c.suppliers
    requires s.consumers[i] == CWait && s.segment[StockCell(c, j)] > 0
    requires IsLesser(take, s.segment[DemandCell(c, i)], s.segment[StockCell(c, j)])
    ensures CanReach(c, s, t) && Shaped(c, t)
    ensures t == Inside(c, s, i, j, CLoadDemand(j, take), s.segment)
  {
    ReachSelf(c, s);
    var a := ConsumerStep(i, j);
    ReachStep(c, s, s, a);
    var s1 := Next(c, s, a);
    assert s1 == Inside(c, s, i, j, CTest(j), s.segment);
    ReachStep(c, s, s1, a);
    var s2 := Next(c, s1, a);
    assert s2 == Inside(c, s, i, j, CSize(j), s.segment);
    ReachStep(c, s, s2, a);
    t := Next(c, s2, a);
  }

  /** It takes its take off its demand. */
  lemma LowersDemand(c: Config, s: State, i: nat, j: nat, take: int) returns (t: State)
    requires Shaped(c, s) && i < c.consumers && j < c.suppliers
    requires s.consumers[i] == CLoadDemand(j, take)
    ensures CanReach(c, s, t) && Shaped(c, t)
    ensures t == s.(consumers := s.consumers[i := CLoadStock(j, take)],
                    segment := s.segment[DemandCell(c, i) := s.segment[DemandCell(c, i)] - take])
  {
    ReachSelf(c, s);
    var a := ConsumerStep(i, j);
    ReachStep(c, s, s, a);
    var s1 := Next(c, s, a);
    ReachStep(c, s, s1, a);
    t := Next(c, s1, a);
  }

  /** Then off the stock. */
  lemma LowersStock(c: Config, s: State, i: nat, j: nat, take: int) returns (t: State)
    requires Shaped(c, s) && i < c.consumers && j < c.suppliers
    requires s.consumers[i] == CLoadStock(j, take)
    ensures CanReach(c, s, t) && Shaped(c, t)
    ensures t == s.(consumers := s.consumers[i := CCheck(j)],
                    segment := s.segment[StockCell(c, j) := s.segment[StockCell(c, j)] - take])
  {
    ReachSelf(c, s);
    var a := ConsumerStep(i, j);
    ReachStep(c, s, s, a);
    var s1 := Next(c, s, a);
    ReachStep(c, s, s1, a);
    t := Next(c, s1, a);
  }

  /** Last it posts the semaphore. */
  lemma GoesOut(c: Config, s: State, i: nat, j: nat) returns (t: State)
    requires Shaped(c, s) && i < c.consumers && j < c.suppliers
    requires s.consumers[i] == CCheck(j)
    ensures CanReach(c, s, t) && Shaped(c, t)
    ensures t == s.(consumers := s.consumers[i := if s.segment[DemandCell(c, i)] <= 0 then CJobsWait else CWait],
                    semaphores := s.semaphores[j := s.semaphores[j] + 1], holders := s.holders[j := Nobody])
  {
    ReachSelf(c, s);
    var a := ConsumerStep(i, j);
    ReachStep(c, s, s, a);
    var s1 := Next(c, s, a);
    ReachStep(c, s, s1, a);
    t := Next(c, s1, a);
  }

  function Wanted(c: Config, s: State): int
    requires Shaped(c, s)
  {
    Sum(Demands(c, s))
  }

  function NotDone(consumers: seq<ConsumerPc>): seq<int> {
    seq(|consumers|, i requires 0 <= i < |consumers| => if consumers[i] == CDone then 0 else 1)
  }

  function NotGone(suppliers: seq<SupplierPc>): seq<int> {
    seq(|suppliers|, j requires 0 <= j < |suppliers| => if suppliers[j] == SDone then 0 else 1)
  }

  /** The segment after consumer `i` has taken `take` from supplier `j`. */
  function Taken(c: Config, segment: seq<int>, i: nat, j: nat, take: int): seq<int>
    requires i < c.consumers && j < c.suppliers && |segment| == c.consumers + c.suppliers + 1
  {
    segment[DemandCell(c, i) := segment[DemandCell(c, i)] - take][StockCell(c, j) := segment[StockCell(c, j)] - take]
  }

  lemma MovesGoods(c: Config, s: State, i: nat, j: nat, take: int) returns (t: State)
    requires Shaped(c, s) && i < c.consumers && j < c.suppliers
    requires s.consumers[i] == CLoadDemand(j, take)
    ensures CanReach(c, s, t) && Shaped(c, t)
    ensures t == s.(consumers := s.consumers[i := CCheck(j)], segment := Taken(c, s.segment, i, j, take))
  {
    var s1 := LowersDemand(c, s, i, j, take);
    t := LowersStock(c, s1, i, j, take);
    ReachOn(c, s, s1, t);
  }

  /** The part of a visit before the check. */
  lemma Takes(c: Config, s: State, i: nat, j: nat, take: int) returns (t: State)
    requires Free(c, s) && i < c.consumers && j < c.suppliers
    requires s.consumers[i] == CWait && s.segment[StockCell(c, j)] > 0
    requires IsLesser(take, s.segment[DemandCell(c, i)], s.segment[StockCell(c, j)])
    ensures CanReach(c, s, t) && Shaped(c, t)
    ensures t == Inside(c, s, i, j, CCheck(j), Taken(c, s.segment, i, j, take))
  {
    var s1 := GoesIn(c, s, i, j, take);
    t := MovesGoods(c, s1, i, j, take);
    ReachOn(c, s, s1, t);
  }

  /** A visit of a waiting consumer to a supplier that has something. */
  lemma Visits(c: Config, s: State, i: nat, j: nat, take: int) returns (t: State)
    requires Free(c, s) && i < c.consumers && j < c.suppliers
    requires s.consumers[i] == CWait && s.segment[StockCell(c, j)] > 0
    requires IsLesser(take, s.segment[DemandCell(c, i)], s.segment[StockCell(c, j)])
    ensures CanReach(c, s, t) && Quiet(c, t) && t.segment == Taken(c, s.segment, i, j, take)
  {
    var s1 := Takes(c, s, i, j, take);
    t := GoesOut(c, s1, i, j);
    ReachOn(c, s, s1, t);
  }

  /** After it less is wanted than before. */
  lemma ServedOnce(c: Config, s: State, i: nat, j: nat) returns (t: State)
    requires Inv(c, s) && Quiet(c, s) && i < c.consumers && j < c.suppliers
    requires s.consumers[i] == CWait && s.segment[StockCell(c, j)] > 0
    ensures CanReach(c, s, t) && Quiet(c, t) && Wanted(c, t) < Wanted(c, s)
  {
    QuietIsFree(c, s);
    assert ConsumerInv(c, s, i);
    var demand, stock := s.segment[DemandCell(c, i)], s.segment[StockCell(c, j)];
    var take := if demand < stock then demand else stock;
    t := Visits(c, s, i, j, take);
    assert Demands(c, t) == Demands(c, s)[i := Demands(c, s)[i] - take];
    SumUpdate(Demands(c, s), i, Demands(c, s)[i] - take);
  }

  lemma OneMoreDone(consumers: seq<ConsumerPc>, i: nat)
    requires i < |consumers| && consumers[i] != CDone
    ensures Sum(NotDone(consumers[i := CDone])) < Sum(NotDone(consumers))
  {
    assert NotDone(consumers[i := CDone]) == NotDone(consumers)[i := 0];
    SumUpdate(NotDone(consumers), i, 0);
  }

  lemma OneMoreGone(suppliers: seq<SupplierPc>, j: nat)
    requires j < |suppliers| && suppliers[j] != SDone
    ensures Sum(NotGone(suppliers[j := SDone])) < Sum(NotGone(suppliers))
  {
    assert NotGone(suppliers[j := SDone]) == NotGone(suppliers)[j := 0];
    SumUpdate(NotGone(suppliers), j, 0);
  }

  lemma TakesJobs(c: Config, s: State, i: nat) returns (t: State)
    requires Free(c, s) && i < c.consumers && s.consumers[i] == CJobsWait
    ensures CanReach(c, s, t) && Shaped(c, t)
    ensures t == s.(consumers := s.consumers[i := CStoreJobs(s.segment[JobsCell(c)])],
                    jobsSemaphore := 0, jobsHolder := Consumer(i))
  {
    ReachSelf(c, s);
    var a := ConsumerStep(i, 0);
    ReachStep(c, s, s, a);
    var s1 := Next(c, s, a);
    ReachStep(c, s, s1, a);
    t := Next(c, s1, a);
  }

  /** A satisfied consumer takes itself off `jobs` and leaves. */
  lemma LeavesOnce(c: Config, s: State, i: nat) returns (t: State)
    requires Free(c, s) && i < c.consumers && s.consumers[i] == CJobsWait
    ensures CanReach(c, s, t) && Quiet(c, t) && t.suppliers == s.suppliers
    ensures t.consumers == s.consumers[i := CDone]
    ensures t.segment == s.segment[JobsCell(c) := s.segment[JobsCell(c)] - 1]
  {
    var a := ConsumerStep(i, 0);
    var s1 := TakesJobs(c, s, i);
    ReachStep(c, s, s1, a);
    var s2 := Next(c, s1, a);
    ReachStep(c, s, s2, a);
    t := Next(c, s2, a);
  }

  lemma CanLeave(c: Config, s: State, i: nat) returns (t: State)
    requires Inv(c, s) && Quiet(c, s) && i < c.consumers && s.consumers[i] == CJobsWait
    ensures CanReach(c, s, t) && Quiet(c, t) && Wanted(c, t) == Wanted(c, s)
    ensures Sum(NotDone(t.consumers)) < Sum(NotDone(s.consumers))
  {
    QuietIsFree(c, s);
    t := LeavesOnce(c, s, i);
    assert Demands(c, t) == Demands(c, s);
    OneMoreDone(s.consumers, i);
  }

  /** A supplier restocks; then it is about to look at `jobs`. */
  lemma RestocksOnce(c: Config, s: State, j: nat) returns (t: State)
    requires Free(c, s) && j < c.suppliers && s.suppliers[j] == SWait
    ensures CanReach(c, s, t) && Quiet(c, t) && t.consumers == s.consumers
    ensures t.suppliers == s.suppliers[j := SJobsWait]
    ensures t.segment == s.segment[StockCell(c, j) := s.segment[StockCell(c, j)] + c.supply]
  {
    ReachSelf(c, s);
    var a := SupplierStep(j);
    ReachStep(c, s, s, a);
    var s1 := Next(c, s, a);
    ReachStep(c, s, s1, a);
    var s2 := Next(c, s1, a);
    ReachStep(c, s, s2, a);
    var s3 := Next(c, s2, a);
    ReachStep(c, s, s3, a);
    t := Next(c, s3, a);
  }

  /** A supplier looks at `jobs`, and leaves or starts again. */
  lemma LooksOnce(c: Config, s: State, j: nat) returns (t: State)
    requires Free(c, s) && j < c.suppliers && s.suppliers[j] == SJobsWait
    ensures CanReach(c, s, t) && Quiet(c, t) && t.consumers == s.consumers && t.segment == s.segment
    ensures t.suppliers == s.suppliers[j := if s.segment[JobsCell(c)] <= 0 then SDone else SWait]
  {
    ReachSelf(c, s);
    var a := SupplierStep(j);
    ReachStep(c, s, s, a);
    var s1 := Next(c, s, a);
    ReachStep(c, s, s1, a);
    var s2 := Next(c, s1, a);
    ReachStep(c, s, s2, a);
    t := Next(c, s2, a);
  }

  // ---------------------------------------------------------------- everybody

  /** While `jobs` is positive no supplier has left. */
  lemma NoneGone(c: Config, s: State, i: nat, j: nat)
    requires Inv(c, s) && i < c.consumers && s.consumers[i] == CWait && j < c.suppliers
    ensures s.segment[JobsCell(c)] > 0 && s.suppliers[j] != SDone
  {
    assert SupplierInv(c, s, j);
    PresentCounts(s.consumers, i);
  }

  lemma {:induction false} PresentCounts(consumers: seq<ConsumerPc>, i: nat)
    requires i < |consumers| && !HasLeft(consumers[i])
    ensures Sum(StillHere(consumers)) > 0
  {
    var here := StillHere(consumers);
    var others := here[i := 0];
    SumUpdate(here, i, 0);
    SumBounds(others, 0, 1);
  }

  lemma NobodyCounts(consumers: seq<ConsumerPc>)
    requires forall i :: 0 <= i < |consumers| ==> consumers[i] == CDone
    ensures Sum(StillHere(consumers)) == 0
  {
    SumBounds(StillHere(consumers), 0, 0);
  }

  /** A waiting consumer can always be given something: a supplier restocks if it must. */
  lemma CanBeServed(c: Config, s: State, i: nat) returns (t: State)
    requires Inv(c, s) && Quiet(c, s) && i < c.consumers && s.consumers[i] == CWait
    ensures CanReach(c, s, t) && Quiet(c, t) && Wanted(c, t) < Wanted(c, s)
  {
    QuietIsFree(c, s);
    var u := s;
    ReachSelf(c, s);
    NoneGone(c, s, i, 0);
    if u.suppliers[0] == SJobsWait {
      u := LooksOnce(c, s, 0);
      ReachKeepsInv(c, s, u);
      QuietIsFree(c, u);
    }
    var v := RestocksOnce(c, u, 0);
    ReachOn(c, s, u, v);
    ReachKeepsInv(c, s, v);
    assert SupplierInv(c, u, 0);
    assert Demands(c, v) == Demands(c, s);
    t := ServedOnce(c, v, i, 0);
    ReachOn(c, s, v, t);
  }

  /** A supplier that looks at `jobs` when no consumer is left leaves. */
  lemma LooksAndGoes(c: Config, s: State, j: nat) returns (t: State)
    requires Inv(c, s) && Quiet(c, s) && j < c.suppliers && s.suppliers[j] == SJobsWait
    requires forall i :: 0 <= i < c.consumers ==> s.consumers[i] == CDone
    ensures CanReach(c, s, t) && Quiet(c, t) && t.segment == s.segment && t.consumers == s.consumers
    ensures t.suppliers == s.suppliers[j := SDone]
  {
    QuietIsFree(c, s);
    NobodyCounts(s.consumers);
    t := LooksOnce(c, s, j);
  }

  /** A supplier with no consumers left can leave. */
  lemma Goes(c: Config, s: State, j: nat) returns (t: State)
    requires Inv(c, s) && Quiet(c, s) && j < c.suppliers && s.suppliers[j] != SDone
    requires forall i :: 0 <= i < c.consumers ==> s.consumers[i] == CDone
    ensures CanReach(c, s, t) && Quiet(c, t) && t.consumers == s.consumers
    ensures t.segment[..c.consumers] == s.segment[..c.consumers]
    ensures t.suppliers == s.suppliers[j := SDone]
  {
    QuietIsFree(c, s);
    if s.suppliers[j] == SWait {
      var u := RestocksOnce(c, s, j);
      ReachKeepsInv(c, s, u);
      t := LooksAndGoes(c, u, j);
      ReachOn(c, s, u, t);
    } else {
      t := LooksAndGoes(c, s, j);
    }
  }

  lemma CanGo(c: Config, s: State, j: nat) returns (t: State)
    requires Inv(c, s) && Quiet(c, s) && j < c.suppliers && s.suppliers[j] != SDone
    requires forall i :: 0 <= i < c.consumers ==> s.consumers[i] == CDone
    ensures CanReach(c, s, t) && Quiet(c, t) && Wanted(c, t) == Wanted(c, s) && t.consumers == s.consumers
    ensures Sum(NotGone(t.suppliers)) < Sum(NotGone(s.suppliers))
  {
    t := Goes(c, s, j);
    OneMoreGone(s.suppliers, j);
  }

  lemma MeasuresAreNatural(c: Config, s: State)
    requires Inv(c, s) && Quiet(c, s)
    ensures Wanted(c, s) >= 0 && Sum(NotDone(s.consumers)) >= 0 && Sum(NotGone(s.suppliers)) >= 0
  {
    SumBounds(NotDone(s.consumers), 0, 1);
    SumBounds(NotGone(s.suppliers), 0, 1);
    DemandsNatural(c, s, c.consumers);
    assert Demands(c, s)[..c.consumers] == Demands(c, s);
  }

  lemma {:induction false} DemandsNatural(c: Config, s: State, n: nat)
    requires Inv(c, s) && Quiet(c, s) && n <= c.consumers
    ensures Sum(Demands(c, s)[c.consumers - n..]) >= 0
  {
    if n > 0 {
      var xs := Demands(c, s)[c.consumers - n..];
      assert xs[1..] == Demands(c, s)[c.consumers - (n - 1)..];
      assert ConsumerInv(c, s, c.consumers - n);
      DemandsNatural(c, s, n - 1);
    }
  }

  lemma {:induction false} FinishFromQuiet(c: Config, s: State) returns (t: State)
    requires Inv(c, s) && Quiet(c, s)
    ensures CanReach(c, s, t) && Shaped(c, t) && AllDone(c, t)
    decreases Wanted(c, s), Sum(NotDone(s.consumers)), Sum(NotGone(s.suppliers))
  {
    MeasuresAreNatural(c, s);
    ReachSelf(c, s);
    t := s;
    if !AllDone(c, s) {
      var u;
      if i :| 0 <= i < c.consumers && s.consumers[i] == CJobsWait {
        u := CanLeave(c, s, i);
      } else if i :| 0 <= i < c.consumers && s.consumers[i] == CWait {
        u := CanBeServed(c, s, i);
      } else {
        var j :| 0 <= j < c.suppliers && s.suppliers[j] != SDone;
        u := CanGo(c, s, j);
      }
      ReachKeepsInv(c, s, u);
      MeasuresAreNatural(c, u);
      t := FinishFromQuiet(c, u);
      ReachOn(c, s, u, t);
    }
  }

  /** The books are in order: goods are conserved, nothing is negative, and when everybody has
      exited every demand is met. */
  ghost predicate InOrder(c: Config, s: State)
    requires Shaped(c, s)
  {
    && Sum(Stocks(c, s))
       == c.supply * (c.suppliers + s.restocks)
          - (c.consumers * c.demand - (Sum(Demands(c, s)) + Sum(InFlights(s.consumers))))
    && (forall k :: 0 <= k < |s.segment| ==> s.segment[k] >= 0)
    && (AllDone(c, s) ==> forall i :: 0 <= i < c.consumers ==> s.segment[DemandCell(c, i)] == 0)
  }

  lemma ReachableInOrder(c: Config, s: State)
    requires ValidConfig(c) && Reachable(c, s)
    ensures Shaped(c, s) && InOrder(c, s)
  {
    ReachableInv(c, s);
    GoodsConserved(c, s);
    forall k | 0 <= k < |s.segment|
      ensures s.segment[k] >= 0
    {
      NothingGoesNegative(c, s, k);
    }
    if AllDone(c, s) {
      forall i | 0 <= i < c.consumers
        ensures s.segment[DemandCell(c, i)] == 0
      {
        assert ConsumerInv(c, s, i);
      }
    }
  }

  /** Whatever has happened so far, the processes can still all finish, and then every demand
      is met. */
  lemma EverybodyCanFinish(c: Config, s: State) returns (t: State)
    requires ValidConfig(c) && Reachable(c, s)
    ensures CanReach(c, s, t) && Shaped(c, t) && AllDone(c, t)
    ensures forall i :: 0 <= i < c.consumers ==> t.segment[DemandCell(c, i)] == 0
  {
    ReachableInv(c, s);
    var u := LetGo(c, s);
    t := FinishFromQuiet(c, u);
    ReachOn(c, s, u, t);
    ReachKeepsInv(c, s, t);
    forall i | 0 <= i < c.consumers
      ensures t.segment[DemandCell(c, i)] == 0
    {
      assert ConsumerInv(c, t, i);
    }
  }
}
