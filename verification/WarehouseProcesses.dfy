/**
 The two process bodies, `consume` and `supply`, as methods over the shared segment. One
 call performs the one load, store, wait or post its process has reached, and is shown to
 be exactly the step that module Warehouse reasons about.
 */
module WarehouseProcesses {
  import opened Warehouse
  import opened WarehouseRefinement
  import WarehouseFinish

  predicate AtJobs(pc: ConsumerPc) {
    pc.CJobsWait? || pc.CLoadJobs? || pc.CStoreJobs? || pc.CJobsPost?
  }

  class Shared {
    const config: Config
    const segment: array<int>
    var semaphores: seq<nat>
    var jobsSemaphore: nat
    var consumers: seq<ConsumerPc>
    var suppliers: seq<SupplierPc>
    ghost var holders: seq<Holder>
    ghost var jobsHolder: Holder
    ghost var restocks: nat

    ghost predicate Valid()
      reads this, segment
    {
      Shaped(config, View())
    }

    ghost function View(): State
      reads this, segment
    {
      State(segment[..], semaphores, jobsSemaphore, consumers, suppliers, holders, jobsHolder, restocks)
    }

    /** The set-up of the segment and the semaphores, loop by loop. */
    constructor (c: Config)
      ensures config == c && fresh(segment)
      ensures Valid() && View() == Init(c)
    {
      var cells := new int[c.consumers + c.suppliers + 1];
      for i := 0 to c.consumers
        invariant forall k :: 0 <= k < i ==> cells[k] == c.demand
      {
        cells[i] := c.demand;
      }
      for j := 0 to c.suppliers
        invariant forall k :: 0 <= k < c.consumers ==> cells[k] == c.demand
        invariant forall k :: c.consumers <= k < c.consumers + j ==> cells[k] == c.supply
      {
        cells[c.consumers + j] := c.supply;
      }
      cells[JobsCell(c)] := c.consumers;
      assert cells[..] == Init(c).segment;
      config := c;
      segment := cells;
      semaphores := seq(c.suppliers, _ => 1);
      jobsSemaphore := 1;
      consumers := seq(c.consumers, _ => CWait);
      suppliers := seq(c.suppliers, _ => SWait);
      holders := seq(c.suppliers, _ => Nobody);
      jobsHolder := Nobody;
      restocks := 0;
    }

    /** The statements of `consume` about a supplier; `pick` is the supplier rand() selects. */
    method ConsumeGoods(i: nat, pick: nat)
      requires Valid() && Enabled(config, View(), ConsumerStep(i, pick)) && !AtJobs(consumers[i])
      modifies this, segment
      ensures Valid() && View() == Next(config, old(View()), ConsumerStep(i, pick))
    {
      match consumers[i] {
        case CWait =>
          semaphores := semaphores[pick := semaphores[pick] - 1];
          holders := holders[pick := Consumer(i)];
          consumers := consumers[i := CTest(pick)];
        case CTest(j) =>
          if segment[StockCell(config, j)] <= 0 {
            consumers := consumers[i := CPost(j, false)];
          } else {
            consumers := consumers[i := CSize(j)];
          }
        case CSize(j) =>
          var demand, stock := segment[DemandCell(config, i)], segment[StockCell(config, j)];
          consumers := consumers[i := CLoadDemand(j, if demand < stock then demand else stock)];
        case CLoadDemand(j, take) =>
          consumers := consumers[i := CStoreDemand(j, take, segment[DemandCell(config, i)])];
        case CStoreDemand(j, take, reg) =>
          segment[DemandCell(config, i)] := reg - take;
          consumers := consumers[i := CLoadStock(j, take)];
        case CLoadStock(j, take) =>
          consumers := consumers[i := CStoreStock(j, take, segment[StockCell(config, j)])];
        case CStoreStock(j, take, reg) =>
          segment[StockCell(config, j)] := reg - take;
          consumers := consumers[i := CCheck(j)];
        case CCheck(j) =>
          consumers := consumers[i := CPost(j, segment[DemandCell(config, i)] <= 0)];
        case CPost(j, leaving) =>
          semaphores := semaphores[j := semaphores[j] + 1];
          holders := holders[j := Nobody];
          consumers := consumers[i := if leaving then CJobsWait else CWait];
        case _ =>
          assert false;
      }
    }

    /** The statements of `consume` about `jobs`. */
    method LeaveJobs(i: nat)
      requires Valid() && Enabled(config, View(), ConsumerStep(i, 0)) && AtJobs(consumers[i])
      modifies this, segment
      ensures Valid() && View() == Next(config, old(View()), ConsumerStep(i, 0))
    {
      match consumers[i] {
        case CJobsWait =>
          jobsSemaphore := jobsSemaphore - 1;
          jobsHolder := Consumer(i);
          consumers := consumers[i := CLoadJobs];
        case CLoadJobs =>
          consumers := consumers[i := CStoreJobs(segment[JobsCell(config)])];
        case CStoreJobs(reg) =>
          segment[JobsCell(config)] := reg - 1;
          consumers := consumers[i := CJobsPost];
        case CJobsPost =>
          jobsSemaphore := jobsSemaphore + 1;
          jobsHolder := Nobody;
          consumers := consumers[i := CDone];
        case _ =>
          assert false;
      }
    }

    /** The statement consumer `i` has reached. */
    method Consume(i: nat, pick: nat)
      requires Valid() && Enabled(config, View(), ConsumerStep(i, pick))
      modifies this, segment
      ensures Valid() && View() == Next(config, old(View()), ConsumerStep(i, pick))
    {
      if AtJobs(consumers[i]) {
        LeaveJobs(i);
      } else {
        ConsumeGoods(i, pick);
      }
    }

    /** The statement supplier `j` has reached. */
    method Supply(j: nat)
      requires Valid() && Enabled(config, View(), SupplierStep(j))
      modifies this, segment
      ensures Valid() && View() == Next(config, old(View()), SupplierStep(j))
    {
      match suppliers[j] {
        case SWait =>
          semaphores := semaphores[j := semaphores[j] - 1];
          holders := holders[j := Supplier(j)];
          suppliers := suppliers[j := SLoad];
        case SLoad =>
          suppliers := suppliers[j := SStore(segment[StockCell(config, j)])];
        case SStore(reg) =>
          segment[StockCell(config, j)] := reg + config.supply;
          restocks := restocks + 1;
          suppliers := suppliers[j := SPost];
        case SPost =>
          semaphores := semaphores[j := semaphores[j] + 1];
          holders := holders[j := Nobody];
          suppliers := suppliers[j := SJobsWait];
        case SJobsWait =>
          jobsSemaphore := jobsSemaphore - 1;
          jobsHolder := Supplier(j);
          suppliers := suppliers[j := SJobsTest];
        case SJobsTest =>
          suppliers := suppliers[j := SJobsPost(segment[JobsCell(config)] <= 0)];
        case SJobsPost(leaving) =>
          jobsSemaphore := jobsSemaphore + 1;
          jobsHolder := Nobody;
          suppliers := suppliers[j := if leaving then SDone else SWait];
        case SDone =>
          assert false;
      }
    }

    /** What decides which process can go on. */
    function Snapshot(): State
      reads this, segment
    {
      State(segment[..], semaphores, jobsSemaphore, consumers, suppliers,
            seq(config.suppliers, _ => Nobody), Nobody, 0)
    }

    /** One turn of the scheduler: the process takes its step, unless it is waiting. */
    method RunOneStep(a: Action, ghost start: State)
      requires Valid() && WarehouseFinish.CanReach(config, start, View())
      modifies this, segment
      ensures Valid() && WarehouseFinish.CanReach(config, start, View())
    {
      if Enabled(config, Snapshot(), a) {
        assert Enabled(config, View(), a);
        WarehouseFinish.ReachStep(config, start, View(), a);
        if a.ConsumerStep? {
          Consume(a.id, a.pick);
        } else {
          Supply(a.id);
        }
      }
    }

    /** The processes run as the schedule says, passing over one that is waiting. Whatever the
        schedule, goods are conserved, and if all have exited every demand is met. */
    method RunProcesses(schedule: seq<Action>)
      requires Valid() && ValidConfig(config) && View() == Init(config)
      modifies this, segment
      ensures Valid() && Reachable(config, View())
      ensures WarehouseFinish.InOrder(config, View())
    {
      WarehouseFinish.ReachSelf(config, View());
      ghost var start := View();
      for n := 0 to |schedule|
        invariant Valid() && WarehouseFinish.CanReach(config, start, View())
      {
        RunOneStep(schedule[n], start);
      }
      assert Reachable(config, View());
      WarehouseFinish.ReachableInOrder(config, View());
    }
  }
}
