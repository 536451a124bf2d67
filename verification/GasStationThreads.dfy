/**
 The two thread bodies, `refill` and `purchase`, as methods over the shared variables.
 One call performs the one statement its thread has reached; each call is shown to be
 exactly the step that module GasStation reasons about.
 */
module GasStationThreads {
  import opened GasStation
  import opened GasStationBounds

  class Station {
    const config: Config
    var fuel: int
    const cars: array<int>
    var mutex: Owner
    var doRefill: bool               // local variable of `refill`
    var refiller: RefillerPc
    var customers: seq<CustomerPc>
    ghost var refills: nat
    ghost var purchases: seq<int>

    ghost predicate Valid()
      reads this
    {
      cars.Length == |customers| == |purchases| == config.customers
    }

    ghost function View(): (s: State)
      reads this, cars
      requires Valid()
      ensures Shaped(config, s)
    {
      State(fuel, cars[..], mutex, refiller, doRefill, customers, refills, purchases)
    }

    constructor (c: Config)
      ensures Valid() && config == c && fresh(cars)
      ensures View() == Init(c)
    {
      config := c;
      fuel := 0;
      cars := new int[c.customers](_ => 0);
      mutex := Free;
      doRefill := false;
      refiller := RLock;
      customers := seq(c.customers, _ => CLock);
      refills := 0;
      purchases := seq(c.customers, _ => 0);
      new;
      assert cars[..] == seq(c.customers, _ => 0);
    }

    method IsRefillNeeded() returns (needed: bool)
      requires Valid()
      ensures needed <==> RefillNeeded(config, cars[..])
    {
      var i := 0;
      while i < cars.Length
        invariant 0 <= i <= cars.Length
        invariant forall k :: 0 <= k < i ==> cars[k] >= config.tank
      {
        if cars[i] < config.tank {
          assert cars[..][i] < config.tank;
          return true;
        }
        i := i + 1;
      }
      return false;
    }

    method SignalCustomer(wake: nat)
      modifies `customers
      ensures customers == WakeOne(old(customers), wake)
    {
      if wake < |customers| && customers[wake] == CSleep {
        customers := customers[wake := CWoken];
      }
    }

    /** The statement `refill` has reached; `wake` is whom the kernel would pick. */
    method Refill(wake: nat)
      requires Valid() && Enabled(config, View(), RefillerStep(wake))
      modifies this
      ensures Valid() && View() == Next(config, old(View()), RefillerStep(wake))
      ensures old(refiller) == RNotify && config.broadcast ==> AllWoken(old(customers), customers)
      ensures old(refiller) == RNotify && !config.broadcast ==> OneWoken(old(customers), customers)
    {
      NotifyWakes(config, View(), wake);
      match refiller {
        case RLock =>
          mutex, refiller := Refiller, REval;
        case REval =>
          doRefill := IsRefillNeeded();
          refiller := RTest;
        case RTest =>
          if fuel >= config.storage && doRefill {
            mutex, refiller := Free, RSleep;
          } else if !doRefill {
            refiller := if config.broadcast then RLastUnlock else RLastNotify;
          } else {
            refiller := RFill;
          }
        case RWoken =>
          mutex, refiller := Refiller, RTest;
        case RFill =>
          fuel, doRefill := config.storage, false;
          refills := refills + 1;
          refiller := RNotify;
        case RNotify =>
          if config.broadcast {
            customers := WakeAll(customers);
          } else {
            SignalCustomer(wake);
          }
          refiller := RUnlock;
        case RUnlock =>
          mutex, refiller := Free, RLock;
        case RLastNotify =>
          SignalCustomer(wake);
          refiller := RLastUnlock;
        case RLastUnlock =>
          mutex, refiller := Free, RDone;
        case _ =>
          assert false;
      }
    }

    /** The statement customer `i` has reached in `purchase`. */
    method Purchase(i: nat)
      requires Valid() && Enabled(config, View(), CustomerStep(i))
      modifies this, cars
      ensures Valid() && View() == Next(config, old(View()), CustomerStep(i))
    {
      match customers[i] {
        case CLock =>
          mutex, customers := Customer(i), customers[i := CTest];
        case CTest =>
          if fuel == 0 {
            mutex, customers := Free, customers[i := CSleep];
          } else {
            customers := customers[i := CTake];
          }
        case CWoken =>
          mutex, customers := Customer(i), customers[i := CTest];
        case CTake =>
          cars[i] := cars[i] + fuel;
          fuel := 0;
          purchases := purchases[i := purchases[i] + 1];
          customers := customers[i := CNotify];
        case CNotify =>
          if refiller == RSleep {
            refiller := RWoken;
          }
          customers := customers[i := CUnlock];
        case CUnlock =>
          customers := customers[i := if cars[i] >= config.tank then CDone else CLock];
          mutex := Free;
        case _ =>
          assert false;
      }
    }

    /** What decides which thread can go on. */
    function Snapshot(): (s: State)
      reads this, cars
      requires Valid()
      ensures Shaped(config, s)
    {
      State(fuel, cars[..], mutex, refiller, doRefill, customers, 0, seq(config.customers, _ => 0))
    }

    predicate Finished()
      reads this
    {
      refiller == RDone && forall i :: 0 <= i < |customers| ==> customers[i] == CDone
    }

    /** The scheduler lets some thread that can go on take one step. */
    method RunSomeThread()
      requires Valid() && ValidConfig(config) && Inv(config, View()) && !AllDone(View())
      modifies this, cars
      ensures Valid() && Inv(config, View())
      ensures 0 <= Measure(config, View()) < old(Measure(config, View()))
    {
      SomeThreadCanStep(config, View());
      assert forall k: nat, w: nat ::
          Enabled(config, View(), StepOf(k, w)) <==> Enabled(config, Snapshot(), StepOf(k, w));
      var k: nat, wake: nat :| k <= config.customers && wake <= config.customers
                               && Enabled(config, Snapshot(), StepOf(k, wake));
      InvKept(config, View(), StepOf(k, wake));
      if k == 0 {
        RefillerStepMeasured(config, View(), wake);
        Refill(wake);
      } else {
        CustomerStepMeasured(config, View(), k - 1);
        Purchase(k - 1);
      }
      MeasureNonNegative(config, View());
    }

    /** The threads run in any order the scheduler likes, until all are done: they always
        get there, and every car then holds the same number of full stores. */
    method RunThreads()
      requires Valid() && ValidConfig(config) && View() == Init(config)
      modifies this, cars
      ensures Valid() && AllDone(View())
      ensures forall i :: 0 <= i < config.customers ==> cars[i] == config.storage * Fills(config)
      ensures forall i :: 0 <= i < config.customers ==> config.tank <= cars[i] < config.tank + config.storage
      ensures fuel == 0 || fuel == config.storage
      ensures refills == config.customers * Fills(config) + (if fuel > 0 then 1 else 0)
    {
      InitInv(config);
      MeasureNonNegative(config, View());
      while !Finished()
        invariant Valid() && Inv(config, View()) && Measure(config, View()) >= 0
        decreases Measure(config, View())
      {
        RunSomeThread();
      }
      DoneServesEverybody(config, View());
    }
  }
}
