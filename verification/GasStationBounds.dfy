/**
 Every run of the gas station ends, if threads do not wake for no reason for ever: a
 measure decreases with each step, and it bounds the length of a run from the start.
 */
module GasStationBounds {
  import opened Sums
  import opened GasStation

  function RefillerWeight(c: Config, pc: RefillerPc): nat {
    match pc
    case RDone | RSleep => 0
    case RLastUnlock => 1
    case RLastNotify | RFill => 4
    case RTest => 5
    case REval | RWoken => 6
    case RLock => 7
    case RUnlock => 8
    case RNotify => 9 + 2 * c.customers
  }

  function CustomerWeight(pc: CustomerPc): nat {
    match pc
    case CDone | CSleep | CTake => 0
    case CTest => 1
    case CLock | CWoken => 2
    case CUnlock => 3
    case CNotify => 10
  }

  function Weights(cs: seq<CustomerPc>): seq<int> {
    seq(|cs|, i requires 0 <= i < |cs| => CustomerWeight(cs[i]))
  }

  /** What one refill and the purchase it allows may cost in steps. */
  function RefillCost(c: Config): nat {
    17 + 2 * c.customers
  }

  function RefillCosts(c: Config, refills: int): (cost: int)
    ensures cost >= 0
  {
    if refills <= 0 then 0 else RefillCost(c) + RefillCosts(c, refills - 1)
  }

  lemma {:induction false} CostsAre(c: Config, refills: nat)
    ensures RefillCosts(c, refills) == RefillCost(c) * refills
  {
    if refills > 0 {
      CostsAre(c, refills - 1);
      assert RefillCost(c) * refills == RefillCost(c) * (refills - 1) + RefillCost(c);
    }
  }

  /** An upper bound on the steps left, as long as nobody wakes for no reason. */
  function Measure(c: Config, s: State): int
    requires ValidConfig(c)
  {
    RefillCosts(c, c.customers * Fills(c) + 1 - s.refills)
    + (if s.fuel > 0 then 11 else 0)
    + RefillerWeight(c, s.refiller)
    + Sum(Weights(s.customers))
  }

  lemma WeightsUpdate(cs: seq<CustomerPc>, i: nat, pc: CustomerPc)
    requires i < |cs|
    ensures Sum(Weights(cs[i := pc])) == Sum(Weights(cs)) - CustomerWeight(cs[i]) + CustomerWeight(pc)
  {
    SumUpdate(Weights(cs), i, CustomerWeight(pc));
    assert Weights(cs[i := pc]) == Weights(cs)[i := CustomerWeight(pc)];
  }

  lemma {:induction false} WakeAllWeights(cs: seq<CustomerPc>)
    ensures Sum(Weights(WakeAll(cs))) <= Sum(Weights(cs)) + 2 * |cs|
  {
    if cs != [] {
      assert Weights(cs)[1..] == Weights(cs[1..]);
      assert WakeAll(cs)[1..] == WakeAll(cs[1..]);
      assert Weights(WakeAll(cs))[1..] == Weights(WakeAll(cs[1..]));
      WakeAllWeights(cs[1..]);
    }
  }

  lemma WakeOneWeights(cs: seq<CustomerPc>, w: nat)
    ensures Sum(Weights(WakeOne(cs, w))) <= Sum(Weights(cs)) + 2
    ensures cs == [] ==> Weights(WakeOne(cs, w)) == []
  {
    if w < |cs| && cs[w] == CSleep {
      WeightsUpdate(cs, w, CWoken);
    }
  }

  lemma RefillerStepMeasured(c: Config, s: State, w: nat)
    requires ValidConfig(c) && Inv(c, s) && Enabled(c, s, RefillerStep(w))
    ensures Measure(c, NextRefiller(c, s, w)) < Measure(c, s)
  {
    WakeAllWeights(s.customers);
    WakeOneWeights(s.customers, w);
    if s.refiller == RFill {
      InvKept(c, s, RefillerStep(w));
      RefillsBounded(c, NextRefiller(c, s, w));
    }
  }

  lemma CustomerStepMeasured(c: Config, s: State, i: nat)
    requires ValidConfig(c) && Inv(c, s) && Enabled(c, s, CustomerStep(i))
    ensures Measure(c, NextCustomer(c, s, i)) < Measure(c, s)
  {
    assert CarInv(c, s, i);
    WeightsUpdate(s.customers, i, NextCustomer(c, s, i).customers[i]);
  }

  lemma SpuriousMeasured(c: Config, s: State, a: Action)
    requires ValidConfig(c) && Inv(c, s) && Enabled(c, s, a) && IsSpurious(a)
    ensures Measure(c, Next(c, s, a)) <= Measure(c, s) + 6
  {
    if a.SpuriousCustomer? {
      WeightsUpdate(s.customers, a.id, CWoken);
    }
  }

  lemma MeasureNonNegative(c: Config, s: State)
    requires ValidConfig(c) && Inv(c, s)
    ensures Measure(c, s) >= 0
  {
    SumBounds(Weights(s.customers), 0, 10);
  }

  function SpuriousCount(acts: seq<Action>): nat {
    if acts == [] then 0 else (if IsSpurious(acts[0]) then 1 else 0) + SpuriousCount(acts[1..])
  }

  lemma {:induction false} RunMeasured(c: Config, s: State, acts: seq<Action>, t: State)
    requires ValidConfig(c) && Inv(c, s) && Runs(c, s, acts, t)
    ensures |acts| + Measure(c, t) <= Measure(c, s) + 7 * SpuriousCount(acts)
    decreases |acts|
  {
    if acts != [] {
      var a := acts[0];
      InvKept(c, s, a);
      match a {
        case RefillerStep(w) => RefillerStepMeasured(c, s, w);
        case CustomerStep(i) => CustomerStepMeasured(c, s, i);
        case _ => SpuriousMeasured(c, s, a);
      }
      RunMeasured(c, Next(c, s, a), acts[1..], t);
    }
  }

  /** No run is longer than a bound in the number of customers and refills, plus seven
      steps for each wake-up out of nowhere. */
  lemma RunsAreBounded(c: Config, acts: seq<Action>, t: State)
    requires ValidConfig(c) && Runs(c, Init(c), acts, t)
    ensures |acts| <= (17 + 2 * c.customers) * (c.customers * Fills(c) + 1) + 2 * c.customers + 7
                      + 7 * SpuriousCount(acts)
  {
    var s := Init(c);
    InitInv(c);
    RunMeasured(c, s, acts, t);
    RunsKeepInv(c, s, acts, t);
    MeasureNonNegative(c, t);
    SumBounds(Weights(s.customers), 2, 2);
    var most := c.customers * Fills(c) + 1;
    ProductIsNatural(c.customers, Fills(c));
    CostsAre(c, most);
  }

  /** When all threads are done every car holds the rounded-up number of stores. */
  lemma DoneServesEverybody(c: Config, s: State)
    requires ValidConfig(c) && Inv(c, s) && AllDone(s)
    ensures forall i :: 0 <= i < c.customers ==> s.cars[i] == c.storage * Fills(c)
    ensures forall i :: 0 <= i < c.customers ==> c.tank <= s.cars[i] < c.tank + c.storage
    ensures s.refills == c.customers * Fills(c) + (if s.fuel > 0 then 1 else 0)
  {
    forall i | 0 <= i < c.customers
      ensures s.cars[i] == c.storage * Fills(c) && c.tank <= s.cars[i] < c.tank + c.storage
    {
      assert CarInv(c, s, i);
      FilledCar(c, s, i);
      OneMorePurchase(c, Fills(c) - 1);
      assert c.storage * Fills(c) == c.storage * (Fills(c) - 1) + c.storage;
    }
    RefillsBounded(c, s);
    RefillsCounted(c, s);
  }

  /** A run that can only be continued by wake-ups out of nowhere has served everybody. */
  lemma FinishedRunsServeEverybody(c: Config, acts: seq<Action>, t: State)
    requires ValidConfig(c) && Runs(c, Init(c), acts, t)
    requires Shaped(c, t) && !CanMove(c, t)
    ensures AllDone(t)
    ensures forall i :: 0 <= i < c.customers ==> t.cars[i] == c.storage * Fills(c)
    ensures forall i :: 0 <= i < c.customers ==> c.tank <= t.cars[i] < c.tank + c.storage
    ensures t.refills == c.customers * Fills(c) + (if t.fuel > 0 then 1 else 0)
  {
    assert Reachable(c, t);
    ReachableInv(c, t);
    NoDeadlock(c, t);
    DoneServesEverybody(c, t);
  }

  /** Thread 0 is the refiller, thread `k` customer `k` - 1. */
  function StepOf(k: nat, wake: nat): Action {
    if k == 0 then RefillerStep(wake) else CustomerStep(k - 1)
  }

  lemma SomeThreadCanStep(c: Config, s: State)
    requires ValidConfig(c) && Inv(c, s) && !AllDone(s)
    ensures exists k: nat, wake: nat :: k <= c.customers && wake <= c.customers && Enabled(c, s, StepOf(k, wake))
  {
    NoDeadlock(c, s);
    var a :| !IsSpurious(a) && Enabled(c, s, a);
    if a.RefillerStep? {
      var wake := if a.wake <= c.customers then a.wake else 0;
      assert Enabled(c, s, StepOf(0, wake));
    } else {
      assert Enabled(c, s, StepOf(a.id + 1, 0));
    }
  }

  /** From every reachable state the threads can finish with no more wake-ups out of nowhere. */
  lemma {:induction false} EverybodyCanFinish(c: Config, s: State) returns (acts: seq<Action>, t: State)
    requires ValidConfig(c) && Inv(c, s)
    ensures Runs(c, s, acts, t) && SpuriousCount(acts) == 0 && AllDone(t)
    decreases Measure(c, s)
  {
    NoDeadlock(c, s);
    if AllDone(s) {
      acts, t := [], s;
    } else {
      var a :| !IsSpurious(a) && Enabled(c, s, a);
      var u := Next(c, s, a);
      InvKept(c, s, a);
      MeasureNonNegative(c, s);
      if a.RefillerStep? {
        RefillerStepMeasured(c, s, a.wake);
      } else {
        CustomerStepMeasured(c, s, a.id);
      }
      var rest: seq<Action>;
      rest, t := EverybodyCanFinish(c, u);
      acts := [a] + rest;
      assert acts[1..] == rest;
    }
  }

  // ---------------------------------------------------------------- how often customers are notified

  /** The refiller signals or broadcasts to the customers. */
  predicate IsNotification(s: State, a: Action) {
    a.RefillerStep? && (s.refiller == RNotify || s.refiller == RLastNotify)
  }

  ghost function Notifications(c: Config, s: State, acts: seq<Action>, t: State): nat
    requires Shaped(c, s) && Runs(c, s, acts, t)
    decreases |acts|
  {
    if acts == [] then 0
    else (if IsNotification(s, acts[0]) then 1 else 0) + Notifications(c, Next(c, s, acts[0]), acts[1..], t)
  }

  /** The notifications there have been, to judge by where the refiller is. */
  function Notified(c: Config, s: State): int {
    s.refills - (if s.refiller == RNotify then 1 else 0)
    + (if !c.broadcast && (s.refiller == RLastUnlock || s.refiller == RDone) then 1 else 0)
  }

  lemma StepNotifies(c: Config, s: State, a: Action)
    requires ValidConfig(c) && Inv(c, s) && Enabled(c, s, a)
    ensures Notified(c, Next(c, s, a)) == Notified(c, s) + (if IsNotification(s, a) then 1 else 0)
  {
  }

  lemma {:induction false} RunNotifies(c: Config, s: State, acts: seq<Action>, t: State)
    requires ValidConfig(c) && Inv(c, s) && Runs(c, s, acts, t)
    ensures Notifications(c, s, acts, t) == Notified(c, t) - Notified(c, s)
    decreases |acts|
  {
    if acts != [] {
      InvKept(c, s, acts[0]);
      StepNotifies(c, s, acts[0]);
      RunNotifies(c, Next(c, s, acts[0]), acts[1..], t);
    }
  }

  /** By the time the refiller leaves it has notified the customers once for each refill, and
      in the program that wakes one at a time once more. */
  lemma NotificationsCounted(c: Config, acts: seq<Action>, t: State)
    requires ValidConfig(c) && Runs(c, Init(c), acts, t) && t.refiller == RDone
    ensures Notifications(c, Init(c), acts, t) == if c.broadcast then t.refills else t.refills + 1
  {
    InitInv(c);
    RunNotifies(c, Init(c), acts, t);
  }
}
