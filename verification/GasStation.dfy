/**
 The gas station: one refiller thread and any number of customer threads share
 `fuel` and `cars` under one mutex and two condition variables.

 Every lock, unlock, signal and every statement on the shared variables is a step of its
 own, with three exceptions inside the critical section, where no other thread can see the
 difference: reading all of `cars`, moving the fuel into a car and emptying the station,
 and testing the wait condition together with going to sleep, which is what makes a wait
 release the mutex atomically. A signal has no memory, wakes one waiter of the scheduler's
 choosing, and a waiter may also wake for no reason.
 */
module GasStation {
  import opened Sums

  /** `broadcast` selects between the two programs: wake-one signals with a final
      notification (false), or a broadcast after each refill and no final one (true). */
  datatype Config = Config(customers: nat, tank: int, storage: int, broadcast: bool)

  ghost predicate ValidConfig(c: Config) {
    c.tank > 0 && c.storage > 0
  }

  datatype Owner = Free | Refiller | Customer(id: nat)

  datatype RefillerPc =
    | RLock        // about to lock
    | REval        // about to compute do_refill
    | RTest        // about to test the wait condition
    | RSleep       // waiting on cond_station_full
    | RWoken       // woken, needs the mutex again
    | RFill        // about to refill
    | RNotify      // about to wake customers
    | RUnlock      // about to unlock
    | RLastNotify  // nobody needs fuel: about to signal for the last time
    | RLastUnlock  // nobody needs fuel: about to unlock and leave
    | RDone

  datatype CustomerPc =
    | CLock        // about to lock
    | CTest        // about to test the wait condition
    | CSleep       // waiting on cond_station_empty
    | CWoken       // woken, needs the mutex again
    | CTake        // about to move the fuel into the car
    | CNotify      // about to signal the refiller
    | CUnlock      // about to unlock
    | CDone

  /** The last two fields are history: how often the station was refilled, and how
      often each customer bought. No step reads them. */
  datatype State = State(
    fuel: int,
    cars: seq<int>,
    mutex: Owner,
    refiller: RefillerPc,
    doRefill: bool,
    customers: seq<CustomerPc>,
    refills: nat,
    purchases: seq<int>)

  datatype Action =
    | RefillerStep(wake: nat)   // `wake` is the waiter a signal picks, if it picks one
    | CustomerStep(id: nat)
    | SpuriousRefiller
    | SpuriousCustomer(id: nat)

  predicate IsSpurious(a: Action) {
    a.SpuriousRefiller? || a.SpuriousCustomer?
  }

  function Init(c: Config): State {
    State(0, seq(c.customers, _ => 0), Free, RLock, false,
          seq(c.customers, _ => CLock), 0, seq(c.customers, _ => 0))
  }

  predicate RefillNeeded(c: Config, cars: seq<int>) {
    exists i :: 0 <= i < |cars| && cars[i] < c.tank
  }

  predicate SomeoneSleeps(cs: seq<CustomerPc>) {
    exists i :: 0 <= i < |cs| && cs[i] == CSleep
  }

  /** A signal picks some sleeping customer when there is one. */
  predicate ValidWake(cs: seq<CustomerPc>, w: nat) {
    SomeoneSleeps(cs) ==> w < |cs| && cs[w] == CSleep
  }

  function WakeOne(cs: seq<CustomerPc>, w: nat): seq<CustomerPc> {
    if w < |cs| && cs[w] == CSleep then cs[w := CWoken] else cs
  }

  function WakeAll(cs: seq<CustomerPc>): seq<CustomerPc> {
    seq(|cs|, i requires 0 <= i < |cs| => if cs[i] == CSleep then CWoken else cs[i])
  }

  predicate Shaped(c: Config, s: State) {
    |s.cars| == |s.customers| == |s.purchases| == c.customers
  }

  predicate Enabled(c: Config, s: State, a: Action)
    requires Shaped(c, s)
  {
    match a
    case RefillerStep(w) => (
      match s.refiller
      case RLock | RWoken => s.mutex == Free
      case RSleep | RDone => false
      case RNotify | RLastNotify => c.broadcast || ValidWake(s.customers, w)
      case _ => true)
    case CustomerStep(i) =>
      i < c.customers && (
        match s.customers[i]
        case CLock | CWoken => s.mutex == Free
        case CSleep | CDone => false
        case _ => true)
    case SpuriousRefiller => s.refiller == RSleep
    case SpuriousCustomer(i) => i < c.customers && s.customers[i] == CSleep
  }

  function NextRefiller(c: Config, s: State, w: nat): State {
    match s.refiller
    case RLock => s.(refiller := REval, mutex := Refiller)
    case REval => s.(refiller := RTest, doRefill := RefillNeeded(c, s.cars))
    case RTest =>
      if s.fuel >= c.storage && s.doRefill then s.(refiller := RSleep, mutex := Free)
      else if !s.doRefill then s.(refiller := if c.broadcast then RLastUnlock else RLastNotify)
      else s.(refiller := RFill)
    case RWoken => s.(refiller := RTest, mutex := Refiller)
    case RFill => s.(refiller := RNotify, fuel := c.storage, doRefill := false, refills := s.refills + 1)
    case RNotify =>
      s.(refiller := RUnlock,
         customers := if c.broadcast then WakeAll(s.customers) else WakeOne(s.customers, w))
    case RUnlock => s.(refiller := RLock, mutex := Free)
    case RLastNotify => s.(refiller := RLastUnlock, customers := WakeOne(s.customers, w))
    case RLastUnlock => s.(refiller := RDone, mutex := Free)
    case RSleep | RDone => s
  }

  function NextCustomer(c: Config, s: State, i: nat): State
    requires Shaped(c, s) && i < c.customers
  {
    match s.customers[i]
    case CLock => s.(customers := s.customers[i := CTest], mutex := Customer(i))
    case CTest =>
      if s.fuel == 0 then s.(customers := s.customers[i := CSleep], mutex := Free)
      else s.(customers := s.customers[i := CTake])
    case CWoken => s.(customers := s.customers[i := CTest], mutex := Customer(i))
    case CTake =>
      s.(customers := s.customers[i := CNotify],
         cars := s.cars[i := s.cars[i] + s.fuel],
         fuel := 0,
         purchases := s.purchases[i := s.purchases[i] + 1])
    case CNotify =>
      s.(customers := s.customers[i := CUnlock],
         refiller := if s.refiller == RSleep then RWoken else s.refiller)
    case CUnlock =>
      s.(customers := s.customers[i := if s.cars[i] >= c.tank then CDone else CLock], mutex := Free)
    case CSleep | CDone => s
  }

  function Next(c: Config, s: State, a: Action): (t: State)
    requires Shaped(c, s) && Enabled(c, s, a)
    ensures Shaped(c, t)
  {
    match a
    case RefillerStep(w) => NextRefiller(c, s, w)
    case CustomerStep(i) => NextCustomer(c, s, i)
    case SpuriousRefiller => s.(refiller := RWoken)
    case SpuriousCustomer(i) => s.(customers := s.customers[i := CWoken])
  }

  /** `acts`, taken one after the other from `s`, are all enabled and lead to `t`. */
  ghost predicate Runs(c: Config, s: State, acts: seq<Action>, t: State)
    requires Shaped(c, s)
    decreases |acts|
  {
    if acts == [] then s == t
    else Enabled(c, s, acts[0]) && Runs(c, Next(c, s, acts[0]), acts[1..], t)
  }

  // ---------------------------------------------------------------- whom a notification wakes

  /** Every sleeper is woken, and nothing else happens to anybody. */
  ghost predicate AllWoken(before: seq<CustomerPc>, after: seq<CustomerPc>) {
    && |after| == |before|
    && forall i :: 0 <= i < |before| ==>
         after[i] != CSleep && after[i] == (if before[i] == CSleep then CWoken else before[i])
  }

  /** Exactly one sleeper is woken if there is one, and nothing else happens to anybody. */
  ghost predicate OneWoken(before: seq<CustomerPc>, after: seq<CustomerPc>) {
    if forall i :: 0 <= i < |before| ==> before[i] != CSleep then after == before
    else exists k :: 0 <= k < |before| && before[k] == CSleep && after == before[k := CWoken]
  }

  /** The two programs differ in whom the refiller wakes; only its notifications wake anybody. */
  lemma NotifyWakes(c: Config, s: State, w: nat)
    requires Shaped(c, s) && Enabled(c, s, RefillerStep(w))
    ensures var t := Next(c, s, RefillerStep(w));
      && (s.refiller == RNotify && c.broadcast ==> AllWoken(s.customers, t.customers))
      && (s.refiller == RNotify && !c.broadcast ==> OneWoken(s.customers, t.customers))
      && (s.refiller == RLastNotify && !c.broadcast ==> OneWoken(s.customers, t.customers))
      && (s.refiller != RNotify && s.refiller != RLastNotify ==> t.customers == s.customers)
  {
    if SomeoneSleeps(s.customers) && !c.broadcast && (s.refiller == RNotify || s.refiller == RLastNotify) {
      assert w < |s.customers| && s.customers[w] == CSleep;
    }
  }

  // ---------------------------------------------------------------- invariant

  predicate RefillerHolds(pc: RefillerPc) {
    pc.REval? || pc.RTest? || pc.RFill? || pc.RNotify? || pc.RUnlock? || pc.RLastNotify? || pc.RLastUnlock?
  }

  predicate CustomerHolds(pc: CustomerPc) {
    pc.CTest? || pc.CTake? || pc.CNotify? || pc.CUnlock?
  }

  /** Exactly the thread that owns the mutex is inside its critical section. */
  ghost predicate MutexInv(c: Config, s: State)
    requires Shaped(c, s)
  {
    && (s.mutex == Refiller <==> RefillerHolds(s.refiller))
    && (s.mutex.Customer? ==> s.mutex.id < c.customers)
    && (forall i :: 0 <= i < c.customers ==> (s.mutex == Customer(i) <==> CustomerHolds(s.customers[i])))
  }

  /** How many refills fill one tank, rounded up. */
  function Fills(c: Config): int
    requires ValidConfig(c)
  {
    (c.tank + c.storage - 1) / c.storage
  }

  ghost predicate CarInv(c: Config, s: State, i: nat)
    requires ValidConfig(c) && Shaped(c, s) && i < c.customers
  {
    var pc := s.customers[i];
    && s.cars[i] == c.storage * s.purchases[i]
    && 0 <= s.purchases[i] <= Fills(c)
    && (s.cars[i] >= c.tank ==> pc.CNotify? || pc.CUnlock? || pc.CDone?)
    && (pc.CDone? ==> s.cars[i] >= c.tank)
    && (pc.CNotify? || pc.CUnlock? ==> s.fuel == 0)
    && (pc.CTake? ==> s.fuel > 0)
  }

  ghost predicate CarsInv(c: Config, s: State)
    requires ValidConfig(c) && Shaped(c, s)
  {
    forall i :: 0 <= i < c.customers ==> CarInv(c, s, i)
  }

  /** Fuel is never lost or made up. */
  ghost predicate FuelInv(c: Config, s: State) {
    && (s.fuel == 0 || s.fuel == c.storage)
    && Sum(s.cars) + s.fuel == c.storage * s.refills
  }

  predicate SomeoneNotifies(cs: seq<CustomerPc>) {
    exists i :: 0 <= i < |cs| && cs[i] == CNotify
  }

  /** What the refiller's flag, computed once before its wait loop, still means later. */
  ghost predicate RefillerInv(c: Config, s: State) {
    var pc := s.refiller;
    && (pc.RTest? && !s.doRefill ==> !RefillNeeded(c, s.cars))
    && (pc.RSleep? || pc.RWoken? || pc.RFill? ==> s.doRefill)
    && ((pc.RTest? || pc.RSleep? || pc.RWoken?) && s.doRefill && s.fuel > 0 ==> RefillNeeded(c, s.cars))
    && (pc.RFill? ==> s.fuel == 0)
    && (pc.RNotify? ==> s.fuel > 0)
    && (pc.RLastNotify? || pc.RLastUnlock? || pc.RDone? ==> !RefillNeeded(c, s.cars))
    && (pc.RSleep? && s.fuel == 0 ==> SomeoneNotifies(s.customers))
    && !(c.broadcast && pc.RLastNotify?)
  }

  predicate Awake(pc: CustomerPc) {
    pc != CSleep && pc != CDone
  }

  predicate SomeoneAwake(cs: seq<CustomerPc>) {
    exists i :: 0 <= i < |cs| && Awake(cs[i])
  }

  predicate AllCustomersDone(cs: seq<CustomerPc>) {
    forall i :: 0 <= i < |cs| ==> cs[i] == CDone
  }

  /** No lost wake-up: while there is fuel and somebody left to buy it, somebody who is
      not done is not asleep either, unless the refiller is just about to wake them. */
  ghost predicate WakeInv(s: State) {
    s.fuel > 0 && s.refiller != RNotify && !AllCustomersDone(s.customers) ==> SomeoneAwake(s.customers)
  }

  ghost predicate Inv(c: Config, s: State)
    requires ValidConfig(c)
  {
    && Shaped(c, s)
    && MutexInv(c, s)
    && CarsInv(c, s)
    && FuelInv(c, s)
    && RefillerInv(c, s)
    && WakeInv(s)
  }

  lemma InitInv(c: Config)
    requires ValidConfig(c)
    ensures Inv(c, Init(c))
  {
    var s := Init(c);
    SumBounds(s.cars, 0, 0);
    assert 0 * |s.cars| == 0 && c.storage * 0 == 0;
    assert Fills(c) >= 0;
  }

  /** A car below its capacity has not been filled `Fills` times, and one more purchase
      never makes it more than that. */
  lemma OneMorePurchase(c: Config, p: int)
    requires ValidConfig(c) && p >= 0
    ensures c.storage * p < c.tank <==> p < Fills(c)
  {
    var f := Fills(c);
    assert c.storage * f >= c.tank && c.storage * (f - 1) < c.tank;
    if p < f {
      assert c.storage * p <= c.storage * (f - 1);
    } else {
      assert c.storage * p >= c.storage * f;
    }
  }

  lemma CarsKept(c: Config, s: State, a: Action)
    requires ValidConfig(c) && Inv(c, s) && Enabled(c, s, a)
    ensures CarsInv(c, Next(c, s, a))
  {
    var t := Next(c, s, a);
    forall i | 0 <= i < c.customers
      ensures CarInv(c, t, i)
    {
      assert CarInv(c, s, i);
      if a == CustomerStep(i) && s.customers[i] == CTake {
        OneMorePurchase(c, s.purchases[i]);
        assert c.storage * (s.purchases[i] + 1) == c.storage * s.purchases[i] + c.storage;
      }
    }
  }

  lemma FuelKept(c: Config, s: State, a: Action)
    requires ValidConfig(c) && Inv(c, s) && Enabled(c, s, a)
    ensures FuelInv(c, Next(c, s, a))
  {
    if a.CustomerStep? && s.customers[a.id] == CTake {
      SumUpdate(s.cars, a.id, s.cars[a.id] + s.fuel);
    }
    if a.RefillerStep? && s.refiller == RFill {
      assert c.storage * (s.refills + 1) == c.storage * s.refills + c.storage;
    }
  }

  lemma RefillerKept(c: Config, s: State, a: Action)
    requires ValidConfig(c) && Inv(c, s) && Enabled(c, s, a)
    ensures RefillerInv(c, Next(c, s, a))
  {
    var t := Next(c, s, a);
    if a.CustomerStep? {
      assert CarInv(c, s, a.id);
    }
    if t.refiller.RSleep? && t.fuel == 0 {
      if a.CustomerStep? && s.customers[a.id].CTake? {
        assert t.customers[a.id] == CNotify;
      } else {
        var k :| 0 <= k < c.customers && s.customers[k] == CNotify;
        assert t.customers[k] == CNotify;
      }
    }
  }

  /** A wake-up, of one or of all, never puts anybody to sleep. */
  lemma WakingKeepsAwake(c: Config, s: State, w: nat)
    requires Shaped(c, s) && Enabled(c, s, RefillerStep(w))
    requires SomeoneAwake(s.customers)
    ensures SomeoneAwake(NextRefiller(c, s, w).customers)
  {
    var k :| 0 <= k < c.customers && Awake(s.customers[k]);
    assert Awake(NextRefiller(c, s, w).customers[k]);
  }

  lemma WakeKept(c: Config, s: State, a: Action)
    requires ValidConfig(c) && Inv(c, s) && Enabled(c, s, a)
    ensures WakeInv(Next(c, s, a))
  {
    var t := Next(c, s, a);
    match a
    case CustomerStep(i) =>
      assert CarInv(c, s, i);
      if t.fuel > 0 {
        assert Awake(t.customers[i]);
      }
    case SpuriousCustomer(i) =>
      assert Awake(t.customers[i]);
    case SpuriousRefiller =>
    case RefillerStep(w) =>
      if SomeoneAwake(s.customers) {
        WakingKeepsAwake(c, s, w);
      } else if s.refiller == RNotify && !AllCustomersDone(s.customers) {
        var k :| 0 <= k < c.customers && s.customers[k] != CDone;
        assert !Awake(s.customers[k]);
        assert s.customers[k] == CSleep;
        assert Awake(t.customers[if c.broadcast then k else w]);
      }
  }

  lemma InvKept(c: Config, s: State, a: Action)
    requires ValidConfig(c) && Inv(c, s) && Enabled(c, s, a)
    ensures Inv(c, Next(c, s, a))
  {
    CarsKept(c, s, a);
    FuelKept(c, s, a);
    RefillerKept(c, s, a);
    WakeKept(c, s, a);
  }

  lemma {:induction false} RunsKeepInv(c: Config, s: State, acts: seq<Action>, t: State)
    requires ValidConfig(c) && Inv(c, s) && Runs(c, s, acts, t)
    ensures Inv(c, t)
    decreases |acts|
  {
    if acts != [] {
      InvKept(c, s, acts[0]);
      RunsKeepInv(c, Next(c, s, acts[0]), acts[1..], t);
    }
  }

  // ---------------------------------------------------------------- safety of every run

  ghost predicate Reachable(c: Config, s: State) {
    exists acts :: Runs(c, Init(c), acts, s)
  }

  lemma ReachableInv(c: Config, s: State)
    requires ValidConfig(c) && Reachable(c, s)
    ensures Inv(c, s)
  {
    var acts :| Runs(c, Init(c), acts, s);
    InitInv(c);
    RunsKeepInv(c, Init(c), acts, s);
  }

  /** No two threads are inside the critical section. */
  lemma MutualExclusion(c: Config, s: State)
    requires ValidConfig(c) && Reachable(c, s)
    ensures Shaped(c, s)
    ensures forall i, j :: 0 <= i < j < c.customers ==>
              !(CustomerHolds(s.customers[i]) && CustomerHolds(s.customers[j]))
    ensures forall i :: 0 <= i < c.customers ==>
              !(CustomerHolds(s.customers[i]) && RefillerHolds(s.refiller))
  {
    ReachableInv(c, s);
  }

  /** Fuel in the cars plus fuel at the station is what the refills brought; a refill
      never overwrites fuel; a car that left holds exactly the rounded-up number of refills. */
  lemma FuelConserved(c: Config, s: State)
    requires ValidConfig(c) && Reachable(c, s)
    ensures Shaped(c, s)
    ensures Sum(s.cars) + s.fuel == c.storage * s.refills
    ensures s.fuel == 0 || s.fuel == c.storage
    ensures s.refiller == RFill ==> s.fuel == 0
    ensures forall i :: 0 <= i < c.customers && s.customers[i] == CDone ==> s.cars[i] == c.storage * Fills(c)
    ensures forall i :: 0 <= i < c.customers ==> 0 <= s.cars[i] <= c.storage * Fills(c)
  {
    ReachableInv(c, s);
    forall i | 0 <= i < c.customers
      ensures s.customers[i] == CDone ==> s.cars[i] == c.storage * Fills(c)
      ensures 0 <= s.cars[i] <= c.storage * Fills(c)
    {
      assert CarInv(c, s, i);
      FilledCar(c, s, i);
    }
  }

  lemma FilledCar(c: Config, s: State, i: nat)
    requires ValidConfig(c) && Inv(c, s) && i < c.customers
    ensures 0 <= s.cars[i] <= c.storage * Fills(c)
    ensures s.cars[i] >= c.tank <==> s.purchases[i] == Fills(c)
    ensures s.cars[i] >= c.tank ==> s.cars[i] == c.storage * Fills(c)
  {
    assert CarInv(c, s, i);
    OneMorePurchase(c, s.purchases[i]);
    assert 0 <= c.storage * s.purchases[i] <= c.storage * Fills(c);
  }

  /** Every refill but the one still in store was bought by somebody. */
  lemma RefillsCounted(c: Config, s: State)
    requires ValidConfig(c) && Inv(c, s)
    ensures s.refills == Sum(s.purchases) + (if s.fuel > 0 then 1 else 0)
  {
    forall i | 0 <= i < c.customers
      ensures s.cars[i] == c.storage * s.purchases[i]
    {
      assert CarInv(c, s, i);
    }
    SumScale(s.cars, s.purchases, c.storage);
  }

  /** The station is refilled at most once for each purchase and once more. */
  lemma RefillsBounded(c: Config, s: State)
    requires ValidConfig(c) && Inv(c, s)
    ensures 0 <= s.refills <= c.customers * Fills(c) + 1
    ensures !RefillNeeded(c, s.cars) ==> Sum(s.purchases) == c.customers * Fills(c)
  {
    var f := Fills(c);
    forall i | 0 <= i < c.customers
      ensures 0 <= s.purchases[i] <= f
      ensures !RefillNeeded(c, s.cars) ==> s.purchases[i] == f
    {
      FilledCar(c, s, i);
      assert CarInv(c, s, i);
    }
    SumBounds(s.purchases, if RefillNeeded(c, s.cars) then 0 else f, f);
    RefillsCounted(c, s);
  }

  /** Once every car is full there is at most one refill left to be done, ever. */
  lemma OneRefillAfterTheLastPurchase(c: Config, s: State)
    requires ValidConfig(c) && Reachable(c, s) && !RefillNeeded(c, s.cars)
    ensures s.refills == c.customers * Fills(c) + (if s.fuel > 0 then 1 else 0)
  {
    ReachableInv(c, s);
    RefillsBounded(c, s);
    RefillsCounted(c, s);
  }

  // ---------------------------------------------------------------- no deadlock

  ghost predicate AllDone(s: State) {
    s.refiller == RDone && AllCustomersDone(s.customers)
  }

  /** A thread can move on its own, without a wake-up out of nowhere. */
  ghost predicate CanMove(c: Config, s: State)
    requires Shaped(c, s)
  {
    exists a :: !IsSpurious(a) && Enabled(c, s, a)
  }

  lemma OwnerMoves(c: Config, s: State)
    requires ValidConfig(c) && Inv(c, s) && s.mutex != Free
    ensures CanMove(c, s)
  {
    if s.mutex == Refiller {
      if SomeoneSleeps(s.customers) {
        var w :| 0 <= w < c.customers && s.customers[w] == CSleep;
        assert Enabled(c, s, RefillerStep(w));
      } else {
        assert Enabled(c, s, RefillerStep(0));
      }
    } else {
      assert Enabled(c, s, CustomerStep(s.mutex.id));
    }
  }

  /** With the mutex free, a thread that is not done and not asleep takes it. */
  lemma LockIsTaken(c: Config, s: State, i: nat)
    requires ValidConfig(c) && Inv(c, s) && s.mutex == Free
    requires i < c.customers && Awake(s.customers[i])
    ensures CanMove(c, s)
  {
    assert !CustomerHolds(s.customers[i]);
    assert Enabled(c, s, CustomerStep(i));
  }

  /** The refiller sleeps only over a full store that somebody awake is coming for, or with
      a customer who has bought it just about to signal. */
  lemma SleeperHasCompany(c: Config, s: State)
    requires ValidConfig(c) && Inv(c, s) && s.refiller == RSleep
    ensures SomeoneAwake(s.customers)
    ensures if s.fuel == 0 then SomeoneNotifies(s.customers) else s.fuel == c.storage && RefillNeeded(c, s.cars)
  {
    if s.fuel == 0 {
      var k :| 0 <= k < c.customers && s.customers[k] == CNotify;
      assert Awake(s.customers[k]);
    } else {
      var k :| 0 <= k < c.customers && s.cars[k] < c.tank;
      assert CarInv(c, s, k);
    }
  }

  lemma NoDeadlock(c: Config, s: State)
    requires ValidConfig(c) && Inv(c, s)
    ensures CanMove(c, s) <==> !AllDone(s)
  {
    if s.mutex != Free {
      OwnerMoves(c, s);
    } else if SomeoneAwake(s.customers) {
      var i :| 0 <= i < c.customers && Awake(s.customers[i]);
      LockIsTaken(c, s, i);
    } else if s.refiller == RLock || s.refiller == RWoken {
      assert Enabled(c, s, RefillerStep(0));
    } else {
      if s.refiller == RSleep {
        SleeperHasCompany(c, s);
      }
      forall i | 0 <= i < c.customers
        ensures s.customers[i] == CDone
      {
        assert CarInv(c, s, i);
        assert !Awake(s.customers[i]);
      }
    }
  }
}
