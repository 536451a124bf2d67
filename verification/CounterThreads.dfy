/**
 `thread_increment` of the five counter programs, as methods over the shared variable. One
 call performs the one statement the thread has reached; each call is shown to be exactly
 the step that modules Races and LockedCounters reason about.
 */
module CounterThreads {
  import R = Races
  import L = LockedCounters

  /** `thread_partial_overwrite` (with a load in every iteration) and `thread_total_overwrite`. */
  class Unlocked {
    const config: R.Config
    var a: int
    const pcs: array<R.Pc>
    const tmps: array<int>
    const loops: array<int>

    predicate Valid()
      reads this
    {
      pcs.Length == tmps.Length == loops.Length == config.threads && tmps != loops
    }

    function View(): (s: R.State)
      reads this, pcs, tmps, loops
      requires Valid()
      ensures R.Shaped(config, s)
    {
      R.State(a, pcs[..], tmps[..], loops[..])
    }

    constructor (c: R.Config)
      ensures Valid() && config == c && fresh(pcs) && fresh(tmps) && fresh(loops)
      ensures View() == R.Init(c)
    {
      config := c;
      a := 0;
      pcs := new R.Pc[c.threads](_ => R.Load);
      tmps := new int[c.threads](_ => 0);
      loops := new int[c.threads](_ => 0);
      new;
      assert pcs[..] == R.Init(c).pcs && tmps[..] == R.Init(c).tmps && loops[..] == R.Init(c).done;
    }

    method ThreadIncrement(k: nat)
      requires Valid() && k < config.threads && !R.Finished(config, View(), k)
      modifies this, pcs, tmps, loops
      ensures Valid() && View() == R.Step(config, old(View()), k)
    {
      match pcs[k] {
        case Load =>
          tmps[k] := a;
          pcs[k] := R.Add;
        case Add =>
          tmps[k] := tmps[k] + 1;
          pcs[k] := R.Store;
        case Store =>
          a := tmps[k];
          loops[k] := loops[k] + 1;
          pcs[k] := if config.reload then R.Load else R.Add;
      }
      assert View() == R.Step(config, old(View()), k);
    }

    /** The threads run in any order the scheduler likes; they always end, with a result in
        the range. */
    method RunThreads()
      requires Valid() && View() == R.Init(config)
      modifies this, pcs, tmps, loops
      ensures Valid() && R.AllFinished(config, View())
      ensures R.Lowest(config) <= a <= config.threads * config.iterations
    {
      R.InitInv(config);
      while !R.AllFinished(config, View())
        invariant Valid() && R.Inv(config, View())
        decreases R.Measure(config, View())
      {
        var k: nat :| k < config.threads && !R.Finished(config, View(), k);
        R.MeasureIsNatural(config, View());
        R.StepMeasured(config, View(), k);
        R.StepKeepsInv(config, View(), k);
        ThreadIncrement(k);
      }
      R.FinishedInRange(config, View());
    }
  }

  /** The three programs with a mutex. */
  class Locked {
    const config: L.Config
    var a: int
    var mutex: L.Owner
    const pcs: array<L.Pc>
    const loops: array<int>
    const tmps: array<int>
    const loaded: array<int>

    predicate Valid()
      reads this
    {
      && pcs.Length == loops.Length == tmps.Length == loaded.Length == config.threads
      && loops != tmps && tmps != loaded && loops != loaded
    }

    function View(): (s: L.State)
      reads this, pcs, loops, tmps, loaded
      requires Valid()
      ensures L.Shaped(config, s)
    {
      L.State(a, mutex, pcs[..], loops[..], tmps[..], loaded[..])
    }

    constructor (c: L.Config)
      ensures Valid() && config == c && fresh(pcs) && fresh(loops) && fresh(tmps) && fresh(loaded)
      ensures View() == L.Init(c)
    {
      config := c;
      a := 0;
      mutex := L.Free;
      var start := L.Start(c);
      pcs := new L.Pc[c.threads](_ => start);
      loops := new int[c.threads](_ => 0);
      tmps := new int[c.threads](_ => 0);
      loaded := new int[c.threads](_ => 0);
      new;
      assert pcs[..] == L.Init(c).pcs && loops[..] == L.Init(c).loops;
      assert tmps[..] == L.Init(c).tmps && loaded[..] == L.Init(c).loaded;
    }

    method ThreadIncrement(k: nat)
      requires Valid() && L.Enabled(config, View(), k)
      modifies this, pcs, loops, tmps, loaded
      ensures Valid() && View() == L.Step(config, old(View()), k)
    {
      match pcs[k] {
        case Count =>
          if loops[k] < config.iterations {
            tmps[k] := tmps[k] + 1;
            loops[k] := loops[k] + 1;
          } else {
            pcs[k] := L.Lock;
          }
        case Lock =>
          mutex := L.Held(k);
          pcs[k] := if config.style == L.CoarseGrained then L.Test else L.Load;
        case Test =>
          pcs[k] := if loops[k] < config.iterations then L.Load else L.Unlock;
        case Load =>
          loaded[k] := a;
          pcs[k] := L.Store;
        case Store =>
          if config.style == L.LocalAccumulation {
            a := loaded[k] + tmps[k];
            pcs[k] := L.Unlock;
          } else {
            a := loaded[k] + 1;
            loops[k] := loops[k] + 1;
            pcs[k] := if config.style == L.CoarseGrained then L.Test else L.Unlock;
          }
        case Unlock =>
          mutex := L.Free;
          pcs[k] := if config.style == L.FineGrained && loops[k] < config.iterations then L.Lock else L.Done;
        case _ =>
          assert false;
      }
      assert View() == L.Step(config, old(View()), k);
    }

    predicate Finished()
      reads this, pcs
    {
      forall k :: 0 <= k < pcs.Length ==> pcs[k] == L.Done
    }

    /** Whatever the scheduler does, the threads end, and every increment is counted. */
    method RunThreads()
      requires Valid() && View() == L.Init(config)
      modifies this, pcs, loops, tmps, loaded
      ensures Valid() && L.AllDone(View())
      ensures a == config.threads * config.iterations
    {
      L.InitInv(config);
      while !Finished()
        invariant Valid() && L.Inv(config, View()) && L.AtomicInv(config, L.Abs(config, View()))
        decreases L.Measure(config, View())
      {
        L.SomeThreadCanStep(config, View());
        var k: nat :| k < config.threads && L.Enabled(config, View(), k);
        L.MeasureIsNatural(config, View());
        L.StepMeasured(config, View(), k);
        L.StepKeepsInv(config, View(), k);
        L.StepKeepsAtomicInv(config, View(), k);
        ThreadIncrement(k);
      }
      L.DoneCountsAll(config, View());
    }
  }
}
