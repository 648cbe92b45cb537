/**
 configs/common/Simulation.py: the loops that drive the simulator, carried out on its state.
 `ScriptedCheckpoints` and `CpuSwitching` hold what these loops mean.
 */
module SimulationControl {
  import opened SimOracle
  import opened ScriptedCheckpoints
  import opened CpuSwitching

  class Simulator {
    var sim: Sim
    /** The ticks at which checkpoints were written. */
    var dropped: seq<int>
    /** The processors that are switched in. */
    var active: set<nat>

    constructor (tick: int, script: seq<Response>, active: set<nat>)
      ensures sim == Sim(tick, script) && dropped == [] && this.active == active
    {
      sim, dropped, this.active := Sim(tick, script), [], active;
    }

    /** `m5.simulate(n)` */
    method Run(n: nat) returns (cause: Cause)
      modifies this`sim
      ensures Call(cause, sim) == Simulate(old(sim), n)
    {
      var c := Simulate(sim, n);
      sim := c.sim;
      return c.cause;
    }

    /** `m5.checkpoint(...)` */
    method Checkpoint()
      modifies this`dropped
      ensures dropped == old(dropped) + [sim.tick]
    {
      dropped := dropped + [sim.tick];
    }

    /** Simulate up to a tick, and again as long as the benchmark's checkpoint instructions interrupt. */
    method RunTo(target: int) returns (first: Cause, last: Cause)
      requires sim.tick <= target
      modifies this`sim
      ensures Reached(first, last, sim) == Reach(old(sim), target)
    {
      ghost var all := Reach(sim, target);
      first := Run(target - sim.tick);
      last := first;
      while last == CheckpointInst
        invariant sim.tick <= target && first == all.first
        invariant last == CheckpointInst ==> Reach(sim, target).last == all.last && Reach(sim, target).sim == all.sim
        invariant last != CheckpointInst ==> last == all.last && sim == all.sim
        decreases |sim.script|, last == CheckpointInst
      {
        last := Run(target - sim.tick);
      }
    }

    /** One period of the script, with the checkpoint at its end if that is reached. */
    method RunPeriod(p: Plan, ghost all: Scripted, ghost num: nat) returns (first: Cause, last: Cause)
      requires num > 0 && OnPlan(p, all, sim, num, LimitReached, LimitReached, dropped) && Requested(p, num)
      modifies this`sim, this`dropped
      ensures OnPlan(p, all, sim, if last == LimitReached then num + 1 else num, first, last, dropped)
      ensures first == LimitReached ==> last == LimitReached && sim.tick == old(sim).tick + p.period
    {
      PlanStep(p, all, sim, num, dropped);
      first, last := RunTo(sim.tick + p.period);
      if last == LimitReached {
        Checkpoint();
      }
    }

    /**
     The branch of `scriptCheckpoints` that counts ticks. A call to simulate for a negative number
     of ticks fails, which ends the run.
     */
    method ScriptCheckpoints(p: Plan) returns (failed: bool, last: Cause)
      requires dropped == []
      modifies this`sim, this`dropped
      ensures ScriptedRun(p, old(sim)) == if failed then Failed(dropped, sim) else Ended(dropped, last, sim)
      ensures failed <==> old(sim).tick > p.when ||
                          (Resumes(old(sim).script) && p.maxCheckpoints > 1 && p.when > p.maxTick)
      ensures OnTime(p, 0, dropped)
    {
      last := OtherExit;
      ScriptEnds(p, sim);
      DropsFollowPlan(p, sim);
      if p.when - sim.tick < 0 {
        return true, last;
      }
      ghost var all := ScriptedRun(p, sim);
      var cause;
      cause, last := RunTo(p.when);
      cause := last;
      if cause != LimitReached {
        return false, last;
      }
      Checkpoint();
      var num, simTicks := 1, p.when;
      PlanStarts(p, old(sim));
      while num < p.maxCheckpoints && cause == LimitReached
        invariant num > 0 && OnPlan(p, all, sim, num, cause, last, dropped)
        invariant cause == LimitReached ==> simTicks == sim.tick
        decreases p.maxCheckpoints - num, cause == LimitReached
      {
        PlanEnds(p, all, sim, num, dropped);
        if simTicks + p.period > p.maxTick {
          if p.maxTick - simTicks < 0 {
            return true, last;
          }
          last := Run(p.maxTick - simTicks);
          return false, last;
        }
        cause, last := RunPeriod(p, all, num);
        simTicks := simTicks + p.period;
        if last == LimitReached {
          num := num + 1;
        }
      }
      if cause == LimitReached {
        PlanEnds(p, all, sim, num, dropped);
      }
      return false, last;
    }

    /**
     `m5.switchCpus`: false is an error, either a failed test or the assertion of a processor that
     it is not switched out or in twice.
     */
    method SwitchCpus(pairs: seq<Pair>) returns (ok: bool)
      modifies this`active
      ensures ok <==> CanSwitch(pairs, old(active))
      ensures ok ==> active == (old(active) - Olds(pairs)) + News(pairs)
      ensures !PassesTests(pairs, old(active)) ==> active == old(active)
    {
      ok := TestPairs(pairs, active);
      if ok {
        ok := SwitchOut(pairs);
      }
      if ok {
        ok := TakeOver(pairs);
      }
    }

    /** Switch every old processor out, which must not be out yet. */
    method SwitchOut(pairs: seq<Pair>) returns (ok: bool)
      requires Olds(pairs) <= active
      modifies this`active
      ensures ok <==> forall j, k :: 0 <= j < k < |pairs| ==> pairs[j].older != pairs[k].older
      ensures ok ==> active == old(active) - Olds(pairs)
    {
      for i := 0 to |pairs|
        invariant active == old(active) - Olds(pairs[..i])
        invariant forall j, k :: 0 <= j < k < i ==> pairs[j].older != pairs[k].older
      {
        ListedAgain(pairs, i);
        OneMorePair(pairs, i);
        assert pairs[i].older in Olds(pairs);
        if pairs[i].older !in active {
          return false;
        }
        active := active - {pairs[i].older};
      }
      assert pairs[..|pairs|] == pairs;
      return true;
    }

    /** Let every new processor take over, which must not be in yet. */
    method TakeOver(pairs: seq<Pair>) returns (ok: bool)
      requires News(pairs) !! active
      modifies this`active
      ensures ok <==> forall j, k :: 0 <= j < k < |pairs| ==> pairs[j].newer != pairs[k].newer
      ensures ok ==> active == old(active) + News(pairs)
    {
      for i := 0 to |pairs|
        invariant active == old(active) + News(pairs[..i])
        invariant forall j, k :: 0 <= j < k < i ==> pairs[j].newer != pairs[k].newer
      {
        ListedAgain(pairs, i);
        OneMorePair(pairs, i);
        assert pairs[i].newer in News(pairs);
        if pairs[i].newer in active {
          return false;
        }
        active := active + {pairs[i].newer};
      }
      assert pairs[..|pairs|] == pairs;
      return true;
    }

    /** Switch to the new processors, and turn the list round for the next switch. */
    method SwitchOnce(pairs: seq<Pair>, taken: seq<Switch>, ghost list: seq<Pair>, ghost was: set<nat>,
                      ghost start: int, ghost freq: nat)
      returns (ok: bool, turned: seq<Pair>, longer: seq<Switch>)
      requires Switched(list, was, start, freq, |taken|, taken, active) && ListFits(list, was, |taken|, pairs, active)
      requires sim.tick == start + (|taken| + 1) * freq
      modifies this`active
      ensures ok <==> CanSwitch(list, was)
      ensures !ok ==> longer == taken
      ensures ok ==> |longer| == |taken| + 1 && Switched(list, was, start, freq, |longer|, longer, active)
      ensures ok ==> ListFits(list, was, |longer|, turned, active)
    {
      var switch := Switch(sim.tick, active, Olds(pairs));
      ok := SwitchCpus(pairs);
      turned := SwapPairs(pairs);
      longer := taken;
      if ok {
        SwitchesBack(pairs, old(active));
        SwitchedMore(list, was, start, freq, |taken|, taken, old(active));
        longer := longer + [switch];
      }
    }

    /** Simulate what is left up to the maximum tick, which must not be a negative number of ticks. */
    method RunOut(maxTick: int) returns (ok: bool, cause: Cause)
      modifies this`sim
      ensures SwitchEnd(ok, cause, sim) == RunningOut(old(sim), maxTick)
    {
      if maxTick - sim.tick < 0 {
        return false, LimitReached;
      }
      cause := Run(maxTick - sim.tick);
      ok := true;
    }

    /**
     `repeatSwitch`: false is an error from `switchCpus` or from simulating a negative number of
     ticks. `taken` is the history of switches.
     */
    method RepeatSwitch(list: seq<Pair>, maxTick: int, freq: nat) returns (ok: bool, cause: Cause, taken: seq<Switch>)
      requires freq > 0
      modifies this`sim, this`active
      ensures if FirstSwitchFails(list, old(active), old(sim)) then
                !ok && taken == [] && sim == After(old(sim), freq, 1)
              else
                && SwitchEnd(ok, cause, sim) == SwitchingEnd(old(sim), maxTick, freq)
                && Switched(list, old(active), old(sim).tick, freq, SwitchCount(old(sim), maxTick, freq), taken, active)
    {
      var pairs := list;
      taken := [];
      ghost var was, s := active, sim;
      SwitchedNone(list, was, s, freq);
      while true
        invariant Going(list, was, s, maxTick, freq, |taken|, sim)
        invariant Switched(list, was, s.tick, freq, |taken|, taken, active)
        invariant ListFits(list, was, |taken|, pairs, active)
        decreases Quota(maxTick - s.tick, freq) - |taken|
      {
        ghost var k := |taken|;
        NextPeriod(list, was, s, maxTick, freq, k, sim);
        cause := Run(freq);
        if cause != LimitReached {
          return true, cause, taken;
        }
        var switched;
        switched, pairs, taken := SwitchOnce(pairs, taken, list, was, s.tick, freq);
        if !switched {
          return false, cause, taken;
        }
        AfterSwitch(list, was, s, maxTick, freq, k + 1, sim);
        if maxTick - sim.tick <= freq {
          ok, cause := RunOut(maxTick);
          return;
        }
      }
    }
  }
}
