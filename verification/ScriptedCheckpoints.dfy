/**
 configs/common/Simulation.py, `scriptCheckpoints`: which checkpoints are dropped, and when, for
 every behaviour of the simulator.
 */
module ScriptedCheckpoints {
  import opened Arithmetic
  import opened Sequences
  import opened SimOracle

  /** Simulate up to a tick, skipping checkpoint instructions: the first cause, the last one, and the state. */
  datatype Reached = Reached(first: Cause, last: Cause, sim: Sim)

  function Reach(s: Sim, target: int): (r: Reached)
    requires s.tick <= target
    ensures s.tick <= r.sim.tick <= target && r.last != CheckpointInst
    ensures r.last == LimitReached ==> r.sim.tick == target
    ensures r.first != CheckpointInst ==> r.first == r.last
    decreases |s.script|
  {
    var c := Simulate(s, target - s.tick);
    if c.cause == CheckpointInst then Reach(c.sim, target).(first := CheckpointInst)
    else Reached(c.cause, c.cause, c.sim)
  }

  /** Whether a tick is reached depends on the causes only, and not on when the interruptions come. */
  lemma {:induction false} ReachByCauses(s: Sim, target: int)
    requires s.tick <= target
    ensures var r := Reach(s, target);
            && (r.last == LimitReached <==> Resumes(s.script))
            && (r.first == LimitReached <==> Lead(s.script, LimitReached) > 0)
            && (Resumes(s.script) ==> r.sim == Sim(target, Resumed(s.script)))
    decreases |s.script|
  {
    if s.script != [] && s.script[0].cause == CheckpointInst {
      var rest := s.script[1..];
      ReachByCauses(Simulate(s, target - s.tick).sim, target);
      assert Lead(s.script, CheckpointInst) == Lead(rest, CheckpointInst) + 1;
    }
  }

  datatype Plan = Plan(when: int, period: nat, maxTick: int, maxCheckpoints: int)

  /** The tick of the k-th checkpoint of a plan. */
  function DueAt(p: Plan, k: nat): int {
    p.when + k * p.period
  }

  lemma {:induction false} NextDue(p: Plan, k: nat)
    requires k > 0
    ensures DueAt(p, k) == DueAt(p, k - 1) + p.period
  {
    assert k * p.period == (k - 1) * p.period + p.period;
  }

  lemma {:induction false} FirstDue(p: Plan)
    ensures DueAt(p, 0) == p.when
  {
  }

  /** Checkpoint k is asked for by the plan. */
  predicate Requested(p: Plan, k: nat) {
    k == 0 || (k < p.maxCheckpoints && DueAt(p, k) <= p.maxTick)
  }

  /** How many checkpoints are asked for after the first one. */
  function Periods(p: Plan): nat {
    if p.maxCheckpoints <= 1 || p.when > p.maxTick then 0
    else if p.period == 0 || (p.maxTick - p.when) / p.period >= p.maxCheckpoints - 1 then p.maxCheckpoints - 1
    else (p.maxTick - p.when) / p.period
  }

  lemma {:induction false} RequestedIff(p: Plan, k: nat)
    ensures Requested(p, k) <==> k <= Periods(p)
    ensures k <= Periods(p) <==> k == 0 || (k < p.maxCheckpoints && p.when + k * p.period <= p.maxTick)
  {
    var room := p.maxTick - p.when;
    if k > 0 && p.period > 0 && room >= 0 {
      FitsIff(k, p.period, room);
    }
    assert k * p.period >= 0;
  }

  /** How `scriptCheckpoints` ends, with the ticks of the checkpoints that it has dropped. */
  datatype Scripted =
    | Failed(drops: seq<int>, sim: Sim)
    | Ended(drops: seq<int>, cause: Cause, sim: Sim)

  /** The loop from period k on, once checkpoint k - 1 was dropped. */
  function PeriodsFrom(p: Plan, s: Sim, k: nat): Scripted
    requires k > 0 && s.tick == DueAt(p, k - 1)
    decreases if k < p.maxCheckpoints then p.maxCheckpoints - k else 0
  {
    if k >= p.maxCheckpoints then Ended([], LimitReached, s)
    else
      NextDue(p, k);
      if DueAt(p, k) > p.maxTick then
        if p.maxTick < s.tick then Failed([], s)
        else
          var c := Simulate(s, p.maxTick - s.tick);
          Ended([], c.cause, c.sim)
      else
        var r := Reach(s, DueAt(p, k));
        if r.first == LimitReached then
          var o := PeriodsFrom(p, r.sim, k + 1);
          o.(drops := [r.sim.tick] + o.drops)
        else
          Ended(if r.last == LimitReached then [r.sim.tick] else [], r.last, r.sim)
  }

  /** The branch of `scriptCheckpoints` that counts ticks. */
  function ScriptedRun(p: Plan, s: Sim): Scripted {
    if s.tick > p.when then Failed([], s)
    else
      var r := Reach(s, p.when);
      if r.last != LimitReached then Ended([], r.last, r.sim)
      else
        var o := PeriodsFrom(p, r.sim, 1);
        o.(drops := [r.sim.tick] + o.drops)
  }

  /** The ticks of all checkpoints that the script drops. */
  function Drops(p: Plan, s: Sim): seq<int> {
    ScriptedRun(p, s).drops
  }

  /** Every drop, counted from checkpoint k on, is on time and was asked for. */
  ghost predicate OnTime(p: Plan, k: nat, drops: seq<int>) {
    forall j :: 0 <= j < |drops| ==> drops[j] == DueAt(p, k + j) && Requested(p, k + j)
  }

  lemma {:induction false} OnTimeMore(p: Plan, k: nat, later: seq<int>)
    requires OnTime(p, k + 1, later) && Requested(p, k)
    ensures OnTime(p, k, [DueAt(p, k)] + later)
  {
    var drops := [DueAt(p, k)] + later;
    forall j | 0 <= j < |drops| ensures drops[j] == DueAt(p, k + j) && Requested(p, k + j) {
      if j > 0 {
        assert later[j - 1] == DueAt(p, k + 1 + (j - 1)) && Requested(p, k + 1 + (j - 1));
      }
    }
  }

  lemma {:induction false} PeriodsOnTime(p: Plan, s: Sim, k: nat)
    requires k > 0 && s.tick == DueAt(p, k - 1)
    ensures OnTime(p, k, PeriodsFrom(p, s, k).drops)
    decreases if k < p.maxCheckpoints then p.maxCheckpoints - k else 0
  {
    if Requested(p, k) {
      NextDue(p, k);
      var r := Reach(s, DueAt(p, k));
      if r.first == LimitReached {
        PeriodsOnTime(p, r.sim, k + 1);
        OnTimeMore(p, k, PeriodsFrom(p, r.sim, k + 1).drops);
      }
    }
  }

  lemma {:induction false} DropsFollowPlan(p: Plan, s: Sim)
    ensures OnTime(p, 0, Drops(p, s))
  {
    if s.tick <= p.when && Reach(s, p.when).last == LimitReached {
      var r := Reach(s, p.when);
      FirstDue(p);
      PeriodsOnTime(p, r.sim, 1);
      OnTimeMore(p, 0, PeriodsFrom(p, r.sim, 1).drops);
    }
  }

  /** The k-th checkpoint is dropped exactly when it is due, and none that was not asked for. */
  lemma {:induction false} DropsOnTime(p: Plan, s: Sim, k: nat)
    requires k < |Drops(p, s)|
    ensures Drops(p, s)[k] == p.when + k * p.period
    ensures k == 0 || (k < p.maxCheckpoints && p.when + k * p.period <= p.maxTick)
  {
    DropsFollowPlan(p, s);
    assert Drops(p, s)[k] == DueAt(p, 0 + k) && Requested(p, 0 + k);
  }

  // ----- which requested checkpoints are dropped -----

  /** Of n periods still asked for, how many get their checkpoint: an interruption ends the loop, but not at once. */
  function PeriodsKept(script: seq<Response>, n: nat): nat {
    var m := Lead(script, LimitReached);
    if m >= n then n else if Resumes(script[m..]) then m + 1 else m
  }

  lemma {:induction false} PeriodsCounted(p: Plan, s: Sim, k: nat)
    requires k > 0 && s.tick == DueAt(p, k - 1) && k <= Periods(p) + 1
    ensures |PeriodsFrom(p, s, k).drops| == PeriodsKept(s.script, Periods(p) + 1 - k)
    decreases if k < p.maxCheckpoints then p.maxCheckpoints - k else 0
  {
    RequestedIff(p, k);
    if Requested(p, k) {
      NextDue(p, k);
      var r := Reach(s, DueAt(p, k));
      ReachByCauses(s, DueAt(p, k));
      if r.first == LimitReached {
        PeriodsCounted(p, r.sim, k + 1);
        LimitFirst(s.script);
      } else {
        assert s.script[0..] == s.script;
      }
    }
  }

  lemma {:induction false} LimitFirst(script: seq<Response>)
    requires Lead(script, LimitReached) > 0
    ensures Resumes(script) && Resumed(script) == script[1..]
    ensures Lead(script, LimitReached) == Lead(script[1..], LimitReached) + 1
    ensures script[Lead(script, LimitReached)..] == script[1..][Lead(script[1..], LimitReached)..]
  {
    assert script[0].cause == LimitReached;
    LeadUnique(script, CheckpointInst, 0);
    var m := Lead(script[1..], LimitReached);
    assert script[m + 1..] == script[1..][m..];
  }

  /** How many checkpoints a script of responses gets dropped when n are asked for after the first. */
  function DropCount(script: seq<Response>, n: nat): nat {
    if Resumes(script) then 1 + PeriodsKept(Resumed(script), n) else 0
  }

  /** For every oracle, the causes of its responses say how many checkpoints are dropped. */
  lemma {:induction false} DropsCounted(p: Plan, s: Sim)
    requires s.tick <= p.when
    ensures |Drops(p, s)| == DropCount(s.script, Periods(p))
  {
    ReachByCauses(s, p.when);
    if Resumes(s.script) {
      FirstDue(p);
      PeriodsCounted(p, Reach(s, p.when).sim, 1);
    }
  }

  /** All checkpoints that are asked for are among the n dropped ones. */
  ghost predicate AllDropped(p: Plan, n: nat) {
    forall k: nat :: Requested(p, k) ==> k < n
  }

  /**
   The responses begin with checkpoint instructions and a reached limit and, if n > 0 more periods
   are asked for, go on with n - 1 reached limits, checkpoint instructions and a reached limit.
   */
  predicate Undisturbed(script: seq<Response>, n: nat) {
    && Resumes(script)
    && (n > 0 ==>
          var rest := Resumed(script);
          Lead(rest, LimitReached) >= n - 1 && Resumes(rest[n - 1..]))
  }

  /**
   a checkpoint instructions and a limit and, if n > 0, n - 1 limits, b checkpoint instructions and
   a limit.
   */
  ghost predicate Pattern(script: seq<Response>, n: nat, a: nat, b: nat) {
    && a < |script| && script[a].cause == LimitReached && (forall k :: 0 <= k < a ==> script[k].cause == CheckpointInst)
    && (n > 0 ==>
          && a + n + b < |script| && script[a + n + b].cause == LimitReached
          && (forall k :: a < k < a + n ==> script[k].cause == LimitReached)
          && (forall k :: a + n <= k < a + n + b ==> script[k].cause == CheckpointInst))
  }

  lemma {:induction false} PatternFound(script: seq<Response>, n: nat, a: nat, b: nat)
    requires Pattern(script, n, a, b)
    ensures Undisturbed(script, n)
  {
    LeadUnique(script, CheckpointInst, a);
    if n > 0 {
      var rest := script[a + 1..];
      assert forall k :: 0 <= k < n - 1 ==> rest[k] == script[a + 1 + k];
      assert Lead(rest, LimitReached) >= n - 1;
      var tail := rest[n - 1..];
      assert forall k :: 0 <= k <= b ==> tail[k] == script[a + n + k];
      LeadUnique(tail, CheckpointInst, b);
    }
  }

  lemma {:induction false} PatternOf(script: seq<Response>, n: nat) returns (a: nat, b: nat)
    requires Undisturbed(script, n)
    ensures Pattern(script, n, a, b)
  {
    a := Lead(script, CheckpointInst);
    if n == 0 {
      b := 0;
    } else {
      var rest := script[a + 1..];
      var tail := rest[n - 1..];
      b := Lead(tail, CheckpointInst);
      assert forall k :: a < k < a + n ==> script[k] == rest[k - a - 1];
      assert forall k :: a + n <= k <= a + n + b ==> script[k] == tail[k - a - n];
    }
  }

  /** For which responses every requested checkpoint is dropped, response by response. */
  lemma {:induction false} UndisturbedIff(script: seq<Response>, n: nat)
    ensures Undisturbed(script, n) <==> exists a, b: nat :: Pattern(script, n, a, b)
  {
    if Undisturbed(script, n) {
      var a, b := PatternOf(script, n);
    }
    if a: nat, b: nat :| Pattern(script, n, a, b) {
      PatternFound(script, n, a, b);
    }
  }

  lemma {:induction false} KeptAllIff(script: seq<Response>, n: nat)
    requires n > 0
    ensures PeriodsKept(script, n) == n <==> Lead(script, LimitReached) >= n - 1 && Resumes(script[n - 1..])
  {
    if Lead(script, LimitReached) >= n {
      assert script[n - 1..][0] == script[n - 1];
      assert Lead(script[n - 1..], CheckpointInst) == 0;
    }
  }

  /**
   All requested checkpoints are dropped if and only if every period runs to its end and no period
   but the last is interrupted by a checkpoint instruction: after an interruption the loop ends,
   because its condition still sees the cause of the first call.
   */
  lemma {:induction false} AllDroppedIffUndisturbed(p: Plan, s: Sim)
    requires s.tick <= p.when
    ensures AllDropped(p, |Drops(p, s)|) <==> Undisturbed(s.script, Periods(p))
  {
    var n := Periods(p);
    DropsCounted(p, s);
    AllDroppedMeans(p, |Drops(p, s)|);
    if Resumes(s.script) && n > 0 {
      KeptAllIff(Resumed(s.script), n);
    }
  }

  lemma {:induction false} AllDroppedMeans(p: Plan, n: nat)
    ensures AllDropped(p, n) <==> n > Periods(p)
  {
    RequestedIff(p, Periods(p));
    forall k: nat | Requested(p, k) ensures k <= Periods(p) {
      RequestedIff(p, k);
    }
  }

  // ----- where the script ends -----

  lemma {:induction false} PeriodsFail(p: Plan, s: Sim, k: nat)
    requires k > 0 && s.tick == DueAt(p, k - 1) && k <= Periods(p) + 1
    ensures PeriodsFrom(p, s, k).Failed? <==> k == 1 && p.maxCheckpoints > 1 && p.when > p.maxTick
    decreases if k < p.maxCheckpoints then p.maxCheckpoints - k else 0
  {
    RequestedIff(p, k);
    NextDue(p, k);
    RequestedIff(p, k - 1);
    FirstDue(p);
    if Requested(p, k) && Reach(s, DueAt(p, k)).first == LimitReached {
      PeriodsFail(p, Reach(s, DueAt(p, k)).sim, k + 1);
    }
  }

  /** Where the loop ends when its last call reaches its limit. */
  function EndTick(p: Plan, script: seq<Response>, k: nat, drops: nat): int
    requires 0 < k <= Periods(p) + 1
  {
    if p.maxCheckpoints > Periods(p) + 1 && Lead(script, LimitReached) > Periods(p) + 1 - k then p.maxTick
    else DueAt(p, k - 1 + drops)
  }

  lemma {:induction false} EndTickNext(p: Plan, script: seq<Response>, k: nat, drops: nat)
    requires 0 < k <= Periods(p) && Lead(script, LimitReached) > 0
    ensures EndTick(p, script, k, drops + 1) == EndTick(p, script[1..], k + 1, drops)
  {
    LimitFirst(script);
    assert k - 1 + (drops + 1) == k + 1 - 1 + drops;
  }

  lemma {:induction false} PeriodsEnd(p: Plan, s: Sim, k: nat)
    requires k > 0 && s.tick == DueAt(p, k - 1) && k <= Periods(p) + 1
    ensures var o := PeriodsFrom(p, s, k);
            && (o.sim.tick <= s.tick || o.sim.tick <= p.maxTick)
            && (o.Ended? && o.cause == LimitReached ==> o.sim.tick == EndTick(p, s.script, k, |o.drops|))
    decreases if k < p.maxCheckpoints then p.maxCheckpoints - k else 0
  {
    RequestedIff(p, k);
    NextDue(p, k);
    if Requested(p, k) {
      var r := Reach(s, DueAt(p, k));
      ReachByCauses(s, DueAt(p, k));
      if r.first == LimitReached {
        PeriodsEnd(p, r.sim, k + 1);
        LimitFirst(s.script);
        EndTickNext(p, s.script, k, |PeriodsFrom(p, r.sim, k + 1).drops|);
      }
    }
  }

  /**
   A call fails exactly if it starts too late, or if its first checkpoint lies past the maximum
   tick and is reached while more are asked for. A call that ends at a limit ends at the maximum
   tick if nothing interrupts it and checkpoints are left, and at its last checkpoint otherwise.
   */
  lemma {:induction false} ScriptEnds(p: Plan, s: Sim)
    ensures var o, n := ScriptedRun(p, s), Periods(p);
            && (o.Failed? <==>
                  s.tick > p.when || (Resumes(s.script) && p.maxCheckpoints > 1 && p.when > p.maxTick))
            && (o.Ended? ==> o.sim.tick <= p.when || o.sim.tick <= p.maxTick)
            && (o.Ended? && o.cause == LimitReached ==>
                  && Resumes(s.script)
                  && o.sim.tick == if p.maxCheckpoints > n + 1 && Lead(Resumed(s.script), LimitReached) > n
                                   then p.maxTick else DueAt(p, |o.drops| - 1))
  {
    if s.tick <= p.when {
      ReachByCauses(s, p.when);
      if Resumes(s.script) {
        FirstDue(p);
        PeriodsFail(p, Reach(s, p.when).sim, 1);
        PeriodsEnd(p, Reach(s, p.when).sim, 1);
      }
    }
  }

  /** A benchmark that executes one checkpoint instruction during the second period loses the third checkpoint. */
  lemma {:induction false} InterruptedPlanExample()
    ensures var p := Plan(100, 50, 1000, 3);
            var limit := Response(0, LimitReached);
            var s := Sim(0, [limit, Response(10, CheckpointInst), limit, limit]);
            Drops(p, s) == [100, 150] && Requested(p, 2)
  {
    var p := Plan(100, 50, 1000, 3);
    var limit := Response(0, LimitReached);
    var interrupt := Response(10, CheckpointInst);
    var s := Sim(0, [limit, interrupt, limit, limit]);
    LeadUnique(s.script, CheckpointInst, 0);
    assert Resumed(s.script) == [interrupt, limit, limit];
    LeadUnique([interrupt, limit, limit], LimitReached, 0);
    LeadUnique([interrupt, limit, limit], CheckpointInst, 1);
    assert [interrupt, limit, limit][0..] == [interrupt, limit, limit];
    DropsCounted(p, s);
    DropsFollowPlan(p, s);
    assert DueAt(p, 0) == 100 && DueAt(p, 1) == 150 && DueAt(p, 2) == 200;
  }

  // ----- the loop of the script -----

  function WithDrops(front: seq<int>, o: Scripted): Scripted {
    o.(drops := front + o.drops)
  }

  /** The loop is on its way to the outcome `all`, with `num` checkpoints so far. */
  ghost predicate OnPlan(p: Plan, all: Scripted, s: Sim, num: nat, first: Cause, last: Cause, dropped: seq<int>)
    requires num > 0
  {
    if first == LimitReached then
      last == first && s.tick == DueAt(p, num - 1) && all == WithDrops(dropped, PeriodsFrom(p, s, num))
    else
      all == Ended(dropped, last, s)
  }

  lemma {:induction false} PlanStarts(p: Plan, s: Sim)
    requires s.tick <= p.when && Reach(s, p.when).last == LimitReached
    ensures var r := Reach(s, p.when);
            OnPlan(p, ScriptedRun(p, s), r.sim, 1, LimitReached, LimitReached, [r.sim.tick])
  {
    FirstDue(p);
  }

  /** The loop ends, because all checkpoints are dropped or the next one is due too late. */
  lemma {:induction false} PlanEnds(p: Plan, all: Scripted, s: Sim, num: nat, dropped: seq<int>)
    requires num > 0 && OnPlan(p, all, s, num, LimitReached, LimitReached, dropped)
    ensures s.tick + p.period == DueAt(p, num)
    ensures num >= p.maxCheckpoints ==> all == Ended(dropped, LimitReached, s)
    ensures num < p.maxCheckpoints && s.tick + p.period > p.maxTick ==>
              all == if p.maxTick < s.tick then Failed(dropped, s)
                     else
                       var c := Simulate(s, p.maxTick - s.tick);
                       Ended(dropped, c.cause, c.sim)
  {
    NextDue(p, num);
    assert dropped + [] == dropped;
  }

  /** One period of the loop. */
  lemma {:induction false} PlanStep(p: Plan, all: Scripted, s: Sim, num: nat, dropped: seq<int>)
    requires num > 0 && OnPlan(p, all, s, num, LimitReached, LimitReached, dropped) && Requested(p, num)
    ensures s.tick + p.period == DueAt(p, num)
    ensures var r := Reach(s, DueAt(p, num));
            if r.last == LimitReached then OnPlan(p, all, r.sim, num + 1, r.first, r.last, dropped + [r.sim.tick])
            else r.first != LimitReached && OnPlan(p, all, r.sim, num, r.first, r.last, dropped)
  {
    NextDue(p, num);
    var r := Reach(s, DueAt(p, num));
    if r.first == LimitReached {
      ConcatAssociative(dropped, [r.sim.tick], PeriodsFrom(p, r.sim, num + 1).drops);
    }
    assert dropped + [] == dropped;
  }
}
