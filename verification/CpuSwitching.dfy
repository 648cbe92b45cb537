/**
 configs/common/Simulation.py, `repeatSwitch`, with `switchCpus` from src/python/m5/simulate.py:
 which processors are active, and where the run ends, for every behaviour of the simulator.
 */
module CpuSwitching {
  import opened Arithmetic
  import opened SimOracle

  /** (old_cpu, new_cpu) */
  datatype Pair = Pair(older: nat, newer: nat)

  /** When a switch happened, the active processors just before it, and those that it took out. */
  datatype Switch = Switch(tick: int, before: set<nat>, out: set<nat>)

  function Olds(pairs: seq<Pair>): set<nat> {
    set k | 0 <= k < |pairs| :: pairs[k].older
  }

  function News(pairs: seq<Pair>): set<nat> {
    set k | 0 <= k < |pairs| :: pairs[k].newer
  }

  /** Every old processor is active, and every new one is switched out and not itself an old one. */
  ghost predicate PassesTests(pairs: seq<Pair>, active: set<nat>) {
    pairs != [] && News(pairs) !! Olds(pairs) && News(pairs) !! active && Olds(pairs) <= active
  }

  ghost predicate NoneTwice(pairs: seq<Pair>) {
    forall j, k :: 0 <= j < k < |pairs| ==> pairs[j].older != pairs[k].older && pairs[j].newer != pairs[k].newer
  }

  /** The list fits the processors, and no processor would be switched out or in twice. */
  ghost predicate CanSwitch(pairs: seq<Pair>, active: set<nat>) {
    PassesTests(pairs, active) && NoneTwice(pairs)
  }

  /** The three tests on one pair. */
  predicate PairFits(pair: Pair, olds: set<nat>, active: set<nat>) {
    pair.newer !in olds && pair.newer !in active && pair.older in active
  }

  lemma {:induction false} PairsFit(pairs: seq<Pair>, active: set<nat>)
    ensures PassesTests(pairs, active) <==>
            pairs != [] && forall k :: 0 <= k < |pairs| ==> PairFits(pairs[k], Olds(pairs), active)
  {
    forall k | 0 <= k < |pairs| ensures pairs[k].newer in News(pairs) && pairs[k].older in Olds(pairs) {
    }
  }

  lemma {:induction false} OneMorePair(pairs: seq<Pair>, i: nat)
    requires i < |pairs|
    ensures Olds(pairs[..i + 1]) == Olds(pairs[..i]) + {pairs[i].older}
    ensures News(pairs[..i + 1]) == News(pairs[..i]) + {pairs[i].newer}
  {
    var before, now := pairs[..i], pairs[..i + 1];
    assert now[i] == pairs[i] && forall k :: 0 <= k < i ==> now[k] == before[k];
    forall x | x in Olds(before) ensures x in Olds(now) {
      var k :| 0 <= k < i && before[k].older == x;
      assert now[k].older == x;
    }
    forall x | x in News(before) ensures x in News(now) {
      var k :| 0 <= k < i && before[k].newer == x;
      assert now[k].newer == x;
    }
  }

  /** A processor is listed again exactly if it was listed before. */
  lemma {:induction false} ListedAgain(pairs: seq<Pair>, i: nat)
    requires i < |pairs|
    ensures pairs[i].older in Olds(pairs[..i]) <==> exists j :: 0 <= j < i && pairs[j].older == pairs[i].older
    ensures pairs[i].newer in News(pairs[..i]) <==> exists j :: 0 <= j < i && pairs[j].newer == pairs[i].newer
  {
    var before := pairs[..i];
    forall j | 0 <= j < i ensures pairs[j].older in Olds(before) && pairs[j].newer in News(before) {
      assert before[j] == pairs[j];
    }
  }

  function Swapped(pairs: seq<Pair>): (r: seq<Pair>)
    ensures |r| == |pairs| && forall k :: 0 <= k < |pairs| ==> r[k] == Pair(pairs[k].newer, pairs[k].older)
  {
    if pairs == [] then []
    else Swapped(pairs[..|pairs| - 1]) + [Pair(pairs[|pairs| - 1].newer, pairs[|pairs| - 1].older)]
  }

  lemma {:induction false} SwapsBack(pairs: seq<Pair>)
    ensures Swapped(Swapped(pairs)) == pairs
    ensures Olds(Swapped(pairs)) == News(pairs) && News(Swapped(pairs)) == Olds(pairs)
  {
    var r := Swapped(pairs);
    forall x | x in News(pairs) ensures x in Olds(r) {
      var k :| 0 <= k < |pairs| && pairs[k].newer == x;
      assert r[k].older == x;
    }
    forall x | x in Olds(pairs) ensures x in News(r) {
      var k :| 0 <= k < |pairs| && pairs[k].older == x;
      assert r[k].newer == x;
    }
  }

  /** After a switch the turned list fits again. */
  lemma {:induction false} SwitchesBack(pairs: seq<Pair>, active: set<nat>)
    requires CanSwitch(pairs, active)
    ensures CanSwitch(Swapped(pairs), (active - Olds(pairs)) + News(pairs))
  {
    SwapsBack(pairs);
  }

  /** The list after k switches. */
  function Turned(list: seq<Pair>, k: nat): seq<Pair> {
    if k % 2 == 0 then list else Swapped(list)
  }

  /** The active processors after k switches, of which `others` are not in the list. */
  function ActiveAfter(list: seq<Pair>, others: set<nat>, k: nat): set<nat> {
    others + Olds(Turned(list, k))
  }

  /** The first k switches: one each period, each taking out the listed processors that are active then. */
  ghost function History(list: seq<Pair>, others: set<nat>, start: int, freq: nat, k: nat): seq<Switch> {
    seq(k, i requires 0 <= i < k =>
      Switch(start + (i + 1) * freq, ActiveAfter(list, others, i), Olds(Turned(list, i))))
  }

  lemma {:induction false} TurnOver(list: seq<Pair>, k: nat)
    ensures Swapped(Turned(list, k)) == Turned(list, k + 1)
    ensures Olds(Turned(list, k + 1)) == News(Turned(list, k)) && News(Turned(list, k + 1)) == Olds(Turned(list, k))
  {
    SwapsBack(list);
    SwapsBack(Swapped(list));
  }

  /**
   Switch i happens after i + 1 periods. It takes out the old processors of the list if i is even
   and the new ones otherwise, and finds no other processor active apart from `others`.
   */
  lemma {:induction false} HistoryIs(list: seq<Pair>, others: set<nat>, start: int, freq: nat, k: nat, i: nat)
    requires i < k
    ensures var h := History(list, others, start, freq, k);
            && |h| == k && h[i].tick == start + (i + 1) * freq && h[i].before == others + h[i].out
            && h[i].out == if i % 2 == 0 then set p | p in list :: p.older else set p | p in list :: p.newer
  {
    SwapsBack(list);
    ListedProcessors(list);
  }

  lemma {:induction false} ListedProcessors(list: seq<Pair>)
    ensures Olds(list) == set p | p in list :: p.older
    ensures News(list) == set p | p in list :: p.newer
  {
  }

  lemma {:induction false} HistoryMore(list: seq<Pair>, others: set<nat>, start: int, freq: nat, k: nat)
    ensures History(list, others, start, freq, k + 1) == History(list, others, start, freq, k) +
              [Switch(start + (k + 1) * freq, ActiveAfter(list, others, k), Olds(Turned(list, k)))]
  {
  }

  /** The history of k switches and the processors that are active after them. */
  ghost predicate Switched(list: seq<Pair>, was: set<nat>, start: int, freq: nat, k: nat, taken: seq<Switch>,
                           active: set<nat>)
  {
    && taken == History(list, was - Olds(list), start, freq, k)
    && active == if k == 0 then was else ActiveAfter(list, was - Olds(list), k)
  }

  lemma {:induction false} SwitchedNone(list: seq<Pair>, was: set<nat>, s: Sim, freq: nat)
    ensures Switched(list, was, s.tick, freq, 0, [], was) && After(s, freq, 0) == s
  {
  }

  /** The list after k switches fits the processors if the first one did. */
  ghost predicate ListFits(list: seq<Pair>, was: set<nat>, k: nat, pairs: seq<Pair>, active: set<nat>) {
    pairs == Turned(list, k) && (CanSwitch(pairs, active) <==> CanSwitch(list, was))
  }

  lemma {:induction false} OthersApart(list: seq<Pair>, was: set<nat>, k: nat)
    requires CanSwitch(list, was)
    ensures (was - Olds(list)) !! Olds(Turned(list, k)) && was == ActiveAfter(list, was - Olds(list), 0)
  {
    SwapsBack(list);
  }

  lemma {:induction false} ActiveNext(list: seq<Pair>, others: set<nat>, k: nat)
    requires others !! Olds(Turned(list, k))
    ensures var pairs := Turned(list, k);
            (ActiveAfter(list, others, k) - Olds(pairs)) + News(pairs) == ActiveAfter(list, others, k + 1)
  {
    TurnOver(list, k);
  }

  /** One more switch. */
  lemma {:induction false} SwitchedMore(list: seq<Pair>, was: set<nat>, start: int, freq: nat, k: nat,
                                        taken: seq<Switch>, active: set<nat>)
    requires Switched(list, was, start, freq, k, taken, active) && CanSwitch(list, was)
    ensures var pairs := Turned(list, k);
            && Swapped(pairs) == Turned(list, k + 1)
            && Switched(list, was, start, freq, k + 1,
                        taken + [Switch(start + (k + 1) * freq, active, Olds(pairs))],
                        (active - Olds(pairs)) + News(pairs))
  {
    var others := was - Olds(list);
    TurnOver(list, k);
    HistoryMore(list, others, start, freq, k);
    OthersApart(list, was, k);
    ActiveNext(list, others, k);
  }

  /** The loop that builds the list for the next switch. */
  method SwapPairs(pairs: seq<Pair>) returns (r: seq<Pair>)
    ensures r == Swapped(pairs)
  {
    r := [];
    for i := 0 to |pairs|
      invariant r == Swapped(pairs[..i])
    {
      assert pairs[..i + 1][..i] == pairs[..i];
      r := r + [Pair(pairs[i].newer, pairs[i].older)];
    }
    assert pairs[..|pairs|] == pairs;
  }

  /** The tests of `switchCpus`, pair by pair. */
  method TestPairs(pairs: seq<Pair>, active: set<nat>) returns (ok: bool)
    ensures ok <==> PassesTests(pairs, active)
  {
    PairsFit(pairs, active);
    if pairs == [] {
      return false;
    }
    var olds := Olds(pairs);
    for i := 0 to |pairs|
      invariant forall k :: 0 <= k < i ==> PairFits(pairs[k], olds, active)
    {
      if pairs[i].newer in olds {
        return false;
      }
      if pairs[i].newer in active {
        return false;
      }
      if pairs[i].older !in active {
        return false;
      }
    }
    return true;
  }

  // ----- switching again and again -----

  /** How many switches there are if nothing interrupts: one even if there is no room for it. */
  function Quota(room: int, freq: nat): (q: nat)
    requires freq > 0
    ensures q > 0
  {
    if room <= freq then 1
    else
      FitsIff(1, freq, room - 1);
      (room - 1) / freq
  }

  /** After m switches the loop stops, because no more than a period is left, exactly if m has reached the quota. */
  lemma {:induction false} QuotaReached(room: int, freq: nat, m: nat)
    requires freq > 0 && m > 0
    ensures room - m * freq <= freq <==> m >= Quota(room, freq)
  {
    assert (m + 1) * freq == m * freq + freq;
    if room <= freq {
      assert m * freq >= 0;
    } else {
      FitsIff(m + 1, freq, room - 1);
    }
  }

  /** All switches up to the quota fit if one does. */
  lemma {:induction false} QuotaFits(room: int, freq: nat)
    requires freq > 0
    ensures Quota(room, freq) * freq <= room <==> freq <= room
  {
    if room > freq {
      FitsIff(Quota(room, freq), freq, room - 1);
    }
  }

  /** How `repeatSwitch` ends. */
  datatype SwitchEnd = SwitchEnd(ok: bool, cause: Cause, sim: Sim)

  /** How many switches a script of responses leads to. */
  function SwitchCount(s: Sim, maxTick: int, freq: nat): nat
    requires freq > 0
  {
    var n, q := Lead(s.script, LimitReached), Quota(maxTick - s.tick, freq);
    if n < q then n else q
  }

  /** The loop switches after every undisturbed period, until a response is something else or the quota is reached. */
  lemma {:induction false} SwitchCountIs(s: Sim, maxTick: int, freq: nat)
    requires freq > 0
    ensures var k, q := SwitchCount(s, maxTick, freq), Quota(maxTick - s.tick, freq);
            && k <= q && k <= |s.script| && (forall j :: 0 <= j < k ==> s.script[j].cause == LimitReached)
            && (k < q && k < |s.script| ==> s.script[k].cause != LimitReached)
  {
  }

  /** The state after k undisturbed periods. */
  function After(s: Sim, freq: nat, k: nat): Sim
    requires k <= |s.script|
  {
    Sim(s.tick + k * freq, s.script[k..])
  }

  /** The rest of the run once no more than a period is left. */
  function RunningOut(s: Sim, maxTick: int): SwitchEnd {
    if s.tick > maxTick then SwitchEnd(false, LimitReached, s)
    else
      var c := Simulate(s, maxTick - s.tick);
      SwitchEnd(true, c.cause, c.sim)
  }

  /** The end of the loop: a last, disturbed period, or what is left up to the maximum tick. */
  function SwitchingEnd(s: Sim, maxTick: int, freq: nat): SwitchEnd
    requires freq > 0
  {
    var k := SwitchCount(s, maxTick, freq);
    var last := After(s, freq, k);
    if k < Quota(maxTick - s.tick, freq) then
      var c := Simulate(last, freq);
      SwitchEnd(true, c.cause, c.sim)
    else
      RunningOut(last, maxTick)
  }

  /** The first period is over, but the list does not fit the processors. */
  ghost predicate FirstSwitchFails(list: seq<Pair>, was: set<nat>, s: Sim) {
    Lead(s.script, LimitReached) > 0 && !CanSwitch(list, was)
  }

  /** The loop has made k switches and goes on. */
  ghost predicate Going(list: seq<Pair>, was: set<nat>, s: Sim, maxTick: int, freq: nat, k: nat, now: Sim)
    requires freq > 0
  {
    && k <= Lead(s.script, LimitReached) && k < Quota(maxTick - s.tick, freq) && now == After(s, freq, k)
    && (k > 0 ==> CanSwitch(list, was))
  }

  /** One more period: it is the last one if it is disturbed. */
  lemma {:induction false} NextPeriod(list: seq<Pair>, was: set<nat>, s: Sim, maxTick: int, freq: nat, k: nat, now: Sim)
    requires freq > 0 && Going(list, was, s, maxTick, freq, k, now)
    ensures var c := Simulate(now, freq);
            if c.cause == LimitReached then
              && k < Lead(s.script, LimitReached) && c.sim == After(s, freq, k + 1)
              && (FirstSwitchFails(list, was, s) <==> !CanSwitch(list, was)) && (!CanSwitch(list, was) ==> k == 0)
            else
              && !FirstSwitchFails(list, was, s) && k == SwitchCount(s, maxTick, freq)
              && SwitchingEnd(s, maxTick, freq) == SwitchEnd(true, c.cause, c.sim)
  {
    NextResponse(s, freq, k);
  }

  /** The period after k undisturbed ones is undisturbed exactly if response k is a reached limit. */
  lemma {:induction false} NextResponse(s: Sim, freq: nat, k: nat)
    requires k <= |s.script|
    ensures var c := Simulate(After(s, freq, k), freq);
            && (c.cause == LimitReached <==> k < |s.script| && s.script[k].cause == LimitReached)
            && (c.cause == LimitReached ==> c.sim == After(s, freq, k + 1))
  {
    assert (k + 1) * freq == k * freq + freq;
    if k < |s.script| {
      assert s.script[k..][0] == s.script[k];
      assert s.script[k..][1..] == s.script[k + 1..];
    }
  }

  /** After a switch the loop goes on, or runs for what is left up to the maximum tick. */
  lemma {:induction false} AfterSwitch(list: seq<Pair>, was: set<nat>, s: Sim, maxTick: int, freq: nat, k: nat,
                                       now: Sim)
    requires freq > 0 && 0 < k <= Lead(s.script, LimitReached) && k <= Quota(maxTick - s.tick, freq)
    requires now == After(s, freq, k) && CanSwitch(list, was)
    ensures if maxTick - now.tick > freq then Going(list, was, s, maxTick, freq, k, now)
            else
              && !FirstSwitchFails(list, was, s) && k == SwitchCount(s, maxTick, freq)
              && SwitchingEnd(s, maxTick, freq) == RunningOut(now, maxTick)
  {
    QuotaReached(maxTick - s.tick, freq, k);
  }

  /** The run ends without an error and not past the maximum tick. */
  predicate StaysWithin(s: Sim, maxTick: int, freq: nat)
    requires freq > 0
  {
    var e := SwitchingEnd(s, maxTick, freq);
    e.ok && e.sim.tick <= maxTick
  }

  lemma {:induction false} PeriodFits(room: int, freq: nat, k: nat)
    requires 0 < freq <= room && k < Quota(room, freq)
    ensures (k + 1) * freq <= room
  {
    QuotaFits(room, freq);
    MulMonotone(k + 1, Quota(room, freq), freq);
  }

  lemma {:induction false} WithRoom(s: Sim, maxTick: int, freq: nat)
    requires freq > 0 && s.tick + freq <= maxTick
    ensures StaysWithin(s, maxTick, freq)
  {
    var room, k := maxTick - s.tick, SwitchCount(s, maxTick, freq);
    if k < Quota(room, freq) {
      assert (k + 1) * freq == k * freq + freq;
      PeriodFits(room, freq, k);
    } else {
      QuotaFits(room, freq);
    }
  }

  lemma {:induction false} WithoutRoom(s: Sim, maxTick: int, freq: nat)
    requires freq > 0 && s.tick + freq > maxTick
    ensures var e := SwitchingEnd(s, maxTick, freq);
            if Lead(s.script, LimitReached) == 0 then e.ok && e.sim == Simulate(s, freq).sim else !e.ok
  {
    assert After(s, freq, 0) == s;
    assert After(s, freq, 0).tick + freq == s.tick + 1 * freq;
  }

  /**
   A run stays within the maximum tick exactly if a whole period is left at the start, or the very
   first call stops by itself in time.
   */
  lemma {:induction false} StaysWithinIff(s: Sim, maxTick: int, freq: nat)
    requires freq > 0
    ensures StaysWithin(s, maxTick, freq) <==>
            s.tick + freq <= maxTick ||
            (Lead(s.script, LimitReached) == 0 && Simulate(s, freq).sim.tick <= maxTick)
    ensures SwitchingEnd(s, maxTick, freq).ok <==> s.tick + freq <= maxTick || Lead(s.script, LimitReached) == 0
  {
    if s.tick + freq <= maxTick {
      WithRoom(s, maxTick, freq);
    } else {
      WithoutRoom(s, maxTick, freq);
    }
  }

  /** Every oracle stays within the maximum tick if and only if a whole period is left at the start. */
  lemma {:induction false} EveryRunStaysWithinIff(tick: int, maxTick: int, freq: nat)
    requires freq > 0
    ensures (forall script :: StaysWithin(Sim(tick, script), maxTick, freq)) <==> tick + freq <= maxTick
  {
    forall script | tick + freq <= maxTick ensures StaysWithin(Sim(tick, script), maxTick, freq) {
      StaysWithinIff(Sim(tick, script), maxTick, freq);
    }
    var s := Sim(tick, [Response(0, LimitReached)]);
    LeadUnique(s.script, LimitReached, 1);
    StaysWithinIff(s, maxTick, freq);
  }

  /**
   With a period left at the start, the run ends at a limit exactly if no call is disturbed, and
   then it ends at the maximum tick.
   */
  lemma {:induction false} EndsAtMaxTickIff(s: Sim, maxTick: int, freq: nat)
    requires freq > 0 && s.tick + freq <= maxTick
    ensures var e := SwitchingEnd(s, maxTick, freq);
            && (e.cause == LimitReached <==> Lead(s.script, LimitReached) > Quota(maxTick - s.tick, freq))
            && (e.cause == LimitReached ==> e.ok && e.sim.tick == maxTick)
  {
    QuotaFits(maxTick - s.tick, freq);
  }

  /** The caller's test does not look at the current tick: here it passes, and the first switch overshoots. */
  lemma {:induction false} OvershootExample()
    ensures var s := Sim(900, [Response(0, LimitReached)]);
            1000 > 200 && SwitchingEnd(s, 1000, 200) == SwitchEnd(false, LimitReached, Sim(1100, []))
  {
    var s := Sim(900, [Response(0, LimitReached)]);
    LeadUnique(s.script, LimitReached, 1);
    assert SwitchCount(s, 1000, 200) == 1;
  }
}
