/**
 `m5.simulate(n)` as the loops in configs/common/Simulation.py see it: an oracle that advances time
 by at most n ticks, and reports that its limit was reached only after exactly n.
 */
module SimOracle {
  datatype Cause = LimitReached | CheckpointInst | OtherExit

  /** What the simulator will do on one call: stop by itself after some ticks, or run to the limit. */
  datatype Response = Response(advance: nat, cause: Cause)

  /** The current tick, and the responses still to come; without any the simulated program has ended. */
  datatype Sim = Sim(tick: int, script: seq<Response>)

  datatype Call = Call(cause: Cause, sim: Sim)

  function Simulate(s: Sim, n: nat): (c: Call)
    ensures s.tick <= c.sim.tick <= s.tick + n
    ensures c.cause == LimitReached ==> c.sim.tick == s.tick + n
    ensures c.cause != OtherExit ==> |c.sim.script| < |s.script|
  {
    if s.script == [] then Call(OtherExit, s)
    else
      var r := s.script[0];
      var ticks := if r.cause == LimitReached || r.advance > n then n else r.advance;
      Call(r.cause, Sim(s.tick + ticks, s.script[1..]))
  }

  /** How many responses at the head of the script have a given cause. */
  function Lead(script: seq<Response>, cause: Cause): (n: nat)
    ensures n <= |script| && (forall k :: 0 <= k < n ==> script[k].cause == cause)
    ensures n < |script| ==> script[n].cause != cause
  {
    if script == [] || script[0].cause != cause then 0 else Lead(script[1..], cause) + 1
  }

  lemma LeadUnique(script: seq<Response>, cause: Cause, n: nat)
    requires n <= |script| && (forall k :: 0 <= k < n ==> script[k].cause == cause)
    requires n < |script| ==> script[n].cause != cause
    ensures Lead(script, cause) == n
  {
  }

  /** Checkpoint instructions may come first, but then the limit is reached. */
  predicate Resumes(script: seq<Response>) {
    var b := Lead(script, CheckpointInst);
    b < |script| && script[b].cause == LimitReached
  }

  /** What is left of the script then. */
  function Resumed(script: seq<Response>): seq<Response>
    requires Resumes(script)
  {
    script[Lead(script, CheckpointInst) + 1..]
  }
}
