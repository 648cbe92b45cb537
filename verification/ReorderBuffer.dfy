/**
 util/o3-pipeview.py: the print queue of the O3 pipeline viewer. Instructions arrive almost sorted
 by sequence number; the queue is sorted and drained in batches, and what leaves it is printed.
 */
module ReorderBuffer {
  import opened Arithmetic
  import opened Sequences

  datatype Inst = Inst(sn: int, fetch: nat, decode: nat, rename: nat, dispatch: nat, issue: nat,
                       complete: nat, retire: nat, store: nat, pc: string, upc: string, disasm: string)

  // ----- sorting by sequence number -----

  ghost predicate SortedBySn(s: seq<Inst>) {
    forall i, j :: 0 <= i < j < |s| ==> s[i].sn <= s[j].sn
  }

  function InsertBySn(s: seq<Inst>, x: Inst): seq<Inst> {
    if s == [] || s[|s| - 1].sn <= x.sn then s + [x]
    else InsertBySn(s[..|s| - 1], x) + [s[|s| - 1]]
  }

  /** `queue.sort(compare_by_sn)`, which keeps the order of equal sequence numbers. */
  function SortBySn(s: seq<Inst>): seq<Inst> {
    if s == [] then [] else InsertBySn(SortBySn(s[..|s| - 1]), s[|s| - 1])
  }

  lemma {:induction false} InsertBySnPermutes(s: seq<Inst>, x: Inst)
    ensures multiset(InsertBySn(s, x)) == multiset(s) + multiset{x}
  {
    if s != [] && s[|s| - 1].sn > x.sn {
      InsertBySnPermutes(s[..|s| - 1], x);
      assert s == s[..|s| - 1] + [s[|s| - 1]];
    }
  }

  lemma {:induction false} InsertBySnSorts(s: seq<Inst>, x: Inst)
    requires SortedBySn(s)
    ensures SortedBySn(InsertBySn(s, x))
  {
    if s != [] && s[|s| - 1].sn > x.sn {
      var k := |s| - 1;
      InsertBySnSorts(s[..k], x);
      InsertBySnPermutes(s[..k], x);
      var rest := InsertBySn(s[..k], x);
      forall j | 0 <= j < |rest| ensures rest[j].sn <= s[k].sn {
        assert rest[j] in multiset(rest);
        assert rest[j] == x || rest[j] in s[..k];
      }
    }
  }

  lemma {:induction false} SortBySnPermutes(s: seq<Inst>)
    ensures multiset(SortBySn(s)) == multiset(s)
  {
    if s != [] {
      var k := |s| - 1;
      SortBySnPermutes(s[..k]);
      InsertBySnPermutes(SortBySn(s[..k]), s[k]);
      SplitLast(s);
    }
  }

  lemma {:induction false} SortBySnOrders(s: seq<Inst>)
    ensures SortedBySn(SortBySn(s))
  {
    if s != [] {
      SortBySnOrders(s[..|s| - 1]);
      InsertBySnSorts(SortBySn(s[..|s| - 1]), s[|s| - 1]);
    }
  }

  lemma SortBySnSorts(s: seq<Inst>)
    ensures SortedBySn(SortBySn(s)) && multiset(SortBySn(s)) == multiset(s) && |SortBySn(s)| == |s|
  {
    SortBySnOrders(s);
    SortBySnPermutes(s);
    assert |SortBySn(s)| == |multiset(SortBySn(s))|;
  }

  /** The instructions with a given sequence number, in order. */
  ghost function WithSn(s: seq<Inst>, sn: int): seq<Inst> {
    if s == [] then []
    else WithSn(s[..|s| - 1], sn) + (if s[|s| - 1].sn == sn then [s[|s| - 1]] else [])
  }

  lemma {:induction false} WithSnNext(s: seq<Inst>, x: Inst, sn: int)
    ensures WithSn(s + [x], sn) == if x.sn == sn then WithSn(s, sn) + [x] else WithSn(s, sn)
  {
    assert (s + [x])[..|s|] == s;
    assert WithSn(s, sn) + [] == WithSn(s, sn);
  }

  lemma {:induction false} InsertKeepsOrder(s: seq<Inst>, x: Inst, sn: int)
    requires SortedBySn(s)
    ensures WithSn(InsertBySn(s, x), sn) == if x.sn == sn then WithSn(s, sn) + [x] else WithSn(s, sn)
  {
    if s == [] || s[|s| - 1].sn <= x.sn {
      WithSnNext(s, x, sn);
    } else {
      var init, last := s[..|s| - 1], s[|s| - 1];
      InsertKeepsOrder(init, x, sn);
      WithSnNext(InsertBySn(init, x), last, sn);
      SplitLast(s);
      WithSnNext(init, last, sn);
    }
  }

  /** The sort is stable: instructions with the same sequence number keep their order. */
  lemma {:induction false} SortIsStable(s: seq<Inst>, sn: int)
    ensures WithSn(SortBySn(s), sn) == WithSn(s, sn)
  {
    if s != [] {
      var init, last := s[..|s| - 1], s[|s| - 1];
      SortIsStable(init, sn);
      SortBySnOrders(init);
      InsertKeepsOrder(SortBySn(init), last, sn);
      SplitLast(s);
      WithSnNext(init, last, sn);
    }
  }

  // ----- the queue and its drains -----

  datatype Limits = Limits(max: nat, min: nat)

  /** `insts['max_threshold']` and `insts['min_threshold']` */
  const DEFAULT_LIMITS := Limits(2000, 1000)

  /** The queue, and everything that has left it so far, in order. */
  datatype State = State(queue: seq<Inst>, popped: seq<Inst>)

  /** `print_insts`: sort the queue and pop its front until `lower` instructions are left. */
  function Drain(s: State, lower: nat): State {
    var q := SortBySn(s.queue);
    var n := if |q| > lower then |q| - lower else 0;
    State(q[n..], s.popped + q[..n])
  }

  /** The popping loop, one instruction at a time. */
  ghost function PopTo(s: State, lower: nat): State
    decreases |s.queue|
  {
    if |s.queue| <= lower then s else PopTo(State(s.queue[1..], s.popped + [s.queue[0]]), lower)
  }

  lemma {:induction false} PopToSplits(q: seq<Inst>, popped: seq<Inst>, lower: nat)
    ensures var n := if |q| > lower then |q| - lower else 0;
            PopTo(State(q, popped), lower) == State(q[n..], popped + q[..n])
    decreases |q|
  {
    if |q| > lower {
      var n := |q| - lower;
      PopToSplits(q[1..], popped + [q[0]], lower);
      assert q[1..][n - 1..] == q[n..];
      assert popped + [q[0]] + q[1..][..n - 1] == popped + q[..n];
    } else {
      assert q[0..] == q && popped + q[..0] == popped;
    }
  }

  lemma PopToDrains(s: State, lower: nat)
    ensures PopTo(State(SortBySn(s.queue), s.popped), lower) == Drain(s, lower)
  {
    PopToSplits(SortBySn(s.queue), s.popped, lower);
  }

  /** `queue_inst` */
  function Push(limits: Limits, s: State, x: Inst): State {
    var longer := s.(queue := s.queue + [x]);
    if |longer.queue| > limits.max then Drain(longer, limits.min) else longer
  }

  function RunFrom(limits: Limits, s: State, xs: seq<Inst>): State {
    if xs == [] then s else Push(limits, RunFrom(limits, s, xs[..|xs| - 1]), xs[|xs| - 1])
  }

  function Run(limits: Limits, trace: seq<Inst>): State {
    RunFrom(limits, State([], []), trace)
  }

  lemma RunNext(limits: Limits, trace: seq<Inst>, x: Inst)
    ensures Run(limits, trace + [x]) == Push(limits, Run(limits, trace), x)
  {
    assert (trace + [x])[..|trace|] == trace;
  }

  /** Everything that is popped by the end of the file, in order. */
  function Popped(limits: Limits, trace: seq<Inst>): seq<Inst> {
    Drain(Run(limits, trace), 0).popped
  }

  // ----- conservation -----

  ghost function Held(s: State): multiset<Inst> {
    multiset(s.queue) + multiset(s.popped)
  }

  lemma DrainConserves(s: State, lower: nat)
    ensures Held(Drain(s, lower)) == Held(s) && s.popped <= Drain(s, lower).popped
    ensures |Drain(s, lower).queue| == if |s.queue| > lower then lower else |s.queue|
  {
    SortBySnSorts(s.queue);
    var q := SortBySn(s.queue);
    var n := if |q| > lower then |q| - lower else 0;
    assert q == q[..n] + q[n..];
  }

  lemma PushConserves(limits: Limits, s: State, x: Inst)
    ensures Held(Push(limits, s, x)) == Held(s) + multiset{x} && s.popped <= Push(limits, s, x).popped
  {
    var longer := s.(queue := s.queue + [x]);
    assert multiset(longer.queue) == multiset(s.queue) + multiset{x};
    DrainConserves(longer, limits.min);
  }

  lemma {:induction false} RunConserves(limits: Limits, s: State, xs: seq<Inst>)
    ensures var r := RunFrom(limits, s, xs);
            Held(r) == Held(s) + multiset(xs) && s.popped <= r.popped
  {
    if xs != [] {
      var k := |xs| - 1;
      RunConserves(limits, s, xs[..k]);
      PushConserves(limits, RunFrom(limits, s, xs[..k]), xs[k]);
      MultisetLast(xs);
    }
  }

  lemma MultisetLast(xs: seq<Inst>)
    requires xs != []
    ensures multiset(xs) == multiset(xs[..|xs| - 1]) + multiset{xs[|xs| - 1]}
  {
    assert xs == xs[..|xs| - 1] + [xs[|xs| - 1]];
  }

  /** Nothing is lost, duplicated or made up on the way through the queue. */
  lemma PoppedIsPermutation(limits: Limits, trace: seq<Inst>)
    ensures multiset(Popped(limits, trace)) == multiset(trace)
  {
    RunConserves(limits, State([], []), trace);
    DrainConserves(Run(limits, trace), 0);
    var last := Drain(Run(limits, trace), 0);
    assert last.queue == [];
    assert Held(last) == multiset(last.popped);
    assert Held(State([], [])) == multiset{};
  }

  // ----- how many earlier instructions are larger -----

  ghost function Larger(s: seq<Inst>, sn: int): nat {
    if s == [] then 0 else Larger(s[..|s| - 1], sn) + (if s[|s| - 1].sn > sn then 1 else 0)
  }

  lemma {:induction false} LargerConcat(a: seq<Inst>, b: seq<Inst>, sn: int)
    ensures Larger(a + b, sn) == Larger(a, sn) + Larger(b, sn)
    decreases |b|
  {
    if b == [] {
      assert a + b == a;
    } else {
      var k := |b| - 1;
      LargerConcat(a, b[..k], sn);
      assert (a + b)[..|a + b| - 1] == a + b[..k];
    }
  }

  lemma {:induction false} LargerBounds(s: seq<Inst>, sn: int)
    ensures Larger(s, sn) <= |s|
    ensures (forall x :: x in s ==> x.sn > sn) ==> Larger(s, sn) == |s|
    ensures Larger(s, sn) > 0 <==> exists x :: x in s && x.sn > sn
  {
    if s != [] {
      var k := |s| - 1;
      LargerBounds(s[..k], sn);
      InLast(s);
      assert s[k] in s;
    }
  }

  lemma InLast(s: seq<Inst>)
    requires s != []
    ensures forall x :: x in s <==> x in s[..|s| - 1] || x == s[|s| - 1]
  {
    SplitLast(s);
  }

  lemma {:induction false} LargerInsert(s: seq<Inst>, x: Inst, sn: int)
    ensures Larger(InsertBySn(s, x), sn) == Larger(s, sn) + (if x.sn > sn then 1 else 0)
  {
    LargerConcat(s, [x], sn);
    assert [x][..0] == [];
    if s != [] && s[|s| - 1].sn > x.sn {
      var k := |s| - 1;
      LargerInsert(s[..k], x, sn);
      var r := InsertBySn(s[..k], x) + [s[k]];
      assert r[..|r| - 1] == InsertBySn(s[..k], x);
    }
  }

  lemma {:induction false} LargerSorted(s: seq<Inst>, sn: int)
    ensures Larger(SortBySn(s), sn) == Larger(s, sn)
  {
    if s != [] {
      var k := |s| - 1;
      LargerSorted(s[..k], sn);
      LargerInsert(SortBySn(s[..k]), s[k], sn);
    }
  }

  lemma LargerDrain(s: State, lower: nat, sn: int)
    ensures var d := Drain(s, lower);
            Larger(d.queue, sn) + Larger(d.popped, sn) == Larger(s.queue, sn) + Larger(s.popped, sn)
  {
    var q := SortBySn(s.queue);
    var n := if |q| > lower then |q| - lower else 0;
    LargerSorted(s.queue, sn);
    assert q == q[..n] + q[n..];
    LargerConcat(q[..n], q[n..], sn);
    LargerConcat(s.popped, q[..n], sn);
  }

  lemma {:induction false} LargerRun(limits: Limits, trace: seq<Inst>, sn: int)
    ensures var r := Run(limits, trace);
            Larger(r.queue, sn) + Larger(r.popped, sn) == Larger(trace, sn)
  {
    if trace != [] {
      var k := |trace| - 1;
      LargerRun(limits, trace[..k], sn);
      var r := Run(limits, trace[..k]);
      var longer := r.(queue := r.queue + [trace[k]]);
      LargerConcat(r.queue, [trace[k]], sn);
      assert [trace[k]][..0] == [];
      LargerDrain(longer, limits.min, sn);
    }
  }

  // ----- when the queue drains -----

  /** A drain happens when the n-th instruction is queued. */
  ghost predicate DrainsAt(limits: Limits, n: nat)
    requires limits.min <= limits.max
  {
    n > limits.max && (n - limits.max - 1) % (limits.max + 1 - limits.min) == 0
  }

  /** The length of the queue after n instructions. */
  ghost function QueueLength(limits: Limits, n: nat): nat
    requires limits.min <= limits.max
  {
    if n <= limits.max then n else limits.min + (n - limits.max - 1) % (limits.max + 1 - limits.min)
  }

  lemma LengthStep(limits: Limits, n: nat)
    requires limits.min <= limits.max && n > 0
    ensures QueueLength(limits, n) ==
            if QueueLength(limits, n - 1) == limits.max then limits.min else QueueLength(limits, n - 1) + 1
    ensures QueueLength(limits, n) <= limits.max
    ensures DrainsAt(limits, n) <==> QueueLength(limits, n - 1) == limits.max
  {
    var step := limits.max + 1 - limits.min;
    if n > limits.max + 1 {
      var a := n - 1 - limits.max - 1;
      ModStep(a, step);
    }
  }

  lemma ModStep(a: nat, m: nat)
    requires m > 0
    ensures (a + 1) % m == if a % m == m - 1 then 0 else a % m + 1
  {
    var q := a / m;
    assert a == q * m + a % m;
    if a % m == m - 1 {
      assert a + 1 == (q + 1) * m;
      DivModUnique(a + 1, q + 1, m, 0);
    } else {
      DivModUnique(a + 1, q, m, a % m + 1);
    }
  }

  lemma {:induction false} RunLength(limits: Limits, trace: seq<Inst>)
    requires limits.min <= limits.max
    ensures |Run(limits, trace).queue| == QueueLength(limits, |trace|)
  {
    if trace != [] {
      var k := |trace| - 1;
      RunLength(limits, trace[..k]);
      LengthStep(limits, |trace|);
      var r := Run(limits, trace[..k]);
      DrainConserves(r.(queue := r.queue + [trace[k]]), limits.min);
      if k > 0 {
        LengthStep(limits, k);
      }
    }
  }

  /** With the thresholds of the viewer, the first drain comes with instruction 2001 and then one every 1001. */
  lemma DefaultQueueLength(trace: seq<Inst>)
    ensures |Run(DEFAULT_LIMITS, trace).queue| ==
            if |trace| <= 2000 then |trace| else 1000 + (|trace| - 2001) % 1001
  {
    RunLength(DEFAULT_LIMITS, trace);
  }

  // ----- when the output is sorted -----

  /**
   At every drain, at most `min` of the instructions seen so far are larger than any instruction
   that is still to come.
   */
  ghost predicate AlmostSorted(limits: Limits, trace: seq<Inst>)
    requires limits.min <= limits.max
  {
    forall n, j :: 0 <= n <= j < |trace| && DrainsAt(limits, n) ==> Larger(trace[..n], trace[j].sn) <= limits.min
  }

  ghost predicate AllLe(a: seq<Inst>, b: seq<Inst>) {
    forall i, j :: 0 <= i < |a| && 0 <= j < |b| ==> a[i].sn <= b[j].sn
  }

  /** A sorted, split queue keeps the popped part below the kept part. */
  lemma DrainSorted(s: State, lower: nat)
    requires SortedBySn(s.popped) && AllLe(s.popped, s.queue)
    ensures var d := Drain(s, lower); SortedBySn(d.popped) && AllLe(d.popped, d.queue)
  {
    SortBySnSorts(s.queue);
    var q := SortBySn(s.queue);
    forall i, j | 0 <= i < |s.popped| && 0 <= j < |q| ensures s.popped[i].sn <= q[j].sn {
      assert q[j] in multiset(q);
      assert q[j] in s.queue;
      var k :| 0 <= k < |s.queue| && s.queue[k] == q[j];
    }
  }

  /** Nothing leaves the queue between drains. */
  lemma {:induction false} RunBetweenDrains(limits: Limits, trace: seq<Inst>, n: nat)
    requires limits.min <= limits.max && 0 < n <= |trace|
    ensures Run(limits, trace[..n]) == Push(limits, Run(limits, trace[..n - 1]), trace[n - 1])
    ensures !DrainsAt(limits, n) ==> Run(limits, trace[..n]).popped == Run(limits, trace[..n - 1]).popped
  {
    assert trace[..n] == trace[..n - 1] + [trace[n - 1]];
    RunNext(limits, trace[..n - 1], trace[n - 1]);
    RunLength(limits, trace[..n - 1]);
    LengthStep(limits, n);
    if n > 1 {
      LengthStep(limits, n - 1);
    }
  }

  lemma {:induction false} RunSorted(limits: Limits, trace: seq<Inst>, n: nat)
    requires limits.min <= limits.max && n <= |trace| && AlmostSorted(limits, trace)
    ensures var r := Run(limits, trace[..n]);
            SortedBySn(r.popped) && AllLe(r.popped, r.queue) && AllLe(r.popped, trace[n..])
  {
    if n > 0 {
      RunSorted(limits, trace, n - 1);
      var r := Run(limits, trace[..n - 1]);
      RunBetweenDrains(limits, trace, n);
      BelowTail(r.popped, trace, n);
      PushSorted(limits, r, trace[n - 1]);
      if DrainsAt(limits, n) {
        DrainedLength(limits, trace[..n]);
        DrainedBelowRest(limits, trace, n);
      }
    }
  }

  lemma DrainedLength(limits: Limits, seen: seq<Inst>)
    requires limits.min <= limits.max && DrainsAt(limits, |seen|)
    ensures |Run(limits, seen).queue| == limits.min
  {
    RunLength(limits, seen);
  }

  lemma BelowTail(popped: seq<Inst>, trace: seq<Inst>, n: nat)
    requires 0 < n <= |trace| && AllLe(popped, trace[n - 1..])
    ensures AllLe(popped, [trace[n - 1]]) && AllLe(popped, trace[n..])
  {
    assert trace[n - 1..][0] == trace[n - 1];
    forall i, j | 0 <= i < |popped| && 0 <= j < |trace[n..]| ensures popped[i].sn <= trace[n..][j].sn {
      assert trace[n..][j] == trace[n - 1..][j + 1];
    }
  }

  lemma PushSorted(limits: Limits, s: State, x: Inst)
    requires SortedBySn(s.popped) && AllLe(s.popped, s.queue) && AllLe(s.popped, [x])
    ensures var r := Push(limits, s, x); SortedBySn(r.popped) && AllLe(r.popped, r.queue)
  {
    var longer := s.(queue := s.queue + [x]);
    assert AllLe(longer.popped, longer.queue) by {
      assert [x][0] == x;
    }
    DrainSorted(longer, limits.min);
  }

  /** What has been popped at a drain is not above anything still to come. */
  lemma DrainedBelowRest(limits: Limits, trace: seq<Inst>, n: nat)
    requires limits.min <= limits.max && n <= |trace| && AlmostSorted(limits, trace) && DrainsAt(limits, n)
    requires var r := Run(limits, trace[..n]); AllLe(r.popped, r.queue) && |r.queue| == limits.min
    ensures AllLe(Run(limits, trace[..n]).popped, trace[n..])
  {
    var r := Run(limits, trace[..n]);
    forall i, j | 0 <= i < |r.popped| && 0 <= j < |trace[n..]| ensures r.popped[i].sn <= trace[n..][j].sn {
      var y := trace[n + j];
      if y.sn < r.popped[i].sn {
        PoppedAboveMeansMany(limits, trace[..n], i, y.sn);
      }
    }
  }

  /** A sequence number below something popped is below everything kept, too. */
  lemma PoppedAboveMeansMany(limits: Limits, seen: seq<Inst>, i: nat, sn: int)
    requires var r := Run(limits, seen); AllLe(r.popped, r.queue) && i < |r.popped| && sn < r.popped[i].sn
    ensures Larger(seen, sn) > |Run(limits, seen).queue|
  {
    var r := Run(limits, seen);
    LargerRun(limits, seen, sn);
    LargerBounds(r.queue, sn);
    LargerBounds(r.popped, sn);
    assert r.popped[i] in r.popped;
    assert forall x :: x in r.queue ==> x.sn > sn;
  }

  lemma {:induction false} RunFromSplit(limits: Limits, s: State, a: seq<Inst>, b: seq<Inst>)
    ensures RunFrom(limits, s, a + b) == RunFrom(limits, RunFrom(limits, s, a), b)
    decreases |b|
  {
    if b == [] {
      assert a + b == a;
    } else {
      var k := |b| - 1;
      RunFromSplit(limits, s, a, b[..k]);
      assert (a + b)[..|a + b| - 1] == a + b[..k];
    }
  }

  /** What is popped by instruction n comes first in the output; everything later comes after it. */
  lemma PoppedSplits(limits: Limits, trace: seq<Inst>, n: nat)
    requires n <= |trace|
    ensures Run(limits, trace[..n]).popped <= Popped(limits, trace)
    ensures var done := Run(limits, trace[..n]);
            multiset(Popped(limits, trace)[|done.popped|..]) == multiset(done.queue) + multiset(trace[n..])
  {
    var done := Run(limits, trace[..n]);
    RunFromPrefix(limits, trace, n);
    RunConserves(limits, done, trace[n..]);
    FinalDrain(Run(limits, trace));
    assert Held(done) + multiset(trace[n..]) ==
           multiset(done.popped) + (multiset(done.queue) + multiset(trace[n..]));
    AfterPrefix(done.popped, Popped(limits, trace), multiset(done.queue) + multiset(trace[n..]));
  }

  lemma RunFromPrefix(limits: Limits, trace: seq<Inst>, n: nat)
    requires n <= |trace|
    ensures Run(limits, trace) == RunFrom(limits, Run(limits, trace[..n]), trace[n..])
  {
    assert trace == trace[..n] + trace[n..];
    RunFromSplit(limits, State([], []), trace[..n], trace[n..]);
  }

  lemma FinalDrain(s: State)
    ensures multiset(Drain(s, 0).popped) == Held(s) && s.popped <= Drain(s, 0).popped
  {
    DrainConserves(s, 0);
    assert Drain(s, 0).queue == [];
  }

  lemma AfterPrefix(front: seq<Inst>, all: seq<Inst>, rest: multiset<Inst>)
    requires front <= all && multiset(all) == multiset(front) + rest
    ensures multiset(all[|front|..]) == rest
  {
    assert all == front + all[|front|..];
    MultisetCancel(multiset(front), multiset(all[|front|..]), rest);
  }

  /** The whole output leaves the queue in order exactly when the trace is almost sorted. */
  lemma SortedIffAlmostSorted(limits: Limits, trace: seq<Inst>)
    requires limits.min <= limits.max
    ensures SortedBySn(Popped(limits, trace)) <==> AlmostSorted(limits, trace)
  {
    if AlmostSorted(limits, trace) {
      RunSorted(limits, trace, |trace|);
      assert trace[..|trace|] == trace;
      DrainSorted(Run(limits, trace), 0);
    } else {
      var n, j :| 0 <= n <= j < |trace| && DrainsAt(limits, n) && Larger(trace[..n], trace[j].sn) > limits.min;
      LateSmallerPopped(limits, trace, n, j);
    }
  }

  lemma LateSmallerPopped(limits: Limits, trace: seq<Inst>, n: nat, j: nat)
    requires limits.min <= limits.max && n <= j < |trace| && DrainsAt(limits, n)
    requires Larger(trace[..n], trace[j].sn) > limits.min
    ensures !SortedBySn(Popped(limits, trace))
  {
    var y := trace[j];
    var done := Run(limits, trace[..n]);
    var x := SomethingPoppedAbove(limits, trace[..n], y.sn);
    PoppedSplits(limits, trace, n);
    var rest := Popped(limits, trace)[|done.popped|..];
    assert y in rest by {
      assert trace[n..][j - n] == y;
      assert y in multiset(trace[n..]);
      assert y in multiset(rest);
    }
    OutOfOrder(done.popped, rest, x, y);
    assert Popped(limits, trace) == done.popped + rest;
  }

  /** Just after a drain, more than `min` larger instructions cannot all still be queued. */
  lemma SomethingPoppedAbove(limits: Limits, seen: seq<Inst>, sn: int) returns (x: Inst)
    requires limits.min <= limits.max && DrainsAt(limits, |seen|) && Larger(seen, sn) > limits.min
    ensures x in Run(limits, seen).popped && x.sn > sn
  {
    var done := Run(limits, seen);
    LargerRun(limits, seen, sn);
    RunLength(limits, seen);
    LargerBounds(done.queue, sn);
    LargerBounds(done.popped, sn);
    x :| x in done.popped && x.sn > sn;
  }

  lemma OutOfOrder(a: seq<Inst>, b: seq<Inst>, x: Inst, y: Inst)
    requires x in a && y in b && x.sn > y.sn
    ensures !SortedBySn(a + b)
  {
    var i :| 0 <= i < |a| && a[i] == x;
    var k :| 0 <= k < |b| && b[k] == y;
    assert (a + b)[i] == x && (a + b)[|a| + k] == y;
  }

  /** No instruction is preceded in the trace by more than `min` larger ones. */
  ghost predicate BoundedDisorder(limits: Limits, trace: seq<Inst>) {
    forall j :: 0 <= j < |trace| ==> Larger(trace[..j], trace[j].sn) <= limits.min
  }

  lemma BoundedIsAlmostSorted(limits: Limits, trace: seq<Inst>)
    requires limits.min <= limits.max && BoundedDisorder(limits, trace)
    ensures AlmostSorted(limits, trace)
  {
    forall n, j | 0 <= n <= j < |trace| && DrainsAt(limits, n) ensures Larger(trace[..n], trace[j].sn) <= limits.min {
      assert trace[..j] == trace[..n] + trace[n..j];
      LargerConcat(trace[..n], trace[n..j], trace[j].sn);
    }
  }

  // ----- filtering -----

  /** The range and commit options; 0 or less means that a bound is not set. */
  datatype Options = Options(snStart: int, snStop: int, tickStart: int, tickStop: int, onlyCommitted: bool)

  predicate Shown(o: Options, x: Inst) {
    && !(o.snStart > 0 && x.sn < o.snStart)
    && !(o.snStop > 0 && x.sn > o.snStop)
    && !(o.tickStart > 0 && x.fetch < o.tickStart)
    && !(o.tickStop > 0 && x.fetch > o.tickStop)
    && !(o.onlyCommitted && x.retire == 0)
  }

  function Filter(o: Options, s: seq<Inst>): seq<Inst> {
    if s == [] then []
    else Filter(o, s[..|s| - 1]) + (if Shown(o, s[|s| - 1]) then [s[|s| - 1]] else [])
  }

  lemma {:induction false} FilterCounts(o: Options, s: seq<Inst>, x: Inst)
    ensures multiset(Filter(o, s))[x] == if Shown(o, x) then multiset(s)[x] else 0
  {
    if s != [] {
      FilterCounts(o, s[..|s| - 1], x);
      assert s == s[..|s| - 1] + [s[|s| - 1]];
    }
  }

  lemma {:induction false} FilterSorted(o: Options, s: seq<Inst>)
    requires SortedBySn(s)
    ensures SortedBySn(Filter(o, s))
  {
    if s != [] {
      var k := |s| - 1;
      FilterSorted(o, s[..k]);
      forall i | 0 <= i < |Filter(o, s[..k])| ensures Filter(o, s[..k])[i].sn <= s[k].sn {
        var x := Filter(o, s[..k])[i];
        FilterCounts(o, s[..k], x);
        assert x in multiset(Filter(o, s[..k]));
        assert x in s[..k];
      }
    }
  }

  lemma FilterNext(o: Options, s: seq<Inst>, x: Inst)
    ensures Filter(o, s + [x]) == if Shown(o, x) then Filter(o, s) + [x] else Filter(o, s)
  {
    assert (s + [x])[..|s|] == s;
    assert Filter(o, s) + [] == Filter(o, s);
  }

  lemma {:induction false} FilterConcat(o: Options, a: seq<Inst>, b: seq<Inst>)
    ensures Filter(o, a + b) == Filter(o, a) + Filter(o, b)
    decreases |b|
  {
    if b == [] {
      assert a + b == a;
    } else {
      FilterConcat(o, a, b[..|b| - 1]);
      assert (a + b)[..|a + b| - 1] == a + b[..|b| - 1];
    }
  }

  /** What the viewer prints for a whole trace, across all drains. */
  function Printed(limits: Limits, o: Options, trace: seq<Inst>): seq<Inst> {
    Filter(o, Popped(limits, trace))
  }

  /** Every queued instruction that passes the filters is printed, as often as it was queued. */
  lemma PrintedIsComplete(limits: Limits, o: Options, trace: seq<Inst>)
    ensures multiset(Printed(limits, o, trace)) == multiset(Filter(o, trace))
  {
    PoppedIsPermutation(limits, trace);
    forall x ensures multiset(Printed(limits, o, trace))[x] == multiset(Filter(o, trace))[x] {
      FilterCounts(o, Popped(limits, trace), x);
      FilterCounts(o, trace, x);
    }
  }

  /** What is printed, in terms of the options: a bound that is not positive does not count. */
  lemma PrintedIff(limits: Limits, o: Options, trace: seq<Inst>, x: Inst)
    ensures x in Printed(limits, o, trace) <==>
            && x in trace
            && (o.snStart > 0 ==> o.snStart <= x.sn) && (o.snStop > 0 ==> x.sn <= o.snStop)
            && (o.tickStart > 0 ==> o.tickStart <= x.fetch) && (o.tickStop > 0 ==> x.fetch <= o.tickStop)
            && (o.onlyCommitted ==> x.retire != 0)
  {
    PrintedIsComplete(limits, o, trace);
    FilterCounts(o, trace, x);
    assert x in Printed(limits, o, trace) <==> x in multiset(Printed(limits, o, trace));
    assert x in trace <==> x in multiset(trace);
  }

  /** With bounded disorder the whole printout is sorted by sequence number. */
  lemma PrintedIsSorted(limits: Limits, o: Options, trace: seq<Inst>)
    requires limits.min <= limits.max && BoundedDisorder(limits, trace)
    ensures SortedBySn(Printed(limits, o, trace))
  {
    BoundedIsAlmostSorted(limits, trace);
    SortedIffAlmostSorted(limits, trace);
    FilterSorted(o, Popped(limits, trace));
  }

  /** A trace that never fills the queue comes out sorted, however far out of order it is. */
  lemma ShortTraceSorted(limits: Limits, trace: seq<Inst>)
    requires limits.min <= limits.max && |trace| <= limits.max
    ensures SortedBySn(Popped(limits, trace))
  {
    SortedIffAlmostSorted(limits, trace);
  }

  /** An instruction that is more than `min` places out of order does not have to appear out of order. */
  lemma FarButSortedExample(limits: Limits)
    requires limits.min + 2 <= limits.max
    ensures var trace := seq(limits.min + 1, _ => NO_INST.(sn := 2)) + [NO_INST.(sn := 1)];
            !BoundedDisorder(limits, trace) && SortedBySn(Popped(limits, trace))
  {
    var larger := seq(limits.min + 1, _ => NO_INST.(sn := 2));
    var trace := larger + [NO_INST.(sn := 1)];
    LargerBounds(larger, 1);
    assert trace[..limits.min + 1] == larger && trace[limits.min + 1].sn == 1;
    ShortTraceSorted(limits, trace);
  }

  // ----- the viewer -----

  datatype Line =
    | Other
    | Fetch(tick: nat, pc: string, upc: string, sn: int, disasm: string)
    | Decode(tick: nat) | Rename(tick: nat) | Dispatch(tick: nat) | Issue(tick: nat) | Complete(tick: nat)
    | Retire(tick: nat, store: nat)

  /** The record that a trace line updates; it is not cleared between instructions. */
  function Update(storeCompletions: bool, curr: Inst, line: Line): Inst {
    match line
    case Other => curr
    case Fetch(tick, pc, upc, sn, disasm) => curr.(fetch := tick, pc := pc, upc := upc, sn := sn, disasm := disasm)
    case Decode(tick) => curr.(decode := tick)
    case Rename(tick) => curr.(rename := tick)
    case Dispatch(tick) => curr.(dispatch := tick)
    case Issue(tick) => curr.(issue := tick)
    case Complete(tick) => curr.(complete := tick)
    case Retire(tick, store) =>
      var c := curr.(retire := tick, disasm := if tick == 0 then "-----" + curr.disasm else curr.disasm);
      if storeCompletions then c.(store := store) else c
  }

  const NO_INST := Inst(0, 0, 0, 0, 0, 0, 0, 0, 0, "", "", "")

  function Current(storeCompletions: bool, lines: seq<Line>): Inst {
    if lines == [] then NO_INST
    else Update(storeCompletions, Current(storeCompletions, lines[..|lines| - 1]), lines[|lines| - 1])
  }

  /** One instruction for each retire line, as it stands at that line. */
  function Instructions(storeCompletions: bool, lines: seq<Line>): seq<Inst> {
    if lines == [] then []
    else
      var k := |lines| - 1;
      Instructions(storeCompletions, lines[..k]) +
      (if lines[k].Retire? then [Current(storeCompletions, lines)] else [])
  }

  lemma NextLine(limits: Limits, storeCompletions: bool, lines: seq<Line>, i: nat)
    requires i < |lines|
    ensures var curr := Update(storeCompletions, Current(storeCompletions, lines[..i]), lines[i]);
            var before := Run(limits, Instructions(storeCompletions, lines[..i]));
            && Current(storeCompletions, lines[..i + 1]) == curr
            && Run(limits, Instructions(storeCompletions, lines[..i + 1])) ==
               if lines[i].Retire? then Push(limits, before, curr) else before
  {
    assert lines[..i + 1][..i] == lines[..i];
    var before := Instructions(storeCompletions, lines[..i]);
    RunNext(limits, before, Current(storeCompletions, lines[..i + 1]));
    assert before + [] == before;
  }

  /** The line with which the region of interest starts: a start tick goes before a start number. */
  predicate Begins(o: Options, line: Line) {
    if o.tickStart != 0 then !line.Other? && line.tick >= o.tickStart
    else if o.snStart != 0 then line.Fetch? && line.sn >= o.snStart
    else true
  }

  /** The lines from the first one with which the region of interest starts. */
  function FromStart(o: Options, lines: seq<Line>): seq<Line> {
    if lines == [] || Begins(o, lines[0]) then lines else FromStart(o, lines[1..])
  }

  /** The lines from the next fetch on. */
  function FromFetch(lines: seq<Line>): seq<Line> {
    if lines == [] || lines[0].Fetch? then lines else FromFetch(lines[1..])
  }

  /** The lines that the main loop sees. */
  function Region(o: Options, lines: seq<Line>): seq<Line> {
    FromFetch(FromStart(o, lines))
  }

  /** Skip the lines before the region of interest. */
  method SkipToRegion(o: Options, lines: seq<Line>) returns (rest: seq<Line>)
    ensures rest == Region(o, lines)
  {
    rest := lines;
    while rest != [] && !Begins(o, rest[0])
      invariant FromStart(o, rest) == FromStart(o, lines)
      decreases |rest|
    {
      rest := rest[1..];
    }
    while rest != [] && !rest[0].Fetch?
      invariant FromFetch(rest) == Region(o, lines)
      decreases |rest|
    {
      rest := rest[1..];
    }
  }

  /** A fetch this far past the range makes the main loop stop early. */
  predicate StopsAt(limits: Limits, o: Options, tickDrift: nat, line: Line) {
    line.Fetch? &&
    ((o.tickStop > 0 && line.tick > o.tickStop + tickDrift) || (o.snStop > 0 && line.sn > o.snStop + limits.max))
  }

  class Viewer {
    const limits: Limits := DEFAULT_LIMITS
    const options: Options
    const storeCompletions: bool
    const tickDrift: nat
    var queue: seq<Inst>
    var printed: seq<Inst>
    ghost var popped: seq<Inst>

    constructor (options: Options, storeCompletions: bool, cycleTime: nat)
      ensures Valid() && Now() == State([], [])
      ensures this.options == options && this.storeCompletions == storeCompletions
      ensures tickDrift == 2000 * cycleTime
    {
      this.options, this.storeCompletions := options, storeCompletions;
      tickDrift := 2000 * cycleTime;
      queue, printed, popped := [], [], [];
    }

    ghost predicate Valid()
      reads this
    {
      printed == Filter(options, popped)
    }

    ghost function Now(): State
      reads this
    {
      State(queue, popped)
    }

    /** `print_insts` */
    method PrintInsts(lower: nat)
      requires Valid()
      modifies this
      ensures Valid() && Now() == Drain(old(Now()), lower)
    {
      queue := SortBySn(queue);
      ghost var sorted := Now();
      while |queue| > lower
        invariant Valid() && PopTo(Now(), lower) == PopTo(sorted, lower)
        decreases |queue|
      {
        var item := queue[0];
        queue := queue[1..];
        FilterNext(options, popped, item);
        if Shown(options, item) {
          printed := printed + [item];
        }
        popped := popped + [item];
      }
      PopToDrains(old(Now()), lower);
    }

    /** `queue_inst` */
    method QueueInst(inst: Inst)
      requires Valid()
      modifies this
      ensures Valid() && Now() == Push(limits, old(Now()), inst)
    {
      queue := queue + [inst];
      if |queue| > limits.max {
        PrintInsts(limits.min);
      }
    }

    /**
     `process_trace`. The main loop fails if it has to stop early, because the call that should
     drain the queue at that point lacks an argument; otherwise it ends at end of file.
     */
    method ProcessTrace(lines: seq<Line>) returns (failed: bool)
      requires Valid() && Now() == State([], [])
      modifies this
      ensures var region := Region(options, lines);
              && (failed <==> exists k :: 0 <= k < |region| && StopsAt(limits, options, tickDrift, region[k]))
              && (!failed ==> printed == Printed(limits, options, Instructions(storeCompletions, region)))
    {
      var region := SkipToRegion(options, lines);
      failed := PrintRegion(region);
    }

    /** The main loop. */
    method PrintRegion(region: seq<Line>) returns (failed: bool)
      requires Valid() && Now() == State([], [])
      modifies this
      ensures failed <==> exists k :: 0 <= k < |region| && StopsAt(limits, options, tickDrift, region[k])
      ensures !failed ==> printed == Printed(limits, options, Instructions(storeCompletions, region))
    {
      var curr := NO_INST;
      for i := 0 to |region|
        invariant Valid() && curr == Current(storeCompletions, region[..i])
        invariant Now() == Run(limits, Instructions(storeCompletions, region[..i]))
        invariant forall k :: 0 <= k < i ==> !StopsAt(limits, options, tickDrift, region[k])
      {
        if StopsAt(limits, options, tickDrift, region[i]) {
          return true;
        }
        NextLine(limits, storeCompletions, region, i);
        curr := Update(storeCompletions, curr, region[i]);
        if region[i].Retire? {
          QueueInst(curr);
        }
      }
      assert region[..|region|] == region;
      PrintInsts(0);
      return false;
    }
  }
}
