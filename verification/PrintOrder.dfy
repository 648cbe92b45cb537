/**
 util/o3-pipeview.py: the exact condition under which the printout of the pipeline viewer is sorted
 when only some instructions are shown. It rests on a closed form of what the print queue keeps.
 */
module PrintOrder {
  import opened Sequences
  import opened ReorderBuffer

  // ----- what the queue keeps -----

  /** The m largest instructions, the later ones of those with equal sequence numbers. */
  ghost function Top(s: seq<Inst>, m: nat): seq<Inst>
    requires m <= |s|
  {
    SortBySnSorts(s);
    SortBySn(s)[|s| - m..]
  }

  /** Dropping the smallest before or after an insertion makes no difference. */
  lemma {:induction false} InsertThenDrop(s: seq<Inst>, x: Inst, k: nat)
    requires k <= |s|
    ensures |InsertBySn(s, x)| == |s| + 1 && |InsertBySn(s[k..], x)| == |s| - k + 1
    ensures InsertBySn(s, x)[k + 1..] == InsertBySn(s[k..], x)[1..]
    decreases |s|
  {
    var m := |s| - 1;
    if s != [] && k <= m {
      assert s[k..][m - k] == s[m] && s[k..][..m - k] == s[..m][k..];
      if s[m].sn > x.sn {
        InsertThenDrop(s[..m], x, k);
      }
    } else if s != [] {
      InsertThenDrop(s[..m], x, m);
    }
  }

  lemma {:induction false} SortNext(s: seq<Inst>, x: Inst)
    ensures SortBySn(s + [x]) == InsertBySn(SortBySn(s), x)
  {
    assert (s + [x])[..|s|] == s;
  }

  lemma {:induction false} TopNext(s: seq<Inst>, x: Inst, m: nat)
    requires m <= |s|
    ensures |InsertBySn(Top(s, m), x)| == m + 1 && Top(s + [x], m) == InsertBySn(Top(s, m), x)[1..]
  {
    SortBySnSorts(s);
    SortNext(s, x);
    InsertThenDrop(SortBySn(s), x, |s| - m);
  }

  lemma {:induction false} SortOfSorted(s: seq<Inst>)
    requires SortedBySn(s)
    ensures SortBySn(s) == s
  {
    if s != [] {
      SortOfSorted(s[..|s| - 1]);
    }
  }

  lemma {:induction false} TopSorted(s: seq<Inst>, m: nat)
    requires m <= |s|
    ensures |SortBySn(s)| == |s| && |Top(s, m)| == m && SortedBySn(Top(s, m))
  {
    SortBySnSorts(s);
  }

  lemma {:induction false} TopOfTop(s: seq<Inst>, m: nat)
    requires m <= |s|
    ensures |Top(s, m)| == m && Top(Top(s, m), m) == Top(s, m)
  {
    TopSorted(s, m);
    var top := Top(s, m);
    SortOfSorted(top);
    assert top[0..] == top;
  }

  /** A drain leaves the `min` largest instructions, which are the `min` largest of what remains. */
  lemma {:induction false} DrainKeepsTop(s: State, m: nat)
    requires m <= |s.queue|
    ensures Drain(s, m).queue == Top(s.queue, m) && |Top(s.queue, m)| == m
    ensures Top(Top(s.queue, m), m) == Top(s.queue, m)
  {
    TopSorted(s.queue, m);
    TopOfTop(s.queue, m);
  }

  /** Until the first drain the queue holds the trace; from then on, always the `min` largest of the trace. */
  lemma {:induction false} KeepsLargest(limits: Limits, trace: seq<Inst>)
    requires limits.min <= limits.max
    ensures var r := Run(limits, trace);
            || r.queue == trace
            || (limits.min <= |r.queue| && limits.min <= |trace| && Top(r.queue, limits.min) == Top(trace, limits.min))
  {
    if trace != [] {
      var k := |trace| - 1;
      var seen, x := trace[..k], trace[k];
      KeepsLargest(limits, seen);
      assert trace == seen + [x];
      var r := Run(limits, seen);
      if r.queue != seen {
        TopNext(r.queue, x, limits.min);
        TopNext(seen, x, limits.min);
      }
      if |r.queue| >= limits.max {
        DrainKeepsTop(r.(queue := r.queue + [x]), limits.min);
      }
    }
  }

  /** All but the `min` largest instructions of those seen so far. */
  ghost function Settled(limits: Limits, seen: seq<Inst>): seq<Inst>
    requires limits.min <= |seen|
  {
    SortBySnSorts(seen);
    SortBySn(seen)[..|seen| - limits.min]
  }

  lemma {:induction false} SettledAndTop(limits: Limits, seen: seq<Inst>)
    requires limits.min <= |seen|
    ensures multiset(Top(seen, limits.min)) + multiset(Settled(limits, seen)) == multiset(seen)
  {
    SortBySnSorts(seen);
    assert SortBySn(seen) == Settled(limits, seen) + Top(seen, limits.min);
  }

  lemma {:induction false} QueueAtDrain(limits: Limits, seen: seq<Inst>)
    requires limits.min <= limits.max && DrainsAt(limits, |seen|)
    ensures Run(limits, seen).queue == Top(seen, limits.min)
  {
    var k := |seen| - 1;
    var before := Run(limits, seen[..k]);
    RunLength(limits, seen[..k]);
    LengthStep(limits, |seen|);
    DrainKeepsTop(before.(queue := before.queue + [seen[k]]), limits.min);
    KeepsLargest(limits, seen);
    assert Run(limits, seen) == Push(limits, before, seen[k]);
  }

  /** What has left the queue after a drain, in closed form. */
  lemma {:induction false} LeftAtDrain(limits: Limits, seen: seq<Inst>)
    requires limits.min <= limits.max && DrainsAt(limits, |seen|)
    ensures multiset(Run(limits, seen).popped) == multiset(Settled(limits, seen))
  {
    QueueAtDrain(limits, seen);
    SettledAndTop(limits, seen);
    RunHolds(limits, seen);
    MultisetCancel(multiset(Top(seen, limits.min)), multiset(Run(limits, seen).popped),
                   multiset(Settled(limits, seen)));
  }

  lemma {:induction false} RunHolds(limits: Limits, seen: seq<Inst>)
    ensures multiset(Run(limits, seen).queue) + multiset(Run(limits, seen).popped) == multiset(seen)
  {
    RunConserves(limits, State([], []), seen);
    assert Held(State([], [])) == multiset{};
  }

  // ----- when the printout is sorted -----

  /** No shown instruction of a is above a shown instruction of b. */
  ghost predicate ShownLe(o: Options, a: seq<Inst>, b: seq<Inst>) {
    forall x, y :: x in a && y in b && Shown(o, x) && Shown(o, y) ==> x.sn <= y.sn
  }

  /**
   At every drain, no shown instruction that is still to come is below a shown one that is not
   among the `min` largest seen so far.
   */
  ghost predicate ShownAlmostSorted(limits: Limits, o: Options, trace: seq<Inst>)
    requires limits.min <= limits.max
  {
    forall n :: 0 <= n <= |trace| && DrainsAt(limits, n) ==> ShownLe(o, Settled(limits, trace[..n]), trace[n..])
  }

  lemma {:induction false} InFilter(o: Options, s: seq<Inst>, x: Inst)
    ensures x in Filter(o, s) <==> x in s && Shown(o, x)
  {
    FilterCounts(o, s, x);
    assert x in Filter(o, s) <==> x in multiset(Filter(o, s));
    assert x in s <==> x in multiset(s);
  }

  /** Sorted prints, followed by sorted prints that are not below them. */
  lemma {:induction false} FilterSortedConcat(o: Options, a: seq<Inst>, b: seq<Inst>)
    requires SortedBySn(Filter(o, a)) && SortedBySn(b) && ShownLe(o, a, b)
    ensures SortedBySn(Filter(o, a + b))
  {
    FilterConcat(o, a, b);
    FilterSorted(o, b);
    var fa, fb := Filter(o, a), Filter(o, b);
    forall i, j | 0 <= i < |fa| && 0 <= j < |fb| ensures fa[i].sn <= fb[j].sn {
      InFilter(o, a, fa[i]);
      InFilter(o, b, fb[j]);
    }
  }

  lemma {:induction false} SameElements(a: seq<Inst>, b: seq<Inst>)
    requires multiset(a) == multiset(b)
    ensures forall x :: x in a <==> x in b
  {
    forall x ensures x in a <==> x in b {
      assert x in a <==> x in multiset(a);
      assert x in b <==> x in multiset(b);
    }
  }

  /** A drain keeps the printout sorted and below the shown part of the queue. */
  lemma {:induction false} DrainPrints(o: Options, s: State, lower: nat)
    requires SortedBySn(Filter(o, s.popped)) && ShownLe(o, s.popped, s.queue)
    ensures var d := Drain(s, lower); SortedBySn(Filter(o, d.popped)) && ShownLe(o, d.popped, d.queue)
  {
    SortBySnSorts(s.queue);
    var q := SortBySn(s.queue);
    var n := if |q| > lower then |q| - lower else 0;
    SameElements(q, s.queue);
    assert forall x :: x in q[..n] || x in q[n..] ==> x in q;
    FilterSortedConcat(o, s.popped, q[..n]);
  }

  lemma {:induction false} PushPrints(limits: Limits, o: Options, s: State, x: Inst)
    requires SortedBySn(Filter(o, s.popped)) && ShownLe(o, s.popped, s.queue) && ShownLe(o, s.popped, [x])
    ensures var r := Push(limits, s, x); SortedBySn(Filter(o, r.popped)) && ShownLe(o, r.popped, r.queue)
  {
    var longer := s.(queue := s.queue + [x]);
    assert x in [x];
    assert ShownLe(o, longer.popped, longer.queue);
    DrainPrints(o, longer, limits.min);
  }

  lemma {:induction false} ShownLeTail(o: Options, a: seq<Inst>, trace: seq<Inst>, n: nat)
    requires 0 < n <= |trace| && ShownLe(o, a, trace[n - 1..])
    ensures ShownLe(o, a, [trace[n - 1]]) && ShownLe(o, a, trace[n..])
  {
    assert trace[n - 1..] == [trace[n - 1]] + trace[n..];
  }

  lemma {:induction false} ShownLeDrained(limits: Limits, o: Options, trace: seq<Inst>, n: nat)
    requires limits.min <= limits.max && n <= |trace| && ShownAlmostSorted(limits, o, trace) && DrainsAt(limits, n)
    ensures ShownLe(o, Run(limits, trace[..n]).popped, trace[n..])
  {
    LeftAtDrain(limits, trace[..n]);
    SameElements(Run(limits, trace[..n]).popped, Settled(limits, trace[..n]));
  }

  lemma {:induction false} RunPrints(limits: Limits, o: Options, trace: seq<Inst>, n: nat)
    requires limits.min <= limits.max && n <= |trace| && ShownAlmostSorted(limits, o, trace)
    ensures var r := Run(limits, trace[..n]);
            SortedBySn(Filter(o, r.popped)) && ShownLe(o, r.popped, r.queue) && ShownLe(o, r.popped, trace[n..])
  {
    if n > 0 {
      RunPrints(limits, o, trace, n - 1);
      var r := Run(limits, trace[..n - 1]);
      RunBetweenDrains(limits, trace, n);
      ShownLeTail(o, r.popped, trace, n);
      PushPrints(limits, o, r, trace[n - 1]);
      if DrainsAt(limits, n) {
        ShownLeDrained(limits, o, trace, n);
      }
    }
  }

  /** A shown instruction that comes too late for a drain is printed after a larger one. */
  lemma {:induction false} LateShown(limits: Limits, o: Options, trace: seq<Inst>, n: nat, x: Inst, y: Inst)
    requires limits.min <= limits.max && n <= |trace| && DrainsAt(limits, n)
    requires x in Settled(limits, trace[..n]) && y in trace[n..] && Shown(o, x) && Shown(o, y) && x.sn > y.sn
    ensures !SortedBySn(Printed(limits, o, trace))
  {
    var done := Run(limits, trace[..n]).popped;
    PoppedSplits(limits, trace, n);
    var rest := Popped(limits, trace)[|done|..];
    assert y in rest by {
      assert y in multiset(trace[n..]);
      assert y in multiset(rest);
    }
    assert x in done by {
      LeftAtDrain(limits, trace[..n]);
      SameElements(done, Settled(limits, trace[..n]));
    }
    assert Popped(limits, trace) == done + rest;
    PrintedOutOfOrder(o, done, rest, x, y);
  }

  lemma {:induction false} PrintedOutOfOrder(o: Options, a: seq<Inst>, b: seq<Inst>, x: Inst, y: Inst)
    requires x in a && y in b && Shown(o, x) && Shown(o, y) && x.sn > y.sn
    ensures !SortedBySn(Filter(o, a + b))
  {
    FilterConcat(o, a, b);
    InFilter(o, a, x);
    InFilter(o, b, y);
    OutOfOrder(Filter(o, a), Filter(o, b), x, y);
  }

  /** The printout is sorted if and only if the trace is almost sorted as far as it is shown. */
  lemma {:induction false} PrintedSortedIff(limits: Limits, o: Options, trace: seq<Inst>)
    requires limits.min <= limits.max
    ensures SortedBySn(Printed(limits, o, trace)) <==> ShownAlmostSorted(limits, o, trace)
  {
    if ShownAlmostSorted(limits, o, trace) {
      RunPrints(limits, o, trace, |trace|);
      assert trace[..|trace|] == trace;
      DrainPrints(o, Run(limits, trace), 0);
    } else {
      var n :| 0 <= n <= |trace| && DrainsAt(limits, n) && !ShownLe(o, Settled(limits, trace[..n]), trace[n..]);
      var x, y :| x in Settled(limits, trace[..n]) && y in trace[n..] && Shown(o, x) && Shown(o, y) && x.sn > y.sn;
      LateShown(limits, o, trace, n, x, y);
    }
  }
}
