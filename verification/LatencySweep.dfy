/**
 configs/dram/lat_mem_rd.py: the sizes of a latency sweep. They start at 4 kByte and grow by a step
 that doubles whenever a power of two is reached, which a bit trick detects.
 */
module LatencySweep {
  import opened Bits

  function IsPow2Trick(num: nat): (r: bool)
    ensures r <==> IsPow2(num)
  {
    if num != 0 then
      AndBelowIffPow2(num);
      BitAnd(num, num - 1) == 0
    else false
  }

  /** The i-th size of the sweep: four sizes for each power of two. */
  ghost function Size(i: nat): nat {
    (4 + i % 4) * Pow2(10 + i / 4)
  }

  ghost function StepAfter(i: nat): nat {
    Pow2(10 + i / 4)
  }

  lemma SizeNext(i: nat)
    ensures Size(i + 1) == Size(i) + StepAfter(i)
    ensures StepAfter(i + 1) == if (i + 1) % 4 == 0 then 2 * StepAfter(i) else StepAfter(i)
  {
    var q, p := i / 4, Pow2(10 + i / 4);
    if i % 4 < 3 {
      assert (i + 1) / 4 == q && (i + 1) % 4 == i % 4 + 1;
      assert (4 + (i % 4 + 1)) * p == (4 + i % 4) * p + p;
    } else {
      assert (i + 1) / 4 == q + 1 && (i + 1) % 4 == 0;
      assert Pow2(10 + (q + 1)) == 2 * p;
    }
  }

  lemma {:induction false} Pow2Multiple(j: nat, m: nat)
    requires j < 4
    ensures IsPow2((4 + j) * Pow2(m)) <==> j == 0
  {
    var x := (4 + j) * Pow2(m);
    Pow2Halves(x);
    if m == 0 {
      Pow2Halves(2);
      Pow2Halves(3);
      Pow2Halves(1);
    } else {
      assert x == 2 * ((4 + j) * Pow2(m - 1));
      assert x / 2 == (4 + j) * Pow2(m - 1);
      Pow2Multiple(j, m - 1);
    }
  }

  /** The list of sizes: the sweep as far as the first size that reaches the maximum. */
  method BuildRanges(maxRange: int) returns (ranges: seq<nat>)
    ensures ranges != [] && forall i :: 0 <= i < |ranges| ==> ranges[i] == (4 + i % 4) * Pow2(10 + i / 4)
    ensures maxRange <= ranges[|ranges| - 1]
    ensures forall i :: 0 <= i < |ranges| - 1 ==> ranges[i] < maxRange
  {
    ranges := [4096];
    var step := 1024;
    assert Pow2(10) == 1024 by {
      assert Pow2(5) == 32;
      Pow2Add(5, 5);
    }
    while ranges[|ranges| - 1] < maxRange
      invariant ranges != [] && forall i :: 0 <= i < |ranges| ==> ranges[i] == Size(i)
      invariant step == StepAfter(|ranges| - 1) && step > 0
      invariant forall i :: 0 <= i < |ranges| - 1 ==> ranges[i] < maxRange
      decreases maxRange - ranges[|ranges| - 1]
    {
      var n := |ranges|;
      var newRange := ranges[n - 1] + step;
      SizeNext(n - 1);
      Pow2Multiple(n % 4, 10 + n / 4);
      if IsPow2Trick(newRange) {
        step := step * 2;
      }
      ranges := ranges + [newRange];
    }
  }
}
