/**
 configs/example/memtest.py: a tree of crossbars, caches and testers built by recursion over a
 specification, against the closed form that predicts how many testers it has.
 */
module MemTest {
  import opened Sequences
  import opened Text

  /** Caches and testers for each level, from the memory upwards, as the script checks them. */
  datatype Spec = Spec(caches: seq<nat>, testers: seq<nat>) {
    ghost predicate Valid() {
      && |caches| >= 1 && |testers| == |caches| + 1 && testers[|testers| - 1] > 0
      && forall k :: 0 <= k < |caches| ==> caches[k] >= 1
    }

    /** The testers of a subsystem at the given level; levels count down towards the testers on top. */
    function TestersAt(level: nat): nat
      requires |testers| == |caches| + 1 && level <= |caches|
    {
      testers[|caches| - level]
    }

    /** The caches that fan out from a subsystem at the given level. */
    function CachesAt(level: nat): nat
      requires 0 < level <= |caches|
    {
      caches[|caches| - level]
    }
  }

  // ----- the closed form -----

  ghost function Product(cs: seq<nat>, k: nat): nat
    requires k <= |cs|
  {
    if k == 0 then 1 else Product(cs, k - 1) * cs[k - 1]
  }

  ghost function Weighted(s: Spec, k: nat): nat
    requires s.Valid() && k <= |s.testers|
  {
    if k == 0 then 0 else Weighted(s, k - 1) + s.testers[k - 1] * Product(s.caches, k - 1)
  }

  /** The running products of the cache counts. */
  method Multipliers(caches: seq<nat>) returns (multiplier: seq<nat>)
    ensures |multiplier| == |caches| + 1
    ensures forall k :: 0 <= k <= |caches| ==> multiplier[k] == Product(caches, k)
  {
    multiplier := [1];
    for i := 0 to |caches|
      invariant |multiplier| == i + 1 && forall k :: 0 <= k <= i ==> multiplier[k] == Product(caches, k)
    {
      multiplier := multiplier + [multiplier[|multiplier| - 1] * caches[i]];
    }
  }

  /** `numtesters`: the testers of each level times the number of subsystems on that level. */
  method NumTesters(s: Spec) returns (total: nat)
    requires s.Valid()
    ensures total == Weighted(s, |s.testers|)
  {
    var multiplier := Multipliers(s.caches);
    total := 0;
    for i := 0 to |s.testers|
      invariant total == Weighted(s, i)
    {
      total := total + s.testers[i] * multiplier[i];
    }
  }

  // ----- the tree -----

  /** The testers in the subtree of one subsystem. */
  ghost function Subtree(s: Spec, level: nat): nat
    requires s.Valid() && level <= |s.caches|
  {
    s.TestersAt(level) + if level == 0 then 0 else s.CachesAt(level) * Subtree(s, level - 1)
  }

  /** The subsystems of level l in the subtree of one subsystem at `level`. */
  ghost function Width(s: Spec, level: nat, l: nat): nat
    requires s.Valid() && level <= |s.caches|
  {
    if l > level then 0 else if l == level then 1 else s.CachesAt(level) * Width(s, level - 1, l)
  }

  /** The rest of the closed form is what the subtrees on a level hold. */
  lemma {:induction false} SubtreeIsWeighted(s: Spec, level: nat)
    requires s.Valid() && level <= |s.caches|
    ensures var k := |s.caches| - level;
            Weighted(s, |s.testers|) == Weighted(s, k) + Product(s.caches, k) * Subtree(s, level)
    decreases level
  {
    var k := |s.caches| - level;
    var p := Product(s.caches, k);
    if level == 0 {
      assert p * s.testers[k] == s.testers[k] * p;
    } else {
      SubtreeIsWeighted(s, level - 1);
      var c, sub := s.CachesAt(level), Subtree(s, level - 1);
      Distribute(p, s.testers[k], c, sub);
    }
  }

  lemma Distribute(p: nat, t: nat, c: nat, sub: nat)
    ensures p * (t + c * sub) == t * p + (p * c) * sub
  {
    assert p * (t + c * sub) == p * t + p * (c * sub);
    assert p * (c * sub) == (p * c) * sub;
  }

  /** The whole tree has as many testers as `numtesters` says. */
  lemma TreeMatchesClosedForm(s: Spec)
    requires s.Valid()
    ensures Subtree(s, |s.caches|) == Weighted(s, |s.testers|)
  {
    SubtreeIsWeighted(s, |s.caches|);
  }

  /** Level l of the whole tree has as many subsystems as the product of the cache counts below it. */
  lemma {:induction false} WidthIsProduct(s: Spec, level: nat, l: nat)
    requires s.Valid() && l <= level <= |s.caches|
    ensures Product(s.caches, |s.caches| - level) * Width(s, level, l) == Product(s.caches, |s.caches| - l)
    decreases level
  {
    var k := |s.caches| - level;
    if l < level {
      WidthIsProduct(s, level - 1, l);
      MulAssociative(Product(s.caches, k), s.CachesAt(level), Width(s, level - 1, l));
    }
  }

  lemma MulAssociative(p: nat, c: nat, w: nat)
    ensures p * (c * w) == (p * c) * w
  {
  }

  // ----- names of subsystems -----

  datatype Name = Name(level: nat, index: nat)

  /** `'l%dsubsys%d' % (level, index)` */
  function NameText(n: Name): string {
    "l" + Digits(n.level) + "subsys" + Digits(n.index)
  }

  /** The level comes first, and the index last. */
  lemma NameIs(n: Name)
    ensures var text, a, b := NameText(n), |Digits(n.level)|, |Digits(n.index)|;
            && |text| == 7 + a + b && text[0] == 'l' && text[1..1 + a] == Digits(n.level)
            && text[1 + a..7 + a] == "subsys" && text[7 + a..] == Digits(n.index)
  {
  }

  lemma {:induction false} DigitPrefix(a: string, b: string, x: string, y: string)
    requires AllDigits(a) && AllDigits(b) && a + "s" + x == b + "s" + y
    ensures a == b && x == y
  {
    var s, t := a + "s" + x, b + "s" + y;
    assert !IsDigit('s');
    if a == "" || b == "" {
      assert s[0] == t[0];
      assert a == "" && b == "";
      assert s[1..] == x && t[1..] == y;
    } else {
      assert s[0] == a[0] && t[0] == b[0];
      assert s[1..] == a[1..] + "s" + x && t[1..] == b[1..] + "s" + y;
      DigitPrefix(a[1..], b[1..], x, y);
      assert a == [a[0]] + a[1..] && b == [b[0]] + b[1..];
    }
  }

  /** Different subsystems get different attribute names. */
  lemma NamesInjective(m: Name, n: Name)
    requires NameText(m) == NameText(n)
    ensures m == n
  {
    NameParts(m);
    NameParts(n);
    DigitPrefix(Digits(m.level), Digits(n.level), "ubsys" + Digits(m.index), "ubsys" + Digits(n.index));
    SameSuffix("ubsys", Digits(m.index), Digits(n.index));
    ParseDigits(m.level);
    ParseDigits(n.level);
    ParseDigits(m.index);
    ParseDigits(n.index);
  }

  lemma NameParts(n: Name)
    ensures NameText(n)[1..] == Digits(n.level) + "s" + ("ubsys" + Digits(n.index))
  {
  }

  lemma SameSuffix(prefix: string, x: string, y: string)
    requires prefix + x == prefix + y
    ensures x == y
  {
    assert (prefix + x)[|prefix|..] == x && (prefix + y)[|prefix|..] == y;
  }

  // ----- building the tree -----

  /** The counters after `times` subtrees of `level` have been built. */
  ghost function Built(s: Spec, counters: seq<nat>, level: nat, times: nat): (r: seq<nat>)
    requires s.Valid() && level <= |s.caches| && |counters| == |s.caches| + 1
    ensures |r| == |counters| && forall l :: 0 <= l < |r| ==> r[l] == counters[l] + times * Width(s, level, l)
  {
    seq(|counters|, l requires 0 <= l < |counters| => counters[l] + times * Width(s, level, l))
  }

  lemma BuiltOneMore(s: Spec, counters: seq<nat>, level: nat, times: nat)
    requires s.Valid() && level <= |s.caches| && |counters| == |s.caches| + 1
    ensures Built(s, Built(s, counters, level, times), level, 1) == Built(s, counters, level, times + 1)
  {
    forall l | 0 <= l < |counters|
      ensures counters[l] + times * Width(s, level, l) + Width(s, level, l) ==
              counters[l] + (times + 1) * Width(s, level, l)
    {
    }
  }

  lemma BuiltNone(s: Spec, counters: seq<nat>, level: nat)
    requires s.Valid() && level <= |s.caches| && |counters| == |s.caches| + 1
    ensures Built(s, counters, level, 0) == counters
  {
  }

  lemma MulNext(i: nat, m: nat)
    ensures (i + 1) * m == i * m + m
  {
  }

  /** One subsystem, and then all the subtrees that fan out from it. */
  lemma BuiltBelow(s: Spec, counters: seq<nat>, level: nat)
    requires s.Valid() && 0 < level <= |s.caches| && |counters| == |s.caches| + 1
    ensures Built(s, counters[level := counters[level] + 1], level - 1, s.CachesAt(level)) ==
            Built(s, counters, level, 1)
  {
  }

  class Builder {
    const spec: Spec
    var nextSubsysIndex: seq<nat>
    var names: seq<Name>
    var testers: nat

    ghost predicate Valid()
      reads this
    {
      && spec.Valid() && |nextSubsysIndex| == |spec.caches| + 1 && NoDups(names)
      && forall n :: n in names <==> n.level <= |spec.caches| && n.index < nextSubsysIndex[n.level]
    }

    constructor (spec: Spec)
      requires spec.Valid()
      ensures Valid() && this.spec == spec && testers == 0 && names == []
      ensures forall l :: 0 <= l <= |spec.caches| ==> nextSubsysIndex[l] == 0
    {
      this.spec := spec;
      nextSubsysIndex := seq(|spec.caches| + 1, _ => 0);
      names := [];
      testers := 0;
    }

    /** Create the subsystem of a level, with its testers. */
    method AddSubsystem(level: nat)
      requires Valid() && level <= |spec.caches|
      modifies this
      ensures Valid()
      ensures nextSubsysIndex == old(nextSubsysIndex)[level := old(nextSubsysIndex)[level] + 1]
      ensures testers == old(testers) + spec.TestersAt(level)
    {
      var index := nextSubsysIndex[level];
      nextSubsysIndex := nextSubsysIndex[level := index + 1];
      var name := Name(level, index);
      assert name !in names;
      names := names + [name];
      testers := testers + spec.TestersAt(level);
    }

    /** `make_cache_level`: one subsystem and everything above it. */
    method MakeCacheLevel(ncaches: seq<nat>, prototypes: nat, level: nat)
      requires Valid() && level <= |spec.caches|
      requires ncaches == spec.caches[|spec.caches| - level..] && prototypes == level
      modifies this
      ensures Valid()
      ensures nextSubsysIndex == Built(spec, old(nextSubsysIndex), level, 1)
      ensures testers == old(testers) + Subtree(spec, level)
      decreases level, 1
    {
      AddSubsystem(level);
      if level != 0 {
        assert 0 < |ncaches| && 0 < prototypes;  // the lists are never indexed outside
        assert ncaches[0] == spec.CachesAt(level);
        FanOut(ncaches, prototypes, level);
        BuiltBelow(spec, old(nextSubsysIndex), level);
      } else {
        assert spec.TestersAt(0) > 0;  // so the first tester of the top level exists
        assert nextSubsysIndex == Built(spec, old(nextSubsysIndex), 0, 1);
      }
    }

    /** The subtrees behind the caches of one subsystem. */
    method FanOut(ncaches: seq<nat>, prototypes: nat, level: nat)
      requires Valid() && 0 < level <= |spec.caches|
      requires ncaches == spec.caches[|spec.caches| - level..] && prototypes == level
      modifies this
      ensures Valid() && nextSubsysIndex == Built(spec, old(nextSubsysIndex), level - 1, spec.CachesAt(level))
      ensures testers == old(testers) + spec.CachesAt(level) * Subtree(spec, level - 1)
      decreases level, 0
    {
      ghost var counters, before, sub := nextSubsysIndex, testers, Subtree(spec, level - 1);
      BuiltNone(spec, counters, level - 1);
      for i := 0 to ncaches[0]
        invariant Valid() && nextSubsysIndex == Built(spec, counters, level - 1, i)
        invariant testers == before + i * sub
      {
        MakeCacheLevel(ncaches[1..], prototypes - 1, level - 1);
        BuiltOneMore(spec, counters, level - 1, i);
        MulNext(i, sub);
      }
    }

    /** The whole tree: as many testers and subsystems as predicted, all under different names. */
    method MakeTree() returns (predicted: nat)
      requires Valid() && names == [] && testers == 0
      requires forall l :: 0 <= l <= |spec.caches| ==> nextSubsysIndex[l] == 0
      modifies this
      ensures Valid() && testers == predicted == Weighted(spec, |spec.testers|)
      ensures forall l :: 0 <= l <= |spec.caches| ==> nextSubsysIndex[l] == Product(spec.caches, |spec.caches| - l)
    {
      predicted := NumTesters(spec);
      assert spec.caches[0..] == spec.caches;
      MakeCacheLevel(spec.caches, |spec.caches|, |spec.caches|);
      TreeMatchesClosedForm(spec);
      forall l | 0 <= l <= |spec.caches| ensures nextSubsysIndex[l] == Product(spec.caches, |spec.caches| - l) {
        WidthIsProduct(spec, |spec.caches|, l);
        assert Product(spec.caches, 0) == 1;
      }
    }
  }
}
