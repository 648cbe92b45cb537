/** Facts about sequences and finite sets that several components share. */
module Sequences {

  function Elems<T>(s: seq<T>): set<T> {
    set x | x in s
  }

  ghost predicate NoDups<T>(s: seq<T>) {
    forall i, j :: 0 <= i < j < |s| ==> s[i] != s[j]
  }

  lemma {:induction false} NoDupsCardinality<T>(s: seq<T>)
    requires NoDups(s)
    ensures |Elems(s)| == |s|
  {
    if s != [] {
      var k := |s| - 1;
      NoDupsCardinality(s[..k]);
      assert Elems(s) == Elems(s[..k]) + {s[k]};
    }
  }

  lemma {:induction false} CardinalityNoDups<T>(s: seq<T>)
    requires |Elems(s)| == |s|
    ensures NoDups(s)
  {
    if s != [] {
      var k := |s| - 1;
      assert Elems(s) == Elems(s[..k]) + {s[k]};
      ElemsBound(s[..k]);
      CardinalityNoDups(s[..k]);
    }
  }

  lemma {:induction false} ElemsBound<T>(s: seq<T>)
    ensures |Elems(s)| <= |s|
  {
    if s != [] {
      var k := |s| - 1;
      ElemsBound(s[..k]);
      assert Elems(s) == Elems(s[..k]) + {s[k]};
    }
  }

  lemma SubsetCardinality<T>(a: set<T>, b: set<T>)
    requires a <= b
    ensures |a| <= |b|
    ensures |a| == |b| ==> a == b
  {
    assert b == a + (b - a);
    assert |b| == |a| + |b - a|;
  }

  lemma ConcatAssociative<T>(a: seq<T>, b: seq<T>, c: seq<T>)
    ensures (a + b) + c == a + (b + c)
  {
  }

  lemma SplitLast<T>(s: seq<T>)
    requires s != []
    ensures s == s[..|s| - 1] + [s[|s| - 1]]
  {
  }

  lemma ElemsConcat<T>(a: seq<T>, b: seq<T>)
    ensures Elems(a + b) == Elems(a) + Elems(b)
  {
  }

  lemma MultisetCancel<T>(a: multiset<T>, b: multiset<T>, c: multiset<T>)
    requires a + b == a + c
    ensures b == c
  {
    assert b == (a + b) - a;
    assert c == (a + c) - a;
  }

  lemma PermutedNoDups<T>(a: seq<T>, b: seq<T>)
    requires NoDups(a) && multiset(a) == multiset(b)
    ensures NoDups(b) && |b| == |a| && Elems(a) == Elems(b)
  {
    assert |b| == |multiset(b)| == |multiset(a)| == |a|;
    forall x ensures x in b <==> x in a {
      assert x in b <==> x in multiset(b);
      assert x in a <==> x in multiset(a);
    }
    assert Elems(a) == Elems(b);
    NoDupsCardinality(a);
    CardinalityNoDups(b);
  }
}
