/**
 configs/example/read_config.py: the order in which connections are visited, in terms of the object
 and port names, and a configuration for which this order makes the difference.
 */
module PortOrder {
  import opened PortBinding
  import opened Text

  // ----- ends -----

  /** Object names decide first, then port names, then indices. */
  ghost predicate EndPrecedes(a: End, b: End) {
    || Precedes(a.port.objectName, b.port.objectName)
    || (a.port.objectName == b.port.objectName && Precedes(a.port.portName, b.port.portName))
    || (a.port == b.port && a.index < b.index)
  }

  lemma {:induction false} EndLeIff(a: End, b: End)
    ensures EndLe(a, b) <==> a == b || EndPrecedes(a, b)
  {
    StringLeIff(a.port.objectName, b.port.objectName);
    StringLeIff(a.port.portName, b.port.portName);
    NotBefore(a.port.objectName);
    NotBefore(a.port.portName);
  }

  /** Connections are visited by their first end and, if that is the same, by their second end. */
  lemma {:induction false} SortVisits(cs: seq<Connection>, i: nat, j: nat)
    requires i < j < |Sort(cs)|
    ensures var x, y := Sort(cs)[i], Sort(cs)[j];
            EndPrecedes(x.from, y.from) || (x.from == y.from && (x.to == y.to || EndPrecedes(x.to, y.to)))
  {
    SortSorts(cs);
    EndLeIff(Sort(cs)[i].from, Sort(cs)[j].from);
    EndLeIff(Sort(cs)[i].to, Sort(cs)[j].to);
  }

  // ----- the crossed configuration, visited the other way round -----

  /** The crossed configuration as it is visited if d comes first and a last. */
  ghost function ReversedList(a: Port, b: Port, c: Port, d: Port): seq<Connection> {
    [Connection(End(d, 0), End(c, 0)), Connection(End(c, 0), End(d, 0)), Connection(End(c, 1), End(a, 0)),
     Connection(End(b, 0), End(a, 1)), Connection(End(a, 0), End(c, 1)), Connection(End(a, 1), End(b, 0))]
  }

  /** The first of three entries is bound, the second is not, and the third is. */
  lemma {:induction false} PassOverThree(x: Connection, y: Connection, z: Connection)
    requires x.from.index == 0 && x.to.index == 0
    requires Gives(x, y.from.port) != y.from.index || Gives(x, y.to.port) != y.to.index
    requires Gives(x, z.from.port) == z.from.index && Gives(x, z.to.port) == z.to.index
    ensures Greedy([x, y, z]) == [x, z]
  {
    CountNone(x.from.port);
    CountNone(x.to.port);
    GreedyNext([], x);
    assert [] + [x] == [x];
    CountFew(x, y, z, y.from.port);
    CountFew(x, y, z, y.to.port);
    GreedyNext([x], y);
    assert [x] + [y] == [x, y];
    CountFew(x, y, z, z.from.port);
    CountFew(x, y, z, z.to.port);
    GreedyNext([x, y], z);
    assert [x, y] + [z] == [x, y, z] && [x] + [z] == [x, z];
  }

  /** An entry that is the next one on both of its ports is bound after two others. */
  lemma {:induction false} PassBinds(seen: seq<Connection>, x: Connection, y: Connection, z: Connection)
    requires Greedy(seen) == [x, y]
    requires Gives(x, z.from.port) + Gives(y, z.from.port) == z.from.index
    requires Gives(x, z.to.port) + Gives(y, z.to.port) == z.to.index
    ensures Greedy(seen + [z]) == [x, y, z]
  {
    CountFew(x, y, z, z.from.port);
    CountFew(x, y, z, z.to.port);
    GreedyNext(seen, z);
    assert [x, y] + [z] == [x, y, z];
  }

  /** An entry whose first port is past it is passed over. */
  lemma {:induction false} PassSkips(seen: seq<Connection>, x: Connection, y: Connection, z: Connection, u: Connection)
    requires Greedy(seen) == [x, y, z]
    requires Gives(x, u.from.port) + Gives(y, u.from.port) + Gives(z, u.from.port) != u.from.index
    ensures Greedy(seen + [u]) == [x, y, z]
  {
    CountFew(x, y, z, u.from.port);
    GreedyNext(seen, u);
  }

  /** Visited in this order, one direction of all three connections is bound. */
  lemma {:induction false} ReversedPass(a: Port, b: Port, c: Port, d: Port)
    requires a != b && a != c && a != d && b != c && b != d && c != d
    ensures var cs := ReversedList(a, b, c, d); Greedy(cs) == [cs[0], cs[2], cs[3]] && Accepted(cs)
  {
    var cs := ReversedList(a, b, c, d);
    PassOverThree(cs[0], cs[1], cs[2]);
    var seen := [cs[0], cs[1], cs[2]];
    PassBinds(seen, cs[0], cs[2], cs[3]);
    PassSkips(seen + [cs[3]], cs[0], cs[2], cs[3], cs[4]);
    PassSkips(seen + [cs[3]] + [cs[4]], cs[0], cs[2], cs[3], cs[5]);
    assert cs == seen + [cs[3]] + [cs[4]] + [cs[5]];
  }

  /**
   The crossed configuration with object names that run against the port names: it is accepted,
   because objects are visited by name.
   */
  lemma {:induction false} ObjectsFirst(cs: seq<Connection>)
    requires var a, b, c, d := Port("z", "a"), Port("y", "b"), Port("x", "c"), Port("w", "d");
             multiset(cs) == multiset(ReversedList(a, b, c, d))
    ensures Accepted(Sort(cs)) && |Greedy(Sort(cs))| == 3
  {
    var a, b, c, d := Port("z", "a"), Port("y", "b"), Port("x", "c"), Port("w", "d");
    var visited := ReversedList(a, b, c, d);
    assert "w"[0] < "x"[0] < "y"[0] < "z"[0];
    assert StringLe("w", "x") && StringLe("w", "y") && StringLe("w", "z");
    assert StringLe("x", "y") && StringLe("x", "z") && StringLe("y", "z");
    assert "w" != "x" && "w" != "y" && "w" != "z" && "x" != "y" && "x" != "z" && "y" != "z";
    ReversedSorted(a, b, c, d);
    SortSorts(cs);
    SortedUnique(Sort(cs), visited);
    ReversedPass(a, b, c, d);
  }

  lemma {:induction false} ReversedSorted(a: Port, b: Port, c: Port, d: Port)
    requires Before(d, c) && Before(d, b) && Before(d, a) && Before(c, b) && Before(c, a) && Before(b, a)
    ensures IsSorted(ReversedList(a, b, c, d))
  {
  }

  /** The order is total, so sorted lists with the same entries are the same. */
  lemma {:induction false} SortedUnique(xs: seq<Connection>, ys: seq<Connection>)
    requires IsSorted(xs) && IsSorted(ys) && multiset(xs) == multiset(ys)
    ensures xs == ys
  {
    assert |xs| == |multiset(xs)| == |multiset(ys)| == |ys|;
    if xs != [] {
      SameHead(xs, ys);
      assert xs == [xs[0]] + xs[1..] && ys == [ys[0]] + ys[1..];
      assert multiset(xs[1..]) == multiset(xs) - multiset{xs[0]};
      assert multiset(ys[1..]) == multiset(ys) - multiset{ys[0]};
      SortedUnique(xs[1..], ys[1..]);
    }
  }

  lemma {:induction false} SameHead(xs: seq<Connection>, ys: seq<Connection>)
    requires IsSorted(xs) && IsSorted(ys) && multiset(xs) == multiset(ys) && xs != [] && ys != []
    ensures xs[0] == ys[0]
  {
    assert xs[0] in multiset(ys) && ys[0] in multiset(xs);
    var i :| 0 <= i < |ys| && ys[i] == xs[0];
    var j :| 0 <= j < |xs| && xs[j] == ys[0];
    EndOrder(xs[0].from, ys[0].from, xs[0].from);
    EndOrder(xs[0].to, ys[0].to, xs[0].to);
  }

  // ----- vectors -----

  /** Whatever is bound, in or out of order: every element has another one as its peer, which has it as its own peer. */
  lemma {:induction false} VectorsMutual(binds: seq<Connection>, p: Port, k: nat)
    requires k < |Vector(binds, p)|
    ensures var q := Vector(binds, p)[k];
            q != End(p, k) && q.index < |Vector(binds, q.port)| && Vector(binds, q.port)[q.index] == End(p, k)
  {
    var init := binds[..|binds| - 1];
    if k < |Vector(init, p)| {
      VectorsMutual(init, p, k);
    }
  }
}
