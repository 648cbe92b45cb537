/**
 configs/example/read_config.py: the order in which port connections are bound when a
 configuration file is read back. Binding a connection appends one element to the vector of each
 of its two ports, so the order decides which peer ends up at which index.
 */
module PortBinding {
  import opened Sequences
  import opened Text

  datatype Port = Port(objectName: string, portName: string)

  /** One element of a port vector (`PortConnection`). */
  datatype End = End(port: Port, index: nat)

  datatype Connection = Connection(from: End, to: End)

  // ----- binding as a sequence of appends -----

  /** How many elements the binds so far have given to port p. */
  ghost function Count(binds: seq<Connection>, p: Port): nat {
    if binds == [] then 0
    else
      var k := |binds| - 1;
      Count(binds[..k], p) + (if binds[k].from.port == p then 1 else 0) + (if binds[k].to.port == p then 1 else 0)
  }

  /** The vector of port p once the binds have been replayed: who each element is connected to. */
  ghost function Vector(binds: seq<Connection>, p: Port): (v: seq<End>)
    ensures |v| == Count(binds, p)
  {
    if binds == [] then []
    else
      var k := |binds| - 1;
      var from, to := binds[k].from.port, binds[k].to.port;
      var v := Vector(binds[..k], p);
      if from == p && to == p then v + [End(p, |v| + 1), End(p, |v|)]
      else if from == p then v + [End(to, |Vector(binds[..k], to)|)]
      else if to == p then v + [End(from, |Vector(binds[..k], from)|)]
      else v
  }

  /** Both ends of x are the next elements of their port vectors. */
  ghost predicate Bindable(binds: seq<Connection>, x: Connection) {
    Count(binds, x.from.port) == x.from.index && Count(binds, x.to.port) == x.to.index
  }

  /** Every bind names, for both of its ports, the index that the append really gets. */
  ghost predicate InOrder(binds: seq<Connection>) {
    forall k :: 0 <= k < |binds| ==> Bindable(binds[..k], binds[k]) && binds[k].from != binds[k].to
  }

  ghost function Ends(binds: seq<Connection>): set<End> {
    (set k | 0 <= k < |binds| :: binds[k].from) + (set k | 0 <= k < |binds| :: binds[k].to)
  }

  lemma EndsOfLast(binds: seq<Connection>)
    requires binds != []
    ensures Ends(binds) == Ends(binds[..|binds| - 1]) + {binds[|binds| - 1].from, binds[|binds| - 1].to}
  {
    var init := binds[..|binds| - 1];
    assert forall k :: 0 <= k < |init| ==> init[k] == binds[k];
    forall e | e in Ends(binds) ensures e in Ends(init) + {binds[|binds| - 1].from, binds[|binds| - 1].to} {
      var k :| 0 <= k < |binds| && (binds[k].from == e || binds[k].to == e);
      if k < |init| {
        assert init[k].from == e || init[k].to == e;
      }
    }
  }

  lemma InOrderInit(binds: seq<Connection>)
    requires InOrder(binds) && binds != []
    ensures InOrder(binds[..|binds| - 1])
  {
    var init := binds[..|binds| - 1];
    forall k | 0 <= k < |init| ensures Bindable(init[..k], init[k]) && init[k].from != init[k].to {
      assert init[..k] == binds[..k] && init[k] == binds[k];
    }
  }

  /** In-order binds have filled each port exactly up to its count. */
  lemma {:induction false} EndBelowCount(binds: seq<Connection>, e: End)
    requires InOrder(binds)
    ensures e in Ends(binds) <==> e.index < Count(binds, e.port)
  {
    if binds != [] {
      var k := |binds| - 1;
      InOrderInit(binds);
      EndBelowCount(binds[..k], e);
      EndsOfLast(binds);
      var x, before := binds[k], Count(binds[..k], e.port);
      assert Bindable(binds[..k], x) && x.from.port != x.to.port;
      assert Count(binds, e.port) == before + (if e.port in {x.from.port, x.to.port} then 1 else 0);
      assert e in {x.from, x.to} <==> e.port in {x.from.port, x.to.port} && e.index == before;
    }
  }

  /** In-order binds use no end twice. */
  lemma {:induction false} EndsCounted(binds: seq<Connection>)
    requires InOrder(binds)
    ensures |Ends(binds)| == 2 * |binds|
  {
    if binds != [] {
      var k := |binds| - 1;
      InOrderInit(binds);
      EndsCounted(binds[..k]);
      EndsOfLast(binds);
      var x, before := binds[k], Ends(binds[..k]);
      EndBelowCount(binds[..k], x.from);
      EndBelowCount(binds[..k], x.to);
      assert Bindable(binds[..k], x);
      assert x.from !in before && x.to !in before && x.from != x.to;
      assert |before + {x.from} + {x.to}| == |before| + 2;
      assert before + {x.from} + {x.to} == before + {x.from, x.to};
    }
  }

  /** Replaying in-order binds connects exactly the elements that the binds name. */
  lemma {:induction false} VectorHolds(binds: seq<Connection>, i: nat)
    requires InOrder(binds) && i < |binds|
    ensures var x := binds[i];
            && x.from.index < Count(binds, x.from.port) && Vector(binds, x.from.port)[x.from.index] == x.to
            && x.to.index < Count(binds, x.to.port) && Vector(binds, x.to.port)[x.to.index] == x.from
    decreases |binds|
  {
    var k := |binds| - 1;
    InOrderInit(binds);
    assert Bindable(binds[..k], binds[k]) && binds[k].from.port != binds[k].to.port;
    if i < k {
      VectorHolds(binds[..k], i);
      assert binds[..k][i] == binds[i];
    }
  }

  // ----- the greedy pass -----

  /** The connections that one pass over cs binds (`connections_to_make`). */
  ghost function Greedy(cs: seq<Connection>): seq<Connection> {
    if cs == [] then []
    else
      var k := |cs| - 1;
      var made := Greedy(cs[..k]);
      if Bindable(made, cs[k]) then made + [cs[k]] else made
  }

  ghost predicate NoSelf(cs: seq<Connection>) {
    forall k :: 0 <= k < |cs| ==> cs[k].from != cs[k].to
  }

  /** `sub` is `cs` with some elements left out. */
  ghost predicate Subsequence(sub: seq<Connection>, cs: seq<Connection>)
    decreases |cs|
  {
    if cs == [] then sub == []
    else
      var k := |cs| - 1;
      || Subsequence(sub, cs[..k])
      || (sub != [] && sub[|sub| - 1] == cs[k] && Subsequence(sub[..|sub| - 1], cs[..k]))
  }

  lemma {:induction false} GreedySound(cs: seq<Connection>)
    requires NoSelf(cs)
    ensures InOrder(Greedy(cs)) && Subsequence(Greedy(cs), cs)
    ensures forall x :: x in Greedy(cs) ==> x in cs
  {
    if cs != [] {
      var k := |cs| - 1;
      GreedySound(cs[..k]);
      var made := Greedy(cs[..k]);
      if Bindable(made, cs[k]) {
        assert (made + [cs[k]])[..|made|] == made;
        forall i | 0 <= i < |made| + 1
          ensures var m := made + [cs[k]]; Bindable(m[..i], m[i]) && m[i].from != m[i].to
        {
          assert i < |made| ==> (made + [cs[k]])[..i] == made[..i];
        }
      }
    }
  }

  /** Each end has one peer: all connections that touch it lead to the same place. */
  ghost predicate OnePeer(cs: seq<Connection>) {
    forall x, y :: x in cs && y in cs ==>
      && (x.from == y.from ==> x.to == y.to)
      && (x.to == y.to ==> x.from == y.from)
      && (x.from == y.to ==> x.to == y.from)
  }

  /** What the pass has bound before the last entry stays bound, and that entry is bound if it can be. */
  lemma GreedyLast(cs: seq<Connection>)
    requires cs != []
    ensures var k := |cs| - 1;
            var made := Greedy(cs[..k]);
            Ends(Greedy(cs)) == if Bindable(made, cs[k]) then Ends(made) + {cs[k].from, cs[k].to} else Ends(made)
  {
    var k := |cs| - 1;
    var made := Greedy(cs[..k]);
    if Bindable(made, cs[k]) {
      EndsOfLast(made + [cs[k]]);
      assert (made + [cs[k]])[..|made|] == made;
    }
  }

  /** No selection that keeps the order of cs binds an end that the greedy pass misses. */
  lemma {:induction false} GreedyDominates(cs: seq<Connection>, sub: seq<Connection>)
    requires NoSelf(cs) && OnePeer(cs) && Subsequence(sub, cs) && InOrder(sub)
    ensures Ends(sub) <= Ends(Greedy(cs))
    decreases |cs|
  {
    if cs != [] {
      var k := |cs| - 1;
      var made := Greedy(cs[..k]);
      assert forall x :: x in cs[..k] ==> x in cs;
      GreedySound(cs[..k]);
      GreedyLast(cs);
      if Subsequence(sub, cs[..k]) {
        GreedyDominates(cs[..k], sub);
      } else {
        var init := sub[..|sub| - 1];
        InOrderInit(sub);
        GreedyDominates(cs[..k], init);
        EndsOfLast(sub);
        DominatedStep(cs, made, init, cs[k]);
      }
    }
  }

  /** If `made` covers `init` and x can follow `init`, then `made` has bound x or can bind it now. */
  lemma DominatedStep(cs: seq<Connection>, made: seq<Connection>, init: seq<Connection>, x: Connection)
    requires OnePeer(cs) && x in cs && forall y :: y in made ==> y in cs
    requires InOrder(made) && InOrder(init) && Ends(init) <= Ends(made) && Bindable(init, x)
    ensures Bindable(made, x) || (x.from in Ends(made) && x.to in Ends(made))
  {
    CountCovers(init, made, x.from);
    CountCovers(init, made, x.to);
    if !Bindable(made, x) {
      var e := if Count(made, x.from.port) > x.from.index then x.from else x.to;
      EndBelowCount(made, e);
      var i :| 0 <= i < |made| && (made[i].from == e || made[i].to == e);
      assert made[i] in cs;
      assert made[i].from in Ends(made) && made[i].to in Ends(made);
    }
  }

  lemma CountCovers(init: seq<Connection>, made: seq<Connection>, e: End)
    requires InOrder(made) && InOrder(init) && Ends(init) <= Ends(made) && Count(init, e.port) == e.index
    ensures e.index <= Count(made, e.port)
  {
    if e.index > 0 {
      var below := End(e.port, e.index - 1);
      EndBelowCount(init, below);
      EndBelowCount(made, below);
    }
  }

  // ----- the order of connections (`PortConnection.__cmp__`) -----

  predicate EndLe(a: End, b: End) {
    if a.port.objectName != b.port.objectName then StringLe(a.port.objectName, b.port.objectName)
    else if a.port.portName != b.port.portName then StringLe(a.port.portName, b.port.portName)
    else a.index <= b.index
  }

  predicate ConnectionLe(a: Connection, b: Connection) {
    if a.from != b.from then EndLe(a.from, b.from) else EndLe(a.to, b.to)
  }

  lemma EndOrder(a: End, b: End, c: End)
    ensures EndLe(a, b) || EndLe(b, a)
    ensures EndLe(a, b) && EndLe(b, a) ==> a == b
    ensures EndLe(a, b) && EndLe(b, c) ==> EndLe(a, c)
  {
    StringOrder(a.port.objectName, b.port.objectName, c.port.objectName);
    StringOrder(b.port.objectName, c.port.objectName, c.port.objectName);
    StringOrder(a.port.portName, b.port.portName, c.port.portName);
    StringOrder(b.port.portName, c.port.portName, c.port.portName);
  }

  lemma ConnectionOrder(a: Connection, b: Connection, c: Connection)
    ensures ConnectionLe(a, b) || ConnectionLe(b, a)
    ensures ConnectionLe(a, b) && ConnectionLe(b, c) ==> ConnectionLe(a, c)
  {
    EndOrder(a.from, b.from, c.from);
    EndOrder(b.from, c.from, c.from);
    EndOrder(a.to, b.to, c.to);
  }

  ghost predicate IsSorted(cs: seq<Connection>) {
    forall i, j :: 0 <= i < j < |cs| ==> ConnectionLe(cs[i], cs[j])
  }

  function Insert(x: Connection, cs: seq<Connection>): seq<Connection> {
    if cs == [] || ConnectionLe(x, cs[0]) then [x] + cs else [cs[0]] + Insert(x, cs[1..])
  }

  /** `sorted(cs)` */
  function Sort(cs: seq<Connection>): seq<Connection> {
    if cs == [] then [] else Insert(cs[0], Sort(cs[1..]))
  }

  lemma {:induction false} InsertSorts(x: Connection, cs: seq<Connection>)
    requires IsSorted(cs)
    ensures IsSorted(Insert(x, cs)) && multiset(Insert(x, cs)) == multiset(cs) + multiset{x}
  {
    if cs == [] || ConnectionLe(x, cs[0]) {
      forall j | 0 <= j < |cs| ensures ConnectionLe(x, cs[j]) {
        ConnectionOrder(x, cs[0], cs[j]);
      }
    } else {
      InsertSorts(x, cs[1..]);
      var rest := Insert(x, cs[1..]);
      assert cs == [cs[0]] + cs[1..];
      ConnectionOrder(x, cs[0], x);
      forall j | 0 <= j < |rest| ensures ConnectionLe(cs[0], rest[j]) {
        assert rest[j] in multiset(rest);
        assert rest[j] == x || rest[j] in cs[1..];
      }
    }
  }

  lemma {:induction false} SortSorts(cs: seq<Connection>)
    ensures IsSorted(Sort(cs)) && multiset(Sort(cs)) == multiset(cs)
  {
    if cs != [] {
      SortSorts(cs[1..]);
      InsertSorts(cs[0], Sort(cs[1..]));
      assert cs == [cs[0]] + cs[1..];
    }
  }

  lemma {:induction false} SortOfSorted(cs: seq<Connection>)
    requires IsSorted(cs)
    ensures Sort(cs) == cs
  {
    if cs != [] {
      SortOfSorted(cs[1..]);
      assert |cs| > 1 ==> ConnectionLe(cs[0], cs[1]);
    }
  }

  // ----- gathering connections from a configuration -----

  /** What a configuration file lists for each port: the peer of element 0, of element 1, ... */
  type Peers = map<Port, seq<End>>

  /** Every connection is listed at both of its ends. */
  ghost predicate Mutual(peers: Peers) {
    forall p, k :: p in peers && 0 <= k < |peers[p]| ==>
      var q := peers[p][k];
      q.port in peers && q.index < |peers[q.port]| && peers[q.port][q.index] == End(p, k)
  }

  ghost predicate NoSelfConnection(peers: Peers) {
    forall p, k :: p in peers && 0 <= k < |peers[p]| ==> peers[p][k] != End(p, k)
  }

  ghost predicate IsEnd(peers: Peers, e: End) {
    e.port in peers && e.index < |peers[e.port]|
  }

  /** The connections of the ports in `order`, each port from index 0 up. */
  ghost function Gather(peers: Peers, order: seq<Port>): seq<Connection>
    requires Elems(order) <= peers.Keys
  {
    if order == [] then []
    else
      var n := |order| - 1;
      assert order[n] in Elems(order) && Elems(order[..n]) <= Elems(order);
      Gather(peers, order[..n]) + Listed(order[n], peers[order[n]])
  }

  ghost function Listed(p: Port, peers: seq<End>): (cs: seq<Connection>)
    ensures |cs| == |peers| && forall k :: 0 <= k < |cs| ==> cs[k] == Connection(End(p, k), peers[k])
  {
    if peers == [] then []
    else
      var n := |peers| - 1;
      Listed(p, peers[..n]) + [Connection(End(p, n), peers[n])]
  }

  /** x is what the configuration lists for its from-end. */
  ghost predicate IsListed(peers: Peers, x: Connection) {
    IsEnd(peers, x.from) && x.to == peers[x.from.port][x.from.index]
  }

  /** cs holds the entry of every end of the given ports, once. */
  ghost predicate Lists(peers: Peers, ports: set<Port>, cs: seq<Connection>) {
    NoDups(cs) && forall x :: x in cs <==> IsListed(peers, x) && x.from.port in ports
  }

  lemma {:induction false} GatherLists(peers: Peers, order: seq<Port>)
    requires Elems(order) <= peers.Keys && NoDups(order)
    ensures Lists(peers, Elems(order), Gather(peers, order))
  {
    if order != [] {
      var n := |order| - 1;
      var p := order[n];
      assert Elems(order) == Elems(order[..n]) + {p};
      GatherLists(peers, order[..n]);
      var before, now := Gather(peers, order[..n]), Listed(p, peers[p]);
      forall x ensures x in now <==> IsListed(peers, x) && x.from.port == p {
        if IsListed(peers, x) && x.from.port == p {
          assert now[x.from.index] == x;
        }
      }
      assert p !in Elems(order[..n]);
      forall i, j | 0 <= i < |before| && 0 <= j < |now| ensures before[i] != now[j] {
        assert before[i] in before && now[j] in now;
      }
      assert NoDups(before + now);
      assert Gather(peers, order) == before + now;
    }
  }

  lemma PermutedLists(peers: Peers, cs: seq<Connection>, other: seq<Connection>)
    requires Lists(peers, peers.Keys, cs) && multiset(other) == multiset(cs)
    ensures Lists(peers, peers.Keys, other) && |other| == |cs|
  {
    PermutedNoDups(cs, other);
    forall x ensures x in other <==> x in cs {
      assert x in Elems(other) <==> x in Elems(cs);
    }
  }

  ghost function Froms(cs: seq<Connection>): seq<End> {
    seq(|cs|, k requires 0 <= k < |cs| => cs[k].from)
  }

  /** A complete list has as many entries as the configuration has ends. */
  lemma FromsCounted(peers: Peers, cs: seq<Connection>)
    requires Lists(peers, peers.Keys, cs)
    ensures |Elems(Froms(cs))| == |cs|
    ensures forall e :: e in Elems(Froms(cs)) <==> IsEnd(peers, e)
  {
    var froms := Froms(cs);
    forall i, j | 0 <= i < j < |froms| ensures froms[i] != froms[j] {
      assert cs[i] in cs && cs[j] in cs;
    }
    NoDupsCardinality(froms);
    forall e ensures e in Elems(froms) <==> IsEnd(peers, e) {
      if IsEnd(peers, e) {
        assert Connection(e, peers[e.port][e.index]) in cs;
        var k :| 0 <= k < |cs| && cs[k] == Connection(e, peers[e.port][e.index]);
        assert froms[k] == e;
      }
      if e in froms {
        var k :| 0 <= k < |froms| && froms[k] == e;
        assert cs[k] in cs;
      }
    }
  }

  // ----- what acceptance means -----

  /** The check after the pass: half of the entries have been bound. */
  ghost predicate Accepted(cs: seq<Connection>) {
    2 * |Greedy(cs)| == |cs|
  }

  /** The binds touch every end of the configuration. */
  ghost predicate Covers(peers: Peers, binds: seq<Connection>) {
    forall e :: IsEnd(peers, e) ==> e in Ends(binds)
  }

  lemma ListedFacts(peers: Peers, cs: seq<Connection>)
    requires Mutual(peers) && NoSelfConnection(peers) && Lists(peers, peers.Keys, cs)
    ensures NoSelf(cs) && OnePeer(cs)
    ensures forall x :: x in cs ==> IsEnd(peers, x.from) && IsEnd(peers, x.to)
  {
    forall k | 0 <= k < |cs| ensures cs[k].from != cs[k].to {
      assert cs[k] in cs;
    }
    forall x, y | x in cs && y in cs
      ensures x.from == y.from ==> x.to == y.to
      ensures x.to == y.to ==> x.from == y.from
      ensures x.from == y.to ==> x.to == y.from
    {
      assert IsListed(peers, x) && IsListed(peers, y);
    }
  }

  lemma BoundEndsListed(peers: Peers, binds: seq<Connection>)
    requires forall x :: x in binds ==> IsEnd(peers, x.from) && IsEnd(peers, x.to)
    ensures forall e :: e in Ends(binds) ==> IsEnd(peers, e)
  {
    forall k | 0 <= k < |binds| ensures IsEnd(peers, binds[k].from) && IsEnd(peers, binds[k].to) {
      assert binds[k] in binds;
    }
  }

  /** Half of the entries are bound exactly when the binds cover the whole configuration. */
  lemma HalfMeansAll(peers: Peers, cs: seq<Connection>, binds: seq<Connection>)
    requires Mutual(peers) && NoSelfConnection(peers) && Lists(peers, peers.Keys, cs)
    requires InOrder(binds) && forall x :: x in binds ==> x in cs
    ensures 2 * |binds| == |cs| <==> Covers(peers, binds)
  {
    ListedFacts(peers, cs);
    BoundEndsListed(peers, binds);
    FromsCounted(peers, cs);
    EndsCounted(binds);
    SubsetCardinality(Ends(binds), Elems(Froms(cs)));
    assert Covers(peers, binds) <==> Ends(binds) == Elems(Froms(cs));
  }

  /**
   The list is accepted exactly when some selection that keeps the visiting order binds every end
   of the configuration with each port filled from index 0 up: the greedy pass never misses one.
   */
  lemma AcceptedIff(peers: Peers, cs: seq<Connection>)
    requires Mutual(peers) && NoSelfConnection(peers) && Lists(peers, peers.Keys, cs)
    ensures Accepted(cs) <==> exists sub :: Subsequence(sub, cs) && InOrder(sub) && Covers(peers, sub)
  {
    ListedFacts(peers, cs);
    GreedySound(cs);
    HalfMeansAll(peers, cs, Greedy(cs));
    if sub :| Subsequence(sub, cs) && InOrder(sub) && Covers(peers, sub) {
      GreedyDominates(cs, sub);
    }
  }

  /** The index in `binds` of the one bind that makes connection x, in either direction. */
  ghost predicate MadeAt(binds: seq<Connection>, x: Connection, i: int) {
    0 <= i < |binds| && (binds[i] == x || binds[i] == Connection(x.to, x.from))
  }

  /** Acceptance binds exactly one direction of each connection, exactly once. */
  lemma OneDirectionEach(peers: Peers, cs: seq<Connection>, x: Connection)
    requires Mutual(peers) && NoSelfConnection(peers) && Lists(peers, peers.Keys, cs)
    requires Accepted(cs) && x in cs
    ensures exists i :: MadeAt(Greedy(cs), x, i)
    ensures forall i, j :: MadeAt(Greedy(cs), x, i) && MadeAt(Greedy(cs), x, j) ==> i == j
  {
    var made := Greedy(cs);
    ListedFacts(peers, cs);
    GreedySound(cs);
    HalfMeansAll(peers, cs, made);
    var i := FindBind(made, x.from);
    assert made[i] in cs;
    assert MadeAt(made, x, i);
    forall i, j | MadeAt(made, x, i) && MadeAt(made, x, j) ensures i == j {
      if i < j {
        NotRebound(made, i, j);
      } else if j < i {
        NotRebound(made, j, i);
      }
    }
  }

  lemma FindBind(binds: seq<Connection>, e: End) returns (i: nat)
    requires e in Ends(binds)
    ensures i < |binds| && (binds[i].from == e || binds[i].to == e) && binds[i] in binds
  {
    i :| 0 <= i < |binds| && (binds[i].from == e || binds[i].to == e);
  }

  lemma NotRebound(binds: seq<Connection>, i: nat, j: nat)
    requires InOrder(binds) && i < j < |binds|
    ensures binds[i].from != binds[j].from && binds[i].from != binds[j].to
  {
    var before := binds[..j];
    assert InOrder(before) by {
      forall k | 0 <= k < |before| ensures Bindable(before[..k], before[k]) && before[k].from != before[k].to {
        assert before[..k] == binds[..k];
      }
    }
    assert before[i].from in Ends(before);
    EndBelowCount(before, binds[i].from);
    assert Bindable(before, binds[j]);
  }

  /** Replaying the accepted binds as appends rebuilds every port vector of the configuration. */
  lemma AcceptedRebuilds(peers: Peers, cs: seq<Connection>, p: Port)
    requires Mutual(peers) && NoSelfConnection(peers) && Lists(peers, peers.Keys, cs)
    requires Accepted(cs) && p in peers
    ensures Vector(Greedy(cs), p) == peers[p]
  {
    var made := Greedy(cs);
    ListedFacts(peers, cs);
    GreedySound(cs);
    HalfMeansAll(peers, cs, made);
    FullCount(peers, made, p);
    forall k | 0 <= k < |peers[p]| ensures Vector(made, p)[k] == peers[p][k] {
      RebuiltAt(peers, cs, made, End(p, k));
    }
  }

  /** In-order binds of listed connections connect each end that they touch to its listed peer. */
  lemma RebuiltAt(peers: Peers, cs: seq<Connection>, binds: seq<Connection>, e: End)
    requires Lists(peers, peers.Keys, cs) && OnePeer(cs) && InOrder(binds) && forall x :: x in binds ==> x in cs
    requires IsEnd(peers, e) && e in Ends(binds)
    ensures e.index < Count(binds, e.port) && Vector(binds, e.port)[e.index] == peers[e.port][e.index]
  {
    var i := FindBind(binds, e);
    VectorHolds(binds, i);
    assert Connection(e, peers[e.port][e.index]) in cs;
  }

  lemma FullCount(peers: Peers, binds: seq<Connection>, p: Port)
    requires InOrder(binds) && Covers(peers, binds) && p in peers
    requires forall x :: x in binds ==> IsEnd(peers, x.from) && IsEnd(peers, x.to)
    ensures Count(binds, p) == |peers[p]|
  {
    var n := |peers[p]|;
    EndBelowCount(binds, End(p, n));
    BoundEndsListed(peers, binds);
    if n > 0 {
      assert IsEnd(peers, End(p, n - 1));
      EndBelowCount(binds, End(p, n - 1));
    }
  }

  // ----- an orderable configuration that is refused -----

  /** a[0]-c[1], a[1]-b[0] and c[0]-d[0], listed from both ends. */
  ghost function CrossedPeers(a: Port, b: Port, c: Port, d: Port): Peers {
    map[a := [End(c, 1), End(b, 0)], b := [End(a, 1)], c := [End(d, 0), End(a, 0)], d := [End(c, 0)]]
  }

  ghost function CrossedList(a: Port, b: Port, c: Port, d: Port): seq<Connection> {
    [Connection(End(a, 0), End(c, 1)), Connection(End(a, 1), End(b, 0)), Connection(End(b, 0), End(a, 1)),
     Connection(End(c, 0), End(d, 0)), Connection(End(c, 1), End(a, 0)), Connection(End(d, 0), End(c, 0))]
  }

  ghost predicate Before(p: Port, q: Port) {
    p != q && EndLe(End(p, 0), End(q, 0))
  }

  lemma {:induction false} GreedyNext(cs: seq<Connection>, x: Connection)
    ensures Greedy(cs + [x]) == if Bindable(Greedy(cs), x) then Greedy(cs) + [x] else Greedy(cs)
  {
    assert (cs + [x])[..|cs|] == cs;
  }

  lemma GreedyAt(cs: seq<Connection>, i: nat)
    requires i < |cs|
    ensures var before := Greedy(cs[..i]);
            Greedy(cs[..i + 1]) == if Bindable(before, cs[i]) then before + [cs[i]] else before
  {
    assert cs[..i + 1][..i] == cs[..i];
  }

  lemma {:induction false} CountNext(binds: seq<Connection>, x: Connection, p: Port)
    ensures Count(binds + [x], p) ==
            Count(binds, p) + (if x.from.port == p then 1 else 0) + (if x.to.port == p then 1 else 0)
  {
    assert (binds + [x])[..|binds|] == binds;
  }

  lemma CountNone(p: Port)
    ensures Count([], p) == 0
  {
  }

  /** How many elements one bind gives to port p. */
  ghost function Gives(x: Connection, p: Port): nat {
    (if x.from.port == p then 1 else 0) + (if x.to.port == p then 1 else 0)
  }

  lemma {:induction false} CountFew(x: Connection, y: Connection, z: Connection, p: Port)
    ensures Count([x], p) == Gives(x, p)
    ensures Count([x, y], p) == Gives(x, p) + Gives(y, p)
    ensures Count([x, y, z], p) == Gives(x, p) + Gives(y, p) + Gives(z, p)
  {
    CountNone(p);
    CountNext([], x, p);
    CountNext([x], y, p);
    CountNext([x, y], z, p);
    assert [] + [x] == [x] && [x] + [y] == [x, y] && [x, y] + [z] == [x, y, z];
  }

  /** An entry that is not the first of both of its ports is passed over as long as nothing is bound. */
  lemma {:induction false} PassNothing(seen: seq<Connection>, x: Connection)
    requires Greedy(seen) == [] && (x.from.index != 0 || x.to.index != 0)
    ensures Greedy(seen + [x]) == []
  {
    CountNone(x.from.port);
    CountNone(x.to.port);
    GreedyNext(seen, x);
  }

  lemma {:induction false} PassFirst(seen: seq<Connection>, x: Connection)
    requires Greedy(seen) == [] && x.from.index == 0 && x.to.index == 0
    ensures Greedy(seen + [x]) == [x]
  {
    CountNone(x.from.port);
    CountNone(x.to.port);
    GreedyNext(seen, x);
    assert [] + [x] == [x];
  }

  lemma {:induction false} PassSecond(seen: seq<Connection>, x: Connection, y: Connection)
    requires Greedy(seen) == [x] && Gives(x, y.from.port) == y.from.index && Gives(x, y.to.port) == y.to.index
    ensures Greedy(seen + [y]) == [x, y]
  {
    CountFew(x, y, y, y.from.port);
    CountFew(x, y, y, y.to.port);
    GreedyNext(seen, y);
    assert [x] + [y] == [x, y];
  }

  lemma {:induction false} PassOver(seen: seq<Connection>, x: Connection, y: Connection, u: Connection)
    requires Greedy(seen) == [x, y] && Gives(x, u.from.port) + Gives(y, u.from.port) != u.from.index
    ensures Greedy(seen + [u]) == [x, y]
  {
    CountFew(x, y, y, u.from.port);
    GreedyNext(seen, u);
  }

  /** The pass over the crossed list binds c[0]-d[0] and c[1]-a[0] only. */
  lemma {:induction false} CrossedPass(a: Port, b: Port, c: Port, d: Port)
    requires Before(a, b) && Before(b, c) && Before(c, d) && a != c && a != d && b != d
    ensures var cs := CrossedList(a, b, c, d); Greedy(cs) == [cs[3], cs[4]]
  {
    var cs := CrossedList(a, b, c, d);
    PassNothing([], cs[0]);
    PassNothing([] + [cs[0]], cs[1]);
    PassNothing([] + [cs[0]] + [cs[1]], cs[2]);
    var seen := [] + [cs[0]] + [cs[1]] + [cs[2]];
    PassFirst(seen, cs[3]);
    PassSecond(seen + [cs[3]], cs[3], cs[4]);
    PassOver(seen + [cs[3]] + [cs[4]], cs[3], cs[4], cs[5]);
    assert cs == seen + [cs[3]] + [cs[4]] + [cs[5]];
  }

  ghost function CrossedOrder(a: Port, b: Port, c: Port, d: Port): seq<Connection> {
    [Connection(End(c, 0), End(d, 0)), Connection(End(c, 1), End(a, 0)), Connection(End(a, 1), End(b, 0))]
  }

  lemma CrossedInOrder(a: Port, b: Port, c: Port, d: Port)
    requires a != b && a != c && a != d && b != c && b != d && c != d
    ensures InOrder(CrossedOrder(a, b, c, d))
  {
    var order := CrossedOrder(a, b, c, d);
    var x, y := order[0], order[1];
    CountNone(a);
    CountNone(b);
    CountNone(c);
    CountNone(d);
    CountNext([], x, a);
    CountNext([], x, b);
    CountNext([], x, c);
    CountNext([] + [x], y, a);
    CountNext([] + [x], y, b);
    assert order[..0] == [] && order[..1] == [] + [x] && order[..2] == [] + [x] + [y];
    assert Bindable(order[..0], order[0]) && Bindable(order[..1], order[1]) && Bindable(order[..2], order[2]);
  }

  lemma CrossedCovered(a: Port, b: Port, c: Port, d: Port)
    ensures Covers(CrossedPeers(a, b, c, d), CrossedOrder(a, b, c, d))
  {
    var order, peers := CrossedOrder(a, b, c, d), CrossedPeers(a, b, c, d);
    assert order[0].from in Ends(order) && order[0].to in Ends(order);
    assert order[1].from in Ends(order) && order[1].to in Ends(order);
    assert order[2].from in Ends(order) && order[2].to in Ends(order);
    forall e | IsEnd(peers, e) ensures e in Ends(order) {
      assert e.port in {a, b, c, d} && e.index < 2;
    }
  }

  /** The crossed list is refused, although binding its three connections in another order would be in order. */
  lemma CrossedRefused(a: Port, b: Port, c: Port, d: Port)
    requires Before(a, b) && Before(b, c) && Before(c, d) && a != c && a != d && b != d
    ensures var cs := CrossedList(a, b, c, d); Sort(cs) == cs && !Accepted(cs)
    ensures InOrder(CrossedOrder(a, b, c, d)) && Covers(CrossedPeers(a, b, c, d), CrossedOrder(a, b, c, d))
  {
    CrossedSorted(a, b, c, d);
    SortOfSorted(CrossedList(a, b, c, d));
    CrossedPass(a, b, c, d);
    CrossedInOrder(a, b, c, d);
    CrossedCovered(a, b, c, d);
  }

  lemma CrossedSorted(a: Port, b: Port, c: Port, d: Port)
    requires Before(a, b) && Before(b, c) && Before(c, d) && a != c && a != d && b != d
    ensures IsSorted(CrossedList(a, b, c, d))
  {
    EndOrder(End(a, 0), End(b, 0), End(c, 0));
    EndOrder(End(a, 0), End(c, 0), End(d, 0));
    EndOrder(End(b, 0), End(c, 0), End(d, 0));
  }

  // ----- reading a configuration back -----

  function At(vectors: map<Port, seq<End>>, p: Port): seq<End> {
    if p in vectors then vectors[p] else []
  }

  /** The vector of port p after `from` has been assigned `to`. */
  ghost function Grown(vectors: map<Port, seq<End>>, from: Port, to: Port, p: Port): seq<End> {
    var v := At(vectors, p);
    if from == p && to == p then v + [End(p, |v| + 1), End(p, |v|)]
    else if from == p then v + [End(to, |At(vectors, to)|)]
    else if to == p then v + [End(from, |At(vectors, from)|)]
    else v
  }

  /** The counters say how many elements each port has so far. */
  ghost predicate Counts(bindIndices: map<Port, nat>, binds: seq<Connection>) {
    forall p :: p in bindIndices ==> bindIndices[p] == Count(binds, p)
  }

  function Increment(bindIndices: map<Port, nat>, p: Port): map<Port, nat>
    requires p in bindIndices
  {
    bindIndices[p := bindIndices[p] + 1]
  }

  lemma CountsNext(bindIndices: map<Port, nat>, binds: seq<Connection>, x: Connection)
    requires Counts(bindIndices, binds) && x.from.port in bindIndices && x.to.port in bindIndices
    ensures Counts(Increment(Increment(bindIndices, x.from.port), x.to.port), binds + [x])
  {
    forall p | p in bindIndices
      ensures Increment(Increment(bindIndices, x.from.port), x.to.port)[p] == Count(binds + [x], p)
    {
      CountNext(binds, x, p);
    }
  }

  lemma SortedPortsKnown(cs: seq<Connection>, ports: set<Port>)
    requires forall x :: x in cs ==> exists y :: y in cs && y.from.port == x.to.port
    requires forall x :: x in cs ==> x.from.port in ports
    ensures forall k :: 0 <= k < |Sort(cs)| ==> Sort(cs)[k].from.port in ports && Sort(cs)[k].to.port in ports
  {
    SortSorts(cs);
    forall k | 0 <= k < |Sort(cs)| ensures Sort(cs)[k].from.port in ports && Sort(cs)[k].to.port in ports {
      assert Sort(cs)[k] in multiset(Sort(cs));
      assert Sort(cs)[k] in cs;
    }
  }

  lemma ReplayNext(binds: seq<Connection>, i: nat, before: map<Port, seq<End>>, after: map<Port, seq<End>>)
    requires i < |binds| && forall p :: At(before, p) == Vector(binds[..i], p)
    requires forall p :: At(after, p) == Grown(before, binds[i].from.port, binds[i].to.port, p)
    ensures forall p :: At(after, p) == Vector(binds[..i + 1], p)
  {
    assert binds[..i + 1][..i] == binds[..i];
  }

  class ConfigManager {
    /** The port vectors of the objects that have been built. */
    var vectors: map<Port, seq<End>>

    constructor ()
      ensures vectors == map[]
    {
      vectors := map[];
    }

    /** `gather_port_connections` over all objects: `order` is the order of their ports. */
    method GatherPorts(peers: Peers, order: seq<Port>) returns (cs: seq<Connection>)
      requires Elems(order) == peers.Keys
      ensures cs == Gather(peers, order)
    {
      cs := [];
      for i := 0 to |order|
        invariant Elems(order[..i]) <= peers.Keys && cs == Gather(peers, order[..i])
      {
        ghost var before := cs;
        assert order[i] in Elems(order);
        var listed := peers[order[i]];
        for k := 0 to |listed|
          invariant cs == before + Listed(order[i], listed[..k])
        {
          assert listed[..k + 1][..k] == listed[..k];
          cs := cs + [Connection(End(order[i], k), listed[k])];
        }
        assert listed[..|listed|] == listed;
        assert order[..i + 1][..i] == order[..i];
        assert Elems(order[..i + 1]) <= Elems(order);
      }
      assert order[..|order|] == order;
    }

    /** Assigning one port to another: each vector gets one new element. */
    method Connect(from: Port, to: Port)
      modifies this
      ensures forall p :: At(vectors, p) == Grown(old(vectors), from, to, p)
    {
      var v, w := At(vectors, from), At(vectors, to);
      if from == to {
        vectors := vectors[from := v + [End(from, |v| + 1), End(from, |v|)]];
      } else {
        vectors := vectors[from := v + [End(to, |w|)]][to := w + [End(from, |v|)]];
      }
    }

    /** The counters that the pass starts from: one for each port with a listed connection. */
    method InitCounters(cs: seq<Connection>) returns (bindIndices: map<Port, nat>)
      ensures forall x :: x in cs ==> x.from.port in bindIndices
      ensures forall p :: p in bindIndices ==> bindIndices[p] == 0
    {
      bindIndices := map[];
      for i := 0 to |cs|
        invariant forall k :: 0 <= k < i ==> cs[k].from.port in bindIndices
        invariant forall p :: p in bindIndices ==> bindIndices[p] == 0
      {
        bindIndices := bindIndices[cs[i].from.port := 0];
      }
    }

    /** One step of the pass: bind x if both of its ends are next, and count the new elements. */
    method TryBind(bindIndices: map<Port, nat>, made: seq<Connection>, x: Connection)
      returns (counters: map<Port, nat>, more: seq<Connection>)
      requires Counts(bindIndices, made) && x.from.port in bindIndices && x.to.port in bindIndices
      ensures more == if Bindable(made, x) then made + [x] else made
      ensures counters.Keys == bindIndices.Keys && Counts(counters, more)
    {
      counters, more := bindIndices, made;
      if counters[x.from.port] == x.from.index && counters[x.to.port] == x.to.index {
        CountsNext(counters, made, x);
        more := more + [x];
        counters := Increment(counters, x.from.port);
        counters := Increment(counters, x.to.port);
      }
    }

    /** The pass that chooses which connections to make. */
    method ChooseBinds(cs: seq<Connection>) returns (made: seq<Connection>)
      requires forall x :: x in cs ==> exists y :: y in cs && y.from.port == x.to.port
      ensures made == Greedy(Sort(cs))
    {
      var bindIndices := InitCounters(cs);
      var sorted := Sort(cs);
      ghost var known := bindIndices.Keys;
      SortedPortsKnown(cs, known);
      made := [];
      for i := 0 to |sorted|
        invariant bindIndices.Keys == known && Counts(bindIndices, made)
        invariant made == Greedy(sorted[..i])
      {
        GreedyAt(sorted, i);
        bindIndices, made := TryBind(bindIndices, made, sorted[i]);
      }
      assert sorted[..|sorted|] == sorted;
    }

    /** `bind_ports`: false is the exception "Port bindings can't be ordered". */
    method BindPorts(cs: seq<Connection>) returns (ok: bool)
      requires forall x :: x in cs ==> exists y :: y in cs && y.from.port == x.to.port
      requires vectors == map[]
      modifies this
      ensures ok <==> Accepted(Sort(cs))
      ensures ok ==> forall p :: At(vectors, p) == Vector(Greedy(Sort(cs)), p)
      ensures !ok ==> vectors == map[]
    {
      var made := ChooseBinds(cs);
      SortSorts(cs);
      assert |Sort(cs)| == |multiset(Sort(cs))| == |cs|;
      if |made| * 2 != |cs| {
        return false;
      }
      for i := 0 to |made|
        invariant forall p :: At(vectors, p) == Vector(made[..i], p)
      {
        ghost var before := vectors;
        Connect(made[i].from.port, made[i].to.port);
        ReplayNext(made, i, before, vectors);
      }
      assert made[..|made|] == made;
      return true;
    }

    /** The last steps of `find_all_objects`: gather every listed connection and bind them. */
    method ConnectAll(peers: Peers, order: seq<Port>) returns (ok: bool)
      requires Mutual(peers) && NoSelfConnection(peers)
      requires NoDups(order) && Elems(order) == peers.Keys && vectors == map[]
      modifies this
      ensures ok <==> exists sub :: Subsequence(sub, Sort(Gather(peers, order))) && InOrder(sub) && Covers(peers, sub)
      ensures ok ==> forall p :: p in peers ==> At(vectors, p) == peers[p]
      ensures !ok ==> vectors == map[]
    {
      var cs := GatherPorts(peers, order);
      GatherLists(peers, order);
      SortSorts(cs);
      PermutedLists(peers, cs, Sort(cs));
      ListedFacts(peers, cs);
      forall x | x in cs ensures exists y :: y in cs && y.from.port == x.to.port {
        assert Connection(x.to, peers[x.to.port][x.to.index]) in cs;
      }
      ok := BindPorts(cs);
      AcceptedIff(peers, Sort(cs));
      if ok {
        forall p | p in peers ensures At(vectors, p) == peers[p] {
          AcceptedRebuilds(peers, Sort(cs), p);
        }
      }
    }
  }
}
