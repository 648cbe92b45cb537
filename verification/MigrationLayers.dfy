/**
 When a checkpoint migration finishes, for catalogues with upgraders and downgraders alike: the
 pending tags can be put into layers, and the layers are the rounds of the run.
 */
module MigrationLayers {
  import opened Migration

  /** The dependencies of t that have to be applied first: upgrades missing from the checkpoint. */
  ghost function MissingUpgrades(c: Catalog, tags: set<Tag>, t: Tag): set<Tag>
    requires t in c
  {
    c[t].depends * (TagSet(c) - tags)
  }

  /** The dependencies of t that a downgrader removes. */
  ghost function Removed(c: Catalog, t: Tag): set<Tag>
    requires t in c
  {
    c[t].depends * UntagSet(c)
  }

  /**
   t comes directly above the highest upgrade it waits for, and no higher than any downgraded tag
   it depends on, which must still be in the checkpoint.
   */
  ghost predicate Placed(c: Catalog, tags: set<Tag>, rank: map<Tag, nat>, t: Tag)
    requires t in c && t in rank && rank.Keys == Pending(c, tags)
  {
    && (forall m :: m in MissingUpgrades(c, tags, t) ==> rank[m] < rank[t])
    && (rank[t] > 0 ==> exists m :: m in MissingUpgrades(c, tags, t) && rank[m] + 1 == rank[t])
    && (forall d :: d in Removed(c, t) ==> d in tags && rank[t] <= rank[d])
  }

  ghost predicate Layered(c: Catalog, tags: set<Tag>, rank: map<Tag, nat>) {
    && rank.Keys == Pending(c, tags)
    && forall t {:trigger Placed(c, tags, rank, t)} :: t in rank ==> Placed(c, tags, rank, t)
  }

  // ----- layers are rounds -----

  ghost function Below(rank: map<Tag, nat>, k: nat): set<Tag> {
    set t | t in rank && rank[t] < k
  }

  ghost function Layer(rank: map<Tag, nat>, k: nat): set<Tag> {
    set t | t in rank && rank[t] == k
  }

  /** A tag of layer k or above is ready after the layers below k exactly if it is in layer k. */
  lemma ReadyIffInLayer(c: Catalog, tags: set<Tag>, rank: map<Tag, nat>, k: nat, t: Tag)
    requires Audited(c) && Layered(c, tags, rank) && t in rank && rank[t] >= k
    ensures Ready(c, t, Apply(c, tags, Below(rank, k))) <==> rank[t] == k
  {
    var now := Apply(c, tags, Below(rank, k));
    assert Placed(c, tags, rank, t);
    if rank[t] == k {
      forall d | d in c[t].depends ensures d in now {
        assert d in c.Keys;
        assert d in TagSet(c) || d in UntagSet(c);
        if d in UntagSet(c) {
          assert d in Removed(c, t);
        } else if d !in tags {
          assert d in MissingUpgrades(c, tags, t);
        }
      }
    } else {
      var m :| m in MissingUpgrades(c, tags, t) && rank[m] + 1 == rank[t];
      assert m !in now;
    }
  }

  /** Below any tag there is a tag in every lower layer. */
  lemma {:induction false} LayerNotEmpty(c: Catalog, tags: set<Tag>, rank: map<Tag, nat>, k: nat, t: Tag)
    requires Layered(c, tags, rank) && t in rank && rank[t] >= k
    ensures Layer(rank, k) != {}
    decreases rank[t]
  {
    if rank[t] == k {
      assert t in Layer(rank, k);
    } else {
      assert Placed(c, tags, rank, t);
      var m :| m in MissingUpgrades(c, tags, t) && rank[m] + 1 == rank[t];
      LayerNotEmpty(c, tags, rank, k, m);
    }
  }

  lemma RoundIsLayer(c: Catalog, tags: set<Tag>, rank: map<Tag, nat>, k: nat)
    requires Audited(c) && Layered(c, tags, rank)
    ensures ReadySet(c, Pending(c, tags) - Below(rank, k), Apply(c, tags, Below(rank, k))) == Layer(rank, k)
  {
    forall t | t in Pending(c, tags) - Below(rank, k)
      ensures Ready(c, t, Apply(c, tags, Below(rank, k))) <==> t in Layer(rank, k)
    {
      ReadyIffInLayer(c, tags, rank, k, t);
    }
  }

  lemma NextBelow(c: Catalog, tags: set<Tag>, rank: map<Tag, nat>, k: nat)
    requires rank.Keys == Pending(c, tags)
    ensures Pending(c, tags) - Below(rank, k) - Layer(rank, k) == Pending(c, tags) - Below(rank, k + 1)
    ensures Apply(c, Apply(c, tags, Below(rank, k)), Layer(rank, k)) == Apply(c, tags, Below(rank, k + 1))
  {
    assert Below(rank, k + 1) == Below(rank, k) + Layer(rank, k);
    assert TagSet(c) !! UntagSet(c);
  }

  /** One round of a run, with what is left after it. */
  lemma StuckStep(c: Catalog, toApply: set<Tag>, tags: set<Tag>, ready: set<Tag>, rest: set<Tag>, after: set<Tag>)
    requires toApply <= c.Keys && ready == ReadySet(c, toApply, tags) && ready != {}
    requires rest == toApply - ready && after == Apply(c, tags, ready)
    ensures |rest| < |toApply| && Run(c, toApply, tags).stuck == Run(c, rest, after).stuck
  {
    assert toApply == rest + ready;
  }

  /** From any layer on, the run goes through the remaining layers and gets stuck on nothing. */
  lemma {:induction false} LayersRun(c: Catalog, tags: set<Tag>, rank: map<Tag, nat>, k: nat)
    requires Audited(c) && Layered(c, tags, rank)
    ensures Run(c, Pending(c, tags) - Below(rank, k), Apply(c, tags, Below(rank, k))).stuck == {}
    decreases |Pending(c, tags) - Below(rank, k)|
  {
    var toApply, now := Pending(c, tags) - Below(rank, k), Apply(c, tags, Below(rank, k));
    var rest, after := Pending(c, tags) - Below(rank, k + 1), Apply(c, tags, Below(rank, k + 1));
    RoundIsLayer(c, tags, rank, k);
    NextBelow(c, tags, rank, k);
    if t :| t in toApply {
      LayerNotEmpty(c, tags, rank, k, t);
      StuckStep(c, toApply, now, Layer(rank, k), rest, after);
      LayersRun(c, tags, rank, k + 1);
    } else {
      NothingStuck(c, toApply, now);
    }
  }

  lemma NothingStuck(c: Catalog, toApply: set<Tag>, tags: set<Tag>)
    requires toApply == {}
    ensures Run(c, toApply, tags).stuck == {}
  {
  }

  // ----- rounds are layers -----

  ghost function RoundOf(rounds: seq<set<Tag>>, t: Tag): (k: nat)
    requires t in Union(rounds)
    ensures k < |rounds| && t in rounds[k]
  {
    var k: nat :| k < |rounds| && t in rounds[k];
    k
  }

  lemma SameRound(rounds: seq<set<Tag>>, t: Tag, j: nat)
    requires Disjoint(rounds) && t in Union(rounds) && j < |rounds| && t in rounds[j]
    ensures RoundOf(rounds, t) == j
  {
    var k := RoundOf(rounds, t);
    if j < k {
      InEarlier(rounds, j, k, t);
    } else if k < j {
      InEarlier(rounds, k, j, t);
    }
  }

  lemma InEarlier(rounds: seq<set<Tag>>, i: nat, k: nat, t: Tag)
    requires i < k <= |rounds| && t in rounds[i]
    ensures t in Union(rounds[..k])
  {
    assert rounds[..k][i] == rounds[i];
  }

  /** A tag applied before round k belongs to an earlier round, and the other way round. */
  lemma EarlierRound(rounds: seq<set<Tag>>, t: Tag, k: nat)
    requires Disjoint(rounds) && t in Union(rounds) && k <= |rounds|
    ensures t in Union(rounds[..k]) <==> RoundOf(rounds, t) < k
  {
    if t in Union(rounds[..k]) {
      var j :| 0 <= j < k && t in rounds[..k][j];
      SameRound(rounds, t, j);
    }
    if RoundOf(rounds, t) < k {
      assert t in rounds[..k][RoundOf(rounds, t)];
    }
  }

  ghost function Ranks(c: Catalog, tags: set<Tag>): map<Tag, nat>
    requires Union(Migrate(c, tags).rounds) == Pending(c, tags)
  {
    map t | t in Pending(c, tags) :: RoundOf(Migrate(c, tags).rounds, t)
  }

  /** A tag that waited for round k depends on an upgrade applied in round k - 1. */
  lemma WaitedForUpgrade(c: Catalog, tags: set<Tag>, k: nat, t: Tag) returns (m: Tag)
    requires 0 < k < |Migrate(c, tags).rounds| && t in Migrate(c, tags).rounds[k]
    ensures t in c && m in MissingUpgrades(c, tags, t) && m in Migrate(c, tags).rounds[k - 1]
  {
    var rounds := Migrate(c, tags).rounds;
    var before, earlier := Union(rounds[..k]), Union(rounds[..k - 1]);
    UnionOfLast(rounds[..k]);
    assert rounds[..k][..k - 1] == rounds[..k - 1];
    NotReadyBefore(c, tags, k, t);
    m := NewlyPresent(c, tags, t, earlier, rounds[k - 1], before);
  }

  lemma NotReadyBefore(c: Catalog, tags: set<Tag>, k: nat, t: Tag)
    requires 0 < k < |Migrate(c, tags).rounds| && t in Migrate(c, tags).rounds[k]
    ensures var rounds := Migrate(c, tags).rounds;
            && t in c && Ready(c, t, Apply(c, tags, Union(rounds[..k])))
            && !Ready(c, t, Apply(c, tags, Union(rounds[..k - 1])))
  {
    var rounds := Migrate(c, tags).rounds;
    RoundAt(c, Pending(c, tags), tags, k);
    RoundAt(c, Pending(c, tags), tags, k - 1);
    UnionOfLast(rounds[..k]);
    assert rounds[..k][..k - 1] == rounds[..k - 1];
    assert t !in Union(rounds[..k]);
  }

  /** What becomes ready through one more round waited for an upgrade of that round. */
  lemma NewlyPresent(c: Catalog, tags: set<Tag>, t: Tag, earlier: set<Tag>, round: set<Tag>, before: set<Tag>)
    returns (m: Tag)
    requires t in c && before == earlier + round
    requires !Ready(c, t, Apply(c, tags, earlier)) && Ready(c, t, Apply(c, tags, before))
    ensures m in MissingUpgrades(c, tags, t) && m in round
  {
    m :| m in c[t].depends && m !in Apply(c, tags, earlier);
    assert m in Apply(c, tags, before);
  }

  /** The rounds of a run that finishes are layers. */
  lemma RanksPlace(c: Catalog, tags: set<Tag>, t: Tag)
    requires !Migrate(c, tags).Aborted() && t in Pending(c, tags)
    ensures Union(Migrate(c, tags).rounds) == Pending(c, tags) && Placed(c, tags, Ranks(c, tags), t)
  {
    var rounds := Migrate(c, tags).rounds;
    RoundsInside(c, Pending(c, tags), tags);
    RoundsDisjoint(c, Pending(c, tags), tags);
    assert Pending(c, tags) - {} == Pending(c, tags);
    var rank := Ranks(c, tags);
    var k := rank[t];
    RoundAt(c, Pending(c, tags), tags, k);
    forall m | m in MissingUpgrades(c, tags, t) ensures rank[m] < k {
      assert m in Union(rounds[..k]);
      EarlierRound(rounds, m, k);
    }
    if k > 0 {
      var m := WaitedForUpgrade(c, tags, k, t);
      SameRound(rounds, m, k - 1);
    }
    forall d | d in Removed(c, t) ensures d in tags && k <= rank[d] {
      DowngradeNeverAwaited(c, tags, k, t, d);
      EarlierRound(rounds, d, k);
    }
  }

  /**
   With dependencies audited, a run finishes exactly when the pending tags can be layered: each one
   directly above the upgrades it waits for, and not above a downgrade of a tag it depends on.
   */
  lemma FinishesIffLayered(c: Catalog, tags: set<Tag>)
    requires Audited(c)
    ensures !Migrate(c, tags).Aborted() <==> exists rank :: Layered(c, tags, rank)
  {
    if !Migrate(c, tags).Aborted() {
      RoundsInside(c, Pending(c, tags), tags);
      assert Pending(c, tags) - {} == Pending(c, tags);
      var rank := Ranks(c, tags);
      forall t | t in rank ensures Placed(c, tags, rank, t) {
        RanksPlace(c, tags, t);
      }
      assert Layered(c, tags, rank);
    }
    if rank :| Layered(c, tags, rank) {
      LayersRun(c, tags, rank, 0);
      assert Below(rank, 0) == {};
      assert Pending(c, tags) - {} == Pending(c, tags) && Apply(c, tags, {}) == tags;
    }
  }
}
