/**
 The checkpoint migration scheduler of util/cpt_upgrader.py on values: a catalogue of
 migrations with their dependencies, the rounds in which pending tags are applied, and
 what a whole run does.
 */
module Migration {
  import opened Sequences

  type Tag = string

  datatype Kind = Upgrade | Downgrade

  datatype Entry = Entry(depends: set<Tag>, kind: Kind)

  type Catalog = map<Tag, Entry>

  function TagSet(c: Catalog): set<Tag> {
    set t | t in c && c[t].kind.Upgrade?
  }

  function UntagSet(c: Catalog): set<Tag> {
    set t | t in c && c[t].kind.Downgrade?
  }

  /** Tags still to be applied to a checkpoint that carries `tags`. */
  function Pending(c: Catalog, tags: set<Tag>): set<Tag> {
    (TagSet(c) - tags) + (UntagSet(c) * tags)
  }

  predicate Ready(c: Catalog, t: Tag, tags: set<Tag>)
    requires t in c
  {
    c[t].depends <= tags
  }

  function ReadySet(c: Catalog, toApply: set<Tag>, tags: set<Tag>): set<Tag>
    requires toApply <= c.Keys
  {
    set t | t in toApply && Ready(c, t, tags)
  }

  /** Effect on the tag set of running every migration in `done`. */
  function Apply(c: Catalog, tags: set<Tag>, done: set<Tag>): set<Tag> {
    (tags + done * TagSet(c)) - done * UntagSet(c)
  }

  /** What a run leaves: the tags, the tags it could not apply, and the tags of each round. */
  datatype Outcome = Outcome(tags: set<Tag>, stuck: set<Tag>, rounds: seq<set<Tag>>) {
    predicate Aborted() {
      stuck != {}
    }
  }

  function Run(c: Catalog, toApply: set<Tag>, tags: set<Tag>): Outcome
    requires toApply <= c.Keys
    decreases |toApply|
  {
    var ready := ReadySet(c, toApply, tags);
    if ready == {} then
      Outcome(tags, toApply, [])
    else
      assert toApply == (toApply - ready) + ready;
      var rest := Run(c, toApply - ready, Apply(c, tags, ready));
      rest.(rounds := [ready] + rest.rounds)
  }

  /** The whole run on a checkpoint that carries `tags`. */
  function Migrate(c: Catalog, tags: set<Tag>): Outcome {
    Run(c, Pending(c, tags), tags)
  }

  /** Running one more migration of a round. */
  lemma ApplyOneMore(c: Catalog, tags: set<Tag>, done: set<Tag>, t: Tag)
    requires t in c && t !in done
    ensures var before := Apply(c, tags, done);
            Apply(c, tags, done + {t}) == if c[t].kind.Upgrade? then before + {t} else before - {t}
    ensures t in UntagSet(c) && t in tags ==> t in Apply(c, tags, done)
  {
    assert TagSet(c) !! UntagSet(c);
  }

  /** What is left of a run after its first round. */
  lemma RunStep(c: Catalog, toApply: set<Tag>, tags: set<Tag>)
    requires toApply <= c.Keys && ReadySet(c, toApply, tags) != {}
    requires toApply * UntagSet(c) <= tags
    ensures var ready := ReadySet(c, toApply, tags);
            var rest := Run(c, toApply - ready, Apply(c, tags, ready));
            && Run(c, toApply, tags) == rest.(rounds := [ready] + rest.rounds)
            && (toApply - ready) * UntagSet(c) <= Apply(c, tags, ready)
  {
  }

  // ----- where a run ends -----

  lemma ApplyBoth(c: Catalog, tags: set<Tag>, a: set<Tag>, b: set<Tag>)
    requires a !! b
    ensures Apply(c, Apply(c, tags, a), b) == Apply(c, tags, a + b)
  {
    assert TagSet(c) !! UntagSet(c);
  }

  lemma {:induction false} RunEnds(c: Catalog, toApply: set<Tag>, tags: set<Tag>)
    requires toApply <= c.Keys
    ensures var o := Run(c, toApply, tags);
            && o.stuck <= toApply
            && o.tags == Apply(c, tags, toApply - o.stuck)
            && ReadySet(c, o.stuck, o.tags) == {}
    decreases |toApply|
  {
    var ready := ReadySet(c, toApply, tags);
    if ready == {} {
      assert toApply - toApply == {};
    } else {
      var rest := toApply - ready;
      assert toApply == rest + ready;
      RunEnds(c, rest, Apply(c, tags, ready));
      var stuck := Run(c, toApply, tags).stuck;
      ApplyBoth(c, tags, ready, rest - stuck);
      assert toApply - stuck == ready + (rest - stuck);
    }
  }

  /** A run that does not abort leaves (tags + tag_set) - untag_set, and nothing else can be left. */
  lemma MigrationResult(c: Catalog, tags: set<Tag>)
    ensures var o := Migrate(c, tags);
            !o.Aborted() ==> o.tags == (tags + TagSet(c)) - UntagSet(c)
  {
    RunEnds(c, Pending(c, tags), tags);
    var o := Migrate(c, tags);
    if !o.Aborted() {
      assert Pending(c, tags) - {} == Pending(c, tags);
    }
  }

  /** Migrating the result of a successful run again does nothing. */
  lemma SecondRunDoesNothing(c: Catalog, tags: set<Tag>)
    requires !Migrate(c, tags).Aborted()
    ensures var o := Migrate(c, tags);
            Pending(c, o.tags) == {} && Migrate(c, o.tags) == Outcome(o.tags, {}, [])
  {
    MigrationResult(c, tags);
    var o := Migrate(c, tags);
    assert Pending(c, o.tags) == {};
  }

  // ----- when a run aborts -----

  /** `load_all` has checked that every dependency names a known tag. */
  ghost predicate Audited(c: Catalog) {
    forall t :: t in c ==> c[t].depends <= c.Keys
  }

  ghost predicate UpgradeOnly(c: Catalog) {
    UntagSet(c) == {}
  }

  /** Each tag depends on the next one. */
  ghost predicate IsPath(c: Catalog, path: seq<Tag>) {
    && (forall k :: 0 <= k < |path| ==> path[k] in c)
    && (forall i, j :: 0 <= i && j == i + 1 < |path| ==> path[j] in c[path[i]].depends)
  }

  /** Each tag of the ring depends on the next one, and the last on the first. */
  ghost predicate IsCycle(c: Catalog, ring: seq<Tag>) {
    ring != [] && IsPath(c, ring) && ring[0] in c[ring[|ring| - 1]].depends
  }

  /** Every tag of the set depends on some tag of the set. */
  ghost predicate Closed(c: Catalog, s: set<Tag>) {
    s <= c.Keys && forall t :: t in s ==> c[t].depends * s != {}
  }

  lemma CloseRing(c: Catalog, path: seq<Tag>, i: nat)
    requires i < |path| && IsPath(c, path) && path[i] in c[path[|path| - 1]].depends
    ensures IsCycle(c, path[i..]) && Elems(path[i..]) <= Elems(path)
  {
    var ring := path[i..];
    assert forall k :: 0 <= k < |ring| ==> ring[k] == path[i + k];
  }

  /** A path inside s that visits no tag twice. */
  ghost predicate SimplePath(c: Catalog, s: set<Tag>, path: seq<Tag>) {
    path != [] && NoDups(path) && Elems(path) <= s && IsPath(c, path)
  }

  lemma ExtendPath(c: Catalog, s: set<Tag>, path: seq<Tag>, next: Tag)
    requires Closed(c, s) && SimplePath(c, s, path)
    requires next in s && next !in path && next in c[path[|path| - 1]].depends
    ensures SimplePath(c, s, path + [next]) && |path| < |s|
  {
    var longer := path + [next];
    LongerIsPath(c, path, next);
    assert NoDups(longer);
    ElemsConcat(path, [next]);
    NoDupsCardinality(longer);
    SubsetCardinality(Elems(longer), s);
  }

  lemma LongerIsPath(c: Catalog, path: seq<Tag>, next: Tag)
    requires path != [] && IsPath(c, path) && next in c && next in c[path[|path| - 1]].depends
    ensures IsPath(c, path + [next])
  {
    var longer := path + [next];
    forall i, j | 0 <= i && j == i + 1 < |longer| ensures longer[j] in c[longer[i]].depends {
      assert longer[i] == path[i];
      if j < |path| {
        assert longer[j] == path[j];
      }
    }
  }

  /** Dependencies inside a finite closed set close a ring. */
  lemma {:induction false} RingInClosedSet(c: Catalog, s: set<Tag>, path: seq<Tag>) returns (ring: seq<Tag>)
    requires Closed(c, s) && SimplePath(c, s, path)
    ensures IsCycle(c, ring) && Elems(ring) <= s
    decreases |s| - |path|
  {
    var last := path[|path| - 1];
    assert last in Elems(path);
    var next :| next in c[last].depends * s;
    if i :| 0 <= i < |path| && path[i] == next {
      CloseRing(c, path, i);
      ring := path[i..];
    } else {
      ExtendPath(c, s, path, next);
      ring := RingInClosedSet(c, s, path + [next]);
    }
  }

  /** A ring of missing tags can never be entered, so the run cannot finish. */
  lemma {:induction false} RingBlocksRun(c: Catalog, toApply: set<Tag>, tags: set<Tag>, ring: seq<Tag>)
    requires toApply <= c.Keys
    requires IsCycle(c, ring) && Elems(ring) <= toApply && Elems(ring) !! tags
    ensures Elems(ring) <= Run(c, toApply, tags).stuck
    decreases |toApply|
  {
    var ready := ReadySet(c, toApply, tags);
    forall t | t in Elems(ring) ensures t !in ready {
      var k :| 0 <= k < |ring| && ring[k] == t;
      var j := if k + 1 < |ring| then k + 1 else 0;
      assert ring[j] in Elems(ring) && ring[j] in c[t].depends;
    }
    if ready != {} {
      assert toApply == (toApply - ready) + ready;
      RingBlocksRun(c, toApply - ready, Apply(c, tags, ready), ring);
    }
  }

  /** The tags an upgrade-only run could not apply all wait for each other. */
  lemma StuckIsClosed(c: Catalog, tags: set<Tag>)
    requires UpgradeOnly(c) && Audited(c)
    ensures Closed(c, Migrate(c, tags).stuck) && Migrate(c, tags).stuck !! tags
  {
    var o := Migrate(c, tags);
    RunEnds(c, Pending(c, tags), tags);
    AllUpgrades(c);
    forall t | t in o.stuck ensures c[t].depends * o.stuck != {} {
      assert t !in ReadySet(c, o.stuck, o.tags);
      var d :| d in c[t].depends && d !in o.tags;
      assert d in c.Keys;
      assert d in c[t].depends * o.stuck;
    }
  }

  lemma AllUpgrades(c: Catalog)
    requires UpgradeOnly(c)
    ensures TagSet(c) == c.Keys
  {
    forall t | t in c ensures t in TagSet(c) {
      assert t !in UntagSet(c);
    }
  }

  lemma StuckRing(c: Catalog, tags: set<Tag>) returns (ring: seq<Tag>)
    requires UpgradeOnly(c) && Audited(c) && Migrate(c, tags).Aborted()
    ensures IsCycle(c, ring) && Elems(ring) !! tags
  {
    var stuck := Migrate(c, tags).stuck;
    StuckIsClosed(c, tags);
    var t :| t in stuck;
    ring := RingInClosedSet(c, stuck, [t]);
  }

  /**
   With upgraders only, and dependencies audited, a run aborts exactly when some cycle of
   dependencies consists of tags that are all missing from the checkpoint.
   */
  lemma AbortsIffMissingCycle(c: Catalog, tags: set<Tag>)
    requires UpgradeOnly(c) && Audited(c)
    ensures Migrate(c, tags).Aborted() <==> exists ring :: IsCycle(c, ring) && Elems(ring) !! tags
  {
    AllUpgrades(c);
    if Migrate(c, tags).Aborted() {
      var ring := StuckRing(c, tags);
      assert IsCycle(c, ring) && Elems(ring) !! tags;
    }
    if ring :| IsCycle(c, ring) && Elems(ring) !! tags {
      RingBlocksRun(c, Pending(c, tags), tags, ring);
      assert ring[0] in Elems(ring);
    }
  }

  // ----- schedules: the order in which one run really applies tags -----

  /** `log` runs the rounds one after the other, in any order inside a round. */
  ghost predicate Schedules(log: seq<Tag>, rounds: seq<set<Tag>>)
    decreases |rounds|
  {
    if rounds == [] then
      log == []
    else
      var last := rounds[|rounds| - 1];
      && |last| <= |log|
      && Elems(log[|log| - |last|..]) == last
      && Schedules(log[..|log| - |last|], rounds[..|rounds| - 1])
  }

  lemma ScheduleMore(log: seq<Tag>, rounds: seq<set<Tag>>, segment: seq<Tag>, ready: set<Tag>)
    requires Schedules(log, rounds) && Elems(segment) == ready && |segment| == |ready|
    ensures Schedules(log + segment, rounds + [ready])
  {
    var all := rounds + [ready];
    assert all[..|all| - 1] == rounds && all[|all| - 1] == ready;
    assert (log + segment)[..|log|] == log && (log + segment)[|log|..] == segment;
  }

  ghost function Union(rounds: seq<set<Tag>>): set<Tag> {
    set k, t | 0 <= k < |rounds| && t in rounds[k] :: t
  }

  /** Round k runs exactly the waiting tags that the rounds before it made ready. */
  lemma {:induction false} RoundAt(c: Catalog, toApply: set<Tag>, tags: set<Tag>, k: nat)
    requires toApply <= c.Keys && k < |Run(c, toApply, tags).rounds|
    ensures var rounds := Run(c, toApply, tags).rounds;
            var before := Union(rounds[..k]);
            rounds[k] == ReadySet(c, toApply - before, Apply(c, tags, before))
    decreases k
  {
    var rounds := Run(c, toApply, tags).rounds;
    var ready := ReadySet(c, toApply, tags);
    assert toApply == (toApply - ready) + ready;
    if k == 0 {
      assert Union(rounds[..0]) == {};
      assert toApply - {} == toApply;
      assert Apply(c, tags, {}) == tags;
    } else {
      var left, now := toApply - ready, Apply(c, tags, ready);
      var rest := Run(c, left, now).rounds;
      assert rounds == [ready] + rest;
      RoundAt(c, left, now, k - 1);
      EarlierRounds(c, toApply, tags, k);
      ApplyBoth(c, tags, ready, Union(rest[..k - 1]));
    }
  }

  /** What the rounds before round k have applied, from the second round on. */
  lemma {:induction false} EarlierRounds(c: Catalog, toApply: set<Tag>, tags: set<Tag>, k: nat)
    requires toApply <= c.Keys && 0 < k < |Run(c, toApply, tags).rounds|
    ensures var ready := ReadySet(c, toApply, tags);
            var rest := Run(c, toApply - ready, Apply(c, tags, ready)).rounds;
            var later := Union(rest[..k - 1]);
            && Union(Run(c, toApply, tags).rounds[..k]) == ready + later
            && later <= toApply - ready && toApply - ready - later == toApply - (ready + later)
  {
    var rounds := Run(c, toApply, tags).rounds;
    var ready := ReadySet(c, toApply, tags);
    assert toApply == (toApply - ready) + ready;
    var rest := Run(c, toApply - ready, Apply(c, tags, ready)).rounds;
    UnionOfLater(ready, rest[..k - 1]);
    assert rounds[..k] == [ready] + rest[..k - 1];
    RoundsInside(c, toApply - ready, Apply(c, tags, ready));
    assert Union(rest[..k - 1]) <= Union(rest);
  }

  lemma UnionOfLater(first: set<Tag>, rest: seq<set<Tag>>)
    ensures Union([first] + rest) == first + Union(rest)
  {
    var all := [first] + rest;
    assert all[0] == first && all[1..] == rest;
    forall t | t in first + Union(rest) ensures t in Union(all) {
      if t in first {
        assert t in all[0];
      } else {
        var k :| 0 <= k < |rest| && t in rest[k];
        assert t in all[k + 1];
      }
    }
    forall t | t in Union(all) ensures t in first + Union(rest) {
      var k :| 0 <= k < |all| && t in all[k];
      if k > 0 {
        assert t in rest[k - 1];
      }
    }
  }

  /** The rounds together apply the tags of `toApply` that are not stuck. */
  lemma {:induction false} RoundsInside(c: Catalog, toApply: set<Tag>, tags: set<Tag>)
    requires toApply <= c.Keys
    ensures var o := Run(c, toApply, tags); Union(o.rounds) == toApply - o.stuck
    decreases |toApply|
  {
    var ready := ReadySet(c, toApply, tags);
    if ready == {} {
      assert Union([]) == {};
    } else {
      assert toApply == (toApply - ready) + ready;
      var rest := Run(c, toApply - ready, Apply(c, tags, ready));
      RoundsInside(c, toApply - ready, Apply(c, tags, ready));
      RunEnds(c, toApply - ready, Apply(c, tags, ready));
      UnionOfLater(ready, rest.rounds);
    }
  }

  ghost predicate Disjoint(rounds: seq<set<Tag>>) {
    forall k :: 0 <= k < |rounds| ==> rounds[k] !! Union(rounds[..k])
  }

  lemma RoundsDisjoint(c: Catalog, toApply: set<Tag>, tags: set<Tag>)
    requires toApply <= c.Keys
    ensures Disjoint(Run(c, toApply, tags).rounds)
  {
    var rounds := Run(c, toApply, tags).rounds;
    forall k | 0 <= k < |rounds| ensures rounds[k] !! Union(rounds[..k]) {
      RoundAt(c, toApply, tags, k);
    }
  }

  lemma UnionOfLast(rounds: seq<set<Tag>>)
    requires rounds != []
    ensures Union(rounds) == Union(rounds[..|rounds| - 1]) + rounds[|rounds| - 1]
  {
    var n := |rounds| - 1;
    var init := rounds[..n];
    forall t | t in Union(init) ensures t in Union(rounds) {
      var k :| 0 <= k < |init| && t in init[k];
      assert t in rounds[k];
    }
    forall t | t in Union(rounds) ensures t in Union(init) + rounds[n] {
      var k :| 0 <= k < |rounds| && t in rounds[k];
      if k < n {
        assert t in init[k];
      }
    }
  }

  lemma DisjointInit(rounds: seq<set<Tag>>)
    requires Disjoint(rounds) && rounds != []
    ensures Disjoint(rounds[..|rounds| - 1])
  {
    var init := rounds[..|rounds| - 1];
    forall k | 0 <= k < |init| ensures init[k] !! Union(init[..k]) {
      assert init[..k] == rounds[..k];
    }
  }

  /** Any order that runs disjoint rounds in turn runs each of their tags exactly once. */
  lemma {:induction false} ScheduleOnce(log: seq<Tag>, rounds: seq<set<Tag>>)
    requires Schedules(log, rounds) && Disjoint(rounds)
    ensures NoDups(log) && Elems(log) == Union(rounds)
    decreases |rounds|
  {
    if rounds == [] {
      assert Union(rounds) == {};
    } else {
      var cut := |log| - |rounds[|rounds| - 1]|;
      DisjointInit(rounds);
      ScheduleOnce(log[..cut], rounds[..|rounds| - 1]);
      LastRoundOnce(log, rounds);
    }
  }

  lemma {:induction false} LastRoundOnce(log: seq<Tag>, rounds: seq<set<Tag>>)
    requires rounds != [] && Disjoint(rounds) && |rounds[|rounds| - 1]| <= |log|
    requires var last := rounds[|rounds| - 1];
             var cut := |log| - |last|;
             && Elems(log[cut..]) == last
             && NoDups(log[..cut]) && Elems(log[..cut]) == Union(rounds[..|rounds| - 1])
    ensures NoDups(log) && Elems(log) == Union(rounds)
  {
    var cut := |log| - |rounds[|rounds| - 1]|;
    var front, back := log[..cut], log[cut..];
    assert log == front + back;
    CardinalityNoDups(back);
    UnionOfLast(rounds);
    NoDupsConcat(front, back);
    ElemsConcat(front, back);
  }

  lemma NoDupsConcat<T>(a: seq<T>, b: seq<T>)
    requires NoDups(a) && NoDups(b) && Elems(a) !! Elems(b)
    ensures NoDups(a + b)
  {
    forall i, j | 0 <= i < j < |a + b| ensures (a + b)[i] != (a + b)[j] {
      if i < |a| <= j {
        assert a[i] in Elems(a) && b[j - |a|] in Elems(b);
      }
    }
  }

  /** Position k of a schedule belongs to a round all of whose predecessors are already in the log. */
  lemma {:induction false} ScheduleRound(log: seq<Tag>, rounds: seq<set<Tag>>, k: nat) returns (r: nat)
    requires Schedules(log, rounds) && Disjoint(rounds) && k < |log|
    ensures r < |rounds| && log[k] in rounds[r] && Union(rounds[..r]) <= Elems(log[..k])
    decreases |rounds|
  {
    var n := |rounds| - 1;
    var cut := |log| - |rounds[n]|;
    if k < cut {
      DisjointInit(rounds);
      r := ScheduleRound(log[..cut], rounds[..n], k);
      assert rounds[..n][..r] == rounds[..r] && log[..cut][..k] == log[..k];
    } else {
      r := n;
      DisjointInit(rounds);
      ScheduleOnce(log[..cut], rounds[..n]);
      assert log[k] == log[cut..][k - cut];
      assert log[..k][..cut] == log[..cut];
    }
  }

  /** A run applies each pending tag it does not get stuck on exactly once, and no other tag. */
  lemma AppliedExactlyOnce(c: Catalog, tags: set<Tag>, log: seq<Tag>)
    requires Schedules(log, Migrate(c, tags).rounds)
    ensures NoDups(log) && Elems(log) == Pending(c, tags) - Migrate(c, tags).stuck
  {
    RoundsDisjoint(c, Pending(c, tags), tags);
    RoundsInside(c, Pending(c, tags), tags);
    ScheduleOnce(log, Migrate(c, tags).rounds);
  }

  /** When a migration runs, each of its dependencies was in the checkpoint or has run. */
  lemma DependenciesFirst(c: Catalog, tags: set<Tag>, log: seq<Tag>, k: nat)
    requires Schedules(log, Migrate(c, tags).rounds) && k < |log|
    ensures log[k] in c && c[log[k]].depends <= tags + Elems(log[..k])
  {
    RoundsDisjoint(c, Pending(c, tags), tags);
    var r := ScheduleRound(log, Migrate(c, tags).rounds, k);
    RoundAt(c, Pending(c, tags), tags, r);
  }

  /** In an upgrade-only run a tag never runs before a tag it depends on. */
  lemma DependencyOrder(c: Catalog, tags: set<Tag>, log: seq<Tag>, i: nat, j: nat)
    requires UpgradeOnly(c) && Schedules(log, Migrate(c, tags).rounds)
    requires i < |log| && j < |log| && log[i] in c && log[j] in c[log[i]].depends
    ensures j < i
  {
    AppliedExactlyOnce(c, tags, log);
    DependenciesFirst(c, tags, log, i);
    assert log[j] in Elems(log);
    assert log[j] in Elems(log[..i]);
  }

  /** No tag of the log comes before a tag it depends on. */
  ghost predicate RespectsDependencies(c: Catalog, log: seq<Tag>) {
    forall i, j :: 0 <= i < |log| && 0 <= j < |log| && log[i] in c && log[j] in c[log[i]].depends ==> j < i
  }

  lemma SchedulesRespect(c: Catalog, tags: set<Tag>, log: seq<Tag>)
    requires UpgradeOnly(c) && Schedules(log, Migrate(c, tags).rounds)
    ensures NoDups(log) && RespectsDependencies(c, log)
  {
    AppliedExactlyOnce(c, tags, log);
    forall i, j | 0 <= i < |log| && 0 <= j < |log| && log[i] in c && log[j] in c[log[i]].depends ensures j < i {
      DependencyOrder(c, tags, log, i, j);
    }
  }

  // ----- dependencies on tags that have a downgrader -----

  /**
   A tag that depends on a downgraded tag runs only while that tag is still in the checkpoint:
   never in a round after the downgrade, and not at all once the tag is gone.
   */
  lemma DowngradeNeverAwaited(c: Catalog, tags: set<Tag>, k: nat, t: Tag, d: Tag)
    requires k < |Migrate(c, tags).rounds| && t in Migrate(c, tags).rounds[k]
    requires t in c && d in c[t].depends && d in UntagSet(c)
    ensures d in tags && d !in Union(Migrate(c, tags).rounds[..k])
  {
    RoundAt(c, Pending(c, tags), tags, k);
  }

  /** A pending tag whose dependency has already been downgraded away makes the run abort. */
  lemma AbsentDowngradeAborts(c: Catalog, tags: set<Tag>, t: Tag, d: Tag)
    requires t in Pending(c, tags) && d in c[t].depends && d in UntagSet(c) && d !in tags
    ensures t in Migrate(c, tags).stuck
  {
    var o := Migrate(c, tags);
    RoundsInside(c, Pending(c, tags), tags);
    if t !in o.stuck {
      assert t in Union(o.rounds);
      var k :| 0 <= k < |o.rounds| && t in o.rounds[k];
      DowngradeNeverAwaited(c, tags, k, t, d);
    }
  }

  /** One downgraded tag, and an upgrade that depends on it. */
  function OldAndNew(older: Tag, newer: Tag): Catalog {
    map[older := Entry({}, Downgrade), newer := Entry({older}, Upgrade)]
  }

  lemma OldAndNewRounds(older: Tag, newer: Tag)
    requires older != newer
    ensures Migrate(OldAndNew(older, newer), {older}).rounds == [{older, newer}]
  {
    var c := OldAndNew(older, newer);
    var both := {older, newer};
    assert Pending(c, {older}) == both;
    assert ReadySet(c, both, {older}) == both;
    var after := Apply(c, {older}, both);
    assert both - both == {};
    assert ReadySet(c, {}, after) == {};
    assert Run(c, {}, after).rounds == [];
  }

  lemma OneRoundSchedule(log: seq<Tag>, round: set<Tag>)
    requires Elems(log) == round && |log| == |round|
    ensures Schedules(log, [round])
  {
    assert log[0..] == log && log[..0] == [];
    assert [round][..0] == [];
  }

  /**
   The header comment says that such a tag waits for the downgrade. Here it may run first, and a
   checkpoint that has already lost the downgraded tag cannot be migrated.
   */
  lemma DowngradeDependencyExample(older: Tag, newer: Tag)
    requires older != newer
    ensures Schedules([newer, older], Migrate(OldAndNew(older, newer), {older}).rounds)
    ensures Migrate(OldAndNew(older, newer), {}).Aborted()
  {
    OldAndNewRounds(older, newer);
    var log := [newer, older];
    assert |{older, newer}| == 2;
    assert Elems(log) == {older, newer} by {
      assert log[0] in log && log[1] in log;
    }
    OneRoundSchedule(log, {older, newer});
    AbsentDowngradeAborts(OldAndNew(older, newer), {}, newer, older);
  }
}
