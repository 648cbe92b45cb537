/**
 util/cpt_upgrader.py: the registry that the upgrader scripts build when they are loaded, and the
 migration of one checkpoint file. `Migration` holds what a run means; here it is carried out.
 */
module CptUpgrader {
  import opened Sequences
  import opened Text
  import opened Migration

  /** The options of each section of a checkpoint, apart from its version information. */
  type Config = map<string, map<string, string>>

  /** What an upgrader script defines; `migrate` is its upgrader or downgrader function. */
  datatype Script = Script(tag: Tag, depends: seq<Tag>, fwdDepends: seq<Tag>, kind: Kind,
                           legacyVersion: Option<int>, migrate: Config -> Config)

  method AllKnown(names: seq<Tag>, known: set<Tag>) returns (ok: bool)
    ensures ok <==> Elems(names) <= known
  {
    for i := 0 to |names|
      invariant forall k :: 0 <= k < i ==> names[k] in known
    {
      if names[i] !in known {
        assert names[i] in Elems(names);
        return false;
      }
    }
    return true;
  }

  /** The tags of a set, in the order in which it is iterated. */
  method Listing(tags: set<Tag>) returns (order: seq<Tag>)
    ensures NoDups(order) && Elems(order) == tags
  {
    order := [];
    var rest := tags;
    while rest != {}
      invariant rest <= tags && NoDups(order) && Elems(order) == tags - rest
      decreases rest
    {
      var t :| t in rest;
      ElemsConcat(order, [t]);
      assert t !in Elems(order);
      order, rest := order + [t], rest - {t};
    }
  }

  /** The options after the migrations in `log` have run in that order. */
  ghost function Applied(scripts: map<Tag, Script>, log: seq<Tag>, options: Config): Config
    requires Elems(log) <= scripts.Keys
  {
    if log == [] then options
    else
      var k := |log| - 1;
      assert log[k] in Elems(log) && Elems(log[..k]) <= Elems(log);
      scripts[log[k]].migrate(Applied(scripts, log[..k], options))
  }

  lemma AppliedNext(scripts: map<Tag, Script>, log: seq<Tag>, t: Tag, options: Config)
    requires Elems(log) <= scripts.Keys && t in scripts
    ensures Elems(log + [t]) <= scripts.Keys
    ensures Applied(scripts, log + [t], options) == scripts[t].migrate(Applied(scripts, log, options))
  {
    ElemsConcat(log, [t]);
    assert (log + [t])[..|log|] == log;
  }

  lemma {:induction false} AppliedConcat(scripts: map<Tag, Script>, a: seq<Tag>, b: seq<Tag>, options: Config)
    requires Elems(a) <= scripts.Keys && Elems(b) <= scripts.Keys
    ensures Elems(a + b) <= scripts.Keys
    ensures Applied(scripts, a + b, options) == Applied(scripts, b, Applied(scripts, a, options))
    decreases |b|
  {
    ElemsConcat(a, b);
    if b == [] {
      assert a + b == a;
    } else {
      var k := |b| - 1;
      assert Elems(b[..k]) <= Elems(b) && b[k] in Elems(b);
      AppliedConcat(scripts, a, b[..k], options);
      AppliedNext(scripts, a + b[..k], b[k], options);
      assert a + b == a + b[..k] + [b[k]];
    }
  }

  // ----- checkpoint files -----

  datatype Version = LegacyVersion(version: int) | VersionTags(text: string) | NoVersion

  datatype CptFile = CptFile(version: Version, options: Config)

  datatype FileResult =
    | Fatal | KeyError | NoSection | Aborted(stuck: set<Tag>) | NothingToDo | Written(file: CptFile)

  /** The section that holds the version tags. */
  const GLOBALS := "Globals"

  /** The tags a file starts with; `None` is the KeyError for a legacy version nobody declared. */
  ghost function StartTags(legacy: map<int, Tag>, v: Version): Option<set<Tag>>
    requires !v.NoVersion?
  {
    match v
    case LegacyVersion(n) =>
      if forall i :: 2 <= i <= n ==> i in legacy then Some(set i | 2 <= i <= n && i in legacy :: legacy[i]) else None
    case VersionTags(text) => Some(Elems(Words(text)))
  }

  /**
   One run over a file: `log` is the order in which migrations were applied, and `taggable` says
   whether they leave a section for the version tags.
   */
  ghost predicate Processes(c: Catalog, legacy: map<int, Tag>, file: CptFile, r: FileResult, log: seq<Tag>,
                            taggable: bool)
  {
    if file.version.NoVersion? then r == Fatal && log == []
    else if StartTags(legacy, file.version).None? then r == KeyError && log == []
    else
      var o := Migrate(c, StartTags(legacy, file.version).value);
      && Schedules(log, o.rounds)
      && if o.Aborted() then r == Aborted(o.stuck)
         else if file.version.VersionTags? && o.rounds == [] then r == NothingToDo
         else if !taggable then r == NoSection
         else
           && r.Written?
           && r.file.version.VersionTags?
           && exists order :: NoDups(order) && Elems(order) == o.tags && r.file.version.text == Join(order, ' ')
  }

  /** A run that applied nothing had no rounds. */
  lemma NoRounds(c: Catalog, tags: set<Tag>, log: seq<Tag>)
    requires Schedules(log, Migrate(c, tags).rounds) && log == [] && !Migrate(c, tags).Aborted()
    ensures Migrate(c, tags).rounds == []
  {
    AppliedExactlyOnce(c, tags, log);
  }

  /** A run that is not stopped by a cycle or an unknown version runs every pending migration. */
  lemma RunsPending(c: Catalog, tags: set<Tag>, log: seq<Tag>, t: Tag)
    requires Schedules(log, Migrate(c, tags).rounds) && !Migrate(c, tags).Aborted()
    ensures t in log <==> (t in TagSet(c) && t !in tags) || (t in UntagSet(c) && t in tags)
  {
    AppliedExactlyOnce(c, tags, log);
    assert t in log <==> t in Elems(log);
  }

  /**
   A checkpoint of legacy version n has the tags of the versions from 2 to n: exactly the upgraders
   of other tags run on it, and the downgraders of these.
   */
  lemma LegacyFileRuns(c: Catalog, legacy: map<int, Tag>, n: int, options: Config, r: FileResult, log: seq<Tag>,
                       taggable: bool, t: Tag)
    requires Processes(c, legacy, CptFile(LegacyVersion(n), options), r, log, taggable) && (r.Written? || r.NoSection?)
    ensures t in log <==>
            (t in TagSet(c) && !exists i :: 2 <= i <= n && i in legacy && legacy[i] == t) ||
            (t in UntagSet(c) && exists i :: 2 <= i <= n && i in legacy && legacy[i] == t)
  {
    RunsPending(c, StartTags(legacy, LegacyVersion(n)).value, log, t);
  }

  /**
   A legacy version that needs an undeclared one below it fails; nothing else gives a KeyError. A
   legacy checkpoint that can be migrated is always written anew, if it has a place for its tags.
   */
  lemma FileOutcomes(c: Catalog, legacy: map<int, Tag>, file: CptFile, r: FileResult, log: seq<Tag>, taggable: bool)
    requires Processes(c, legacy, file, r, log, taggable)
    ensures r.KeyError? <==> file.version.LegacyVersion? && exists i :: 2 <= i <= file.version.version && i !in legacy
    ensures r.Fatal? <==> file.version.NoVersion?
    ensures file.version.LegacyVersion? ==> !r.NothingToDo?
    ensures (r.Written? ==> taggable) && (r.NoSection? ==> !taggable)
  {
  }

  /** With upgraders only, a legacy checkpoint cannot be migrated exactly if a cycle of tags avoids its versions. */
  lemma LegacyFileAbortsIff(c: Catalog, legacy: map<int, Tag>, n: int, options: Config, r: FileResult, log: seq<Tag>,
                            taggable: bool)
    requires UpgradeOnly(c) && Audited(c) && forall i :: 2 <= i <= n ==> i in legacy
    requires Processes(c, legacy, CptFile(LegacyVersion(n), options), r, log, taggable)
    ensures r.Aborted? <==>
            exists ring :: IsCycle(c, ring) && forall i :: 2 <= i <= n && i in legacy ==> legacy[i] !in ring
  {
    var tags := StartTags(legacy, LegacyVersion(n)).value;
    AbortsIffMissingCycle(c, tags);
    if ring :| IsCycle(c, ring) && Elems(ring) !! tags {
      forall i | 2 <= i <= n && i in legacy ensures legacy[i] !in ring {
        assert legacy[i] in tags;
        assert legacy[i] !in Elems(ring);
      }
    }
    if ring :| IsCycle(c, ring) && forall i :: 2 <= i <= n && i in legacy ==> legacy[i] !in ring {
      forall t | t in tags ensures t !in Elems(ring) {
        var i :| 2 <= i <= n && i in legacy && legacy[i] == t;
      }
      assert Elems(ring) !! tags;
    }
  }

  /** A checkpoint with version tags starts with the words of that option. */
  lemma TaggedFileRuns(c: Catalog, legacy: map<int, Tag>, text: string, options: Config, r: FileResult, log: seq<Tag>,
                       taggable: bool, t: Tag)
    requires Processes(c, legacy, CptFile(VersionTags(text), options), r, log, taggable)
    requires r.Written? || r.NoSection? || r.NothingToDo?
    ensures t in log <==> (t in TagSet(c) && t !in Words(text)) || (t in UntagSet(c) && t in Words(text))
    ensures r.NothingToDo? <==> log == []
  {
    RunsPending(c, Elems(Words(text)), log, t);
    if log == [] {
      NoRounds(c, Elems(Words(text)), log);
    }
    if r.NothingToDo? {
      assert Migrate(c, Elems(Words(text))).rounds == [];
    }
  }

  /** A file that was migrated and written back is left alone by every later run. */
  lemma SecondFileRun(c: Catalog, legacy: map<int, Tag>, file: CptFile, r: FileResult, log: seq<Tag>,
                      taggable: bool, again: FileResult, logAgain: seq<Tag>, taggableAgain: bool)
    requires Processes(c, legacy, file, r, log, taggable) && r.Written?
    requires forall t :: t in c ==> IsWord(t)
    requires forall i :: i in legacy ==> legacy[i] in c
    requires Processes(c, legacy, r.file, again, logAgain, taggableAgain)
    ensures again == NothingToDo && logAgain == []
    ensures Elems(Words(r.file.version.text)) == (StartTags(legacy, file.version).value + TagSet(c)) - UntagSet(c)
  {
    var tags := StartTags(legacy, file.version).value;
    var o := Migrate(c, tags);
    MigrationResult(c, tags);
    SecondRunDoesNothing(c, tags);
    var order :| NoDups(order) && Elems(order) == o.tags && r.file.version.text == Join(order, ' ');
    forall w | w in order ensures IsWord(w) {
      assert w in Elems(order);
    }
    WordsJoin(order);
  }

  // ----- what loading the scripts means -----

  type Scripts = map<Tag, Script>

  /** Version v closes an unbroken run of legacy versions that starts at 3. */
  ghost predicate Chained(legacy: map<int, Tag>, v: int) {
    3 <= v && forall i :: 3 <= i <= v ==> i in legacy
  }

  ghost predicate LegacyRooted(legacy: map<int, Tag>) {
    3 in legacy ==> 2 in legacy
  }

  /** The dependencies of t before forward dependencies: legacy chaining replaces the declared ones. */
  ghost function Base(scripts: Scripts, legacy: map<int, Tag>, t: Tag): seq<Tag>
    requires t in scripts && LegacyRooted(legacy)
  {
    var v := scripts[t].legacyVersion;
    if v.Some? && Chained(legacy, v.value) && legacy[v.value] == t
    then [legacy[v.value - 1]]
    else scripts[t].depends
  }

  /** The tags among `sources` that name t as a forward dependency. */
  ghost function Forward(scripts: Scripts, t: Tag, sources: set<Tag>): set<Tag> {
    set u | u in sources && u in scripts && t in scripts[u].fwdDepends
  }

  /** The catalogue that loading is meant to build. */
  ghost function Linked(scripts: Scripts, legacy: map<int, Tag>): Catalog
    requires LegacyRooted(legacy)
  {
    map t | t in scripts ::
      Entry(Elems(Base(scripts, legacy, t)) + Forward(scripts, t, scripts.Keys), scripts[t].kind)
  }

  /** All dependencies of t, forward and normal, name known tags. */
  ghost predicate KnownDependencies(scripts: Scripts, legacy: map<int, Tag>, t: Tag)
    requires t in scripts && LegacyRooted(legacy)
  {
    Elems(scripts[t].fwdDepends) <= scripts.Keys && Elems(Base(scripts, legacy, t)) <= scripts.Keys
  }

  ghost predicate Linkable(scripts: Scripts, legacy: map<int, Tag>) {
    LegacyRooted(legacy) && forall t :: t in scripts ==> KnownDependencies(scripts, legacy, t)
  }

  /** The upgrader of a version in the unbroken run from 3 on depends on the version below, not on what it declares. */
  lemma LinkedChained(scripts: Scripts, legacy: map<int, Tag>, v: int, u: Tag)
    requires (3 in legacy ==> 2 in legacy) && 3 <= v && forall i :: 3 <= i <= v ==> i in legacy
    requires legacy[v] in scripts && scripts[legacy[v]].legacyVersion == Some(v)
    ensures var t := legacy[v];
            u in Linked(scripts, legacy)[t].depends <==>
            u == legacy[v - 1] || (u in scripts && t in scripts[u].fwdDepends)
  {
  }

  /** Every other upgrader keeps its declared dependencies, and gets those that name it. */
  lemma LinkedDeclared(scripts: Scripts, legacy: map<int, Tag>, t: Tag, u: Tag)
    requires (3 in legacy ==> 2 in legacy) && t in scripts
    requires !exists v :: 3 <= v && scripts[t].legacyVersion == Some(v) && (forall i :: 3 <= i <= v ==> i in legacy) &&
                          legacy[v] == t
    ensures u in Linked(scripts, legacy)[t].depends <==>
            u in scripts[t].depends || (u in scripts && t in scripts[u].fwdDepends)
  {
    assert Base(scripts, legacy, t) == scripts[t].depends;
  }

  /** Scripts can be linked exactly if version 3 has a version 2 below it and every dependency is a known tag. */
  lemma LinkableIff(scripts: Scripts, legacy: map<int, Tag>)
    ensures Linkable(scripts, legacy) <==>
            && (3 in legacy ==> 2 in legacy)
            && (forall t, f :: t in scripts && f in scripts[t].fwdDepends ==> f in scripts)
            && Audited(Linked(scripts, legacy))
  {
    if 3 in legacy ==> 2 in legacy {
      var c := Linked(scripts, legacy);
      forall t | t in scripts
        ensures c[t].depends <= c.Keys <==> Elems(Base(scripts, legacy, t)) <= scripts.Keys
      {
        assert Forward(scripts, t, scripts.Keys) <= scripts.Keys;
      }
    }
  }

  /** What the legacy loop has assigned to t once it has reached version i. */
  ghost function ChainedBelow(scripts: Scripts, legacy: map<int, Tag>, t: Tag, i: int): seq<Tag>
    requires t in scripts && forall v :: 2 <= v < i ==> v in legacy
  {
    var v := scripts[t].legacyVersion;
    if v.Some? && 3 <= v.value < i && legacy[v.value] == t then [legacy[v.value - 1]] else scripts[t].depends
  }

  /** The state of linking once the upgraders in `done` have been visited. */
  ghost predicate LinkedUpTo(scripts: Scripts, legacy: map<int, Tag>, depends: map<Tag, seq<Tag>>, done: set<Tag>)
    requires LegacyRooted(legacy)
  {
    && done <= scripts.Keys && depends.Keys == scripts.Keys
    && (forall u :: u in scripts ==>
          Elems(depends[u]) == Elems(Base(scripts, legacy, u)) + Forward(scripts, u, done))
    && (forall u :: u in done ==> KnownDependencies(scripts, legacy, u))
  }

  lemma NothingForwarded(scripts: Scripts, legacy: map<int, Tag>, depends: map<Tag, seq<Tag>>)
    requires LegacyRooted(legacy) && depends.Keys == scripts.Keys
    requires forall t :: t in scripts ==> depends[t] == Base(scripts, legacy, t)
    ensures LinkedUpTo(scripts, legacy, depends, {})
  {
    assert forall u :: Forward(scripts, u, {}) == {};
  }

  lemma ForwardOneMore(scripts: Scripts, u: Tag, done: set<Tag>, t: Tag)
    requires t in scripts
    ensures Forward(scripts, u, done + {t}) ==
            Forward(scripts, u, done) + (if u in scripts[t].fwdDepends then {t} else {})
  {
  }

  lemma LinkOneMore(scripts: Scripts, legacy: map<int, Tag>, was: map<Tag, seq<Tag>>, now: map<Tag, seq<Tag>>,
                    done: set<Tag>, t: Tag)
    requires LegacyRooted(legacy) && LinkedUpTo(scripts, legacy, was, done)
    requires t in scripts && t !in done && now.Keys == was.Keys
    requires Elems(scripts[t].fwdDepends) <= scripts.Keys
    requires forall u :: u in scripts ==>
      Elems(now[u]) == Elems(was[u]) + (if u in scripts[t].fwdDepends then {t} else {})
    ensures forall u :: u in scripts ==>
      Elems(now[u]) == Elems(Base(scripts, legacy, u)) + Forward(scripts, u, done + {t})
    ensures Elems(now[t]) <= scripts.Keys <==> KnownDependencies(scripts, legacy, t)
  {
    forall u | u in scripts
      ensures Elems(now[u]) == Elems(Base(scripts, legacy, u)) + Forward(scripts, u, done + {t})
    {
      ForwardOneMore(scripts, u, done, t);
      assert Elems(was[u]) == Elems(Base(scripts, legacy, u)) + Forward(scripts, u, done);
    }
    assert Forward(scripts, t, done + {t}) <= scripts.Keys;
  }

  lemma ChainStep(scripts: Scripts, legacy: map<int, Tag>, depends: map<Tag, seq<Tag>>, i: int)
    requires 3 <= i && (forall v :: 2 <= v <= i ==> v in legacy) && depends.Keys == scripts.Keys
    requires legacy[i] in scripts
    requires forall t :: t in scripts ==> depends[t] == ChainedBelow(scripts, legacy, t, i)
    ensures var next := if scripts[legacy[i]].legacyVersion == Some(i) then depends[legacy[i] := [legacy[i - 1]]]
                        else depends;
            forall t :: t in scripts ==> next[t] == ChainedBelow(scripts, legacy, t, i + 1)
  {
  }

  lemma ChainComplete(scripts: Scripts, legacy: map<int, Tag>, t: Tag, i: int)
    requires t in scripts && 3 <= i && i !in legacy && forall v :: 2 <= v < i ==> v in legacy
    ensures LegacyRooted(legacy) && ChainedBelow(scripts, legacy, t, i) == Base(scripts, legacy, t)
  {
    var v := scripts[t].legacyVersion;
    if v.Some? && 3 <= v.value {
      assert Chained(legacy, v.value) <==> v.value < i;
    }
  }

  /** The catalogue that registered scripts and their current dependencies amount to. */
  ghost function CatalogOf(scripts: Scripts, depends: map<Tag, seq<Tag>>): Catalog
    requires depends.Keys == scripts.Keys
  {
    map t | t in scripts :: Entry(Elems(depends[t]), scripts[t].kind)
  }

  lemma LinkedCatalog(scripts: Scripts, legacy: map<int, Tag>, depends: map<Tag, seq<Tag>>)
    requires Linkable(scripts, legacy) && LinkedUpTo(scripts, legacy, depends, scripts.Keys)
    ensures CatalogOf(scripts, depends) == Linked(scripts, legacy) && Audited(Linked(scripts, legacy))
  {
    var c := Linked(scripts, legacy);
    forall t | t in c ensures c[t].depends <= c.Keys {
      assert KnownDependencies(scripts, legacy, t);
      assert Forward(scripts, t, scripts.Keys) <= scripts.Keys;
    }
  }

  // ----- the order of legacy upgrades -----

  /** The tag of each legacy version leads to a script that declares this version. */
  ghost predicate ValidLegacy(scripts: Scripts, legacy: map<int, Tag>) {
    forall v :: v in legacy ==> legacy[v] in scripts && scripts[legacy[v]].legacyVersion == Some(v)
  }

  /** Chaining makes each legacy version depend on the version below it. */
  lemma LegacyDepends(scripts: Scripts, legacy: map<int, Tag>, v: int)
    requires LegacyRooted(legacy) && ValidLegacy(scripts, legacy) && Chained(legacy, v)
    ensures legacy[v] in scripts && legacy[v - 1] in Linked(scripts, legacy)[legacy[v]].depends
  {
    assert Base(scripts, legacy, legacy[v]) == [legacy[v - 1]];
    assert legacy[v - 1] in Elems([legacy[v - 1]]);
  }

  /** In a log that respects dependencies, a chained version comes after the version below it. */
  lemma LegacyStep(scripts: Scripts, legacy: map<int, Tag>, log: seq<Tag>, v: int, k: nat, j: nat)
    requires LegacyRooted(legacy) && ValidLegacy(scripts, legacy) && Chained(legacy, v)
    requires NoDups(log) && RespectsDependencies(Linked(scripts, legacy), log)
    requires k < |log| && log[k] == legacy[v - 1] && j < |log| && log[j] == legacy[v]
    ensures k < j
  {
    LegacyDepends(scripts, legacy, v);
  }

  /** The versions from u to v are all in the log, wherever. */
  ghost predicate AllLogged(legacy: map<int, Tag>, log: seq<Tag>, u: int, v: int) {
    forall w :: u <= w <= v ==> w in legacy && legacy[w] in log
  }

  /** In a log, version w comes after the version below it. */
  ghost predicate StepsUp(legacy: map<int, Tag>, log: seq<Tag>, w: int)
    requires w in legacy && w - 1 in legacy
  {
    forall k, j :: 0 <= k < |log| && 0 <= j < |log| && log[k] == legacy[w - 1] && log[j] == legacy[w] ==> k < j
  }

  lemma Position(log: seq<Tag>, t: Tag) returns (k: nat)
    requires t in log
    ensures k < |log| && log[k] == t
  {
    k :| 0 <= k < |log| && log[k] == t;
  }

  lemma {:induction false} StepsAscend(legacy: map<int, Tag>, log: seq<Tag>, u: int, v: int, i: nat, j: nat)
    requires u < v && AllLogged(legacy, log, u, v) && forall w :: u < w <= v ==> StepsUp(legacy, log, w)
    requires i < |log| && log[i] == legacy[u] && j < |log| && log[j] == legacy[v]
    ensures i < j
    decreases v - u
  {
    assert StepsUp(legacy, log, v);
    if u < v - 1 {
      var k := Position(log, legacy[v - 1]);
      StepsAscend(legacy, log, u, v - 1, i, k);
    }
  }

  /** Chained legacy upgrades that all have to run do so in ascending version order. */
  lemma LegacyAscending(scripts: Scripts, legacy: map<int, Tag>, log: seq<Tag>, u: int, v: int, i: nat, j: nat)
    requires LegacyRooted(legacy) && ValidLegacy(scripts, legacy)
    requires NoDups(log) && RespectsDependencies(Linked(scripts, legacy), log)
    requires 2 <= u < v && Chained(legacy, v) && AllLogged(legacy, log, u, v)
    requires i < |log| && log[i] == legacy[u] && j < |log| && log[j] == legacy[v]
    ensures i < j
  {
    forall w | u < w <= v ensures StepsUp(legacy, log, w) {
      forall k, m | 0 <= k < |log| && 0 <= m < |log| && log[k] == legacy[w - 1] && log[m] == legacy[w]
        ensures k < m
      {
        LegacyStep(scripts, legacy, log, w, k, m);
      }
    }
    StepsAscend(legacy, log, u, v, i, j);
  }

  /** Whatever the order inside the rounds, an upgrade-only run applies chained legacy versions in ascending order. */
  lemma LegacyRunsAscending(scripts: Scripts, legacy: map<int, Tag>, tags: set<Tag>, log: seq<Tag>,
                            u: int, v: int, i: nat, j: nat)
    requires LegacyRooted(legacy) && ValidLegacy(scripts, legacy) && UpgradeOnly(Linked(scripts, legacy))
    requires Schedules(log, Migrate(Linked(scripts, legacy), tags).rounds)
    requires 2 <= u < v && Chained(legacy, v) && AllLogged(legacy, log, u, v)
    requires i < |log| && log[i] == legacy[u] && j < |log| && log[j] == legacy[v]
    ensures i < j
  {
    SchedulesRespect(Linked(scripts, legacy), tags, log);
    LegacyAscending(scripts, legacy, log, u, v, i, j);
  }

  /** Once a checkpoint of legacy version n is migrated, every declared version above n has run. */
  lemma LegacyAllRun(scripts: Scripts, legacy: map<int, Tag>, n: int, log: seq<Tag>, w: int)
    requires LegacyRooted(legacy) && ValidLegacy(scripts, legacy) && UpgradeOnly(Linked(scripts, legacy))
    requires StartTags(legacy, LegacyVersion(n)).Some?
    requires var o := Migrate(Linked(scripts, legacy), StartTags(legacy, LegacyVersion(n)).value);
             !o.Aborted() && Schedules(log, o.rounds)
    requires n < w && w in legacy
    ensures legacy[w] in log
  {
    var c, tags := Linked(scripts, legacy), StartTags(legacy, LegacyVersion(n)).value;
    AppliedExactlyOnce(c, tags, log);
    AllUpgrades(c);
    assert legacy[w] in c.Keys && legacy[w] !in tags;
    assert legacy[w] in Pending(c, tags) - {};
    assert legacy[w] in Elems(log);
  }

  /** All versions from u to v run when a checkpoint of a lower legacy version is migrated. */
  lemma LegacyRangeRuns(scripts: Scripts, legacy: map<int, Tag>, n: int, log: seq<Tag>, u: int, v: int)
    requires LegacyRooted(legacy) && ValidLegacy(scripts, legacy) && UpgradeOnly(Linked(scripts, legacy))
    requires StartTags(legacy, LegacyVersion(n)).Some?
    requires var o := Migrate(Linked(scripts, legacy), StartTags(legacy, LegacyVersion(n)).value);
             !o.Aborted() && Schedules(log, o.rounds)
    requires n < u <= v && 2 <= u && Chained(legacy, v)
    ensures AllLogged(legacy, log, u, v)
  {
    forall w | u <= w <= v ensures w in legacy && legacy[w] in log {
      LegacyAllRun(scripts, legacy, n, log, w);
    }
  }

  /**
   Whatever the order inside the rounds, migrating a checkpoint of legacy version n runs the chained
   versions above n, exactly once each and in ascending order.
   */
  lemma LegacyMigration(scripts: Scripts, legacy: map<int, Tag>, n: int, log: seq<Tag>, u: int, v: int)
    requires LegacyRooted(legacy) && ValidLegacy(scripts, legacy) && UpgradeOnly(Linked(scripts, legacy))
    requires StartTags(legacy, LegacyVersion(n)).Some?
    requires var o := Migrate(Linked(scripts, legacy), StartTags(legacy, LegacyVersion(n)).value);
             !o.Aborted() && Schedules(log, o.rounds)
    requires n < u < v && 2 <= u && Chained(legacy, v)
    ensures u in legacy && NoDups(log)
    ensures exists i, j :: 0 <= i < j < |log| && log[i] == legacy[u] && log[j] == legacy[v]
  {
    LegacyRangeRuns(scripts, legacy, n, log, u, v);
    assert legacy[u] in log && legacy[v] in log;
    var i :| 0 <= i < |log| && log[i] == legacy[u];
    var j :| 0 <= j < |log| && log[j] == legacy[v];
    var tags := StartTags(legacy, LegacyVersion(n)).value;
    AppliedExactlyOnce(Linked(scripts, legacy), tags, log);
    LegacyRunsAscending(scripts, legacy, tags, log, u, v, i, j);
  }

  // ----- linking the dependencies -----

  ghost function VersionsFrom(legacy: map<int, Tag>, i: int): set<int> {
    set v | v in legacy && i <= v
  }

  lemma FewerVersions(legacy: map<int, Tag>, i: int)
    requires i in legacy
    ensures VersionsFrom(legacy, i + 1) < VersionsFrom(legacy, i)
  {
    assert i in VersionsFrom(legacy, i);
  }

  /** Make linear dependencies for legacy versions; false is the KeyError for a missing version 2. */
  method ChainLegacy(scripts: Scripts, legacy: map<int, Tag>, declared: map<Tag, seq<Tag>>)
    returns (ok: bool, depends: map<Tag, seq<Tag>>)
    requires legacy.Values <= scripts.Keys && declared.Keys == scripts.Keys
    requires forall t :: t in scripts ==> declared[t] == scripts[t].depends
    ensures depends.Keys == scripts.Keys && (ok <==> LegacyRooted(legacy))
    ensures ok ==> forall t :: t in scripts ==> depends[t] == Base(scripts, legacy, t)
  {
    depends := declared;
    if 3 !in legacy {
      return true, depends;
    }
    if 2 !in legacy {
      return false, depends;
    }
    var i := 3;
    while i in legacy
      invariant 3 <= i && (forall v :: 2 <= v < i ==> v in legacy) && depends.Keys == scripts.Keys
      invariant forall t :: t in scripts ==> depends[t] == ChainedBelow(scripts, legacy, t, i)
      decreases VersionsFrom(legacy, i)
    {
      FewerVersions(legacy, i);
      assert legacy[i] in legacy.Values;
      ChainStep(scripts, legacy, depends, i);
      if scripts[legacy[i]].legacyVersion == Some(i) {
        depends := depends[legacy[i] := [legacy[i - 1]]];
      }  // otherwise the dependencies of an upgrader change that its tag does not lead to any more
      i := i + 1;
    }
    forall t | t in scripts ensures depends[t] == Base(scripts, legacy, t) {
      ChainComplete(scripts, legacy, t, i);
    }
    return true, depends;
  }

  /** Dependencies with t appended to those of every tag in `fwd`. */
  ghost predicate Appended(was: map<Tag, seq<Tag>>, now: map<Tag, seq<Tag>>, fwd: seq<Tag>, t: Tag) {
    && now.Keys == was.Keys
    && forall u :: u in was ==> Elems(now[u]) == Elems(was[u]) + (if u in fwd then {t} else {})
  }

  lemma AppendOneMore(was: map<Tag, seq<Tag>>, now: map<Tag, seq<Tag>>, fwd: seq<Tag>, t: Tag, i: nat)
    requires i < |fwd| && fwd[i] in now && Appended(was, now, fwd[..i], t)
    ensures Appended(was, now[fwd[i] := now[fwd[i]] + [t]], fwd[..i + 1], t)
  {
    var f := fwd[i];
    var next := now[f := now[f] + [t]];
    ElemsConcat(now[f], [t]);
    assert fwd[..i + 1] == fwd[..i] + [f];
    forall u | u in was ensures Elems(next[u]) == Elems(was[u]) + (if u in fwd[..i + 1] then {t} else {}) {
      assert u in fwd[..i + 1] <==> u in fwd[..i] || u == f;
    }
  }

  /** Append t to the dependencies of each tag it forward-depends on; false if one is unknown. */
  method AppendForward(was: map<Tag, seq<Tag>>, t: Tag, fwd: seq<Tag>) returns (ok: bool, depends: map<Tag, seq<Tag>>)
    ensures depends.Keys == was.Keys && (ok <==> Elems(fwd) <= was.Keys)
    ensures ok ==> Appended(was, depends, fwd, t)
  {
    depends := was;
    for i := 0 to |fwd|
      invariant Appended(was, depends, fwd[..i], t) && forall k :: 0 <= k < i ==> fwd[k] in was
    {
      if fwd[i] !in depends {
        assert fwd[i] in Elems(fwd);
        return false, depends;
      }
      AppendOneMore(was, depends, fwd, t, i);
      depends := depends[fwd[i] := depends[fwd[i]] + [t]];
    }
    assert fwd[..|fwd|] == fwd;
    return true, depends;
  }

  /** Resolve the forward dependencies of one upgrader, then audit its own dependencies. */
  method LinkOne(scripts: Scripts, ghost legacy: map<int, Tag>, was: map<Tag, seq<Tag>>, t: Tag, ghost done: set<Tag>)
    returns (ok: bool, depends: map<Tag, seq<Tag>>)
    requires LegacyRooted(legacy) && t in scripts && t !in done && LinkedUpTo(scripts, legacy, was, done)
    ensures depends.Keys == scripts.Keys && (ok <==> KnownDependencies(scripts, legacy, t))
    ensures ok ==> LinkedUpTo(scripts, legacy, depends, done + {t})
  {
    ok, depends := AppendForward(was, t, scripts[t].fwdDepends);
    if ok {
      LinkOneMore(scripts, legacy, was, depends, done, t);
      ok := AllKnown(depends[t], scripts.Keys);
    }
  }

  /** Visit every registered upgrader, in whatever order the dictionary gives. */
  method LinkEach(scripts: Scripts, ghost legacy: map<int, Tag>, was: map<Tag, seq<Tag>>)
    returns (ok: bool, depends: map<Tag, seq<Tag>>)
    requires LegacyRooted(legacy) && LinkedUpTo(scripts, legacy, was, {})
    ensures depends.Keys == scripts.Keys && (ok <==> Linkable(scripts, legacy))
    ensures ok ==> LinkedUpTo(scripts, legacy, depends, scripts.Keys)
  {
    depends := was;
    var rest := scripts.Keys;
    ghost var done: set<Tag> := {};
    while rest != {}
      invariant done !! rest && done + rest == scripts.Keys
      invariant LinkedUpTo(scripts, legacy, depends, done)
      decreases rest
    {
      var t :| t in rest;
      ok, depends := LinkOne(scripts, legacy, depends, t, done);
      if !ok {
        return;
      }
      OneDone(scripts.Keys, done, rest, t);
      rest, done := rest - {t}, done + {t};
    }
    assert done == scripts.Keys;
    ok := true;
  }

  lemma OneDone(all: set<Tag>, done: set<Tag>, rest: set<Tag>, t: Tag)
    requires done !! rest && done + rest == all && t in rest
    ensures (done + {t}) !! (rest - {t}) && (done + {t}) + (rest - {t}) == all
  {
  }

  // ----- running the migrations -----

  /** The catalogue has the same tags as the scripts, of the same kinds. */
  ghost predicate SameKinds(scripts: Scripts, c: Catalog) {
    c.Keys == scripts.Keys && forall t :: t in scripts ==> c[t].kind == scripts[t].kind
  }

  /** A round that has run the migrations in `done`, in the given order. */
  ghost predicate PartOfRound(scripts: Scripts, c: Catalog, start: set<Tag>, options: Config, done: set<Tag>,
                              tags: set<Tag>, changed: Config, order: seq<Tag>)
  {
    && done <= scripts.Keys && Elems(order) == done && |order| == |done|
    && tags == Apply(c, start, done) && changed == Applied(scripts, order, options)
  }

  lemma PartOfRoundNext(scripts: Scripts, c: Catalog, start: set<Tag>, options: Config, done: set<Tag>,
                        tags: set<Tag>, changed: Config, order: seq<Tag>, t: Tag)
    requires PartOfRound(scripts, c, start, options, done, tags, changed, order)
    requires SameKinds(scripts, c) && t in scripts && t !in done
    ensures var after := if scripts[t].kind.Upgrade? then tags + {t} else tags - {t};
            PartOfRound(scripts, c, start, options, done + {t}, after, scripts[t].migrate(changed), order + [t])
    ensures t in UntagSet(c) && t in start ==> t in tags
  {
    ApplyOneMore(c, start, done, t);
    AppliedNext(scripts, order, t, options);
    ElemsConcat(order, [t]);
  }

  /** Run every migration of one round, in whatever order the set gives them. */
  method RunRound(scripts: Scripts, ghost c: Catalog, ready: set<Tag>, start: set<Tag>, options: Config)
    returns (tags: set<Tag>, changed: Config, order: seq<Tag>)
    requires SameKinds(scripts, c) && ready <= scripts.Keys && ready * UntagSet(c) <= start
    ensures PartOfRound(scripts, c, start, options, ready, tags, changed, order)
  {
    tags, changed, order := start, options, [];
    var rest := ready;
    ghost var done: set<Tag> := {};
    while rest != {}
      invariant done !! rest && done + rest == ready
      invariant PartOfRound(scripts, c, start, options, done, tags, changed, order)
      decreases rest
    {
      var t :| t in rest;
      PartOfRoundNext(scripts, c, start, options, done, tags, changed, order, t);
      OneDone(ready, done, rest, t);
      changed := scripts[t].migrate(changed);
      if scripts[t].kind.Upgrade? {
        tags := tags + {t};
      } else {
        assert t in UntagSet(c) && t in tags;  // `tags.remove` cannot fail
        tags := tags - {t};
      }
      order := order + [t];
      rest, done := rest - {t}, done + {t};
    }
    assert done == ready;
  }

  /** The migration loop of `process_file`. */
  method RunRounds(scripts: Scripts, depends: map<Tag, seq<Tag>>, pending: set<Tag>, start: set<Tag>, options: Config)
    returns (tags: set<Tag>, stuck: set<Tag>, changed: Config, log: seq<Tag>, ghost rounds: seq<set<Tag>>)
    requires depends.Keys == scripts.Keys && pending == Pending(CatalogOf(scripts, depends), start)
    ensures Migrate(CatalogOf(scripts, depends), start) == Outcome(tags, stuck, rounds)
    ensures Schedules(log, rounds) && Elems(log) <= scripts.Keys
    ensures changed == Applied(scripts, log, options)
  {
    ghost var c := CatalogOf(scripts, depends);
    tags, changed, log, rounds := start, options, [], [];
    var toApply := pending;
    ghost var rest := Run(c, toApply, tags);
    assert rounds + rest.rounds == rest.rounds;
    while toApply != {}
      invariant toApply <= scripts.Keys && toApply * UntagSet(c) <= tags
      invariant rest == Run(c, toApply, tags)
      invariant Migrate(c, start) == Outcome(rest.tags, rest.stuck, rounds + rest.rounds)
      invariant Schedules(log, rounds)
      invariant Elems(log) <= scripts.Keys && changed == Applied(scripts, log, options)
      decreases toApply
    {
      var ready := set t | t in toApply && Elems(depends[t]) <= tags;
      assert ready == ReadySet(c, toApply, tags);
      if ready == {} {
        stuck := toApply;
        return;
      }
      RunStep(c, toApply, tags);
      var order: seq<Tag>;
      tags, changed, order := RunRound(scripts, c, ready, tags, changed);
      ScheduleMore(log, rounds, order, ready);
      AppliedConcat(scripts, log, order, options);
      ConcatAssociative(rounds, [ready], Run(c, toApply - ready, tags).rounds);
      log, rounds, toApply := log + order, rounds + [ready], toApply - ready;
      rest := Run(c, toApply, tags);
    }
    stuck := {};
  }

  // ----- the registry -----

  ghost function OfKind(scripts: Scripts, kind: Kind): set<Tag> {
    set t | t in scripts && scripts[t].kind == kind
  }

  function WithVersion(legacy: map<int, Tag>, s: Script): map<int, Tag> {
    if s.legacyVersion.Some? then legacy[s.legacyVersion.value := s.tag] else legacy
  }

  /** The script that each tag leads to after loading: of scripts that share a tag, the last one. */
  ghost function ByTag(found: seq<Script>): Scripts {
    if found == [] then map[] else ByTag(found[..|found| - 1])[found[|found| - 1].tag := found[|found| - 1]]
  }

  /** The tag of each legacy version after loading. */
  ghost function LegacyOf(found: seq<Script>): map<int, Tag> {
    if found == [] then map[] else WithVersion(LegacyOf(found[..|found| - 1]), found[|found| - 1])
  }

  /** The tags of all scripts of a kind, replaced or not. */
  ghost function TagsOfKind(found: seq<Script>, kind: Kind): set<Tag> {
    set k | 0 <= k < |found| && found[k].kind == kind :: found[k].tag
  }

  lemma OneMoreTag(found: seq<Script>, i: nat, kind: Kind)
    requires i < |found|
    ensures TagsOfKind(found[..i + 1], kind) ==
            TagsOfKind(found[..i], kind) + (if found[i].kind == kind then {found[i].tag} else {})
  {
    var before, now := found[..i], found[..i + 1];
    forall t | t in TagsOfKind(before, kind) ensures t in TagsOfKind(now, kind) {
      var k :| 0 <= k < i && before[k].kind == kind && before[k].tag == t;
      assert now[k] == before[k];
    }
    assert now[i] == found[i];
    forall t | t in TagsOfKind(now, kind) && (found[i].kind != kind || t != found[i].tag)
      ensures t in TagsOfKind(before, kind)
    {
      var k :| 0 <= k < |now| && now[k].kind == kind && now[k].tag == t;
      assert before[k] == now[k];
    }
  }

  /** The last script with a tag is the one that the tag leads to. */
  lemma {:induction false} LastTagWins(found: seq<Script>, i: nat)
    requires i < |found| && forall j :: i < j < |found| ==> found[j].tag != found[i].tag
    ensures found[i].tag in ByTag(found) && ByTag(found)[found[i].tag] == found[i]
  {
    if i < |found| - 1 {
      LastTagWins(found[..|found| - 1], i);
    }
  }

  /** The last script that declares a legacy version gives it its tag. */
  lemma {:induction false} LastVersionWins(found: seq<Script>, i: nat, v: int)
    requires i < |found| && found[i].legacyVersion == Some(v)
    requires forall j :: i < j < |found| ==> found[j].legacyVersion != Some(v)
    ensures v in LegacyOf(found) && LegacyOf(found)[v] == found[i].tag
  {
    if i < |found| - 1 {
      LastVersionWins(found[..|found| - 1], i, v);
    }
  }

  /** Only declared versions are known, and for each there is a last script that declares it. */
  lemma {:induction false} VersionDeclared(found: seq<Script>, v: int) returns (i: nat)
    requires v in LegacyOf(found)
    ensures i < |found| && found[i].legacyVersion == Some(v)
    ensures forall j :: i < j < |found| ==> found[j].legacyVersion != Some(v)
  {
    var k := |found| - 1;
    if found[k].legacyVersion == Some(v) {
      i := k;
    } else {
      i := VersionDeclared(found[..k], v);
    }
  }

  lemma LastWithTag(found: seq<Script>, a: nat) returns (b: nat)
    requires a < |found|
    ensures a <= b < |found| && found[b].tag == found[a].tag
    ensures forall j :: b < j < |found| ==> found[j].tag != found[a].tag
    decreases |found| - a
  {
    b := a;
    if j :| a < j < |found| && found[j].tag == found[a].tag {
      b := LastWithTag(found, j);
    }
  }

  /**
   The upgrader that a legacy version refers to is still the one that its tag leads to, exactly if
   that one declares the version.
   */
  lemma CurrentIff(found: seq<Script>, a: nat, v: int)
    requires a < |found| && found[a].legacyVersion == Some(v)
    requires forall j :: a < j < |found| ==> found[j].legacyVersion != Some(v)
    ensures v in LegacyOf(found) && LegacyOf(found)[v] in ByTag(found)
    ensures ByTag(found)[LegacyOf(found)[v]].legacyVersion == Some(v) <==>
            forall j :: a < j < |found| ==> found[j].tag != found[a].tag
  {
    LastVersionWins(found, a, v);
    var b := LastWithTag(found, a);
    LastTagWins(found, b);
  }

  /** Scripts that share no tags give every legacy version its own upgrader. */
  lemma UniqueTagsValid(found: seq<Script>)
    requires forall i, j :: 0 <= i < j < |found| ==> found[i].tag != found[j].tag
    ensures ValidLegacy(ByTag(found), LegacyOf(found))
  {
    forall v | v in LegacyOf(found)
      ensures LegacyOf(found)[v] in ByTag(found) && ByTag(found)[LegacyOf(found)[v]].legacyVersion == Some(v)
    {
      var a := VersionDeclared(found, v);
      CurrentIff(found, a, v);
    }
  }

  lemma KindsAreTagSets(scripts: Scripts, depends: map<Tag, seq<Tag>>)
    requires depends.Keys == scripts.Keys
    ensures TagSet(CatalogOf(scripts, depends)) == OfKind(scripts, Upgrade)
    ensures UntagSet(CatalogOf(scripts, depends)) == OfKind(scripts, Downgrade)
  {
  }

  /**
   The class-level state of `Upgrader`. `scripts` and `depends` are what the upgrader of each tag was
   loaded from and its dependency list. An upgrader whose tag was taken over by a later script is
   still known to `legacy`, but only its tag is ever used; `CurrentIff` says when that happens.
   */
  class Registry {
    var tagSet: set<Tag>
    var untagSet: set<Tag>
    var scripts: Scripts
    var depends: map<Tag, seq<Tag>>
    var legacy: map<int, Tag>

    constructor ()
      ensures Valid() && Holds([])
    {
      tagSet, untagSet, scripts, depends, legacy := {}, {}, map[], map[], map[];
    }

    ghost predicate Valid()
      reads this
    {
      && depends.Keys == scripts.Keys
      && OfKind(scripts, Upgrade) <= tagSet <= scripts.Keys
      && OfKind(scripts, Downgrade) <= untagSet <= scripts.Keys
      && legacy.Values <= scripts.Keys
    }

    ghost function Loaded(): Catalog
      requires Valid()
      reads this
    {
      CatalogOf(scripts, depends)
    }

    /** The body of `Upgrader.__init__`: run a script and register it. */
    method Register(s: Script)
      requires Valid()
      modifies this
      ensures Valid()
      ensures scripts == old(scripts)[s.tag := s] && depends == old(depends)[s.tag := s.depends]
      ensures legacy == WithVersion(old(legacy), s)
      ensures tagSet == old(tagSet) + (if s.kind.Upgrade? then {s.tag} else {})
      ensures untagSet == old(untagSet) + (if s.kind.Downgrade? then {s.tag} else {})
    {
      if s.kind.Upgrade? {
        tagSet := tagSet + {s.tag};
      } else {
        untagSet := untagSet + {s.tag};
      }
      if s.legacyVersion.Some? {
        legacy := legacy[s.legacyVersion.value := s.tag];
      }
      scripts := scripts[s.tag := s];
      depends := depends[s.tag := s.depends];
    }

    /** The state after loading these scripts, before dependencies are linked. */
    ghost predicate Holds(found: seq<Script>)
      reads this
    {
      && scripts == ByTag(found) && legacy == LegacyOf(found)
      && tagSet == TagsOfKind(found, Upgrade) && untagSet == TagsOfKind(found, Downgrade)
    }

    /** Register every script that was found. */
    method RegisterAll(found: seq<Script>)
      requires Valid() && Holds([])
      modifies this
      ensures Valid() && Holds(found)
      ensures forall t :: t in scripts ==> depends[t] == scripts[t].depends
    {
      for i := 0 to |found|
        invariant Valid() && Holds(found[..i])
        invariant forall t :: t in scripts ==> depends[t] == scripts[t].depends
      {
        assert found[..i + 1][..i] == found[..i];
        OneMoreTag(found, i, Upgrade);
        OneMoreTag(found, i, Downgrade);
        Register(found[i]);
      }
      assert found[..|found|] == found;
    }

    /** `Upgrader.load_all` over the scripts that were found. */
    method LoadAll(found: seq<Script>) returns (ok: bool)
      requires Valid() && Holds([])
      modifies this
      ensures Valid() && Holds(found)
      ensures ok <==> Linkable(scripts, legacy)
      ensures ok ==> Loaded() == Linked(scripts, legacy) && Audited(Loaded())
    {
      RegisterAll(found);
      ok, depends := ChainLegacy(scripts, legacy, depends);
      if ok {
        NothingForwarded(scripts, legacy, depends);
        ok, depends := LinkEach(scripts, legacy, depends);
        if ok {
          LinkedCatalog(scripts, legacy, depends);
        }
      }
    }

    /** `process_file` on the contents of one checkpoint file. */
    method ProcessFile(file: CptFile) returns (r: FileResult, log: seq<Tag>)
      requires Valid() && tagSet !! untagSet
      ensures Elems(log) <= scripts.Keys
      ensures var options := Applied(scripts, log, file.options);
              && Processes(Loaded(), legacy, file, r, log, GLOBALS in options)
              && (r.Written? ==> r.file.options == options)
    {
      var tags: set<Tag> := {};
      match file.version {
        case NoVersion =>
          return Fatal, [];
        case LegacyVersion(n) =>
          var i := 2;
          while i <= n
            invariant 2 <= i && (i <= n + 1 || i == 2)
            invariant forall k :: 2 <= k < i ==> k in legacy
            invariant tags == set k | 2 <= k < i && k in legacy :: legacy[k]
          {
            if i !in legacy {
              return KeyError, [];
            }
            tags := tags + {legacy[i]};
            i := i + 1;
          }
          assert tags == (set k | 2 <= k <= n && k in legacy :: legacy[k]);
        case VersionTags(text) =>
          tags := Elems(Words(text));
      }
      var start := tags;
      assert StartTags(legacy, file.version) == Some(start);
      var stuck, options;
      ghost var rounds;
      var pending := (tagSet - start) + (untagSet * start);
      KindsAreTagSets(scripts, depends);
      tags, stuck, options, log, rounds := RunRounds(scripts, depends, pending, start, file.options);
      if stuck != {} {
        return Aborted(stuck), log;
      }
      if file.version.VersionTags? && log == [] {
        NoRounds(Loaded(), start, log);
        return NothingToDo, log;
      }
      if GLOBALS !in options {
        return NoSection, log;
      }
      var order := Listing(tags);
      r := Written(CptFile(VersionTags(Join(order, ' ')), options));
    }
  }
}
