/**
 util/checkpoint_aggregator.py: several checkpoints merged into one. The memory pages of each
 checkpoint are put behind those of the checkpoints before it, and physical addresses move along.
 */
module CheckpointAggregator {
  import opened Text
  import opened SectionNames

  type Byte = b: nat | b < 256

  const PAGE: nat := 4096

  /** The character '0', which `"".zfill(4096)` pads with. */
  const PAD: Byte := 48

  datatype Value = Words(text: string) | Num(n: int)

  datatype Section = Section(name: string, items: map<string, Value>)

  /** A checkpoint: its sections, `system.pagePtr`, `Globals.curTick` and its memory file. */
  datatype Checkpoint = Checkpoint(sections: seq<Section>, pages: nat, curTick: int, memory: seq<Byte>) {
    /** The memory file holds all the pages that the checkpoint counts. */
    predicate Full() {
      |memory| >= pages * PAGE
    }
  }

  datatype Merged = Merged(sections: seq<Section>, memory: seq<Byte>)

  // ----- relocation -----

  /** The page at which checkpoint i starts in the merged memory. */
  ghost function Base(cpts: seq<Checkpoint>, i: nat): nat
    requires i <= |cpts|
  {
    if i == 0 then 0 else Base(cpts, i - 1) + cpts[i - 1].pages
  }

  /** Read up to n pages from a memory file. */
  ghost function FirstPages(memory: seq<Byte>, n: nat): (m: seq<Byte>)
    ensures |m| == if |memory| < n * PAGE then |memory| else n * PAGE
    ensures m == memory[..|m|]
  {
    if |memory| < n * PAGE then memory else memory[..n * PAGE]
  }

  /** The memory of the first i checkpoints, one after the other. */
  ghost function Memory(cpts: seq<Checkpoint>, i: nat): seq<Byte>
    requires i <= |cpts|
  {
    if i == 0 then [] else Memory(cpts, i - 1) + FirstPages(cpts[i - 1].memory, cpts[i - 1].pages)
  }

  /** The number of pages once the memory has been padded to at least `size` bytes. */
  ghost function PaddedPages(pages: nat, size: int): nat {
    if pages * PAGE >= size then pages else (size + PAGE - 1) / PAGE
  }

  ghost function Padding(n: nat): (pad: seq<Byte>)
    ensures |pad| == n && forall k :: 0 <= k < n ==> pad[k] == PAD
  {
    if n == 0 then [] else Padding(n - 1) + [PAD]
  }

  ghost function PaddedMemory(cpts: seq<Checkpoint>, size: int): seq<Byte> {
    var pages := Base(cpts, |cpts|);
    var more := if PaddedPages(pages, size) >= pages then PaddedPages(pages, size) - pages else 0;
    Memory(cpts, |cpts|) + Padding(more * PAGE)
  }

  lemma {:induction false} PaddedPagesBound(pages: nat, size: int)
    ensures PaddedPages(pages, size) >= pages && PaddedPages(pages, size) * PAGE >= size
    ensures PaddedPages(pages, size) > pages ==> (PaddedPages(pages, size) - 1) * PAGE < size
  {
  }

  lemma {:induction false} BaseMonotone(cpts: seq<Checkpoint>, i: nat, j: nat)
    requires i <= j <= |cpts|
    ensures Base(cpts, i) <= Base(cpts, j)
    decreases j
  {
    if i < j {
      BaseMonotone(cpts, i, j - 1);
    }
  }

  /** The memory of i checkpoints has its full size exactly when all of their memory files do. */
  lemma {:induction false} MemorySize(cpts: seq<Checkpoint>, i: nat)
    requires i <= |cpts|
    ensures |Memory(cpts, i)| <= Base(cpts, i) * PAGE
    ensures |Memory(cpts, i)| == Base(cpts, i) * PAGE <==> forall k :: 0 <= k < i ==> cpts[k].Full()
  {
    if i > 0 {
      MemorySize(cpts, i - 1);
    }
  }

  lemma {:induction false} MemoryGrows(cpts: seq<Checkpoint>, i: nat, j: nat)
    requires i <= j <= |cpts|
    ensures Memory(cpts, i) <= Memory(cpts, j)
    decreases j
  {
    if i < j {
      MemoryGrows(cpts, i, j - 1);
    }
  }

  /** Byte a of checkpoint i is found at its relocated address. */
  lemma {:induction false} Relocated(cpts: seq<Checkpoint>, size: int, i: nat, a: nat)
    requires i < |cpts| && (forall k :: 0 <= k <= i ==> cpts[k].Full()) && a < cpts[i].pages * PAGE
    ensures a < |cpts[i].memory| && a + Base(cpts, i) * PAGE < |PaddedMemory(cpts, size)|
    ensures PaddedMemory(cpts, size)[a + Base(cpts, i) * PAGE] == cpts[i].memory[a]
  {
    MemorySize(cpts, i);
    MemoryGrows(cpts, i + 1, |cpts|);
    assert cpts[i].Full();
    assert Memory(cpts, i + 1)[a + Base(cpts, i) * PAGE] == cpts[i].memory[a];
  }

  /** Relocated addresses of different checkpoints are different. */
  lemma {:induction false} NoOverlap(cpts: seq<Checkpoint>, i: nat, a: nat, j: nat, b: nat)
    requires i < |cpts| && a < cpts[i].pages * PAGE && j < |cpts| && b < cpts[j].pages * PAGE
    requires a + Base(cpts, i) * PAGE == b + Base(cpts, j) * PAGE
    ensures i == j && a == b
  {
    if i < j {
      BaseMonotone(cpts, i + 1, j);
    } else if j < i {
      BaseMonotone(cpts, j + 1, i);
    }
  }

  /** The padded memory is as long as the recorded range exactly when no memory file falls short. */
  lemma {:induction false} RangeIsMemory(cpts: seq<Checkpoint>, size: int)
    ensures var range := PaddedPages(Base(cpts, |cpts|), size) * PAGE;
            && range >= size
            && (|PaddedMemory(cpts, size)| == range <==> forall k :: 0 <= k < |cpts| ==> cpts[k].Full())
  {
    MemorySize(cpts, |cpts|);
    PaddedPagesBound(Base(cpts, |cpts|), size);
  }

  // ----- sections -----

  /** `re.compile("workload.FdMap256$").search(name)`: the dot stands for any character. */
  predicate IsFdMap(name: string) {
    |name| >= 17 && name[|name| - 17..|name| - 9] == "workload" && name[|name| - 8..] == "FdMap256"
  }

  function Moved(key: string, v: Value, base: nat): Value {
    if key == "paddr" && v.Num? then Num(v.n + base * PAGE) else v
  }

  /** A cpu section of checkpoint i of n, under its new name and with its addresses relocated. */
  function CpuSection(s: Section, i: nat, n: nat, base: nat): Section
    requires i < n
  {
    var moved := map key | key in s.items :: Moved(key, s.items[key], base);
    Section(Rename(s.name, Number(i, n)), if IsFdMap(s.name) then moved["M5_pid" := Num(i)] else moved)
  }

  /** What becomes of one section: `None` if it is dropped. */
  function MergeSection(s: Section, i: nat, n: nat, base: nat): Option<Section>
    requires i < n
  {
    if HasCpu(s.name) then Some(CpuSection(s, i, n, base))
    else if s.name == "system" || s.name == "Globals" then None
    else if i == n - 1 then Some(s)
    else None
  }

  function MergeSections(ss: seq<Section>, i: nat, n: nat, base: nat): seq<Section>
    requires i < n
  {
    if ss == [] then []
    else
      var last := MergeSection(ss[|ss| - 1], i, n, base);
      MergeSections(ss[..|ss| - 1], i, n, base) + (if last.Some? then [last.value] else [])
  }

  /** The sections written for the first i checkpoints. */
  ghost function AllSections(cpts: seq<Checkpoint>, i: nat): seq<Section>
    requires i <= |cpts|
  {
    if i == 0 then []
    else AllSections(cpts, i - 1) + MergeSections(cpts[i - 1].sections, i - 1, |cpts|, Base(cpts, i - 1))
  }

  ghost predicate DistinctNames(ss: seq<Section>) {
    forall i, j :: 0 <= i < j < |ss| ==> ss[i].name != ss[j].name
  }

  /** Section s of the result comes from section `from` of checkpoint i. */
  ghost predicate ComesFrom(s: Section, cpts: seq<Checkpoint>, i: nat, from: Section)
  {
    && i < |cpts| && from in cpts[i].sections
    && MergeSection(from, i, |cpts|, Base(cpts, i)) == Some(s)
  }

  /** Sections of the result with the same name have the same origin. */
  lemma {:induction false} SameNameSameOrigin(cpts: seq<Checkpoint>, s: Section, i: nat, from: Section,
                                              t: Section, j: nat, to: Section)
    requires ComesFrom(s, cpts, i, from) && ComesFrom(t, cpts, j, to) && s.name == t.name
    ensures i == j && from.name == to.name
  {
    var n := |cpts|;
    if HasCpu(from.name) {
      NumberInRename(from.name, Number(i, n));
    }
    if HasCpu(to.name) {
      NumberInRename(to.name, Number(j, n));
    }
    if HasCpu(from.name) && HasCpu(to.name) {
      RenamingIsInjective(n, i, from.name, j, to.name);
    }
  }

  lemma {:induction false} MergedOrigins(cpts: seq<Checkpoint>, i: nat, ss: seq<Section>)
    requires i < |cpts| && DistinctNames(ss) && forall s :: s in ss ==> s in cpts[i].sections
    ensures var ms := MergeSections(ss, i, |cpts|, Base(cpts, i));
            && DistinctNames(ms)
            && forall m :: m in ms ==> exists from :: from in ss && ComesFrom(m, cpts, i, from)
  {
    if ss != [] {
      var k := |ss| - 1;
      assert forall s :: s in ss[..k] ==> s in ss;
      MergedOrigins(cpts, i, ss[..k]);
      var before := MergeSections(ss[..k], i, |cpts|, Base(cpts, i));
      var last := MergeSection(ss[k], i, |cpts|, Base(cpts, i));
      assert ss[k] in ss;
      if last.Some? {
        assert ComesFrom(last.value, cpts, i, ss[k]);
        forall a | 0 <= a < |before| ensures before[a].name != last.value.name {
          assert before[a] in before;
          var from :| from in ss[..k] && ComesFrom(before[a], cpts, i, from);
          var b :| 0 <= b < k && ss[b] == from;
          if before[a].name == last.value.name {
            SameNameSameOrigin(cpts, before[a], i, from, last.value, i, ss[k]);
          }
        }
      }
    }
  }

  /** Whatever the checkpoints hold, no two sections of the merged file have the same name. */
  lemma {:induction false} MergedNamesDistinct(cpts: seq<Checkpoint>, i: nat)
    requires i <= |cpts| && forall k :: 0 <= k < |cpts| ==> DistinctNames(cpts[k].sections)
    ensures DistinctNames(AllSections(cpts, i))
    ensures forall m :: m in AllSections(cpts, i) ==> exists k: nat, from :: k < i && ComesFrom(m, cpts, k, from)
  {
    if i > 0 {
      MergedNamesDistinct(cpts, i - 1);
      MergedOrigins(cpts, i - 1, cpts[i - 1].sections);
      var before := AllSections(cpts, i - 1);
      var now := MergeSections(cpts[i - 1].sections, i - 1, |cpts|, Base(cpts, i - 1));
      forall a, b | 0 <= a < |before| && 0 <= b < |now| ensures before[a].name != now[b].name {
        assert before[a] in before && now[b] in now;
        var k: nat, from :| k < i - 1 && ComesFrom(before[a], cpts, k, from);
        var to :| to in cpts[i - 1].sections && ComesFrom(now[b], cpts, i - 1, to);
        if before[a].name == now[b].name {
          SameNameSameOrigin(cpts, before[a], k, from, now[b], i - 1, to);
        }
      }
    }
  }

  // ----- the merged checkpoint -----

  const STORE := "system.physmem.store0"

  /** `config.set(name, key, v)` on the section with that name. */
  function SetItem(ss: seq<Section>, name: string, key: string, v: Value): (r: seq<Section>)
    ensures |r| == |ss| && forall k :: 0 <= k < |ss| ==> r[k].name == ss[k].name
    ensures forall k :: 0 <= k < |ss| && ss[k].name != name ==> r[k] == ss[k]
    ensures forall k :: 0 <= k < |ss| && ss[k].name == name ==> r[k].items == ss[k].items[key := v]
  {
    if ss == [] then []
    else
      var k := |ss| - 1;
      var last := if ss[k].name == name then ss[k].(items := ss[k].items[key := v]) else ss[k];
      SetItem(ss[..k], name, key, v) + [last]
  }

  predicate HasSection(ss: seq<Section>, name: string) {
    exists k :: 0 <= k < |ss| && ss[k].name == name
  }

  ghost function MaxTick(cpts: seq<Checkpoint>, i: nat): int
    requires i <= |cpts|
  {
    if i == 0 then 0
    else if cpts[i - 1].curTick > MaxTick(cpts, i - 1) then cpts[i - 1].curTick
    else MaxTick(cpts, i - 1)
  }

  function SystemSection(pages: nat, n: nat): Section {
    Section("system", map["pagePtr" := Num(pages), "nextPID" := Num(n)])
  }

  function GlobalsSection(tick: int): Section {
    Section("Globals", map["curTick" := Num(tick)])
  }

  /** Everything that is written to the merged configuration. */
  ghost function MergedSections(cpts: seq<Checkpoint>, size: int): seq<Section> {
    var n := |cpts|;
    SetItem(AllSections(cpts, n) + [SystemSection(Base(cpts, n), n)], STORE, "range_size",
            Num(PaddedPages(Base(cpts, n), size) * PAGE)) +
    [GlobalsSection(MaxTick(cpts, n))]
  }

  lemma {:induction false} NoCpu(s: string)
    requires 'c' !in s
    ensures !HasCpu(s)
  {
    if s != "" {
      NoCpu(s[1..]);
    }
  }

  lemma {:induction false} AddName(ss: seq<Section>, s: Section)
    requires DistinctNames(ss) && forall a :: 0 <= a < |ss| ==> ss[a].name != s.name
    ensures DistinctNames(ss + [s])
  {
  }

  /** The sections added at the end have names that no checkpoint contributes. */
  lemma {:induction false} AddedNamesFree(cpts: seq<Checkpoint>, name: string)
    requires forall k :: 0 <= k < |cpts| ==> DistinctNames(cpts[k].sections)
    requires name == "system" || name == "Globals"
    ensures forall a :: 0 <= a < |AllSections(cpts, |cpts|)| ==> AllSections(cpts, |cpts|)[a].name != name
  {
    var all := AllSections(cpts, |cpts|);
    MergedNamesDistinct(cpts, |cpts|);
    NoCpu(name);
    forall a | 0 <= a < |all| ensures all[a].name != name {
      assert all[a] in all;
      var k: nat, from :| k < |cpts| && ComesFrom(all[a], cpts, k, from);
      if HasCpu(from.name) {
        NumberInRename(from.name, Number(k, |cpts|));
      }
    }
  }

  /** No two sections of the merged checkpoint share a name. */
  lemma {:induction false} NoCollisions(cpts: seq<Checkpoint>, size: int)
    requires forall k :: 0 <= k < |cpts| ==> DistinctNames(cpts[k].sections)
    ensures DistinctNames(MergedSections(cpts, size))
  {
    var n := |cpts|;
    MergedNamesDistinct(cpts, n);
    AddedNamesFree(cpts, "system");
    AddedNamesFree(cpts, "Globals");
    var system := SystemSection(Base(cpts, n), n);
    AddName(AllSections(cpts, n), system);
    var withRange := SetItem(AllSections(cpts, n) + [system], STORE, "range_size",
                             Num(PaddedPages(Base(cpts, n), size) * PAGE));
    assert "system"[0] != "Globals"[0];
    AddName(withRange, GlobalsSection(MaxTick(cpts, n)));
  }

  /** Read pages one at a time, as far as the file goes. */
  method CopyPages(memory: seq<Byte>, pages: nat) returns (out: seq<Byte>)
    ensures out == FirstPages(memory, pages)
  {
    out := [];
    var unread := memory;
    for x := 0 to pages
      invariant out == FirstPages(memory, x) && unread == memory[|out|..]
    {
      var n := if |unread| < PAGE then |unread| else PAGE;
      out, unread := out + unread[..n], unread[n..];
      assert out == FirstPages(memory, x + 1);
    }
  }

  method PadMemory(pages: nat, size: int) returns (pad: seq<Byte>, padded: nat)
    ensures padded == PaddedPages(pages, size) && padded >= pages && pad == Padding((padded - pages) * PAGE)
  {
    pad, padded := [], pages;
    var fileSize := pages * PAGE;
    PaddedPagesBound(pages, size);
    while fileSize < size
      invariant pages <= padded <= PaddedPages(pages, size) && fileSize == padded * PAGE
      invariant |pad| == (padded - pages) * PAGE && forall k :: 0 <= k < |pad| ==> pad[k] == PAD
      decreases size - fileSize
    {
      pad := pad + seq(PAGE, _ => PAD);
      fileSize := fileSize + PAGE;
      padded := padded + 1;
    }
    assert pad == Padding((padded - pages) * PAGE);
  }

  /** The sections that checkpoint i contributes. */
  method WriteSections(ss: seq<Section>, i: nat, n: nat, base: nat) returns (out: seq<Section>)
    requires i < n
    ensures out == MergeSections(ss, i, n, base)
  {
    out := [];
    for k := 0 to |ss|
      invariant out == MergeSections(ss[..k], i, n, base)
    {
      assert ss[..k + 1][..k] == ss[..k];
      var s := ss[k];
      if HasCpu(s.name) {
        out := out + [CpuSection(s, i, n, base)];
      } else if s.name == "system" {
      } else if s.name == "Globals" {
      } else {
        if i == n - 1 {
          out := out + [s];
        }
      }
    }
    assert ss[..|ss|] == ss;
  }

  /** The loop over the checkpoints. */
  method MergeAll(cpts: seq<Checkpoint>)
    returns (sections: seq<Section>, memory: seq<Byte>, pagePtr: nat, maxTick: int)
    ensures sections == AllSections(cpts, |cpts|) && memory == Memory(cpts, |cpts|)
    ensures pagePtr == Base(cpts, |cpts|) && maxTick == MaxTick(cpts, |cpts|)
  {
    sections, memory, pagePtr, maxTick := [], [], 0, 0;
    for i := 0 to |cpts|
      invariant pagePtr == Base(cpts, i) && maxTick == MaxTick(cpts, i)
      invariant sections == AllSections(cpts, i) && memory == Memory(cpts, i)
    {
      var own := WriteSections(cpts[i].sections, i, |cpts|, pagePtr);
      sections := sections + own;
      if cpts[i].curTick > maxTick {
        maxTick := cpts[i].curTick;
      }
      pagePtr := pagePtr + cpts[i].pages;
      var pages := CopyPages(cpts[i].memory, cpts[i].pages);
      memory := memory + pages;
    }
  }

  /** `aggregate`: `None` when the last checkpoint has no section for the memory store. */
  method Aggregate(cpts: seq<Checkpoint>, memorySize: Option<int>) returns (r: Option<Merged>)
    requires |cpts| >= 1
    ensures r.Some? <==> HasSection(cpts[|cpts| - 1].sections, STORE)
    ensures var size := if memorySize.Some? then memorySize.value else 0;
            r.Some? ==> r.value == Merged(MergedSections(cpts, size), PaddedMemory(cpts, size))
  {
    var sections, memory, pagePtr, maxTick := MergeAll(cpts);
    sections := sections + [SystemSection(pagePtr, |cpts|)];
    var size := if memorySize.Some? then memorySize.value else 0;
    var pad, padded := PadMemory(pagePtr, size);
    memory := memory + pad;
    if !HasSection(cpts[|cpts| - 1].sections, STORE) {
      return None;
    }
    sections := SetItem(sections, STORE, "range_size", Num(padded * PAGE));
    sections := sections + [GlobalsSection(maxTick)];
    return Some(Merged(sections, memory));
  }

  /** A physical address in a cpu section still leads to the byte it led to before merging. */
  lemma {:induction false} AddressFollowsByte(cpts: seq<Checkpoint>, size: int, i: nat, s: Section)
    requires i < |cpts| && s in cpts[i].sections && HasCpu(s.name) && forall k :: 0 <= k <= i ==> cpts[k].Full()
    requires "paddr" in s.items && s.items["paddr"].Num? && 0 <= s.items["paddr"].n < cpts[i].pages * PAGE
    ensures var merged := CpuSection(s, i, |cpts|, Base(cpts, i));
            && merged in AllSections(cpts, |cpts|)
            && "paddr" in merged.items && merged.items["paddr"].Num?
            && s.items["paddr"].n < |cpts[i].memory|
            && 0 <= merged.items["paddr"].n < |PaddedMemory(cpts, size)|
            && PaddedMemory(cpts, size)[merged.items["paddr"].n] == cpts[i].memory[s.items["paddr"].n]
  {
    HasCpuIff(s.name);
    CpuSectionsMerged(cpts, i, s);
    MovedAddress(s, i, |cpts|, Base(cpts, i));
    Relocated(cpts, size, i, s.items["paddr"].n);
  }

  lemma {:induction false} MovedAddress(s: Section, i: nat, n: nat, base: nat)
    requires i < n && "paddr" in s.items && s.items["paddr"].Num?
    ensures var items := CpuSection(s, i, n, base).items;
            "paddr" in items && items["paddr"] == Num(s.items["paddr"].n + base * PAGE)
  {
    assert "paddr" != "M5_pid" by {
      assert "paddr"[0] != "M5_pid"[0];
    }
  }

  /** The merged tick is the latest of the checkpoints' ticks, and not below zero. */
  lemma {:induction false} MaxTickIsLatest(cpts: seq<Checkpoint>, i: nat)
    requires i <= |cpts|
    ensures MaxTick(cpts, i) >= 0 && forall k :: 0 <= k < i ==> cpts[k].curTick <= MaxTick(cpts, i)
    ensures MaxTick(cpts, i) == 0 || exists k :: 0 <= k < i && cpts[k].curTick == MaxTick(cpts, i)
  {
    if i > 0 {
      MaxTickIsLatest(cpts, i - 1);
    }
  }

  lemma {:induction false} KeptIfLast(ss: seq<Section>, n: nat, base: nat, s: Section)
    requires n > 0 && s in ss && !HasCpu(s.name) && s.name != "system" && s.name != "Globals"
    ensures s in MergeSections(ss, n - 1, n, base)
  {
    var k := |ss| - 1;
    if s != ss[k] {
      assert s in ss[..k];
      KeptIfLast(ss[..k], n, base, s);
    }
  }

  lemma {:induction false} StoreIsPlain(name: string)
    requires name == STORE
    ensures !HasCpu(name) && name != "system" && name != "Globals"
  {
    assert |STORE| == 21 && 'c' !in STORE;
    NoCpu(name);
  }

  lemma {:induction false} IndexIn(ss: seq<Section>, s: Section) returns (j: nat)
    requires s in ss
    ensures j < |ss| && ss[j] == s
  {
    j :| 0 <= j < |ss| && ss[j] == s;
  }

  lemma {:induction false} LastIsMerged(cpts: seq<Checkpoint>, s: Section)
    requires |cpts| >= 1 && s in cpts[|cpts| - 1].sections
    requires !HasCpu(s.name) && s.name != "system" && s.name != "Globals"
    ensures s in AllSections(cpts, |cpts|)
  {
    var n := |cpts|;
    KeptIfLast(cpts[n - 1].sections, n, Base(cpts, n - 1), s);
  }

  lemma {:induction false} StoreKept(cpts: seq<Checkpoint>) returns (j: nat)
    requires |cpts| >= 1 && HasSection(cpts[|cpts| - 1].sections, STORE)
    ensures j < |AllSections(cpts, |cpts|)| && AllSections(cpts, |cpts|)[j].name == STORE
  {
    var ss := cpts[|cpts| - 1].sections;
    var k :| 0 <= k < |ss| && ss[k].name == STORE;
    StoreIsPlain(ss[k].name);
    LastIsMerged(cpts, ss[k]);
    j := IndexIn(AllSections(cpts, |cpts|), ss[k]);
  }

  ghost predicate RecordsRange(s: Section, range: int) {
    s.name == STORE && "range_size" in s.items && s.items["range_size"] == Num(range)
  }

  // ----- in terms of the merged file -----

  /** The section of the file descriptors of a process: "workload", any character, and "FdMap256" at the end. */
  lemma {:induction false} IsFdMapIff(name: string)
    ensures IsFdMap(name) <==> exists front, c :: name == front + "workload" + [c] + "FdMap256"
  {
    if IsFdMap(name) {
      var k := |name|;
      var front, c := name[..k - 17], name[k - 9];
      assert name == front + name[k - 17..k - 9] + [c] + name[k - 8..];
    }
    if front, c :| name == front + "workload" + [c] + "FdMap256" {
      var k := |name|;
      assert k == |front| + 17;
      assert name[k - 17..k - 9] == "workload" && name[k - 8..] == "FdMap256";
    }
  }

  /**
   The options of a cpu section: a physical address moves by the pages of the checkpoints before,
   the process number of a file descriptor section becomes the number of the checkpoint, and
   everything else stays.
   */
  lemma {:induction false} CpuOptions(s: Section, i: nat, n: nat, base: nat, key: string)
    requires i < n
    ensures var items := CpuSection(s, i, n, base).items;
            && (key in items <==> key in s.items || (IsFdMap(s.name) && key == "M5_pid"))
            && (key == "M5_pid" && IsFdMap(s.name) ==> items[key] == Num(i))
            && (key in s.items && !(key == "M5_pid" && IsFdMap(s.name)) ==>
                  items[key] == if key == "paddr" && s.items[key].Num? then Num(s.items[key].n + 4096 * base)
                                else s.items[key])
  {
  }

  lemma {:induction false} Contributed(ss: seq<Section>, i: nat, n: nat, base: nat, s: Section)
    requires i < n && s in ss && MergeSection(s, i, n, base).Some?
    ensures MergeSection(s, i, n, base).value in MergeSections(ss, i, n, base)
  {
    var k := |ss| - 1;
    if s != ss[k] {
      assert s in ss[..k];
      Contributed(ss[..k], i, n, base, s);
    }
  }

  lemma {:induction false} SectionsGrow(cpts: seq<Checkpoint>, i: nat, j: nat, m: Section)
    requires i <= j <= |cpts| && m in AllSections(cpts, i)
    ensures m in AllSections(cpts, j)
    decreases j
  {
    if i < j {
      SectionsGrow(cpts, i, j - 1, m);
    }
  }

  /** Every section that has a "cpu" in its name goes into the merged file under its new name. */
  lemma {:induction false} CpuSectionsMerged(cpts: seq<Checkpoint>, i: nat, s: Section)
    requires i < |cpts| && s in cpts[i].sections
    requires Contains(s.name)
    ensures CpuSection(s, i, |cpts|, Base(cpts, i)) in AllSections(cpts, |cpts|)
    ensures CpuSection(s, i, |cpts|, Base(cpts, i)).name == Rename(s.name, Number(i, |cpts|))
  {
    HasCpuIff(s.name);
    Contributed(cpts[i].sections, i, |cpts|, Base(cpts, i), s);
    SectionsGrow(cpts, i + 1, |cpts|, CpuSection(s, i, |cpts|, Base(cpts, i)));
  }

  /** The other sections come from the last checkpoint, except the two that are written anew. */
  lemma {:induction false} OtherSectionsMerged(cpts: seq<Checkpoint>, i: nat, s: Section)
    requires i < |cpts| && s in cpts[i].sections
    requires !Contains(s.name)
    ensures MergeSection(s, i, |cpts|, Base(cpts, i)) ==
            if i == |cpts| - 1 && s.name != "system" && s.name != "Globals" then Some(s) else None
    ensures i == |cpts| - 1 && s.name != "system" && s.name != "Globals" ==> s in AllSections(cpts, |cpts|)
  {
    HasCpuIff(s.name);
    if i == |cpts| - 1 && s.name != "system" && s.name != "Globals" {
      Contributed(cpts[i].sections, i, |cpts|, Base(cpts, i), s);
    }
  }

  /** What is written after the sections of the checkpoints. */
  lemma {:induction false} WrittenAnew(cpts: seq<Checkpoint>, size: int)
    ensures var ms, k := MergedSections(cpts, size), |AllSections(cpts, |cpts|)|;
            && |ms| == k + 2
            && ms[k] == Section("system", map["pagePtr" := Num(Base(cpts, |cpts|)), "nextPID" := Num(|cpts|)])
            && ms[k + 1] == Section("Globals", map["curTick" := Num(MaxTick(cpts, |cpts|))])
            && forall j :: 0 <= j < k && AllSections(cpts, |cpts|)[j].name != "system.physmem.store0" ==>
                 ms[j] == AllSections(cpts, |cpts|)[j]
  {
    assert |"system"| != |STORE|;
  }

  /** Pages of 4096 bytes, one checkpoint after the other, filled up with the character '0'. */
  lemma {:induction false} MemoryBytes(cpts: seq<Checkpoint>, size: int, i: nat, a: nat)
    requires forall k :: 0 <= k < |cpts| ==> |cpts[k].memory| >= 4096 * cpts[k].pages
    ensures i < |cpts| && a < 4096 * cpts[i].pages ==>
              && a + 4096 * Base(cpts, i) < |PaddedMemory(cpts, size)|
              && PaddedMemory(cpts, size)[a + 4096 * Base(cpts, i)] == cpts[i].memory[a]
    ensures 4096 * Base(cpts, |cpts|) <= a < |PaddedMemory(cpts, size)| ==>
              PaddedMemory(cpts, size)[a] as int == '0' as int
  {
    assert forall k :: 0 <= k < |cpts| ==> cpts[k].Full();
    MemorySize(cpts, |cpts|);
    if i < |cpts| && a < 4096 * cpts[i].pages {
      Relocated(cpts, size, i, a);
    }
  }

  /** A checkpoint starts behind the pages of all checkpoints before it. */
  lemma {:induction false} NextBase(cpts: seq<Checkpoint>, i: nat)
    requires i < |cpts|
    ensures Base(cpts, 0) == 0 && Base(cpts, i + 1) == Base(cpts, i) + cpts[i].pages
  {
  }

  lemma {:induction false} SetItemAt(ss: seq<Section>, j: nat, range: int, last: Section)
    requires j < |ss| && ss[j].name == STORE
    ensures var r := SetItem(ss, STORE, "range_size", Num(range)) + [last];
            j < |r| && RecordsRange(r[j], range)
  {
  }

  /** The recorded size of the memory store is the length of the merged memory, unless a memory file falls short. */
  lemma {:induction false} RangeRecorded(cpts: seq<Checkpoint>, size: int) returns (j: nat, range: int)
    requires |cpts| >= 1 && HasSection(cpts[|cpts| - 1].sections, STORE)
    ensures j < |MergedSections(cpts, size)| && RecordsRange(MergedSections(cpts, size)[j], range) && range >= size
    ensures range == |PaddedMemory(cpts, size)| <==> forall k :: 0 <= k < |cpts| ==> cpts[k].Full()
  {
    var n := |cpts|;
    range := PaddedPages(Base(cpts, n), size) * PAGE;
    RangeIsMemory(cpts, size);
    j := StoreKept(cpts);
    SetItemAt(AllSections(cpts, n) + [SystemSection(Base(cpts, n), n)], j, range, GlobalsSection(MaxTick(cpts, n)));
  }
}
