/**
 util/o3-pipeview.py: skipping the lines before the region of interest hides no instruction that the
 filters would show. The O3 processor writes the lines of an instruction as one block
 (src/cpu/o3/dyn_inst_impl.hh:70-100).
 */
module TraceRegion {
  import opened ReorderBuffer

  /** The lines of one instruction: a fetch, then each stage at least once, perhaps with other lines, and a retire. */
  ghost predicate IsBlock(b: seq<Line>) {
    && b != [] && b[0].Fetch? && (forall k :: 0 < k < |b| ==> !b[k].Fetch?)
    && b[|b| - 1].Retire? && (forall k :: 0 <= k < |b| - 1 ==> !b[k].Retire?)
    && (exists k :: 0 <= k < |b| && b[k].Decode?) && (exists k :: 0 <= k < |b| && b[k].Rename?)
    && (exists k :: 0 <= k < |b| && b[k].Dispatch?) && (exists k :: 0 <= k < |b| && b[k].Issue?)
    && (exists k :: 0 <= k < |b| && b[k].Complete?)
  }

  /** The record after some lines, from a given one on. */
  function After(storeCompletions: bool, curr: Inst, lines: seq<Line>): Inst {
    if lines == [] then curr
    else Update(storeCompletions, After(storeCompletions, curr, lines[..|lines| - 1]), lines[|lines| - 1])
  }

  /** What an instruction is when its block starts from an empty record. */
  function InstOf(storeCompletions: bool, b: seq<Line>): Inst {
    After(storeCompletions, NO_INST, b)
  }

  /** Some line belongs to the stage. */
  ghost predicate Mentions(lines: seq<Line>, stage: Line -> bool) {
    exists k :: 0 <= k < |lines| && stage(lines[k])
  }

  lemma {:induction false} MentionsNext(lines: seq<Line>, line: Line, stage: Line -> bool)
    ensures Mentions(lines + [line], stage) <==> Mentions(lines, stage) || stage(line)
  {
    var all := lines + [line];
    assert all[|lines|] == line;
    if k :| 0 <= k < |lines| && stage(lines[k]) {
      assert stage(all[k]);
    }
  }

  /** The fields that the lines so far have set are the same in both records. */
  ghost predicate Agree(x: Inst, y: Inst, lines: seq<Line>) {
    && (lines != [] ==> x.sn == y.sn && x.fetch == y.fetch && x.pc == y.pc && x.upc == y.upc && x.disasm == y.disasm)
    && (Mentions(lines, (l: Line) => l.Decode?) ==> x.decode == y.decode)
    && (Mentions(lines, (l: Line) => l.Rename?) ==> x.rename == y.rename)
    && (Mentions(lines, (l: Line) => l.Dispatch?) ==> x.dispatch == y.dispatch)
    && (Mentions(lines, (l: Line) => l.Issue?) ==> x.issue == y.issue)
    && (Mentions(lines, (l: Line) => l.Complete?) ==> x.complete == y.complete)
  }

  /** Which fields a line changes. */
  lemma {:induction false} UpdateIs(storeCompletions: bool, x: Inst, line: Line)
    ensures var y := Update(storeCompletions, x, line);
            && y.decode == (if line.Decode? then line.tick else x.decode)
            && y.rename == (if line.Rename? then line.tick else x.rename)
            && y.dispatch == (if line.Dispatch? then line.tick else x.dispatch)
            && y.issue == (if line.Issue? then line.tick else x.issue)
            && y.complete == (if line.Complete? then line.tick else x.complete)
            && y.fetch == (if line.Fetch? then line.tick else x.fetch)
            && y.sn == (if line.Fetch? then line.sn else x.sn)
            && y.pc == (if line.Fetch? then line.pc else x.pc)
            && y.upc == (if line.Fetch? then line.upc else x.upc)
            && y.disasm == (if line.Fetch? then line.disasm
                            else if line.Retire? && line.tick == 0 then "-----" + x.disasm else x.disasm)
  {
  }

  lemma {:induction false} AgreeNext(storeCompletions: bool, x: Inst, y: Inst, lines: seq<Line>, line: Line)
    requires Agree(x, y, lines) && (lines == [] ==> line.Fetch?)
    ensures Agree(Update(storeCompletions, x, line), Update(storeCompletions, y, line), lines + [line])
  {
    UpdateIs(storeCompletions, x, line);
    UpdateIs(storeCompletions, y, line);
    MentionsNext(lines, line, (l: Line) => l.Decode?);
    MentionsNext(lines, line, (l: Line) => l.Rename?);
    MentionsNext(lines, line, (l: Line) => l.Dispatch?);
    MentionsNext(lines, line, (l: Line) => l.Issue?);
    MentionsNext(lines, line, (l: Line) => l.Complete?);
  }

  lemma {:induction false} AfterAgrees(storeCompletions: bool, curr: Inst, lines: seq<Line>)
    requires lines != [] ==> lines[0].Fetch?
    ensures Agree(After(storeCompletions, curr, lines), After(storeCompletions, NO_INST, lines), lines)
  {
    if lines != [] {
      var k := |lines| - 1;
      AfterAgrees(storeCompletions, curr, lines[..k]);
      AgreeNext(storeCompletions, After(storeCompletions, curr, lines[..k]),
                After(storeCompletions, NO_INST, lines[..k]), lines[..k], lines[k]);
      assert lines == lines[..k] + [lines[k]];
    }
  }

  /** Without store completions the field stays at zero. */
  lemma {:induction false} StoreStays(curr: Inst, lines: seq<Line>)
    ensures After(false, curr, lines).store == curr.store
  {
    if lines != [] {
      StoreStays(curr, lines[..|lines| - 1]);
    }
  }

  /** A block sets all fields, so its instruction does not depend on what came before. */
  lemma {:induction false} BlockStandsAlone(storeCompletions: bool, curr: Inst, b: seq<Line>)
    requires IsBlock(b) && (!storeCompletions ==> curr.store == 0)
    ensures After(storeCompletions, curr, b) == InstOf(storeCompletions, b)
  {
    AfterAgrees(storeCompletions, curr, b);
    AllMentioned(b);
    RetireSets(storeCompletions, curr, b);
    RetireSets(storeCompletions, NO_INST, b);
  }

  lemma {:induction false} AllMentioned(b: seq<Line>)
    requires IsBlock(b)
    ensures Mentions(b, (l: Line) => l.Decode?) && Mentions(b, (l: Line) => l.Rename?)
    ensures Mentions(b, (l: Line) => l.Dispatch?) && Mentions(b, (l: Line) => l.Issue?)
    ensures Mentions(b, (l: Line) => l.Complete?)
  {
  }

  lemma {:induction false} RetireSets(storeCompletions: bool, curr: Inst, b: seq<Line>)
    requires IsBlock(b) && (!storeCompletions ==> curr.store == 0)
    ensures var x := After(storeCompletions, curr, b);
            x.retire == b[|b| - 1].tick && x.store == if storeCompletions then b[|b| - 1].store else 0
  {
    if !storeCompletions {
      StoreStays(curr, b);
    }
  }

  /** No line from j on belongs to the stage. */
  ghost predicate NoneFrom(lines: seq<Line>, j: nat, stage: Line -> bool) {
    forall k :: j <= k < |lines| ==> !stage(lines[k])
  }

  lemma {:induction false} NoneFromInit(lines: seq<Line>, j: nat, stage: Line -> bool)
    requires j < |lines|
    ensures NoneFrom(lines, j, stage) ==> NoneFrom(lines[..|lines| - 1], j, stage) && !stage(lines[|lines| - 1])
  {
  }

  /** Lines that do not belong to a stage leave its tick alone. */
  lemma {:induction false} StageStays(storeCompletions: bool, curr: Inst, lines: seq<Line>, j: nat)
    requires j <= |lines|
    ensures var x, y := After(storeCompletions, curr, lines[..j]), After(storeCompletions, curr, lines);
            && (NoneFrom(lines, j, (l: Line) => l.Decode?) ==> y.decode == x.decode)
            && (NoneFrom(lines, j, (l: Line) => l.Rename?) ==> y.rename == x.rename)
            && (NoneFrom(lines, j, (l: Line) => l.Dispatch?) ==> y.dispatch == x.dispatch)
            && (NoneFrom(lines, j, (l: Line) => l.Issue?) ==> y.issue == x.issue)
            && (NoneFrom(lines, j, (l: Line) => l.Complete?) ==> y.complete == x.complete)
    decreases |lines|
  {
    if j == |lines| {
      assert lines[..j] == lines;
    } else {
      var init, last := lines[..|lines| - 1], lines[|lines| - 1];
      StageStays(storeCompletions, curr, init, j);
      assert init[..j] == lines[..j];
      UpdateIs(storeCompletions, After(storeCompletions, curr, init), last);
      NoneFromInit(lines, j, (l: Line) => l.Decode?);
      NoneFromInit(lines, j, (l: Line) => l.Rename?);
      NoneFromInit(lines, j, (l: Line) => l.Dispatch?);
      NoneFromInit(lines, j, (l: Line) => l.Issue?);
      NoneFromInit(lines, j, (l: Line) => l.Complete?);
    }
  }

  /** A stage has the tick of its last line. */
  lemma {:induction false} LastStageLine(storeCompletions: bool, curr: Inst, lines: seq<Line>, j: nat)
    requires j < |lines|
    ensures var x, line := After(storeCompletions, curr, lines), lines[j];
            && (line.Decode? && NoneFrom(lines, j + 1, (l: Line) => l.Decode?) ==> x.decode == line.tick)
            && (line.Rename? && NoneFrom(lines, j + 1, (l: Line) => l.Rename?) ==> x.rename == line.tick)
            && (line.Dispatch? && NoneFrom(lines, j + 1, (l: Line) => l.Dispatch?) ==> x.dispatch == line.tick)
            && (line.Issue? && NoneFrom(lines, j + 1, (l: Line) => l.Issue?) ==> x.issue == line.tick)
            && (line.Complete? && NoneFrom(lines, j + 1, (l: Line) => l.Complete?) ==> x.complete == line.tick)
  {
    StageStays(storeCompletions, curr, lines, j + 1);
    assert lines[..j + 1][..j] == lines[..j];
  }

  lemma {:induction false} FetchedFields(storeCompletions: bool, b: seq<Line>, n: nat)
    requires 0 < n <= |b| && b[0].Fetch? && forall k :: 0 < k < n ==> !b[k].Fetch? && !b[k].Retire?
    ensures var x := After(storeCompletions, NO_INST, b[..n]);
            x.fetch == b[0].tick && x.sn == b[0].sn && x.pc == b[0].pc && x.upc == b[0].upc && x.disasm == b[0].disasm
  {
    assert b[..n][..n - 1] == b[..n - 1];
    if n > 1 {
      FetchedFields(storeCompletions, b, n - 1);
    } else {
      assert b[..0] == [];
    }
  }

  /**
   Which line each field of an instruction comes from: fetch gives the tick, the sequence number,
   the address and the text, which is marked if the instruction did not retire; the retire line
   gives its own tick and the tick of a store.
   */
  lemma BlockFields(storeCompletions: bool, b: seq<Line>)
    requires IsBlock(b)
    ensures var x, first, last := InstOf(storeCompletions, b), b[0], b[|b| - 1];
            && x.fetch == first.tick && x.sn == first.sn && x.pc == first.pc && x.upc == first.upc
            && x.disasm == (if last.tick == 0 then "-----" + first.disasm else first.disasm)
            && x.retire == last.tick && x.store == (if storeCompletions then last.store else 0)
  {
    var n := |b| - 1;
    FetchedFields(storeCompletions, b, n);
    if !storeCompletions {
      StoreStays(NO_INST, b);
    }
  }

  // ----- traces of blocks -----

  function Lines(blocks: seq<seq<Line>>): seq<Line> {
    if blocks == [] then [] else blocks[0] + Lines(blocks[1..])
  }

  ghost predicate AreBlocks(blocks: seq<seq<Line>>) {
    forall k :: 0 <= k < |blocks| ==> IsBlock(blocks[k])
  }

  function Insts(storeCompletions: bool, blocks: seq<seq<Line>>): seq<Inst> {
    if blocks == [] then [] else [InstOf(storeCompletions, blocks[0])] + Insts(storeCompletions, blocks[1..])
  }

  /** The instructions queued by some lines, from a given record on. */
  function Queued(storeCompletions: bool, curr: Inst, lines: seq<Line>): seq<Inst> {
    if lines == [] then []
    else
      var k := |lines| - 1;
      Queued(storeCompletions, curr, lines[..k]) +
      (if lines[k].Retire? then [After(storeCompletions, curr, lines)] else [])
  }

  lemma {:induction false} QueuedIsInstructions(storeCompletions: bool, lines: seq<Line>)
    ensures Current(storeCompletions, lines) == After(storeCompletions, NO_INST, lines)
    ensures Instructions(storeCompletions, lines) == Queued(storeCompletions, NO_INST, lines)
  {
    if lines != [] {
      QueuedIsInstructions(storeCompletions, lines[..|lines| - 1]);
    }
  }

  lemma {:induction false} AfterConcat(storeCompletions: bool, curr: Inst, a: seq<Line>, b: seq<Line>)
    ensures After(storeCompletions, curr, a + b) == After(storeCompletions, After(storeCompletions, curr, a), b)
    decreases |b|
  {
    if b == [] {
      assert a + b == a;
    } else {
      AfterConcat(storeCompletions, curr, a, b[..|b| - 1]);
      assert (a + b)[..|a + b| - 1] == a + b[..|b| - 1];
    }
  }

  lemma {:induction false} QueuedConcat(storeCompletions: bool, curr: Inst, a: seq<Line>, b: seq<Line>)
    ensures Queued(storeCompletions, curr, a + b) ==
            Queued(storeCompletions, curr, a) + Queued(storeCompletions, After(storeCompletions, curr, a), b)
    decreases |b|
  {
    if b == [] {
      assert a + b == a;
    } else {
      var init := b[..|b| - 1];
      QueuedConcat(storeCompletions, curr, a, init);
      AfterConcat(storeCompletions, curr, a, b);
      assert (a + b)[..|a + b| - 1] == a + init;
    }
  }

  lemma {:induction false} QueuedNothing(storeCompletions: bool, curr: Inst, lines: seq<Line>)
    requires forall k :: 0 <= k < |lines| ==> !lines[k].Retire?
    ensures Queued(storeCompletions, curr, lines) == []
  {
    if lines != [] {
      QueuedNothing(storeCompletions, curr, lines[..|lines| - 1]);
    }
  }

  /** A block queues its instruction, and nothing else. */
  lemma QueuedBlock(storeCompletions: bool, curr: Inst, b: seq<Line>)
    requires IsBlock(b) && (!storeCompletions ==> curr.store == 0)
    ensures Queued(storeCompletions, curr, b) == [InstOf(storeCompletions, b)]
  {
    QueuedNothing(storeCompletions, curr, b[..|b| - 1]);
    BlockStandsAlone(storeCompletions, curr, b);
  }

  lemma {:induction false} QueuedBlocks(storeCompletions: bool, curr: Inst, blocks: seq<seq<Line>>)
    requires AreBlocks(blocks) && (!storeCompletions ==> curr.store == 0)
    ensures Queued(storeCompletions, curr, Lines(blocks)) == Insts(storeCompletions, blocks)
    decreases |blocks|
  {
    if blocks != [] {
      var b := blocks[0];
      if !storeCompletions {
        StoreStays(curr, b);
      }
      QueuedBlock(storeCompletions, curr, b);
      QueuedBlocks(storeCompletions, After(storeCompletions, curr, b), blocks[1..]);
      QueuedConcat(storeCompletions, curr, b, Lines(blocks[1..]));
    }
  }

  /** The main loop turns a trace of blocks into one instruction for each. */
  lemma BlocksAreInstructions(storeCompletions: bool, blocks: seq<seq<Line>>)
    requires AreBlocks(blocks)
    ensures Instructions(storeCompletions, Lines(blocks)) == Insts(storeCompletions, blocks)
  {
    QueuedIsInstructions(storeCompletions, Lines(blocks));
    QueuedBlocks(storeCompletions, NO_INST, blocks);
  }

  // ----- what is skipped -----

  /** The fetch of a block stays in its instruction. */
  lemma {:induction false} FetchStays(storeCompletions: bool, b: seq<Line>, n: nat)
    requires 0 < n <= |b| && b[0].Fetch? && forall k :: 0 < k < |b| ==> !b[k].Fetch?
    ensures var x := After(storeCompletions, NO_INST, b[..n]); x.fetch == b[0].tick && x.sn == b[0].sn
  {
    assert b[..n][..n - 1] == b[..n - 1];
    if n > 1 {
      FetchStays(storeCompletions, b, n - 1);
    } else {
      assert b[..0] == [];
    }
  }

  /**
   The region of interest starts with the first fetch at or after the first line that reaches the
   start tick or, if none is set, the first fetch that reaches the start number.
   */
  lemma {:induction false} RegionStarts(o: Options, lines: seq<Line>, a: nat, b: nat)
    requires a <= b < |lines| && lines[b].Fetch? && forall k :: a <= k < b ==> !lines[k].Fetch?
    requires if o.tickStart != 0 then
               && !lines[a].Other? && lines[a].tick >= o.tickStart
               && forall k :: 0 <= k < a ==> lines[k].Other? || lines[k].tick < o.tickStart
             else if o.snStart != 0 then
               && lines[a].Fetch? && lines[a].sn >= o.snStart
               && forall k :: 0 <= k < a ==> lines[k].Fetch? ==> lines[k].sn < o.snStart
             else a == 0
    ensures Region(o, lines) == lines[b..]
  {
    StartsAt(o, lines, a);
    assert lines[a..][b - a..] == lines[b..];
    FetchesAt(lines[a..], b - a);
  }

  lemma {:induction false} StartsAt(o: Options, lines: seq<Line>, a: nat)
    requires a < |lines| && Begins(o, lines[a]) && forall k :: 0 <= k < a ==> !Begins(o, lines[k])
    ensures FromStart(o, lines) == lines[a..]
  {
    if a > 0 {
      StartsAt(o, lines[1..], a - 1);
      assert lines[1..][a - 1..] == lines[a..];
    }
  }

  lemma {:induction false} FetchesAt(lines: seq<Line>, b: nat)
    requires b < |lines| && lines[b].Fetch? && forall k :: 0 <= k < b ==> !lines[k].Fetch?
    ensures FromFetch(lines) == lines[b..]
  {
    if b > 0 {
      FetchesAt(lines[1..], b - 1);
      assert lines[1..][b - 1..] == lines[b..];
    }
  }

  /** Without a line to start from, or a fetch after it, nothing is printed. */
  lemma {:induction false} NoRegion(o: Options, lines: seq<Line>)
    ensures Region(o, lines) != [] ==>
            exists a, b :: 0 <= a <= b < |lines| && lines[b].Fetch? && Region(o, lines) == lines[b..] &&
              (o.tickStart != 0 ==> !lines[a].Other? && lines[a].tick >= o.tickStart) &&
              (o.tickStart == 0 && o.snStart != 0 ==> lines[a].Fetch? && lines[a].sn >= o.snStart)
  {
    if Region(o, lines) != [] {
      var a := FromStartIsSuffix(o, lines);
      var m := FromFetchIsSuffix(lines[a..]);
      assert lines[a..][m..] == lines[a + m..] && lines[a..][m] == lines[a + m];
    }
  }

  lemma {:induction false} FromFetchIsSuffix(lines: seq<Line>) returns (n: nat)
    ensures n <= |lines| && FromFetch(lines) == lines[n..] && (n < |lines| ==> lines[n].Fetch?)
  {
    if lines == [] || lines[0].Fetch? {
      n := 0;
    } else {
      var m := FromFetchIsSuffix(lines[1..]);
      n := m + 1;
      assert lines[1..][m..] == lines[n..];
    }
  }

  /** With the thresholds of the viewer, a fetch stops it 2000 cycles or 2000 instructions past the range. */
  lemma StopsPastRange(v: Viewer, line: Line)
    ensures StopsAt(v.limits, v.options, v.tickDrift, line) <==>
            line.Fetch? && ((v.options.tickStop > 0 && line.tick - v.options.tickStop > v.tickDrift) ||
                            (v.options.snStop > 0 && line.sn - v.options.snStop > 2000))
  {
  }

  /** An instruction whose fetch does not start the region of interest is not shown. */
  lemma SkippedIsHidden(storeCompletions: bool, o: Options, b: seq<Line>)
    requires IsBlock(b) && !Begins(o, b[0]) && o.tickStart >= 0 && o.snStart >= 0
    ensures !Shown(o, InstOf(storeCompletions, b))
  {
    FetchStays(storeCompletions, b, |b|);
    assert b[..|b|] == b;
  }

  /** What is left from the start of the region on is a suffix. */
  lemma {:induction false} FromStartIsSuffix(o: Options, lines: seq<Line>) returns (n: nat)
    ensures n <= |lines| && FromStart(o, lines) == lines[n..]
    ensures n < |lines| ==> Begins(o, lines[n])
  {
    if lines == [] || Begins(o, lines[0]) {
      n := 0;
    } else {
      var m := FromStartIsSuffix(o, lines[1..]);
      n := m + 1;
      assert lines[1..][m..] == lines[n..];
    }
  }

  lemma {:induction false} FromStartSkips(o: Options, a: seq<Line>, b: seq<Line>)
    requires forall k :: 0 <= k < |a| ==> !Begins(o, a[k])
    ensures FromStart(o, a + b) == FromStart(o, b)
    decreases |a|
  {
    if a == [] {
      assert a + b == b;
    } else {
      FromStartSkips(o, a[1..], b);
      assert (a + b)[1..] == a[1..] + b;
    }
  }

  lemma {:induction false} FromStartStops(o: Options, a: seq<Line>, b: seq<Line>)
    requires exists k :: 0 <= k < |a| && Begins(o, a[k])
    ensures FromStart(o, a) != [] && FromStart(o, a + b) == FromStart(o, a) + b
    decreases |a|
  {
    if Begins(o, a[0]) {
      assert (a + b)[0] == a[0];
    } else {
      FromStartStops(o, a[1..], b);
      assert (a + b)[1..] == a[1..] + b;
    }
  }

  lemma {:induction false} FromFetchSkips(a: seq<Line>, b: seq<Line>)
    requires forall k :: 0 <= k < |a| ==> !a[k].Fetch?
    ensures FromFetch(a + b) == FromFetch(b)
    decreases |a|
  {
    if a == [] {
      assert a + b == b;
    } else {
      FromFetchSkips(a[1..], b);
      assert (a + b)[1..] == a[1..] + b;
    }
  }

  /** No instruction of the first n blocks is shown. */
  ghost predicate HiddenUpTo(storeCompletions: bool, o: Options, blocks: seq<seq<Line>>, n: nat) {
    n <= |blocks| && forall k :: 0 <= k < n ==> !Shown(o, InstOf(storeCompletions, blocks[k]))
  }

  lemma {:induction false} HiddenMore(storeCompletions: bool, o: Options, blocks: seq<seq<Line>>, m: nat)
    requires blocks != [] && !Shown(o, InstOf(storeCompletions, blocks[0]))
    requires HiddenUpTo(storeCompletions, o, blocks[1..], m)
    ensures HiddenUpTo(storeCompletions, o, blocks, m + 1) && blocks[m + 1..] == blocks[1..][m..]
  {
    forall k | 0 <= k < m + 1 ensures !Shown(o, InstOf(storeCompletions, blocks[k])) {
      if k > 0 {
        assert blocks[k] == blocks[1..][k - 1];
      }
    }
  }

  lemma {:induction false} RegionIsAll(o: Options, blocks: seq<seq<Line>>)
    requires AreBlocks(blocks) && blocks != [] && Begins(o, blocks[0][0])
    ensures Region(o, Lines(blocks)) == Lines(blocks)
  {
    FromFetchOfBlocks(blocks);
    assert Lines(blocks)[0] == blocks[0][0];
  }

  /** The region of interest of a trace of blocks is a suffix of whole blocks; nothing that is left out is shown. */
  lemma {:induction false} RegionOfBlocks(storeCompletions: bool, o: Options, blocks: seq<seq<Line>>) returns (n: nat)
    requires AreBlocks(blocks) && o.tickStart >= 0 && o.snStart >= 0
    ensures HiddenUpTo(storeCompletions, o, blocks, n) && Region(o, Lines(blocks)) == Lines(blocks[n..])
    decreases |blocks|
  {
    n := 0;
    assert blocks[0..] == blocks;
    if blocks == [] {
    } else if Begins(o, blocks[0][0]) {
      RegionIsAll(o, blocks);
    } else {
      var b, rest := blocks[0], blocks[1..];
      SkippedIsHidden(storeCompletions, o, b);
      var m := 0;
      if exists k :: 0 <= k < |b| && Begins(o, b[k]) {
        RestOfBlock(o, b, rest);
        assert rest[0..] == rest;
      } else {
        m := RegionOfBlocks(storeCompletions, o, rest);
        FromStartSkips(o, b, Lines(rest));
      }
      HiddenMore(storeCompletions, o, blocks, m);
      n := m + 1;
    }
  }

  lemma RestOfBlock(o: Options, b: seq<Line>, rest: seq<seq<Line>>)
    requires IsBlock(b) && AreBlocks(rest) && !Begins(o, b[0]) && exists k :: 0 <= k < |b| && Begins(o, b[k])
    ensures Region(o, b + Lines(rest)) == Lines(rest)
  {
    FromStartStops(o, b, Lines(rest));
    var n := FromStartIsSuffix(o, b);
    FromFetchSkips(b[n..], Lines(rest));
    FromFetchOfBlocks(rest);
  }

  lemma FromFetchOfBlocks(blocks: seq<seq<Line>>)
    requires AreBlocks(blocks)
    ensures FromFetch(Lines(blocks)) == Lines(blocks)
  {
    if blocks != [] {
      assert Lines(blocks)[0] == blocks[0][0];
    }
  }

  lemma {:induction false} FilterHidden(storeCompletions: bool, o: Options, blocks: seq<seq<Line>>, n: nat)
    requires n <= |blocks| && forall k :: 0 <= k < n ==> !Shown(o, InstOf(storeCompletions, blocks[k]))
    ensures Filter(o, Insts(storeCompletions, blocks)) == Filter(o, Insts(storeCompletions, blocks[n..]))
    decreases n
  {
    if n == 0 {
      assert blocks[0..] == blocks;
    } else {
      var rest := blocks[1..];
      FilterHidden(storeCompletions, o, rest, n - 1);
      assert rest[n - 1..] == blocks[n..];
      FilterConcat(o, [InstOf(storeCompletions, blocks[0])], Insts(storeCompletions, rest));
      FilterNext(o, [], InstOf(storeCompletions, blocks[0]));
      assert [] + [InstOf(storeCompletions, blocks[0])] == [InstOf(storeCompletions, blocks[0])];
    }
  }

  /**
   From lines to printout: whatever the region of interest, the instructions printed are those of
   the whole trace that pass the filters, once for each block.
   */
  lemma TracePrintsShown(limits: Limits, storeCompletions: bool, o: Options, blocks: seq<seq<Line>>)
    requires AreBlocks(blocks) && o.tickStart >= 0 && o.snStart >= 0
    ensures multiset(Printed(limits, o, Instructions(storeCompletions, Region(o, Lines(blocks))))) ==
            multiset(Filter(o, Insts(storeCompletions, blocks)))
  {
    var n := RegionOfBlocks(storeCompletions, o, blocks);
    BlocksAreInstructions(storeCompletions, blocks[n..]);
    PrintedIsComplete(limits, o, Insts(storeCompletions, blocks[n..]));
    FilterHidden(storeCompletions, o, blocks, n);
  }
}
