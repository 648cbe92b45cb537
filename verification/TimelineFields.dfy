/**
 util/o3-pipeview.py: what a timeline shows of an instruction, in terms of its fields: which letter
 stands for which tick, on which line and in which cell.
 */
module TimelineFields {
  import opened Arithmetic
  import opened Text
  import opened ReorderBuffer
  import opened Timeline

  // ----- lines -----

  /** A tick on line i: the quotient by the ticks of a line, counted from the line of the fetch. */
  ghost function LineOf(v: View, x: Inst, tick: nat): nat
    requires v.Valid() && tick >= x.fetch
  {
    DivMono(x.fetch, tick, v.TimeWidth());
    if LineCount(v, x) == 1 then 0 else tick / v.TimeWidth() - x.fetch / v.TimeWidth()
  }

  /** One cell for each cycle, `width` cells to a line. */
  lemma ColumnIs(v: View, tick: nat)
    requires v.Valid()
    ensures v.width * v.cycle > 0 && Column(v, tick) == (tick % (v.width * v.cycle)) / v.cycle
  {
    Positive(v.width, v.cycle);
  }

  lemma LineOfStage(v: View, x: Inst, s: Stage)
    requires v.Valid() && s < v.Stages() && Tick(x, s) >= x.fetch
    ensures LineOf(v, x, Tick(x, s)) == LineFor(v, x, s)
  {
    var w, q := v.TimeWidth(), x.fetch / v.TimeWidth();
    var a := Tick(x, s);
    DivMod(a, w);
    DivMono(x.fetch, a, w);
    assert BaseTick(v, x) == q * w by {
      BaseIs(v, x);
    }
    assert (a / w - q) * w == (a / w) * w - q * w;
    DivModUnique(a - q * w, a / w - q, w, a % w);
  }

  lemma BaseIs(v: View, x: Inst)
    requires v.Valid()
    ensures BaseTick(v, x) == (x.fetch / v.TimeWidth()) * v.TimeWidth()
  {
    var w, b := v.TimeWidth(), BaseTick(v, x);
    DivMod(b, w);
    QuotientUnique(x.fetch, b / w, w);
  }

  /** The latest tick of an instruction; the store counts only if it is shown. */
  lemma LatestIs(v: View, x: Inst)
    ensures var last := LastTick(x, v.Stages());
            && x.fetch <= last && x.decode <= last && x.rename <= last && x.dispatch <= last
            && x.issue <= last && x.complete <= last && x.retire <= last && (v.storeCompletions ==> x.store <= last)
            && (last in {x.fetch, x.decode, x.rename, x.dispatch, x.issue, x.complete, x.retire} ||
                (v.storeCompletions && last == x.store))
  {
    AllTicks(x);
    var last := LastTick(x, v.Stages());
    assert Tick(x, 0) <= last && Tick(x, 1) <= last && Tick(x, 2) <= last && Tick(x, 3) <= last;
    assert Tick(x, 4) <= last && Tick(x, 5) <= last && Tick(x, 6) <= last;
  }

  lemma AllTicks(x: Inst)
    ensures Tick(x, 0) == x.fetch && Tick(x, 1) == x.decode && Tick(x, 2) == x.rename && Tick(x, 3) == x.dispatch
    ensures Tick(x, 4) == x.issue && Tick(x, 5) == x.complete && Tick(x, 6) == x.retire && Tick(x, 7) == x.store
  {
  }

  /**
   A timeline has one line if its latest tick is less than a line's ticks after the fetch, and
   otherwise ends with the line of its latest tick.
   */
  lemma LineCountIs(v: View, x: Inst)
    requires v.Valid()
    ensures LineCount(v, x) == 1 <==> LastTick(x, v.Stages()) < x.fetch + v.width * v.cycle
    ensures LineCount(v, x) > 1 ==>
              x.fetch <= LastTick(x, v.Stages()) && LineCount(v, x) == LineOf(v, x, LastTick(x, v.Stages())) + 1
  {
    if LineCount(v, x) == 1 {
      OneLineIsCompact(v, x);
    }
    LatestIs(v, x);
    var s: Stage :| s < v.Stages() && Tick(x, s) == LastTick(x, v.Stages());
    LineOfStage(v, x, s);
  }

  // ----- letters -----

  /** The letter stands in the cell of this tick, on the line of this tick, if that line has no clashes. */
  ghost predicate Marked(v: View, x: Inst, tick: nat, letter: char)
    requires v.Valid()
  {
    tick != 0 && tick >= x.fetch ==>
      var i := LineOf(v, x, tick);
      i < LineCount(v, x) && (|LineText(v, x, i)| == v.width ==> LineText(v, x, i)[Column(v, tick)] == letter)
  }

  lemma StageMarked(v: View, x: Inst, s: Stage)
    requires v.Valid() && s < v.Stages() && !Skipped(x, s)
    ensures Marked(v, x, Tick(x, s), SHORTHANDS[s])
  {
    if Tick(x, s) != 0 && Tick(x, s) >= x.fetch {
      OnExactlyOneLine(v, x, s);
      LineOfStage(v, x, s);
      var i := LineFor(v, x, s);
      if |LineText(v, x, i)| == v.width {
        LineFits(v, x, i);
        LineShowsStage(v, x, i, s);
      }
    }
  }

  /** Which letter each tick of an instruction is drawn as. */
  lemma FieldsMarked(v: View, x: Inst)
    requires v.Valid()
    ensures Marked(v, x, x.fetch, 'f') && Marked(v, x, x.decode, 'd') && Marked(v, x, x.rename, 'n')
    ensures x.dispatch != x.issue ==> Marked(v, x, x.dispatch, 'p')
    ensures Marked(v, x, x.issue, 'i') && Marked(v, x, x.complete, 'c') && Marked(v, x, x.retire, 'r')
    ensures v.storeCompletions ==> Marked(v, x, x.store, 's')
  {
    AllTicks(x);
    assert SHORTHANDS == ['f', 'd', 'n', 'p', 'i', 'c', 'r', 's'];
    StageMarked(v, x, 0);
    StageMarked(v, x, 1);
    StageMarked(v, x, 2);
    if x.dispatch != x.issue {
      StageMarked(v, x, 3);
    }
    StageMarked(v, x, 4);
    StageMarked(v, x, 5);
    StageMarked(v, x, 6);
    if v.storeCompletions {
      StageMarked(v, x, 7);
    }
  }

  /** A tick of line i that falls into cell c. */
  ghost predicate Falls(v: View, x: Inst, i: nat, c: nat, tick: nat)
    requires v.Valid()
  {
    tick != 0 && StartTick(v, x, i) <= tick < EndTick(v, x, i) && Column(v, tick) == c
  }

  /** All other cells tell whether the instruction retired. */
  lemma OtherCells(v: View, x: Inst, i: nat, c: nat)
    requires v.Valid() && |LineText(v, x, i)| == v.width && c < v.width
    requires !Falls(v, x, i, c, x.fetch) && !Falls(v, x, i, c, x.decode) && !Falls(v, x, i, c, x.rename)
    requires x.dispatch != x.issue ==> !Falls(v, x, i, c, x.dispatch)
    requires !Falls(v, x, i, c, x.issue) && !Falls(v, x, i, c, x.complete) && !Falls(v, x, i, c, x.retire)
    requires v.storeCompletions ==> !Falls(v, x, i, c, x.store)
    ensures LineText(v, x, i)[c] == if x.retire == 0 then '=' else '.'
  {
    AllTicks(x);
    LineFits(v, x, i);
    LineShowsDots(v, x, i, c);
  }

  /** The ticks that are drawn: a dispatch only if it is not also the issue, and the store only if it is asked for. */
  ghost function DrawnTicks(v: View, x: Inst): seq<nat> {
    [x.fetch, x.decode, x.rename] + (if x.dispatch != x.issue then [x.dispatch] else []) +
    [x.issue, x.complete, x.retire] + (if v.storeCompletions then [x.store] else [])
  }

  /** The stage of the k-th drawn tick. */
  ghost function StageAt(x: Inst, k: nat): nat {
    if k < 3 || x.dispatch != x.issue then k else k + 1
  }

  lemma DrawnStage(v: View, x: Inst, k: nat)
    requires k < |DrawnTicks(v, x)|
    ensures StageAt(x, k) < v.Stages() && DrawnTicks(v, x)[k] == Tick(x, StageAt(x, k)) && !Skipped(x, StageAt(x, k))
  {
    AllTicks(x);
  }

  lemma StageDrawn(v: View, x: Inst, s: Stage) returns (k: nat)
    requires s < v.Stages() && !Skipped(x, s)
    ensures k < |DrawnTicks(v, x)| && StageAt(x, k) == s
  {
    k := if s < 3 || x.dispatch != x.issue then s else s - 1;
  }

  /** No two drawn ticks of line i fall into one cell. */
  ghost predicate Apart(v: View, x: Inst, i: nat)
    requires v.Valid()
  {
    forall j, k, c :: 0 <= j < k < |DrawnTicks(v, x)| ==>
      !(Falls(v, x, i, c, DrawnTicks(v, x)[j]) && Falls(v, x, i, c, DrawnTicks(v, x)[k]))
  }

  lemma ApartMeans(v: View, x: Inst, i: nat, j: nat, k: nat)
    requires v.Valid() && Apart(v, x, i) && j < |DrawnTicks(v, x)| && k < |DrawnTicks(v, x)| && j != k
    requires StartTick(v, x, i) <= DrawnTicks(v, x)[j] < EndTick(v, x, i) && DrawnTicks(v, x)[j] != 0
    requires StartTick(v, x, i) <= DrawnTicks(v, x)[k] < EndTick(v, x, i) && DrawnTicks(v, x)[k] != 0
    ensures Column(v, DrawnTicks(v, x)[j]) != Column(v, DrawnTicks(v, x)[k])
  {
    var a, b := DrawnTicks(v, x)[j], DrawnTicks(v, x)[k];
    var c := Column(v, a);
    assert Falls(v, x, i, c, a);
    if Column(v, b) == c {
      assert Falls(v, x, i, c, b);
    }
  }

  /** A line is `width` cells long exactly if no two of its drawn ticks fall into one cell. */
  lemma LineFitsIff(v: View, x: Inst, i: nat)
    requires v.Valid()
    ensures |LineText(v, x, i)| == v.width <==> Apart(v, x, i)
  {
    LineFits(v, x, i);
    if DistinctCells(v, x, i) {
      forall j, k, c | 0 <= j < k < |DrawnTicks(v, x)|
        ensures !(Falls(v, x, i, c, DrawnTicks(v, x)[j]) && Falls(v, x, i, c, DrawnTicks(v, x)[k]))
      {
        DrawnStage(v, x, j);
        DrawnStage(v, x, k);
        var s: Stage, t: Stage := StageAt(x, j), StageAt(x, k);
        assert s != t;
        if Drawn(v, x, i, s) && Drawn(v, x, i, t) {
          assert Cell(v, x, s) != Cell(v, x, t);
        }
      }
    }
    if Apart(v, x, i) {
      forall s: Stage, t: Stage | Drawn(v, x, i, s) && Drawn(v, x, i, t) && s != t
        ensures Cell(v, x, s) != Cell(v, x, t)
      {
        var j := StageDrawn(v, x, s);
        var k := StageDrawn(v, x, t);
        DrawnStage(v, x, j);
        DrawnStage(v, x, k);
        ApartMeans(v, x, i, j, k);
      }
    }
  }

  /** Nothing can be drawn exactly if all ticks that are shown are zero. */
  lemma AllZeroIff(v: View, x: Inst)
    ensures AllZero(v, x) <==>
            && x.fetch == x.decode == x.rename == x.dispatch == x.issue == x.complete == x.retire == 0
            && (v.storeCompletions ==> x.store == 0)
  {
    AllTicks(x);
    if AllZero(v, x) {
      assert Tick(x, 0) == Tick(x, 1) == Tick(x, 2) == Tick(x, 3) == 0;
      assert Tick(x, 4) == Tick(x, 5) == Tick(x, 6) == 0;
    }
  }

  // ----- ties -----

  const STAGE_NAMES := ["fetch", "decode", "rename", "dispatch", "issue", "complete", "retire", "store"]

  /** Stages are ranked by name. */
  lemma RanksFollowNames(s: Stage, t: Stage)
    requires NameRank(s) < NameRank(t)
    ensures Precedes(STAGE_NAMES[s], STAGE_NAMES[t])
  {
    StringLeIff(STAGE_NAMES[s], STAGE_NAMES[t]);
    FirstLetters(s, t);
  }

  lemma FirstLetters(s: Stage, t: Stage)
    requires NameRank(s) < NameRank(t)
    ensures StringLe(STAGE_NAMES[s], STAGE_NAMES[t]) && STAGE_NAMES[s] != STAGE_NAMES[t]
  {
    var a, b := STAGE_NAMES[s], STAGE_NAMES[t];
    if a[0] == b[0] {
      assert (s, t) == (1, 3) || (s, t) == (2, 6);
      assert a[1..][0] == a[1] && b[1..][0] == b[1];
      if a[1] == b[1] {
        assert a[1..][1..][0] == a[2] && b[1..][1..][0] == b[2];
        assert a[2] < b[2];
      } else {
        assert a[1] < b[1];
      }
    } else {
      assert a[0] < b[0];
    }
  }

  /** The marks of a line stand in the order of their ticks, and equal ticks in the order of the stage names. */
  lemma MarksInOrder(v: View, x: Inst, i: nat, j: nat, k: nat)
    requires v.Valid() && j < k < |Marks(v, x, i)|
    ensures var a, b := Marks(v, x, i)[j], Marks(v, x, i)[k];
            a.offset < b.offset || (a.offset == b.offset && Precedes(STAGE_NAMES[a.stage], STAGE_NAMES[b.stage]))
  {
    MarksHold(v, x, i);
    SameStage(v, x, i, j, k);
    var a, b := Marks(v, x, i)[j], Marks(v, x, i)[k];
    assert a in Marks(v, x, i) && b in Marks(v, x, i);
    assert EventLe(a, b);
    if a.offset == b.offset {
      RanksDiffer(a.stage, b.stage);
      RanksFollowNames(a.stage, b.stage);
    }
  }

  lemma RanksDiffer(s: Stage, t: Stage)
    requires s != t
    ensures NameRank(s) != NameRank(t)
  {
  }
}
