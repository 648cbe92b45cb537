/**
 util/o3-pipeview.py: the timeline that is printed for one instruction. Its stage ticks are spread
 over one or more lines of `width` cells, one cell for each cycle.
 */
module Timeline {
  import opened Arithmetic
  import opened Sequences
  import opened Text
  import opened ReorderBuffer

  const SHORTHANDS := "fdnpicrs"

  /** Stage 3 is dispatch and stage 4 is issue. */
  const DISPATCH := 3

  datatype View = View(width: nat, cycle: nat, storeCompletions: bool) {
    ghost predicate Valid() {
      width > 0 && cycle > 0
    }

    function Stages(): (n: nat)
      ensures 7 <= n <= 8
    {
      if storeCompletions then 8 else 7
    }

    function TimeWidth(): (w: nat)
      requires Valid()
      ensures w > 0
    {
      Positive(width, cycle);
      width * cycle
    }
  }

  lemma Positive(a: nat, b: nat)
    requires a > 0 && b > 0
    ensures a * b > 0
  {
  }

  /** The tick of each pipeline stage, in stage order. */
  function Tick(x: Inst, stage: nat): nat
    requires stage < 8
  {
    [x.fetch, x.decode, x.rename, x.dispatch, x.issue, x.complete, x.retire, x.store][stage]
  }

  // ----- the lines of a timeline -----

  function LastTick(x: Inst, n: nat): (last: nat)
    requires 0 < n <= 8
    ensures forall s :: 0 <= s < n ==> Tick(x, s) <= last
    ensures exists s :: 0 <= s < n && Tick(x, s) == last
  {
    if n == 1 then assert Tick(x, 0) == x.fetch; x.fetch
    else
      var before := LastTick(x, n - 1);
      assert Tick(x, n - 1) <= before || Tick(x, n - 1) > before;
      if Tick(x, n - 1) > before then Tick(x, n - 1) else before
  }

  function BaseTick(v: View, x: Inst): (b: nat)
    requires v.Valid()
    ensures b <= x.fetch < b + v.TimeWidth() && b % v.TimeWidth() == 0
  {
    var w := v.TimeWidth();
    DivMod(x.fetch, w);
    MultipleMod(x.fetch / w, w);
    (x.fetch / w) * w
  }

  lemma MultipleMod(q: nat, m: nat)
    requires m > 0
    ensures (q * m) % m == 0 && q * m >= 0
  {
    DivModUnique(q * m, q, m, 0);
  }

  /** A timeline shorter than one line wraps around on that line. */
  predicate Compact(v: View, x: Inst)
    requires v.Valid()
  {
    LastTick(x, v.Stages()) - x.fetch < v.TimeWidth()
  }

  function LineCount(v: View, x: Inst): (n: nat)
    requires v.Valid()
    ensures n > 0
  {
    if Compact(v, x) then 1
    else
      assert Tick(x, 0) == x.fetch;
      (LastTick(x, v.Stages()) - BaseTick(v, x)) / v.TimeWidth() + 1
  }

  /** The tick at which line i starts, and the tick before which it ends. */
  function StartTick(v: View, x: Inst, i: nat): nat
    requires v.Valid()
  {
    BaseTick(v, x) + i * v.TimeWidth()
  }

  function EndTick(v: View, x: Inst, i: nat): nat
    requires v.Valid()
  {
    StartTick(v, x, i) + v.TimeWidth() + if LineCount(v, x) == 1 then x.fetch - BaseTick(v, x) else 0
  }

  /** Stage s has an event on line i. */
  predicate OnLine(v: View, x: Inst, i: nat, s: nat)
    requires v.Valid() && s < v.Stages()
  {
    Tick(x, s) != 0 && StartTick(v, x, i) <= Tick(x, s) < EndTick(v, x, i)
  }

  /** The dispatch mark gives way to the issue mark when both have the same tick. */
  predicate Skipped(x: Inst, s: nat) {
    s == DISPATCH && x.dispatch == x.issue
  }

  /** The cell of a tick on its line. */
  function Column(v: View, tick: nat): (c: nat)
    requires v.Valid()
    ensures c < v.width
  {
    var w := v.TimeWidth();
    CellBound(tick % w, v.width, v.cycle);
    (tick % w) / v.cycle
  }

  function Cell(v: View, x: Inst, s: nat): (c: nat)
    requires v.Valid() && s < v.Stages()
    ensures c < v.width
  {
    Column(v, Tick(x, s))
  }

  lemma CellBound(offset: nat, width: nat, cycle: nat)
    requires cycle > 0 && offset < width * cycle
    ensures offset / cycle < width
  {
    DivMod(offset, cycle);
    if offset / cycle >= width {
      MulMonotone(width, offset / cycle, cycle);
    }
  }

  /** In a timeline of several lines, line i holds exactly the ticks of its time span. */
  lemma OnLineIff(v: View, x: Inst, i: nat, s: nat)
    requires v.Valid() && s < v.Stages() && Tick(x, s) != 0 && Tick(x, s) >= x.fetch && LineCount(v, x) != 1
    ensures OnLine(v, x, i, s) <==> (Tick(x, s) - BaseTick(v, x)) / v.TimeWidth() == i
  {
    var w, a := v.TimeWidth(), Tick(x, s) - BaseTick(v, x);
    DivMod(a, w);
    if i * w <= a < i * w + w {
      QuotientUnique(a, i, w);
    }
  }

  /** The line on which a tick that is not before fetch is drawn. */
  ghost function LineFor(v: View, x: Inst, s: nat): nat
    requires v.Valid() && s < v.Stages() && Tick(x, s) >= x.fetch
  {
    if LineCount(v, x) == 1 then 0 else (Tick(x, s) - BaseTick(v, x)) / v.TimeWidth()
  }

  /** Every nonzero stage tick that is not before fetch has an event on exactly one line. */
  lemma OnExactlyOneLine(v: View, x: Inst, s: nat)
    requires v.Valid() && s < v.Stages() && Tick(x, s) != 0 && Tick(x, s) >= x.fetch
    ensures LineFor(v, x, s) < LineCount(v, x)
    ensures forall i :: 0 <= i < LineCount(v, x) ==> (OnLine(v, x, i, s) <==> i == LineFor(v, x, s))
  {
    if LineCount(v, x) == 1 {
      OneLineIsCompact(v, x);
      assert StartTick(v, x, 0) == BaseTick(v, x);
    } else {
      LineForBelow(v, x, s);
      forall i | 0 <= i < LineCount(v, x) ensures OnLine(v, x, i, s) <==> i == LineFor(v, x, s) {
        OnLineIff(v, x, i, s);
      }
    }
  }

  lemma LineForBelow(v: View, x: Inst, s: nat)
    requires v.Valid() && s < v.Stages() && Tick(x, s) >= x.fetch && LineCount(v, x) != 1
    ensures LineFor(v, x, s) < LineCount(v, x)
  {
    DivMono(Tick(x, s) - BaseTick(v, x), LastTick(x, v.Stages()) - BaseTick(v, x), v.TimeWidth());
  }

  // ----- the events of one line -----

  type Stage = s: nat | s < 8

  /** The position of a stage name in alphabetical order, which breaks ties between events. */
  function NameRank(s: Stage): nat {
    [3, 1, 5, 2, 4, 0, 6, 7][s]
  }

  datatype Event = Event(offset: nat, rank: nat, stage: Stage)

  predicate EventLe(a: Event, b: Event) {
    if a.offset != b.offset then a.offset < b.offset else a.rank <= b.rank
  }

  function EventOf(v: View, x: Inst, s: Stage): Event
    requires v.Valid()
  {
    Event(Tick(x, s) % v.TimeWidth(), NameRank(s), s)
  }

  /** The events of line i among the first n stages, in stage order. */
  function Collect(v: View, x: Inst, i: nat, n: nat): seq<Event>
    requires v.Valid() && n <= v.Stages()
  {
    if n == 0 then []
    else Collect(v, x, i, n - 1) + (if OnLine(v, x, i, n - 1) then [EventOf(v, x, n - 1)] else [])
  }

  function InsertEvent(es: seq<Event>, e: Event): seq<Event> {
    if es == [] || EventLe(es[|es| - 1], e) then es + [e]
    else InsertEvent(es[..|es| - 1], e) + [es[|es| - 1]]
  }

  /** `events.sort()` */
  function SortEvents(es: seq<Event>): seq<Event> {
    if es == [] then [] else InsertEvent(SortEvents(es[..|es| - 1]), es[|es| - 1])
  }

  /** The marks that are drawn: all events but a skipped dispatch. */
  function Unskipped(x: Inst, es: seq<Event>): seq<Event> {
    if es == [] then []
    else Unskipped(x, es[..|es| - 1]) + (if Skipped(x, es[|es| - 1].stage) then [] else [es[|es| - 1]])
  }

  function Marks(v: View, x: Inst, i: nat): seq<Event>
    requires v.Valid()
  {
    Unskipped(x, SortEvents(Collect(v, x, i, v.Stages())))
  }

  ghost predicate Ordered(es: seq<Event>) {
    forall i, j :: 0 <= i < j < |es| ==> EventLe(es[i], es[j])
  }

  /** e is the event of a stage below n on line i. */
  ghost predicate IsEvent(v: View, x: Inst, i: nat, n: nat, e: Event)
    requires v.Valid() && n <= v.Stages()
  {
    e.stage < n && OnLine(v, x, i, e.stage) && e == EventOf(v, x, e.stage)
  }

  lemma {:induction false} CollectHolds(v: View, x: Inst, i: nat, n: nat)
    requires v.Valid() && n <= v.Stages()
    ensures NoDups(Collect(v, x, i, n))
    ensures forall e :: e in Collect(v, x, i, n) <==> IsEvent(v, x, i, n, e)
  {
    if n > 0 {
      CollectHolds(v, x, i, n - 1);
      var before := Collect(v, x, i, n - 1);
      var last := EventOf(v, x, n - 1);
      assert !IsEvent(v, x, i, n - 1, last);
      assert forall e :: IsEvent(v, x, i, n, e) <==>
        IsEvent(v, x, i, n - 1, e) || (OnLine(v, x, i, n - 1) && e == last);
      assert forall k :: 0 <= k < |before| ==> before[k] in before;
    }
  }

  lemma {:induction false} InsertEventPermutes(es: seq<Event>, e: Event)
    ensures multiset(InsertEvent(es, e)) == multiset(es) + multiset{e}
  {
    if es != [] && !EventLe(es[|es| - 1], e) {
      InsertEventPermutes(es[..|es| - 1], e);
      assert es == es[..|es| - 1] + [es[|es| - 1]];
    }
  }

  lemma {:induction false} InsertEventOrders(es: seq<Event>, e: Event)
    requires Ordered(es)
    ensures Ordered(InsertEvent(es, e))
  {
    if es == [] {
    } else if EventLe(es[|es| - 1], e) {
      assert forall i :: 0 <= i < |es| - 1 ==> EventLe(es[i], es[|es| - 1]);
    } else {
      var k := |es| - 1;
      InsertEventOrders(es[..k], e);
      InsertEventPermutes(es[..k], e);
      var rest := InsertEvent(es[..k], e);
      forall j | 0 <= j < |rest| ensures EventLe(rest[j], es[k]) {
        assert rest[j] in multiset(rest);
        assert rest[j] == e || rest[j] in es[..k];
      }
    }
  }

  lemma {:induction false} SortEventsSorts(es: seq<Event>)
    ensures Ordered(SortEvents(es)) && multiset(SortEvents(es)) == multiset(es)
  {
    if es != [] {
      var k := |es| - 1;
      SortEventsSorts(es[..k]);
      InsertEventOrders(SortEvents(es[..k]), es[k]);
      InsertEventPermutes(SortEvents(es[..k]), es[k]);
      assert es == es[..k] + [es[k]];
    }
  }

  lemma {:induction false} UnskippedHolds(x: Inst, es: seq<Event>)
    requires NoDups(es) && Ordered(es)
    ensures NoDups(Unskipped(x, es)) && Ordered(Unskipped(x, es))
    ensures forall e :: e in Unskipped(x, es) <==> e in es && !Skipped(x, e.stage)
  {
    if es != [] {
      var k := |es| - 1;
      UnskippedHolds(x, es[..k]);
      assert es == es[..k] + [es[k]];
      var before := Unskipped(x, es[..k]);
      forall i | 0 <= i < |before| ensures before[i] != es[k] && EventLe(before[i], es[k]) {
        assert before[i] in before;
        var j :| 0 <= j < k && es[..k][j] == before[i];
      }
    }
  }

  /** Stage s is drawn on line i. */
  ghost predicate Drawn(v: View, x: Inst, i: nat, s: Stage)
    requires v.Valid()
  {
    s < v.Stages() && OnLine(v, x, i, s) && !Skipped(x, s)
  }

  /** The marks of a line: each stage with an event there, once, ordered by tick. */
  lemma MarksHold(v: View, x: Inst, i: nat)
    requires v.Valid()
    ensures NoDups(Marks(v, x, i)) && Ordered(Marks(v, x, i))
    ensures forall e :: e in Marks(v, x, i) <==> Drawn(v, x, i, e.stage) && e == EventOf(v, x, e.stage)
  {
    var es := Collect(v, x, i, v.Stages());
    CollectHolds(v, x, i, v.Stages());
    SortEventsSorts(es);
    PermutedNoDups(es, SortEvents(es));
    UnskippedHolds(x, SortEvents(es));
    forall e ensures e in SortEvents(es) <==> e in es {
      assert e in Elems(es) <==> e in Elems(SortEvents(es));
    }
  }

  // ----- drawing a line -----

  function Dots(n: int, dot: char): (s: string)
    ensures |s| == (if n < 0 then 0 else n) && forall k :: 0 <= k < |s| ==> s[k] == dot
  {
    if n <= 0 then "" else Dots(n - 1, dot) + [dot]
  }

  /** The cell after the last mark. */
  function Pos(cells: seq<nat>): nat {
    if cells == [] then 0 else cells[|cells| - 1] + 1
  }

  /** The text written for marks at the given cells. */
  function Draw(cells: seq<nat>, marks: string, dot: char): string
    requires |cells| == |marks|
  {
    if cells == [] then ""
    else
      var k := |cells| - 1;
      Draw(cells[..k], marks[..k], dot) + Dots(cells[k] - Pos(cells[..k]), dot) + [marks[k]]
  }

  function DrawLine(width: nat, cells: seq<nat>, marks: string, dot: char): string
    requires |cells| == |marks|
  {
    Draw(cells, marks, dot) + Dots(width - Pos(cells), dot)
  }

  ghost predicate NonDecreasing(cells: seq<nat>) {
    forall i, j :: 0 <= i < j < |cells| ==> cells[i] <= cells[j]
  }

  /** How many marks share the cell of the mark before them. */
  ghost function Clashes(cells: seq<nat>): nat {
    if |cells| <= 1 then 0
    else Clashes(cells[..|cells| - 1]) + (if cells[|cells| - 1] == cells[|cells| - 2] then 1 else 0)
  }

  lemma {:induction false} ClashesIffRepeated(cells: seq<nat>)
    requires NonDecreasing(cells)
    ensures Clashes(cells) == 0 <==> NoDups(cells)
  {
    if |cells| > 1 {
      var k := |cells| - 1;
      ClashesIffRepeated(cells[..k]);
      if NoDups(cells[..k]) && cells[k] != cells[k - 1] {
        assert forall i :: 0 <= i < k ==> cells[i] <= cells[k - 1] < cells[k];
      }
    }
  }

  lemma {:induction false} DrawLength(cells: seq<nat>, marks: string, dot: char)
    requires |cells| == |marks| && NonDecreasing(cells)
    ensures |Draw(cells, marks, dot)| == Pos(cells) + Clashes(cells)
  {
    if cells != [] {
      var k := |cells| - 1;
      DrawLength(cells[..k], marks[..k], dot);
      if k > 0 {
        assert cells[k - 1] <= cells[k];
      }
    }
  }

  /** A drawn line is `width` cells long exactly when no two marks fall into the same cell. */
  lemma LineLength(width: nat, cells: seq<nat>, marks: string, dot: char)
    requires |cells| == |marks| && NonDecreasing(cells) && forall c :: c in cells ==> c < width
    ensures |DrawLine(width, cells, marks, dot)| == width + Clashes(cells)
    ensures |DrawLine(width, cells, marks, dot)| == width <==> NoDups(cells)
  {
    DrawLength(cells, marks, dot);
    ClashesIffRepeated(cells);
    if cells != [] {
      assert cells[|cells| - 1] in cells;
    }
  }

  /** What a drawn text shows in cell c. */
  ghost predicate Shows(text: string, cells: seq<nat>, marks: string, dot: char)
    requires |cells| == |marks|
  {
    && (forall k :: 0 <= k < |cells| ==> cells[k] < |text| && text[cells[k]] == marks[k])
    && (forall c :: 0 <= c < |text| && c !in cells ==> text[c] == dot)
  }

  /** Appending dots and one mark further to the right. */
  lemma ShowsMore(text: string, cells: seq<nat>, marks: string, dot: char, gap: nat, mark: char)
    requires |cells| == |marks| && Shows(text, cells, marks, dot)
    ensures Shows(text + Dots(gap, dot), cells, marks, dot)
    ensures Shows(text + Dots(gap, dot) + [mark], cells + [|text| + gap], marks + [mark], dot)
  {
    var dots := Dots(gap, dot);
    var longer := text + dots + [mark];
    var more := cells + [|text| + gap];
    assert forall c :: c in more <==> c in cells || c == |text| + gap;
  }

  ghost predicate StrictlyIncreasing(cells: seq<nat>) {
    forall i, j :: 0 <= i < j < |cells| ==> cells[i] < cells[j]
  }

  /** A text that shows all cells but the last shows all of them once dots and the last mark are appended. */
  lemma ShowsLast(text: string, cells: seq<nat>, marks: string, dot: char, gap: nat)
    requires |cells| == |marks| > 0 && |text| + gap == cells[|cells| - 1]
    requires Shows(text, cells[..|cells| - 1], marks[..|marks| - 1], dot)
    ensures Shows(text + Dots(gap, dot) + [marks[|marks| - 1]], cells, marks, dot)
  {
    var k := |cells| - 1;
    ShowsMore(text, cells[..k], marks[..k], dot, gap, marks[k]);
    SplitLast(cells);
    SplitLast(marks);
  }

  lemma {:induction false} DrawFills(cells: seq<nat>, marks: string, dot: char)
    requires |cells| == |marks| && StrictlyIncreasing(cells)
    ensures |Draw(cells, marks, dot)| == Pos(cells)
  {
    if cells != [] {
      var k := |cells| - 1;
      assert k > 0 ==> cells[..k][k - 1] == cells[k - 1] < cells[k];
      DrawFills(cells[..k], marks[..k], dot);
    }
  }

  /** Without clashes, each mark stands in its cell and every other cell holds a dot. */
  lemma {:induction false} DrawShows(cells: seq<nat>, marks: string, dot: char)
    requires |cells| == |marks| && StrictlyIncreasing(cells)
    ensures Shows(Draw(cells, marks, dot), cells, marks, dot)
  {
    if cells != [] {
      var k := |cells| - 1;
      DrawShows(cells[..k], marks[..k], dot);
      DrawFills(cells[..k], marks[..k], dot);
      PosBelowLast(cells);
      ShowsLast(Draw(cells[..k], marks[..k], dot), cells, marks, dot, cells[k] - Pos(cells[..k]));
    }
  }

  lemma {:induction false} PosBelowLast(cells: seq<nat>)
    requires cells != [] && StrictlyIncreasing(cells)
    ensures Pos(cells[..|cells| - 1]) <= cells[|cells| - 1] && StrictlyIncreasing(cells[..|cells| - 1])
  {
    var k := |cells| - 1;
    if k > 0 {
      assert cells[..k][k - 1] == cells[k - 1] < cells[k];
    }
  }

  // ----- the printed timeline -----

  function CellsOf(cycle: nat, es: seq<Event>): (cells: seq<nat>)
    requires cycle > 0
    ensures |cells| == |es| && forall k :: 0 <= k < |es| ==> cells[k] == es[k].offset / cycle
  {
    if es == [] then [] else CellsOf(cycle, es[..|es| - 1]) + [es[|es| - 1].offset / cycle]
  }

  function Letters(es: seq<Event>): (text: string)
    ensures |text| == |es| && forall k :: 0 <= k < |es| ==> text[k] == SHORTHANDS[es[k].stage]
  {
    if es == [] then "" else Letters(es[..|es| - 1]) + [SHORTHANDS[es[|es| - 1].stage]]
  }

  function Dot(x: Inst): char {
    if x.retire == 0 then '=' else '.'
  }

  /** The text between the brackets on line i. */
  function LineText(v: View, x: Inst, i: nat): string
    requires v.Valid()
  {
    var marks := Marks(v, x, i);
    DrawLine(v.width, CellsOf(v.cycle, marks), Letters(marks), Dot(x))
  }

  /** No two stages drawn on line i share a cell. */
  ghost predicate DistinctCells(v: View, x: Inst, i: nat)
    requires v.Valid()
  {
    forall s: Stage, t: Stage | Drawn(v, x, i, s) && Drawn(v, x, i, t) && s != t :: Cell(v, x, s) != Cell(v, x, t)
  }

  lemma OrderedCells(cycle: nat, es: seq<Event>)
    requires cycle > 0 && Ordered(es)
    ensures NonDecreasing(CellsOf(cycle, es))
  {
    forall a, b | 0 <= a < b < |es| ensures es[a].offset / cycle <= es[b].offset / cycle {
      DivMono(es[a].offset, es[b].offset, cycle);
    }
  }

  /** The mark of stage s on line i, if it is drawn there, stands at the cell of its tick. */
  lemma MarkOf(v: View, x: Inst, i: nat, s: Stage) returns (k: nat)
    requires v.Valid() && Drawn(v, x, i, s)
    ensures k < |Marks(v, x, i)| && Marks(v, x, i)[k] == EventOf(v, x, s)
    ensures CellsOf(v.cycle, Marks(v, x, i))[k] == Cell(v, x, s)
  {
    MarksHold(v, x, i);
    assert EventOf(v, x, s) in Marks(v, x, i);
    k :| 0 <= k < |Marks(v, x, i)| && Marks(v, x, i)[k] == EventOf(v, x, s);
  }

  lemma StageOf(v: View, x: Inst, i: nat, k: nat)
    requires v.Valid() && k < |Marks(v, x, i)|
    ensures var s := Marks(v, x, i)[k].stage;
            Drawn(v, x, i, s) && CellsOf(v.cycle, Marks(v, x, i))[k] == Cell(v, x, s)
  {
    MarksHold(v, x, i);
    assert Marks(v, x, i)[k] in Marks(v, x, i);
  }

  lemma DistinctMarks(v: View, x: Inst, i: nat)
    requires v.Valid()
    ensures NoDups(CellsOf(v.cycle, Marks(v, x, i))) <==> DistinctCells(v, x, i)
  {
    var marks := Marks(v, x, i);
    var cells := CellsOf(v.cycle, marks);
    if NoDups(cells) {
      forall s: Stage, t: Stage | Drawn(v, x, i, s) && Drawn(v, x, i, t) && s != t
        ensures Cell(v, x, s) != Cell(v, x, t)
      {
        var a := MarkOf(v, x, i, s);
        var b := MarkOf(v, x, i, t);
        assert cells[a] != cells[b];
      }
    }
    if DistinctCells(v, x, i) {
      MarksHold(v, x, i);
      forall a, b | 0 <= a < b < |cells| ensures cells[a] != cells[b] {
        StageOf(v, x, i, a);
        StageOf(v, x, i, b);
        SameStage(v, x, i, a, b);
      }
    }
  }

  lemma SameStage(v: View, x: Inst, i: nat, a: nat, b: nat)
    requires v.Valid() && a < b < |Marks(v, x, i)|
    ensures Marks(v, x, i)[a].stage != Marks(v, x, i)[b].stage
  {
    MarksHold(v, x, i);
    assert Marks(v, x, i)[a] in Marks(v, x, i) && Marks(v, x, i)[b] in Marks(v, x, i);
  }

  lemma MarksInside(v: View, x: Inst, i: nat)
    requires v.Valid()
    ensures NonDecreasing(CellsOf(v.cycle, Marks(v, x, i)))
    ensures forall c :: c in CellsOf(v.cycle, Marks(v, x, i)) ==> c < v.width
  {
    MarksHold(v, x, i);
    OrderedCells(v.cycle, Marks(v, x, i));
    forall k | 0 <= k < |Marks(v, x, i)| ensures CellsOf(v.cycle, Marks(v, x, i))[k] < v.width {
      StageOf(v, x, i, k);
    }
  }

  /** A line is exactly `width` cells long if and only if no two of its marks share a cell. */
  lemma LineFits(v: View, x: Inst, i: nat)
    requires v.Valid()
    ensures |LineText(v, x, i)| >= v.width
    ensures |LineText(v, x, i)| == v.width <==> DistinctCells(v, x, i)
  {
    DistinctMarks(v, x, i);
    MarksInside(v, x, i);
    var marks := Marks(v, x, i);
    LineLength(v.width, CellsOf(v.cycle, marks), Letters(marks), Dot(x));
  }

  lemma LineShowsMarks(v: View, x: Inst, i: nat)
    requires v.Valid() && DistinctCells(v, x, i)
    ensures |LineText(v, x, i)| == v.width
    ensures Shows(LineText(v, x, i), CellsOf(v.cycle, Marks(v, x, i)), Letters(Marks(v, x, i)), Dot(x))
  {
    LineFits(v, x, i);
    DistinctMarks(v, x, i);
    MarksInside(v, x, i);
    var marks := Marks(v, x, i);
    var cells, text := CellsOf(v.cycle, marks), Letters(marks);
    assert StrictlyIncreasing(cells);
    DrawFills(cells, text, Dot(x));
    DrawShows(cells, text, Dot(x));
    ShowsMore(Draw(cells, text, Dot(x)), cells, text, Dot(x), v.width - Pos(cells), Dot(x));
  }

  /** On a line without clashes every drawn stage stands at the cell of its tick. */
  lemma LineShowsStage(v: View, x: Inst, i: nat, s: Stage)
    requires v.Valid() && DistinctCells(v, x, i) && Drawn(v, x, i, s)
    ensures |LineText(v, x, i)| == v.width && LineText(v, x, i)[Cell(v, x, s)] == SHORTHANDS[s]
  {
    LineShowsMarks(v, x, i);
    var k := MarkOf(v, x, i, s);
    assert Letters(Marks(v, x, i))[k] == SHORTHANDS[s];
  }

  /** On a line without clashes every cell that no drawn stage falls into holds a dot. */
  lemma LineShowsDots(v: View, x: Inst, i: nat, c: nat)
    requires v.Valid() && DistinctCells(v, x, i) && c < v.width
    requires forall s: Stage | Drawn(v, x, i, s) :: Cell(v, x, s) != c
    ensures |LineText(v, x, i)| == v.width && LineText(v, x, i)[c] == Dot(x)
  {
    LineShowsMarks(v, x, i);
    forall k | 0 <= k < |Marks(v, x, i)| ensures CellsOf(v.cycle, Marks(v, x, i))[k] != c {
      StageOf(v, x, i, k);
    }
  }

  // ----- printing -----

  /** The text and the next cell once the drawing loop has seen some events. */
  function DrawnText(x: Inst, cycle: nat, es: seq<Event>): string
    requires cycle > 0
  {
    Draw(CellsOf(cycle, Unskipped(x, es)), Letters(Unskipped(x, es)), Dot(x))
  }

  function DrawnPos(x: Inst, cycle: nat, es: seq<Event>): nat
    requires cycle > 0
  {
    Pos(CellsOf(cycle, Unskipped(x, es)))
  }

  lemma DrawNext(x: Inst, cycle: nat, es: seq<Event>)
    requires cycle > 0 && es != []
    ensures var init, e := es[..|es| - 1], es[|es| - 1];
            Pen(DrawnText(x, cycle, es), DrawnPos(x, cycle, es)) ==
            Stroke(x, cycle, Pen(DrawnText(x, cycle, init), DrawnPos(x, cycle, init)), e)
  {
    var e := es[|es| - 1];
    var before := Unskipped(x, es[..|es| - 1]);
    if Skipped(x, e.stage) {
      assert before + [] == before;
    } else {
      var after := before + [e];
      assert after[..|before|] == before;
      var cells, letters := CellsOf(cycle, after), Letters(after);
      assert cells[..|before|] == CellsOf(cycle, before);
      assert letters[..|before|] == Letters(before);
    }
  }

  /** The state of the drawing loop after some events. */
  datatype Pen = Pen(text: string, pos: nat)

  function Paint(x: Inst, cycle: nat, es: seq<Event>): Pen
    requires cycle > 0
  {
    if es == [] then Pen("", 0) else Stroke(x, cycle, Paint(x, cycle, es[..|es| - 1]), es[|es| - 1])
  }

  function Stroke(x: Inst, cycle: nat, pen: Pen, e: Event): Pen
    requires cycle > 0
  {
    if Skipped(x, e.stage) then pen
    else
      var c := e.offset / cycle;
      Pen(pen.text + Dots(c - pen.pos, Dot(x)) + [SHORTHANDS[e.stage]], c + 1)
  }

  lemma {:induction false} PaintDraws(x: Inst, cycle: nat, es: seq<Event>)
    requires cycle > 0
    ensures Paint(x, cycle, es) == Pen(DrawnText(x, cycle, es), DrawnPos(x, cycle, es))
  {
    if es != [] {
      PaintDraws(x, cycle, es[..|es| - 1]);
      DrawNext(x, cycle, es);
    }
  }

  lemma PaintNext(x: Inst, cycle: nat, es: seq<Event>, k: nat)
    requires cycle > 0 && k < |es|
    ensures Paint(x, cycle, es[..k + 1]) == Stroke(x, cycle, Paint(x, cycle, es[..k]), es[k])
  {
    assert es[..k + 1][..k] == es[..k];
  }

  /** Without any event on the only line of a compact timeline, looking at the first event fails. */
  lemma NoEventsIffAllZero(v: View, x: Inst)
    requires v.Valid()
    ensures LineCount(v, x) == 1 && Collect(v, x, 0, v.Stages()) == [] <==> AllZero(v, x)
  {
    CollectHolds(v, x, 0, v.Stages());
    var es := Collect(v, x, 0, v.Stages());
    assert |es| > 0 ==> es[0] in es;
    assert Tick(x, 0) == x.fetch;
    if LineCount(v, x) == 1 && es == [] {
      forall s: Stage | s < v.Stages() ensures !OnLine(v, x, 0, s) {
        assert EventOf(v, x, s) !in es;
      }
      NothingOnLine(v, x);
    }
  }

  ghost predicate AllZero(v: View, x: Inst) {
    forall s: Stage | s < v.Stages() :: Tick(x, s) == 0
  }

  lemma NothingOnLine(v: View, x: Inst)
    requires v.Valid() && LineCount(v, x) == 1 && forall s: Stage | s < v.Stages() :: !OnLine(v, x, 0, s)
    ensures AllZero(v, x)
  {
    OneLineIsCompact(v, x);
    assert StartTick(v, x, 0) == BaseTick(v, x);
    assert Tick(x, 0) == x.fetch && !OnLine(v, x, 0, 0);
    assert x.fetch == 0 && BaseTick(v, x) == 0;
    forall s: Stage | s < v.Stages() ensures Tick(x, s) == 0 {
      assert !OnLine(v, x, 0, s);
    }
  }

  lemma OneLineIsCompact(v: View, x: Inst)
    requires v.Valid() && LineCount(v, x) == 1
    ensures Compact(v, x)
  {
    var last, b, w := LastTick(x, v.Stages()), BaseTick(v, x), v.TimeWidth();
    assert Tick(x, 0) == x.fetch;
    DivMod(last - b, w);
  }

  /** The sorted events of line i. */
  method CollectEvents(v: View, x: Inst, i: nat) returns (events: seq<Event>)
    requires v.Valid()
    ensures events == SortEvents(Collect(v, x, i, v.Stages()))
  {
    var startTick, endTick := StartTick(v, x, i), EndTick(v, x, i);
    events := [];
    for s := 0 to v.Stages()
      invariant events == Collect(v, x, i, s)
    {
      var tick := Tick(x, s);
      if tick != 0 && startTick <= tick < endTick {
        events := events + [EventOf(v, x, s)];
      }
    }
    events := SortEvents(events);
  }

  /** Draw the text of one line from its sorted events. */
  method DrawEvents(width: nat, cycle: nat, x: Inst, events: seq<Event>) returns (text: string)
    requires cycle > 0
    ensures text == DrawnText(x, cycle, events) + Dots(width - DrawnPos(x, cycle, events), Dot(x))
  {
    var dot := Dot(x);
    var pos: nat := 0;
    text := "";
    for k := 0 to |events|
      invariant Pen(text, pos) == Paint(x, cycle, events[..k])
    {
      var e := events[k];
      PaintNext(x, cycle, events, k);
      if !Skipped(x, e.stage) {
        text := text + Dots(e.offset / cycle - pos, dot) + [SHORTHANDS[e.stage]];
        pos := e.offset / cycle + 1;
      }
    }
    assert events[..|events|] == events;
    PaintDraws(x, cycle, events);
    text := text + Dots(width - pos, dot);
  }

  lemma SortEventsEmpty(es: seq<Event>)
    ensures SortEvents(es) == [] <==> es == []
  {
    SortEventsSorts(es);
    assert |SortEvents(es)| == |multiset(SortEvents(es))| == |es|;
  }

  /** One line of the timeline, and whether it has no events. */
  method PrintLine(v: View, x: Inst, i: nat) returns (text: string, empty: bool)
    requires v.Valid()
    ensures text == LineText(v, x, i)
    ensures empty <==> Collect(v, x, i, v.Stages()) == []
  {
    var events := CollectEvents(v, x, i);
    SortEventsEmpty(Collect(v, x, i, v.Stages()));
    empty := events == [];
    text := DrawEvents(v.width, v.cycle, x, events);
  }

  /** The first n lines of a timeline. */
  ghost function LineTexts(v: View, x: Inst, n: nat): (lines: seq<string>)
    requires v.Valid()
    ensures |lines| == n
  {
    if n == 0 then [] else LineTexts(v, x, n - 1) + [LineText(v, x, n - 1)]
  }

  lemma {:induction false} LineTextsAt(v: View, x: Inst, n: nat, i: nat)
    requires v.Valid() && i < n
    ensures LineTexts(v, x, n)[i] == LineText(v, x, i)
  {
    if i < n - 1 {
      LineTextsAt(v, x, n - 1, i);
    }
  }

  /** `print_inst`, without colours and the fixed columns: the text of each line, or the IndexError. */
  method PrintInst(v: View, x: Inst) returns (r: Option<seq<string>>)
    requires v.Valid()
    ensures r.None? <==> AllZero(v, x)
    ensures r.Some? ==> r.value == LineTexts(v, x, LineCount(v, x))
  {
    NoEventsIffAllZero(v, x);
    var n, lines := LineCount(v, x), [];
    for i := 0 to n
      invariant lines == LineTexts(v, x, i)
      invariant i > 0 ==> !AllZero(v, x)
    {
      var text, empty := PrintLine(v, x, i);
      if n == 1 && empty {
        return None;
      }
      lines := lines + [text];
    }
    return Some(lines);
  }
}
