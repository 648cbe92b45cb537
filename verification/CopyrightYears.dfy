/**
 util/find_copyrights.py: a set of years printed as a list of years and year ranges, and read back.
 */
module CopyrightYears {
  import opened Sequences
  import opened Text

  // ----- runs of consecutive years -----

  datatype Range = Range(first: nat, last: nat)

  function Years(r: Range): (years: set<nat>)
    ensures forall y :: y in years <==> r.first <= y <= r.last
    decreases r.last
  {
    if r.first > r.last then {}
    else if r.first == r.last then {r.last}
    else Years(Range(r.first, r.last - 1)) + {r.last}
  }

  ghost predicate Increasing(ys: seq<nat>) {
    forall i, j :: 0 <= i < j < |ys| ==> ys[i] < ys[j]
  }

  /** The runs once year y has been added after them. */
  function Extend(rs: seq<Range>, y: nat): (r: seq<Range>)
    ensures r != []
  {
    if rs != [] && y == rs[|rs| - 1].last + 1
    then rs[..|rs| - 1] + [Range(rs[|rs| - 1].first, y)]
    else rs + [Range(y, y)]
  }

  /** The runs of an ascending list of years. */
  function Runs(ys: seq<nat>): (rs: seq<Range>)
    ensures rs == [] <==> ys == []
  {
    if ys == [] then [] else Extend(Runs(ys[..|ys| - 1]), ys[|ys| - 1])
  }

  ghost function Covered(rs: seq<Range>): set<nat> {
    if rs == [] then {} else Covered(rs[..|rs| - 1]) + Years(rs[|rs| - 1])
  }

  /** Runs go forward, and between neighbours at least one year is missing. */
  ghost predicate Maximal(rs: seq<Range>) {
    && (forall i :: 0 <= i < |rs| ==> rs[i].first <= rs[i].last)
    && (forall i, j :: 0 <= i < j < |rs| ==> rs[i].last + 1 < rs[j].first)
  }

  lemma ExtendMaximal(rs: seq<Range>, y: nat)
    requires Maximal(rs) && (rs != [] ==> rs[|rs| - 1].last < y)
    ensures Maximal(Extend(rs, y)) && Extend(rs, y)[|Extend(rs, y)| - 1].last == y
  {
    if rs != [] {
      var k := |rs| - 1;
      assert forall i :: 0 <= i < k ==> rs[i].last + 1 < rs[k].first;
      assert rs[k].first <= rs[k].last;
    }
  }

  lemma ExtendCovers(rs: seq<Range>, y: nat)
    requires Maximal(rs)
    ensures Covered(Extend(rs, y)) == Covered(rs) + {y}
  {
    var r := Extend(rs, y);
    var m := |r| - 1;
    if rs != [] && y == rs[|rs| - 1].last + 1 {
      assert r[..m] == rs[..m];
      assert Years(r[m]) == Years(rs[m]) + {y};
    } else {
      assert r[..m] == rs;
    }
  }

  lemma {:induction false} RunsMaximal(ys: seq<nat>)
    requires Increasing(ys)
    ensures Maximal(Runs(ys))
    ensures ys != [] ==> Runs(ys)[|Runs(ys)| - 1].last == ys[|ys| - 1]
  {
    if ys != [] {
      RunsMaximal(ys[..|ys| - 1]);
      ExtendMaximal(Runs(ys[..|ys| - 1]), ys[|ys| - 1]);
    }
  }

  lemma {:induction false} RunsCover(ys: seq<nat>)
    requires Increasing(ys)
    ensures Covered(Runs(ys)) == Elems(ys)
  {
    if ys != [] {
      var k := |ys| - 1;
      RunsCover(ys[..k]);
      RunsMaximal(ys[..k]);
      ExtendCovers(Runs(ys[..k]), ys[k]);
      SplitLast(ys);
      ElemsConcat(ys[..k], [ys[k]]);
    }
  }

  /** The runs of an ascending list cover exactly its years, and are maximal. */
  lemma RunsAreMaximal(ys: seq<nat>)
    requires Increasing(ys)
    ensures Maximal(Runs(ys)) && Covered(Runs(ys)) == Elems(ys)
  {
    RunsMaximal(ys);
    RunsCover(ys);
  }

  // ----- printing -----

  function RangeText(r: Range): string {
    if r.first == r.last then Digits(r.first) else Digits(r.first) + "-" + Digits(r.last)
  }

  function RangeTexts(rs: seq<Range>): (parts: seq<string>)
    ensures |parts| == |rs| && forall k :: 0 <= k < |rs| ==> parts[k] == RangeText(rs[k])
  {
    if rs == [] then [] else RangeTexts(rs[..|rs| - 1]) + [RangeText(rs[|rs| - 1])]
  }

  function DateText(ys: seq<nat>): string {
    Join(RangeTexts(Runs(ys)), ',')
  }

  method Least(years: set<nat>) returns (least: nat)
    requires years != {}
    ensures least in years && forall y :: y in years ==> least <= y
  {
    least :| least in years;
    var others := years - {least};
    while others != {}
      invariant others <= years && least in years
      invariant forall y :: y in years && y !in others ==> least <= y
      decreases others
    {
      var y :| y in others;
      if y < least {
        least := y;
      }
      others := others - {y};
    }
  }

  /** The years of a set in ascending order. */
  method SortYears(dates: set<nat>) returns (ys: seq<nat>)
    ensures Increasing(ys) && Elems(ys) == dates
  {
    ys := [];
    var rest := dates;
    while rest != {}
      invariant rest <= dates && Increasing(ys) && Elems(ys) == dates - rest
      invariant forall x, y :: x in ys && y in rest ==> x < y
      decreases rest
    {
      var least := Least(rest);
      ElemsConcat(ys, [least]);
      assert forall i :: 0 <= i < |ys| ==> ys[i] in ys;
      ys, rest := ys + [least], rest - {least};
    }
  }

  /** `datestr`; popping from an empty list is an IndexError. */
  method DateStr(dates: set<nat>) returns (r: Option<string>)
    ensures dates == {} ==> r.None?
    ensures dates != {} ==> exists ys: seq<nat> :: Increasing(ys) && Elems(ys) == dates && r == Some(DateText(ys))
  {
    var ys := SortYears(dates);
    if ys == [] {
      return None;
    }
    assert ys[0] in Elems(ys);
    ghost var all := ys;
    var first := ys[0];
    var second := first;
    ghost var closed: seq<Range> := [];
    var output: seq<string> := [];
    var i := 1;
    assert ys[..1] == [ys[0]] && ys[..1][..0] == [];
    while i < |ys|
      invariant 1 <= i <= |ys|
      invariant Runs(ys[..i]) == closed + [Range(first, second)] && output == RangeTexts(closed)
      decreases |ys| - i
    {
      var next := ys[i];
      assert ys[..i + 1][..i] == ys[..i];
      if next == second + 1 {
        second := next;
      } else {
        output := output + [RangeText(Range(first, second))];
        ghost var more := closed + [Range(first, second)];
        assert more[..|more| - 1] == closed;
        closed := more;
        first, second := next, next;
      }
      i := i + 1;
    }
    assert ys[..i] == ys;
    output := output + [RangeText(Range(first, second))];
    assert Runs(ys)[..|closed|] == closed;
    assert output == RangeTexts(Runs(ys));
    return Some(Join(output, ','));
  }

  // ----- parsing -----

  function LeftStrip(s: string): (t: string)
    ensures |t| <= |s|
  {
    if s != "" && IsSpace(s[0]) then LeftStrip(s[1..]) else s
  }

  /** `([0-9]{4})\s*-\s*([0-9]{4})` at the start of a text; what follows it does not matter. */
  function MatchRange(s: string): Option<Range> {
    if |s| < 4 || !AllDigits(s[..4]) then None
    else
      var gap := LeftStrip(s[4..]);
      if gap == "" || gap[0] != '-' then None
      else
        var rest := LeftStrip(gap[1..]);
        if |rest| < 4 || !AllDigits(rest[..4]) then None
        else Some(Range(Value(s[..4]), Value(rest[..4])))
  }

  /** The years that one part of the list stands for. */
  function PartYears(part: string): set<nat> {
    match MatchRange(part)
    case Some(r) => Years(r)
    case None =>
      match ParseNat(part)
      case Some(y) => {y}
      case None => {}
  }

  ghost function ListYears(parts: seq<string>): set<nat> {
    if parts == [] then {} else ListYears(parts[..|parts| - 1]) + PartYears(Strip(parts[|parts| - 1]))
  }

  ghost function TextYears(text: string): set<nat> {
    ListYears(Split(text, ','))
  }

  /** `process_dates` */
  method ProcessDates(text: string) returns (output: set<nat>)
    ensures output == TextYears(text)
  {
    var parts := Split(text, ',');
    output := {};
    for i := 0 to |parts|
      invariant output == ListYears(parts[..i])
    {
      assert parts[..i + 1][..i] == parts[..i];
      var years := ReadPart(Strip(parts[i]));
      output := output + years;
    }
    assert parts[..|parts|] == parts;
  }

  /** The years of one part: a range year by year, a single year, or nothing. */
  method ReadPart(date: string) returns (years: set<nat>)
    ensures years == PartYears(date)
  {
    years := {};
    var r := MatchRange(date);
    if r.Some? {
      var first, last := r.value.first, r.value.last;
      var y := first;
      while y <= last
        invariant first <= y && (y <= last + 1 || y == first)
        invariant forall x :: x in years <==> first <= x < y
      {
        years := years + {y};
        y := y + 1;
      }
      assert years == Years(r.value);
    } else {
      var n := ParseNat(date);
      if n.Some? {
        years := {n.value};
      }
    }
  }

  lemma {:induction false} LeftStripAround(a: string, s: string)
    requires AllSpaces(a) && (s != "" ==> !IsSpace(s[0]))
    ensures LeftStrip(a + s) == s
  {
    if a == "" {
      assert a + s == s;
    } else {
      assert (a + s)[0] == a[0] && a[0] in a && (a + s)[1..] == a[1..] + s;
      assert forall c :: c in a[1..] ==> c in a;
      LeftStripAround(a[1..], s);
    }
  }

  /** Commas separate the parts of a list of years. */
  lemma {:induction false} ListIsUnion(part: string, rest: string)
    requires ',' !in part
    ensures TextYears(part + "," + rest) == PartYears(Strip(part)) + TextYears(rest)
  {
    SplitFirst(part, rest, ',');
    ListYearsFirst(part, Split(rest, ','));
    assert [','] == ",";
  }

  lemma {:induction false} ListYearsFirst(part: string, parts: seq<string>)
    ensures ListYears([part] + parts) == PartYears(Strip(part)) + ListYears(parts)
  {
    var all := [part] + parts;
    if parts == [] {
      assert all[..0] == [];
    } else {
      ListYearsFirst(part, parts[..|parts| - 1]);
      assert all[..|all| - 1] == [part] + parts[..|parts| - 1];
    }
  }

  /** A single year, with white space around it. */
  lemma {:induction false} ReadYear(a: string, y: nat, b: string)
    requires AllSpaces(a) && AllSpaces(b)
    ensures PartYears(Strip(a + Digits(y) + b)) == {y}
  {
    var s := Digits(y);
    assert s[0] in s && s[|s| - 1] in s;
    StripAround(a, s, b);
    SingleYear(y);
  }

  /** A range of four-digit years, with white space around it and around its dash. */
  lemma {:induction false} ReadRange(a: string, y: nat, b: string, c: string, z: nat, d: string)
    requires 1000 <= y <= 9999 && 1000 <= z <= 9999
    requires AllSpaces(a) && AllSpaces(b) && AllSpaces(c) && AllSpaces(d)
    ensures forall k :: k in PartYears(Strip(a + (Digits(y) + (b + ("-" + (c + Digits(z))))) + d)) <==> y <= k <= z
  {
    var f, l := Digits(y), Digits(z);
    var s := f + (b + ("-" + (c + l)));
    DigitCount(y);
    DigitCount(z);
    assert s[0] == f[0] && f[0] in f && s[|s| - 1] == l[|l| - 1] && l[|l| - 1] in l;
    StripAround(a, s, d);
    MatchSpaced(f, b, c, l);
    ParseDigits(y);
    ParseDigits(z);
    assert PartYears(s) == Years(Range(y, z));
  }

  lemma {:induction false} MatchSpaced(f: string, b: string, c: string, l: string)
    requires |f| == 4 && AllDigits(f) && |l| == 4 && AllDigits(l) && AllSpaces(b) && AllSpaces(c)
    ensures MatchRange(f + (b + ("-" + (c + l)))) == Some(Range(Value(f), Value(l)))
  {
    var gap := "-" + (c + l);
    assert gap[0] == '-' && gap[1..] == c + l;
    LeftStripAround(b, gap);
    assert l[0] in l;
    LeftStripAround(c, l);
    MatchParts(f, b + gap);
    assert l[..4] == l;
  }

  /** After the first four digits and a dash, the last year is looked for. */
  lemma {:induction false} MatchParts(f: string, x: string)
    requires |f| == 4 && AllDigits(f)
    ensures var gap := LeftStrip(x);
            MatchRange(f + x) ==
            if gap == "" || gap[0] != '-' then None
            else
              var rest := LeftStrip(gap[1..]);
              if |rest| < 4 || !AllDigits(rest[..4]) then None else Some(Range(Value(f), Value(rest[..4])))
  {
    assert (f + x)[..4] == f && (f + x)[4..] == x;
  }

  /** The text of consecutive years: one number, or the first and the last with a dash between them. */
  lemma {:induction false} ConsecutiveText(ys: seq<nat>)
    requires ys != [] && forall k :: 0 <= k < |ys| ==> ys[k] == ys[0] + k
    ensures Runs(ys) == [Range(ys[0], ys[|ys| - 1])]
    ensures DateText(ys) == if |ys| == 1 then Digits(ys[0]) else Digits(ys[0]) + "-" + Digits(ys[|ys| - 1])
  {
    if |ys| > 1 {
      ConsecutiveText(ys[..|ys| - 1]);
    } else {
      assert ys[..0] == [];
    }
  }

  lemma {:induction false} RunsApart(ys: seq<nat>, zs: seq<nat>)
    requires Increasing(ys + zs) && ys != [] && zs != [] && zs[0] > ys[|ys| - 1] + 1
    ensures Runs(ys + zs) == Runs(ys) + Runs(zs)
    decreases |zs|
  {
    var k := |zs| - 1;
    assert (ys + zs)[..|ys + zs| - 1] == ys + zs[..k];
    assert Increasing(ys) by {
      assert forall i :: 0 <= i < |ys| ==> (ys + zs)[i] == ys[i];
    }
    RunsMaximal(ys);
    if k == 0 {
      assert ys + zs[..0] == ys && zs[..0] == [];
    } else {
      assert Increasing(ys + zs[..k]) by {
        assert forall i :: 0 <= i < |ys| + k ==> (ys + zs[..k])[i] == (ys + zs)[i];
      }
      RunsApart(ys, zs[..k]);
      ExtendAfter(Runs(ys), Runs(zs[..k]), zs[k]);
    }
  }

  lemma {:induction false} ExtendAfter(a: seq<Range>, b: seq<Range>, y: nat)
    requires b != []
    ensures Extend(a + b, y) == a + Extend(b, y)
  {
    assert (a + b)[..|a + b| - 1] == a + b[..|b| - 1];
  }

  /** Years with a gap between them are listed one after the other, with a comma. */
  lemma {:induction false} GapText(ys: seq<nat>, zs: seq<nat>)
    requires Increasing(ys + zs) && ys != [] && zs != [] && zs[0] > ys[|ys| - 1] + 1
    ensures DateText(ys + zs) == DateText(ys) + "," + DateText(zs)
  {
    RunsApart(ys, zs);
    var a, b := RangeTexts(Runs(ys)), RangeTexts(Runs(zs));
    RangeTextsConcat(Runs(ys), Runs(zs));
    JoinConcat(a, b);
  }

  lemma {:induction false} RangeTextsConcat(a: seq<Range>, b: seq<Range>)
    ensures RangeTexts(a + b) == RangeTexts(a) + RangeTexts(b)
    decreases |b|
  {
    if b == [] {
      assert a + b == a;
    } else {
      RangeTextsConcat(a, b[..|b| - 1]);
      RangeTextsLast(b);
      RangeTextsLast(a + b);
      assert (a + b)[..|a + b| - 1] == a + b[..|b| - 1];
      ConcatAssociative(RangeTexts(a), RangeTexts(b[..|b| - 1]), [RangeText(b[|b| - 1])]);
    }
  }

  lemma {:induction false} RangeTextsLast(rs: seq<Range>)
    requires rs != []
    ensures RangeTexts(rs) == RangeTexts(rs[..|rs| - 1]) + [RangeText(rs[|rs| - 1])]
  {
  }

  lemma {:induction false} JoinConcat(a: seq<string>, b: seq<string>)
    requires a != [] && b != []
    ensures Join(a + b, ',') == Join(a, ',') + "," + Join(b, ',')
    decreases |a|
  {
    assert [','] == ",";
    if |a| == 1 {
      assert (a + b)[1..] == b;
    } else {
      JoinConcat(a[1..], b);
      assert (a + b)[1..] == a[1..] + b;
    }
  }

  // ----- the round trip -----

  /** Both ends of a proper range have four digits. */
  ghost predicate Readable(r: Range) {
    r.first == r.last || (1000 <= r.first && r.last <= 9999)
  }

  lemma DigitsStep(n: nat)
    requires n >= 10
    ensures |Digits(n)| == |Digits(n / 10)| + 1 && Digits(n)[..|Digits(n)| - 1] == Digits(n / 10)
  {
  }

  lemma {:induction false} DigitCount(n: nat)
    ensures |Digits(n)| >= 4 <==> n >= 1000
    ensures |Digits(n)| >= 5 <==> n >= 10000
  {
    if n >= 10 {
      DigitsStep(n);
      if n / 10 >= 10 {
        DigitsStep(n / 10);
        if n / 100 >= 10 {
          assert n / 10 / 10 == n / 100;
          DigitsStep(n / 100);
          if n / 1000 >= 10 {
            assert n / 100 / 10 == n / 1000;
            DigitsStep(n / 1000);
          }
        }
      }
    }
  }

  lemma FourDigitValue(s: string)
    requires |s| == 4 && AllDigits(s)
    ensures Value(s) <= 9999
  {
    assert s[..3][..2] == s[..2] && s[..2][..1] == s[..1] && s[..1][..0] == "";
    assert Value("") == 0;
    assert Value(s[..1]) <= 9;
    assert Value(s[..2]) <= 99;
    assert Value(s[..3]) <= 999;
  }

  lemma NotDigit(s: string, i: nat)
    requires i < |s| && !IsDigit(s[i])
    ensures !AllDigits(s)
  {
    assert s[i] in s;
  }

  lemma SingleYear(y: nat)
    ensures MatchRange(Digits(y)).None? && PartYears(Digits(y)) == {y}
  {
    var s := Digits(y);
    ParseDigits(y);
    if |s| >= 5 {
      assert s[4] in s;
      assert s[4..][0] == s[4];
    }
  }

  /** A range whose first year does not have four digits is not read at all. */
  lemma BadFirst(r: Range)
    requires r.first < r.last && |Digits(r.first)| != 4
    ensures PartYears(RangeText(r)) == {}
  {
    var a, s := Digits(r.first), RangeText(r);
    assert s[|a|] == '-';
    NotDigit(s, |a|);
    if |a| < 4 && |s| >= 4 {
      assert s[..4][|a|] == '-';
      NotDigit(s[..4], |a|);
    } else if |a| > 4 {
      assert s[4..][0] == a[4] && a[4] in a;
    }
  }

  /** A range from a four-digit year is read up to the first four digits of its last year. */
  lemma GoodFirst(r: Range)
    requires r.first < r.last && |Digits(r.first)| == 4
    ensures |Digits(r.last)| >= 4
    ensures MatchRange(RangeText(r)) == Some(Range(r.first, Value(Digits(r.last)[..4])))
  {
    var a, b := Digits(r.first), Digits(r.last);
    DigitCount(r.first);
    DigitCount(r.last);
    ParseDigits(r.first);
    MatchOf(a, b);
  }

  /** Four digits, a dash and at least four more digits are read as a range. */
  lemma MatchOf(a: string, b: string)
    requires |a| == 4 && AllDigits(a) && |b| >= 4 && AllDigits(b)
    ensures AllDigits(b[..4]) && MatchRange(a + "-" + b) == Some(Range(Value(a), Value(b[..4])))
  {
    var s := a + "-" + b;
    assert s[..4] == a && s[4..] == "-" + b;
    assert ("-" + b)[1..] == b;
    assert b[0] in b && forall c :: c in b[..4] ==> c in b;
  }

  /** What is read from a printed range lies inside it, and reaches its last year exactly if it is readable. */
  lemma RangeRoundTrip(r: Range)
    requires r.first <= r.last
    ensures PartYears(RangeText(r)) <= Years(r)
    ensures PartYears(RangeText(r)) == Years(r) <==> Readable(r)
    ensures !Readable(r) ==> r.last !in PartYears(RangeText(r))
  {
    DigitCount(r.first);
    DigitCount(r.last);
    if r.first == r.last {
      SingleYear(r.first);
      assert Years(r) == {r.first};
    } else if |Digits(r.first)| != 4 {
      BadFirst(r);
      assert r.first in Years(r);
    } else {
      GoodFirst(r);
      ParseDigits(r.last);
      var b := Digits(r.last);
      assert forall c :: c in b[..4] ==> c in b;
      FourDigitValue(b[..4]);
      assert |b| == 4 ==> b[..4] == b;
      assert r.last in Years(r);
    }
  }

  lemma RangeTextPlain(r: Range)
    ensures ',' !in RangeText(r) && NoSpaces(RangeText(r))
  {
    var a, b := Digits(r.first), Digits(r.last);
    assert forall c :: c in RangeText(r) ==> c in a || c == '-' || c in b;
  }

  lemma {:induction false} CoveredBelow(rs: seq<Range>)
    requires Maximal(rs)
    ensures forall y :: y in Covered(rs) ==> rs != [] && y <= rs[|rs| - 1].last
  {
    if rs != [] {
      CoveredBelow(rs[..|rs| - 1]);
    }
  }

  /** Reading one more printed run. */
  lemma ReadLast(rs: seq<Range>)
    requires Maximal(rs) && rs != []
    ensures var k := |rs| - 1;
            && ListYears(RangeTexts(rs)) == ListYears(RangeTexts(rs[..k])) + PartYears(RangeText(rs[k]))
            && Covered(rs[..k]) !! Years(rs[k])
  {
    var k := |rs| - 1;
    RangeTextPlain(rs[k]);
    StripClean(RangeText(rs[k]));
    CoveredBelow(rs[..k]);
    assert k > 0 ==> rs[k - 1].last < rs[k].first;
    ReadLastPart(RangeTexts(rs[..k]), RangeText(rs[k]));
  }

  lemma ReadLastPart(parts: seq<string>, last: string)
    ensures ListYears(parts + [last]) == ListYears(parts) + PartYears(Strip(last))
  {
    assert (parts + [last])[..|parts|] == parts;
  }

  lemma MaximalInit(rs: seq<Range>)
    requires Maximal(rs) && rs != []
    ensures Maximal(rs[..|rs| - 1]) && rs[|rs| - 1].first <= rs[|rs| - 1].last
  {
  }

  /** What is read from printed runs is inside them; it is all of them exactly if every run is readable. */
  lemma {:induction false} RunsRoundTrip(rs: seq<Range>)
    requires Maximal(rs)
    ensures ListYears(RangeTexts(rs)) <= Covered(rs)
    ensures ListYears(RangeTexts(rs)) == Covered(rs) <==> AllReadable(rs)
  {
    if rs != [] {
      var init, last := rs[..|rs| - 1], rs[|rs| - 1];
      MaximalInit(rs);
      RunsRoundTrip(init);
      ReadLast(rs);
      ReadableLast(rs);
      RangeRoundTrip(last);
      SplitCover(ListYears(RangeTexts(init)), Covered(init), PartYears(RangeText(last)), Years(last));
    }
  }

  ghost predicate AllReadable(rs: seq<Range>) {
    forall k :: 0 <= k < |rs| ==> Readable(rs[k])
  }

  lemma ReadableLast(rs: seq<Range>)
    requires rs != []
    ensures AllReadable(rs) <==> AllReadable(rs[..|rs| - 1]) && Readable(rs[|rs| - 1])
  {
    var init := rs[..|rs| - 1];
    assert forall k :: 0 <= k < |init| ==> init[k] == rs[k];
  }

  lemma SplitCover(a: set<nat>, b: set<nat>, c: set<nat>, d: set<nat>)
    requires a <= b && c <= d && b !! d
    ensures a + c <= b + d && (a + c == b + d <==> a == b && c == d)
  {
    if a + c == b + d {
      forall x | x in b ensures x in a {
        assert x in a + c;
      }
      forall x | x in d ensures x in c {
        assert x in a + c;
      }
    }
  }

  /** Years that follow each other have four digits. */
  ghost predicate FourDigitRuns(years: set<nat>) {
    forall y :: y in years && y + 1 in years ==> 1000 <= y && y + 1 <= 9999
  }

  lemma {:induction false} InCovered(rs: seq<Range>, k: nat, y: nat)
    requires k < |rs| && rs[k].first <= y <= rs[k].last
    ensures y in Covered(rs)
    decreases |rs|
  {
    if k < |rs| - 1 {
      InCovered(rs[..|rs| - 1], k, y);
    }
  }

  lemma {:induction false} CoveredBy(rs: seq<Range>, y: nat) returns (k: nat)
    requires y in Covered(rs)
    ensures k < |rs| && rs[k].first <= y <= rs[k].last
    decreases |rs|
  {
    if y in Years(rs[|rs| - 1]) {
      k := |rs| - 1;
    } else {
      k := CoveredBy(rs[..|rs| - 1], y);
    }
  }

  lemma ReadableIffFourDigits(rs: seq<Range>)
    requires Maximal(rs)
    ensures AllReadable(rs) <==> FourDigitRuns(Covered(rs))
  {
    if AllReadable(rs) {
      forall y | y in Covered(rs) && y + 1 in Covered(rs) ensures 1000 <= y && y + 1 <= 9999 {
        var i := CoveredBy(rs, y);
        var j := CoveredBy(rs, y + 1);
        assert i == j;
      }
    }
    if FourDigitRuns(Covered(rs)) {
      forall k | 0 <= k < |rs| ensures Readable(rs[k]) {
        if rs[k].first < rs[k].last {
          InCovered(rs, k, rs[k].first);
          InCovered(rs, k, rs[k].first + 1);
          InCovered(rs, k, rs[k].last - 1);
          InCovered(rs, k, rs[k].last);
        }
      }
    }
  }

  /**
   Reading back a printed set of years never invents a year, and gives the whole set if and only if
   all years that follow each other have four digits.
   */
  lemma DatesRoundTrip(ys: seq<nat>)
    requires ys != [] && Increasing(ys)
    ensures TextYears(DateText(ys)) <= Elems(ys)
    ensures TextYears(DateText(ys)) == Elems(ys) <==> FourDigitRuns(Elems(ys))
  {
    var rs := Runs(ys);
    RunsAreMaximal(ys);
    forall p | p in RangeTexts(rs) ensures ',' !in p {
      var k :| 0 <= k < |rs| && RangeTexts(rs)[k] == p;
      RangeTextPlain(rs[k]);
    }
    SplitJoin(RangeTexts(rs), ',');
    RunsRoundTrip(rs);
    ReadableIffFourDigits(rs);
  }
}
