/**
 util/decode_inst_dep_trace.py and util/encode_inst_dep_trace.py: instruction dependency records
 printed as lines of text, and read back from them.
 */
module DepTrace {
  import opened Sequences
  import opened Text

  datatype Kind = INVALID | LOAD | STORE | COMP

  /** The fields of `InstDepRecord` that the two tools handle; `None` is an optional field not set. */
  datatype Record = Record(seqNum: nat, pc: Option<nat>, weight: Option<nat>, kind: Kind,
                           pAddr: Option<nat>, size: Option<nat>, flags: Option<nat>,
                           compDelay: nat, robDeps: seq<nat>, regDeps: seq<nat>)

  // ----- the ranges of the record fields -----

  predicate Is64(n: nat) {
    n < 0x1_0000_0000_0000_0000
  }

  predicate Is32(n: nat) {
    n < 0x1_0000_0000
  }

  predicate All64(ns: seq<nat>) {
    forall k :: 0 <= k < |ns| ==> Is64(ns[k])
  }

  ghost predicate InRange(r: Record) {
    && Is64(r.seqNum) && Is64(r.compDelay) && All64(r.robDeps) && All64(r.regDeps)
    && (r.pc.Some? ==> Is64(r.pc.value)) && (r.weight.Some? ==> Is32(r.weight.value))
    && (r.pAddr.Some? ==> Is64(r.pAddr.value)) && (r.size.Some? ==> Is32(r.size.value))
    && (r.flags.Some? ==> Is32(r.flags.value))
  }

  // ----- printing -----

  function KindName(k: Kind): string {
    match k
    case INVALID => "INVALID"
    case LOAD => "LOAD"
    case STORE => "STORE"
    case COMP => "COMP"
  }

  function OrElse(n: Option<nat>, default: nat): nat {
    if n.Some? then n.value else default
  }

  function Optional(n: Option<nat>): seq<string> {
    if n.Some? then [Digits(n.value)] else []
  }

  /** The comma-separated fields before the first colon. */
  function InfoFields(r: Record): (fields: seq<string>)
    ensures fields != []
  {
    [Digits(r.seqNum), Digits(OrElse(r.pc, 0)), Digits(OrElse(r.weight, 1)), KindName(r.kind)] +
    Optional(r.pAddr) + Optional(r.size) + Optional(r.flags) + [Digits(r.compDelay)]
  }

  function Numbers(ns: seq<nat>): seq<string> {
    if ns == [] then [] else Numbers(ns[..|ns| - 1]) + [Digits(ns[|ns| - 1])]
  }

  /** A dependency list: every number with a comma in front of it. */
  function DepText(ns: seq<nat>): string {
    Join([""] + Numbers(ns), ',')
  }

  function LineOf(r: Record): string {
    Join(InfoFields(r), ',') + ":" + DepText(r.robDeps) + ":" + DepText(r.regDeps)
  }

  /** A dependency list, number by number. */
  lemma DepTextIs(ns: seq<nat>, n: nat)
    ensures DepText([]) == "" && DepText(ns + [n]) == DepText(ns) + "," + Digits(n)
  {
    assert (ns + [n])[..|ns|] == ns;
    JoinAppend([""] + Numbers(ns), Digits(n), ',');
    assert [""] + Numbers(ns + [n]) == [""] + Numbers(ns) + [Digits(n)];
    assert [""] + Numbers([]) == [""];
  }

  /** The text of a load or store. */
  lemma AccessLineIs(r: Record)
    requires (r.kind.LOAD? || r.kind.STORE?) && r.pAddr.Some? && r.size.Some? && r.flags.Some?
    ensures var pc, weight := if r.pc.Some? then r.pc.value else 0, if r.weight.Some? then r.weight.value else 1;
            LineOf(r) ==
            Digits(r.seqNum) + "," + Digits(pc) + "," + Digits(weight) + "," +
            (if r.kind.LOAD? then "LOAD" else "STORE") + "," +
            Digits(r.pAddr.value) + "," + Digits(r.size.value) + "," + Digits(r.flags.value) + "," +
            Digits(r.compDelay) + ":" + DepText(r.robDeps) + ":" + DepText(r.regDeps)
  {
    var fs := InfoFields(r);
    assert fs == [fs[0], fs[1], fs[2], fs[3], fs[4], fs[5], fs[6], fs[7]];
    JoinEight(fs[0], fs[1], fs[2], fs[3], fs[4], fs[5], fs[6], fs[7]);
  }

  /** The text of a computation. */
  lemma CompLineIs(r: Record)
    requires r.kind.COMP? && r.pAddr.None? && r.size.None? && r.flags.None?
    ensures var pc, weight := if r.pc.Some? then r.pc.value else 0, if r.weight.Some? then r.weight.value else 1;
            LineOf(r) ==
            Digits(r.seqNum) + "," + Digits(pc) + "," + Digits(weight) + "," + "COMP" + "," +
            Digits(r.compDelay) + ":" + DepText(r.robDeps) + ":" + DepText(r.regDeps)
  {
    var fs := InfoFields(r);
    assert fs == [fs[0], fs[1], fs[2], fs[3], fs[4]];
    JoinFive(fs[0], fs[1], fs[2], fs[3], fs[4]);
  }

  lemma JoinFive(a: string, b: string, c: string, d: string, e: string)
    ensures Join([a, b, c, d, e], ',') == a + "," + b + "," + c + "," + d + "," + e
  {
    JoinAppend([a], b, ',');
    JoinAppend([a] + [b], c, ',');
    JoinAppend([a] + [b] + [c], d, ',');
    JoinAppend([a] + [b] + [c] + [d], e, ',');
    assert [a] + [b] + [c] + [d] + [e] == [a, b, c, d, e];
  }

  lemma JoinEight(a: string, b: string, c: string, d: string, e: string, f: string, g: string, h: string)
    ensures Join([a, b, c, d, e, f, g, h], ',') ==
            a + "," + b + "," + c + "," + d + "," + e + "," + f + "," + g + "," + h
  {
    var five := [a, b, c, d, e];
    JoinFive(a, b, c, d, e);
    JoinAppend(five, f, ',');
    JoinAppend(five + [f], g, ',');
    JoinAppend(five + [f] + [g], h, ',');
    assert five + [f] + [g] + [h] == [a, b, c, d, e, f, g, h];
  }

  /** The loop that writes a dependency list. */
  method PrintDeps(ns: seq<nat>) returns (text: string)
    ensures text == DepText(ns)
  {
    text := "";
    for i := 0 to |ns|
      invariant text == DepText(ns[..i])
    {
      text := text + "," + Digits(ns[i]);
      assert ns[..i + 1][..i] == ns[..i];
      JoinAppend([""] + Numbers(ns[..i]), Digits(ns[i]), ',');
      assert [""] + Numbers(ns[..i + 1]) == [""] + Numbers(ns[..i]) + [Digits(ns[i])];
    }
    assert ns[..|ns|] == ns;
  }

  method PrintOptional(text: string, ghost fields: seq<string>, n: Option<nat>) returns (longer: string)
    requires fields != [] && text == Join(fields, ',')
    ensures longer == Join(fields + Optional(n), ',')
  {
    longer := text;
    if n.Some? {
      longer := longer + "," + Digits(n.value);
      JoinAppend(fields, Digits(n.value), ',');
    } else {
      assert fields + [] == fields;
    }
  }

  /** The body of the decoding loop: the line written for one record. */
  method PrintRecord(r: Record) returns (line: string)
    ensures line == LineOf(r) + "\n"
  {
    line := Digits(r.seqNum);
    ghost var fields := [Digits(r.seqNum)];
    line := PrintOptional(line, fields, Some(OrElse(r.pc, 0)));
    fields := fields + [Digits(OrElse(r.pc, 0))];
    line := PrintOptional(line, fields, Some(OrElse(r.weight, 1)));
    fields := fields + [Digits(OrElse(r.weight, 1))];
    JoinAppend(fields, KindName(r.kind), ',');
    line := line + "," + KindName(r.kind);
    fields := fields + [KindName(r.kind)];
    line := PrintOptional(line, fields, r.pAddr);
    fields := fields + Optional(r.pAddr);
    line := PrintOptional(line, fields, r.size);
    fields := fields + Optional(r.size);
    line := PrintOptional(line, fields, r.flags);
    fields := fields + Optional(r.flags);
    line := PrintOptional(line, fields, Some(r.compDelay));
    fields := fields + [Digits(r.compDelay)];
    assert fields == InfoFields(r);
    var robDeps := PrintDeps(r.robDeps);
    var regDeps := PrintDeps(r.regDeps);
    line := line + ":" + robDeps + ":" + regDeps + "\n";
  }

  // ----- parsing -----

  function KindOf(name: string): Option<Kind> {
    if name == "INVALID" then Some(INVALID)
    else if name == "LOAD" then Some(LOAD)
    else if name == "STORE" then Some(STORE)
    else if name == "COMP" then Some(COMP)
    else None
  }

  /** Assigning `long(s)` to a 64-bit or a 32-bit field. */
  function Field64(s: string): Option<nat> {
    match ParseNat(s)
    case Some(n) => if Is64(n) then Some(n) else None
    case None => None
  }

  function Field32(s: string): Option<nat> {
    match ParseNat(s)
    case Some(n) => if Is32(n) then Some(n) else None
    case None => None
  }

  /** A dependency list from its comma-separated parts, of which the empty ones are skipped. */
  function DepsOf(parts: seq<string>): Option<seq<nat>> {
    if parts == [] then Some([])
    else
      var k := |parts| - 1;
      var before := DepsOf(parts[..k]);
      if before.None? || parts[k] == "" then before
      else
        match Field64(parts[k])
        case Some(n) => Some(before.value + [n])
        case None => None
  }

  /** Address, size, flags and delay of a load or store. */
  datatype Access = Access(pAddr: nat, size: nat, flags: nat, compDelay: nat)

  function AccessOf(fields: seq<string>): Option<Access> {
    if |fields| < 8 then None
    else
      var pAddr, size, flags, delay := Field64(fields[4]), Field32(fields[5]), Field32(fields[6]), Field64(fields[7]);
      if pAddr.Some? && size.Some? && flags.Some? && delay.Some?
      then Some(Access(pAddr.value, size.value, flags.value, delay.value)) else None
  }

  /** The part of a record before the dependencies; `None` when the encoder gives up. */
  function InfoOf(fields: seq<string>): Option<Record> {
    if |fields| < 5 then None
    else
      var seqNum, pc, weight, kind := Field64(fields[0]), Field64(fields[1]), Field32(fields[2]), KindOf(fields[3]);
      if seqNum.None? || pc.None? || weight.None? || kind.None? || kind == Some(INVALID) then None
      else
        var r := Record(seqNum.value, pc, weight, kind.value, None, None, None, 0, [], []);
        if kind.value == LOAD || kind.value == STORE then
          match AccessOf(fields)
          case None => None
          case Some(a) =>
            Some(r.(pAddr := Some(a.pAddr), size := Some(a.size), flags := Some(a.flags), compDelay := a.compDelay))
        else
          match Field64(fields[4])
          case None => None
          case Some(delay) => Some(r.(compDelay := delay))
  }

  /** The record of a line; `None` stands for every way in which the encoder stops. */
  function ParseLine(line: string): Option<Record> {
    var parts := Split(Strip(line), ':');
    if |parts| != 3 then None
    else
      var info := InfoOf(Split(parts[0], ','));
      var robDeps := DepsOf(Split(Strip(parts[1]), ','));
      var regDeps := DepsOf(Split(parts[2], ','));
      if info.None? || robDeps.None? || regDeps.None? then None
      else Some(info.value.(robDeps := robDeps.value, regDeps := regDeps.value))
  }

  /** The loop that reads a dependency list. */
  method ReadDeps(parts: seq<string>) returns (deps: Option<seq<nat>>)
    ensures deps == DepsOf(parts)
  {
    var ns := [];
    for i := 0 to |parts|
      invariant DepsOf(parts[..i]) == Some(ns)
    {
      assert parts[..i + 1][..i] == parts[..i];
      if parts[i] != "" {
        var n := Field64(parts[i]);
        if n.None? {
          DepsFail(parts, i + 1);
          return None;
        }
        ns := ns + [n.value];
      }
    }
    assert parts[..|parts|] == parts;
    return Some(ns);
  }

  lemma {:induction false} DepsFail(parts: seq<string>, i: nat)
    requires i <= |parts| && DepsOf(parts[..i]).None?
    ensures DepsOf(parts).None?
    decreases |parts| - i
  {
    if i == |parts| {
      assert parts[..i] == parts;
    } else {
      assert parts[..i + 1][..i] == parts[..i];
      DepsFail(parts, i + 1);
    }
  }

  /** The body of the encoding loop. */
  method ReadRecord(line: string) returns (r: Option<Record>)
    ensures r == ParseLine(line)
  {
    var parts := Split(Strip(line), ':');
    if |parts| != 3 {
      return None;
    }
    var info := InfoOf(Split(parts[0], ','));
    if info.None? {
      return None;
    }
    var robDeps := ReadDeps(Split(Strip(parts[1]), ','));
    if robDeps.None? {
      return None;
    }
    var regDeps := ReadDeps(Split(parts[2], ','));
    if regDeps.None? {
      return None;
    }
    return Some(info.value.(robDeps := robDeps.value, regDeps := regDeps.value));
  }

  // ----- the round trip -----

  /** A type other than INVALID, with address, size and flags exactly on loads and stores. */
  predicate WellFormed(r: Record) {
    match r.kind
    case INVALID => false
    case COMP => r.pAddr.None? && r.size.None? && r.flags.None?
    case _ => r.pAddr.Some? && r.size.Some? && r.flags.Some?
  }

  /** The record with the defaults that the printer fills in. */
  function WithDefaults(r: Record): Record {
    r.(pc := Some(OrElse(r.pc, 0)), weight := Some(OrElse(r.weight, 1)))
  }

  /** No character that the parser gives a meaning to. */
  predicate Plain(s: string) {
    forall c :: c in s ==> c != ',' && c != ':' && !IsSpace(c)
  }

  lemma DigitsPlain(n: nat)
    ensures Plain(Digits(n))
  {
  }

  lemma {:induction false} NumbersPlain(ns: seq<nat>)
    ensures |Numbers(ns)| == |ns| && forall p :: p in Numbers(ns) ==> Plain(p)
  {
    if ns != [] {
      NumbersPlain(ns[..|ns| - 1]);
      DigitsPlain(ns[|ns| - 1]);
    }
  }

  lemma FieldsPlain(r: Record)
    ensures forall p :: p in InfoFields(r) ==> Plain(p)
  {
    DigitsPlain(r.seqNum);
    DigitsPlain(OrElse(r.pc, 0));
    DigitsPlain(OrElse(r.weight, 1));
    DigitsPlain(OrElse(r.pAddr, 0));
    DigitsPlain(OrElse(r.size, 0));
    DigitsPlain(OrElse(r.flags, 0));
    DigitsPlain(r.compDelay);
  }

  lemma JoinPlain(parts: seq<string>)
    requires parts != [] && forall p :: p in parts ==> Plain(p)
    ensures ':' !in Join(parts, ',') && NoSpaces(Join(parts, ',')) && Split(Join(parts, ','), ',') == parts
  {
    JoinChars(parts, ',', ':');
    forall c | c in Join(parts, ',') ensures !IsSpace(c) {
      if IsSpace(c) {
        JoinChars(parts, ',', c);
      }
    }
    SplitJoin(parts, ',');
  }

  lemma DepTextPlain(ns: seq<nat>)
    ensures ':' !in DepText(ns) && NoSpaces(DepText(ns)) && Split(DepText(ns), ',') == [""] + Numbers(ns)
  {
    NumbersPlain(ns);
    JoinPlain([""] + Numbers(ns));
  }

  lemma {:induction false} DepsOfNumbers(ns: seq<nat>)
    requires All64(ns)
    ensures DepsOf([""] + Numbers(ns)) == Some(ns)
  {
    if ns == [] {
      assert ([""] + Numbers(ns))[..0] == [];
    } else {
      var k := |ns| - 1;
      DepsOfNumbers(ns[..k]);
      DepsOfDigits([""] + Numbers(ns[..k]), ns[k]);
      assert [""] + Numbers(ns) == [""] + Numbers(ns[..k]) + [Digits(ns[k])];
      assert ns == ns[..k] + [ns[k]];
    }
  }

  lemma {:induction false} DepsOfDigits(parts: seq<string>, n: nat)
    requires Is64(n) && DepsOf(parts).Some?
    ensures DepsOf(parts + [Digits(n)]) == Some(DepsOf(parts).value + [n])
  {
    ParseDigits(n);
    assert (parts + [Digits(n)])[..|parts|] == parts;
  }

  lemma StripLine(s: string)
    requires NoSpaces(s)
    ensures Strip(s) == s && Strip(s + "\n") == s
  {
    StripClean(s);
    var line := s + "\n";
    if s == "" {
      assert line[1..] == "";
    } else {
      assert line[..|line| - 1] == s;
    }
  }

  /** A printed line takes apart into the printed fields and dependency lists. */
  lemma LineTakesApart(r: Record)
    ensures NoSpaces(LineOf(r))
    ensures Split(LineOf(r), ':') == [Join(InfoFields(r), ','), DepText(r.robDeps), DepText(r.regDeps)]
  {
    var info, rob, reg := Join(InfoFields(r), ','), DepText(r.robDeps), DepText(r.regDeps);
    FieldsPlain(r);
    JoinPlain(InfoFields(r));
    DepTextPlain(r.robDeps);
    DepTextPlain(r.regDeps);
    SplitWithoutSeparator(reg, ':');
    SplitFirst(rob, reg, ':');
    SplitFirst(info, rob + ":" + reg, ':');
    assert LineOf(r) == info + ":" + (rob + ":" + reg);
  }

  lemma KindRoundTrip(k: Kind)
    ensures KindOf(KindName(k)) == Some(k)
  {
  }

  lemma FieldRoundTrip(n: nat)
    ensures Is64(n) ==> Field64(Digits(n)) == Some(n)
    ensures Is32(n) ==> Field32(Digits(n)) == Some(n)
  {
    ParseDigits(n);
  }

  /** The four leading fields of a printed record, and how many follow them. */
  lemma LeadingFields(r: Record)
    requires InRange(r)
    ensures var fields := InfoFields(r);
            && |fields| == 5 + |Optional(r.pAddr)| + |Optional(r.size)| + |Optional(r.flags)|
            && Field64(fields[0]) == Some(r.seqNum) && Field64(fields[1]) == Some(OrElse(r.pc, 0))
            && Field32(fields[2]) == Some(OrElse(r.weight, 1)) && KindOf(fields[3]) == Some(r.kind)
  {
    KindRoundTrip(r.kind);
    FieldRoundTrip(r.seqNum);
    FieldRoundTrip(OrElse(r.pc, 0));
    FieldRoundTrip(OrElse(r.weight, 1));
  }

  lemma AccessRoundTrip(r: Record)
    requires InRange(r)
    ensures r.pAddr.Some? && r.size.Some? && r.flags.Some? ==>
      AccessOf(InfoFields(r)) == Some(Access(r.pAddr.value, r.size.value, r.flags.value, r.compDelay))
    ensures !(r.pAddr.Some? && r.size.Some? && r.flags.Some?) ==> AccessOf(InfoFields(r)).None?
  {
    LeadingFields(r);
    if r.pAddr.Some? && r.size.Some? && r.flags.Some? {
      FieldRoundTrip(r.pAddr.value);
      FieldRoundTrip(r.size.value);
      FieldRoundTrip(r.flags.value);
      FieldRoundTrip(r.compDelay);
      var fields := InfoFields(r);
      assert fields[4] == Digits(r.pAddr.value) && fields[5] == Digits(r.size.value);
      assert fields[6] == Digits(r.flags.value) && fields[7] == Digits(r.compDelay);
    }
  }

  /** The part of a record that `InfoOf` fills in. */
  function WithoutDeps(r: Record): Record {
    r.(robDeps := [], regDeps := [])
  }

  /** The first part of a printed record reads back exactly for well-formed records. */
  lemma InfoRoundTrip(r: Record)
    requires InRange(r)
    ensures InfoOf(InfoFields(r)) == Some(WithoutDeps(WithDefaults(r))) <==> WellFormed(r)
  {
    LeadingFields(r);
    match r.kind
    case INVALID =>
    case COMP =>
      if WellFormed(r) {
        assert InfoFields(r)[4] == Digits(r.compDelay);
        FieldRoundTrip(r.compDelay);
      }
    case _ =>
      AccessRoundTrip(r);
  }

  lemma InfoHasNoDeps(fields: seq<string>)
    ensures var info := InfoOf(fields); info.Some? ==> info.value == WithoutDeps(info.value)
  {
  }

  /** Parsing a printed line parses its fields and restores both dependency lists. */
  lemma ParsePrinted(r: Record)
    requires InRange(r)
    ensures var info := InfoOf(InfoFields(r));
            ParseLine(LineOf(r) + "\n") ==
            if info.None? then None else Some(info.value.(robDeps := r.robDeps, regDeps := r.regDeps))
  {
    LineTakesApart(r);
    StripLine(LineOf(r));
    FieldsPlain(r);
    JoinPlain(InfoFields(r));
    DepTextPlain(r.robDeps);
    DepTextPlain(r.regDeps);
    StripClean(DepText(r.robDeps));
    DepsOfNumbers(r.robDeps);
    DepsOfNumbers(r.regDeps);
  }

  /**
   Parsing a printed line gives the record back, with the defaults filled in and both dependency
   lists in order, if and only if the record is well-formed.
   */
  lemma LineRoundTrip(r: Record)
    requires InRange(r)
    ensures ParseLine(LineOf(r) + "\n") == Some(WithDefaults(r)) <==> WellFormed(r)
  {
    ParsePrinted(r);
    InfoRoundTrip(r);
    InfoHasNoDeps(InfoFields(r));
    var info := InfoOf(InfoFields(r));
    if info.Some? {
      var back := info.value.(robDeps := r.robDeps, regDeps := r.regDeps);
      assert back == WithDefaults(r) <==> info.value == WithoutDeps(WithDefaults(r));
    }
  }

  // ----- lines that did not come from the printer -----

  lemma {:induction false} DepsInRange(parts: seq<string>)
    ensures var deps := DepsOf(parts); deps.Some? ==> All64(deps.value)
  {
    if parts != [] {
      DepsInRange(parts[..|parts| - 1]);
    }
  }

  /** Whatever line the parser accepts, its record is well-formed and complete, and prints and parses to itself. */
  lemma ParsedIsStable(line: string)
    requires ParseLine(line).Some?
    ensures var r := ParseLine(line).value;
            WellFormed(r) && InRange(r) && WithDefaults(r) == r && ParseLine(LineOf(r) + "\n") == Some(r)
  {
    var parts := Split(Strip(line), ':');
    DepsInRange(Split(Strip(parts[1]), ','));
    DepsInRange(Split(parts[2], ','));
    InfoInRange(Split(parts[0], ','));
    LineRoundTrip(ParseLine(line).value);
  }

  lemma InfoInRange(fields: seq<string>)
    ensures var info := InfoOf(fields);
            info.Some? ==> WellFormed(info.value) && InRange(info.value) && WithDefaults(info.value) == info.value
  {
  }

  /** A dependency list is accepted if every part is empty or a 64-bit number. */
  lemma {:induction false} DepsAcceptedIff(parts: seq<string>)
    ensures DepsOf(parts).Some? <==>
            forall p :: p in parts ==> p == "" || (AllDigits(p) && Value(p) < 0x1_0000_0000_0000_0000)
  {
    if parts != [] {
      var k := |parts| - 1;
      DepsAcceptedIff(parts[..k]);
      assert forall p :: p in parts <==> p in parts[..k] || p == parts[k];
    }
  }

  /** It holds the numbers of its parts that are not empty, in order. */
  lemma DepsOfNext(parts: seq<string>, p: string)
    requires DepsOf(parts + [p]).Some?
    ensures DepsOf([]) == Some([]) && DepsOf(parts).Some? && (p == "" ==> DepsOf(parts + [p]) == DepsOf(parts))
    ensures p != "" ==> AllDigits(p) && DepsOf(parts + [p]).value == DepsOf(parts).value + [Value(p)]
  {
    assert (parts + [p])[..|parts|] == parts;
  }

  /** White space around a line is ignored. */
  lemma SpacesIgnored(a: string, r: Record, b: string)
    requires AllSpaces(a) && AllSpaces(b)
    ensures ParseLine(a + LineOf(r) + b) == ParseLine(LineOf(r))
  {
    var line := LineOf(r);
    LineTakesApart(r);
    assert line != "" ==> line[0] in line && line[|line| - 1] in line;
    StripAround(a, line, b);
    StripClean(line);
  }

  /** Fields after the delay are ignored. */
  lemma ExtraFieldsIgnored(r: Record, more: seq<string>)
    requires InRange(r) && WellFormed(r)
    ensures InfoOf(InfoFields(r) + more) == Some(WithoutDeps(WithDefaults(r)))
  {
    InfoRoundTrip(r);
    assert InfoOf(InfoFields(r) + more) == InfoOf(InfoFields(r));
  }

  // ----- whole traces -----

  /** The lines of a text file, each without its newline. */
  function FileLines(text: string): seq<string> {
    var parts := Split(text, '\n');
    if parts[|parts| - 1] == "" then parts[..|parts| - 1] else parts
  }

  function TraceText(rs: seq<Record>): string {
    if rs == [] then "" else LineOf(rs[0]) + "\n" + TraceText(rs[1..])
  }

  /** The encoder's loop over the lines of a trace. */
  function ParseLines(lines: seq<string>): Option<seq<Record>> {
    if lines == [] then Some([])
    else
      var k := |lines| - 1;
      var before, last := ParseLines(lines[..k]), ParseLine(lines[k]);
      if before.None? || last.None? then None else Some(before.value + [last.value])
  }

  function AllWithDefaults(rs: seq<Record>): seq<Record> {
    if rs == [] then [] else AllWithDefaults(rs[..|rs| - 1]) + [WithDefaults(rs[|rs| - 1])]
  }

  function AllLines(rs: seq<Record>): (lines: seq<string>)
    ensures |lines| == |rs|
  {
    if rs == [] then [] else [LineOf(rs[0])] + AllLines(rs[1..])
  }

  lemma {:induction false} TraceSplits(rs: seq<Record>)
    ensures Split(TraceText(rs), '\n') == AllLines(rs) + [""]
  {
    if rs != [] {
      TraceSplits(rs[1..]);
      LineTakesApart(rs[0]);
      assert IsSpace('\n');
      SplitFirst(LineOf(rs[0]), TraceText(rs[1..]), '\n');
      assert [LineOf(rs[0])] + (AllLines(rs[1..]) + [""]) == AllLines(rs) + [""];
    }
  }

  lemma {:induction false} AllLinesAppend(rs: seq<Record>, r: Record)
    ensures AllLines(rs + [r]) == AllLines(rs) + [LineOf(r)]
  {
    if rs == [] {
      assert ([] + [r])[1..] == [];
    } else {
      AllLinesAppend(rs[1..], r);
      assert (rs + [r])[1..] == rs[1..] + [r];
      ConcatAssociative([LineOf(rs[0])], AllLines(rs[1..]), [LineOf(r)]);
    }
  }

  lemma ParseLinesAppend(lines: seq<string>, line: string)
    ensures var before, last := ParseLines(lines), ParseLine(line);
            ParseLines(lines + [line]) ==
            if before.None? || last.None? then None else Some(before.value + [last.value])
  {
    assert (lines + [line])[..|lines|] == lines;
  }

  /** Without its newline a printed line parses to the same record. */
  lemma NewlineIrrelevant(r: Record)
    ensures ParseLine(LineOf(r)) == ParseLine(LineOf(r) + "\n")
  {
    LineTakesApart(r);
    StripLine(LineOf(r));
  }

  lemma {:induction false} ParseAllLines(rs: seq<Record>)
    requires forall r :: r in rs ==> InRange(r) && WellFormed(r)
    ensures ParseLines(AllLines(rs)) == Some(AllWithDefaults(rs))
  {
    if rs != [] {
      var k := |rs| - 1;
      assert forall r :: r in rs[..k] ==> r in rs;
      assert rs[k] in rs;
      ParseAllLines(rs[..k]);
      SplitLast(rs);
      AllLinesAppend(rs[..k], rs[k]);
      ParseLinesAppend(AllLines(rs[..k]), LineOf(rs[k]));
      NewlineIrrelevant(rs[k]);
      LineRoundTrip(rs[k]);
    }
  }

  /** A printed trace parses back record by record. */
  lemma TraceRoundTrip(rs: seq<Record>)
    requires forall r :: r in rs ==> InRange(r) && WellFormed(r)
    ensures ParseLines(FileLines(TraceText(rs))) == Some(AllWithDefaults(rs))
  {
    TraceSplits(rs);
    ParseAllLines(rs);
    assert (AllLines(rs) + [""])[..|AllLines(rs)|] == AllLines(rs);
  }

  lemma TraceTextNext(rs: seq<Record>, i: nat)
    requires i < |rs|
    ensures TraceText(rs[i..]) == (LineOf(rs[i]) + "\n") + TraceText(rs[i + 1..])
  {
    assert rs[i..][1..] == rs[i + 1..];
  }

  /** The decoding loop over all records of a trace. */
  method DecodeTrace(rs: seq<Record>) returns (text: string)
    ensures text == TraceText(rs)
  {
    text := "";
    for i := 0 to |rs|
      invariant text + TraceText(rs[i..]) == TraceText(rs)
    {
      var line := PrintRecord(rs[i]);
      TraceTextNext(rs, i);
      ConcatAssociative(text, line, TraceText(rs[i + 1..]));
      text := text + line;
    }
  }

  /** The encoding loop over all lines of a trace. */
  method EncodeTrace(text: string) returns (rs: Option<seq<Record>>)
    ensures rs == ParseLines(FileLines(text))
  {
    var lines, done := FileLines(text), [];
    for i := 0 to |lines|
      invariant ParseLines(lines[..i]) == Some(done)
    {
      var r := ReadRecord(lines[i]);
      ParseLinesNext(lines, i);
      if r.None? {
        ParseLinesFail(lines, i + 1);
        return None;
      }
      done := done + [r.value];
    }
    assert lines[..|lines|] == lines;
    return Some(done);
  }

  lemma ParseLinesNext(lines: seq<string>, i: nat)
    requires i < |lines|
    ensures var before, last := ParseLines(lines[..i]), ParseLine(lines[i]);
            ParseLines(lines[..i + 1]) ==
            if before.None? || last.None? then None else Some(before.value + [last.value])
  {
    assert lines[..i + 1][..i] == lines[..i];
  }

  lemma {:induction false} ParseLinesFail(lines: seq<string>, i: nat)
    requires i <= |lines| && ParseLines(lines[..i]).None?
    ensures ParseLines(lines).None?
    decreases |lines| - i
  {
    if i == |lines| {
      assert lines[..i] == lines;
    } else {
      assert lines[..i + 1][..i] == lines[..i];
      ParseLinesFail(lines, i + 1);
    }
  }
}
