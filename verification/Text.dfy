/** The string operations of Python that the trace and date tools rely on. */
module Text {
  import opened Arithmetic

  datatype Option<+T> = None | Some(value: T)

  // ----- decimal numbers -----

  predicate IsDigit(c: char) {
    '0' <= c <= '9'
  }

  function Digit(d: nat): (c: char)
    requires d < 10
    ensures IsDigit(c) && DigitValue(c) == d
  {
    "0123456789"[d]
  }

  function DigitValue(c: char): (d: nat)
    requires IsDigit(c)
    ensures d < 10
  {
    c as int - '0' as int
  }

  predicate AllDigits(s: string) {
    forall c :: c in s ==> IsDigit(c)
  }

  /** `'%d' % n` for a natural number. */
  function Digits(n: nat): (s: string)
    ensures s != "" && AllDigits(s)
  {
    if n < 10 then [Digit(n)] else Digits(n / 10) + [Digit(n % 10)]
  }

  function Value(s: string): nat
    requires AllDigits(s)
  {
    if s == "" then 0 else Value(s[..|s| - 1]) * 10 + DigitValue(s[|s| - 1])
  }

  /** `int(s)` on an unsigned decimal string; `None` is the ValueError. */
  function ParseNat(s: string): Option<nat> {
    if s != "" && AllDigits(s) then Some(Value(s)) else None
  }

  lemma {:induction false} ParseDigits(n: nat)
    ensures ParseNat(Digits(n)) == Some(n)
  {
    var s := Digits(n);
    if n < 10 {
      assert s[..|s| - 1] == "" && Value("") == 0;
    } else {
      ParseDigits(n / 10);
      assert s[..|s| - 1] == Digits(n / 10);
    }
  }

  ghost function Pow10(k: nat): (p: nat)
    ensures p > 0
  {
    if k == 0 then 1 else 10 * Pow10(k - 1)
  }

  /** The digits of a number are its decimal places, highest first and without leading zeros. */
  lemma {:induction false} DigitsAre(n: nat, k: nat)
    requires k < |Digits(n)|
    ensures Digits(n)[|Digits(n)| - 1 - k] as int == '0' as int + (n / Pow10(k)) % 10
    ensures n < Pow10(|Digits(n)|) && (|Digits(n)| > 1 ==> n >= Pow10(|Digits(n)| - 1))
  {
    if n >= 10 {
      var s := Digits(n / 10);
      DigitsAre(n / 10, if k == 0 then 0 else k - 1);
      assert |Digits(n)| == |s| + 1;
      if k > 0 {
        DivDiv(n, 10, Pow10(k - 1));
        assert Digits(n)[|s| - k] == s[|s| - 1 - (k - 1)];
      }
    } else {
      assert Pow10(0) == 1 && Pow10(1) == 10;
    }
  }

  // ----- splitting on a separator -----

  /** `s.split(sep)`: always at least one part, and parts may be empty. */
  function Split(s: string, sep: char): (parts: seq<string>)
    ensures parts != []
  {
    if s == "" then [""]
    else
      var rest := Split(s[1..], sep);
      if s[0] == sep then [""] + rest else [[s[0]] + rest[0]] + rest[1..]
  }

  lemma {:induction false} SplitWithoutSeparator(s: string, sep: char)
    requires sep !in s
    ensures Split(s, sep) == [s]
  {
    if s != "" {
      SplitWithoutSeparator(s[1..], sep);
      assert [s[0]] + s[1..] == s;
    }
  }

  lemma {:induction false} SplitFirst(part: string, rest: string, sep: char)
    requires sep !in part
    ensures Split(part + [sep] + rest, sep) == [part] + Split(rest, sep)
  {
    var s := part + [sep] + rest;
    if part == "" {
      assert s[1..] == rest;
    } else {
      SplitFirst(part[1..], rest, sep);
      assert s[1..] == part[1..] + [sep] + rest;
      assert [part[0]] + part[1..] == part;
    }
  }

  /** `sep.join(parts)` */
  function Join(parts: seq<string>, sep: char): string {
    if |parts| == 0 then ""
    else if |parts| == 1 then parts[0]
    else parts[0] + [sep] + Join(parts[1..], sep)
  }

  lemma {:induction false} JoinAppend(parts: seq<string>, last: string, sep: char)
    requires parts != []
    ensures Join(parts + [last], sep) == Join(parts, sep) + [sep] + last
  {
    if |parts| == 1 {
      assert (parts + [last])[1..] == [last];
    } else {
      JoinAppend(parts[1..], last, sep);
      assert (parts + [last])[1..] == parts[1..] + [last];
    }
  }

  /** Characters of a joined text come from its parts or are separators. */
  lemma {:induction false} JoinChars(parts: seq<string>, sep: char, c: char)
    requires c != sep && forall p :: p in parts ==> c !in p
    ensures c !in Join(parts, sep)
  {
    if |parts| > 1 {
      assert forall p :: p in parts[1..] ==> p in parts;
      JoinChars(parts[1..], sep, c);
      assert parts[0] in parts;
    } else if |parts| == 1 {
      assert parts[0] in parts;
    }
  }

  lemma {:induction false} SplitJoin(parts: seq<string>, sep: char)
    requires parts != [] && forall p :: p in parts ==> sep !in p
    ensures Split(Join(parts, sep), sep) == parts
  {
    if |parts| == 1 {
      SplitWithoutSeparator(parts[0], sep);
    } else {
      assert forall p :: p in parts[1..] ==> p in parts;
      SplitJoin(parts[1..], sep);
      SplitFirst(parts[0], Join(parts[1..], sep), sep);
      assert parts[0] in parts;
    }
  }

  // ----- comparing strings -----

  predicate StringLe(a: string, b: string) {
    a == "" || (b != "" && (a[0] < b[0] || (a[0] == b[0] && StringLe(a[1..], b[1..]))))
  }

  lemma {:induction false} StringOrder(a: string, b: string, c: string)
    ensures StringLe(a, b) || StringLe(b, a)
    ensures StringLe(a, b) && StringLe(b, a) ==> a == b
    ensures StringLe(a, b) && StringLe(b, c) ==> StringLe(a, c)
    decreases |a|
  {
    if a != "" && b != "" {
      StringOrder(a[1..], b[1..], if c == "" then "" else c[1..]);
      if StringLe(a, b) && StringLe(b, a) {
        assert a == [a[0]] + a[1..] && b == [b[0]] + b[1..];
      }
    }
  }

  /** a is a proper prefix of b, or smaller at the first difference. */
  ghost predicate Precedes(a: string, b: string) {
    || (|a| < |b| && b[..|a|] == a)
    || exists k :: 0 <= k < |a| && k < |b| && a[..k] == b[..k] && a[k] < b[k]
  }

  lemma {:induction false} PrecedesHead(a: string, b: string)
    requires a != "" && b != ""
    ensures Precedes(a, b) <==> a[0] < b[0] || (a[0] == b[0] && Precedes(a[1..], b[1..]))
  {
    var x, y := a[1..], b[1..];
    if a[0] < b[0] {
      assert a[..0] == b[..0];
    } else if a[0] == b[0] {
      if |a| < |b| && b[..|a|] == a {
        assert y[..|x|] == b[..|a|][1..];
      }
      if |x| < |y| && y[..|x|] == x {
        assert b[..|a|] == [b[0]] + y[..|x|] && a == [a[0]] + x;
      }
      if k :| 0 <= k < |a| && k < |b| && a[..k] == b[..k] && a[k] < b[k] {
        assert x[..k - 1] == a[..k][1..] && y[..k - 1] == b[..k][1..] && x[k - 1] < y[k - 1];
      }
      if k :| 0 <= k < |x| && k < |y| && x[..k] == y[..k] && x[k] < y[k] {
        assert a[..k + 1] == [a[0]] + x[..k] && b[..k + 1] == [b[0]] + y[..k] && a[k + 1] < b[k + 1];
      }
    } else if Precedes(a, b) {
      FirstAtMost(a, b);
    }
  }

  lemma {:induction false} FirstAtMost(a: string, b: string)
    requires a != "" && b != "" && Precedes(a, b)
    ensures a[0] <= b[0]
  {
    if |a| < |b| && b[..|a|] == a {
      assert b[..|a|][0] == b[0];
    } else {
      var k :| 0 <= k < |a| && k < |b| && a[..k] == b[..k] && a[k] < b[k];
      if k > 0 {
        assert a[..k][0] == a[0] && b[..k][0] == b[0];
      }
    }
  }

  lemma {:induction false} StringLeIff(a: string, b: string)
    ensures StringLe(a, b) <==> a == b || Precedes(a, b)
    decreases |a|
  {
    if a != "" && b != "" {
      PrecedesHead(a, b);
      StringLeIff(a[1..], b[1..]);
      assert a == [a[0]] + a[1..] && b == [b[0]] + b[1..];
    }
  }

  lemma {:induction false} NotBefore(a: string)
    ensures !Precedes(a, a)
  {
  }

  // ----- white space -----

  predicate IsSpace(c: char) {
    c == ' ' || '\t' <= c <= '\r'
  }

  /** Space, tab, newline, vertical tab, form feed and carriage return. */
  lemma SpaceIff(c: char)
    ensures IsSpace(c) <==> c in " \t\n\r" || c as int == 11 || c as int == 12
  {
    assert " \t\n\r" == [' ', '\t', '\n', '\r'];
  }

  predicate AllSpaces(s: string) {
    forall c :: c in s ==> IsSpace(c)
  }

  predicate NoSpaces(s: string) {
    forall c :: c in s ==> !IsSpace(c)
  }

  /** `s.strip()` */
  function Strip(s: string): string {
    if s == "" then ""
    else if IsSpace(s[0]) then Strip(s[1..])
    else if IsSpace(s[|s| - 1]) then Strip(s[..|s| - 1])
    else s
  }

  lemma StripClean(s: string)
    requires NoSpaces(s)
    ensures Strip(s) == s
  {
  }

  /** Stripping removes the white space at both ends and nothing else. */
  lemma {:induction false} StripAround(a: string, s: string, b: string)
    requires AllSpaces(a) && AllSpaces(b)
    requires s != "" ==> !IsSpace(s[0]) && !IsSpace(s[|s| - 1])
    ensures Strip(a + s + b) == s
    decreases |a| + |b|
  {
    var all := a + s + b;
    if a != "" {
      assert all[0] == a[0] && a[0] in a && all[1..] == a[1..] + s + b;
      assert forall c :: c in a[1..] ==> c in a;
      StripAround(a[1..], s, b);
    } else if s == "" {
      if b != "" {
        assert all[0] == b[0] && b[0] in b && all[1..] == "" + s + b[1..];
        assert forall c :: c in b[1..] ==> c in b;
        StripAround("", s, b[1..]);
      }
    } else if b != "" {
      var k := |b| - 1;
      assert all[0] == s[0] && all[|all| - 1] == b[k] && b[k] in b && all[..|all| - 1] == "" + s + b[..k];
      assert forall c :: c in b[..k] ==> c in b;
      StripAround("", s, b[..k]);
    } else {
      assert all == s;
    }
  }

  function WordLength(s: string): (n: nat)
    ensures n <= |s| && NoSpaces(s[..n]) && (n < |s| ==> IsSpace(s[n]))
    ensures s != "" && !IsSpace(s[0]) ==> n > 0
  {
    if s == "" || IsSpace(s[0]) then 0
    else
      var n := WordLength(s[1..]);
      assert s[..n + 1] == [s[0]] + s[1..][..n];
      n + 1
  }

  /** `s.split()`: the maximal runs of characters that are not white space. */
  function Words(s: string): (words: seq<string>)
    ensures forall w :: w in words ==> IsWord(w)
    decreases |s|
  {
    if s == "" then []
    else if IsSpace(s[0]) then Words(s[1..])
    else
      var n := WordLength(s);
      [s[..n]] + Words(s[n..])
  }

  predicate IsWord(s: string) {
    s != "" && NoSpaces(s)
  }

  lemma {:induction false} WordsFirst(w: string, rest: string)
    requires IsWord(w)
    ensures Words(w + " " + rest) == [w] + Words(rest)
    ensures Words(w) == [w]
  {
    var s := w + " " + rest;
    WordLengthOf(w, " " + rest);
    assert w + (" " + rest) == s;
    assert s[..|w|] == w && s[|w|..] == " " + rest;
    assert s[|w|..][1..] == rest;
    WordLengthOf(w, "");
    assert w + "" == w;
    assert w[..|w|] == w && w[|w|..] == "";
  }

  lemma {:induction false} WordLengthOf(w: string, rest: string)
    requires NoSpaces(w) && (rest != "" ==> IsSpace(rest[0]))
    ensures WordLength(w + rest) == |w|
  {
    var s := w + rest;
    if w != "" {
      assert s[1..] == w[1..] + rest;
      WordLengthOf(w[1..], rest);
    }
  }

  /** White space separates words, wherever it stands. */
  lemma {:induction false} WordsSplit(s: string, c: char, rest: string)
    requires IsSpace(c)
    ensures Words(s + [c] + rest) == Words(s) + Words(rest)
    decreases |s|
  {
    var all := s + [c] + rest;
    if s == "" {
      assert all[1..] == rest;
    } else if IsSpace(s[0]) {
      assert all[1..] == s[1..] + [c] + rest;
      WordsSplit(s[1..], c, rest);
    } else {
      var n := WordLength(s);
      assert all == s[..n] + (s[n..] + [c] + rest);
      WordLengthOf(s[..n], s[n..] + [c] + rest);
      assert all[..n] == s[..n] && all[n..] == s[n..] + [c] + rest;
      WordsSplit(s[n..], c, rest);
    }
  }

  lemma {:induction false} WordsJoin(words: seq<string>)
    requires forall w :: w in words ==> IsWord(w)
    ensures Words(Join(words, ' ')) == words
  {
    if |words| == 1 {
      WordsFirst(words[0], "");
    } else if |words| > 1 {
      assert forall w :: w in words[1..] ==> w in words;
      WordsJoin(words[1..]);
      WordsFirst(words[0], Join(words[1..], ' '));
      assert [' '] == " ";
    }
  }
}
