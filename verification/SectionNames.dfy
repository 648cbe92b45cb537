/**
 util/checkpoint_aggregator.py: the section names of a merged checkpoint. Every "cpu" in a section
 name gets the number of its checkpoint appended, padded to a fixed width.
 */
module SectionNames {
  import opened Text

  predicate StartsWithCpu(s: string) {
    |s| >= 3 && s[0] == 'c' && s[1] == 'p' && s[2] == 'u'
  }

  /** `re.compile("cpu").search(s)` */
  predicate HasCpu(s: string) {
    StartsWithCpu(s) || (s != "" && HasCpu(s[1..]))
  }

  /** `re.sub("cpu", "cpu" + number, s)` */
  function Rename(s: string, number: string): (r: string) {
    if StartsWithCpu(s) then "cpu" + number + Rename(s[3..], number)
    else if s == "" then ""
    else [s[0]] + Rename(s[1..], number)
  }

  /** The letters "cpu" stand somewhere in s. */
  ghost predicate Contains(s: string) {
    exists front, back :: s == front + "cpu" + back
  }

  lemma {:induction false} CpuFound(front: string, back: string)
    ensures HasCpu(front + "cpu" + back)
  {
    var s := front + "cpu" + back;
    if front != "" {
      CpuFound(front[1..], back);
      assert s[1..] == front[1..] + "cpu" + back;
    }
  }

  lemma {:induction false} FindCpu(s: string) returns (front: string, back: string)
    requires HasCpu(s)
    ensures s == front + "cpu" + back && !HasCpu(front)
  {
    if StartsWithCpu(s) {
      front, back := "", s[3..];
      assert s == ['c', 'p', 'u'] + s[3..];
    } else {
      var f;
      f, back := FindCpu(s[1..]);
      front := [s[0]] + f;
      assert s == [s[0]] + s[1..];
      StartsLater(front, back);
      assert front[1..] == f;
    }
  }

  lemma {:induction false} StartsLater(front: string, back: string)
    ensures StartsWithCpu(front) ==> StartsWithCpu(front + "cpu" + back)
  {
  }

  /** `HasCpu` finds the letters wherever they stand. */
  lemma {:induction false} HasCpuIff(s: string)
    ensures HasCpu(s) <==> Contains(s)
  {
    if HasCpu(s) {
      var front, back := FindCpu(s);
    }
    if front, back :| s == front + "cpu" + back {
      CpuFound(front, back);
    }
  }

  lemma {:induction false} RenameWithoutCpu(s: string, number: string)
    requires !HasCpu(s)
    ensures Rename(s, number) == s
  {
    if s != "" {
      RenameWithoutCpu(s[1..], number);
      assert s == [s[0]] + s[1..];
    }
  }

  /** The number is put behind the first "cpu", and so on in what follows it. */
  lemma {:induction false} RenameFirstCpu(a: string, b: string, number: string)
    requires !HasCpu(a)
    ensures Rename(a + "cpu" + b, number) == a + ("cpu" + number + Rename(b, number))
  {
    var s, r := a + "cpu" + b, "cpu" + number + Rename(b, number);
    if a == "" {
      assert s == "cpu" + b && s[3..] == b;
      assert a + r == r;
    } else {
      NotYet(a, b);
      assert s[0] == a[0] && s[1..] == a[1..] + "cpu" + b;
      RenameFirstCpu(a[1..], b, number);
      assert a + r == [a[0]] + (a[1..] + r);
    }
  }

  lemma {:induction false} NotYet(a: string, b: string)
    requires a != "" && !HasCpu(a)
    ensures !StartsWithCpu(a + "cpu" + b)
  {
    var s := a + "cpu" + b;
    if |a| >= 3 {
      assert s[0] == a[0] && s[1] == a[1] && s[2] == a[2];
    } else if |a| == 2 {
      assert s[2] == 'c';
    } else {
      assert s[1] == 'c';
    }
  }

  /** Drop n characters after every "cpu". */
  ghost function Unrename(s: string, n: nat): string
    decreases |s|
  {
    if StartsWithCpu(s) && |s| >= 3 + n then "cpu" + Unrename(s[3 + n..], n)
    else if s == "" then ""
    else [s[0]] + Unrename(s[1..], n)
  }

  /** The n characters after the first "cpu". */
  ghost function NumberIn(s: string, n: nat): string {
    if StartsWithCpu(s) && |s| >= 3 + n then s[3..3 + n]
    else if s == "" then ""
    else NumberIn(s[1..], n)
  }

  lemma {:induction false} RenameFirst(s: string, number: string)
    requires s != ""
    ensures Rename(s, number) != "" && Rename(s, number)[0] == s[0]
  {
  }

  /** Where no "cpu" starts, the renamed text goes on like the original as long as it reads "cp". */
  lemma {:induction false} RenameSecond(s: string, number: string)
    requires s != "" && !StartsWithCpu(s)
    requires var r := Rename(s, number); |r| >= 3 && r[0] == 'c' && r[1] == 'p'
    ensures |s| >= 3 && s[0] == 'c' && s[1] == 'p' && s[2] == Rename(s, number)[2]
  {
    RenameFirst(s[1..], number);
    assert s[1..][0] == s[1];
    assert Rename(s[1..], number) == [s[1]] + Rename(s[1..][1..], number);
    RenameFirst(s[1..][1..], number);
    assert s[1..][1..][0] == s[2];
  }

  /** A "cpu" starts the new name exactly when one started the old name. */
  lemma {:induction false} RenameStarts(s: string, number: string)
    ensures StartsWithCpu(Rename(s, number)) <==> StartsWithCpu(s)
  {
    var r := Rename(s, number);
    if s != "" && !StartsWithCpu(s) && |r| >= 3 && r[0] == 'c' && r[1] == 'p' {
      RenameSecond(s, number);
    }
  }

  /** The original name can be read back from the new one. */
  lemma {:induction false} UnrenameRename(s: string, number: string)
    ensures Unrename(Rename(s, number), |number|) == s
  {
    var r := Rename(s, number);
    RenameStarts(s, number);
    if StartsWithCpu(s) {
      UnrenameRename(s[3..], number);
      assert r[3 + |number|..] == Rename(s[3..], number);
      assert s == "cpu" + s[3..];
    } else if s != "" {
      UnrenameRename(s[1..], number);
      assert r[1..] == Rename(s[1..], number);
      assert s == [s[0]] + s[1..];
    }
  }

  /** So can the number, if there was a "cpu" to put it after. */
  lemma {:induction false} NumberInRename(s: string, number: string)
    requires HasCpu(s)
    ensures NumberIn(Rename(s, number), |number|) == number && HasCpu(Rename(s, number))
  {
    var r := Rename(s, number);
    RenameStarts(s, number);
    if StartsWithCpu(s) {
      assert r[3..3 + |number|] == number;
    } else {
      NumberInRename(s[1..], number);
      assert r[1..] == Rename(s[1..], number);
    }
  }

  // ----- numbers of a fixed width -----

  /** `str(i).zfill(width)` */
  function Zfill(s: string, width: nat): string
    decreases width - |s|
  {
    if |s| >= width then s else Zfill("0" + s, width)
  }

  lemma {:induction false} ZfillValue(s: string, width: nat)
    requires AllDigits(s)
    ensures AllDigits(Zfill(s, width)) && Value(Zfill(s, width)) == Value(s)
    ensures |s| <= width ==> |Zfill(s, width)| == width
    decreases width - |s|
  {
    if |s| < width {
      LeadingZero(s);
      ZfillValue("0" + s, width);
    }
  }

  lemma {:induction false} LeadingZero(s: string)
    requires AllDigits(s)
    ensures AllDigits("0" + s) && Value("0" + s) == Value(s)
  {
    var z := "0" + s;
    if s == "" {
      assert z[..0] == "" && Value("") == 0;
    } else {
      var k := |s| - 1;
      LeadingZero(s[..k]);
      assert z[..|z| - 1] == "0" + s[..k];
    }
  }

  lemma {:induction false} DigitsLonger(a: nat, b: nat)
    requires a <= b
    ensures |Digits(a)| <= |Digits(b)|
  {
    if b >= 10 && a >= 10 {
      assert a / 10 <= b / 10;
      DigitsLonger(a / 10, b / 10);
    }
  }

  /** The number given to checkpoint i of n. */
  function Number(i: nat, n: nat): string
    requires i < n
  {
    Zfill(Digits(i), |Digits(n - 1)|)
  }

  lemma {:induction false} NumberReadsBack(i: nat, n: nat)
    requires i < n
    ensures AllDigits(Number(i, n)) && |Number(i, n)| == |Digits(n - 1)| && Value(Number(i, n)) == i
  {
    DigitsLonger(i, n - 1);
    ZfillValue(Digits(i), |Digits(n - 1)|);
    ParseDigits(i);
  }

  /** For any number of checkpoints, the new name determines the checkpoint and the old name. */
  lemma {:induction false} RenamingIsInjective(n: nat, i: nat, s: string, j: nat, t: string)
    requires i < n && j < n && HasCpu(s) && HasCpu(t)
    requires Rename(s, Number(i, n)) == Rename(t, Number(j, n))
    ensures i == j && s == t
  {
    NumberReadsBack(i, n);
    NumberReadsBack(j, n);
    NumberInRename(s, Number(i, n));
    NumberInRename(t, Number(j, n));
    UnrenameRename(s, Number(i, n));
    UnrenameRename(t, Number(j, n));
  }
}
