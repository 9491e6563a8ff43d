/** Calendar days and the day texts the routes build and read back
    (`${year}-12-31`, `p.split('-')` and `new Date(y, m - 1, d)`). */
module Dates {
  import opened Wrappers
  import opened Text
  import opened Models

  predicate IsLeapYear(y: nat) {
    y % 4 == 0 && (y % 100 != 0 || y % 400 == 0)
  }

  function DaysInMonth(y: nat, m: nat): (n: nat)
    requires 1 <= m <= 12
    ensures 28 <= n <= 31
  {
    if m == 2 then (if IsLeapYear(y) then 29 else 28)
    else if m == 4 || m == 6 || m == 9 || m == 11 then 30
    else 31
  }

  /** `s.split(sep)`: the pieces between the separators, in order. */
  function Split(s: string, sep: char): (r: seq<string>)
    ensures |r| >= 1
    decreases |s|
  {
    var head := BeforeFirst(s, sep);
    if |head| == |s| then [s] else [head] + Split(s[|head| + 1..], sep)
  }

  /** The longest run of digits `s` starts with. */
  function LeadingDigits(s: string): (r: string)
    ensures AllDigits(r) && |r| <= |s| && r == s[..|r|]
    ensures |r| < |s| ==> !IsDigit(s[|r|])
  {
    if s == [] || !IsDigit(s[0]) then [] else [s[0]] + LeadingDigits(s[1..])
  }

  /** `parseInt(s, 10)` on text that starts with a digit: the value of its
      leading digits; none (NaN) when it does not start with one. */
  function ParseIntText(s: string): (r: Option<nat>)
    ensures r.None? <==> (s == [] || !IsDigit(s[0]))
  {
    var ds := LeadingDigits(s);
    if ds == [] then None else Some(ParseNat(ds))
  }

  /** `new Date(y, m - 1, d)` for `const [y, m, d] = p.split('-')`, each part
      read by `parseInt`: local midnight of that calendar day, a year below
      100 being read as 19xx. None when a part is missing or unreadable
      (`Invalid Date`) or the month or day is off the calendar. */
  function LocalMidnight(p: string): Option<Date>
  {
    var parts := Split(p, '-');
    if |parts| < 3 then None
    else
      var y, m, d := ParseIntText(parts[0]), ParseIntText(parts[1]), ParseIntText(parts[2]);
      if y.None? || m.None? || d.None? then None
      else
        var year := if y.value <= 99 then 1900 + y.value else y.value;
        if 1 <= m.value <= 12 && 1 <= d.value <= DaysInMonth(year, m.value) then Some(Date(year, m.value, d.value, 0))
        else None
  }

  // ---------------------------------------------------------------------------
  // Reading back a day text
  // ---------------------------------------------------------------------------

  lemma {:induction false} BeforeFirstOfJoin(a: string, sep: char, b: string)
    requires sep !in a
    ensures BeforeFirst(a + [sep] + b, sep) == a
  {
    if a != [] {
      assert (a + [sep] + b)[1..] == a[1..] + [sep] + b;
      BeforeFirstOfJoin(a[1..], sep, b);
    } else {
      assert (a + [sep] + b)[0] == sep;
    }
  }

  /** Splitting a joined text gives back its first piece, then the rest. */
  lemma SplitOfJoin(a: string, sep: char, b: string)
    requires sep !in a
    ensures Split(a + [sep] + b, sep) == [a] + Split(b, sep)
  {
    BeforeFirstOfJoin(a, sep, b);
    assert (a + [sep] + b)[|a| + 1..] == b;
  }

  lemma {:induction false} LeadingDigitsOfDigits(s: string)
    requires AllDigits(s)
    ensures LeadingDigits(s) == s
  {
    if s != [] {
      LeadingDigitsOfDigits(s[1..]);
    }
  }

  lemma {:induction false} BeforeFirstAbsent(s: string, sep: char)
    requires sep !in s
    ensures BeforeFirst(s, sep) == s
  {
    if s != [] {
      BeforeFirstAbsent(s[1..], sep);
    }
  }

  /** Splitting three joined pieces gives them back. */
  lemma SplitThree(a: string, b: string, c: string, sep: char)
    requires sep !in a && sep !in b && sep !in c
    ensures Split(a + [sep] + b + [sep] + c, sep) == [a, b, c]
  {
    assert a + [sep] + b + [sep] + c == a + [sep] + (b + [sep] + c);
    SplitOfJoin(a, sep, b + [sep] + c);
    SplitOfJoin(b, sep, c);
    BeforeFirstAbsent(c, sep);
  }

  lemma {:induction false} ParseIntOfNatText(n: nat)
    ensures ParseIntText(NatToString(n)) == Some(n)
  {
    LeadingDigitsOfDigits(NatToString(n));
    ParseNatToString(n);
  }

  lemma December31Pieces(ys: string)
    ensures ys + "-12-31" == ys + ['-'] + NatToString(12) + ['-'] + NatToString(31)
  {
    assert NatToString(12) == "12" && NatToString(31) == "31";
    var tail := "-12-31";
    assert tail == ['-'] + "12" + ['-'] + "31";
  }

  lemma NoDashInNumber(n: nat)
    ensures '-' !in NatToString(n)
  {
    var s := NatToString(n);
    assert forall k :: 0 <= k < |s| ==> IsDigit(s[k]);
  }

  lemma LocalMidnightOfParts(p: string, y: nat, m: nat, d: nat)
    requires |Split(p, '-')| >= 3
    requires ParseIntText(Split(p, '-')[0]) == Some(y) && y >= 100
    requires ParseIntText(Split(p, '-')[1]) == Some(m) && 1 <= m <= 12
    requires ParseIntText(Split(p, '-')[2]) == Some(d) && 1 <= d <= DaysInMonth(y, m)
    ensures LocalMidnight(p) == Some(Date(y, m, d, 0))
  {
  }

  /** `${y}-12-31` reads back as local midnight of December 31 of `y`, for
      any year from 100 on. */
  lemma December31RoundTrip(y: nat)
    requires y >= 100
    ensures LocalMidnight(NatToString(y) + "-12-31") == Some(Date(y, 12, 31, 0))
  {
    var p := NatToString(y) + "-12-31";
    var ys, mm, dd := NatToString(y), NatToString(12), NatToString(31);
    assert Split(p, '-') == [ys, mm, dd] by {
      NoDashInNumber(y);
      NoDashInNumber(12);
      NoDashInNumber(31);
      December31Pieces(ys);
      SplitThree(ys, mm, dd, '-');
    }
    assert ParseIntText(ys) == Some(y) && ParseIntText(mm) == Some(12) && ParseIntText(dd) == Some(31) by {
      ParseIntOfNatText(y);
      ParseIntOfNatText(12);
      ParseIntOfNatText(31);
    }
    LocalMidnightOfParts(p, y, 12, 31);
  }
}
