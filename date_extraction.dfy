/** `_extract_date`: the first valid calendar date written in a line, in one of three
    numeric layouts, and the line with that date taken out. The same layouts, anchored
    to the whole text, serve the date editor. */
module DateExtraction {
  import opened Wrappers
  import opened Text
  import opened Calendar

  /** The three digit groups of a match and the position just past it. */
  datatype Groups = Groups(a: nat, b: nat, c: nat, end: nat)

  /** `\b(\d{1,2})<sep>(\d{1,2})<sep>(\d{2,4})\b` matching at position `i`. Each group
      must be a whole run of digits: a shorter prefix of a run is followed by a digit,
      which is neither the separator nor a word boundary. */
  function SeparatedAt(s: string, i: nat, sep: char): (r: Option<Groups>)
    requires !IsDigit(sep)
    ensures r.Some? ==> i < r.value.end <= |s|
  {
    if !(i < |s| && IsDigit(s[i]) && BoundaryAt(s, i)) then None
    else
      var j1 := DigitEnd(s, i);
      if !(j1 - i <= 2 && j1 < |s| && s[j1] == sep) then None
      else
        var j2 := DigitEnd(s, j1 + 1);
        if !(1 <= j2 - (j1 + 1) <= 2 && j2 < |s| && s[j2] == sep) then None
        else
          var j3 := DigitEnd(s, j2 + 1);
          if !(2 <= j3 - (j2 + 1) <= 4 && BoundaryAt(s, j3)) then None
          else Some(Groups(DigitsValue(s[i..j1]), DigitsValue(s[j1 + 1..j2]), DigitsValue(s[j2 + 1..j3]), j3))
  }

  /** `\b(\d{6})\b` matching at position `i`, split as DD, MM, YY. */
  function SixDigitsAt(s: string, i: nat): (r: Option<Groups>)
    ensures r.Some? ==> r.value.end == i + 6 <= |s|
  {
    if !(i < |s| && IsDigit(s[i]) && BoundaryAt(s, i)) then None
    else
      var j := DigitEnd(s, i);
      if !(j - i == 6 && BoundaryAt(s, j)) then None
      else Some(Groups(DigitsValue(s[i..i + 2]), DigitsValue(s[i + 2..i + 4]), DigitsValue(s[i + 4..i + 6]), j))
  }

  /** The position of the first match of the separated layout (`re.search`). */
  function FirstSeparated(s: string, sep: char): (r: Option<nat>)
    requires !IsDigit(sep)
    ensures r.Some? ==> r.value <= |s| && SeparatedAt(s, r.value, sep).Some?
    ensures r.Some? ==> forall k :: 0 <= k < r.value ==> SeparatedAt(s, k, sep).None?
    ensures r.None? ==> forall k :: 0 <= k <= |s| ==> SeparatedAt(s, k, sep).None?
  {
    var p := (k: nat) => SeparatedAt(s, k, sep).Some?;
    var r := FindFrom(0, |s|, p);
    assert forall k: nat :: p(k) == SeparatedAt(s, k, sep).Some?;
    r
  }

  function FirstSixDigits(s: string): (r: Option<nat>)
    ensures r.Some? ==> r.value <= |s| && SixDigitsAt(s, r.value).Some?
    ensures r.Some? ==> forall k :: 0 <= k < r.value ==> SixDigitsAt(s, k).None?
    ensures r.None? ==> forall k :: 0 <= k <= |s| ==> SixDigitsAt(s, k).None?
  {
    var p := (k: nat) => SixDigitsAt(s, k).Some?;
    var r := FindFrom(0, |s|, p);
    assert forall k: nat :: p(k) == SixDigitsAt(s, k).Some?;
    r
  }

  /** The day-month-year reading of the groups (dotted and six-digit layouts). */
  function DayFirst(g: Groups): Option<Date> {
    MakeDate(ExpandYear(g.c), g.b, g.a)
  }

  /** The month-day-year reading of the groups (slashed layout). */
  function MonthFirst(g: Groups): Option<Date> {
    MakeDate(ExpandYear(g.c), g.a, g.b)
  }

  /** Third tier: six bare digits as DDMMYY. */
  function FromSixDigits(text: string): (r: (Option<Date>, string))
    ensures r.0.Some? ==> ValidDate(r.0.value)
    ensures r.0.None? ==> r.1 == text
  {
    match FirstSixDigits(text)
    case None => (None, text)
    case Some(i) =>
      var g := SixDigitsAt(text, i).value;
      match DayFirst(g)
      case Some(d) => (Some(d), Cut(text, i, g.end))
      case None => (None, text)
  }

  /** Second tier: `M/D/YY(YY)`, falling through to the third when absent or impossible. */
  function FromSlashed(text: string): (r: (Option<Date>, string))
    ensures r.0.Some? ==> ValidDate(r.0.value)
    ensures r.0.None? ==> r.1 == text
  {
    match FirstSeparated(text, '/')
    case None => FromSixDigits(text)
    case Some(i) =>
      var g := SeparatedAt(text, i, '/').value;
      match MonthFirst(g)
      case Some(d) => (Some(d), Cut(text, i, g.end))
      case None => FromSixDigits(text)
  }

  /** `_extract_date(text)`: `D.M.YY(YY)`, then `M/D/YY(YY)`, then `DDMMYY`. Only the
      first match of each layout is tried; when its values are not a calendar date the
      next layout is tried. The date's text is cut out of the line and the rest
      stripped; when there is no date the text comes back unchanged. */
  function ExtractDate(text: string): (r: (Option<Date>, string))
    ensures r.0.Some? ==> ValidDate(r.0.value)
    ensures r.0.None? ==> r.1 == text
    ensures |r.1| <= |text|
  {
    match FirstSeparated(text, '.')
    case None => FromSlashed(text)
    case Some(i) =>
      var g := SeparatedAt(text, i, '.').value;
      match DayFirst(g)
      case Some(d) => (Some(d), Cut(text, i, g.end))
      case None => FromSlashed(text)
  }

  // ---------------------------------------------------------------------------
  // Properties
  // ---------------------------------------------------------------------------

  /** An impossible first dotted date (month 13, day 32, 29 February of a common year)
      is a non-match: the result is whatever the slashed and six-digit layouts give. */
  lemma InvalidDottedFallsThrough(text: string, i: nat)
    requires FirstSeparated(text, '.') == Some(i)
    requires DayFirst(SeparatedAt(text, i, '.').value).None?
    ensures ExtractDate(text) == FromSlashed(text)
  {
  }

  /** Writing a date of this century as `D.M.YY` and extracting it gives the date back,
      with nothing left over: the two-digit year is read as 2000 + YY. */
  lemma {:induction false} DottedRoundTrip(d: Date)
    requires ValidDate(d) && 2000 <= d.year <= 2099
    ensures ExtractDate(DottedText(d)) == (Some(d), "")
  {
    var s := DottedText(d);
    var ds, ms, ys := NatToString(d.day), NatToString(d.month), ZeroPad(NatToString(d.year - 2000), 2);
    ThisCenturyGroups(d);
    DigitGroupsRead(ds, ms, ys, '.');
    var g := SeparatedAt(s, 0, '.').value;
    assert g.a == d.day && g.b == d.month && g.c == d.year - 2000;
    assert FirstSeparated(s, '.') == Some(0);
    assert DayFirst(g) == Some(d);
    assert s[..0] + s[|s|..] == [];
  }

  /** Writing a date of this century as `M/D/YY` and extracting it gives the date back. */
  lemma {:induction false} SlashedRoundTrip(d: Date)
    requires ValidDate(d) && 2000 <= d.year <= 2099
    ensures ExtractDate(SlashedText(d)) == (Some(d), "")
  {
    var s := SlashedText(d);
    var ds, ms, ys := NatToString(d.month), NatToString(d.day), ZeroPad(NatToString(d.year - 2000), 2);
    ThisCenturyGroups(d);
    DigitGroupsRead(ds, ms, ys, '/');
    var g := SeparatedAt(s, 0, '/').value;
    assert g.a == d.month && g.b == d.day && g.c == d.year - 2000;
    assert FirstSeparated(s, '/') == Some(0);
    NoSeparatorNoMatch(s, '.');
    assert MonthFirst(g) == Some(d);
    assert s[..0] + s[|s|..] == [];
  }

  /** Writing a date of this century as `DDMMYY` and extracting it gives the date back:
      with neither dots nor slashes, the six-digit layout reads it. */
  lemma {:induction false} SixDigitRoundTrip(d: Date)
    requires ValidDate(d) && 2000 <= d.year <= 2099
    ensures ExtractDate(CompactText(d)) == (Some(d), "")
  {
    var s := CompactText(d);
    CompactDigits(d);
    NoSeparatorNoMatch(s, '.');
    NoSeparatorNoMatch(s, '/');
    DigitEndIs(s, 0, 6);
    assert IsDigit(s[0]) && s[0..2] == s[..2] && s[4..6] == s[4..];
    var g := SixDigitsAt(s, 0).value;
    assert g == Groups(DigitsValue(s[..2]), DigitsValue(s[2..4]), DigitsValue(s[4..]), 6);
    assert FirstSixDigits(s) == Some(0);
    assert DayFirst(g) == Some(d);
    assert s[..0] + s[6..] == [];
  }

  /** A date of this century written `DDMMYY`. */
  function CompactText(d: Date): string
    requires 2000 <= d.year && d.day >= 0 && d.month >= 0
  {
    ZeroPad(NatToString(d.day), 2) + ZeroPad(NatToString(d.month), 2) + ZeroPad(NatToString(d.year - 2000), 2)
  }

  /** The six digits of `CompactText(d)` and the values of its three pairs. */
  lemma CompactDigits(d: Date)
    requires ValidDate(d) && 2000 <= d.year <= 2099
    ensures var t := CompactText(d);
            |t| == 6 && AllDigits(t) && DigitsValue(t[..2]) == d.day && DigitsValue(t[2..4]) == d.month
            && DigitsValue(t[4..]) + 2000 == d.year
  {
    var y: nat := d.year - 2000;
    var dd, mm, yy := ZeroPad(NatToString(d.day), 2), ZeroPad(NatToString(d.month), 2), ZeroPad(NatToString(y), 2);
    assert AllDigits(dd) && |dd| == 2 && DigitsValue(dd) == d.day by {
      NatToStringLength(d.day, 2);
      PaddedValue(d.day, 2);
    }
    assert AllDigits(mm) && |mm| == 2 && DigitsValue(mm) == d.month by {
      NatToStringLength(d.month, 2);
      PaddedValue(d.month, 2);
    }
    assert AllDigits(yy) && |yy| == 2 && DigitsValue(yy) == y by {
      NatToStringLength(y, 2);
      PaddedValue(y, 2);
    }
    SixDigitGroups(dd, mm, yy, CompactText(d));
  }

  /** Three two-digit groups side by side make six digits. */
  lemma SixDigitGroups(dd: string, mm: string, yy: string, t: string)
    requires AllDigits(dd) && |dd| == 2 && AllDigits(mm) && |mm| == 2 && AllDigits(yy) && |yy| == 2
    requires t == dd + mm + yy
    ensures |t| == 6 && AllDigits(t) && t[..2] == dd && t[2..4] == mm && t[4..] == yy
  {
    forall i | 0 <= i < 6
      ensures IsDigit(t[i])
    {
      if i < 2 { assert t[i] == dd[i]; } else if i < 4 { assert t[i] == mm[i - 2]; } else { assert t[i] == yy[i - 4]; }
    }
  }

  /** A number zero-padded to any width reads back as itself. */
  lemma PaddedValue(n: nat, width: nat)
    ensures AllDigits(ZeroPad(NatToString(n), width))
    ensures DigitsValue(ZeroPad(NatToString(n), width)) == n
  {
    LeadingZerosValue(NatToString(n), width);
    NatToStringRoundTrip(n);
  }

  function DottedText(d: Date): string
    requires 2000 <= d.year && d.day >= 0 && d.month >= 0
  {
    NatToString(d.day) + "." + NatToString(d.month) + "." + ZeroPad(NatToString(d.year - 2000), 2)
  }

  function SlashedText(d: Date): string
    requires 2000 <= d.year && d.day >= 0 && d.month >= 0
  {
    NatToString(d.month) + "/" + NatToString(d.day) + "/" + ZeroPad(NatToString(d.year - 2000), 2)
  }

  /** The digit strings a date of this century is written with, and their values. */
  lemma ThisCenturyGroups(d: Date)
    requires ValidDate(d) && 2000 <= d.year <= 2099
    ensures 1 <= |NatToString(d.day)| <= 2 && DigitsValue(NatToString(d.day)) == d.day
    ensures 1 <= |NatToString(d.month)| <= 2 && DigitsValue(NatToString(d.month)) == d.month
    ensures var y := ZeroPad(NatToString(d.year - 2000), 2);
            |y| == 2 && AllDigits(y) && DigitsValue(y) == d.year - 2000
  {
    assert Pow10(2) == 100;
    NatToStringLength(d.day, 2);
    NatToStringLength(d.month, 2);
    NatToStringLength(d.year - 2000, 2);
    NatToStringRoundTrip(d.day);
    NatToStringRoundTrip(d.month);
    NatToStringRoundTrip(d.year - 2000);
    LeadingZerosValue(NatToString(d.year - 2000), 2);
  }

  /** A text without the separator has no match of the separated layout. */
  lemma NoSeparatorNoMatch(s: string, sep: char)
    requires !IsDigit(sep) && forall k :: 0 <= k < |s| ==> s[k] != sep
    ensures FirstSeparated(s, sep).None?
  {
    forall k | 0 <= k <= |s| ensures SeparatedAt(s, k, sep).None? {
    }
  }

  /** Three digit strings joined by a separator are matched at 0 with exactly those
      groups, when their lengths fit the layout. */
  lemma {:induction false} DigitGroupsRead(x: string, y: string, z: string, sep: char)
    requires AllDigits(x) && AllDigits(y) && AllDigits(z) && !IsDigit(sep) && !IsWordChar(sep)
    requires 1 <= |x| <= 2 && 1 <= |y| <= 2 && 2 <= |z| <= 4
    ensures var s := x + [sep] + y + [sep] + z;
            SeparatedAt(s, 0, sep) == Some(Groups(DigitsValue(x), DigitsValue(y), DigitsValue(z), |s|))
  {
    var s := x + [sep] + y + [sep] + z;
    var j1, j2 := |x|, |x| + 1 + |y|;
    DigitEndIs(s, 0, j1);
    DigitEndIs(s, j1 + 1, j2);
    DigitEndIs(s, j2 + 1, |s|);
    assert s[0..j1] == x && s[j1 + 1..j2] == y && s[j2 + 1..|s|] == z;
  }
}
