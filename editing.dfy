/** The value parsers of the row editor: `eval_qty` for a quantity cell and
    `parse_date` for a date cell. */
module Editing {
  import opened Wrappers
  import opened Text
  import opened Calendar
  import opened Formatting
  import opened DateExtraction

  /** `[x×*]`: the multiplication signs of a quantity expression. */
  predicate IsTimes(c: char) {
    c == 'x' || c == '\U{00D7}' || c == '*'
  }

  /** `^(\d+)\s*[x×*]\s*(\d+)$`: the two factors of a product, written with
      nothing around it. */
  function ProductMatch(t: string): (r: Option<(nat, nat)>)
    ensures r.Some? ==> t != [] && IsDigit(t[0]) && IsDigit(t[|t| - 1])
  {
    var e1 := DigitEnd(t, 0);
    if e1 == 0 then None
    else
      var k := SpaceEnd(t, e1);
      if k >= |t| || !IsTimes(t[k]) then None
      else
        var k2 := SpaceEnd(t, k + 1);
        var e2 := DigitEnd(t, k2);
        if e2 == k2 || e2 != |t| then None
        else Some((DigitsValue(t[..e1]), DigitsValue(t[k2..e2])))
  }

  /** The integer texts `float()` accepts: an optional sign and decimal digits. */
  function IntegerLiteral(t: string): (r: Option<int>)
    ensures r.Some? ==> t != [] && IsDigit(t[|t| - 1])
  {
    assert |t| > 1 ==> t[|t| - 1] == t[1..][|t| - 2];
    if t != [] && (t[0] == '+' || t[0] == '-') && |t| > 1 && AllDigits(t[1..]) then
      Some(if t[0] == '-' then -(DigitsValue(t[1..]) as int) else DigitsValue(t[1..]) as int)
    else if t != [] && AllDigits(t) then Some(DigitsValue(t) as int)
    else None
  }

  /** `eval_qty(text)`: a product `AxB`, or a plain whole number; `None` otherwise. */
  function EvalQty(text: string): (r: Option<int>)
    ensures r.Some? ==> Strip(text) != [] && IsDigit(Strip(text)[|Strip(text)| - 1])
  {
    var t := Strip(text);
    match ProductMatch(t)
    case Some((a, b)) => Some(a * b)
    case None => IntegerLiteral(t)
  }

  lemma DigitEndAt(s: string, i: nat, j: nat)
    requires i <= j <= |s| && AllDigits(s[i..j]) && (j == |s| || !IsDigit(s[j]))
    ensures DigitEnd(s, i) == j
  {
    forall k | i <= k < j
      ensures IsDigit(s[k])
    {
      assert s[i..j][k - i] == s[k];
    }
  }

  lemma SpaceEndAt(s: string, i: nat)
    requires i < |s| && !IsSpace(s[i])
    ensures SpaceEnd(s, i) == i
  {
  }

  lemma StripUnchanged(t: string)
    requires t != [] && !IsSpace(t[0]) && !IsSpace(t[|t| - 1])
    ensures Strip(t) == t
  {
  }

  lemma ProductMatchText(sa: string, op: char, sb: string, t: string)
    requires sa != [] && AllDigits(sa) && IsTimes(op) && sb != [] && AllDigits(sb)
    requires t == sa + [op] + sb
    ensures ProductMatch(t) == Some((DigitsValue(sa), DigitsValue(sb)))
  {
    var n := |sa|;
    assert t[..n] == sa && t[n] == op && t[n + 1..] == sb;
    DigitEndAt(t, 0, n);
    SpaceEndAt(t, n);
    assert t[n + 1] == sb[0];
    SpaceEndAt(t, n + 1);
    DigitEndAt(t, n + 1, |t|);
    assert t[n + 1..|t|] == sb;
  }

  /** A product written `AxB`, `A×B` or `A*B` evaluates to the product of the two
      numbers. */
  lemma EvalProduct(a: nat, op: char, b: nat)
    requires IsTimes(op)
    ensures EvalQty(NatToString(a) + [op] + NatToString(b)) == Some(a * b)
  {
    var sa, sb := NatToString(a), NatToString(b);
    var t := sa + [op] + sb;
    assert t[0] == sa[0] && t[|t| - 1] == sb[|sb| - 1];
    StripUnchanged(t);
    ProductMatchText(sa, op, sb, t);
    NatToStringRoundTrip(a);
    NatToStringRoundTrip(b);
  }

  /** A text without a digit is no quantity (the `inf` and `nan` spellings `float()`
      accepts are not part of this model). */
  lemma NoDigitNoQty(text: string)
    requires forall i :: 0 <= i < |text| ==> !IsDigit(text[i])
    ensures EvalQty(text).None?
  {
    StripChars(text);
  }

  /** What `format_qty` writes, `eval_qty` reads back. */
  lemma EvalFormatQty(n: int)
    ensures EvalQty(FormatQty(Some(n))) == Some(n)
  {
    var t := IntToString(n);
    var m: nat := if n < 0 then -n else n;
    var digits := NatToString(m);
    NatToStringRoundTrip(m);
    if n < 0 {
      assert t == "-" + digits && t[1..] == digits;
      assert IsDigit(t[|t| - 1]);
      StripUnchanged(t);
      assert DigitEnd(t, 0) == 0;
    } else {
      assert t == digits && IsDigit(t[0]) && IsDigit(t[|t| - 1]);
      StripUnchanged(t);
      DigitEndAt(t, 0, |t|);
    }
  }

  /** `(\d{1,2})<sep>(\d{1,2})<sep>(\d{2,4})$` matched from the start: the three groups. */
  function Groups3(t: string, sep: char): (r: Option<(string, string, string)>)
    ensures r.Some? ==> AllDigits(r.value.0) && AllDigits(r.value.1) && AllDigits(r.value.2)
  {
    var parts := SplitOn(t, sep);
    if |parts| == 3 && AllDigits(parts[0]) && 1 <= |parts[0]| <= 2 && AllDigits(parts[1]) && 1 <= |parts[1]| <= 2
       && AllDigits(parts[2]) && 2 <= |parts[2]| <= 4
    then Some((parts[0], parts[1], parts[2]))
    else None
  }

  /** `date.fromisoformat` on the `YYYY-MM-DD` form. */
  function IsoDate(t: string): (r: Option<Date>)
    ensures r.Some? ==> ValidDate(r.value)
  {
    if |t| == 10 && AllDigits(t[..4]) && t[4] == '-' && AllDigits(t[5..7]) && t[7] == '-' && AllDigits(t[8..]) then
      MakeDate(DigitsValue(t[..4]), DigitsValue(t[5..7]), DigitsValue(t[8..]))
    else None
  }

  /** The dotted tier of `parse_date`: day first, two-digit years in the 2000s. */
  function DottedTier(t: string): (r: Option<Date>)
    ensures r.Some? ==> ValidDate(r.value)
  {
    match Groups3(t, '.')
    case Some((a, b, c)) => MakeDate(ExpandYear(DigitsValue(c)), DigitsValue(b), DigitsValue(a))
    case None => None
  }

  /** The slashed tier: month first. */
  function SlashedTier(t: string): (r: Option<Date>)
    ensures r.Some? ==> ValidDate(r.value)
  {
    match Groups3(t, '/')
    case Some((a, b, c)) => MakeDate(ExpandYear(DigitsValue(c)), DigitsValue(a), DigitsValue(b))
    case None => None
  }

  /** The six-digit tier: `DDMMYY`, always in the 2000s. */
  function SixDigitTier(t: string): (r: Option<Date>)
    ensures r.Some? ==> ValidDate(r.value)
  {
    if |t| == 6 && AllDigits(t) then MakeDate(DigitsValue(t[4..]) + 2000, DigitsValue(t[2..4]), DigitsValue(t[..2]))
    else None
  }

  /** `parse_date(text)`: the first tier that both matches and names a real date;
      an impossible date in one tier falls through to the next. */
  function ParseDate(text: string): (r: Option<Date>)
    ensures r.Some? ==> ValidDate(r.value)
  {
    var t := Strip(text);
    var d1 := DottedTier(t);
    if d1.Some? then d1
    else
      var d2 := SlashedTier(t);
      if d2.Some? then d2
      else
        var d3 := SixDigitTier(t);
        if d3.Some? then d3 else IsoDate(t)
  }

  /** A text without a digit is no date. */
  lemma NoDigitNoDate(text: string)
    requires forall i :: 0 <= i < |text| ==> !IsDigit(text[i])
    ensures ParseDate(text).None?
  {
    var t := Strip(text);
    StripChars(text);
    if t != [] {
      assert t[0] in text;
      assert !IsDigit(t[0]);
    }
    GroupsStartWithDigit(t, '.');
    GroupsStartWithDigit(t, '/');
  }

  /** A stripped text the dotted tier splits into groups that name no calendar date is
      no date at all: the slashed, six-digit and ISO tiers cannot read a text with a dot
      among its digits. */
  lemma ImpossibleDottedDate(text: string, a: string, b: string, c: string)
    requires Groups3(Strip(text), '.') == Some((a, b, c))
    requires !ValidDate(Date(ExpandYear(DigitsValue(c)), DigitsValue(b), DigitsValue(a)))
    ensures ParseDate(text).None?
  {
    var t := Strip(text);
    GroupsJoin(t, '.', a, b, c);
    OnlySeparator(a, b, c, '.', '/');
    assert SplitOn(t, '/') == [t];
    LaterTiersFail(t, '.', a);
  }

  /** The same for the slashed tier, read month first; no dotted reading exists for a
      text without a dot. */
  lemma ImpossibleSlashedDate(text: string, a: string, b: string, c: string)
    requires Groups3(Strip(text), '/') == Some((a, b, c))
    requires !ValidDate(Date(ExpandYear(DigitsValue(c)), DigitsValue(a), DigitsValue(b)))
    ensures ParseDate(text).None?
  {
    var t := Strip(text);
    GroupsJoin(t, '/', a, b, c);
    OnlySeparator(a, b, c, '/', '.');
    assert SplitOn(t, '.') == [t];
    LaterTiersFail(t, '/', a);
  }

  /** The groups the separated tiers split off are the text, separator between. */
  lemma GroupsJoin(t: string, sep: char, a: string, b: string, c: string)
    requires Groups3(t, sep) == Some((a, b, c))
    ensures t == a + [sep] + b + [sep] + c
    ensures 1 <= |a| <= 2 && AllDigits(a) && AllDigits(b) && AllDigits(c)
  {
    JoinSplitOn(t, sep);
    assert SplitOn(t, sep) == [a, b, c];
    JoinThree(a, b, c, sep);
  }

  lemma JoinThree(a: string, b: string, c: string, sep: char)
    ensures Join([a, b, c], [sep]) == a + [sep] + b + [sep] + c
  {
    assert [a, b, c][1..] == [b, c] && [b, c][1..] == [c];
    assert Join([b, c], [sep]) == b + [sep] + c;
    assert Join([a, b, c], [sep]) == a + [sep] + (b + [sep] + c);
  }

  /** A separator within the first four characters rules out the six-digit and ISO tiers. */
  lemma LaterTiersFail(t: string, sep: char, a: string)
    requires !IsDigit(sep) && |a| <= 2 && |a| < |t| && t[|a|] == sep
    ensures SixDigitTier(t).None? && IsoDate(t).None?
  {
    if |t| == 10 {
      assert t[..4][|a|] == sep;
    }
  }

  /** A text the separated tiers match starts with a digit. */
  lemma GroupsStartWithDigit(t: string, sep: char)
    ensures Groups3(t, sep).Some? ==> t != [] && IsDigit(t[0])
  {
    var parts := SplitOn(t, sep);
    if Groups3(t, sep).Some? {
      JoinSplitOn(t, sep);
      assert t == parts[0] + [sep] + Join(parts[1..], [sep]);
      assert t[0] == parts[0][0];
    }
  }

  /** A text of length ten with neither dots nor slashes matches none of the tiers
      before the ISO one. */
  lemma OnlyIsoTier(t: string)
    requires |t| == 10 && '.' !in t && '/' !in t
    ensures DottedTier(t).None? && SlashedTier(t).None? && SixDigitTier(t).None?
  {
    assert SplitOn(t, '.') == [t];
    assert SplitOn(t, '/') == [t];
  }

  /** `YYYY-MM-DD` written from digit groups has no separator of the other tiers. */
  lemma IsoSeparators(y: string, m: string, dd: string)
    requires AllDigits(y) && |y| == 4 && AllDigits(m) && |m| == 2 && AllDigits(dd) && |dd| == 2
    ensures var t := y + "-" + m + "-" + dd;
            |t| == 10 && '.' !in t && '/' !in t
  {
    var t := y + "-" + m + "-" + dd;
    forall i | 0 <= i < |t|
      ensures t[i] != '.' && t[i] != '/'
    {
      if i < 4 {
        assert t[i] == y[i];
      } else if 4 < i < 7 {
        assert t[i] == m[i - 5];
      } else if 7 < i {
        assert t[i] == dd[i - 8];
      }
    }
  }

  /** `YYYY-MM-DD` written from digit groups is stripped already and read by the ISO
      tier as those numbers. */
  lemma IsoText(y: string, m: string, dd: string)
    requires AllDigits(y) && |y| == 4 && AllDigits(m) && |m| == 2 && AllDigits(dd) && |dd| == 2
    ensures var t := y + "-" + m + "-" + dd;
            Strip(t) == t && IsoDate(t) == MakeDate(DigitsValue(y), DigitsValue(m), DigitsValue(dd))
  {
    var t := y + "-" + m + "-" + dd;
    assert t[..4] == y;
    assert t[5..7] == m;
    assert t[8..] == dd;
    assert t[4] == '-' && t[7] == '-';
    assert IsDigit(t[0]) && IsDigit(t[9]) by {
      assert t[0] == y[0] && t[9] == dd[1];
    }
    StripUnchanged(t);
  }

  /** What `format_date` writes, `parse_date` reads back. */
  lemma ParseFormatDate(d: Date)
    requires ValidDate(d)
    ensures ParseDate(FormatDate(Some(d))) == Some(d)
  {
    PaddedValue(d.year, 4);
    PaddedValue(d.month, 2);
    PaddedValue(d.day, 2);
    NatToStringLength(d.year, 4);
    NatToStringLength(d.month, 2);
    NatToStringLength(d.day, 2);
    var y, m, dd := ZeroPad(NatToString(d.year), 4), ZeroPad(NatToString(d.month), 2), ZeroPad(NatToString(d.day), 2);
    IsoText(y, m, dd);
    IsoSeparators(y, m, dd);
    OnlyIsoTier(y + "-" + m + "-" + dd);
  }

  /** Three digit groups joined by a separator split back into those groups. */
  lemma SeparatedGroups(a: string, b: string, c: string, sep: char)
    requires AllDigits(a) && 1 <= |a| <= 2 && AllDigits(b) && 1 <= |b| <= 2 && AllDigits(c) && 2 <= |c| <= 4
    requires !IsDigit(sep)
    ensures Groups3(a + [sep] + b + [sep] + c, sep) == Some((a, b, c))
  {
    JoinThree(a, b, c, sep);
    assert sep !in a && sep !in b && sep !in c by {
      assert forall i :: 0 <= i < |a| ==> IsDigit(a[i]);
      assert forall i :: 0 <= i < |b| ==> IsDigit(b[i]);
      assert forall i :: 0 <= i < |c| ==> IsDigit(c[i]);
    }
    SplitOnJoin([a, b, c], sep);
  }

  /** Digit groups with one separator hold no other non-digit. */
  lemma OnlySeparator(a: string, b: string, c: string, sep: char, x: char)
    requires AllDigits(a) && AllDigits(b) && AllDigits(c) && !IsDigit(x) && x != sep
    ensures x !in a + [sep] + b + [sep] + c
  {
    assert forall i :: 0 <= i < |a| ==> IsDigit(a[i]);
    assert forall i :: 0 <= i < |b| ==> IsDigit(b[i]);
    assert forall i :: 0 <= i < |c| ==> IsDigit(c[i]);
  }

  /** The editor reads a dotted date of this century the way the message parser writes
      it: parser and editor agree on `D.M.YY`. */
  lemma ParseDottedDate(d: Date)
    requires ValidDate(d) && 2000 <= d.year <= 2099
    ensures ParseDate(DottedText(d)) == Some(d)
  {
    var a, b, c := NatToString(d.day), NatToString(d.month), ZeroPad(NatToString(d.year - 2000), 2);
    var t := DottedText(d);
    assert t == a + "." + b + "." + c;
    NatToStringLength(d.day, 2);
    NatToStringLength(d.month, 2);
    NatToStringLength(d.year - 2000, 2);
    SeparatedGroups(a, b, c, '.');
    PaddedValue(d.year - 2000, 2);
    NatToStringRoundTrip(d.day);
    NatToStringRoundTrip(d.month);
    assert t[0] == a[0] && t[|t| - 1] == c[|c| - 1];
    StripUnchanged(t);
  }

  /** A date of this century written `M/D/YY` reads back exactly: the slashed tier is
      month first. */
  lemma ParseSlashedDate(d: Date)
    requires ValidDate(d) && 2000 <= d.year <= 2099
    ensures ParseDate(SlashedText(d)) == Some(d)
  {
    var y: nat := d.year - 2000;
    var a, b, c := NatToString(d.month), NatToString(d.day), ZeroPad(NatToString(y), 2);
    var t := SlashedText(d);
    assert AllDigits(a) && 1 <= |a| <= 2 && DigitsValue(a) == d.month by {
      NatToStringLength(d.month, 2);
      NatToStringRoundTrip(d.month);
    }
    assert AllDigits(b) && 1 <= |b| <= 2 && DigitsValue(b) == d.day by {
      NatToStringLength(d.day, 2);
      NatToStringRoundTrip(d.day);
    }
    assert AllDigits(c) && |c| == 2 && DigitsValue(c) == y by {
      NatToStringLength(y, 2);
      PaddedValue(y, 2);
    }
    assert t == a + "/" + b + "/" + c;
    SlashedGroupsDate(a, b, c, t, d);
  }

  /** `A/B/C` from digit groups naming a real date is read as that date. */
  lemma SlashedGroupsDate(a: string, b: string, c: string, t: string, d: Date)
    requires AllDigits(a) && 1 <= |a| <= 2 && AllDigits(b) && 1 <= |b| <= 2 && AllDigits(c) && |c| == 2
    requires t == a + "/" + b + "/" + c && ValidDate(d)
    requires DigitsValue(a) == d.month && DigitsValue(b) == d.day && DigitsValue(c) + 2000 == d.year < 2100
    ensures ParseDate(t) == Some(d)
  {
    SlashedGroupsRead(a, b, c, t);
    SlashedRead(t, a, b, c, d);
    assert MakeDate(d.year, d.month, d.day) == Some(d);
    TierChosen(t);
  }

  /** The slashed tier reads the month from the first group and the day from the
      second. */
  lemma SlashedRead(t: string, a: string, b: string, c: string, d: Date)
    requires Groups3(t, '/') == Some((a, b, c))
    requires DigitsValue(a) == d.month && DigitsValue(b) == d.day && DigitsValue(c) + 2000 == d.year < 2100
    ensures SlashedTier(t) == MakeDate(d.year, d.month, d.day)
  {
  }

  /** Which tier `parse_date` takes on a stripped text that the dotted tier rejects. */
  lemma TierChosen(t: string)
    requires Strip(t) == t && DottedTier(t).None?
    ensures SlashedTier(t).Some? ==> ParseDate(t) == SlashedTier(t)
    ensures SlashedTier(t).None? && SixDigitTier(t).Some? ==> ParseDate(t) == SixDigitTier(t)
  {
  }

  /** `A/B/C` from digit groups is read by the slashed tier, month first, and not by
      the dotted one. */
  lemma SlashedGroupsRead(a: string, b: string, c: string, t: string)
    requires AllDigits(a) && 1 <= |a| <= 2 && AllDigits(b) && 1 <= |b| <= 2 && AllDigits(c) && 2 <= |c| <= 4
    requires t == a + "/" + b + "/" + c
    ensures Strip(t) == t && DottedTier(t).None? && Groups3(t, '/') == Some((a, b, c))
  {
    assert DottedTier(t).None? by {
      OnlySeparator(a, b, c, '/', '.');
      assert SplitOn(t, '.') == [t];
    }
    assert Strip(t) == t by {
      assert t[0] == a[0] && t[|t| - 1] == c[|c| - 1];
      StripUnchanged(t);
    }
    assert Groups3(t, '/') == Some((a, b, c)) by {
      SeparatedGroups(a, b, c, '/');
    }
  }

  /** A date of this century written `DDMMYY` reads back exactly. */
  lemma ParseSixDigitDate(d: Date)
    requires ValidDate(d) && 2000 <= d.year <= 2099
    ensures ParseDate(CompactText(d)) == Some(d)
  {
    CompactDigits(d);
    SixDigitRead(CompactText(d), d);
  }

  /** Six digits naming a real date are read as `DDMMYY`. */
  lemma SixDigitRead(t: string, d: Date)
    requires |t| == 6 && AllDigits(t) && ValidDate(d)
    requires DigitsValue(t[..2]) == d.day && DigitsValue(t[2..4]) == d.month && DigitsValue(t[4..]) + 2000 == d.year
    ensures ParseDate(t) == Some(d)
  {
    DigitsOnly(t);
    assert SixDigitTier(t) == Some(d);
    TierChosen(t);
  }

  /** A text of digits only is stripped already and read by neither separated tier. */
  lemma DigitsOnly(t: string)
    requires t != [] && AllDigits(t)
    ensures Strip(t) == t && DottedTier(t).None? && SlashedTier(t).None?
  {
    assert SplitOn(t, '.') == [t];
    assert SplitOn(t, '/') == [t];
    StripUnchanged(t);
  }
}
