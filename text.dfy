/** Character classes and string operations that stand in for the Python `str` methods
    and the small regular-expression vocabulary (`\s`, `\d`, `\b`, IGNORECASE) the parser
    is built from. Strings are sequences of Unicode scalar values, as Python's are. */
module Text {
  import opened Wrappers

  // ---------------------------------------------------------------------------
  // Character classes
  // ---------------------------------------------------------------------------

  /** `str.isspace()`, which is also what `\s` matches in a `str` pattern. */
  predicate IsSpace(c: char) {
    c == ' ' || ('\t' <= c <= '\r') || ('\U{001C}' <= c <= '\U{001F}')
    || c == '\U{0085}' || c == '\U{00A0}' || c == '\U{1680}'
    || ('\U{2000}' <= c <= '\U{200A}') || c == '\U{2028}' || c == '\U{2029}'
    || c == '\U{202F}' || c == '\U{205F}' || c == '\U{3000}'
  }

  /** `\d`, restricted to the ASCII digits. */
  predicate IsDigit(c: char) {
    '0' <= c <= '9'
  }

  predicate IsAsciiChar(c: char) {
    c as int < 128
  }

  /** `\w`: ASCII letters, digits and underscore, and every non-ASCII character that is
      not whitespace (which covers the Hebrew letters the messages use). */
  predicate IsWordChar(c: char) {
    ('a' <= c <= 'z') || ('A' <= c <= 'Z') || IsDigit(c) || c == '_'
    || (!IsAsciiChar(c) && !IsSpace(c))
  }

  /** `str.isascii()`. */
  predicate IsAscii(s: string) {
    forall i :: 0 <= i < |s| ==> IsAsciiChar(s[i])
  }

  /** `str.lower()` on one character; only ASCII letters have case here. */
  function LowerChar(c: char): (r: char)
    ensures IsSpace(r) == IsSpace(c) && IsDigit(r) == IsDigit(c)
    ensures IsWordChar(r) == IsWordChar(c)
  {
    if 'A' <= c <= 'Z' then (c as int + 32) as char else c
  }

  function Lower(s: string): (r: string)
    ensures |r| == |s|
    ensures forall i :: 0 <= i < |s| ==> r[i] == LowerChar(s[i])
  {
    seq(|s|, i requires 0 <= i < |s| => LowerChar(s[i]))
  }

  /** Case-insensitive equality of two strings (IGNORECASE on whole strings). */
  predicate EqualsIgnoreCase(a: string, b: string) {
    Lower(a) == Lower(b)
  }

  // ---------------------------------------------------------------------------
  // Whitespace: strip, split, join
  // ---------------------------------------------------------------------------

  function LStrip(s: string): (r: string)
    ensures |r| <= |s| && r == s[|s| - |r|..]
    ensures r == [] || !IsSpace(r[0])
    ensures forall i :: 0 <= i < |s| - |r| ==> IsSpace(s[i])
  {
    if s != [] && IsSpace(s[0]) then LStrip(s[1..]) else s
  }

  function RStrip(s: string): (r: string)
    ensures |r| <= |s| && r == s[..|r|]
    ensures r == [] || !IsSpace(r[|r| - 1])
    ensures forall i :: |r| <= i < |s| ==> IsSpace(s[i])
  {
    if s != [] && IsSpace(s[|s| - 1]) then RStrip(s[..|s| - 1]) else s
  }

  /** `str.strip()`: the longest infix that neither starts nor ends with whitespace. */
  function Strip(s: string): (r: string)
    ensures |r| <= |s|
    ensures r == [] || (!IsSpace(r[0]) && !IsSpace(r[|r| - 1]))
    ensures r == [] <==> forall i :: 0 <= i < |s| ==> IsSpace(s[i])
  {
    var l := LStrip(s);
    var r := RStrip(l);
    assert r == [] ==> l == [];
    r
  }

  /** What `strip` keeps is taken from the text. */
  lemma StripChars(s: string)
    ensures forall i :: 0 <= i < |Strip(s)| ==> Strip(s)[i] in s
  {
    var l := LStrip(s);
    var r := RStrip(l);
    assert Strip(s) == r;
    forall i | 0 <= i < |r|
      ensures r[i] in s
    {
      assert r[i] == l[i] == s[|s| - |l| + i];
    }
  }

  /** Index just past the run of characters satisfying `p` that starts at `i`. */
  function SpanEnd(s: string, i: nat, p: char -> bool): (j: nat)
    requires i <= |s|
    ensures i <= j <= |s|
    ensures forall k :: i <= k < j ==> p(s[k])
    ensures j == |s| || !p(s[j])
    decreases |s| - i
  {
    if i < |s| && p(s[i]) then SpanEnd(s, i + 1, p) else i
  }

  function SpaceEnd(s: string, i: nat): (j: nat)
    requires i <= |s|
    ensures i <= j <= |s|
    ensures forall k :: i <= k < j ==> IsSpace(s[k])
    ensures j == |s| || !IsSpace(s[j])
  {
    SpanEnd(s, i, IsSpace)
  }

  function DigitEnd(s: string, i: nat): (j: nat)
    requires i <= |s|
    ensures i <= j <= |s|
    ensures forall k :: i <= k < j ==> IsDigit(s[k])
    ensures j == |s| || !IsDigit(s[j])
  {
    SpanEnd(s, i, IsDigit)
  }

  /** The digit run starting at `i` ends at `j`. */
  lemma DigitEndIs(s: string, i: nat, j: nat)
    requires i <= j <= |s|
    requires forall k :: i <= k < j ==> IsDigit(s[k])
    requires j == |s| || !IsDigit(s[j])
    ensures DigitEnd(s, i) == j
  {
  }

  /** Index just past the run of non-whitespace characters that starts at `i`. */
  function WordEnd(s: string, i: nat): (j: nat)
    requires i <= |s|
    ensures i <= j <= |s|
    ensures forall k :: i <= k < j ==> !IsSpace(s[k])
    ensures j == |s| || IsSpace(s[j])
    decreases |s| - i
  {
    if i < |s| && !IsSpace(s[i]) then WordEnd(s, i + 1) else i
  }

  /** A non-empty run of non-whitespace characters. */
  predicate IsWord(w: string) {
    w != [] && forall i :: 0 <= i < |w| ==> !IsSpace(w[i])
  }

  /** `str.split()` with no separator: the maximal runs of non-whitespace, in order. */
  function Split(s: string): (ws: seq<string>)
    ensures forall w :: w in ws ==> IsWord(w)
    decreases |s|
  {
    var t := LStrip(s);
    if t == [] then []
    else
      var e := WordEnd(t, 0);
      var w := t[..e];
      assert IsWord(w) by {
        assert e > 0;
        forall i | 0 <= i < |w|
          ensures !IsSpace(w[i])
        {
          assert w[i] == t[i];
        }
      }
      [w] + Split(t[e..])
  }

  /** `sep.join(ws)`. */
  function Join(ws: seq<string>, sep: string): string {
    if ws == [] then ""
    else if |ws| == 1 then ws[0]
    else ws[0] + sep + Join(ws[1..], sep)
  }

  /** The first position of `c` in `s`. */
  function CharIndex(s: string, c: char): (r: Option<nat>)
    ensures r.Some? ==> r.value < |s| && s[r.value] == c && c !in s[..r.value]
    ensures r.None? ==> c !in s
    decreases |s|
  {
    if s == [] then None
    else if s[0] == c then Some(0)
    else
      match CharIndex(s[1..], c)
      case None => None
      case Some(i) =>
        assert s[..i + 1] == [s[0]] + s[1..][..i];
        Some(i + 1)
  }

  /** `s.split(c)` for a single character `c`: the pieces between its occurrences. */
  function SplitOn(s: string, c: char): (parts: seq<string>)
    ensures |parts| >= 1
    ensures forall k :: 0 <= k < |parts| ==> c !in parts[k]
    decreases |s|
  {
    match CharIndex(s, c)
    case None => [s]
    case Some(i) => [s[..i]] + SplitOn(s[i + 1..], c)
  }

  /** Splitting and joining back with the same character gives the text again. */
  lemma {:induction false} JoinSplitOn(s: string, c: char)
    ensures Join(SplitOn(s, c), [c]) == s
    decreases |s|
  {
    match CharIndex(s, c)
    case None =>
    case Some(i) =>
      var rest := SplitOn(s[i + 1..], c);
      JoinSplitOn(s[i + 1..], c);
      assert SplitOn(s, c) == [s[..i]] + rest;
      assert ([s[..i]] + rest)[1..] == rest;
      assert s == s[..i] + [c] + s[i + 1..];
  }

  /** Joining pieces that do not contain `c` with `c` and splitting again gives the
      pieces back. */
  lemma {:induction false} SplitOnJoin(parts: seq<string>, c: char)
    requires |parts| >= 1 && forall k :: 0 <= k < |parts| ==> c !in parts[k]
    ensures SplitOn(Join(parts, [c]), c) == parts
    decreases |parts|
  {
    if |parts| > 1 {
      var s := Join(parts, [c]);
      var rest := Join(parts[1..], [c]);
      assert s == parts[0] + [c] + rest;
      assert s[|parts[0]|] == c;
      assert s[..|parts[0]|] == parts[0];
      assert CharIndex(s, c) == Some(|parts[0]|);
      assert s[|parts[0]| + 1..] == rest;
      SplitOnJoin(parts[1..], c);
      assert parts == [parts[0]] + parts[1..];
    }
  }

  /** `' '.join(s.split())`, which is also `re.sub(r'\s+', ' ', s).strip()`. */
  function Normalize(s: string): string {
    Join(Split(s), " ")
  }

  // ---------------------------------------------------------------------------
  // Positions, boundaries and case-insensitive matching
  // ---------------------------------------------------------------------------

  /** `\b` at position `i`: exactly one side of `i` is a word character. */
  predicate BoundaryAt(s: string, i: nat)
    requires i <= |s|
  {
    (i > 0 && IsWordChar(s[i - 1])) != (i < |s| && IsWordChar(s[i]))
  }

  /** `pat` occurs at `i`, compared under IGNORECASE. */
  predicate MatchesAt(s: string, i: nat, pat: string) {
    i + |pat| <= |s| && forall k :: 0 <= k < |pat| ==> LowerChar(s[i + k]) == LowerChar(pat[k])
  }

  /** `pat` is matched, ignoring case, where it is written. */
  lemma MatchesSlice(s: string, i: nat, pat: string)
    requires i + |pat| <= |s| && s[i..i + |pat|] == pat
    ensures MatchesAt(s, i, pat)
  {
    forall k | 0 <= k < |pat|
      ensures LowerChar(s[i + k]) == LowerChar(pat[k])
    {
      assert s[i..i + |pat|][k] == s[i + k];
    }
  }

  /** A single space before a non-space. */
  lemma SpaceEndOne(s: string, i: nat)
    requires i + 1 < |s| && IsSpace(s[i]) && !IsSpace(s[i + 1])
    ensures SpaceEnd(s, i) == i + 1
  {
  }

  /** `\b<pat>\b` matches at `i` under IGNORECASE. */
  predicate WordAt(s: string, i: nat, pat: string) {
    MatchesAt(s, i, pat) && BoundaryAt(s, i) && BoundaryAt(s, i + |pat|)
  }

  /** The least position in `lo..hi` satisfying `p`: the start of a `re.search` match. */
  function FindFrom(lo: nat, hi: nat, p: nat -> bool): (r: Option<nat>)
    ensures r.Some? ==> lo <= r.value <= hi && p(r.value)
    ensures r.Some? ==> forall k :: lo <= k < r.value ==> !p(k)
    ensures r.None? ==> forall k :: lo <= k <= hi ==> !p(k)
    decreases hi + 1 - lo
  {
    if lo > hi then None
    else if p(lo) then Some(lo)
    else FindFrom(lo + 1, hi, p)
  }

  /** The first pattern, from index `n` on, that matches anywhere in `0..hi`, with its
      leftmost match: the pattern's index, the match start and the end `at` reports. */
  function FirstHitFrom<P>(pats: seq<P>, n: nat, hi: nat, at: (P, nat) -> Option<nat>): (r: Option<(nat, nat, nat)>)
    ensures r.Some? ==> n <= r.value.0 < |pats| && r.value.1 <= hi && at(pats[r.value.0], r.value.1) == Some(r.value.2)
    ensures r.Some? ==> forall k: nat :: k < r.value.1 ==> at(pats[r.value.0], k).None?
    ensures r.Some? ==> forall m: nat, k: nat :: n <= m < r.value.0 && k <= hi ==> at(pats[m], k).None?
    ensures r.None? ==> forall m: nat, k: nat :: n <= m < |pats| && k <= hi ==> at(pats[m], k).None?
    decreases |pats| - n
  {
    if n >= |pats| then None
    else
      var p := (k: nat) => at(pats[n], k).Some?;
      assert forall k: nat :: p(k) == at(pats[n], k).Some?;
      match FindFrom(0, hi, p)
      case Some(k) => Some((n, k, at(pats[n], k).value))
      case None => FirstHitFrom(pats, n + 1, hi, at)
  }

  /** The index of the first element of `xs` satisfying `p` (a `for ... if ...: return`
      loop over a list). */
  function FirstIndex<T>(xs: seq<T>, p: T -> bool): (r: Option<nat>)
    ensures r.Some? ==> r.value < |xs| && p(xs[r.value])
    ensures r.Some? ==> forall j :: 0 <= j < r.value ==> !p(xs[j])
    ensures r.None? ==> forall j :: 0 <= j < |xs| ==> !p(xs[j])
  {
    if xs == [] then None
    else if p(xs[0]) then Some(0)
    else
      match FirstIndex(xs[1..], p)
      case None => None
      case Some(j) => Some(j + 1)
  }

  /** `(s[:i] + s[j:]).strip()`: the text with the span `i..j` taken out. */
  function Cut(s: string, i: nat, j: nat): string
    requires i <= j <= |s|
  {
    Strip(s[..i] + s[j..])
  }

  /** `sub` occurs, case-sensitively, at position `i` of `s`. */
  predicate SubstringAt(s: string, i: int, sub: string) {
    0 <= i <= |s| - |sub| && s[i..i + |sub|] == sub
  }

  /** Case-sensitive `sub in s`. */
  ghost predicate Contains(s: string, sub: string) {
    exists i :: SubstringAt(s, i, sub)
  }

  /** A run-time search for `sub` in `s`, agreeing with `Contains`. */
  function IndexOf(s: string, sub: string, from: nat): (r: Option<nat>)
    ensures r.Some? ==> from <= r.value && SubstringAt(s, r.value, sub)
    ensures r.None? ==> forall i :: from <= i ==> !SubstringAt(s, i, sub)
    decreases |s| - from
  {
    if from + |sub| > |s| then None
    else if SubstringAt(s, from, sub) then Some(from)
    else IndexOf(s, sub, from + 1)
  }

  function ContainsStr(s: string, sub: string): (b: bool)
    ensures b == Contains(s, sub)
  {
    IndexOf(s, sub, 0).Some?
  }

  /** Python's `a < b` on strings: lexicographic by code point. */
  predicate StrLess(a: string, b: string) {
    if a == [] then b != []
    else if b == [] then false
    else if a[0] != b[0] then a[0] < b[0]
    else StrLess(a[1..], b[1..])
  }

  predicate StartsWith(s: string, pre: string) {
    |pre| <= |s| && s[..|pre|] == pre
  }

  predicate EndsWith(s: string, suf: string) {
    |suf| <= |s| && s[|s| - |suf|..] == suf
  }

  /** `s.rstrip(c)` for a single character `c`. */
  function RStripChar(s: string, c: char): (r: string)
    ensures |r| <= |s| && r == s[..|r|]
    ensures r == [] || r[|r| - 1] != c
    ensures forall i :: |r| <= i < |s| ==> s[i] == c
  {
    if s != [] && s[|s| - 1] == c then RStripChar(s[..|s| - 1], c) else s
  }

  /** `re.sub(pat, '', s, flags=re.IGNORECASE)` from position `i` on, where `pat` is the
      escaped literal `w`, wrapped in `\b...\b` when `bounded`. Boundaries are judged
      on the original string, as `re.sub` does; an empty `w` removes nothing. */
  function RemoveFrom(s: string, w: string, bounded: bool, i: nat): (r: string)
    requires i <= |s|
    ensures |r| <= |s| - i
    decreases |s| - i
  {
    if i == |s| || w == [] then s[i..]
    else if MatchesAt(s, i, w) && (!bounded || (BoundaryAt(s, i) && BoundaryAt(s, i + |w|))) then
      RemoveFrom(s, w, bounded, i + |w|)
    else [s[i]] + RemoveFrom(s, w, bounded, i + 1)
  }

  function RemoveAll(s: string, w: string, bounded: bool): string {
    RemoveFrom(s, w, bounded, 0)
  }

  /** With no whole-word occurrence of `w` from `i` on, nothing is removed. */
  lemma {:induction false} RemoveFromNoMatch(s: string, w: string, i: nat)
    requires i <= |s|
    requires forall k :: i <= k < |s| ==> !WordAt(s, k, w)
    ensures RemoveFrom(s, w, true, i) == s[i..]
    decreases |s| - i
  {
    if i < |s| && w != [] {
      RemoveFromNoMatch(s, w, i + 1);
      assert !WordAt(s, i, w);
      assert RemoveFrom(s, w, true, i) == [s[i]] + RemoveFrom(s, w, true, i + 1);
      assert s[i..] == [s[i]] + s[i + 1..];
    }
  }

  // ---------------------------------------------------------------------------
  // Decimal numbers
  // ---------------------------------------------------------------------------

  predicate AllDigits(s: string) {
    forall i :: 0 <= i < |s| ==> IsDigit(s[i])
  }

  function DigitValue(c: char): nat
    requires IsDigit(c)
  {
    c as int - '0' as int
  }

  function DigitChar(d: nat): (c: char)
    requires d < 10
    ensures IsDigit(c) && DigitValue(c) == d
  {
    ('0' as int + d) as char
  }

  /** `int(s)` for a string of decimal digits. */
  function DigitsValue(s: string): nat
    requires AllDigits(s)
  {
    if s == [] then 0 else 10 * DigitsValue(s[..|s| - 1]) + DigitValue(s[|s| - 1])
  }

  /** `str(n)` for a natural number. */
  function NatToString(n: nat): (s: string)
    ensures s != [] && AllDigits(s)
  {
    if n < 10 then [DigitChar(n)] else NatToString(n / 10) + [DigitChar(n % 10)]
  }

  /** `str(i)` for an integer. */
  function IntToString(i: int): string {
    if i < 0 then "-" + NatToString(-i) else NatToString(i)
  }

  /** Left-pads `s` with zeros to `width` characters, as `%Y`, `%m` and `%d` do. */
  function ZeroPad(s: string, width: nat): (r: string)
    ensures |r| == if |s| < width then width else |s|
    ensures AllDigits(s) ==> AllDigits(r)
    decreases width - |s|
  {
    if |s| < width then ZeroPad("0" + s, width) else s
  }

  lemma {:induction false} NatToStringRoundTrip(n: nat)
    ensures DigitsValue(NatToString(n)) == n
  {
    if n >= 10 {
      NatToStringRoundTrip(n / 10);
      var s := NatToString(n);
      assert s[..|s| - 1] == NatToString(n / 10);
    }
  }

  lemma {:induction false} NatToStringLength(n: nat, width: nat)
    requires n < Pow10(width)
    ensures |NatToString(n)| <= if width == 0 then 1 else width
  {
    if n >= 10 {
      assert Pow10(0) == 1 && Pow10(1) == 10;
      NatToStringLength(n / 10, width - 1);
    }
  }

  function Pow10(k: nat): (p: nat)
    ensures p >= 1
  {
    if k == 0 then 1 else 10 * Pow10(k - 1)
  }

  lemma {:induction false} LeadingZerosValue(s: string, width: nat)
    requires AllDigits(s)
    ensures DigitsValue(ZeroPad(s, width)) == DigitsValue(s)
    decreases width - |s|
  {
    if |s| < width {
      LeadingZeroValue(s);
      LeadingZerosValue("0" + s, width);
    }
  }

  lemma {:induction false} LeadingZeroValue(s: string)
    requires AllDigits(s)
    ensures DigitsValue("0" + s) == DigitsValue(s)
    decreases |s|
  {
    if s != [] {
      var t := "0" + s;
      assert t[..|t| - 1] == "0" + s[..|s| - 1];
      LeadingZeroValue(s[..|s| - 1]);
    }
  }

  /** The stripped pieces that are not blank, in order. */
  function NonBlank(pieces: seq<string>): (ls: seq<string>)
    ensures |ls| <= |pieces|
    ensures forall l :: l in ls ==> l != [] && !IsSpace(l[0]) && !IsSpace(l[|l| - 1])
    decreases |pieces|
  {
    if pieces == [] then []
    else
      var l := Strip(pieces[0]);
      var rest := NonBlank(pieces[1..]);
      if l == [] then rest
      else
        assert forall x :: x in [l] + rest ==> x == l || x in rest;
        [l] + rest
  }

  lemma StripStripped(l: string)
    requires l != [] && !IsSpace(l[0]) && !IsSpace(l[|l| - 1])
    ensures Strip(l) == l
  {
  }

  /** Trailing whitespace does not change what `strip` keeps. */
  lemma StripTrailingSpace(s: string, c: char)
    requires IsSpace(c)
    ensures Strip(s + [c]) == Strip(s)
  {
    LStripAppend(s, c);
    if LStrip(s) != [] {
      assert (LStrip(s) + [c])[..|LStrip(s)|] == LStrip(s);
    }
  }

  lemma {:induction false} LStripAppend(s: string, c: char)
    requires IsSpace(c)
    ensures LStrip(s + [c]) == if LStrip(s) == [] then [] else LStrip(s) + [c]
  {
    if s == [] {
      assert [c][1..] == [];
    } else if IsSpace(s[0]) {
      assert (s + [c])[1..] == s[1..] + [c];
      LStripAppend(s[1..], c);
    }
  }

  lemma {:induction false} NonBlankStripped(ls: seq<string>)
    requires forall k :: 0 <= k < |ls| ==> ls[k] != [] && !IsSpace(ls[k][0]) && !IsSpace(ls[k][|ls[k]| - 1])
    ensures NonBlank(ls) == ls
    decreases |ls|
  {
    if ls != [] {
      StripStripped(ls[0]);
      NonBlankStripped(ls[1..]);
    }
  }
}
