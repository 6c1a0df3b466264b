/** `_extract_supplier_info`: the name after a "from" word, kept as the supplier when it
    is not one of the configured locations. */
module SupplierExtraction {
  import opened Wrappers
  import opened Text
  import opened Configuration
  import opened Fuzzy

  /** The end of the lazy group `(.+?)` that starts at `g`, followed by `\s*$`: the first
      position past `g` from which only whitespace remains. */
  function GroupEnd(s: string, g: nat): (e: nat)
    requires g < |s|
    ensures g < e <= |s|
  {
    var l := |RStrip(s)|;
    if l > g + 1 then l else g + 1
  }

  /** `<word>[\-\s]*(.+?)(?:\s*$)` at `i` (the form for short non-ASCII words): the span
      of the group. When the dashes and spaces run to the end, the last of them is given
      back to the group. */
  function ShortSupplierAt(s: string, i: nat, w: string): (r: Option<(nat, nat)>)
    ensures r.Some? ==> i <= r.value.0 < r.value.1 <= |s|
    ensures r.Some? ==> MatchesAt(s, i, w) && i + |w| <= r.value.0
    ensures r.Some? ==> forall k :: i + |w| <= k < r.value.0 ==> s[k] == '-' || IsSpace(s[k])
    ensures r.Some? ==> forall k :: r.value.1 <= k < |s| ==> IsSpace(s[k])
    ensures !MatchesAt(s, i, w) ==> r.None?
  {
    if !MatchesAt(s, i, w) then None
    else
      var j := i + |w|;
      var k := SpanEnd(s, j, c => c == '-' || IsSpace(c));
      if k < |s| then Some((k, GroupEnd(s, k)))
      else if k > j then Some((k - 1, GroupEnd(s, k - 1)))
      else None
  }

  /** `\b<word>\s+(.+?)(?:\s*$)` at `i`. */
  function LongSupplierAt(s: string, i: nat, w: string): (r: Option<(nat, nat)>)
    ensures r.Some? ==> i <= r.value.0 < r.value.1 <= |s|
    ensures r.Some? ==> BoundaryAt(s, i) && MatchesAt(s, i, w) && i + |w| < r.value.0
    ensures r.Some? ==> forall k :: i + |w| <= k < r.value.0 ==> IsSpace(s[k])
    ensures r.Some? ==> forall k :: r.value.1 <= k < |s| ==> IsSpace(s[k])
    ensures !MatchesAt(s, i, w) ==> r.None?
  {
    if !(i <= |s| && BoundaryAt(s, i) && MatchesAt(s, i, w)) then None
    else
      var j := i + |w|;
      var k := SpaceEnd(s, j);
      if k == j then None
      else if k < |s| then Some((k, GroupEnd(s, k)))
      else if k - 1 > j then Some((k - 1, GroupEnd(s, k - 1)))
      else None
  }

  function SupplierAt(s: string, i: nat, w: string): (r: Option<(nat, nat)>)
    ensures r.Some? ==> i <= r.value.0 < r.value.1 <= |s|
    ensures !MatchesAt(s, i, w) ==> r.None?
  {
    if |w| <= 2 && !IsAscii(w) then ShortSupplierAt(s, i, w) else LongSupplierAt(s, i, w)
  }

  /** `re.search`: the leftmost position where the pattern matches. */
  function FirstSupplier(s: string, w: string): (r: Option<nat>)
    ensures r.Some? ==> r.value <= |s| && SupplierAt(s, r.value, w).Some?
    ensures r.Some? ==> forall k: nat :: k < r.value ==> SupplierAt(s, k, w).None?
    ensures r.None? <==> forall k: nat :: k <= |s| ==> SupplierAt(s, k, w).None?
  {
    var p := (k: nat) => SupplierAt(s, k, w).Some?;
    assert forall k: nat :: p(k) == SupplierAt(s, k, w).Some?;
    FindFrom(0, |s|, p)
  }

  /** The lower-cased names a supplier may not be: the locations and the default source. */
  function KnownPlaces(cfg: Config): seq<string> {
    LowerAll(cfg.locations) + [Lower(cfg.defaultSource)]
  }

  /** What word `w`'s first match reads, before the known-place test: the stripped group
      and the stripped text before the match. */
  function WordHit(text: string, w: string): Option<(string, string)> {
    match FirstSupplier(text, w)
    case None => None
    case Some(i) =>
      var (g, e) := SupplierAt(text, i, w).value;
      Some((Strip(text[g..e]), Strip(text[..i])))
  }

  /** Word `w` yields a supplier: it matches, and the name it reads is no known place. */
  predicate Accepted(cfg: Config, text: string, w: string) {
    WordHit(text, w).Some? && Lower(WordHit(text, w).value.0) !in KnownPlaces(cfg)
  }

  /** The loop over the from-words: the index of the first word that yields a supplier;
      a word whose name is a known place is passed over. */
  function SupplierFrom(cfg: Config, text: string): (r: Option<nat>)
    ensures r.Some? ==> r.value < |cfg.fromWords| && Accepted(cfg, text, cfg.fromWords[r.value])
    ensures r.Some? ==> forall j :: 0 <= j < r.value ==> !Accepted(cfg, text, cfg.fromWords[j])
    ensures r.None? ==> forall j :: 0 <= j < |cfg.fromWords| ==> !Accepted(cfg, text, cfg.fromWords[j])
  {
    var p := w => Accepted(cfg, text, w);
    assert forall w :: p(w) == Accepted(cfg, text, w);
    FirstIndex(cfg.fromWords, p)
  }

  /** `_extract_supplier_info(text, config)`: the supplier and the text before its
      from-word, or no supplier and the text unchanged. The supplier is never a configured
      location or the default source, compared ignoring case; it may be empty, when the
      from-word is followed only by spaces or dashes. */
  function ExtractSupplierInfo(cfg: Config, text: string): (r: (Option<string>, string))
    ensures r.0.None? <==> forall j :: 0 <= j < |cfg.fromWords| ==> !Accepted(cfg, text, cfg.fromWords[j])
    ensures r.0.None? ==> r.1 == text
    ensures r.0.Some? ==> exists j :: 0 <= j < |cfg.fromWords| && WordHit(text, cfg.fromWords[j]) == Some((r.0.value, r.1))
                                  && forall i :: 0 <= i < j ==> !Accepted(cfg, text, cfg.fromWords[i])
    ensures r.0.Some? ==> Lower(r.0.value) !in KnownPlaces(cfg) && |r.1| <= |text|
  {
    match SupplierFrom(cfg, text)
    case Some(j) =>
      var (supplier, rest) := WordHit(text, cfg.fromWords[j]).value;
      (Some(supplier), rest)
    case None => (None, text)
  }

  /** `t` is the text `<pre> <w> <name>`, described by its pieces. */
  predicate Written(t: string, pre: string, w: string, name: string) {
    |t| == |pre| + |w| + |name| + 2
    && t[..|pre|] == pre && t[|pre|] == ' '
    && t[|pre| + 1..|pre| + 1 + |w|] == w && t[|pre| + 1 + |w|] == ' '
    && t[|pre| + |w| + 2..] == name
  }

  /** The pieces describe exactly the concatenation. */
  lemma WrittenIsConcat(t: string, pre: string, w: string, name: string)
    ensures Written(t, pre, w, name) <==> t == pre + " " + w + " " + name
  {
    var c := pre + " " + w + " " + name;
    if Written(t, pre, w, name) {
      assert forall k :: 0 <= k < |t| ==> t[k] == c[k] by {
        forall k | 0 <= k < |t|
          ensures t[k] == c[k]
        {
          if k < |pre| {
            assert t[k] == t[..|pre|][k];
          } else if |pre| < k < |pre| + 1 + |w| {
            assert t[k] == t[|pre| + 1..|pre| + 1 + |w|][k - |pre| - 1];
          } else if |pre| + |w| + 2 <= k {
            assert t[k] == t[|pre| + |w| + 2..][k - |pre| - |w| - 2];
          }
        }
      }
    }
    if t == c {
      assert t[..|pre|] == pre;
      assert t[|pre| + 1..|pre| + 1 + |w|] == w;
      assert t[|pre| + |w| + 2..] == name;
    }
  }

  /** In `<pre> <w> <name>`, the long form matches at `w` and its group is all of `name`. */
  lemma LongReadsName(t: string, pre: string, w: string, name: string)
    requires Written(t, pre, w, name)
    requires w != [] && IsWordChar(w[0])
    requires name != [] && !IsSpace(name[0]) && !IsSpace(name[|name| - 1])
    ensures LongSupplierAt(t, |pre| + 1, w) == Some((|pre| + |w| + 2, |t|))
  {
    var i := |pre| + 1;
    MatchesSlice(t, i, w);
    assert t[i] == t[i..i + |w|][0] == w[0];
    assert t[i - 1] == ' ';
    assert t[i + |w| + 1] == t[i + |w| + 1..][0] == name[0];
    SpaceEndOne(t, i + |w|);
    assert t[|t| - 1] == t[i + |w| + 1..][|name| - 1] == name[|name| - 1];
    assert RStrip(t) == t;
  }

  /** A word without whitespace that does not occur in `pre` does not match in `<pre> `. */
  lemma NoEarlierMatch(t: string, pre: string, w: string, k: nat)
    requires |pre| < |t| && t[..|pre|] == pre && t[|pre|] == ' '
    requires forall j :: 0 <= j < |w| ==> !IsSpace(w[j])
    requires forall j: nat :: j <= |pre| ==> !MatchesAt(pre, j, w)
    requires k <= |pre|
    ensures !MatchesAt(t, k, w)
  {
    if k + |w| <= |pre| {
      assert forall j :: k <= j < k + |w| ==> t[j] == t[..|pre|][j] == pre[j];
      assert MatchesAt(t, k, w) == MatchesAt(pre, k, w);
    } else if k + |w| <= |t| {
      var j := |pre| - k;
      assert !IsSpace(LowerChar(w[j])) && IsSpace(LowerChar(t[k + j]));
    }
  }

  /** The facts about `<pre> <w> <name>` that decide what `w`'s first match reads: `w`
      starts at `i` and the name at `g`. */
  lemma ReadFacts(t: string, pre: string, w: string, name: string, i: nat, g: nat)
    requires w != [] && IsWordChar(w[0])
    requires forall j :: 0 <= j < |w| ==> !IsSpace(w[j])
    requires forall j: nat :: j <= |pre| ==> !MatchesAt(pre, j, w)
    requires name != [] && !IsSpace(name[0]) && !IsSpace(name[|name| - 1])
    requires Written(t, pre, w, name)
    requires i == |pre| + 1 && g == |pre| + |w| + 2
    ensures i <= g <= |t|
    ensures LongSupplierAt(t, i, w) == Some((g, |t|))
    ensures forall k: nat :: k < i ==> !MatchesAt(t, k, w)
    ensures Strip(t[g..|t|]) == name && Strip(t[..i]) == Strip(pre)
  {
    LongReadsName(t, pre, w, name);
    ReadSlices(t, pre, w, name);
    forall k: nat | k < i
      ensures !MatchesAt(t, k, w)
    {
      NoEarlierMatch(t, pre, w, k);
    }
  }

  /** A long-form match at `i` with no match of the word before it is the word's first
      match, and what the word reads. */
  lemma WrittenMatchFirst(t: string, w: string, i: nat, g: nat)
    requires |w| > 2 || IsAscii(w)
    requires i <= g <= |t|
    requires LongSupplierAt(t, i, w) == Some((g, |t|))
    requires forall k: nat :: k < i ==> !MatchesAt(t, k, w)
    ensures WordHit(t, w) == Some((Strip(t[g..|t|]), Strip(t[..i])))
  {
    assert SupplierAt(t, i, w) == LongSupplierAt(t, i, w);
    FirstSupplierIs(t, w, i);
    WordHitAt(t, w, i, g, |t|);
  }

  /** What `strip` makes of the name and of the text before the word. */
  lemma ReadSlices(t: string, pre: string, w: string, name: string)
    requires name != [] && !IsSpace(name[0]) && !IsSpace(name[|name| - 1])
    requires Written(t, pre, w, name)
    ensures Strip(t[|pre| + |w| + 2..|t|]) == name
    ensures Strip(t[..|pre| + 1]) == Strip(pre)
  {
    assert t[|pre| + |w| + 2..|t|] == t[|pre| + |w| + 2..] == name;
    assert t[..|pre| + 1] == t[..|pre|] + [t[|pre|]] == pre + [' '];
    StripStripped(name);
    StripTrailingSpace(pre, ' ');
  }

  lemma FirstSupplierIs(t: string, w: string, i: nat)
    requires i <= |t| && SupplierAt(t, i, w).Some?
    requires forall k: nat :: k < i ==> SupplierAt(t, k, w).None?
    ensures FirstSupplier(t, w) == Some(i)
  {
  }

  lemma WordHitAt(t: string, w: string, i: nat, g: nat, e: nat)
    requires FirstSupplier(t, w) == Some(i) && SupplierAt(t, i, w) == Some((g, e))
    ensures g <= e <= |t| && i <= |t|
    ensures WordHit(t, w) == Some((Strip(t[g..e]), Strip(t[..i])))
  {
  }

  /** The first from-word that yields a supplier decides what is extracted. */
  lemma FirstAcceptedDecides(cfg: Config, t: string, n: nat)
    requires n < |cfg.fromWords| && Accepted(cfg, t, cfg.fromWords[n])
    requires forall m :: 0 <= m < n ==> !Accepted(cfg, t, cfg.fromWords[m])
    ensures WordHit(t, cfg.fromWords[n]).Some?
    ensures ExtractSupplierInfo(cfg, t).0 == Some(WordHit(t, cfg.fromWords[n]).value.0)
    ensures ExtractSupplierInfo(cfg, t).1 == WordHit(t, cfg.fromWords[n]).value.1
  {
    var r := SupplierFrom(cfg, t);
    assert r.Some? && r.value == n;
  }

  /** No from-word before the `n`-th matches anywhere in `t`. */
  predicate NoMatchBefore(cfg: Config, t: string, n: nat) {
    forall m :: 0 <= m < n && m < |cfg.fromWords| ==> NoMatchIn(t, cfg.fromWords[m])
  }

  /** Word `w` matches nowhere in `t`. */
  predicate NoMatchIn(t: string, w: string) {
    forall k: nat :: k <= |t| ==> !MatchesAt(t, k, w)
  }

  /** Read-back: from `<pre> <w> <name>`, where `w` is the `n`-th from-word, `pre` does not
      hold `w`, no earlier from-word occurs, and `name` is stripped and no known place,
      the supplier read is `name` and the text left is `pre`, stripped. */
  lemma SupplierRead(cfg: Config, n: nat, w: string, pre: string, name: string, t: string)
    requires n < |cfg.fromWords| && w == cfg.fromWords[n]
    requires w != [] && (|w| > 2 || IsAscii(w)) && IsWordChar(w[0])
    requires forall j :: 0 <= j < |w| ==> !IsSpace(w[j])
    requires forall j: nat :: j <= |pre| ==> !MatchesAt(pre, j, w)
    requires name != [] && !IsSpace(name[0]) && !IsSpace(name[|name| - 1])
    requires Lower(name) !in KnownPlaces(cfg)
    requires t == pre + " " + w + " " + name
    requires NoMatchBefore(cfg, t, n)
    ensures ExtractSupplierInfo(cfg, t) == (Some(name), Strip(pre))
  {
    WrittenIsConcat(t, pre, w, name);
    var i, g := |pre| + 1, |pre| + |w| + 2;
    ReadFacts(t, pre, w, name, i, g);
    SupplierReadAt(cfg, n, t, i, g, name, Strip(pre));
  }

  /** A long-form match of the `n`-th from-word at `i` that runs to the end of the text,
      with no earlier match of that word and no match of an earlier word, decides what
      is extracted. */
  lemma SupplierReadAt(cfg: Config, n: nat, t: string, i: nat, g: nat, name: string, rest: string)
    requires n < |cfg.fromWords| && (|cfg.fromWords[n]| > 2 || IsAscii(cfg.fromWords[n]))
    requires i <= g <= |t|
    requires LongSupplierAt(t, i, cfg.fromWords[n]) == Some((g, |t|))
    requires forall k: nat :: k < i ==> !MatchesAt(t, k, cfg.fromWords[n])
    requires Strip(t[g..|t|]) == name && Strip(t[..i]) == rest
    requires Lower(name) !in KnownPlaces(cfg)
    requires NoMatchBefore(cfg, t, n)
    ensures ExtractSupplierInfo(cfg, t) == (Some(name), rest)
  {
    WrittenMatchFirst(t, cfg.fromWords[n], i, g);
    forall m | 0 <= m < n
      ensures !Accepted(cfg, t, cfg.fromWords[m])
    {
      assert NoMatchIn(t, cfg.fromWords[m]);
      assert FirstSupplier(t, cfg.fromWords[m]).None?;
    }
    FirstAcceptedDecides(cfg, t, n);
  }

  /** The guard in `_parse_line`: some from-word occurs in the text, ignoring case. */
  ghost predicate MentionsFromWord(cfg: Config, text: string) {
    exists w :: w in cfg.fromWords && Contains(Lower(text), Lower(w))
  }

  function MentionsFromWordIn(words: seq<string>, text: string): (b: bool)
    ensures b <==> exists w :: w in words && Contains(Lower(text), Lower(w))
  {
    if words == [] then false
    else
      var b := ContainsStr(Lower(text), Lower(words[0])) || MentionsFromWordIn(words[1..], text);
      assert forall w :: w in words[1..] ==> w in words;
      b
  }
}
