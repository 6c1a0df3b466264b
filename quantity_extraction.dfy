/** `_extract_qty`, `_extract_container` and their helpers: the number of units a line
    states, the container it counts in, the conversion of containers to base units, and
    the removal of filler words before item matching. */
module QuantityExtraction {
  import opened Wrappers
  import opened Text
  import opened Configuration
  import opened Ordering

  // ---------------------------------------------------------------------------
  // Containers
  // ---------------------------------------------------------------------------

  /** The English plural ending for the last word of a container name. */
  function PluralSuffix(last: string): (r: string)
    ensures r == "es" <==> EndsWith(last, "x") || EndsWith(last, "s") || EndsWith(last, "sh") || EndsWith(last, "ch")
    ensures r == "es" || r == "s"
  {
    if EndsWith(last, "x") || EndsWith(last, "s") || EndsWith(last, "sh") || EndsWith(last, "ch") then "es" else "s"
  }

  /** `_container_variants`: the name, and its plural when the last word is ASCII. */
  function ContainerVariants(c: string): (r: seq<string>)
    requires Split(c) != []
    ensures 1 <= |r| <= 2 && r[0] == c
    ensures |r| == 2 <==> IsAscii(Split(c)[|Split(c)| - 1])
  {
    var words := Split(c);
    var last := words[|words| - 1];
    if IsAscii(last) then [c, Join(words[..|words| - 1] + [last + PluralSuffix(last)], " ")] else [c]
  }

  /** `cont_alias_map.get(cont, cont)`: the container an alias key stands for. */
  function ContainerCanonical(cfg: Config, cont: string): string {
    Lookup(ContainerAliases(cfg), cont).GetOr(cont)
  }

  /** A container the extractor may report: a configured container, or the target of
      an alias that points to one. */
  predicate CanonicalContainer(cfg: Config, c: string) {
    c in AllContainers(cfg) || exists p :: p in ContainerAliases(cfg) && p.1 == c
  }

  /** Every container name, alias or not, resolves to a reportable container. */
  lemma CanonicalOf(cfg: Config, name: string)
    requires name in ContainerNames(cfg)
    ensures CanonicalContainer(cfg, ContainerCanonical(cfg, name))
  {
    var al := ContainerAliases(cfg);
    var ks := Keys(al);
    match Lookup(al, name)
    case Some(v) =>
      var i :| 0 <= i < |al| && al[i] == (name, v);
      assert al[i] in al;
    case None =>
      assert forall i :: 0 <= i < |ks| ==> al[i].0 == ks[i];
  }

  /** `re.match(variant + r'\b', text.strip())`: the spelling opens the stripped text. */
  predicate LeadingHit(v: string, text: string) {
    MatchesAt(Strip(text), 0, v) && BoundaryAt(Strip(text), |v|)
  }

  /** The spelling is found by one of the two searches `_extract_container` makes: at
      the start of the stripped text, or anywhere as a whole word. */
  predicate VariantHits(v: string, text: string) {
    LeadingHit(v, text) || exists k :: 0 <= k <= |text| && WordAt(text, k, v)
  }

  /** Some spelling of the container name is found in the text. */
  predicate NameHits(name: string, text: string)
    requires Split(name) != []
  {
    var vs := ContainerVariants(name);
    VariantHits(vs[0], text) || (|vs| == 2 && VariantHits(vs[1], text))
  }

  /** The text without the spelling found: the rest of the stripped text after a
      leading hit, else the text with the first whole-word occurrence cut out. */
  function CutVariant(v: string, text: string): string
    requires VariantHits(v, text)
  {
    if LeadingHit(v, text) then Strip(Strip(text)[|v|..])
    else
      var p := (k: nat) => WordAt(text, k, v);
      assert forall k: nat :: p(k) == WordAt(text, k, v);
      var k := FindFrom(0, |text|, p).value;
      Cut(text, k, k + |v|)
  }

  /** The loop over the names, longest first: the first name with a spelling found. */
  function FirstNameHit(names: seq<string>, text: string): (r: Option<nat>)
    requires forall c :: c in names ==> Split(c) != []
    ensures r.Some? ==> r.value < |names| && NameHits(names[r.value], text)
    ensures r.Some? ==> forall j :: 0 <= j < r.value ==> !NameHits(names[j], text)
    ensures r.None? ==> forall j :: 0 <= j < |names| ==> !NameHits(names[j], text)
  {
    var p := (i: nat) => i < |names| && NameHits(names[i], text);
    assert forall i: nat :: p(i) == (i < |names| && NameHits(names[i], text));
    FindFrom(0, |names|, p)
  }

  /** `_extract_container(text, config)`: the canonical container of the first name,
      longest first, with a spelling in the text, and the text once its first spelling
      found is taken out. None is found exactly when no spelling of any container name
      occurs; a container found is a configured container or an alias target. */
  function ExtractContainer(cfg: Config, text: string): (r: (Option<string>, string))
    requires cfg.Valid()
    ensures r.0.None? ==> r.1 == text
    ensures r.0.None? <==> forall c :: c in ContainerNames(cfg) ==> !NameHits(c, text)
    ensures r.0.Some? ==> CanonicalContainer(cfg, r.0.value)
  {
    var names := LongestFirst(ContainerNames(cfg));
    SortedMembers(names, ContainerNames(cfg));
    match FirstNameHit(names, text)
    case Some(i) =>
      var vs := ContainerVariants(names[i]);
      var v := if VariantHits(vs[0], text) then vs[0] else vs[1];
      CanonicalOf(cfg, names[i]);
      (Some(ContainerCanonical(cfg, names[i])), CutVariant(v, text))
    case None =>
      assert forall c :: c in names ==> exists i :: 0 <= i < |names| && names[i] == c;
      (None, text)
  }

  /** `name` is spelled in the text, and no longer container name is. */
  predicate LongestSpelled(cfg: Config, text: string, name: string)
    requires cfg.Valid()
  {
    && name in ContainerNames(cfg)
    && NameHits(name, text)
    && forall c :: c in ContainerNames(cfg) && |c| > |name| ==> !NameHits(c, text)
  }

  /** The container found is that of the longest name spelled in the text. */
  lemma LongestContainerWins(cfg: Config, text: string, found: string)
    requires cfg.Valid() && ExtractContainer(cfg, text).0 == Some(found)
    ensures exists name :: LongestSpelled(cfg, text, name) && ContainerCanonical(cfg, name) == found
  {
    var names := LongestFirst(ContainerNames(cfg));
    SortedMembers(names, ContainerNames(cfg));
    var i := FirstNameHit(names, text).value;
    FirstHitLongest(names, text, i);
    assert LongestSpelled(cfg, text, names[i]);
  }

  /** In names sorted longest first, no name longer than the first one hit is hit. */
  lemma FirstHitLongest(names: seq<string>, text: string, i: nat)
    requires forall c :: c in names ==> Split(c) != []
    requires SortedDesc(names, StrLen)
    requires i < |names| && forall j :: 0 <= j < i ==> !NameHits(names[j], text)
    ensures forall c :: c in names && |c| > |names[i]| ==> !NameHits(c, text)
  {
    forall c | c in names && |c| > |names[i]|
      ensures !NameHits(c, text)
    {
      var j :| 0 <= j < |names| && names[j] == c;
      assert i < j ==> StrLen(names[i]) >= StrLen(names[j]);
      assert !NameHits(names[j], text);
    }
  }

  /** `_convert_container`: `qty * factor` when the item has a factor for the container. */
  function ConvertContainer(cfg: Config, item: string, container: string, qty: int): (r: Option<int>)
    ensures r.Some? <==> Factor(cfg, item, container).Some?
    ensures r.Some? ==> r.value == qty * Factor(cfg, item, container).value
  {
    match Factor(cfg, item, container)
    case Some(f) => Some(qty * f)
    case None => None
  }

  // ---------------------------------------------------------------------------
  // Quantities
  // ---------------------------------------------------------------------------

  predicate IsTimes(c: char) {
    c == 'x' || c == '×' || c == '*'
  }

  /** `\b(\d+)\s*[x×*]\s*(\d+)\b` at `i`: both factors and the end of the match. The
      pattern has no IGNORECASE, so `X` is not a multiplication sign. */
  function ProductAt(s: string, i: nat): (r: Option<(nat, nat, nat)>)
    ensures r.Some? ==> i < r.value.2 <= |s|
  {
    if !(i < |s| && IsDigit(s[i]) && BoundaryAt(s, i)) then None
    else
      var j1 := DigitEnd(s, i);
      var k := SpaceEnd(s, j1);
      if !(k < |s| && IsTimes(s[k])) then None
      else
        var k2 := SpaceEnd(s, k + 1);
        if !(k2 < |s| && IsDigit(s[k2])) then None
        else
          var j2 := DigitEnd(s, k2);
          if !BoundaryAt(s, j2) then None
          else Some((DigitsValue(s[i..j1]), DigitsValue(s[k2..j2]), j2))
  }

  /** `\b(\d+)\b` at `i`: the number and the end of the match. */
  function NumberAt(s: string, i: nat): (r: Option<(nat, nat)>)
    ensures r.Some? ==> i < r.value.1 <= |s|
  {
    if !(i < |s| && IsDigit(s[i]) && BoundaryAt(s, i)) then None
    else
      var j := DigitEnd(s, i);
      if BoundaryAt(s, j) then Some((DigitsValue(s[i..j]), j)) else None
  }

  /** The start of the first product in the text (`re.search`). */
  function FirstProduct(s: string): (r: Option<nat>)
    ensures r.Some? ==> r.value <= |s| && ProductAt(s, r.value).Some?
    ensures r.Some? ==> forall k :: 0 <= k < r.value ==> ProductAt(s, k).None?
    ensures r.None? ==> forall k :: 0 <= k <= |s| ==> ProductAt(s, k).None?
  {
    var p := (k: nat) => ProductAt(s, k).Some?;
    assert forall k: nat :: p(k) == ProductAt(s, k).Some?;
    FindFrom(0, |s|, p)
  }

  /** The start of the first whole number in the text. */
  function FirstNumber(s: string): (r: Option<nat>)
    ensures r.Some? ==> r.value <= |s| && NumberAt(s, r.value).Some?
    ensures r.Some? ==> forall k :: 0 <= k < r.value ==> NumberAt(s, k).None?
    ensures r.None? ==> forall k :: 0 <= k <= |s| ==> NumberAt(s, k).None?
  {
    var p := (k: nat) => NumberAt(s, k).Some?;
    assert forall k: nat :: p(k) == NumberAt(s, k).Some?;
    FindFrom(0, |s|, p)
  }

  /** `_extract_qty(text, config)` on its integer branches: the leftmost product `AxB`
      gives `A * B`; failing that, the leftmost whole number gives itself; the container
      is then looked for in what is left. With no number, nothing is extracted and the
      text is unchanged. */
  function ExtractQty(cfg: Config, text: string): (r: (Option<int>, Option<string>, string))
    requires cfg.Valid()
    ensures FirstProduct(text).Some? ==>
              var m := ProductAt(text, FirstProduct(text).value).value; r.0 == Some(m.0 * m.1)
    ensures FirstProduct(text).None? && FirstNumber(text).Some? ==>
              r.0 == Some(NumberAt(text, FirstNumber(text).value).value.0)
    ensures r.0.None? <==> FirstProduct(text).None? && FirstNumber(text).None?
    ensures r.0.None? ==> r.1.None? && r.2 == text
    ensures r.1.Some? ==> CanonicalContainer(cfg, r.1.value)
  {
    match FirstProduct(text)
    case Some(i) =>
      var m := ProductAt(text, i).value;
      var found := ExtractContainer(cfg, Cut(text, i, m.2));
      (Some(m.0 * m.1), found.0, found.1)
    case None =>
      match FirstNumber(text)
      case Some(i) =>
        var m := NumberAt(text, i).value;
        var found := ExtractContainer(cfg, Cut(text, i, m.1));
        (Some(m.0), found.0, found.1)
      case None => (None, None, text)
  }

  // ---------------------------------------------------------------------------
  // Filler words
  // ---------------------------------------------------------------------------

  function RemoveWords(text: string, words: seq<string>): string
    decreases |words|
  {
    if words == [] then text else RemoveWords(RemoveAll(text, words[0], true), words[1..])
  }

  /** `_remove_filler(text, config)`: every filler word removed where it stands as a whole
      word (ignoring case), then runs of whitespace collapsed to one space and the ends
      stripped. */
  function RemoveFiller(cfg: Config, text: string): (r: string)
    ensures r == Join(Split(RemoveWords(text, cfg.fillerWords)), " ")
    ensures r == [] || (!IsSpace(r[0]) && !IsSpace(r[|r| - 1]))
  {
    var r := Normalize(RemoveWords(text, cfg.fillerWords));
    JoinedWordsTrimmed(Split(RemoveWords(text, cfg.fillerWords)));
    r
  }

  /** Filler words that do not occur leave the text as it was. */
  lemma {:induction false} RemoveWordsNoMatch(text: string, words: seq<string>)
    requires forall w, k :: w in words && 0 <= k < |text| ==> !WordAt(text, k, w)
    ensures RemoveWords(text, words) == text
    decreases |words|
  {
    if words != [] {
      RemoveFromNoMatch(text, words[0], 0);
      assert text[0..] == text;
      RemoveWordsNoMatch(text, words[1..]);
    }
  }

  /** A text in which no filler word stands as a whole word only has its whitespace
      normalised. */
  lemma NoFillerNormalizes(cfg: Config, text: string)
    requires forall w, k :: w in cfg.fillerWords && 0 <= k < |text| ==> !WordAt(text, k, w)
    ensures RemoveFiller(cfg, text) == Normalize(text)
  {
    RemoveWordsNoMatch(text, cfg.fillerWords);
  }

  /** The removal is a single pass per word followed by whitespace collapsing, so a
      filler phrase holding a space can reappear: removing `a b` from `a a b b` leaves
      `a  b`, which collapses to `a b`. */
  lemma FillerPhraseSurvives(cfg: Config, text: string, r: string)
    requires cfg.fillerWords == ["a b"] && text == "a a b b" && r == "a b"
    ensures RemoveFiller(cfg, text) == r && WordAt(r, 0, cfg.fillerWords[0])
  {
    var m := RemoveAll(text, r, true);
    RemoveOneWord(text, cfg.fillerWords, r);
    PhraseRemoved(text, m);
    var ws := Split(m);
    SplitTwoWords(m, ws);
    JoinTwoWords(ws, r);
    PhraseIsWord(r);
  }

  lemma RemoveOneWord(text: string, words: seq<string>, w: string)
    requires words == [w]
    ensures RemoveWords(text, words) == RemoveAll(text, w, true)
  {
    assert RemoveWords(text, words) == RemoveWords(RemoveAll(text, w, true), words[1..]);
  }

  lemma PhraseIsWord(r: string)
    requires r == "a b"
    ensures WordAt(r, 0, r)
  {
    MatchesSlice(r, 0, r);
  }

  /** The single pass over `a a b b` removes the one whole-word `a b` it finds. */
  lemma PhraseRemoved(s: string, m: string)
    requires s == "a a b b" && m == RemoveAll(s, "a b", true)
    ensures m == "a  b"
  {
    var w := "a b";
    PhraseRemovedTail(s);
    assert !MatchesAt(s, 1, w) by { assert LowerChar(s[1]) != LowerChar(w[0]); }
    assert RemoveFrom(s, w, true, 1) == "  b";
    assert !MatchesAt(s, 0, w) by { assert LowerChar(s[2]) != LowerChar(w[2]); }
  }

  lemma PhraseRemovedTail(s: string)
    requires s == "a a b b"
    ensures RemoveFrom(s, "a b", true, 2) == " b"
  {
    var w := "a b";
    assert WordAt(s, 2, w);
    assert RemoveFrom(s, w, true, 5) == " b";
  }

  lemma JoinTwoWords(ws: seq<string>, r: string)
    requires ws == ["a", "b"] && r == "a b"
    ensures Join(ws, " ") == r
  {
    assert ws[1..] == ["b"];
    assert Join(ws[1..], " ") == "b";
    assert "a" + " " + "b" == r;
  }

  lemma SplitTwoWords(t: string, ws: seq<string>)
    requires t == "a  b" && ws == Split(t)
    ensures ws == ["a", "b"]
  {
    var u := "  b";
    FirstWordA(t);
    SplitStep(t, t, "a", u);
    SecondWordB(u);
    SplitStep(u, "b", "b", "");
    assert Split("") == [];
  }

  lemma FirstWordA(t: string)
    requires t == "a  b"
    ensures LStrip(t) == t && WordEnd(t, 0) == 1 && t[..1] == "a" && t[1..] == "  b"
  {
    assert WordEnd(t, 1) == 1;
  }

  lemma SecondWordB(u: string)
    requires u == "  b"
    ensures LStrip(u) == "b" && WordEnd("b", 0) == 1 && "b"[..1] == "b" && "b"[1..] == ""
  {
    var v := u[1..];
    var b := v[1..];
    LeadingSpaces(u, v, b);
    WordB(b);
  }

  lemma LeadingSpaces(u: string, v: string, b: string)
    requires u == "  b" && v == u[1..] && b == v[1..]
    ensures LStrip(u) == b && b == "b"
  {
    LStripSkip(u);
    LStripSkip(v);
    LStripKeep(b);
  }

  lemma LStripSkip(s: string)
    requires s != [] && IsSpace(s[0])
    ensures LStrip(s) == LStrip(s[1..])
  {
  }

  lemma LStripKeep(s: string)
    requires s != [] && !IsSpace(s[0])
    ensures LStrip(s) == s
  {
  }

  lemma WordB(b: string)
    requires b == "b"
    ensures WordEnd(b, 0) == 1 && b[..1] == b && b[1..] == ""
  {
    assert WordEnd(b, 1) == 1;
  }

  /** One step of `str.split()`: the first word, then the rest. */
  lemma SplitStep(t: string, u: string, w: string, rest: string)
    requires LStrip(t) == u && u != [] && WordEnd(u, 0) == |w| && u[..|w|] == w && u[|w|..] == rest
    ensures Split(t) == [w] + Split(rest)
  {
  }

  /** Words joined by single spaces neither start nor end with whitespace. */
  lemma {:induction false} JoinedWordsTrimmed(ws: seq<string>)
    requires forall k :: 0 <= k < |ws| ==> IsWord(ws[k])
    ensures var r := Join(ws, " "); r == [] || (!IsSpace(r[0]) && !IsSpace(r[|r| - 1]))
  {
    if |ws| > 1 {
      JoinedWordsTrimmed(ws[1..]);
      var r := Join(ws, " ");
      var tail := Join(ws[1..], " ");
      assert r == ws[0] + " " + tail;
      assert IsWord(ws[1]);
      assert tail != [] by { JoinNonEmpty(ws[1..]); }
      assert r[|r| - 1] == tail[|tail| - 1];
      assert r[0] == ws[0][0];
    }
  }

  lemma {:induction false} JoinNonEmpty(ws: seq<string>)
    requires ws != [] && forall k :: 0 <= k < |ws| ==> IsWord(ws[k])
    ensures Join(ws, " ") != []
  {
    if |ws| > 1 {
      assert |Join(ws, " ")| >= |ws[0]|;
    }
  }

  // ---------------------------------------------------------------------------
  // Properties
  // ---------------------------------------------------------------------------

  /** A product written `AxB` as the whole line is read as the quantity `A * B`, with no
      container and nothing left over. */
  lemma {:induction false} ProductRead(cfg: Config, a: nat, b: nat)
    requires cfg.Valid()
    ensures var r := ExtractQty(cfg, NatToString(a) + "x" + NatToString(b));
            r.0 == Some(a * b) && (r.1.None? ==> r.2 == "")
  {
    var x, y := NatToString(a), NatToString(b);
    NatToStringRoundTrip(a);
    NatToStringRoundTrip(b);
    ProductWhole(cfg, x, y, x + "x" + y);
  }

  lemma ProductWhole(cfg: Config, x: string, y: string, s: string)
    requires cfg.Valid() && x != [] && y != [] && AllDigits(x) && AllDigits(y) && s == x + "x" + y
    ensures var r := ExtractQty(cfg, s); r.0 == Some(DigitsValue(x) * DigitsValue(y)) && (r.1.None? ==> r.2 == "")
  {
    ProductSpans(x, y, s);
    assert FirstProduct(s) == Some(0);
    assert s[..0] + s[|s|..] == [];
  }

  /** The product `AxB` spans the whole text `A + "x" + B`. */
  lemma ProductSpans(x: string, y: string, s: string)
    requires x != [] && y != [] && AllDigits(x) && AllDigits(y) && s == x + "x" + y
    ensures ProductAt(s, 0) == Some((DigitsValue(x), DigitsValue(y), |s|))
  {
    DigitEndIs(s, 0, |x|);
    DigitEndIs(s, |x| + 1, |s|);
    assert SpaceEnd(s, |x|) == |x|;
    assert SpaceEnd(s, |x| + 1) == |x| + 1;
    assert s[0..|x|] == x && s[|x| + 1..|s|] == y;
  }

  /** A number standing alone is read as the quantity. */
  lemma {:induction false} NumberRead(cfg: Config, n: nat)
    requires cfg.Valid()
    ensures var r := ExtractQty(cfg, NatToString(n)); r.0 == Some(n) && (r.1.None? ==> r.2 == "")
  {
    NatToStringRoundTrip(n);
    NumberWhole(cfg, NatToString(n));
  }

  lemma NumberWhole(cfg: Config, s: string)
    requires cfg.Valid() && s != [] && AllDigits(s)
    ensures var r := ExtractQty(cfg, s); r.0 == Some(DigitsValue(s)) && (r.1.None? ==> r.2 == "")
  {
    DigitEndIs(s, 0, |s|);
    assert s[0..|s|] == s;
    assert NumberAt(s, 0) == Some((DigitsValue(s), |s|));
    NoProductInDigits(s);
    assert s[..0] + s[|s|..] == [];
  }

  /** A run of digits holds no product: there is no multiplication sign. */
  lemma NoProductInDigits(s: string)
    requires AllDigits(s)
    ensures forall k :: 0 <= k <= |s| ==> ProductAt(s, k).None?
  {
    forall k | 0 <= k <= |s| ensures ProductAt(s, k).None? {
      if k < |s| && IsDigit(s[k]) && BoundaryAt(s, k) {
        DigitEndIs(s, k, |s|);
      }
    }
  }
}
