/** `_match_item`: the canonical item a piece of text names, through six tiers of
    decreasing strictness, with the raw text that matched. */
module ItemMatching {
  import opened Wrappers
  import opened Text
  import opened Configuration
  import opened Ordering
  import opened Fuzzy

  /** The target of the alias a lower-cased word names: the last alias key whose lower
      case equals it (`{a.lower(): a for a in aliases}` keeps the last). */
  function LastAliasFor(aliases: seq<(string, string)>, w: string): (r: Option<string>)
    ensures r.Some? ==> exists a :: a in aliases && a.1 == r.value && Lower(a.0) == w
  {
    if aliases == [] then None
    else if Lower(aliases[|aliases| - 1].0) == w then Some(aliases[|aliases| - 1].1)
    else
      var r := LastAliasFor(aliases[..|aliases| - 1], w);
      assert forall a :: a in aliases[..|aliases| - 1] ==> a in aliases;
      r
  }

  /** The last item whose lower case equals `w` (`{i.lower(): i for i in items}`). */
  function LastItemFor(items: seq<string>, w: string): (r: Option<string>)
    ensures r.Some? ==> r.value in items && Lower(r.value) == w
  {
    if items == [] then None
    else if Lower(items[|items| - 1]) == w then Some(items[|items| - 1])
    else
      var r := LastItemFor(items[..|items| - 1], w);
      assert forall x :: x in items[..|items| - 1] ==> x in items;
      r
  }

  /** Every name a fuzzy comparison may land on: items and alias keys, lower-cased. */
  function Targets(cfg: Config): (r: seq<string>)
    ensures forall m :: m in r ==> m in LowerAll(cfg.items) || m in LowerKeys(cfg.aliases)
  {
    LowerAll(cfg.items) + LowerKeys(cfg.aliases)
  }

  /** A fuzzy hit resolved to its canonical name. */
  function FuzzyItem(sim: Ratio, cfg: Config, w: string, cutoff: real): (r: Option<string>)
    ensures r.Some? ==> KnownItem(cfg, r.value)
  {
    match CloseMatch(sim, w, Targets(cfg), cutoff)
    case None => None
    case Some(m) => ResolveMatch(m, cfg.items, cfg.aliases)
  }

  function ShortCutoff(w: string): real {
    if |w| <= 4 then 0.8 else 0.6
  }

  /** Tier 6: spans of `len` words, from `start` on, then shorter spans; each span is
      tried as an exact alias, an exact item, then fuzzily. The raw text is the span. */
  function SpanFrom(sim: Ratio, cfg: Config, words: seq<string>, len: nat, start: nat): (r: Option<(string, string)>)
    ensures r.Some? ==> KnownItem(cfg, r.value.0)
    decreases len, |words| - start
  {
    if len == 0 then None
    else if start + len > |words| then SpanFrom(sim, cfg, words, len - 1, 0)
    else
      var span := Join(words[start..start + len], " ");
      match LastAliasFor(cfg.aliases, span)
      case Some(t) => Some((t, span))
      case None =>
        match LastItemFor(cfg.items, span)
        case Some(x) => Some((x, span))
        case None =>
          match FuzzyItem(sim, cfg, span, ShortCutoff(span))
          case Some(x) => Some((x, span))
          case None => SpanFrom(sim, cfg, words, len, start + 1)
  }

  /** Tier 1: the longest item whose lower case occurs in the lower-cased text. */
  function SubstringTier(items: seq<string>, tl: string): (r: Option<nat>)
    ensures r.Some? ==> r.value < |items| && ContainsStr(tl, Lower(items[r.value]))
    ensures r.Some? ==> forall j :: 0 <= j < r.value ==> !ContainsStr(tl, Lower(items[j]))
    ensures r.None? ==> forall j :: 0 <= j < |items| ==> !ContainsStr(tl, Lower(items[j]))
  {
    var p := (x: string) => ContainsStr(tl, Lower(x));
    assert forall x: string :: p(x) == ContainsStr(tl, Lower(x));
    FirstIndex(items, p)
  }

  /** Tier 3: the text with trailing `s` removed equals the item, or the item with its
      trailing `s` removed. */
  predicate PluralMatch(tl: string, item: string) {
    var t := RStripChar(tl, 's');
    t == Lower(item) || t == RStripChar(Lower(item), 's')
  }

  /** Tier 2: the longest alias key whose lower case occurs in the text; the raw text is
      the key, the result its target. No longer key occurs, and none is found exactly
      when no key occurs. */
  function AliasSubstringTier(cfg: Config, tl: string): (r: Option<(string, string)>)
    ensures r.Some? ==> KnownItem(cfg, r.value.0)
    ensures r.Some? ==> r.value.1 in Keys(cfg.aliases) && Lookup(cfg.aliases, r.value.1) == Some(r.value.0)
                        && ContainsStr(tl, Lower(r.value.1))
    ensures r.Some? ==> forall k :: k in Keys(cfg.aliases) && |k| > |r.value.1| ==> !ContainsStr(tl, Lower(k))
    ensures r.None? <==> forall k :: k in Keys(cfg.aliases) ==> !ContainsStr(tl, Lower(k))
  {
    var keys := LongestFirst(Keys(cfg.aliases));
    LongestOccurring(keys, Keys(cfg.aliases), tl);
    match SubstringTier(keys, tl)
    case None => None
    case Some(i) =>
      AliasKeyTarget(cfg, keys[i]);
      Some((Lookup(cfg.aliases, keys[i]).value, keys[i]))
  }

  /** The substring tier over `names` sorted longest first lands on a name of `names`
      that occurs in the text, with no longer name occurring; it finds none exactly when
      no name occurs. */
  lemma LongestOccurring(sorted: seq<string>, names: seq<string>, tl: string)
    requires SortedDesc(sorted, StrLen) && multiset(sorted) == multiset(names)
    ensures var r := SubstringTier(sorted, tl);
            && (r.Some? ==> sorted[r.value] in names)
            && (r.Some? ==> forall x :: x in names && |x| > |sorted[r.value]| ==> !ContainsStr(tl, Lower(x)))
            && (r.None? <==> forall x :: x in names ==> !ContainsStr(tl, Lower(x)))
  {
    SortedMembers(sorted, names);
    var r := SubstringTier(sorted, tl);
    forall x | x in names
      ensures exists j :: 0 <= j < |sorted| && sorted[j] == x
    {
      assert x in sorted;
    }
    if r.Some? {
      FirstHitLongest(sorted, tl, r.value);
    }
  }

  /** Over names sorted longest first, no name longer than the first one occurring in
      the text occurs in it. */
  lemma FirstHitLongest(names: seq<string>, tl: string, i: nat)
    requires SortedDesc(names, StrLen) && i < |names|
    requires forall j :: 0 <= j < i ==> !ContainsStr(tl, Lower(names[j]))
    ensures forall x :: x in names && |x| > |names[i]| ==> !ContainsStr(tl, Lower(x))
  {
    forall x | x in names && |x| > |names[i]|
      ensures !ContainsStr(tl, Lower(x))
    {
      var j :| 0 <= j < |names| && names[j] == x;
      assert i < j ==> StrLen(names[i]) >= StrLen(names[j]);
    }
  }

  /** An alias key looks up to a target, and the target is a known item. */
  lemma AliasKeyTarget(cfg: Config, k: string)
    requires k in Keys(cfg.aliases)
    ensures Lookup(cfg.aliases, k).Some? && KnownItem(cfg, Lookup(cfg.aliases, k).value)
  {
    var ks := Keys(cfg.aliases);
    var i :| 0 <= i < |ks| && ks[i] == k;
    assert cfg.aliases[i].0 == k;
    var target := Lookup(cfg.aliases, k).value;
    var j :| 0 <= j < |cfg.aliases| && cfg.aliases[j] == (k, target);
    assert cfg.aliases[j].1 == target;
  }

  /** Tiers 3 and 4: singular/plural equality, then the text as a prefix of an item.
      The item returned meets one of the two tests, the plural test whenever some item
      meets it; none is returned exactly when no item meets either. */
  function LooseNameTier(items: seq<string>, tl: string): (r: Option<string>)
    ensures r.Some? ==> r.value in items && (PluralMatch(tl, r.value) || StartsWith(Lower(r.value), tl))
    ensures (exists x :: x in items && PluralMatch(tl, x)) ==> r.Some? && PluralMatch(tl, r.value)
    ensures r.None? <==> forall x :: x in items ==> !PluralMatch(tl, x) && !StartsWith(Lower(x), tl)
  {
    match PluralTier(items, tl)
    case Some(i) => Some(items[i])
    case None =>
      match PrefixTier(items, tl)
      case Some(i) => Some(items[i])
      case None => None
  }

  /** Tier 3: the first item the singular/plural test accepts. */
  function PluralTier(items: seq<string>, tl: string): (r: Option<nat>)
    ensures r.Some? ==> r.value < |items| && PluralMatch(tl, items[r.value])
    ensures r.None? ==> forall x :: x in items ==> !PluralMatch(tl, x)
  {
    var p := (x: string) => PluralMatch(tl, x);
    assert forall x: string :: p(x) == PluralMatch(tl, x);
    var r := FirstIndex(items, p);
    assert r.None? ==> forall j :: 0 <= j < |items| ==> !PluralMatch(tl, items[j]);
    r
  }

  /** Tier 4: the first item the text is a prefix of (both lower-cased). */
  function PrefixTier(items: seq<string>, tl: string): (r: Option<nat>)
    ensures r.Some? ==> r.value < |items| && StartsWith(Lower(items[r.value]), tl)
    ensures r.None? ==> forall x :: x in items ==> !StartsWith(Lower(x), tl)
  {
    var p := (x: string) => StartsWith(Lower(x), tl);
    assert forall x: string :: p(x) == StartsWith(Lower(x), tl);
    var r := FirstIndex(items, p);
    assert r.None? ==> forall j :: 0 <= j < |items| ==> !StartsWith(Lower(items[j]), tl);
    r
  }

  /** Tiers 3 to 6, reached when no item or alias occurs in the text; the raw text is
      the stripped text, except for word spans. */
  function LooseTiers(sim: Ratio, cfg: Config, t: string): (r: Option<(string, string)>)
    ensures r.Some? ==> KnownItem(cfg, r.value.0)
  {
    var tl := Lower(t);
    var items := LongestFirst(cfg.items);
    match LooseNameTier(items, tl)
    case Some(x) =>
      PermutationMember(items, cfg.items, x);
      Some((x, t))
    case None =>
      match FuzzyItem(sim, cfg, tl, ShortCutoff(tl))
      case Some(x) => Some((x, t))
      case None =>
        var words := Split(tl);
        SpanFrom(sim, cfg, words, if |words| < 4 then |words| else 4, 0)
  }

  /** Tier 1 over the configured items, longest name first. */
  function ItemTier(cfg: Config, tl: string): (r: Option<string>)
    ensures r.Some? ==> r.value in cfg.items
  {
    var items := LongestFirst(cfg.items);
    match SubstringTier(items, tl)
    case Some(i) =>
      PermutationMember(items, cfg.items, items[i]);
      Some(items[i])
    case None => None
  }

  /** `_match_item(text, config)`: the canonical item and the raw text that matched it. */
  function MatchItem(sim: Ratio, cfg: Config, text: string): (r: Option<(string, string)>)
    ensures Strip(text) == [] ==> r.None?
    ensures r.Some? ==> KnownItem(cfg, r.value.0)
  {
    var t := Strip(text);
    if t == [] then None
    else match ItemTier(cfg, Lower(t))
    case Some(x) => Some((x, x))
    case None =>
      match AliasSubstringTier(cfg, Lower(t))
      case Some(hit) => Some(hit)
      case None => LooseTiers(sim, cfg, t)
  }

  // ---------------------------------------------------------------------------
  // Properties
  // ---------------------------------------------------------------------------

  /** When an item's name occurs in the text (ignoring case), the text resolves to an
      item whose name occurs in it and is at least as long, with the item's own name as
      the raw text; aliases are not consulted. */
  lemma {:induction false} ItemSubstringWins(sim: Ratio, cfg: Config, text: string, x: string)
    requires x in cfg.items && Strip(text) != [] && ContainsStr(Lower(Strip(text)), Lower(x))
    ensures MatchItem(sim, cfg, text).Some?
    ensures var y := MatchItem(sim, cfg, text).value.0;
            y in cfg.items && MatchItem(sim, cfg, text).value.1 == y
            && ContainsStr(Lower(Strip(text)), Lower(y)) && |y| >= |x|
  {
    var tl := Lower(Strip(text));
    var items := LongestFirst(cfg.items);
    PermutationMember(cfg.items, items, x);
    var j :| 0 <= j < |items| && items[j] == x;
    LongestSubstringHit(items, tl, j);
    var i := SubstringTier(items, tl).value;
    PermutationMember(items, cfg.items, items[i]);
    assert ItemTier(cfg, tl) == Some(items[i]);
  }

  /** Over names sorted longest first, the substring tier lands on a name at least as
      long as any name that occurs. */
  lemma LongestSubstringHit(items: seq<string>, tl: string, j: nat)
    requires SortedDesc(items, StrLen) && j < |items| && ContainsStr(tl, Lower(items[j]))
    ensures SubstringTier(items, tl).Some?
    ensures |items[SubstringTier(items, tl).value]| >= |items[j]|
  {
    var i := SubstringTier(items, tl).value;
    assert StrLen(items[i]) >= StrLen(items[j]);
  }
}
