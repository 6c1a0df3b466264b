/** `_extract_location`: a destination or source named after a preposition, with the
    direction the preposition stands for, and the line with that phrase taken out. */
module LocationExtraction {
  import opened Wrappers
  import opened Text
  import opened Configuration
  import opened Ordering
  import opened Fuzzy

  /** The configured locations plus the default source when it is not among them. */
  function BaseLocations(cfg: Config): (r: seq<string>)
    ensures cfg.defaultSource in r
    ensures forall l :: l in r <==> l in cfg.locations || l == cfg.defaultSource
  {
    cfg.locations + (if cfg.defaultSource in cfg.locations then [] else [cfg.defaultSource])
  }

  /** The alias loop of `_extract_location`: an alias whose target is already a known
      location name (the list grows as the loop runs) or equals a base location ignoring
      case is recorded in the alias map, and its key joins the list of names. */
  function AddLocationAliases(aliases: seq<(string, string)>, base: seq<string>,
                              locs: seq<string>, amap: seq<(string, string)>): (r: (seq<string>, seq<(string, string)>))
    ensures forall l :: l in locs ==> l in r.0
    ensures forall l :: l in r.0 ==> l in locs || exists p :: p in aliases && p.0 == l
    ensures forall p :: p in r.1 ==> p in amap || p in aliases
    decreases |aliases|
  {
    if aliases == [] then (locs, amap)
    else
      var (k, t) := aliases[0];
      var r := if t in locs || LowerIn(t, base) then
                 AddLocationAliases(aliases[1..], base, if k in locs then locs else locs + [k], amap + [(k, t)])
               else AddLocationAliases(aliases[1..], base, locs, amap);
      assert forall p :: p in aliases[1..] ==> p in aliases;
      r
  }

  /** `all_locs` and `loc_alias_map` after the alias loop. */
  function LocationNames(cfg: Config): (r: (seq<string>, seq<(string, string)>))
    ensures forall l :: l in cfg.locations || l == cfg.defaultSource ==> l in r.0
    ensures forall l :: l in r.0 ==> l in cfg.locations || l == cfg.defaultSource || exists p :: p in cfg.aliases && p.0 == l
    ensures forall p :: p in r.1 ==> p in cfg.aliases
  {
    var base := BaseLocations(cfg);
    AddLocationAliases(cfg.aliases, base, base, [])
  }

  /** `loc_alias_map.get(loc, loc)`. */
  function Canonical(amap: seq<(string, string)>, loc: string): (r: string)
    ensures r == loc || (loc, r) in amap
  {
    match Lookup(amap, loc)
    case None => loc
    case Some(t) =>
      var i :| 0 <= i < |amap| && amap[i] == (loc, t);
      assert amap[i] in amap;
      t
  }

  // ---------------------------------------------------------------------------
  // The two phrase patterns
  // ---------------------------------------------------------------------------

  /** `\b<prep>\s+(?:the\s+)?<loc>\b` matching at `i`, with the end of the match.
      The optional `the` is tried first, as the greedy `?` does. */
  function LongPhraseAt(s: string, i: nat, prep: string, loc: string): (r: Option<nat>)
    ensures r.Some? ==> i < r.value <= |s|
  {
    if !(i <= |s| && BoundaryAt(s, i) && MatchesAt(s, i, prep)) then None
    else
      var j := i + |prep|;
      var k := SpaceEnd(s, j);
      if k == j then None
      else
        var withThe := if MatchesAt(s, k, "the") then SpaceEnd(s, k + 3) else k + 3;
        if MatchesAt(s, k, "the") && withThe > k + 3 && MatchesAt(s, withThe, loc) && BoundaryAt(s, withThe + |loc|) then
          Some(withThe + |loc|)
        else if MatchesAt(s, k, loc) && BoundaryAt(s, k + |loc|) then Some(k + |loc|)
        else None
  }

  /** `[\-\s]*<loc>(?=\s|$)` from position `j`. */
  function DashedLocationFrom(s: string, j: nat, loc: string): (r: Option<nat>)
    requires j <= |s|
    ensures r.Some? ==> j <= r.value <= |s|
  {
    var k := SpanEnd(s, j, c => c == '-' || IsSpace(c));
    if MatchesAt(s, k, loc) && (k + |loc| == |s| || IsSpace(s[k + |loc|])) then Some(k + |loc|) else None
  }

  /** `(?:^|\s)<prep>[\-\s]*<loc>(?=\s|$)` matching at `i`: the form used for the
      one- and two-letter prepositions of non-Latin scripts, which are written joined to
      the following word. The `^` branch is tried before the `\s` branch. */
  function ShortPhraseAt(s: string, i: nat, prep: string, loc: string): (r: Option<nat>)
    ensures r.Some? ==> i < r.value <= |s| || (i == 0 && r.value <= |s|)
  {
    var atStart := if i == 0 && MatchesAt(s, 0, prep) then DashedLocationFrom(s, |prep|, loc) else None;
    if atStart.Some? then atStart
    else if i < |s| && IsSpace(s[i]) && MatchesAt(s, i + 1, prep) then DashedLocationFrom(s, i + 1 + |prep|, loc)
    else None
  }

  predicate IsShortForm(prep: string) {
    |prep| <= 2 && !IsAscii(prep)
  }

  function PhraseAt(s: string, i: nat, prep: string, loc: string): (r: Option<nat>)
    ensures r.Some? ==> i <= r.value <= |s|
  {
    if IsShortForm(prep) then ShortPhraseAt(s, i, prep, loc) else LongPhraseAt(s, i, prep, loc)
  }

  // ---------------------------------------------------------------------------
  // Search order
  // ---------------------------------------------------------------------------

  /** A pattern to try: a location name, a direction and one of its prepositions. */
  datatype Candidate = Candidate(loc: string, direction: string, prep: string)

  predicate HasKey<V>(m: seq<(string, V)>, k: string) {
    exists j :: 0 <= j < |m| && m[j].0 == k
  }

  function PrepCandidates(loc: string, d: string, preps: seq<string>): (r: seq<Candidate>)
    ensures forall c :: c in r ==> c.loc == loc && c.direction == d
  {
    if preps == [] then [] else [Candidate(loc, d, preps[0])] + PrepCandidates(loc, d, preps[1..])
  }

  function DirectionCandidates(loc: string, dirs: seq<(string, seq<string>)>): (r: seq<Candidate>)
    ensures forall c :: c in r ==> c.loc == loc && HasKey(dirs, c.direction)
  {
    if dirs == [] then []
    else
      var r := PrepCandidates(loc, dirs[0].0, LongestFirst(dirs[0].1)) + DirectionCandidates(loc, dirs[1..]);
      assert forall d :: HasKey(dirs[1..], d) ==> HasKey(dirs, d) by {
        forall d | HasKey(dirs[1..], d) ensures HasKey(dirs, d) {
          var j :| 0 <= j < |dirs[1..]| && dirs[1..][j].0 == d;
          assert dirs[j + 1].0 == d;
        }
      }
      r
  }

  /** The order of the three nested loops: locations longest first, directions in
      configuration order, each direction's prepositions longest first. */
  function Candidates(locs: seq<string>, dirs: seq<(string, seq<string>)>): (r: seq<Candidate>)
    ensures forall c :: c in r ==> c.loc in locs && HasKey(dirs, c.direction)
  {
    if locs == [] then [] else DirectionCandidates(locs[0], dirs) + Candidates(locs[1..], dirs)
  }

  /** The fuzzy fallback: the first word longer than two characters with a close match
      among the lower-cased location names longer than two characters; the location it
      resolves to and the word's index. */
  function FuzzyWordFrom(sim: Ratio, words: seq<string>, i: nat, multi: seq<string>): (r: Option<(string, nat)>)
    ensures r.Some? ==> r.value.0 in multi && i <= r.value.1 < |words| && |words[r.value.1]| > 2
    decreases |words| - i
  {
    if i >= |words| then None
    else
      var w := words[i];
      if |w| <= 2 then FuzzyWordFrom(sim, words, i + 1, multi)
      else
        var cutoff := if |w| <= 4 then 0.85 else 0.75;
        match CloseMatch(sim, Lower(w), LowerAll(multi), cutoff)
        case None => FuzzyWordFrom(sim, words, i + 1, multi)
        case Some(m) =>
          match FirstEqualIgnoreCase(m, multi)
          case Some(loc) => Some((loc, i))
          case None => FuzzyWordFrom(sim, words, i + 1, multi)
  }

  function Longer(xs: seq<string>, n: nat): (r: seq<string>)
    ensures forall x :: x in r <==> x in xs && |x| > n
  {
    if xs == [] then [] else (if |xs[0]| > n then [xs[0]] else []) + Longer(xs[1..], n)
  }

  /** Every pattern the phrase tier tries, in order. */
  function LocationCandidates(cfg: Config): (r: seq<Candidate>)
    ensures forall c :: c in r ==> c.loc in LocationNames(cfg).0 && HasKey(cfg.prepositions, c.direction)
  {
    var allLocs := LocationNames(cfg).0;
    SortedMembers(LongestFirst(allLocs), allLocs);
    Candidates(LongestFirst(allLocs), cfg.prepositions)
  }

  /** The first candidate whose phrase occurs in the text, with its leftmost match:
      the candidate's index, the match start and the match end. No earlier candidate
      matches anywhere, and none is found exactly when no candidate matches. */
  function PhraseHit(cfg: Config, text: string): (r: Option<(nat, nat, nat)>)
    ensures r.Some? ==> r.value.0 < |LocationCandidates(cfg)| && r.value.1 <= r.value.2 <= |text|
    ensures r.Some? ==> PhraseMatch(text, LocationCandidates(cfg)[r.value.0], r.value.1, r.value.2)
    ensures r.Some? ==> forall m: nat, k: nat :: m < r.value.0 && k <= |text| ==>
                          NoPhraseAt(text, k, LocationCandidates(cfg)[m])
    ensures r.None? ==> forall m: nat, k: nat :: m < |LocationCandidates(cfg)| && k <= |text| ==>
                          NoPhraseAt(text, k, LocationCandidates(cfg)[m])
  {
    FirstPhrase(LocationCandidates(cfg), text)
  }

  /** Candidate `c`'s phrase matches the text from `start` to `end`, and nowhere further
      left. */
  predicate PhraseMatch(text: string, c: Candidate, start: nat, end: nat) {
    && PhraseAt(text, start, c.prep, c.loc) == Some(end)
    && forall k: nat :: k < start ==> NoPhraseAt(text, k, c)
  }

  /** `PhraseHit` over any list of candidates. */
  function FirstPhrase(cands: seq<Candidate>, text: string): (r: Option<(nat, nat, nat)>)
    ensures r.Some? ==> r.value.0 < |cands| && r.value.1 <= r.value.2 <= |text|
    ensures r.Some? ==> PhraseMatch(text, cands[r.value.0], r.value.1, r.value.2)
    ensures r.Some? ==> forall m: nat, k: nat :: m < r.value.0 && k <= |text| ==> NoPhraseAt(text, k, cands[m])
    ensures r.None? ==> forall m: nat, k: nat :: m < |cands| && k <= |text| ==> NoPhraseAt(text, k, cands[m])
  {
    var at := (c: Candidate, k: nat) => PhraseAt(text, k, c.prep, c.loc);
    assert forall c: Candidate, k: nat :: at(c, k) == PhraseAt(text, k, c.prep, c.loc);
    FirstHitFrom(cands, 0, |text|, at)
  }

  predicate NoPhraseAt(text: string, k: nat, c: Candidate) {
    PhraseAt(text, k, c.prep, c.loc).None?
  }

  /** The phrase tier: the matched phrase cut out of the line. A leading whitespace
      character the short form's match begins with stays in the line. */
  function PhraseTier(cfg: Config, text: string): (r: Option<(string, string, string)>)
    ensures r.Some? ==> HasKey(cfg.prepositions, r.value.1)
    ensures r.Some? ==> Reachable(cfg, r.value.0)
    ensures r.Some? <==> PhraseHit(cfg, text).Some?
    ensures r.Some? ==> var c := LocationCandidates(cfg)[PhraseHit(cfg, text).value.0];
                        r.value.0 == Canonical(LocationNames(cfg).1, c.loc) && r.value.1 == c.direction
  {
    var cands := LocationCandidates(cfg);
    match PhraseHit(cfg, text)
    case None => None
    case Some((n, start, end)) =>
      assert cands[n] in cands;
      var from := if start < |text| && IsSpace(text[start]) && start < end then start + 1 else start;
      Some((Canonical(LocationNames(cfg).1, cands[n].loc), cands[n].direction, Cut(text, from, end)))
  }

  /** The fuzzy tier, reached only when no phrase matches. */
  function FuzzyTier(sim: Ratio, cfg: Config, text: string): (r: Option<(string, string)>)
    ensures r.Some? ==> Reachable(cfg, r.value.0)
  {
    var (allLocs, amap) := LocationNames(cfg);
    var multi := Longer(allLocs, 2);
    if multi == [] then None
    else
      var words := Split(text);
      match FuzzyWordFrom(sim, words, 0, multi)
      case None => None
      case Some((loc, i)) => Some((Canonical(amap, loc), Join(words[..i] + words[i + 1..], " ")))
  }

  /** `_extract_location(text, config)`: the canonical location, its direction and the
      rest of the line. The phrase patterns are tried first; the fuzzy fallback always
      reports direction `to`. The location is one of the names the alias loop built, or
      what the location alias map sends one of them to. */
  function ExtractLocation(sim: Ratio, cfg: Config, text: string): (r: (Option<string>, Option<string>, string))
    ensures r.0.Some? <==> r.1.Some?
    ensures r.0.None? ==> r.2 == text
    ensures r.1.Some? ==> HasKey(cfg.prepositions, r.1.value) || r.1.value == "to"
    ensures r.0.Some? ==> r.0.value in cfg.locations || r.0.value == cfg.defaultSource
                          || exists p :: p in cfg.aliases && (p.0 == r.0.value || p.1 == r.0.value)
    ensures r.0.Some? ==> Reachable(cfg, r.0.value)
    ensures PhraseHit(cfg, text).Some? ==>
              var c := LocationCandidates(cfg)[PhraseHit(cfg, text).value.0];
              r.0 == Some(Canonical(LocationNames(cfg).1, c.loc)) && r.1 == Some(c.direction)
    ensures PhraseHit(cfg, text).None? && r.0.Some? ==>
              r.1 == Some("to") && FuzzyTier(sim, cfg, text) == Some((r.0.value, r.2))
  {
    match PhraseTier(cfg, text)
    case Some((loc, dir, rest)) =>
      ReachableKnown(cfg, loc);
      (Some(loc), Some(dir), rest)
    case None =>
      match FuzzyTier(sim, cfg, text)
      case Some((loc, rest)) =>
        ReachableKnown(cfg, loc);
        (Some(loc), Some("to"), rest)
      case None => (None, None, text)
  }

  /** A location reported: one of the names the alias loop built, or what the
      location alias map sends one of them to. */
  predicate Reachable(cfg: Config, x: string) {
    exists l :: l in LocationNames(cfg).0 && (x == l || (l, x) in LocationNames(cfg).1)
  }

  /** A reachable location is configured, the default source, or named by an alias. */
  lemma ReachableKnown(cfg: Config, x: string)
    requires Reachable(cfg, x)
    ensures x in cfg.locations || x == cfg.defaultSource || exists p :: p in cfg.aliases && (p.0 == x || p.1 == x)
  {
    var l :| l in LocationNames(cfg).0 && (x == l || (l, x) in LocationNames(cfg).1);
    if x != l {
      assert (l, x) in cfg.aliases;
    }
  }

  // ---------------------------------------------------------------------------
  // Properties
  // ---------------------------------------------------------------------------

  /** Longest name first: when the phrase tier settles on a location, no phrase naming a
      longer location occurs anywhere in the line. */
  lemma {:induction false} LongestLocationWins(cfg: Config, text: string, c: Candidate, k: nat)
    requires PhraseHit(cfg, text).Some?
    requires c in LocationCandidates(cfg) && k <= |text|
    requires |c.loc| > |LocationCandidates(cfg)[PhraseHit(cfg, text).value.0].loc|
    ensures NoPhraseAt(text, k, c)
  {
    var allLocs := LocationNames(cfg).0;
    var cands := LocationCandidates(cfg);
    var n := PhraseHit(cfg, text).value.0;
    var m :| 0 <= m < |cands| && cands[m] == c;
    LongerComesFirst(LongestFirst(allLocs), cfg.prepositions, m, n);
  }

  /** When some candidate's phrase occurs in the line, the phrase tier decides: the
      location and direction found are those of a candidate whose phrase matches in the
      line, and its location name is at least as long as that of any phrase occurring. */
  lemma PhraseDecides(sim: Ratio, cfg: Config, text: string, c: Candidate, k: nat)
    requires c in LocationCandidates(cfg) && k <= |text| && !NoPhraseAt(text, k, c)
    ensures PhraseHit(cfg, text).Some?
    ensures var (n, start, end) := PhraseHit(cfg, text).value;
            var found := LocationCandidates(cfg)[n];
            && PhraseMatch(text, found, start, end)
            && |found.loc| >= |c.loc|
            && ExtractLocation(sim, cfg, text).0 == Some(Canonical(LocationNames(cfg).1, found.loc))
            && ExtractLocation(sim, cfg, text).1 == Some(found.direction)
  {
    var cands := LocationCandidates(cfg);
    var m :| 0 <= m < |cands| && cands[m] == c;
    assert PhraseHit(cfg, text).Some?;
    var n := PhraseHit(cfg, text).value.0;
    if |c.loc| > |cands[n].loc| {
      LongestLocationWins(cfg, text, c, k);
    }
  }

  /** In the candidate list built from names sorted longest first, a candidate with a
      longer name comes earlier. */
  lemma {:induction false} LongerComesFirst(locs: seq<string>, dirs: seq<(string, seq<string>)>, m: nat, n: nat)
    requires SortedDesc(locs, StrLen)
    requires m < |Candidates(locs, dirs)| && n < |Candidates(locs, dirs)|
    requires |Candidates(locs, dirs)[m].loc| > |Candidates(locs, dirs)[n].loc|
    ensures m < n
  {
    var h := |DirectionCandidates(locs[0], dirs)|;
    CandidatesSplit(locs, dirs, m);
    CandidatesSplit(locs, dirs, n);
    HeadIsLongest(locs, Candidates(locs, dirs)[m].loc);
    if m >= h && n >= h {
      LongerComesFirst(locs[1..], dirs, m - h, n - h);
    }
  }

  /** Candidate `i` belongs to the first name when it is among that name's candidates,
      and is candidate `i - h` of the rest otherwise. */
  lemma CandidatesSplit(locs: seq<string>, dirs: seq<(string, seq<string>)>, i: nat)
    requires locs != [] && i < |Candidates(locs, dirs)|
    ensures i < |DirectionCandidates(locs[0], dirs)| ==> Candidates(locs, dirs)[i].loc == locs[0]
    ensures i >= |DirectionCandidates(locs[0], dirs)| ==>
              i - |DirectionCandidates(locs[0], dirs)| < |Candidates(locs[1..], dirs)|
    ensures i >= |DirectionCandidates(locs[0], dirs)| ==>
              Candidates(locs, dirs)[i].loc == Candidates(locs[1..], dirs)[i - |DirectionCandidates(locs[0], dirs)|].loc
  {
    var head := DirectionCandidates(locs[0], dirs);
    var tail := Candidates(locs[1..], dirs);
    ConcatAt(Candidates(locs, dirs), head, tail, i);
    if i < |head| {
      HeadCandidateLoc(locs[0], dirs, i);
    }
  }

  lemma HeadCandidateLoc(loc: string, dirs: seq<(string, seq<string>)>, i: nat)
    requires i < |DirectionCandidates(loc, dirs)|
    ensures DirectionCandidates(loc, dirs)[i].loc == loc
  {
    assert DirectionCandidates(loc, dirs)[i] in DirectionCandidates(loc, dirs);
  }

  lemma ConcatAt<T>(cs: seq<T>, head: seq<T>, tail: seq<T>, i: nat)
    requires cs == head + tail && i < |cs|
    ensures i < |head| ==> cs[i] == head[i]
    ensures i >= |head| ==> i - |head| < |tail| && cs[i] == tail[i - |head|]
  {
  }

  /** The first of a list sorted longest first is at least as long as any member. */
  lemma HeadIsLongest(locs: seq<string>, x: string)
    requires SortedDesc(locs, StrLen) && x in locs
    ensures |x| <= |locs[0]|
  {
    var j :| 0 <= j < |locs| && locs[j] == x;
    assert j > 0 ==> StrLen(locs[0]) >= StrLen(locs[j]);
  }
}
