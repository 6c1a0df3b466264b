/** `_extract_verb`: the transaction type a line names, through an action verb, the
    type's own name, an alias of a type, or a close match of one word. */
module VerbExtraction {
  import opened Wrappers
  import opened Text
  import opened Configuration
  import opened Ordering
  import opened Fuzzy

  /** One character of a type-name pattern: `_` stands for `[\s_-]`, every other
      character matches itself ignoring case. */
  predicate NameCharMatches(c: char, p: char) {
    if p == '_' then IsSpace(c) || c == '_' || c == '-' else LowerChar(c) == LowerChar(p)
  }

  /** A type name or alias key, with `_` widened to `[\s_-]`, matching at `i`; for the
      short non-ASCII form it must stand between whitespace or the ends of the line,
      otherwise it may also start or end at a word boundary. */
  predicate NameAt(s: string, i: nat, name: string) {
    i + |name| <= |s|
    && (forall k :: 0 <= k < |name| ==> NameCharMatches(s[i + k], name[k]))
    && var e := i + |name|;
       if |name| <= 2 && !IsAscii(name) then
         (i == 0 || IsSpace(s[i - 1])) && (e == |s| || IsSpace(s[e]))
       else
         (i == 0 || IsSpace(s[i - 1]) || BoundaryAt(s, i)) && (e == |s| || IsSpace(s[e]) || BoundaryAt(s, e))
  }

  /** A verb to try, with the type it stands for. */
  datatype VerbCandidate = VerbCandidate(verb: string, transType: string)

  function TypeVerbs(t: string, verbs: seq<string>): (r: seq<VerbCandidate>)
    ensures forall c :: c in r ==> c.transType == t
  {
    if verbs == [] then [] else [VerbCandidate(verbs[0], t)] + TypeVerbs(t, verbs[1..])
  }

  /** Types in configuration order, each type's verbs longest first. */
  function VerbCandidates(actionVerbs: seq<(string, seq<string>)>): (r: seq<VerbCandidate>)
    ensures forall c :: c in r ==> exists j :: 0 <= j < |actionVerbs| && actionVerbs[j].0 == c.transType
  {
    if actionVerbs == [] then []
    else
      var r := TypeVerbs(actionVerbs[0].0, LongestFirst(actionVerbs[0].1)) + VerbCandidates(actionVerbs[1..]);
      assert forall c :: c in VerbCandidates(actionVerbs[1..]) ==> exists j :: 0 <= j < |actionVerbs| && actionVerbs[j].0 == c.transType by {
        forall c | c in VerbCandidates(actionVerbs[1..])
          ensures exists j :: 0 <= j < |actionVerbs| && actionVerbs[j].0 == c.transType {
          var j :| 0 <= j < |actionVerbs[1..]| && actionVerbs[1..][j].0 == c.transType;
          assert actionVerbs[j + 1].0 == c.transType;
        }
      }
      r
  }

  predicate IsTypeAlias(cfg: Config, p: (string, string)) {
    LowerIn(p.1, cfg.transactionTypes)
  }

  /** The names the fuzzy tier compares against, lower-cased, with the type each stands
      for, in insertion order; a later entry for the same name overrides an earlier one. */
  function VerbTable(cfg: Config): (r: seq<(string, string)>)
    ensures forall p :: p in r ==> ((exists j :: 0 <= j < |cfg.actionVerbs| && cfg.actionVerbs[j].0 == p.1)
                                    || p.1 in cfg.transactionTypes
                                    || exists a :: a in cfg.aliases && a.1 == p.1 && LowerIn(a.1, cfg.transactionTypes))
  {
    var verbs := VerbCandidates(cfg.actionVerbs);
    LowerVerbs(verbs) + TypePairs(cfg.transactionTypes) + AliasPairs(AliasesWhere(cfg.aliases, t => LowerIn(t, cfg.transactionTypes)))
  }

  function LowerVerbs(cs: seq<VerbCandidate>): (r: seq<(string, string)>)
    ensures forall p :: p in r ==> exists c :: c in cs && p.1 == c.transType
  {
    if cs == [] then [] else [(Lower(cs[0].verb), cs[0].transType)] + LowerVerbs(cs[1..])
  }

  function TypePairs(ts: seq<string>): (r: seq<(string, string)>)
    ensures forall p :: p in r ==> p.1 in ts
  {
    if ts == [] then [] else [(Lower(ts[0]), ts[0])] + TypePairs(ts[1..])
  }

  function AliasPairs(aliases: seq<(string, string)>): (r: seq<(string, string)>)
    ensures forall p :: p in r ==> exists a :: a in aliases && a.1 == p.1
  {
    if aliases == [] then [] else [(Lower(aliases[0].0), aliases[0].1)] + AliasPairs(aliases[1..])
  }

  /** `d[k]` on a dict built by assigning the pairs in order: the value of the last pair
      with key `k`. */
  function LastLookup(m: seq<(string, string)>, k: string): (r: Option<string>)
    ensures r.Some? <==> exists i :: 0 <= i < |m| && m[i].0 == k
    ensures r.Some? ==> (k, r.value) in m
  {
    if m == [] then None
    else if m[|m| - 1].0 == k then Some(m[|m| - 1].1)
    else
      var r := LastLookup(m[..|m| - 1], k);
      assert forall i :: 0 <= i < |m| - 1 ==> m[..|m| - 1][i] == m[i];
      r
  }

  /** The fuzzy tier's word loop: the first word longer than two characters with a close
      match among `names`, the name it matched and the word's index. */
  function CloseWordFrom(sim: Ratio, words: seq<string>, i: nat, names: seq<string>): (r: Option<(string, nat)>)
    ensures r.Some? ==> r.value.0 in names && i <= r.value.1 < |words| && |words[r.value.1]| > 2
    decreases |words| - i
  {
    if i >= |words| then None
    else if |words[i]| <= 2 then CloseWordFrom(sim, words, i + 1, names)
    else
      var cutoff := if |words[i]| <= 4 then 0.85 else 0.75;
      match CloseMatch(sim, Lower(words[i]), names, cutoff)
      case Some(m) => Some((m, i))
      case None => CloseWordFrom(sim, words, i + 1, names)
  }

  /** `\b<verb>\b` at `k`, with the end of the match. */
  function VerbEnd(text: string, c: VerbCandidate, k: nat): (r: Option<nat>)
    ensures r.Some? <==> WordAt(text, k, c.verb)
    ensures r.Some? ==> r.value == k + |c.verb| <= |text|
  {
    if WordAt(text, k, c.verb) then Some(k + |c.verb|) else None
  }

  /** Candidate `n` is the first in `cands` with a whole-word match in `text`, and `s` is
      the leftmost position of its match. */
  predicate FirstVerbAt(cands: seq<VerbCandidate>, text: string, n: nat, s: nat) {
    n < |cands| && WordAt(text, s, cands[n].verb)
    && (forall k: nat :: k < s ==> !WordAt(text, k, cands[n].verb))
    && (forall m: nat, k: nat :: m < n && k <= |text| ==> !WordAt(text, k, cands[m].verb))
  }

  /** Tier 1 picks candidate `n` at `s`: it is the first candidate that occurs and `s` its
      leftmost match; `v` is its type and the line with that match cut out. */
  predicate VerbWins(cands: seq<VerbCandidate>, text: string, n: nat, s: nat, v: (string, string)) {
    FirstVerbAt(cands, text, n, s) && v == (cands[n].transType, Cut(text, s, s + |cands[n].verb|))
  }

  /** Tier 1: configured action verbs as whole words. The hit is the first candidate,
      types in configuration order and each type's verbs longest first, at its leftmost
      match; the rest is the line with that match cut out and stripped. */
  function VerbTier(cfg: Config, text: string): (r: Option<(string, string)>)
    ensures r.Some? ==> exists j :: 0 <= j < |cfg.actionVerbs| && cfg.actionVerbs[j].0 == r.value.0
    ensures r.Some? ==> exists n: nat, s: nat :: VerbWins(VerbCandidates(cfg.actionVerbs), text, n, s, r.value)
    ensures r.None? ==> forall m: nat, k: nat :: m < |VerbCandidates(cfg.actionVerbs)| && k <= |text| ==>
                          VerbEnd(text, VerbCandidates(cfg.actionVerbs)[m], k).None?
  {
    var cands := VerbCandidates(cfg.actionVerbs);
    var r := VerbHit(cands, text);
    assert r.Some? ==> exists c :: c in cands && c.transType == r.value.0;
    r
  }

  /** The search of tier 1 over the candidates in order. */
  function VerbHit(cands: seq<VerbCandidate>, text: string): (r: Option<(string, string)>)
    ensures r.Some? ==> exists c :: c in cands && c.transType == r.value.0
    ensures r.Some? ==> exists n: nat, s: nat :: VerbWins(cands, text, n, s, r.value)
    ensures r.None? ==> forall m: nat, k: nat :: m < |cands| && k <= |text| ==> VerbEnd(text, cands[m], k).None?
  {
    var at := (c: VerbCandidate, k: nat) => VerbEnd(text, c, k);
    assert forall c: VerbCandidate, k: nat :: at(c, k) == VerbEnd(text, c, k);
    match FirstHitFrom(cands, 0, |text|, at)
    case None => None
    case Some((n, start, end)) =>
      assert cands[n] in cands;
      assert VerbEnd(text, cands[n], start) == Some(end);
      assert FirstVerbAt(cands, text, n, start) by {
        forall k: nat | k < start
          ensures !WordAt(text, k, cands[n].verb)
        {
          assert at(cands[n], k).None?;
        }
        forall m: nat, k: nat | m < n && k <= |text|
          ensures !WordAt(text, k, cands[m].verb)
        {
          assert at(cands[m], k).None?;
        }
      }
      var v := (cands[n].transType, Cut(text, start, end));
      assert VerbWins(cands, text, n, start, v);
      Some(v)
  }

  function NameEnd(text: string, name: string, k: nat): (r: Option<nat>)
    ensures r.Some? <==> NameAt(text, k, name)
    ensures r.Some? ==> r.value == k + |name| <= |text|
  {
    if NameAt(text, k, name) then Some(k + |name|) else None
  }

  /** Name `n` is the first in `names` that matches in `text`, and `s` is the leftmost
      position of its match. */
  predicate FirstNameAt(names: seq<(string, string)>, text: string, n: nat, s: nat) {
    n < |names| && NameAt(text, s, names[n].0)
    && (forall k: nat :: k < s ==> !NameAt(text, k, names[n].0))
    && (forall m: nat, k: nat :: m < n && k <= |text| ==> !NameAt(text, k, names[m].0))
  }

  /** `s` is the leftmost position where `name` matches. */
  predicate FirstMatch(text: string, s: nat, name: string) {
    NameAt(text, s, name) && forall j: nat :: j < s ==> !NameAt(text, j, name)
  }

  /** `rest` is `text` with the leftmost match of `name` cut out and stripped. */
  predicate LeftmostCut(text: string, name: string, rest: string) {
    exists s: nat :: s <= |text| && FirstMatch(text, s, name) && rest == Cut(text, s, s + |name|)
  }

  /** Tiers 2 and 3 pick name `n` at `s`: it is the first name that matches and `s` its
      leftmost match; `v` is its result and the line with that match cut out. */
  predicate NameWins(names: seq<(string, string)>, text: string, n: nat, s: nat, v: (string, string)) {
    FirstNameAt(names, text, n, s) && v == (names[n].1, Cut(text, s, s + |names[n].0|))
  }

  /** Tiers 2 and 3: a name (a type, or an alias key of a type) with its result. The hit
      is the first name in the given order, at its leftmost match; the rest is the line
      with that match cut out and stripped. None means no name matches anywhere. */
  function NameTier(names: seq<(string, string)>, text: string): (r: Option<(string, string)>)
    ensures r.Some? ==> exists p :: p in names && p.1 == r.value.0
    ensures r.Some? ==> exists n: nat, s: nat :: NameWins(names, text, n, s, r.value)
    ensures r.None? ==> forall m: nat, k: nat :: m < |names| && k <= |text| ==> !NameAt(text, k, names[m].0)
  {
    var at := (p: (string, string), k: nat) => NameEnd(text, p.0, k);
    assert forall p: (string, string), k: nat :: at(p, k) == NameEnd(text, p.0, k);
    match FirstHitFrom(names, 0, |text|, at)
    case None =>
      assert forall m: nat, k: nat :: m < |names| && k <= |text| ==> !NameAt(text, k, names[m].0) by {
        forall m: nat, k: nat | m < |names| && k <= |text|
          ensures !NameAt(text, k, names[m].0)
        {
          assert at(names[m], k).None?;
        }
      }
      None
    case Some((n, start, end)) =>
      assert names[n] in names;
      assert NameEnd(text, names[n].0, start) == Some(end);
      assert FirstNameAt(names, text, n, start) by {
        forall k: nat | k < start
          ensures !NameAt(text, k, names[n].0)
        {
          assert at(names[n], k).None?;
        }
        forall m: nat, k: nat | m < n && k <= |text|
          ensures !NameAt(text, k, names[m].0)
        {
          assert at(names[m], k).None?;
        }
      }
      var v := (names[n].1, Cut(text, start, end));
      assert NameWins(names, text, n, start, v);
      Some(v)
  }

  function SelfPairs(ts: seq<string>): (r: seq<(string, string)>)
    ensures forall p :: p in r ==> p.1 in ts && p.0 == p.1
    ensures |r| == |ts| && forall i :: 0 <= i < |ts| ==> r[i] == (ts[i], ts[i])
  {
    if ts == [] then [] else [(ts[0], ts[0])] + SelfPairs(ts[1..])
  }

  /** `_extract_verb(text, config)`: the transaction type and the rest of the line. The
      type is an `action_verbs` key, a configured transaction type, or the target of an
      alias that names a transaction type (compared lower-cased). */
  function ExtractVerb(sim: Ratio, cfg: Config, text: string): (r: (Option<string>, string))
    ensures r.0.None? ==> r.1 == text
    ensures r.0.Some? ==> (exists j :: 0 <= j < |cfg.actionVerbs| && cfg.actionVerbs[j].0 == r.0.value)
                          || r.0.value in cfg.transactionTypes
                          || exists a :: a in cfg.aliases && a.1 == r.0.value && LowerIn(a.1, cfg.transactionTypes)
  {
    match VerbTier(cfg, text)
    case Some((t, rest)) => (Some(t), rest)
    case None =>
      var types := SelfPairs(LongestFirst(cfg.transactionTypes));
      SortedMembers(LongestFirst(cfg.transactionTypes), cfg.transactionTypes);
      match NameTier(types, text)
      case Some((t, rest)) => (Some(t), rest)
      case None =>
        var typeAliases := LongestKeyFirst(AliasesWhere(cfg.aliases, t => LowerIn(t, cfg.transactionTypes)));
        SortedMembers(typeAliases, AliasesWhere(cfg.aliases, t => LowerIn(t, cfg.transactionTypes)));
        match NameTier(typeAliases, text)
        case Some((t, rest)) => (Some(t), rest)
        case None =>
          var table := VerbTable(cfg);
          if table == [] then (None, text)
          else
            var words := Split(text);
            match CloseWordFrom(sim, words, 0, Keys(table))
            case None => (None, text)
            case Some((m, i)) =>
              match LastLookup(table, m)
              case None => (None, text)
              case Some(t) => (Some(t), Join(words[..i] + words[i + 1..], " "))
  }

  // ---------------------------------------------------------------------------
  // Properties
  // ---------------------------------------------------------------------------

  /** Action verbs come first: when any configured verb occurs as a whole word, the
      line's type is the type of such a verb, whatever type names or aliases it also
      contains. */
  lemma {:induction false} VerbBeatsTypeName(sim: Ratio, cfg: Config, text: string, c: VerbCandidate, k: nat)
    requires c in VerbCandidates(cfg.actionVerbs) && k <= |text| && WordAt(text, k, c.verb)
    ensures ExtractVerb(sim, cfg, text).0.Some?
    ensures exists j :: 0 <= j < |cfg.actionVerbs| && cfg.actionVerbs[j].0 == ExtractVerb(sim, cfg, text).0.value
    ensures exists n: nat, s: nat :: VerbWins(VerbCandidates(cfg.actionVerbs), text, n, s,
                                              (ExtractVerb(sim, cfg, text).0.value, ExtractVerb(sim, cfg, text).1))
  {
    var cands := VerbCandidates(cfg.actionVerbs);
    var m :| 0 <= m < |cands| && cands[m] == c;
    assert VerbEnd(text, cands[m], k).Some?;
    assert VerbTier(cfg, text).Some?;
  }

  /** Type names come before aliases: when no configured verb occurs and a configured
      transaction type matches, the line's type is a configured transaction type at least
      as long as that one, found by the type-name tier, and the rest is the line with its
      leftmost match cut out; the alias tier is never consulted. */
  lemma {:induction false} TypeNameBeatsAlias(sim: Ratio, cfg: Config, text: string, t: string, k: nat)
    requires forall c, j: nat :: c in VerbCandidates(cfg.actionVerbs) && j <= |text| ==> !WordAt(text, j, c.verb)
    requires t in cfg.transactionTypes && k <= |text| && NameAt(text, k, t)
    ensures ExtractVerb(sim, cfg, text).0.Some?
    ensures ExtractVerb(sim, cfg, text).0.value in cfg.transactionTypes
    ensures |ExtractVerb(sim, cfg, text).0.value| >= |t|
    ensures LeftmostCut(text, ExtractVerb(sim, cfg, text).0.value, ExtractVerb(sim, cfg, text).1)
  {
    NoVerbNoTier(cfg, text);
    var sorted := LongestFirst(cfg.transactionTypes);
    SortedMembers(sorted, cfg.transactionTypes);
    var i :| 0 <= i < |sorted| && sorted[i] == t;
    var v := TypeTierHit(sorted, text, i, k);
    assert ExtractVerb(sim, cfg, text) == (Some(v.0), v.1);
  }

  /** Tier 1 finds nothing when no configured verb occurs as a whole word. */
  lemma NoVerbNoTier(cfg: Config, text: string)
    requires forall c, j: nat :: c in VerbCandidates(cfg.actionVerbs) && j <= |text| ==> !WordAt(text, j, c.verb)
    ensures VerbTier(cfg, text).None?
  {
    var cands := VerbCandidates(cfg.actionVerbs);
    forall n: nat, s: nat | n < |cands| && s <= |text|
      ensures !WordAt(text, s, cands[n].verb)
    {
      assert cands[n] in cands;
    }
  }

  /** The type-name tier over types sorted longest first, when type `i` matches at `k`. */
  lemma TypeTierHit(sorted: seq<string>, text: string, i: nat, k: nat) returns (v: (string, string))
    requires SortedDesc(sorted, StrLen) && i < |sorted| && k <= |text| && NameAt(text, k, sorted[i])
    ensures NameTier(SelfPairs(sorted), text) == Some(v)
    ensures v.0 in sorted && |v.0| >= |sorted[i]|
    ensures LeftmostCut(text, v.0, v.1)
  {
    var types := SelfPairs(sorted);
    assert NameAt(text, k, types[i].0);
    var r := NameTier(types, text);
    assert r.Some?;
    var n: nat, s: nat :| NameWins(types, text, n, s, r.value);
    v := r.value;
    assert types[n] == (sorted[n], sorted[n]);
    WinnerCut(types, text, n, s, v);
    assert n <= i;
    if n < i {
      assert StrLen(sorted[n]) >= StrLen(sorted[i]);
    }
  }

  /** A winning name gives its result and the line with its leftmost match cut out. */
  lemma WinnerCut(names: seq<(string, string)>, text: string, n: nat, s: nat, v: (string, string))
    requires NameWins(names, text, n, s, v)
    ensures v.0 == names[n].1 && LeftmostCut(text, names[n].0, v.1)
  {
    assert FirstMatch(text, s, names[n].0) && v.1 == Cut(text, s, s + |names[n].0|);
  }

  /** Aliases come last among the named tiers: when no configured verb occurs, no
      transaction type matches, and an alias key whose target is a transaction type
      matches, the line's type is the target of such an alias whose key is at least as
      long, and the rest is the line with that key's leftmost match cut out. */
  lemma {:induction false} AliasTierWins(sim: Ratio, cfg: Config, text: string, a: (string, string), k: nat)
    requires forall c, j: nat :: c in VerbCandidates(cfg.actionVerbs) && j <= |text| ==> !WordAt(text, j, c.verb)
    requires forall t, j: nat :: t in cfg.transactionTypes && j <= |text| ==> !NameAt(text, j, t)
    requires a in cfg.aliases && LowerIn(a.1, cfg.transactionTypes) && k <= |text| && NameAt(text, k, a.0)
    ensures ExtractVerb(sim, cfg, text).0.Some?
    ensures exists b :: b in cfg.aliases && LowerIn(b.1, cfg.transactionTypes) && |b.0| >= |a.0|
                        && b.1 == ExtractVerb(sim, cfg, text).0.value
                        && LeftmostCut(text, b.0, ExtractVerb(sim, cfg, text).1)
  {
    NoVerbNoTier(cfg, text);
    NoTypeNoTier(cfg, text);
    var eligible := AliasesWhere(cfg.aliases, t => LowerIn(t, cfg.transactionTypes));
    var sorted := LongestKeyFirst(eligible);
    SortedMembers(sorted, eligible);
    assert a in eligible;
    var i :| 0 <= i < |sorted| && sorted[i] == a;
    var b, v := AliasTierHit(sorted, text, i, k);
    assert ExtractVerb(sim, cfg, text) == (Some(v.0), v.1);
    assert b in eligible;
  }

  /** The type-name tier finds nothing when no transaction type matches. */
  lemma NoTypeNoTier(cfg: Config, text: string)
    requires forall t, j: nat :: t in cfg.transactionTypes && j <= |text| ==> !NameAt(text, j, t)
    ensures NameTier(SelfPairs(LongestFirst(cfg.transactionTypes)), text).None?
  {
    var sorted := LongestFirst(cfg.transactionTypes);
    var types := SelfPairs(sorted);
    SortedMembers(sorted, cfg.transactionTypes);
    forall n: nat, s: nat | n < |types| && s <= |text|
      ensures !NameAt(text, s, types[n].0)
    {
      assert types[n].0 == sorted[n];
      assert sorted[n] in sorted;
    }
  }

  /** The alias tier over aliases sorted longest key first, when alias `i` matches at `k`. */
  lemma AliasTierHit(sorted: seq<(string, string)>, text: string, i: nat, k: nat) returns (b: (string, string), v: (string, string))
    requires SortedDesc(sorted, KeyLen) && i < |sorted| && k <= |text| && NameAt(text, k, sorted[i].0)
    ensures NameTier(sorted, text) == Some(v)
    ensures b in sorted && |b.0| >= |sorted[i].0| && v.0 == b.1 && LeftmostCut(text, b.0, v.1)
  {
    var r := NameTier(sorted, text);
    assert r.Some?;
    var n: nat, s: nat :| NameWins(sorted, text, n, s, r.value);
    v := r.value;
    b := sorted[n];
    WinnerCut(sorted, text, n, s, v);
    assert n <= i;
    if n < i {
      assert KeyLen(sorted[n]) >= KeyLen(sorted[i]);
    }
  }
}
