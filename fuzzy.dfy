/** Name resolution: `difflib.get_close_matches` with an abstract similarity ratio, and
    the public `fuzzy_resolve` cascade built on it. */
module Fuzzy {
  import opened Wrappers
  import opened Text

  /** `SequenceMatcher(None, candidate, word).ratio()` seen as `sim(word, candidate)`.
      The similarity arithmetic itself is not modelled: every function that needs it
      takes the ratio as a parameter. */
  type Ratio = (string, string) -> real

  /** `(score, x) > (best score, best)` as Python compares the tuples `get_close_matches`
      ranks with `heapq.nlargest`. */
  predicate Outranks(sim: Ratio, word: string, x: string, best: string) {
    sim(word, x) > sim(word, best) || (sim(word, x) == sim(word, best) && StrLess(best, x))
  }

  /** `get_close_matches(word, poss, n=1, cutoff=cutoff)`: the best-scoring possibility
      whose score reaches the cutoff, or none. */
  function CloseMatch(sim: Ratio, word: string, poss: seq<string>, cutoff: real): (r: Option<string>)
    ensures r.Some? ==> r.value in poss && sim(word, r.value) >= cutoff
    ensures r.Some? ==> forall p :: p in poss && sim(word, p) >= cutoff ==> sim(word, p) <= sim(word, r.value)
    ensures r.None? <==> forall p :: p in poss ==> sim(word, p) < cutoff
  {
    if poss == [] then None
    else
      var init := poss[..|poss| - 1];
      var x := poss[|poss| - 1];
      assert poss == init + [x];
      var rest := CloseMatch(sim, word, init, cutoff);
      if sim(word, x) < cutoff then rest
      else if rest.None? || Outranks(sim, word, x, rest.value) then Some(x)
      else rest
  }

  datatype MatchKind = Exact | Alias | FuzzyMatch

  /** The first candidate equal to `t` (already lower-cased) ignoring case. */
  function FirstEqualIgnoreCase(t: string, candidates: seq<string>): (r: Option<string>)
    ensures r.Some? ==> r.value in candidates && Lower(r.value) == t
    ensures r.None? ==> forall c :: c in candidates ==> Lower(c) != t
    ensures r.Some? ==> exists i :: 0 <= i < |candidates| && candidates[i] == r.value
                          && forall j :: 0 <= j < i ==> Lower(candidates[j]) != t
  {
    if candidates == [] then None
    else if Lower(candidates[0]) == t then Some(candidates[0])
    else
      var r := FirstEqualIgnoreCase(t, candidates[1..]);
      assert forall j :: 0 <= j < |candidates| - 1 ==> candidates[1..][j] == candidates[j + 1];
      r
  }

  /** The target of the first alias whose key equals `t` (already lower-cased) ignoring case. */
  function FirstAliasTarget(t: string, aliases: seq<(string, string)>): (r: Option<string>)
    ensures r.Some? ==> exists i :: 0 <= i < |aliases| && Lower(aliases[i].0) == t && aliases[i].1 == r.value
                          && forall j :: 0 <= j < i ==> Lower(aliases[j].0) != t
    ensures r.None? ==> forall i :: 0 <= i < |aliases| ==> Lower(aliases[i].0) != t
  {
    if aliases == [] then None
    else if Lower(aliases[0].0) == t then Some(aliases[0].1)
    else
      var r := FirstAliasTarget(t, aliases[1..]);
      assert forall j :: 0 <= j < |aliases| - 1 ==> aliases[1..][j] == aliases[j + 1];
      r
  }

  function LowerAll(xs: seq<string>): (r: seq<string>)
    ensures |r| == |xs| && forall i :: 0 <= i < |xs| ==> r[i] == Lower(xs[i])
  {
    if xs == [] then [] else [Lower(xs[0])] + LowerAll(xs[1..])
  }

  function LowerKeys(aliases: seq<(string, string)>): (r: seq<string>)
    ensures |r| == |aliases| && forall i :: 0 <= i < |aliases| ==> r[i] == Lower(aliases[i].0)
  {
    if aliases == [] then [] else [Lower(aliases[0].0)] + LowerKeys(aliases[1..])
  }

  /** `_resolve_match`: a lower-cased fuzzy hit back to its canonical name, through the
      aliases first and then the candidates. */
  function ResolveMatch(m: string, candidates: seq<string>, aliases: seq<(string, string)>): (r: Option<string>)
    ensures r.Some? ==> r.value in candidates || exists i :: 0 <= i < |aliases| && aliases[i].1 == r.value
    ensures (m in LowerAll(candidates) || m in LowerKeys(aliases)) ==> r.Some?
  {
    match FirstAliasTarget(m, aliases)
    case Some(t) => Some(t)
    case None => FirstEqualIgnoreCase(m, candidates)
  }

  /** `fuzzy_resolve(text, candidates, aliases, cutoff)`: exact match, then alias, then
      a close match against the lower-cased candidates and alias keys, with the cutoff
      raised to at least 0.8 for inputs of four characters or fewer. */
  function FuzzyResolve(sim: Ratio, text: string, candidates: seq<string>,
                        aliases: seq<(string, string)>, cutoff: real): (r: Option<(string, MatchKind)>)
    ensures Strip(text) == [] ==> r.None?
    ensures r.Some? ==> r.value.0 in candidates || exists i :: 0 <= i < |aliases| && aliases[i].1 == r.value.0
    ensures r.Some? && r.value.1 == Exact ==> Lower(r.value.0) == Lower(Strip(text))
  {
    var t := Lower(Strip(text));
    if t == [] then None
    else match FirstEqualIgnoreCase(t, candidates)
      case Some(c) => Some((c, Exact))
      case None =>
        match FirstAliasTarget(t, aliases)
        case Some(target) => Some((target, Alias))
        case None =>
          var c := if |t| <= 4 then (if cutoff > 0.8 then cutoff else 0.8) else cutoff;
          match CloseMatch(sim, t, LowerAll(candidates) + LowerKeys(aliases), c)
          case None => None
          case Some(m) =>
            match ResolveMatch(m, candidates, aliases)
            case None => None
            case Some(name) => Some((name, FuzzyMatch))
  }

  /** A candidate equal to the stripped text ignoring case wins with `exact`, before the
      aliases are consulted; the first such candidate in order is the one returned. */
  lemma FuzzyResolveExactFirst(sim: Ratio, text: string, candidates: seq<string>,
                               aliases: seq<(string, string)>, cutoff: real, i: nat)
    requires i < |candidates| && Lower(candidates[i]) == Lower(Strip(text)) && Strip(text) != []
    requires forall j :: 0 <= j < i ==> Lower(candidates[j]) != Lower(Strip(text))
    ensures FuzzyResolve(sim, text, candidates, aliases, cutoff) == Some((candidates[i], Exact))
  {
    var t := Lower(Strip(text));
    var r := FirstEqualIgnoreCase(t, candidates);
    assert r.Some?;
    var k :| 0 <= k < |candidates| && candidates[k] == r.value
             && forall j :: 0 <= j < k ==> Lower(candidates[j]) != t;
    assert k == i;
  }

  /** With no candidate equal to the text, an alias key equal to it ignoring case
      resolves to that alias's target with `alias`. */
  lemma FuzzyResolveAliasSecond(sim: Ratio, text: string, candidates: seq<string>,
                                aliases: seq<(string, string)>, cutoff: real, i: nat)
    requires Strip(text) != []
    requires forall c :: c in candidates ==> Lower(c) != Lower(Strip(text))
    requires i < |aliases| && Lower(aliases[i].0) == Lower(Strip(text))
    requires forall j :: 0 <= j < i ==> Lower(aliases[j].0) != Lower(Strip(text))
    ensures FuzzyResolve(sim, text, candidates, aliases, cutoff) == Some((aliases[i].1, Alias))
  {
    var t := Lower(Strip(text));
    FirstAliasAt(t, aliases, i);
    assert FirstEqualIgnoreCase(t, candidates).None?;
  }

  /** The first alias whose key equals `t` is the one `FirstAliasTarget` returns. */
  lemma FirstAliasAt(t: string, aliases: seq<(string, string)>, i: nat)
    requires i < |aliases| && Lower(aliases[i].0) == t
    requires forall j :: 0 <= j < i ==> Lower(aliases[j].0) != t
    ensures FirstAliasTarget(t, aliases) == Some(aliases[i].1)
  {
    var r := FirstAliasTarget(t, aliases);
    assert r.Some?;
    var k :| 0 <= k < |aliases| && Lower(aliases[k].0) == t && aliases[k].1 == r.value
             && forall j :: 0 <= j < k ==> Lower(aliases[j].0) != t;
    assert k == i;
  }
}
