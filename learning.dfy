/** What the editor offers to learn after the user corrects rows: a new alias when an
    item was renamed (`check_alias_opportunity`), and a new unit conversion when a
    container was left unconverted (`check_conversion_opportunity`). */
module Learning {
  import opened Wrappers
  import opened Text
  import opened Configuration
  import opened Records

  // ---------------------------------------------------------------------------
  // Aliases
  // ---------------------------------------------------------------------------

  /** The prompt one edited row gives: the word the user first typed, paired with the
      item the row now names, when that word is new to the configuration. `entry` is
      one item of `original_tokens`: a row index and the original word. */
  function AliasPrompt(rows: seq<Row>, entry: (nat, string), cfg: Config): Option<(string, string)> {
    var (idx, original) := entry;
    if idx >= |rows| then None
    else
      var canonical := rows[idx].invType;
      if original == "" || !Present(canonical) then None
      else if original == "???" || canonical.value == "???" then None
      else if Lower(original) == Lower(canonical.value) then None
      else if LowerIn(original, Keys(cfg.aliases)) then None
      else if LowerIn(original, cfg.items) then None
      else Some((original, canonical.value))
  }

  /** The prompts of the edited rows, in the order of `original_tokens`. */
  function AliasPrompts(rows: seq<Row>, originals: seq<(nat, string)>, cfg: Config): (ps: seq<(string, string)>)
    ensures |ps| <= |originals|
    decreases |originals|
  {
    if originals == [] then []
    else
      var p := AliasPrompt(rows, originals[|originals| - 1], cfg);
      AliasPrompts(rows, originals[..|originals| - 1], cfg) + (if p.Some? then [p.value] else [])
  }

  /** `check_alias_opportunity(rows, original_tokens, config)`. */
  method CheckAliasOpportunity(rows: seq<Row>, originals: seq<(nat, string)>, cfg: Config)
    returns (prompts: seq<(string, string)>)
    ensures prompts == AliasPrompts(rows, originals, cfg)
  {
    prompts := [];
    for i := 0 to |originals|
      invariant prompts == AliasPrompts(rows, originals[..i], cfg)
    {
      assert originals[..i + 1][..i] == originals[..i];
      var (idx, original) := originals[i];
      if idx >= |rows| {
        continue;
      }
      var canonical := rows[idx].invType;
      if original == "" || !Present(canonical) {
        continue;
      }
      if original == "???" || canonical.value == "???" {
        continue;
      }
      var origLower := Lower(original);
      if origLower == Lower(canonical.value) || LowerIn(original, Keys(cfg.aliases)) || LowerIn(original, cfg.items) {
        continue;
      }
      prompts := prompts + [(original, canonical.value)];
    }
    assert originals[..|originals|] == originals;
  }

  /** An alias is proposed exactly when some edited row's original word is non-empty,
      neither an item nor an alias (ignoring case), and differs from the row's current
      item, which is a real item name. */
  lemma {:induction false} AliasPromptsExactly(rows: seq<Row>, originals: seq<(nat, string)>, cfg: Config, p: (string, string))
    ensures p in AliasPrompts(rows, originals, cfg) <==>
            exists k :: 0 <= k < |originals| && originals[k].0 < |rows| && originals[k].1 == p.0 &&
              rows[originals[k].0].invType == Some(p.1) &&
              p.0 != "" && p.1 != "" && p.0 != "???" && p.1 != "???" && Lower(p.0) != Lower(p.1) &&
              !LowerIn(p.0, Keys(cfg.aliases)) && !LowerIn(p.0, cfg.items)
    decreases |originals|
  {
    if originals != [] {
      var init := originals[..|originals| - 1];
      AliasPromptsExactly(rows, init, cfg, p);
      forall k | 0 <= k < |init|
        ensures init[k] == originals[k]
      {
      }
    }
  }

  /** Saving a proposed alias stops the prompt: with `(original, canonical)` added to
      the aliases, the same edits no longer propose anything for `original`. */
  lemma AliasLearned(rows: seq<Row>, originals: seq<(nat, string)>, cfg: Config, p: (string, string), q: (string, string))
    requires q.0 == p.0
    ensures q !in AliasPrompts(rows, originals, cfg.(aliases := cfg.aliases + [p]))
  {
    var learned := cfg.(aliases := cfg.aliases + [p]);
    var ks := Keys(learned.aliases);
    assert ks[|ks| - 1] == p.0;
    assert LowerIn(p.0, ks);
    AliasPromptsExactly(rows, originals, learned, q);
  }

  // ---------------------------------------------------------------------------
  // Unit conversions
  // ---------------------------------------------------------------------------

  /** The `(item, container)` a row could teach: it has a container, and an item that
      is not `???`. A row without an item counts as `???`. */
  function ConversionKey(row: Row): Option<(string, string)> {
    if !Present(row.container) || row.invType.None? || row.invType.value == "???" then None
    else Some((row.invType.value, row.container.value))
  }

  /** The keys already considered: `seen` after the rows. */
  function SeenKeys(rows: seq<Row>): set<(string, string)> {
    set k | 0 <= k < |rows| && ConversionKey(rows[k]).Some? :: ConversionKey(rows[k]).value
  }

  /** The conversions to propose, in row order. */
  function ConversionPrompts(rows: seq<Row>, cfg: Config): seq<(string, string)>
    decreases |rows|
  {
    if rows == [] then []
    else
      var init := rows[..|rows| - 1];
      var key := ConversionKey(rows[|rows| - 1]);
      ConversionPrompts(init, cfg) +
        (if key.Some? && key.value !in SeenKeys(init) && Factor(cfg, key.value.0, key.value.1).None?
         then [key.value] else [])
  }

  lemma SeenKeysStep(rows: seq<Row>, i: nat)
    requires i < |rows|
    ensures SeenKeys(rows[..i + 1]) ==
            SeenKeys(rows[..i]) + (if ConversionKey(rows[i]).Some? then {ConversionKey(rows[i]).value} else {})
  {
    var a, b := rows[..i + 1], rows[..i];
    forall k | 0 <= k < i
      ensures a[k] == b[k]
    {
    }
  }

  /** `check_conversion_opportunity(rows, config)`. */
  method CheckConversionOpportunity(rows: seq<Row>, cfg: Config) returns (prompts: seq<(string, string)>)
    ensures prompts == ConversionPrompts(rows, cfg)
  {
    var seen: set<(string, string)> := {};
    prompts := [];
    for i := 0 to |rows|
      invariant seen == SeenKeys(rows[..i])
      invariant prompts == ConversionPrompts(rows[..i], cfg)
    {
      assert rows[..i + 1][..i] == rows[..i];
      SeenKeysStep(rows, i);
      var row := rows[i];
      if !Present(row.container) || row.invType.None? || row.invType.value == "???" {
        continue;
      }
      var key := (row.invType.value, row.container.value);
      if key in seen {
        continue;
      }
      seen := seen + {key};
      if Factor(cfg, key.0, key.1).Some? {
        continue;
      }
      prompts := prompts + [key];
    }
    assert rows[..|rows|] == rows;
  }

  /** Every proposed conversion comes from a row and is not configured yet; none is
      proposed twice. */
  lemma {:induction false} ConversionPromptsSound(rows: seq<Row>, cfg: Config)
    ensures var ps := ConversionPrompts(rows, cfg);
            (forall p :: p in ps ==> p in SeenKeys(rows) && Factor(cfg, p.0, p.1).None?) &&
            (forall i, j :: 0 <= i < j < |ps| ==> ps[i] != ps[j])
    decreases |rows|
  {
    if rows != [] {
      var init := rows[..|rows| - 1];
      ConversionPromptsSound(init, cfg);
      SeenKeysStep(rows, |rows| - 1);
      assert rows[..|rows| - 1 + 1] == rows;
    }
  }

  /** Every container-bearing row whose conversion is not configured is asked about. */
  lemma {:induction false} ConversionPromptsComplete(rows: seq<Row>, cfg: Config, p: (string, string))
    requires p in SeenKeys(rows) && Factor(cfg, p.0, p.1).None?
    ensures p in ConversionPrompts(rows, cfg)
    decreases |rows|
  {
    var init := rows[..|rows| - 1];
    SeenKeysStep(rows, |rows| - 1);
    assert rows[..|rows| - 1 + 1] == rows;
    if p in SeenKeys(init) {
      ConversionPromptsComplete(init, cfg, p);
    }
  }
}
