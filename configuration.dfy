/** The parser's configuration, with every optional key already resolved to the value
    the code falls back to when the key is absent. Python dicts become sequences of
    pairs in insertion order, because several lookups depend on that order. */
module Configuration {
  import opened Wrappers
  import opened Text

  datatype Config = Config(
    items: seq<string>,
    aliases: seq<(string, string)>,                          // alias -> canonical target
    locations: seq<string>,
    defaultSource: string,
    transactionTypes: seq<string>,
    actionVerbs: seq<(string, seq<string>)>,                 // transaction type -> verbs
    prepositions: seq<(string, seq<string>)>,                // direction -> words
    fromWords: seq<string>,
    unitConversions: seq<(string, seq<(string, int)>)>,      // item -> container -> factor
    fillerWords: seq<string>,
    nonZeroSumTypes: seq<string>,
    defaultTransferType: string,
    fieldOrder: seq<string>,                                 // ui.field_order
    requiredFields: seq<string>,
    fieldOptions: seq<(string, string)>                      // field -> config key
  )
  {
    /** Every container name the container extractor may take apart with `str.split()`
        has a word in it; `_container_variants` indexes `words[-1]` and raises on a
        blank name. */
    predicate Valid() {
      forall c :: c in ContainerNames(this) ==> Split(c) != []
    }
  }

  const DefaultSource := "warehouse"
  const DefaultTransferType := "warehouse_to_branch"
  const DefaultPrepositions: seq<(string, seq<string>)> := [("to", ["to", "into"]), ("by", ["by"]), ("from", ["from"])]
  const DefaultFromWords: seq<string> := ["from"]
  const DefaultFiller: seq<string> := ["that's", "what", "the", "of", "a", "an", "some", "via"]
  const DefaultNonZeroSum: seq<string> := ["eaten", "starting_point", "recount", "supplier_to_warehouse"]
  const DefaultFieldOrder: seq<string> := ["date", "inv_type", "qty", "trans_type", "vehicle_sub_unit", "batch", "notes"]
  const DefaultRequiredFields: seq<string> := ["trans_type", "vehicle_sub_unit"]
  const DefaultFieldOptions: seq<(string, string)> :=
    [("inv_type", "items"), ("trans_type", "transaction_types"), ("vehicle_sub_unit", "locations")]

  /** The configuration `{}`: every key absent. */
  function EmptyConfig(): Config {
    Config([], [], [], DefaultSource, [], [], DefaultPrepositions, DefaultFromWords, [],
           DefaultFiller, DefaultNonZeroSum, DefaultTransferType, DefaultFieldOrder,
           DefaultRequiredFields, DefaultFieldOptions)
  }

  /** `d.get(k)` on a dict given as its items: the value of the first pair with key `k`. */
  function Lookup<V>(m: seq<(string, V)>, k: string): (r: Option<V>)
    ensures r.Some? <==> exists i :: 0 <= i < |m| && m[i].0 == k
    ensures r.Some? ==> exists i :: 0 <= i < |m| && m[i] == (k, r.value)
  {
    if m == [] then None
    else if m[0].0 == k then Some(m[0].1)
    else
      assert forall i :: 0 <= i < |m[1..]| ==> m[1..][i] == m[i + 1];
      Lookup(m[1..], k)
  }

  /** `config['unit_conversions'].get(item, {}).get(container)`. */
  function Factor(cfg: Config, item: string, container: string): Option<int> {
    match Lookup(cfg.unitConversions, item)
    case None => None
    case Some(convs) => Lookup(convs, container)
  }

  function Keys<V>(m: seq<(string, V)>): (ks: seq<string>)
    ensures |ks| == |m| && forall i :: 0 <= i < |m| ==> ks[i] == m[i].0
  {
    if m == [] then [] else [m[0].0] + Keys(m[1..])
  }

  /** The elements of `xs` in first-occurrence order, without repeats (a Python set
      built from `xs`, enumerated in a fixed order). */
  function Dedup(xs: seq<string>): (r: seq<string>)
    ensures forall x :: x in r <==> x in xs
    ensures forall i, j :: 0 <= i < j < |r| ==> r[i] != r[j]
    decreases |xs|
  {
    if xs == [] then []
    else
      var rest := Dedup(xs[..|xs| - 1]);
      if xs[|xs| - 1] in rest then rest else rest + [xs[|xs| - 1]]
  }

  function Flatten(xss: seq<seq<string>>): (r: seq<string>)
    ensures forall x :: x in r <==> exists i :: 0 <= i < |xss| && x in xss[i]
  {
    if xss == [] then []
    else
      var r := xss[0] + Flatten(xss[1..]);
      assert forall i :: 1 <= i < |xss| ==> xss[i] == xss[1..][i - 1];
      r
  }

  function ConversionKeys(convs: seq<(string, seq<(string, int)>)>): (r: seq<string>)
    ensures forall x :: x in r <==> exists i :: 0 <= i < |convs| && x in Keys(convs[i].1)
  {
    if convs == [] then []
    else
      var r := Keys(convs[0].1) + ConversionKeys(convs[1..]);
      assert forall i :: 1 <= i < |convs| ==> convs[i] == convs[1..][i - 1];
      r
  }

  function WithoutBaseUnit(xs: seq<string>): (r: seq<string>)
    ensures forall x :: x in r <==> x in xs && x != "base_unit"
  {
    if xs == [] then []
    else (if xs[0] == "base_unit" then [] else [xs[0]]) + WithoutBaseUnit(xs[1..])
  }

  /** `get_all_containers`: every container key of every item, except `base_unit`,
      each once. */
  function AllContainers(cfg: Config): (r: seq<string>)
    ensures forall c :: c in r <==>
      (c != "base_unit" && exists i :: 0 <= i < |cfg.unitConversions| && c in Keys(cfg.unitConversions[i].1))
    ensures forall i, j :: 0 <= i < j < |r| ==> r[i] != r[j]
  {
    Dedup(WithoutBaseUnit(ConversionKeys(cfg.unitConversions)))
  }

  predicate LowerIn(x: string, names: seq<string>) {
    exists i :: 0 <= i < |names| && Lower(names[i]) == Lower(x)
  }

  /** The alias pairs whose target names a container (compared lower-cased). */
  function ContainerAliases(cfg: Config): (r: seq<(string, string)>)
    ensures forall p :: p in r ==> p in cfg.aliases && LowerIn(p.1, AllContainers(cfg))
  {
    var cs := AllContainers(cfg);
    AliasesWhere(cfg.aliases, t => LowerIn(t, cs))
  }

  function AliasesWhere(aliases: seq<(string, string)>, p: string -> bool): (r: seq<(string, string)>)
    ensures forall a :: a in r ==> a in aliases && p(a.1)
    ensures forall a :: a in aliases && p(a.1) ==> a in r
  {
    if aliases == [] then []
    else (if p(aliases[0].1) then [aliases[0]] else []) + AliasesWhere(aliases[1..], p)
  }

  /** The container set of `_extract_container`: the configured containers plus the
      alias keys that point to one. */
  function ContainerNames(cfg: Config): seq<string> {
    Dedup(AllContainers(cfg) + Keys(ContainerAliases(cfg)))
  }

  /** The canonical names an item lookup may return: items and alias targets. */
  predicate KnownItem(cfg: Config, x: string) {
    x in cfg.items || exists i :: 0 <= i < |cfg.aliases| && cfg.aliases[i].1 == x
  }

  /** Membership in `non_zero_sum_types`. */
  predicate IsNonZeroSum(cfg: Config, t: Option<string>) {
    t.Some? && t.value in cfg.nonZeroSumTypes
  }
}
