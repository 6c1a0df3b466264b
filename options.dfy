/** `get_closed_set_options`: the choices the editor offers for a field whose values
    come from the configuration. */
module Options {
  import opened Wrappers
  import opened Configuration

  /** `list(config.get(key, []))` for the configuration keys that hold a list or a
      dict (a dict lists its keys). */
  function ConfigList(cfg: Config, key: string): seq<string> {
    if key == "items" then cfg.items
    else if key == "transaction_types" then cfg.transactionTypes
    else if key == "locations" then cfg.locations
    else if key == "aliases" then Keys(cfg.aliases)
    else if key == "action_verbs" then Keys(cfg.actionVerbs)
    else if key == "unit_conversions" then Keys(cfg.unitConversions)
    else []
  }

  /** The key of the legacy fallback for the three built-in closed-set fields. */
  function LegacyKey(field: string): string {
    if field == "inv_type" then "items"
    else if field == "trans_type" then "transaction_types"
    else if field == "vehicle_sub_unit" then "locations"
    else ""
  }

  /** The configuration key a field's options come from: its `field_options` entry
      when that is a non-empty name, the legacy key otherwise. */
  function OptionsKey(cfg: Config, field: string): string {
    var k := Lookup(cfg.fieldOptions, field);
    if k.Some? && k.value != "" then k.value else LegacyKey(field)
  }

  /** `get_closed_set_options(field, config)`. The location field always offers the
      default source, put first when the configured list lacks it; every other field
      offers exactly the configured list. */
  function GetClosedSetOptions(field: string, cfg: Config): (r: seq<string>)
    ensures var l := ConfigList(cfg, OptionsKey(cfg, field));
            if field == "vehicle_sub_unit" then
              cfg.defaultSource in r &&
              (forall x :: x in r <==> x in l || x == cfg.defaultSource) &&
              (cfg.defaultSource in l ==> r == l) &&
              (cfg.defaultSource !in l ==> r == [cfg.defaultSource] + l)
            else r == l
  {
    var key := Lookup(cfg.fieldOptions, field);
    if key.Some? && key.value != "" then
      var options := ConfigList(cfg, key.value);
      if field == "vehicle_sub_unit" && cfg.defaultSource !in options then [cfg.defaultSource] + options
      else options
    else if field == "inv_type" then cfg.items
    else if field == "trans_type" then cfg.transactionTypes
    else if field == "vehicle_sub_unit" then
      if cfg.defaultSource !in cfg.locations then [cfg.defaultSource] + cfg.locations else cfg.locations
    else []
  }

  /** The legacy fallback gives a built-in field the options the default
      `field_options` mapping would: a configuration that leaves the field out of its
      mapping behaves as one that maps it the default way. */
  lemma LegacyMatchesDefault(field: string, cfg: Config)
    requires field in ["inv_type", "trans_type", "vehicle_sub_unit"]
    requires Lookup(cfg.fieldOptions, field).None? || Lookup(cfg.fieldOptions, field) == Some("")
    ensures GetClosedSetOptions(field, cfg) == GetClosedSetOptions(field, cfg.(fieldOptions := DefaultFieldOptions))
  {
    var d := cfg.(fieldOptions := DefaultFieldOptions);
    DefaultLookup(field);
    var k := OptionsKey(cfg, field);
    assert k == OptionsKey(d, field);
    assert ConfigList(cfg, k) == ConfigList(d, k);
  }

  /** The default `field_options` maps each built-in field to its legacy key. */
  lemma DefaultLookup(field: string)
    requires field in ["inv_type", "trans_type", "vehicle_sub_unit"]
    ensures Lookup(DefaultFieldOptions, field) == Some(LegacyKey(field))
  {
    var m := DefaultFieldOptions;
    assert m[0].0 == "inv_type" && m[1].0 == "trans_type" && m[2].0 == "vehicle_sub_unit";
    if field == "inv_type" {
    } else if field == "trans_type" {
      assert m[1..][0] == m[1];
    } else {
      assert m[1..][1..][0] == m[2];
    }
  }

  /** A field that is neither mapped nor built in has no options. */
  lemma UnknownFieldHasNoOptions(field: string, cfg: Config)
    requires field !in ["inv_type", "trans_type", "vehicle_sub_unit"]
    requires Lookup(cfg.fieldOptions, field).None?
    ensures GetClosedSetOptions(field, cfg) == []
  {
  }
}
