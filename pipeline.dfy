/** `parse`: the whole parser. Chat metadata is removed, the message is cut into
    non-blank lines, each line is parsed, split quantity/item lines are merged, context
    is broadcast, and the records are turned into rows, notes and unparseable lines. */
module Pipeline {
  import opened Wrappers
  import opened Text
  import opened Calendar
  import opened Configuration
  import opened Fuzzy
  import opened Records
  import opened LineParsing
  import opened Merging
  import opened Broadcasting
  import opened Results

  const EditedMarker := "<This message was edited>"
  const MediaMarker := "<Media omitted>"

  /** `_strip_metadata`: both markers removed (ignoring case), then the ends stripped. */
  function StripMetadata(text: string): (r: string)
    ensures r == [] || (!IsSpace(r[0]) && !IsSpace(r[|r| - 1]))
  {
    Strip(RemoveAll(RemoveAll(text, EditedMarker, false), MediaMarker, false))
  }

  /** No marker can start where there is no `<`. */
  lemma {:induction false} RemoveWithoutOpening(s: string, w: string, i: nat)
    requires i <= |s| && w != [] && w[0] == '<' && '<' !in s
    ensures RemoveFrom(s, w, false, i) == s[i..]
    decreases |s| - i
  {
    if i < |s| {
      assert LowerChar(s[i]) != '<';
      assert !MatchesAt(s, i, w);
      RemoveWithoutOpening(s, w, i + 1);
      assert s[i..] == [s[i]] + s[i + 1..];
    }
  }

  /** A message that contains no `<` loses nothing but its outer whitespace. */
  lemma StripMetadataPlain(text: string)
    requires '<' !in text
    ensures StripMetadata(text) == Strip(text)
  {
    RemoveWithoutOpening(text, EditedMarker, 0);
    RemoveWithoutOpening(text, MediaMarker, 0);
  }

  /** `[l.strip() for l in text.split('\n') if l.strip()]`. */
  function Lines(text: string): (ls: seq<string>)
    ensures forall k :: 0 <= k < |ls| ==> ls[k] != [] && !IsSpace(ls[k][0]) && !IsSpace(ls[k][|ls[k]| - 1])
  {
    NonBlank(SplitOn(text, '\n'))
  }

  /** Cutting a message into lines undoes writing stripped, non-blank lines one per
      line. */
  lemma LinesOfJoined(ls: seq<string>)
    requires forall k :: 0 <= k < |ls| ==> '\n' !in ls[k]
    requires forall k :: 0 <= k < |ls| ==> ls[k] != [] && !IsSpace(ls[k][0]) && !IsSpace(ls[k][|ls[k]| - 1])
    ensures Lines(Join(ls, "\n")) == ls
  {
    if ls == [] {
      assert SplitOn("", '\n') == [""];
    } else {
      SplitOnJoin(ls, '\n');
      NonBlankStripped(ls);
    }
  }

  /** `[_parse_line(line, config) for line in lines]`: every parsed line is sound and
      keeps its text as `raw`. */
  function ParseAll(sim: Ratio, cfg: Config, lines: seq<string>): (ps: seq<Record>)
    requires cfg.Valid()
    ensures |ps| == |lines|
    ensures AllSound(cfg, ps)
    ensures forall k :: 0 <= k < |lines| ==> ps[k].raw == lines[k]
    decreases |lines|
  {
    if lines == [] then []
    else
      var init, line := lines[..|lines| - 1], lines[|lines| - 1];
      var ps := ParseAll(sim, cfg, init);
      var r := ParseLineSpec(sim, cfg, line);
      AppendSound(cfg, ps, r, lines);
      ps + [r]
  }

  lemma AppendSound(cfg: Config, ps: seq<Record>, r: Record, lines: seq<string>)
    requires |ps| + 1 == |lines| && AllSound(cfg, ps) && forall k :: 0 <= k < |ps| ==> ps[k].raw == lines[k]
    requires Sound(cfg, r) && r.raw == lines[|ps|]
    ensures AllSound(cfg, ps + [r])
    ensures forall k :: 0 <= k < |lines| ==> (ps + [r])[k].raw == lines[k]
  {
  }

  /** The list comprehension over the lines, one `_parse_line` call per line. */
  method ParseLines(sim: Ratio, cfg: Config, lines: seq<string>) returns (parsed: seq<Record>)
    requires cfg.Valid()
    ensures parsed == ParseAll(sim, cfg, lines)
  {
    parsed := [];
    for i := 0 to |lines|
      invariant parsed == ParseAll(sim, cfg, lines[..i])
    {
      var r := ParseLine(sim, cfg, lines[i]);
      ParseAllStep(sim, cfg, lines, i);
      parsed := parsed + [r];
    }
    assert lines[..|lines|] == lines;
  }

  lemma ParseAllStep(sim: Ratio, cfg: Config, lines: seq<string>, i: nat)
    requires cfg.Valid() && i < |lines|
    ensures ParseAll(sim, cfg, lines[..i + 1]) == ParseAll(sim, cfg, lines[..i]) + [ParseLineSpec(sim, cfg, lines[i])]
  {
    assert lines[..i + 1][..i] == lines[..i];
  }

  /** The merged records of a message, before context is broadcast. */
  function MergedRecords(sim: Ratio, cfg: Config, text: string): seq<Record>
    requires cfg.Valid()
  {
    Merge(cfg, ParseAll(sim, cfg, Lines(StripMetadata(text))))
  }

  /** `parse(text, config, today)` as a function of the message. */
  function ParseSpec(sim: Ratio, cfg: Config, text: string, today: Date): ParseResult
    requires cfg.Valid()
  {
    GenerateSpec(cfg, Broadcast(MergedRecords(sim, cfg, text)), today)
  }

  /** The first half of `parse`: metadata, lines, `_parse_line` on each, and
      `_merge_lines`. */
  method ParseRecords(sim: Ratio, cfg: Config, text: string) returns (merged: seq<Record>)
    requires cfg.Valid()
    ensures merged == MergedRecords(sim, cfg, text)
  {
    var stripped := StripMetadata(text);
    var lines := Lines(stripped);
    var parsed := ParseLines(sim, cfg, lines);
    merged := MergeLines(cfg, parsed);
  }

  /** A fresh array holding `rs`, for the stages that update records in place. */
  method ToArray(rs: seq<Record>) returns (a: array<Record>)
    ensures fresh(a) && a[..] == rs
  {
    a := new Record[|rs|](k requires 0 <= k < |rs| => rs[k]);
  }

  /** `parse(text, config, today)`. The similarity ratio of `difflib` is the parameter
      `sim`; `today` is the date the caller passes or the current date. */
  method Parse(sim: Ratio, cfg: Config, text: string, today: Date) returns (res: ParseResult)
    requires cfg.Valid()
    ensures res == ParseSpec(sim, cfg, text, today)
  {
    var merged := ParseRecords(sim, cfg, text);
    var items := ToArray(merged);
    BroadcastContext(items);
    ghost var broadcast := Broadcast(merged);
    assert items[..] == broadcast;
    res := GenerateResult(cfg, items[..], today);
    assert res == GenerateSpec(cfg, broadcast, today);
  }

  /** Every row of a parsed message names a configured item or an alias target, has a
      calendar date, and belongs to a batch numbered from 1. */
  lemma ParsedRowsSound(sim: Ratio, cfg: Config, text: string, today: Date, k: nat)
    requires cfg.Valid() && ValidDate(today)
    requires k < |ParseSpec(sim, cfg, text, today).rows|
    ensures var row := ParseSpec(sim, cfg, text, today).rows[k];
            row.invType.Some? && KnownItem(cfg, row.invType.value) &&
            row.date.Some? && ValidDate(row.date.value) &&
            row.batch.Some? && row.batch.value >= 1
  {
    var parsed := ParseAll(sim, cfg, Lines(StripMetadata(text)));
    MergeSound(cfg, parsed);
    BroadcastSound(cfg, MergedRecords(sim, cfg, text));
    GeneratedRowsSound(cfg, Broadcast(MergedRecords(sim, cfg, text)), today, k);
  }

  lemma {:induction false} ItemsPointwise(a: seq<Record>, b: seq<Record>)
    requires |a| == |b| && forall k :: 0 <= k < |a| ==> a[k].item == b[k].item
    ensures Items(a) == Items(b)
    decreases |a|
  {
    if a != [] {
      ItemsPointwise(a[..|a| - 1], b[..|b| - 1]);
    }
  }

  lemma {:induction false} TransactionsItems(rs: seq<Record>)
    ensures Items(Transactions(rs)) == Items(rs)
    decreases |rs|
  {
    if rs != [] {
      var init := rs[..|rs| - 1];
      var last := rs[|rs| - 1];
      TransactionsItems(init);
      ItemsAppend(Transactions(init), if last.HasItem() then [last] else []);
      assert [last][..0] == [];
    }
  }

  lemma BroadcastItems(m: seq<Record>)
    ensures Items(Broadcast(m)) == Items(m)
  {
    forall k | 0 <= k < |m|
      ensures Broadcast(m)[k].item == m[k].item
    {
      BroadcastKeeps(m, k);
    }
    ItemsPointwise(Broadcast(m), m);
  }

  /** The transactions of a parsed message name exactly the items its lines name, in
      the order of the lines: merging and broadcasting lose, add and reorder none. */
  lemma ParseKeepsItems(sim: Ratio, cfg: Config, text: string)
    requires cfg.Valid()
    ensures Items(Transactions(Broadcast(MergedRecords(sim, cfg, text)))) == Items(ParseAll(sim, cfg, Lines(StripMetadata(text))))
  {
    var parsed := ParseAll(sim, cfg, Lines(StripMetadata(text)));
    var m := Merge(cfg, parsed);
    BroadcastItems(m);
    TransactionsItems(Broadcast(m));
    MergeItems(cfg, parsed);
  }
}
