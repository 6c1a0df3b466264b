/** `_parse_line`: one message line to a partial record, by running the extractors in a
    fixed order on what each leaves of the line. */
module LineParsing {
  import opened Wrappers
  import opened Text
  import opened Calendar
  import opened Configuration
  import opened Fuzzy
  import opened Records
  import opened TookLines
  import opened DateExtraction
  import opened LocationExtraction
  import opened VerbExtraction
  import opened SupplierExtraction
  import opened QuantityExtraction
  import opened ItemMatching

  /** `re.sub(r'^\s*[+\-]\s*', '', text).strip()`: one leading sign dropped. */
  function StripSign(text: string): (r: string)
    ensures |r| <= |text|
  {
    var t := LStrip(text);
    if t != [] && (t[0] == '+' || t[0] == '-') then Strip(t[1..]) else Strip(text)
  }

  /** The record of a `took X out of Y [item]` line: nothing else is extracted. */
  function TookRecord(sim: Ratio, cfg: Config, text: string, t: Took): (r: Record)
    ensures r.raw == text && r.qty == Some(t.qty as int) && r.batch.None? && r.unmatched.None?
    ensures r.container.None? && r.location.None? && r.date.None?
    ensures r.transType.None? && r.direction.None? && r.notesExtra == Some("had " + t.total + " total")
    ensures r.HasItem() ==> r.itemRaw.Some? && KnownItem(cfg, r.item.value)
  {
    var r := Blank(text).(qty := Some(t.qty as int), notesExtra := Some("had " + t.total + " total"));
    var m := MatchItem(sim, cfg, Strip(t.rest));
    if m.Some? && m.value.0 != "" then r.(item := Some(m.value.0), itemRaw := Some(m.value.1)) else r
  }

  /** The item step: the cleaned rest of the line is matched; text that matches nothing
      is kept as `_unmatched_text`. */
  function ItemStage(sim: Ratio, cfg: Config, r: Record, rest: string): (r': Record)
    requires !r.HasItem() && r.unmatched.None?
    ensures r'.HasItem() ==> r'.itemRaw.Some? && KnownItem(cfg, r'.item.value) && r'.unmatched.None?
    ensures r'.unmatched.Some? ==> !r'.HasItem() && r'.unmatched.value != ""
    ensures r' == r.(item := r'.item, itemRaw := r'.itemRaw, unmatched := r'.unmatched)
  {
    if Strip(rest) == [] then r
    else
      var m := MatchItem(sim, cfg, rest);
      if m.Some? && m.value.0 != "" then r.(item := Some(m.value.0), itemRaw := Some(m.value.1))
      else r.(unmatched := Some(Strip(rest)))
  }

  /** `re.findall(r'\b(\d+)\b', s)` from position `k`. */
  function NumbersFrom(s: string, k: nat): (r: seq<string>)
    ensures forall i :: 0 <= i < |r| ==> AllDigits(r[i]) && r[i] != []
    decreases |s| - k
  {
    if k >= |s| then []
    else
      match NumberAt(s, k)
      case Some((v, e)) => [s[k..e]] + NumbersFrom(s, e)
      case None => NumbersFrom(s, k + 1)
  }

  /** `s.replace(sub, '', 1)`. */
  function ReplaceFirst(s: string, sub: string): (r: string)
    ensures |r| <= |s|
  {
    match IndexOf(s, sub, 0)
    case Some(i) => s[..i] + s[i + |sub|..]
    case None => s
  }

  /** One trial of the multi-number retry: the line before quantity extraction without
      the first occurrence of the number, cleaned, with its container taken out when one
      is found, matched as an item. Yields the item, its raw text and the container. */
  function Trial(sim: Ratio, cfg: Config, before: string, num: string): (r: Option<(string, string, Option<string>)>)
    requires cfg.Valid()
    ensures r.Some? ==> r.value.0 != "" && KnownItem(cfg, r.value.0)
  {
    var text := RemoveFiller(cfg, Strip(ReplaceFirst(before, num)));
    var ex := ExtractContainer(cfg, text);
    var m := MatchItem(sim, cfg, if Present(ex.0) then ex.1 else text);
    if m.Some? && m.value.0 != "" then Some((m.value.0, m.value.1, ex.0)) else None
  }

  /** `r'` is `r` with the quantity and item a retry trial found: the unmatched text
      cleared and possibly a new container, nothing else changed. */
  predicate Retried(cfg: Config, r: Record, r': Record) {
    r'.HasItem() && r'.HasQty() && r'.unmatched.None? && r'.itemRaw.Some? && KnownItem(cfg, r'.item.value)
    && KeepsContext(r, r')
  }

  /** `r'` differs from `r` at most in the quantity, container and item fields. */
  predicate KeepsContext(r: Record, r': Record) {
    r'.raw == r.raw && r'.transType == r.transType && r'.location == r.location && r'.direction == r.direction
    && r'.date == r.date && r'.notesExtra == r.notesExtra && r'.batch == r.batch
  }

  /** The record after a successful trial with number `n`. */
  function Adopt(cfg: Config, r: Record, n: nat, found: (string, string, Option<string>)): (r': Record)
    requires found.0 != "" && KnownItem(cfg, found.0)
    ensures Retried(cfg, r, r')
  {
    var (item, raw, cont) := found;
    r.(qty := Some(n as int), item := Some(item), itemRaw := Some(raw), unmatched := None,
       container := if Present(cont) then cont else r.container)
  }

  /** The retry loop from the `i`-th number on: numbers equal to the current quantity
      are skipped; the first trial that finds an item replaces the quantity and item,
      clears the unmatched text and, when the trial found a container, the container. */
  function RetryFrom(sim: Ratio, cfg: Config, r: Record, before: string, nums: seq<string>, i: nat): (r': Record)
    requires cfg.Valid() && forall j :: 0 <= j < |nums| ==> AllDigits(nums[j])
    ensures r' == r || Retried(cfg, r, r')
    decreases |nums| - i
  {
    if i >= |nums| then r
    else if Some(DigitsValue(nums[i]) as int) == r.qty then RetryFrom(sim, cfg, r, before, nums, i + 1)
    else
      var t := Trial(sim, cfg, before, nums[i]);
      if t.Some? then Adopt(cfg, r, DigitsValue(nums[i]), t.value)
      else RetryFrom(sim, cfg, r, before, nums, i + 1)
  }

  /** The final step: a record with an item, a container and a quantity has the
      container converted to base units when the item has a factor for it. */
  function ConvertStage(cfg: Config, r: Record): (r': Record)
    ensures Present(r'.item) && Present(r'.container) && r'.qty.Some? ==> Factor(cfg, r'.item.value, r'.container.value).None?
    ensures r' == r || (r' == r.(qty := r'.qty, container := None) && r'.qty.Some?)
    ensures r' != r <==> Present(r.item) && Present(r.container) && r.qty.Some?
                         && Factor(cfg, r.item.value, r.container.value).Some?
    ensures r' != r ==> r'.qty == Some(r.qty.value * Factor(cfg, r.item.value, r.container.value).value)
  {
    if Present(r.item) && Present(r.container) && r.qty.Some? then
      match ConvertContainer(cfg, r.item.value, r.container.value, r.qty.value)
      case Some(v) => r.(qty := Some(v), container := None)
      case None => r
    else r
  }

  /** The context extractors, in order: date, location with direction, transaction
      type, and (when a from-word occurs) the supplier. Each one sees what the previous
      one left of the line; the record gains only the fields they found. */
  function ContextStage(sim: Ratio, cfg: Config, text: string, remaining: string): (res: (Record, string))
    ensures var r := res.0;
            r == Blank(text).(date := r.date, location := r.location, direction := r.direction,
                              transType := r.transType, notesExtra := r.notesExtra)
    ensures res.0.raw == text && res.0.batch.None? && res.0.item.None? && res.0.unmatched.None?
            && res.0.qty.None? && res.0.container.None?
    ensures res.0.date.Some? ==> ValidDate(res.0.date.value)
    ensures res.0.location.Some? ==> res.0.location.value != "" && res.0.direction.Some?
    ensures res.0.transType.Some? ==> res.0.transType.value != ""
  {
    var (d, rem1) := ExtractDate(remaining);
    var r1 := if d.Some? then Blank(text).(date := d) else Blank(text);
    var (loc, dir, rem2) := ExtractLocation(sim, cfg, rem1);
    var r2 := if Present(loc) then r1.(location := loc, direction := dir) else r1;
    var (tt, rem3) := ExtractVerb(sim, cfg, rem2);
    var r3 := if Present(tt) then r2.(transType := tt) else r2;
    var (sup, rem4) := if MentionsFromWordIn(cfg.fromWords, rem3) then ExtractSupplierInfo(cfg, rem3) else (None, rem3);
    var r4 := if Present(sup) then r3.(notesExtra := Some("from " + sup.value)) else r3;
    (r4, rem4)
  }

  /** Quantity and container, filler removal, the item, and the multi-number retry,
      on the rest of the line `before` that the context extractors left. */
  function CountStage(sim: Ratio, cfg: Config, r: Record, before: string): (r': Record)
    requires cfg.Valid() && !r.HasItem() && r.unmatched.None? && r.qty.None? && r.container.None?
    ensures r'.HasItem() ==> r'.itemRaw.Some? && r'.unmatched.None? && KnownItem(cfg, r'.item.value)
    ensures r'.unmatched.Some? ==> r'.unmatched.value != ""
    ensures KeepsContext(r, r')
  {
    var r7 := QtyItemStage(sim, cfg, r, before);
    var nums := NumbersFrom(before, 0);
    if !r7.HasItem() && r7.HasQty() && |nums| > 1 then
      var r8 := RetryFrom(sim, cfg, r7, before, nums, 0);
      if r8 == r7 then r7 else assert Retried(cfg, r7, r8); r8
    else r7
  }

  /** Quantity extraction, then the item step on the cleaned rest of the line. */
  function QtyItemStage(sim: Ratio, cfg: Config, r: Record, before: string): (r': Record)
    requires cfg.Valid() && !r.HasItem() && r.unmatched.None? && r.qty.None? && r.container.None?
    ensures r'.HasItem() ==> r'.itemRaw.Some? && r'.unmatched.None? && KnownItem(cfg, r'.item.value)
    ensures r'.unmatched.Some? ==> r'.unmatched.value != ""
    ensures KeepsContext(r, r')
  {
    var (q, cont, rest) := ExtractQty(cfg, before);
    var r5 := if q.Some? then r.(qty := q) else r;
    var r6 := if Present(cont) then r5.(container := cont) else r5;
    ItemStage(sim, cfg, r6, RemoveFiller(cfg, rest))
  }

  /** `_parse_line(text, config)` as a function of the line. A record that has an item
      never keeps unmatched text; a date is a calendar date; a location always comes
      with its direction; and a container the item has a conversion factor for never
      survives: it has been converted into the quantity. */
  function ParseLineSpec(sim: Ratio, cfg: Config, text: string): (r: Record)
    requires cfg.Valid()
    ensures r.raw == text && r.batch.None?
    ensures r.HasItem() ==> r.itemRaw.Some? && r.unmatched.None? && KnownItem(cfg, r.item.value)
    ensures r.unmatched.Some? ==> r.unmatched.value != ""
    ensures r.date.Some? ==> ValidDate(r.date.value)
    ensures r.location.Some? ==> r.location.value != "" && r.direction.Some?
    ensures r.transType.Some? ==> r.transType.value != ""
    ensures Present(r.item) && Present(r.container) && r.qty.Some? ==> Factor(cfg, r.item.value, r.container.value).None?
  {
    var remaining := StripSign(text);
    match TookMatch(remaining)
    case Some(t) => TookRecord(sim, cfg, text, t)
    case None => StagedRecord(sim, cfg, text, remaining)
  }

  /** Every other line: the context extractors, then counting and the item, then the
      container conversion. */
  function StagedRecord(sim: Ratio, cfg: Config, text: string, remaining: string): (r: Record)
    requires cfg.Valid()
    ensures r.raw == text && r.batch.None?
    ensures r.HasItem() ==> r.itemRaw.Some? && r.unmatched.None? && KnownItem(cfg, r.item.value)
    ensures r.unmatched.Some? ==> r.unmatched.value != ""
    ensures r.date.Some? ==> ValidDate(r.date.value)
    ensures r.location.Some? ==> r.location.value != "" && r.direction.Some?
    ensures r.transType.Some? ==> r.transType.value != ""
    ensures Present(r.item) && Present(r.container) && r.qty.Some? ==> Factor(cfg, r.item.value, r.container.value).None?
  {
    var ctx := ContextStage(sim, cfg, text, remaining);
    var counted := CountStage(sim, cfg, ctx.0, ctx.1);
    var r := ConvertStage(cfg, counted);
    StagesCompose(cfg, text, ctx.0, counted, r);
    r
  }

  /** What the three stages promise each, put together. */
  lemma StagesCompose(cfg: Config, text: string, ctx: Record, counted: Record, r: Record)
    requires ctx.raw == text && ctx.batch.None?
    requires ctx.date.Some? ==> ValidDate(ctx.date.value)
    requires ctx.location.Some? ==> ctx.location.value != "" && ctx.direction.Some?
    requires ctx.transType.Some? ==> ctx.transType.value != ""
    requires counted.HasItem() ==> counted.itemRaw.Some? && counted.unmatched.None? && KnownItem(cfg, counted.item.value)
    requires counted.unmatched.Some? ==> counted.unmatched.value != ""
    requires KeepsContext(ctx, counted)
    requires r == counted || (r == counted.(qty := r.qty, container := None) && r.qty.Some?)
    ensures r.raw == text && r.batch.None?
    ensures r.HasItem() ==> r.itemRaw.Some? && r.unmatched.None? && KnownItem(cfg, r.item.value)
    ensures r.unmatched.Some? ==> r.unmatched.value != ""
    ensures r.date.Some? ==> ValidDate(r.date.value)
    ensures r.location.Some? ==> r.location.value != "" && r.direction.Some?
    ensures r.transType.Some? ==> r.transType.value != ""
  {
  }

  /** `_parse_line(text, config)`: the record is filled in place, extractor by extractor. */
  method ParseLine(sim: Ratio, cfg: Config, text: string) returns (r: Record)
    requires cfg.Valid()
    ensures r == ParseLineSpec(sim, cfg, text)
  {
    r := Blank(text);
    var remaining := StripSign(text);
    var took := TookMatch(remaining);
    if took.Some? {
      r := r.(qty := Some(took.value.qty as int), notesExtra := Some("had " + took.value.total + " total"));
      var m := MatchItem(sim, cfg, Strip(took.value.rest));
      if m.Some? && m.value.0 != "" {
        r := r.(item := Some(m.value.0), itemRaw := Some(m.value.1));
      }
      return;
    }
    r, remaining := FillContext(sim, cfg, text, remaining);
    r := FillCount(sim, cfg, r, remaining);
    r := ConvertStage(cfg, r);
  }

  method FillContext(sim: Ratio, cfg: Config, text: string, line: string) returns (r: Record, remaining: string)
    ensures (r, remaining) == ContextStage(sim, cfg, text, line)
  {
    r := Blank(text);
    remaining := line;

    var dated := ExtractDate(remaining);
    remaining := dated.1;
    if dated.0.Some? {
      r := r.(date := dated.0);
    }

    var located := ExtractLocation(sim, cfg, remaining);
    remaining := located.2;
    if Present(located.0) {
      r := r.(location := located.0, direction := located.1);
    }

    var typed := ExtractVerb(sim, cfg, remaining);
    remaining := typed.1;
    if Present(typed.0) {
      r := r.(transType := typed.0);
    }

    if MentionsFromWordIn(cfg.fromWords, remaining) {
      var supplied := ExtractSupplierInfo(cfg, remaining);
      remaining := supplied.1;
      if Present(supplied.0) {
        r := r.(notesExtra := Some("from " + supplied.0.value));
      }
    }
  }

  /** Quantity, container and item, then the multi-number retry: the numbers of the line
      are walked until a trial finds an item. */
  method FillCount(sim: Ratio, cfg: Config, r0: Record, before: string) returns (r: Record)
    requires cfg.Valid() && !r0.HasItem() && r0.unmatched.None? && r0.qty.None? && r0.container.None?
    ensures r == CountStage(sim, cfg, r0, before)
  {
    r := r0;
    var counted := ExtractQty(cfg, before);
    if counted.0.Some? {
      r := r.(qty := counted.0);
    }
    if Present(counted.1) {
      r := r.(container := counted.1);
    }
    r := ItemStage(sim, cfg, r, RemoveFiller(cfg, counted.2));

    var nums := NumbersFrom(before, 0);
    if !r.HasItem() && r.HasQty() && |nums| > 1 {
      r := Retry(sim, cfg, r, before, nums);
    }
  }

  /** The multi-number retry: the numbers of the line are walked until a trial finds an
      item; a number equal to the current quantity is skipped. */
  method Retry(sim: Ratio, cfg: Config, start: Record, before: string, nums: seq<string>) returns (r: Record)
    requires cfg.Valid() && forall j :: 0 <= j < |nums| ==> AllDigits(nums[j])
    ensures r == RetryFrom(sim, cfg, start, before, nums, 0)
  {
    r := start;
    var i := 0;
    var found := false;
    while i < |nums| && !found
      invariant 0 <= i <= |nums|
      invariant found ==> r == RetryFrom(sim, cfg, start, before, nums, 0)
      invariant !found ==> r == start && RetryFrom(sim, cfg, start, before, nums, 0) == RetryFrom(sim, cfg, start, before, nums, i)
    {
      if Some(DigitsValue(nums[i]) as int) != r.qty {
        var trial := Trial(sim, cfg, before, nums[i]);
        if trial.Some? {
          var (item, raw, tc) := trial.value;
          r := r.(qty := Some(DigitsValue(nums[i]) as int), item := Some(item), itemRaw := Some(raw), unmatched := None);
          if Present(tc) {
            r := r.(container := tc);
          }
          found := true;
        }
      }
      i := i + 1;
    }
  }
}
