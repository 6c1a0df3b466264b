/** The two record shapes of the pipeline: the partial record one message line becomes,
    and the ledger row the parser emits and the editor changes. */
module Records {
  import opened Wrappers
  import opened Calendar
  import opened Configuration

  /** The dict `_parse_line` builds. `has_qty` and `has_item` are not stored: the source
      sets each exactly when it sets `qty` (to a number) or `item` (to a non-empty
      name), so they are predicates over those fields. `unmatched` is `_unmatched_text`;
      `batch` is added by `_assign_batches`. */
  datatype Record = Record(
    raw: string,
    qty: Option<int>,
    item: Option<string>,
    itemRaw: Option<string>,
    container: Option<string>,
    transType: Option<string>,
    location: Option<string>,
    direction: Option<string>,
    date: Option<Date>,
    notesExtra: Option<string>,
    unmatched: Option<string>,
    batch: Option<int>)
  {
    predicate HasQty() { qty.Some? }
    predicate HasItem() { Present(item) }
  }

  /** The record `_parse_line` starts from: only the raw line. */
  function Blank(raw: string): (r: Record)
    ensures r.raw == raw && !r.HasQty() && !r.HasItem()
  {
    Record(raw, None, None, None, None, None, None, None, None, None, None, None)
  }

  /** What `_parse_line` guarantees of every record and every later stage keeps: an
      item is a configured item or alias target, a date is a calendar date, and a
      location is a non-empty name that comes with its direction. */
  predicate Sound(cfg: Config, r: Record) {
    (r.HasItem() ==> KnownItem(cfg, r.item.value)) &&
    (r.date.Some? ==> ValidDate(r.date.value)) &&
    (r.location.Some? ==> r.location.value != "" && r.direction.Some?)
  }

  predicate AllSound(cfg: Config, rs: seq<Record>) {
    forall k :: 0 <= k < |rs| ==> Sound(cfg, rs[k])
  }

  /** A ledger row. `None` is a key the row does not have or holds `None`; `container`
      and `rawQty` are `_container` and `_raw_qty`, kept for the conversion prompt. */
  datatype Row = Row(
    date: Option<Date>,
    invType: Option<string>,
    qty: Option<int>,
    transType: Option<string>,
    location: Option<string>,
    batch: Option<int>,
    notes: Option<string>,
    container: Option<string>,
    rawQty: Option<int>)
}
