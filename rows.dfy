/** `_item_to_rows`: a transaction record becomes ledger rows. A transfer to a location
    other than the default source is written twice (double entry): the quantity leaves
    one place and arrives at the other. */
module RowGeneration {
  import opened Wrappers
  import opened Calendar
  import opened Configuration
  import opened Records

  function Abs(x: int): (r: int)
    ensures r >= 0 && (r == x || r == -x)
  {
    if x < 0 then -x else x
  }

  /** The row fields every row of the record shares (`row_base`): the record's date or
      today, its item, its batch (1 when it has none), its note, and its container with
      the unconverted quantity when a container was kept. */
  function BaseRow(r: Record, today: Date): (row: Row)
    ensures row.date == Some(r.date.GetOr(today)) && row.invType == r.item
    ensures row.batch == Some(r.batch.GetOr(1)) && row.notes == r.notesExtra
    ensures Present(r.container) ==> row.container == r.container && row.rawQty == Some(r.qty.GetOr(1))
    ensures !Present(r.container) ==> row.container.None? && row.rawQty.None?
    ensures row.qty.None? && row.transType.None? && row.location.None?
  {
    var q := r.qty.GetOr(1);
    Row(Some(r.date.GetOr(today)), r.item, None, None, None, Some(r.batch.GetOr(1)), r.notesExtra,
        if Present(r.container) then r.container else None,
        if Present(r.container) then Some(q) else None)
  }

  /** A record for which `_item_to_rows` writes a double entry. */
  predicate IsTransfer(cfg: Config, r: Record) {
    !IsNonZeroSum(cfg, r.transType) && Present(r.location) && r.location.value != cfg.defaultSource
  }

  /** `_item_to_rows(item, config, today)`. */
  function ItemToRows(cfg: Config, r: Record, today: Date): (rows: seq<Row>)
    ensures |rows| == if IsTransfer(cfg, r) then 2 else 1
    ensures forall k :: 0 <= k < |rows| ==>
              rows[k] == BaseRow(r, today).(qty := rows[k].qty, transType := rows[k].transType, location := rows[k].location)
    // Double entry: the two rows balance, and the location the record names is the
    // giving side when its direction is "from" and the receiving side otherwise.
    ensures |rows| == 2 ==>
              rows[0].qty == Some(-Abs(r.qty.GetOr(1))) && rows[1].qty == Some(Abs(r.qty.GetOr(1))) &&
              rows[0].transType == rows[1].transType &&
              rows[0].transType == (if Present(r.transType) then r.transType else Some(cfg.defaultTransferType)) &&
              (r.direction == Some("from") ==> rows[0].location == r.location && rows[1].location == Some(cfg.defaultSource)) &&
              (r.direction != Some("from") ==> rows[0].location == Some(cfg.defaultSource) && rows[1].location == r.location)
    // Types outside double entry: one row at the named location or the default source.
    ensures IsNonZeroSum(cfg, r.transType) ==>
              rows == [rows[0].(qty := Some(r.qty.GetOr(1)), transType := r.transType,
                                location := Some(if Present(r.location) then r.location.value else cfg.defaultSource))]
    // Receiving at the default source: one positive row.
    ensures !IsNonZeroSum(cfg, r.transType) && Present(r.location) && r.location.value == cfg.defaultSource ==>
              rows[0].qty == Some(Abs(r.qty.GetOr(1))) && rows[0].transType == r.transType && rows[0].location == Some(cfg.defaultSource)
    // No location: one row with the quantity as given and no location.
    ensures !IsNonZeroSum(cfg, r.transType) && !Present(r.location) ==>
              rows[0].qty == Some(r.qty.GetOr(1)) && rows[0].transType == r.transType && rows[0].location.None?
  {
    var q := r.qty.GetOr(1);
    var base := BaseRow(r, today);
    var src := cfg.defaultSource;
    if IsNonZeroSum(cfg, r.transType) then
      [base.(qty := Some(q), transType := r.transType, location := Some(if Present(r.location) then r.location.value else src))]
    else if Present(r.location) && r.location.value != src then
      var tt := if Present(r.transType) then r.transType else Some(cfg.defaultTransferType);
      if r.direction == Some("from") then
        [base.(qty := Some(-Abs(q)), transType := tt, location := r.location),
         base.(qty := Some(Abs(q)), transType := tt, location := Some(src))]
      else
        [base.(qty := Some(-Abs(q)), transType := tt, location := Some(src)),
         base.(qty := Some(Abs(q)), transType := tt, location := r.location)]
    else if Present(r.location) && r.location.value == src then
      [base.(qty := Some(Abs(q)), transType := r.transType, location := Some(src))]
    else
      [base.(qty := Some(q), transType := r.transType, location := None)]
  }

  /** The rows of several records, in order (`result.rows.extend(...)`). */
  function AllRows(cfg: Config, rs: seq<Record>, today: Date): (rows: seq<Row>)
    ensures |rs| <= |rows| <= 2 * |rs|
    decreases |rs|
  {
    if rs == [] then []
    else AllRows(cfg, rs[..|rs| - 1], today) + ItemToRows(cfg, rs[|rs| - 1], today)
  }

  /** Every row comes from one of the records: it carries that record's item, batch
      and date (or today). */
  lemma {:induction false} AllRowsFrom(cfg: Config, rs: seq<Record>, today: Date, k: nat)
    requires k < |AllRows(cfg, rs, today)|
    ensures exists j :: 0 <= j < |rs| &&
              AllRows(cfg, rs, today)[k].invType == rs[j].item &&
              AllRows(cfg, rs, today)[k].batch == Some(rs[j].batch.GetOr(1)) &&
              AllRows(cfg, rs, today)[k].date == Some(rs[j].date.GetOr(today))
    decreases |rs|
  {
    var init := rs[..|rs| - 1];
    var n := |AllRows(cfg, init, today)|;
    if k < n {
      AllRowsFrom(cfg, init, today, k);
      var j :| 0 <= j < |init| &&
               AllRows(cfg, init, today)[k].invType == init[j].item &&
               AllRows(cfg, init, today)[k].batch == Some(init[j].batch.GetOr(1)) &&
               AllRows(cfg, init, today)[k].date == Some(init[j].date.GetOr(today));
      assert rs[j] == init[j];
    } else {
      assert AllRows(cfg, rs, today)[k] == ItemToRows(cfg, rs[|rs| - 1], today)[k - n];
    }
  }
}
