/** Row formatting for the editor and the clipboard: `format_date`, `format_qty`,
    `_format_cell`, `format_rows_for_clipboard` and `row_has_warning`. */
module Formatting {
  import opened Wrappers
  import opened Text
  import opened Calendar
  import opened Configuration
  import opened Records
  import opened RowGeneration

  /** `format_date(d)`: `YYYY-MM-DD` for a date, `???` for none. */
  function FormatDate(d: Option<Date>): (s: string)
    requires d.Some? ==> ValidDate(d.value)
    ensures d.None? ==> s == "???"
    ensures d.Some? ==> |s| == 10 && s[4] == '-' && s[7] == '-'
  {
    match d
    case None => "???"
    case Some(v) =>
      NatToStringLength(v.year, 4);
      NatToStringLength(v.month, 2);
      NatToStringLength(v.day, 2);
      ZeroPad(NatToString(v.year), 4) + "-" + ZeroPad(NatToString(v.month), 2) + "-" + ZeroPad(NatToString(v.day), 2)
  }

  /** `format_qty(q)`: the number, or `???` when there is none. */
  function FormatQty(q: Option<int>): (s: string)
    ensures s != []
    ensures q.None? <==> s == "???"
  {
    match q
    case None => "???"
    case Some(n) =>
      assert IntToString(n)[0] != '?' by {
        if n >= 0 {
          assert IsDigit(NatToString(n)[0]);
        }
      }
      IntToString(n)
  }

  /** `_format_cell(row, field)`. The value is `None` where the source would put a
      number into the tab-joined line (`_raw_qty`), which `str.join` rejects. */
  function FormatCell(row: Row, field: string): (cell: Option<string>)
    requires row.date.Some? ==> ValidDate(row.date.value)
    ensures cell.None? <==> field == "_raw_qty" && row.rawQty.Some?
    ensures field == "date" ==> cell == Some(FormatDate(row.date))
    ensures field == "notes" ==> cell == Some(if Present(row.notes) then row.notes.value else "")
  {
    if field == "date" then Some(FormatDate(row.date))
    else if field == "qty" then
      var q := FormatQty(row.qty);
      Some(if Present(row.container) then q + " [" + row.container.value + "?]" else q)
    else if field == "batch" then Some(if row.batch.Some? then IntToString(row.batch.value) else "")
    else if field == "notes" then Some(if Present(row.notes) then row.notes.value else "")
    else
      var v := StringField(row, field);
      if field == "_raw_qty" && row.rawQty.Some? then None
      else Some(if v.Some? then v.value else "???")
  }

  /** `row.get(field)` for the string fields; `None` for names the row does not have. */
  function StringField(row: Row, field: string): Option<string> {
    if field == "inv_type" then row.invType
    else if field == "trans_type" then row.transType
    else if field == "vehicle_sub_unit" then row.location
    else if field == "_container" then row.container
    else None
  }

  predicate RowDatesValid(rows: seq<Row>) {
    forall k :: 0 <= k < |rows| ==> rows[k].date.Some? ==> ValidDate(rows[k].date.value)
  }

  /** The cells of one row, in field order. */
  function Cells(row: Row, fields: seq<string>): (cells: Option<seq<string>>)
    requires row.date.Some? ==> ValidDate(row.date.value)
    ensures cells.Some? ==> |cells.value| == |fields|
    ensures cells.Some? ==> forall k :: 0 <= k < |fields| ==> FormatCell(row, fields[k]) == Some(cells.value[k])
    ensures cells.None? ==> exists k :: 0 <= k < |fields| && FormatCell(row, fields[k]).None?
    decreases |fields|
  {
    if fields == [] then Some([])
    else
      match FormatCell(row, fields[0])
      case None => None
      case Some(c) =>
        match Cells(row, fields[1..])
        case None => None
        case Some(rest) => Some([c] + rest)
  }

  /** The tab-joined line of every row. */
  function Lines(rows: seq<Row>, fields: seq<string>): (ls: Option<seq<string>>)
    requires RowDatesValid(rows)
    ensures ls.Some? ==> |ls.value| == |rows|
    ensures ls.Some? ==> forall k :: 0 <= k < |rows| ==> Cells(rows[k], fields).Some? && ls.value[k] == Join(Cells(rows[k], fields).value, "\t")
    ensures ls.None? ==> exists k :: 0 <= k < |rows| && Cells(rows[k], fields).None?
    decreases |rows|
  {
    if rows == [] then Some([])
    else
      match Cells(rows[0], fields)
      case None => None
      case Some(cs) =>
        match Lines(rows[1..], fields)
        case None => None
        case Some(rest) => Some([Join(cs, "\t")] + rest)
  }

  /** `format_rows_for_clipboard(rows, config)`: one tab-separated line per row, no
      header; `None` where `str.join` would reject a cell. */
  function FormatRowsForClipboard(rows: seq<Row>, cfg: Config): (r: Option<string>)
    requires RowDatesValid(rows)
    ensures rows == [] ==> r == Some("")
    ensures r.None? <==> exists k :: 0 <= k < |rows| && Cells(rows[k], cfg.fieldOrder).None?
  {
    if rows == [] then Some("")
    else
      match Lines(rows, cfg.fieldOrder)
      case None => None
      case Some(ls) => Some(Join(ls, "\n"))
  }

  /** No tab or newline in any cell of any row. */
  predicate PlainCells(rows: seq<Row>, fields: seq<string>)
    requires RowDatesValid(rows)
  {
    forall k, f :: 0 <= k < |rows| && 0 <= f < |fields| && FormatCell(rows[k], fields[f]).Some? ==>
      '\t' !in FormatCell(rows[k], fields[f]).value && '\n' !in FormatCell(rows[k], fields[f]).value
  }

  lemma {:induction false} JoinWithout(ws: seq<string>, sep: char, c: char)
    requires c != sep && forall k :: 0 <= k < |ws| ==> c !in ws[k]
    ensures c !in Join(ws, [sep])
    decreases |ws|
  {
    if |ws| > 1 {
      JoinWithout(ws[1..], sep, c);
    }
  }

  /** The clipboard text reads back: split on newlines it gives one line per row, and
      each line split on tabs gives that row's cells, as long as no cell holds a tab or
      a newline and there is at least one field. */
  lemma ClipboardReadsBack(rows: seq<Row>, cfg: Config)
    requires RowDatesValid(rows) && rows != [] && cfg.fieldOrder != []
    requires PlainCells(rows, cfg.fieldOrder)
    requires FormatRowsForClipboard(rows, cfg).Some?
    ensures var parts := SplitOn(FormatRowsForClipboard(rows, cfg).value, '\n');
            |parts| == |rows| &&
            forall k :: 0 <= k < |rows| ==> Some(SplitOn(parts[k], '\t')) == Cells(rows[k], cfg.fieldOrder)
  {
    var fields := cfg.fieldOrder;
    var ls := Lines(rows, fields).value;
    forall k | 0 <= k < |rows|
      ensures '\n' !in ls[k] && SplitOn(ls[k], '\t') == Cells(rows[k], fields).value
    {
      var cs := Cells(rows[k], fields).value;
      forall f | 0 <= f < |cs|
        ensures '\t' !in cs[f] && '\n' !in cs[f]
      {
        assert FormatCell(rows[k], fields[f]) == Some(cs[f]);
      }
      JoinWithout(cs, '\t', '\n');
      SplitOnJoin(cs, '\t');
    }
    SplitOnJoin(ls, '\n');
  }

  /** `row.get(f) is None` for a field name. */
  predicate FieldMissing(row: Row, f: string) {
    if f == "date" then row.date.None?
    else if f == "inv_type" then row.invType.None?
    else if f == "qty" then row.qty.None?
    else if f == "trans_type" then row.transType.None?
    else if f == "vehicle_sub_unit" then row.location.None?
    else if f == "batch" then row.batch.None?
    else if f == "notes" then row.notes.None?
    else if f == "_container" then row.container.None?
    else if f == "_raw_qty" then row.rawQty.None?
    else true
  }

  /** `row_has_warning(row, config)`: a required field is missing. Without a config (or
      with an empty one) the required fields are the transaction type and location,
      which is also what the configuration falls back to. */
  predicate RowHasWarning(row: Row, cfg: Config): (w: bool)
    ensures cfg.requiredFields == DefaultRequiredFields ==> (w <==> row.transType.None? || row.location.None?)
    ensures cfg.requiredFields == [] ==> !w
    ensures "trans_type" in cfg.requiredFields && row.transType.None? ==> w
  {
    var req := cfg.requiredFields;
    assert req == DefaultRequiredFields ==> |req| == 2 && FieldMissing(row, req[0]) == row.transType.None? && FieldMissing(row, req[1]) == row.location.None?;
    exists i :: 0 <= i < |req| && FieldMissing(row, req[i])
  }

  /** The rows of a transfer never warn under the default required fields: both sides
      get a type (the default transfer type if none was said) and a location. */
  lemma TransferRowsComplete(cfg: Config, r: Record, today: Date, k: nat)
    requires IsTransfer(cfg, r) && k < 2
    ensures !RowHasWarning(ItemToRows(cfg, r, today)[k], EmptyConfig())
  {
  }
}
