/** Double-entry partners in the row editor: `find_partner` and `update_partner`. The
    partner of a row is a row of the same batch and item whose quantity has the
    opposite sign; editing one side of a pair carries the edit over to the other. */
module Partners {
  import opened Wrappers
  import opened Calendar
  import opened Configuration
  import opened Records
  import opened RowGeneration

  /** `other` can be the partner of `row`: same batch and item, opposite sign. */
  predicate Opposes(row: Row, other: Row) {
    row.batch.Some? && row.invType.Some? && row.qty.Some? &&
    other.batch == row.batch && other.invType == row.invType &&
    other.qty.Some? && other.qty.value * row.qty.value < 0
  }

  /** The search of `find_partner` from position `i`. */
  function PartnerFrom(rows: seq<Row>, idx: nat, i: nat): (r: Option<nat>)
    requires idx < |rows|
    ensures r.Some? ==> i <= r.value < |rows| && r.value != idx && Opposes(rows[idx], rows[r.value])
    ensures r.Some? ==> forall j :: i <= j < r.value && j != idx ==> !Opposes(rows[idx], rows[j])
    ensures r.None? ==> forall j :: i <= j < |rows| && j != idx ==> !Opposes(rows[idx], rows[j])
    decreases |rows| - i
  {
    if i >= |rows| then None
    else if i != idx && Opposes(rows[idx], rows[i]) then Some(i)
    else PartnerFrom(rows, idx, i + 1)
  }

  /** `find_partner(rows, idx)`: the first row, other than `idx`, that opposes it; none
      when the row lacks a batch, item or quantity, or its quantity is 0. */
  function PartnerOf(rows: seq<Row>, idx: nat): (r: Option<nat>)
    requires idx < |rows|
    ensures r.Some? ==> r.value < |rows| && r.value != idx && Opposes(rows[idx], rows[r.value])
    ensures r.Some? ==> forall j :: 0 <= j < r.value && j != idx ==> !Opposes(rows[idx], rows[j])
    ensures r.None? <==> forall j :: 0 <= j < |rows| && j != idx ==> !Opposes(rows[idx], rows[j])
  {
    var row := rows[idx];
    if row.batch.None? || row.invType.None? || row.qty.None? || row.qty.value == 0 then None
    else PartnerFrom(rows, idx, 0)
  }

  /** `find_partner(rows, idx)`. */
  method FindPartner(rows: seq<Row>, idx: nat) returns (r: Option<nat>)
    requires idx < |rows|
    ensures r == PartnerOf(rows, idx)
  {
    var row := rows[idx];
    if row.batch.None? || row.invType.None? || row.qty.None? || row.qty.value == 0 {
      return None;
    }
    var i := 0;
    while i < |rows|
      invariant i <= |rows|
      invariant PartnerFrom(rows, idx, i) == PartnerFrom(rows, idx, 0)
    {
      if i != idx && Opposes(row, rows[i]) {
        return Some(i);
      }
      i := i + 1;
    }
    return None;
  }

  /** A row of zero quantity, or one missing its batch, item or quantity, has no
      partner. */
  lemma NoPartnerWithoutKeys(rows: seq<Row>, idx: nat)
    requires idx < |rows|
    requires rows[idx].batch.None? || rows[idx].invType.None? || rows[idx].qty.None? || rows[idx].qty == Some(0)
    ensures PartnerOf(rows, idx).None?
  {
  }

  /** Two rows that are the only opposing rows of their batch and item are each
      other's partner. */
  lemma PairIsMutual(rows: seq<Row>, a: nat, b: nat)
    requires a < |rows| && b < |rows| && a != b && Opposes(rows[a], rows[b])
    requires forall j :: 0 <= j < |rows| && j != a && j != b ==> !Opposes(rows[a], rows[j]) && !Opposes(rows[b], rows[j])
    ensures PartnerOf(rows, a) == Some(b) && PartnerOf(rows, b) == Some(a)
  {
    assert rows[b].qty.value * rows[a].qty.value == rows[a].qty.value * rows[b].qty.value;
    assert Opposes(rows[b], rows[a]);
  }

  /** The two rows `_item_to_rows` writes for a transfer of a non-zero quantity are
      each other's partner. */
  lemma TransferRowsArePartners(cfg: Config, r: Record, today: Date)
    requires IsTransfer(cfg, r) && r.HasItem() && r.qty.GetOr(1) != 0
    ensures PartnerOf(ItemToRows(cfg, r, today), 0) == Some(1)
    ensures PartnerOf(ItemToRows(cfg, r, today), 1) == Some(0)
  {
    var rows := ItemToRows(cfg, r, today);
    var q := Abs(r.qty.GetOr(1));
    assert rows[0].qty == Some(-q) && rows[1].qty == Some(q);
    assert q * -q < 0 by {
      assert q > 0;
    }
    assert Opposes(rows[0], rows[1]);
    PairIsMutual(rows, 0, 1);
  }

  /** The edits `update_partner` distinguishes, each with the new value. A quantity
      the editor could not evaluate is `None`; an edit of any other field is `Other`. */
  datatype Edit =
    | SetInvType(invType: Option<string>)
    | SetDate(date: Option<Date>)
    | SetTransType(transType: Option<string>)
    | SetBatch(batch: Option<int>)
    | SetQty(qty: Option<int>)
    | Other

  /** The partner row after the edit: the four shared fields are copied, a numeric
      quantity is negated, and nothing else changes. */
  function ApplyEdit(partner: Row, e: Edit): (p: Row)
    ensures p.location == partner.location && p.notes == partner.notes
    ensures p.container == partner.container && p.rawQty == partner.rawQty
    ensures e.SetQty? && e.qty.Some? ==> p == partner.(qty := Some(-e.qty.value))
    ensures e.SetInvType? ==> p == partner.(invType := e.invType)
    ensures e.SetDate? ==> p == partner.(date := e.date)
    ensures e.SetTransType? ==> p == partner.(transType := e.transType)
    ensures e.SetBatch? ==> p == partner.(batch := e.batch)
    ensures e.Other? || (e.SetQty? && e.qty.None?) ==> p == partner
  {
    match e
    case SetInvType(v) => partner.(invType := v)
    case SetDate(v) => partner.(date := v)
    case SetTransType(v) => partner.(transType := v)
    case SetBatch(v) => partner.(batch := v)
    case SetQty(v) => if v.Some? then partner.(qty := Some(-v.value)) else partner
    case Other => partner
  }

  /** The same edit applied to the edited row itself. */
  function ApplyOwn(row: Row, e: Edit): Row {
    match e
    case SetInvType(v) => row.(invType := v)
    case SetDate(v) => row.(date := v)
    case SetTransType(v) => row.(transType := v)
    case SetBatch(v) => row.(batch := v)
    case SetQty(v) => row.(qty := v)
    case Other => row
  }

  /** `update_partner(rows, idx, field, new_value)`: the partner, if any, is updated in
      place; no other row changes. */
  method UpdatePartner(rows: array<Row>, idx: nat, e: Edit)
    requires idx < rows.Length
    modifies rows
    ensures match PartnerOf(old(rows[..]), idx)
            case None => rows[..] == old(rows[..])
            case Some(j) => rows[..] == old(rows[..])[j := ApplyEdit(old(rows[j]), e)]
  {
    var partner := FindPartner(rows[..], idx);
    if partner.None? {
      return;
    }
    var j := partner.value;
    rows[j] := ApplyEdit(rows[j], e);
  }

  /** Editing a row and carrying the edit over keeps the pair a pair: a shared field
      ends up equal on both sides, and a new non-zero quantity on one side is balanced
      by its negation on the other. */
  lemma EditKeepsPair(row: Row, partner: Row, e: Edit)
    requires Opposes(row, partner)
    requires e.SetBatch? ==> e.batch.Some?
    requires e.SetInvType? ==> e.invType.Some?
    requires e.SetQty? ==> e.qty.Some? && e.qty.value != 0
    ensures Opposes(ApplyOwn(row, e), ApplyEdit(partner, e))
    ensures e.SetQty? ==> ApplyOwn(row, e).qty.value + ApplyEdit(partner, e).qty.value == 0
  {
    if e.SetQty? {
      var v := e.qty.value;
      assert -v * v < 0 by {
        assert v * v > 0;
      }
    }
  }
}
