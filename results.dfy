/** `_generate_result` and `_is_note`: each merged record becomes ledger rows, a note,
    an unparseable line, or nothing (a line that only sets context). */
module Results {
  import opened Wrappers
  import opened Calendar
  import opened Configuration
  import opened Records
  import opened Batching
  import opened RowGeneration

  /** `ParseResult`. */
  datatype ParseResult = ParseResult(rows: seq<Row>, notes: seq<string>, unparseable: seq<string>)

  /** `[a-zA-Z\u0590-\u05FF]`: an ASCII letter or a character of the Hebrew block. */
  predicate IsLetter(c: char) {
    ('a' <= c <= 'z') || ('A' <= c <= 'Z') || ('\U{0590}' <= c <= '\U{05FF}')
  }

  function LetterCount(s: string): (n: nat)
    ensures n <= |s|
    ensures n == 0 <==> forall i :: 0 <= i < |s| ==> !IsLetter(s[i])
    ensures n == |s| <==> forall i :: 0 <= i < |s| ==> IsLetter(s[i])
  {
    if s == [] then 0
    else
      assert forall i :: 1 <= i < |s| ==> s[i] == s[1..][i - 1];
      (if IsLetter(s[0]) then 1 else 0) + LetterCount(s[1..])
  }

  /** `_is_note`: more than three letters in ten. The ratio `alpha / len(raw) > 0.3` is
      decided by the integer comparison `10 * alpha > 3 * len(raw)`. A line made only of
      letters is a note; a line without letters never is. */
  predicate IsNote(raw: string)
    ensures IsNote(raw) <==> raw != "" && (LetterCount(raw) as real) / (|raw| as real) > 0.3
    ensures (raw != "" && forall i :: 0 <= i < |raw| ==> IsLetter(raw[i])) ==> IsNote(raw)
    ensures (forall i :: 0 <= i < |raw| ==> !IsLetter(raw[i])) ==> !IsNote(raw)
  {
    RatioAboveThreeTenths(LetterCount(raw), |raw|);
    raw != "" && LetterCount(raw) > 0 && 10 * LetterCount(raw) > 3 * |raw|
  }

  /** `a / n > 0.3` over the reals is `10 * a > 3 * n`. */
  lemma RatioAboveThreeTenths(a: nat, n: nat)
    ensures n > 0 ==> ((a as real) / (n as real) > 0.3 <==> 10 * a > 3 * n)
  {
    if n > 0 {
      var r, q := n as real, (a as real) / (n as real);
      assert q * r == a as real;
      assert (q - 0.3) * r == a as real - 0.3 * r;
      if q > 0.3 {
        PositiveProduct(q - 0.3, r);
      } else {
        PositiveProduct(0.3 - q, r);
      }
    }
  }

  lemma PositiveProduct(x: real, y: real)
    requires x >= 0.0 && y > 0.0
    ensures x * y >= 0.0 && (x > 0.0 ==> x * y > 0.0)
  {
  }

  datatype Kind = Transaction | Unparseable | ContextLine | Note

  /** Where `_generate_result` sends a record. */
  function Classify(r: Record): (k: Kind)
    ensures k == Transaction <==> r.HasItem()
    ensures r.HasQty() && !r.HasItem() ==> k == Unparseable
    ensures k == ContextLine ==> !r.HasQty() && (Present(r.location) || Present(r.transType))
    ensures k == Note ==> !r.HasQty() && !r.HasItem() && IsNote(r.raw)
    ensures !r.HasQty() && !r.HasItem() && !Present(r.location) && !Present(r.transType) ==>
              k == (if IsNote(r.raw) then Note else Unparseable)
  {
    if r.HasItem() then Transaction
    else if r.HasQty() then Unparseable
    else if (Present(r.transType) && (Present(r.location) || r.date.Some?))
         || (Present(r.location) && r.date.Some?)
         || (Present(r.location) && !Present(r.unmatched)) then ContextLine
    else if IsNote(r.raw) then Note
    else Unparseable
  }

  /** The records that become rows, in order. */
  function Transactions(rs: seq<Record>): (ts: seq<Record>)
    ensures |ts| <= |rs|
    ensures forall k :: 0 <= k < |ts| ==> ts[k] in rs && ts[k].HasItem()
    decreases |rs|
  {
    if rs == [] then []
    else Transactions(rs[..|rs| - 1]) + (if rs[|rs| - 1].HasItem() then [rs[|rs| - 1]] else [])
  }

  /** The raw lines of the records of kind `k`, in order. */
  function RawsOf(rs: seq<Record>, k: Kind): seq<string>
    decreases |rs|
  {
    if rs == [] then []
    else RawsOf(rs[..|rs| - 1], k) + (if Classify(rs[|rs| - 1]) == k then [rs[|rs| - 1].raw] else [])
  }

  function CountOf(rs: seq<Record>, k: Kind): nat
    decreases |rs|
  {
    if rs == [] then 0
    else CountOf(rs[..|rs| - 1], k) + (if Classify(rs[|rs| - 1]) == k then 1 else 0)
  }

  /** Every record goes to exactly one place: the transactions, notes, unparseable
      lines and context lines together account for every record once. */
  lemma {:induction false} Partition(rs: seq<Record>)
    ensures |Transactions(rs)| == CountOf(rs, Transaction)
    ensures |RawsOf(rs, Note)| == CountOf(rs, Note) && |RawsOf(rs, Unparseable)| == CountOf(rs, Unparseable)
    ensures CountOf(rs, Transaction) + CountOf(rs, Note) + CountOf(rs, Unparseable) + CountOf(rs, ContextLine) == |rs|
    decreases |rs|
  {
    if rs != [] {
      Partition(rs[..|rs| - 1]);
    }
  }

  /** `_generate_result(items, config, today)` as a function of the records. */
  function GenerateSpec(cfg: Config, rs: seq<Record>, today: Date): ParseResult {
    ParseResult(AllRows(cfg, Assigned(Transactions(rs)), today), RawsOf(rs, Note), RawsOf(rs, Unparseable))
  }

  /** `_generate_result(items, config, today)`: classify the records, number the
      transactions into batches, and write their rows. */
  method GenerateResult(cfg: Config, items: seq<Record>, today: Date) returns (res: ParseResult)
    ensures res == GenerateSpec(cfg, items, today)
  {
    var trans: seq<Record> := [];
    var notes: seq<string> := [];
    var unparseable: seq<string> := [];
    for i := 0 to |items|
      invariant trans == Transactions(items[..i])
      invariant notes == RawsOf(items[..i], Note)
      invariant unparseable == RawsOf(items[..i], Unparseable)
    {
      var item := items[i];
      assert items[..i + 1][..i] == items[..i];
      if item.HasItem() {
        trans := trans + [item];
      } else if item.HasQty() {
        unparseable := unparseable + [item.raw];
      } else if (Present(item.transType) && (Present(item.location) || item.date.Some?))
                || (Present(item.location) && item.date.Some?)
                || (Present(item.location) && !Present(item.unmatched)) {
      } else if IsNote(item.raw) {
        notes := notes + [item.raw];
      } else {
        unparseable := unparseable + [item.raw];
      }
    }
    assert items[..|items|] == items;
    var batched := new Record[|trans|](k requires 0 <= k < |trans| => trans[k]);
    assert batched[..] == trans;
    AssignBatches(batched);
    var rows: seq<Row> := [];
    for i := 0 to batched.Length
      invariant rows == AllRows(cfg, batched[..i], today)
    {
      assert batched[..i + 1][..i] == batched[..i];
      rows := rows + ItemToRows(cfg, batched[i], today);
    }
    assert batched[..batched.Length] == batched[..];
    res := ParseResult(rows, notes, unparseable);
  }

  /** Every transaction record is sound when every record is. */
  lemma {:induction false} TransactionsSound(cfg: Config, rs: seq<Record>)
    requires AllSound(cfg, rs)
    ensures AllSound(cfg, Transactions(rs))
  {
    forall k | 0 <= k < |Transactions(rs)|
      ensures Sound(cfg, Transactions(rs)[k])
    {
      var t := Transactions(rs)[k];
      assert t in rs;
      var j :| 0 <= j < |rs| && rs[j] == t;
    }
  }

  /** Every row the parser writes names a configured item or alias target, has a
      calendar date and belongs to a batch numbered from 1. */
  lemma GeneratedRowsSound(cfg: Config, rs: seq<Record>, today: Date, k: nat)
    requires AllSound(cfg, rs) && ValidDate(today)
    requires k < |GenerateSpec(cfg, rs, today).rows|
    ensures var row := GenerateSpec(cfg, rs, today).rows[k];
            row.invType.Some? && KnownItem(cfg, row.invType.value) &&
            row.date.Some? && ValidDate(row.date.value) &&
            row.batch.Some? && row.batch.value >= 1
  {
    var ts := Transactions(rs);
    var a := Assigned(ts);
    TransactionsSound(cfg, rs);
    AssignedSound(cfg, ts);
    AllRowsFrom(cfg, a, today, k);
    var j :| 0 <= j < |a| &&
             AllRows(cfg, a, today)[k].invType == a[j].item &&
             AllRows(cfg, a, today)[k].batch == Some(a[j].batch.GetOr(1)) &&
             AllRows(cfg, a, today)[k].date == Some(a[j].date.GetOr(today));
    BatchBounds(ts, j);
    assert Sound(cfg, a[j]) && a[j].HasItem();
  }
}
