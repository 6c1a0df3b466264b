/** `_assign_batches`: transaction records are numbered into batches from 1; a new
    batch starts when a record's destination, or failing that its date, differs from
    the last one seen. A missing value (`None`) never starts a batch. */
module Batching {
  import opened Wrappers
  import opened Calendar
  import opened Configuration
  import opened Records

  /** `batch`, `prev_dest` and `prev_date` between iterations. */
  datatype BatchState = BatchState(batch: int, dest: Option<string>, date: Option<Date>)

  /** One iteration of the loop over `items[1:]`. */
  function Step(s: BatchState, r: Record): (s': BatchState)
    ensures s'.batch == s.batch || s'.batch == s.batch + 1
    ensures s'.batch == s.batch + 1 <==>
              (r.location.Some? && s.dest.Some? && r.location != s.dest) ||
              (r.date.Some? && s.date.Some? && r.date != s.date)
    ensures s'.dest == if r.location.Some? then r.location else s.dest
    ensures s'.date == if r.date.Some? then r.date else s.date
  {
    var b := if r.location.Some? && s.dest.Some? && r.location != s.dest then s.batch + 1
             else if r.date.Some? && s.date.Some? && r.date != s.date then s.batch + 1
             else s.batch;
    BatchState(b, if r.location.Some? then r.location else s.dest, if r.date.Some? then r.date else s.date)
  }

  /** The state once the first `k` records have their batch. */
  function StateAfter(rs: seq<Record>, k: nat): BatchState
    requires 1 <= k <= |rs|
  {
    if k == 1 then BatchState(1, rs[0].location, rs[0].date)
    else Step(StateAfter(rs, k - 1), rs[k - 1])
  }

  /** The batch of record `k`. */
  function BatchOf(rs: seq<Record>, k: nat): int
    requires k < |rs|
  {
    StateAfter(rs, k + 1).batch
  }

  /** The records with their batches. */
  function Assigned(rs: seq<Record>): (a: seq<Record>)
    ensures |a| == |rs|
    ensures forall k :: 0 <= k < |rs| ==> a[k] == rs[k].(batch := Some(BatchOf(rs, k)))
  {
    seq(|rs|, k requires 0 <= k < |rs| => rs[k].(batch := Some(BatchOf(rs, k))))
  }

  /** One iteration of the loop of `_assign_batches`: record `i` gets its batch and the
      state moves past it. */
  method AssignOne(items: array<Record>, i: nat, s: BatchState) returns (s': BatchState)
    requires i < items.Length
    modifies items
    ensures s' == Step(s, old(items[i]))
    ensures items[i] == old(items[i]).(batch := Some(s'.batch))
    ensures forall j :: 0 <= j < items.Length && j != i ==> items[j] == old(items[j])
  {
    var batch := s.batch;
    var dest := items[i].location;
    var dt := items[i].date;
    if dest.Some? && s.dest.Some? && dest != s.dest {
      batch := batch + 1;
    } else if dt.Some? && s.date.Some? && dt != s.date {
      batch := batch + 1;
    }
    items[i] := items[i].(batch := Some(batch));
    s' := BatchState(batch, if dest.Some? then dest else s.dest, if dt.Some? then dt else s.date);
  }

  /** `_assign_batches(items)`: each record gets its batch in place. */
  method AssignBatches(items: array<Record>)
    modifies items
    ensures items[..] == Assigned(old(items[..]))
  {
    if items.Length == 0 {
      return;
    }
    ghost var orig := items[..];
    ghost var a := Assigned(orig);
    var s := BatchState(1, items[0].location, items[0].date);
    items[0] := items[0].(batch := Some(s.batch));
    var i := 1;
    while i < items.Length
      invariant 1 <= i <= items.Length
      invariant s == StateAfter(orig, i)
      invariant forall j :: 0 <= j < i ==> items[j] == a[j]
      invariant forall j :: i <= j < items.Length ==> items[j] == orig[j]
    {
      s := AssignOne(items, i, s);
      i := i + 1;
    }
    assert items[..] == a;
  }

  /** Batches start at 1, never decrease, and grow by at most one per record. */
  lemma {:induction false} BatchBounds(rs: seq<Record>, k: nat)
    requires k < |rs|
    ensures BatchOf(rs, 0) == 1
    ensures 1 <= BatchOf(rs, k) <= k + 1
    ensures k > 0 ==> BatchOf(rs, k) - BatchOf(rs, k - 1) in {0, 1}
  {
    if k > 0 {
      BatchBounds(rs, k - 1);
    }
  }

  /** The destination and date a record is compared with: the last ones stated before
      it, skipping records that state none. */
  lemma {:induction false} StateRemembers(rs: seq<Record>, j: nat, k: nat)
    requires j < k <= |rs|
    ensures rs[j].location.Some? && (forall m :: j < m < k ==> rs[m].location.None?) ==> StateAfter(rs, k).dest == rs[j].location
    ensures rs[j].date.Some? && (forall m :: j < m < k ==> rs[m].date.None?) ==> StateAfter(rs, k).date == rs[j].date
  {
    if k - 1 > j {
      StateRemembers(rs, j, k - 1);
    }
  }

  /** A message that names one destination and one date throughout (records may leave
      either out) is a single batch. */
  lemma {:induction false} OneDestinationOneBatch(rs: seq<Record>, dest: string, d: Date, k: nat)
    requires k < |rs|
    requires forall m :: 0 <= m < |rs| ==> rs[m].location in {None, Some(dest)}
    requires forall m :: 0 <= m < |rs| ==> rs[m].date in {None, Some(d)}
    ensures BatchOf(rs, k) == 1
    ensures StateAfter(rs, k + 1).dest in {None, Some(dest)} && StateAfter(rs, k + 1).date in {None, Some(d)}
  {
    if k > 0 {
      OneDestinationOneBatch(rs, dest, d, k - 1);
    }
  }

  /** A record that states neither destination nor date stays in the batch before it. */
  lemma NoValuesSameBatch(rs: seq<Record>, k: nat)
    requires 0 < k < |rs| && rs[k].location.None? && rs[k].date.None?
    ensures BatchOf(rs, k) == BatchOf(rs, k - 1)
  {
  }

  /** Batching keeps every record sound. */
  lemma AssignedSound(cfg: Config, rs: seq<Record>)
    requires AllSound(cfg, rs)
    ensures AllSound(cfg, Assigned(rs))
  {
    assert forall k :: 0 <= k < |rs| ==> Sound(cfg, rs[k]);
  }
}
