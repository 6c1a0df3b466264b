/** `_broadcast_context`: location (with its direction), transaction type and date
    stated on one line carry over to the records that do not state their own. A forward
    pass gives each record the most recent value stated at or before it; a second pass
    gives whatever is still missing the last value present anywhere in the message. */
module Broadcasting {
  import opened Wrappers
  import opened Calendar
  import opened Configuration
  import opened Records

  /** The values carried along: `ctx_loc`, `ctx_dir`, `ctx_type`, `ctx_date` (and the
      `last_*` values of the second pass). */
  datatype Context = Context(location: Option<string>, direction: Option<string>, transType: Option<string>, date: Option<Date>)

  const NoContext := Context(None, None, None, None)

  /** The context after looking at `r`: each value it states replaces the carried one. */
  function Seen(c: Context, r: Record): (c': Context)
    ensures Present(r.location) ==> c'.location == r.location && c'.direction == r.direction
    ensures !Present(r.location) ==> c'.location == c.location && c'.direction == c.direction
    ensures c'.transType == if Present(r.transType) then r.transType else c.transType
    ensures c'.date == if r.date.Some? then r.date else c.date
  {
    Context(if Present(r.location) then r.location else c.location,
            if Present(r.location) then r.direction else c.direction,
            if Present(r.transType) then r.transType else c.transType,
            if r.date.Some? then r.date else c.date)
  }

  /** `r` with each value it lacks taken from `c`, when `c` has one. Nothing `r` states
      is overwritten, and location and direction are only ever taken together. */
  function Fill(r: Record, c: Context): (r': Record)
    ensures r' == r.(location := r'.location, direction := r'.direction, transType := r'.transType, date := r'.date)
    ensures Present(r.location) || !Present(c.location) ==> r'.location == r.location && r'.direction == r.direction
    ensures !Present(r.location) && Present(c.location) ==> r'.location == c.location && r'.direction == c.direction
    ensures r'.transType == if !Present(r.transType) && Present(c.transType) then c.transType else r.transType
    ensures r'.date == if r.date.None? && c.date.Some? then c.date else r.date
  {
    var r1 := if !Present(r.location) && Present(c.location) then r.(location := c.location, direction := c.direction) else r;
    var r2 := if !Present(r1.transType) && Present(c.transType) then r1.(transType := c.transType) else r1;
    if r2.date.None? && c.date.Some? then r2.(date := c.date) else r2
  }

  /** The context after the first `k` records. */
  function CtxAfter(rs: seq<Record>, k: nat): Context
    requires k <= |rs|
  {
    if k == 0 then NoContext else Seen(CtxAfter(rs, k - 1), rs[k - 1])
  }

  /** The forward pass: each record filled from the context that includes itself. */
  function ForwardFill(rs: seq<Record>): (f: seq<Record>)
    ensures |f| == |rs|
  {
    seq(|rs|, k requires 0 <= k < |rs| => Fill(rs[k], CtxAfter(rs, k + 1)))
  }

  /** `_broadcast_context(items)` as a function of the records. */
  function Broadcast(rs: seq<Record>): (b: seq<Record>)
    ensures |b| == |rs|
  {
    var f := ForwardFill(rs);
    var last := CtxAfter(f, |f|);
    seq(|f|, k requires 0 <= k < |f| => Fill(f[k], last))
  }

  /** The first loop of `_broadcast_context`: the forward pass, in place. */
  method ForwardPass(items: array<Record>)
    modifies items
    ensures items[..] == ForwardFill(old(items[..]))
  {
    ghost var orig := items[..];
    ghost var ff := ForwardFill(orig);
    var ctx := NoContext;
    var i := 0;
    while i < items.Length
      invariant 0 <= i <= items.Length
      invariant ctx == CtxAfter(orig, i)
      invariant forall j :: 0 <= j < i ==> items[j] == ff[j]
      invariant forall j :: i <= j < items.Length ==> items[j] == orig[j]
    {
      ctx := Seen(ctx, items[i]);
      items[i] := Fill(items[i], ctx);
      i := i + 1;
    }
  }

  /** The second loop: the last value of each kind present anywhere. */
  method LastContext(items: array<Record>) returns (last: Context)
    ensures last == CtxAfter(items[..], items.Length)
  {
    last := NoContext;
    var i := 0;
    while i < items.Length
      invariant 0 <= i <= items.Length
      invariant last == CtxAfter(items[..], i)
    {
      last := Seen(last, items[i]);
      i := i + 1;
    }
  }

  /** The third loop: every record filled from `last`, in place. */
  method FillAll(items: array<Record>, last: Context)
    modifies items
    ensures forall j :: 0 <= j < items.Length ==> items[j] == Fill(old(items[j]), last)
  {
    var i := 0;
    while i < items.Length
      invariant 0 <= i <= items.Length
      invariant forall j :: 0 <= j < i ==> items[j] == Fill(old(items[j]), last)
      invariant forall j :: i <= j < items.Length ==> items[j] == old(items[j])
    {
      items[i] := Fill(items[i], last);
      i := i + 1;
    }
  }

  /** `_broadcast_context(items)`: the records are filled in place. */
  method BroadcastContext(items: array<Record>)
    modifies items
    ensures items[..] == Broadcast(old(items[..]))
  {
    ghost var orig := items[..];
    ForwardPass(items);
    ghost var f := items[..];
    var last := LastContext(items);
    FillAll(items, last);
    assert items[..] == Broadcast(orig);
  }

  /** Broadcasting only fills gaps: a stated location (with its direction), type or date
      is never replaced, and no other field changes. */
  lemma BroadcastKeeps(rs: seq<Record>, k: nat)
    requires k < |rs|
    ensures var b := Broadcast(rs)[k];
            b == rs[k].(location := b.location, direction := b.direction, transType := b.transType, date := b.date) &&
            (Present(rs[k].location) ==> b.location == rs[k].location && b.direction == rs[k].direction) &&
            (Present(rs[k].transType) ==> b.transType == rs[k].transType) &&
            (rs[k].date.Some? ==> b.date == rs[k].date)
  {
  }

  /** The carried location is either absent or a stated one, with the direction stated
      beside it. */
  ghost predicate StatedPair(rs: seq<Record>, loc: Option<string>, dir: Option<string>) {
    exists j :: 0 <= j < |rs| && Present(rs[j].location) && rs[j].location == loc && rs[j].direction == dir
  }

  lemma {:induction false} CtxAfterStated(rs: seq<Record>, k: nat)
    requires k <= |rs|
    ensures var c := CtxAfter(rs, k);
            (c.location.None? && c.direction.None?) || StatedPair(rs, c.location, c.direction)
    ensures Present(CtxAfter(rs, k).transType) || CtxAfter(rs, k).transType.None?
  {
    if k > 0 {
      CtxAfterStated(rs, k - 1);
    }
  }

  /** Once some record among the first `k` states a value, the context has one. */
  lemma {:induction false} CtxAfterHas(rs: seq<Record>, k: nat, j: nat)
    requires j < k <= |rs|
    ensures Present(rs[j].location) ==> Present(CtxAfter(rs, k).location)
    ensures Present(rs[j].transType) ==> Present(CtxAfter(rs, k).transType)
    ensures rs[j].date.Some? ==> CtxAfter(rs, k).date.Some?
  {
    CtxAfterStated(rs, k);
    if j < k - 1 {
      CtxAfterHas(rs, k - 1, j);
      CtxAfterStated(rs, k - 1);
    }
  }

  /** The record at `k` after both passes, named step by step. */
  lemma BroadcastAt(rs: seq<Record>, k: nat)
    requires k < |rs|
    ensures ForwardFill(rs)[k] == Fill(rs[k], CtxAfter(rs, k + 1))
    ensures Broadcast(rs)[k] == Fill(ForwardFill(rs)[k], CtxAfter(ForwardFill(rs), |rs|))
  {
  }

  /** Location, direction, type and date: if any line of the message states one, every
      record ends up with one. */
  lemma BroadcastTotal(rs: seq<Record>, j: nat, k: nat)
    requires j < |rs| && k < |rs|
    ensures Present(rs[j].location) ==> Present(Broadcast(rs)[k].location)
    ensures Present(rs[j].transType) ==> Present(Broadcast(rs)[k].transType)
    ensures rs[j].date.Some? ==> Broadcast(rs)[k].date.Some?
  {
    var f := ForwardFill(rs);
    BroadcastAt(rs, j);
    BroadcastAt(rs, k);
    CtxAfterHas(rs, j + 1, j);
    CtxAfterHas(f, |f|, j);
  }

  /** A location the forward pass gives a record is one some line stated, with the
      direction stated beside it. */
  lemma ForwardPairStated(rs: seq<Record>, j: nat)
    requires j < |rs|
    ensures var fj := ForwardFill(rs)[j];
            (fj.location == rs[j].location && fj.direction == rs[j].direction) || StatedPair(rs, fj.location, fj.direction)
  {
    BroadcastAt(rs, j);
    CtxAfterStated(rs, j + 1);
  }

  /** Every location a record ends up with is one some line stated, with the direction
      stated on that same line. */
  lemma BroadcastPairsStated(rs: seq<Record>, k: nat)
    requires k < |rs|
    ensures var b := Broadcast(rs)[k];
            (b.location == rs[k].location && b.direction == rs[k].direction) || StatedPair(rs, b.location, b.direction)
  {
    var f := ForwardFill(rs);
    var last := CtxAfter(f, |f|);
    BroadcastAt(rs, k);
    ForwardPairStated(rs, k);
    CtxAfterStated(f, |f|);
    if Present(last.location) && !Present(f[k].location) {
      var j :| 0 <= j < |f| && Present(f[j].location) && f[j].location == last.location && f[j].direction == last.direction;
      ForwardPairStated(rs, j);
    }
  }

  /** The forward pass: a record without a location takes the nearest one stated at or
      before it. */
  lemma {:induction false} CtxAfterNearest(rs: seq<Record>, j: nat, k: nat)
    requires j < k <= |rs| && Present(rs[j].location)
    requires forall m :: j < m < k ==> !Present(rs[m].location)
    ensures CtxAfter(rs, k).location == rs[j].location && CtxAfter(rs, k).direction == rs[j].direction
  {
    if k - 1 > j {
      CtxAfterNearest(rs, j, k - 1);
    }
  }

  lemma {:induction false} CtxAfterNone(rs: seq<Record>, k: nat)
    requires k <= |rs|
    requires forall m :: 0 <= m < k ==> !Present(rs[m].location)
    ensures CtxAfter(rs, k).location.None?
  {
    if k > 0 {
      CtxAfterNone(rs, k - 1);
    }
  }

  lemma BroadcastNearestBefore(rs: seq<Record>, j: nat, k: nat)
    requires j <= k < |rs| && Present(rs[j].location)
    requires forall m :: j < m <= k ==> !Present(rs[m].location)
    ensures Broadcast(rs)[k].location == rs[j].location && Broadcast(rs)[k].direction == rs[j].direction
  {
    CtxAfterNearest(rs, j, k + 1);
  }

  /** The second pass: a record before the first stated location takes the LAST
      location of the message, not the nearest one after it. */
  lemma BroadcastLeading(rs: seq<Record>, j: nat, k: nat)
    requires k < j < |rs| && Present(rs[j].location)
    requires forall m :: 0 <= m <= k ==> !Present(rs[m].location)
    requires forall m :: j < m < |rs| ==> !Present(rs[m].location)
    ensures Broadcast(rs)[k].location == rs[j].location && Broadcast(rs)[k].direction == rs[j].direction
  {
    var f := ForwardFill(rs);
    var n := |rs|;
    CtxAfterNone(rs, k + 1);
    CtxAfterNearest(rs, j, n);
    assert f[n - 1].location == rs[j].location && f[n - 1].direction == rs[j].direction;
  }

  /** Broadcasting keeps every record sound. */
  lemma BroadcastSound(cfg: Config, rs: seq<Record>)
    requires AllSound(cfg, rs)
    ensures AllSound(cfg, Broadcast(rs))
  {
    forall k | 0 <= k < |rs|
      ensures Sound(cfg, Broadcast(rs)[k])
    {
      BroadcastPairsStated(rs, k);
      BroadcastDateStated(rs, k);
      assert Sound(cfg, rs[k]);
    }
  }

  lemma {:induction false} CtxAfterDate(rs: seq<Record>, k: nat)
    requires k <= |rs|
    ensures CtxAfter(rs, k).date.None? || exists j :: 0 <= j < k && rs[j].date == CtxAfter(rs, k).date
  {
    if k > 0 {
      CtxAfterDate(rs, k - 1);
    }
  }

  /** Every date a record ends up with is one some line stated. */
  lemma BroadcastDateStated(rs: seq<Record>, k: nat)
    requires k < |rs|
    ensures var b := Broadcast(rs)[k];
            b.date == rs[k].date || exists j :: 0 <= j < |rs| && rs[j].date == b.date
  {
    var f := ForwardFill(rs);
    var last := CtxAfter(f, |f|);
    BroadcastAt(rs, k);
    CtxAfterDate(rs, k + 1);
    CtxAfterDate(f, |f|);
    if last.date.Some? && f[k].date.None? {
      var j :| 0 <= j < |f| && f[j].date == last.date;
      BroadcastAt(rs, j);
      CtxAfterDate(rs, j + 1);
    }
  }
}
