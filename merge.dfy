/** `_merge_lines`: a quantity on one line and its item on the next become one record,
    and a line that only names a transaction type or a note amends the record before it. */
module Merging {
  import opened Wrappers
  import opened Configuration
  import opened Records
  import opened QuantityExtraction

  /** A line with a number but no item, and no leftover text that failed to match. */
  predicate QtyOnly(r: Record) {
    r.HasQty() && !r.HasItem() && !Present(r.unmatched)
  }

  /** A line with an item but no number. */
  predicate ItemOnly(r: Record) {
    r.HasItem() && !r.HasQty()
  }

  /** A line with neither number nor item that sets a type or a note, and is not a
      header naming a location. */
  predicate ContextOnly(r: Record) {
    !r.HasQty() && !r.HasItem() && (Present(r.transType) || Present(r.notesExtra)) && !Present(r.location)
  }

  /** The record of a quantity line followed by its item line: everything of the first,
      the item of the second, both raw lines, and the container converted when the item
      has a factor for it. */
  function Combine(cfg: Config, cur: Record, nxt: Record): (r: Record)
    requires QtyOnly(cur) && ItemOnly(nxt)
    ensures r.HasItem() && r.HasQty()
    ensures r.item == nxt.item && r.itemRaw == nxt.itemRaw && r.raw == cur.raw + "\n" + nxt.raw
    ensures r == cur.(item := nxt.item, itemRaw := nxt.itemRaw, raw := r.raw, qty := r.qty, container := r.container)
    ensures if Present(cur.container) && Factor(cfg, nxt.item.value, cur.container.value).Some?
            then r.container.None? && r.qty == Some(cur.qty.value * Factor(cfg, nxt.item.value, cur.container.value).value)
            else r.qty == cur.qty && r.container == cur.container
  {
    var c := cur.(item := nxt.item, itemRaw := nxt.itemRaw, raw := cur.raw + "\n" + nxt.raw);
    if Present(c.container) && Present(c.item) then
      match ConvertContainer(cfg, c.item.value, c.container.value, c.qty.value)
      case Some(v) => c.(qty := Some(v), container := None)
      case None => c
    else c
  }

  /** The record before a context line, amended: the type only when it has none, the
      note always. */
  function ApplyContext(prev: Record, cur: Record): (r: Record)
    ensures r == prev.(transType := r.transType, notesExtra := r.notesExtra)
    ensures Present(prev.transType) ==> r.transType == prev.transType
    ensures !Present(prev.transType) ==> r.transType == if Present(cur.transType) then cur.transType else prev.transType
    ensures r.notesExtra == if Present(cur.notesExtra) then cur.notesExtra else prev.notesExtra
  {
    var p1 := if Present(cur.transType) && !Present(prev.transType) then prev.(transType := cur.transType) else prev;
    if Present(cur.notesExtra) then p1.(notesExtra := cur.notesExtra) else p1
  }

  /** The loop of `_merge_lines` from position `i`, with `acc` merged so far. */
  function MergeFrom(cfg: Config, p: seq<Record>, i: nat, acc: seq<Record>): seq<Record>
    decreases |p| - i
  {
    if i >= |p| then acc
    else if QtyOnly(p[i]) && i + 1 < |p| && ItemOnly(p[i + 1]) then
      MergeFrom(cfg, p, i + 2, acc + [Combine(cfg, p[i], p[i + 1])])
    else if ContextOnly(p[i]) && acc != [] then
      MergeFrom(cfg, p, i + 1, acc[|acc| - 1 := ApplyContext(acc[|acc| - 1], p[i])])
    else
      MergeFrom(cfg, p, i + 1, acc + [p[i]])
  }

  function Merge(cfg: Config, p: seq<Record>): seq<Record> {
    MergeFrom(cfg, p, 0, [])
  }

  /** `_merge_lines(parsed, config)`. */
  method MergeLines(cfg: Config, parsed: seq<Record>) returns (merged: seq<Record>)
    ensures merged == Merge(cfg, parsed)
  {
    merged := [];
    var i := 0;
    while i < |parsed|
      invariant i <= |parsed|
      invariant MergeFrom(cfg, parsed, i, merged) == Merge(cfg, parsed)
      decreases |parsed| - i
    {
      var current := parsed[i];
      if QtyOnly(current) && i + 1 < |parsed| && ItemOnly(parsed[i + 1]) {
        merged := merged + [Combine(cfg, current, parsed[i + 1])];
        i := i + 2;
      } else if ContextOnly(current) && merged != [] {
        var prev := merged[|merged| - 1];
        merged := merged[|merged| - 1 := ApplyContext(prev, current)];
        i := i + 1;
      } else {
        merged := merged + [current];
        i := i + 1;
      }
    }
  }

  /** The item names of the records that have one, in order. */
  function Items(rs: seq<Record>): seq<string>
    decreases |rs|
  {
    if rs == [] then []
    else Items(rs[..|rs| - 1]) + (if rs[|rs| - 1].HasItem() then [rs[|rs| - 1].item.value] else [])
  }

  lemma {:induction false} ItemsAppend(a: seq<Record>, b: seq<Record>)
    ensures Items(a + b) == Items(a) + Items(b)
    decreases |b|
  {
    if b == [] {
      assert a + b == a;
    } else {
      var b' := b[..|b| - 1];
      assert (a + b)[..|a + b| - 1] == a + b';
      ItemsAppend(a, b');
    }
  }

  lemma ItemsSplit(p: seq<Record>, i: nat)
    requires i < |p|
    ensures Items(p[i..]) == Items([p[i]]) + Items(p[i + 1..])
  {
    assert p[i..] == [p[i]] + p[i + 1..];
    ItemsAppend([p[i]], p[i + 1..]);
  }

  /** Amending the last record keeps the item list. */
  lemma ItemsAmendLast(acc: seq<Record>, x: Record)
    requires acc != [] && x.item == acc[|acc| - 1].item
    ensures Items(acc[|acc| - 1 := x]) == Items(acc)
  {
    var acc' := acc[|acc| - 1 := x];
    assert acc'[..|acc'| - 1] == acc[..|acc| - 1];
  }

  lemma SingletonItems(r: Record)
    ensures Items([r]) == if r.HasItem() then [r.item.value] else []
  {
    assert [r][..0] == [];
  }

  lemma CombineItems(cfg: Config, p: seq<Record>, i: nat, acc: seq<Record>)
    requires i + 1 < |p| && QtyOnly(p[i]) && ItemOnly(p[i + 1])
    ensures Items(acc + [Combine(cfg, p[i], p[i + 1])]) + Items(p[i + 2..]) == Items(acc) + Items(p[i..])
  {
    var c := Combine(cfg, p[i], p[i + 1]);
    var w := p[i + 1].item.value;
    assert c.HasItem() && c.item.value == w;
    ItemsAppend(acc, [c]);
    SingletonItems(c);
    assert Items(acc + [c]) == Items(acc) + [w];
    ItemsSplit(p, i);
    SingletonItems(p[i]);
    assert Items(p[i..]) == Items(p[i + 1..]);
    ItemsSplit(p, i + 1);
    SingletonItems(p[i + 1]);
    assert p[i + 1..][1..] == p[i + 2..];
    assert Items(p[i + 1..]) == [w] + Items(p[i + 2..]);
  }

  lemma AmendItems(p: seq<Record>, i: nat, acc: seq<Record>)
    requires i < |p| && ContextOnly(p[i]) && acc != []
    ensures Items(acc[|acc| - 1 := ApplyContext(acc[|acc| - 1], p[i])]) + Items(p[i + 1..]) == Items(acc) + Items(p[i..])
  {
    ItemsAmendLast(acc, ApplyContext(acc[|acc| - 1], p[i]));
    ItemsSplit(p, i);
    SingletonItems(p[i]);
  }

  lemma KeepItems(p: seq<Record>, i: nat, acc: seq<Record>)
    requires i < |p|
    ensures Items(acc + [p[i]]) + Items(p[i + 1..]) == Items(acc) + Items(p[i..])
  {
    ItemsAppend(acc, [p[i]]);
    ItemsSplit(p, i);
  }

  /** Merging neither loses, duplicates nor reorders an item: the merged records name
      exactly the items the lines named, in the same order. */
  lemma {:induction false} MergeFromItems(cfg: Config, p: seq<Record>, i: nat, acc: seq<Record>)
    requires i <= |p|
    ensures Items(MergeFrom(cfg, p, i, acc)) == Items(acc) + Items(p[i..])
    decreases |p| - i
  {
    if i == |p| {
      assert p[i..] == [];
    } else if QtyOnly(p[i]) && i + 1 < |p| && ItemOnly(p[i + 1]) {
      MergeFromItems(cfg, p, i + 2, acc + [Combine(cfg, p[i], p[i + 1])]);
      CombineItems(cfg, p, i, acc);
    } else if ContextOnly(p[i]) && acc != [] {
      MergeFromItems(cfg, p, i + 1, acc[|acc| - 1 := ApplyContext(acc[|acc| - 1], p[i])]);
      AmendItems(p, i, acc);
    } else {
      MergeFromItems(cfg, p, i + 1, acc + [p[i]]);
      KeepItems(p, i, acc);
    }
  }

  lemma MergeItems(cfg: Config, p: seq<Record>)
    ensures Items(Merge(cfg, p)) == Items(p)
  {
    MergeFromItems(cfg, p, 0, []);
    assert p[0..] == p;
  }

  /** The merged list is never longer than the input, and is empty only when the
      input is: the first line always starts a record. */
  lemma {:induction false} MergeFromLength(cfg: Config, p: seq<Record>, i: nat, acc: seq<Record>)
    requires i <= |p|
    ensures |acc| <= |MergeFrom(cfg, p, i, acc)| <= |acc| + |p| - i
    ensures i < |p| ==> |MergeFrom(cfg, p, i, acc)| >= 1
    decreases |p| - i
  {
    if i < |p| {
      if QtyOnly(p[i]) && i + 1 < |p| && ItemOnly(p[i + 1]) {
        MergeFromLength(cfg, p, i + 2, acc + [Combine(cfg, p[i], p[i + 1])]);
      } else if ContextOnly(p[i]) && acc != [] {
        MergeFromLength(cfg, p, i + 1, acc[|acc| - 1 := ApplyContext(acc[|acc| - 1], p[i])]);
      } else {
        MergeFromLength(cfg, p, i + 1, acc + [p[i]]);
      }
    }
  }

  lemma MergeLength(cfg: Config, p: seq<Record>)
    ensures |Merge(cfg, p)| <= |p|
    ensures Merge(cfg, p) == [] <==> p == []
  {
    MergeFromLength(cfg, p, 0, []);
  }

  /** A record, once merged, is only ever amended by later context lines: its type is
      set if it had none, its note may be replaced, and nothing else changes. */
  lemma {:induction false} MergeFromAmendsOnly(cfg: Config, p: seq<Record>, i: nat, acc: seq<Record>, k: nat)
    requires i <= |p| && k < |acc|
    ensures |MergeFrom(cfg, p, i, acc)| >= |acc|
    ensures var m := MergeFrom(cfg, p, i, acc)[k];
            m == acc[k].(transType := m.transType, notesExtra := m.notesExtra) &&
            (Present(acc[k].transType) ==> m.transType == acc[k].transType)
    decreases |p| - i
  {
    MergeFromLength(cfg, p, i, acc);
    if i < |p| {
      if QtyOnly(p[i]) && i + 1 < |p| && ItemOnly(p[i + 1]) {
        MergeFromAmendsOnly(cfg, p, i + 2, acc + [Combine(cfg, p[i], p[i + 1])], k);
      } else if ContextOnly(p[i]) && acc != [] {
        MergeFromAmendsOnly(cfg, p, i + 1, acc[|acc| - 1 := ApplyContext(acc[|acc| - 1], p[i])], k);
      } else {
        MergeFromAmendsOnly(cfg, p, i + 1, acc + [p[i]], k);
      }
    }
  }

  /** Merging keeps every record sound. */
  lemma {:induction false} MergeFromSound(cfg: Config, p: seq<Record>, i: nat, acc: seq<Record>)
    requires i <= |p| && AllSound(cfg, p) && AllSound(cfg, acc)
    ensures AllSound(cfg, MergeFrom(cfg, p, i, acc))
    decreases |p| - i
  {
    if i < |p| {
      if QtyOnly(p[i]) && i + 1 < |p| && ItemOnly(p[i + 1]) {
        var c := Combine(cfg, p[i], p[i + 1]);
        assert Sound(cfg, p[i]) && Sound(cfg, p[i + 1]);
        MergeFromSound(cfg, p, i + 2, acc + [c]);
      } else if ContextOnly(p[i]) && acc != [] {
        assert Sound(cfg, acc[|acc| - 1]);
        MergeFromSound(cfg, p, i + 1, acc[|acc| - 1 := ApplyContext(acc[|acc| - 1], p[i])]);
      } else {
        assert Sound(cfg, p[i]);
        MergeFromSound(cfg, p, i + 1, acc + [p[i]]);
      }
    }
  }

  lemma MergeSound(cfg: Config, p: seq<Record>)
    requires AllSound(cfg, p)
    ensures AllSound(cfg, Merge(cfg, p))
  {
    MergeFromSound(cfg, p, 0, []);
  }

  /** A quantity line followed by its item line becomes one record. */
  lemma MergeQtyThenItem(cfg: Config, a: Record, b: Record)
    requires QtyOnly(a) && ItemOnly(b)
    ensures Merge(cfg, [a, b]) == [Combine(cfg, a, b)]
  {
    var p, c := [a, b], Combine(cfg, a, b);
    assert p[0] == a && p[1] == b;
    assert MergeFrom(cfg, p, 0, []) == MergeFrom(cfg, p, 2, [] + [c]);
    assert [] + [c] == [c];
  }
}
