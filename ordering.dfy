/** `sorted(xs, key=len, reverse=True)`: a stable sort by a natural-number key, largest
    first. Python's sort is stable, so elements with equal keys keep their input order;
    the insertion below puts each element after every earlier one with an equal key. */
module Ordering {

  ghost predicate SortedDesc<T>(s: seq<T>, key: T -> nat) {
    forall i, j :: 0 <= i < j < |s| ==> key(s[i]) >= key(s[j])
  }

  function Insert<T>(x: T, s: seq<T>, key: T -> nat): seq<T> {
    if s == [] then [x]
    else if key(s[0]) < key(x) then [x] + s
    else [s[0]] + Insert(x, s[1..], key)
  }

  lemma {:induction false} InsertBounded<T>(x: T, s: seq<T>, key: T -> nat, b: nat)
    requires key(x) <= b && forall i :: 0 <= i < |s| ==> key(s[i]) <= b
    ensures forall i :: 0 <= i < |Insert(x, s, key)| ==> key(Insert(x, s, key)[i]) <= b
  {
    if s != [] && key(s[0]) >= key(x) {
      InsertBounded(x, s[1..], key, b);
    }
  }

  lemma {:induction false} InsertSorted<T>(x: T, s: seq<T>, key: T -> nat)
    requires SortedDesc(s, key)
    ensures SortedDesc(Insert(x, s, key), key)
  {
    if s != [] && key(s[0]) >= key(x) {
      var rest := Insert(x, s[1..], key);
      InsertSorted(x, s[1..], key);
      InsertBounded(x, s[1..], key, key(s[0]));
      var r := [s[0]] + rest;
      forall i, j | 0 <= i < j < |r|
        ensures key(r[i]) >= key(r[j])
      {
        assert r[j] == rest[j - 1];
        if i > 0 {
          assert r[i] == rest[i - 1];
        }
      }
    }
  }

  lemma {:induction false} InsertPermutes<T>(x: T, s: seq<T>, key: T -> nat)
    ensures multiset(Insert(x, s, key)) == multiset(s) + multiset{x}
  {
    if s != [] && key(s[0]) >= key(x) {
      InsertPermutes(x, s[1..], key);
      assert s == [s[0]] + s[1..];
    }
  }

  /** The elements of `s` whose key is `k`, in their order in `s`. */
  function WithKey<T>(s: seq<T>, key: T -> nat, k: nat): seq<T> {
    if s == [] then []
    else (if key(s[0]) == k then [s[0]] else []) + WithKey(s[1..], key, k)
  }

  lemma {:induction false} WithKeyAppend<T>(s: seq<T>, t: seq<T>, key: T -> nat, k: nat)
    ensures WithKey(s + t, key, k) == WithKey(s, key, k) + WithKey(t, key, k)
    decreases |s|
  {
    if s != [] {
      WithKeyAppend(s[1..], t, key, k);
      assert (s + t)[0] == s[0] && (s + t)[1..] == s[1..] + t;
    } else {
      assert s + t == t;
    }
  }

  /** A sorted sequence whose first key is below `k` holds nothing with key `k`. */
  lemma {:induction false} WithKeyBelow<T>(s: seq<T>, key: T -> nat, k: nat)
    requires SortedDesc(s, key) && s != [] && key(s[0]) < k
    ensures WithKey(s, key, k) == []
    decreases |s|
  {
    if |s| > 1 {
      assert key(s[1]) <= key(s[0]);
      WithKeyBelow(s[1..], key, k);
    }
  }

  /** Inserting `x` puts it after every element with its own key. */
  lemma {:induction false} InsertStable<T>(x: T, s: seq<T>, key: T -> nat, k: nat)
    requires SortedDesc(s, key)
    ensures WithKey(Insert(x, s, key), key, k) == WithKey(s, key, k) + WithKey([x], key, k)
    decreases |s|
  {
    if s == [] {
    } else if key(s[0]) < key(x) {
      if key(x) == k {
        WithKeyBelow(s, key, k);
      }
      WithKeyAppend([x], s, key, k);
    } else {
      InsertStable(x, s[1..], key, k);
      assert Insert(x, s, key)[1..] == Insert(x, s[1..], key);
    }
  }

  /** Sorts by `key`, largest first, keeping the input order among equal keys. */
  function SortDesc<T>(xs: seq<T>, key: T -> nat): (r: seq<T>)
    ensures SortedDesc(r, key)
    ensures multiset(r) == multiset(xs)
  {
    if xs == [] then []
    else
      var init := SortDesc(xs[..|xs| - 1], key);
      var last := xs[|xs| - 1];
      InsertSorted(last, init, key);
      InsertPermutes(last, init, key);
      assert xs == xs[..|xs| - 1] + [last];
      Insert(last, init, key)
  }

  /** The sort is stable: for every key, the elements with that key come out in the
      order they went in. */
  lemma {:induction false} SortDescStable<T>(xs: seq<T>, key: T -> nat, k: nat)
    ensures WithKey(SortDesc(xs, key), key, k) == WithKey(xs, key, k)
    decreases |xs|
  {
    if xs != [] {
      var init := xs[..|xs| - 1];
      var last := xs[|xs| - 1];
      SortDescStable(init, key, k);
      InsertStable(last, SortDesc(init, key), key, k);
      assert xs == init + [last];
      WithKeyAppend(init, [last], key, k);
    }
  }

  function StrLen(s: string): nat {
    |s|
  }

  /** `sorted(names, key=len, reverse=True)`. */
  function LongestFirst(names: seq<string>): (r: seq<string>)
    ensures SortedDesc(r, StrLen)
    ensures multiset(r) == multiset(names)
  {
    SortDesc(names, StrLen)
  }

  function KeyLen<V>(p: (string, V)): nat {
    |p.0|
  }

  /** `sorted(d.items(), key=lambda kv: len(kv[0]), reverse=True)`. */
  function LongestKeyFirst<V>(pairs: seq<(string, V)>): (r: seq<(string, V)>)
    ensures SortedDesc(r, KeyLen)
    ensures multiset(r) == multiset(pairs)
  {
    SortDesc(pairs, KeyLen)
  }

  lemma SortedMembers<T>(s: seq<T>, xs: seq<T>)
    requires multiset(s) == multiset(xs)
    ensures forall x :: x in s <==> x in xs
  {
    forall x ensures x in s <==> x in xs {
      assert x in s <==> x in multiset(s);
      assert x in xs <==> x in multiset(xs);
    }
  }

  /** An element of a permutation of `xs` is an element of `xs`. */
  lemma PermutationMember<T>(s: seq<T>, xs: seq<T>, x: T)
    requires multiset(s) == multiset(xs) && x in s
    ensures x in xs
  {
    assert x in multiset(s);
  }
}
