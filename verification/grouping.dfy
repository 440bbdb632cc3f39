/**
 * Grouped sums as the dashboard computes them with
 * `reduce((acc, x) => { acc[k] = (acc[k] || 0) + v; return acc }, {})`.
 *
 * The accumulator is a JavaScript object; its entries are modelled as an
 * association list whose key order is the order in which each key was first
 * written, which is the order `Object.entries` and `Object.values` report.
 */
module Grouping {

  import opened Seqs

  type Entries = seq<(string, real)>

  function KeySet(a: Entries): set<string>
  {
    set i | 0 <= i < |a| :: a[i].0
  }

  predicate DistinctKeys(a: Entries)
  {
    forall i, j :: 0 <= i < j < |a| ==> a[i].0 != a[j].0
  }

  /** `acc[k] || 0`: the stored value, or 0 for a key never written. */
  function Lookup(a: Entries, k: string): real
    decreases |a|
  {
    if a == [] then 0.0
    else if a[|a| - 1].0 == k then a[|a| - 1].1
    else Lookup(a[..|a| - 1], k)
  }

  /** `Object.values(acc).reduce((s, v) => s + v, 0)`. */
  function SumValues(a: Entries): real
    decreases |a|
  {
    if a == [] then 0.0 else SumValues(a[..|a| - 1]) + a[|a| - 1].1
  }

  lemma {:induction false} LookupAbsent(a: Entries, k: string)
    requires k !in KeySet(a)
    ensures Lookup(a, k) == 0.0
    decreases |a|
  {
    if a != [] {
      assert KeySet(a[..|a| - 1]) <= KeySet(a);
      LookupAbsent(a[..|a| - 1], k);
    }
  }

  /**
   * One step of the accumulation, `acc[k] = (acc[k] || 0) + v`: an existing
   * key keeps its place and gains `v`; a new key is appended with `v`.
   */
  function Add(a: Entries, k: string, v: real): (r: Entries)
    requires DistinctKeys(a)
    ensures DistinctKeys(r)
    ensures KeySet(r) == KeySet(a) + {k}
    ensures k in KeySet(a) ==> |r| == |a|
    ensures k !in KeySet(a) ==> |r| == |a| + 1 && r[|a|] == (k, v)
    ensures forall i :: 0 <= i < |a| ==> r[i].0 == a[i].0
  {
    if k in KeySet(a) then Bump(a, k, v)
    else
      KeySetAppend(a, (k, v));
      a + [(k, v)]
  }

  /** Adds `v` to the value already stored under `k`, in place. */
  function Bump(a: Entries, k: string, v: real): (r: Entries)
    requires DistinctKeys(a) && k in KeySet(a)
    ensures |r| == |a|
    ensures forall i :: 0 <= i < |a| ==> r[i].0 == a[i].0
    ensures KeySet(r) == KeySet(a)
    ensures DistinctKeys(r)
    decreases |a|
  {
    var init := a[..|a| - 1];
    var last := a[|a| - 1];
    assert KeySet(a) == KeySet(init) + {last.0};
    if last.0 == k then
      KeySetAppend(init, (k, last.1 + v));
      init + [(k, last.1 + v)]
    else
      var r := Bump(init, k, v) + [last];
      KeySetAppend(Bump(init, k, v), last);
      r
  }

  /** After `Add`, key `k` holds its old value plus `v`; every other key is untouched. */
  lemma AddLookup(a: Entries, k: string, v: real)
    requires DistinctKeys(a)
    ensures Lookup(Add(a, k, v), k) == Lookup(a, k) + v
    ensures forall k' :: k' != k ==> Lookup(Add(a, k, v), k') == Lookup(a, k')
  {
    if k in KeySet(a) {
      BumpLookup(a, k, v);
    } else {
      LookupAbsent(a, k);
      var r := Add(a, k, v);
      assert r[..|r| - 1] == a;
    }
  }

  lemma {:induction false} BumpLookup(a: Entries, k: string, v: real)
    requires DistinctKeys(a) && k in KeySet(a)
    ensures Lookup(Bump(a, k, v), k) == Lookup(a, k) + v
    ensures forall k' :: k' != k ==> Lookup(Bump(a, k, v), k') == Lookup(a, k')
    decreases |a|
  {
    var init := a[..|a| - 1];
    var last := a[|a| - 1];
    var r := Bump(a, k, v);
    assert KeySet(a) == KeySet(init) + {last.0};
    if last.0 == k {
      assert r[..|r| - 1] == init;
    } else {
      BumpLookup(init, k, v);
      assert r[..|r| - 1] == Bump(init, k, v);
    }
  }

  lemma AddSum(a: Entries, k: string, v: real)
    requires DistinctKeys(a)
    ensures SumValues(Add(a, k, v)) == SumValues(a) + v
  {
    if k in KeySet(a) {
      BumpSum(a, k, v);
    } else {
      var r := Add(a, k, v);
      assert r[..|r| - 1] == a;
    }
  }

  lemma {:induction false} BumpSum(a: Entries, k: string, v: real)
    requires DistinctKeys(a) && k in KeySet(a)
    ensures SumValues(Bump(a, k, v)) == SumValues(a) + v
    decreases |a|
  {
    var init := a[..|a| - 1];
    var last := a[|a| - 1];
    var r := Bump(a, k, v);
    assert KeySet(a) == KeySet(init) + {last.0};
    if last.0 == k {
      assert r[..|r| - 1] == init;
    } else {
      BumpSum(init, k, v);
      assert r[..|r| - 1] == Bump(init, k, v);
    }
  }

  lemma KeySetAppend(a: Entries, e: (string, real))
    ensures KeySet(a + [e]) == KeySet(a) + {e.0}
  {
    var b := a + [e];
    assert b[|b| - 1] == e;
    forall x | x in KeySet(a) ensures x in KeySet(b) {
      var i :| 0 <= i < |a| && a[i].0 == x;
      assert b[i] == a[i];
    }
  }

  /** The sum of `val` over the elements of `s` whose key is `k`. */
  function SumFor<T>(s: seq<T>, key: T -> string, val: T -> real, k: string): real
    decreases |s|
  {
    if s == [] then 0.0
    else SumFor(s[..|s| - 1], key, val, k) + (if key(s[|s| - 1]) == k then val(s[|s| - 1]) else 0.0)
  }

  /**
   * Group `s` by `key`, summing `val`: one entry per distinct key, in
   * first-appearance order, holding that key's total.
   */
  function Group<T>(s: seq<T>, key: T -> string, val: T -> real): (r: Entries)
    ensures DistinctKeys(r)
    ensures KeySet(r) == set i | 0 <= i < |s| :: key(s[i])
    ensures forall k :: Lookup(r, k) == SumFor(s, key, val, k)
    ensures SumValues(r) == SumOf(s, val)
    decreases |s|
  {
    if s == [] then []
    else
      var init := s[..|s| - 1];
      var last := s[|s| - 1];
      assert s == init + [last];
      var g := Group(init, key, val);
      KeysSnoc(s, init, last, key);
      SumForSnoc(s, init, last, key, val);
      SumOfSnoc(init, last, val);
      AddLookup(g, key(last), val(last));
      AddSum(g, key(last), val(last));
      Add(g, key(last), val(last))
  }

  /** The keys of `init + [last]` are the keys of `init` and the key of `last`. */
  lemma KeysSnoc<T>(s: seq<T>, init: seq<T>, last: T, key: T -> string)
    requires s == init + [last]
    ensures (set i | 0 <= i < |s| :: key(s[i])) == (set i | 0 <= i < |init| :: key(init[i])) + {key(last)}
  {
    var all := set i | 0 <= i < |s| :: key(s[i]);
    var before := set i | 0 <= i < |init| :: key(init[i]);
    forall x | x in all ensures x in before + {key(last)} {
      var i :| 0 <= i < |s| && key(s[i]) == x;
      if i < |init| {
        assert s[i] == init[i];
      }
    }
    forall x | x in before ensures x in all {
      var i :| 0 <= i < |init| && key(init[i]) == x;
      assert s[i] == init[i];
    }
    assert s[|init|] == last;
  }

  /** Each key's sum over `init + [last]` is its sum over `init`, plus `last`'s value when it has that key. */
  lemma SumForSnoc<T>(s: seq<T>, init: seq<T>, last: T, key: T -> string, val: T -> real)
    requires s == init + [last]
    ensures forall k :: SumFor(s, key, val, k) == SumFor(init, key, val, k) + (if key(last) == k then val(last) else 0.0)
  {
    assert s[..|s| - 1] == init;
  }
}
