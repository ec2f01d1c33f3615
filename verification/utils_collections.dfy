/**
 * The array helpers of the shared utilities: grouping by a key, sorting by
 * a key, and the percentage with its zero guard.
 */
module CollectionUtils {
  import opened Wrappers

  /** The elements whose key is `k`, in their original order. */
  function WithKey<T, K(==)>(xs: seq<T>, keyOf: T -> K, k: K): (r: seq<T>)
    ensures |r| <= |xs|
    ensures forall x :: x in r ==> x in xs && keyOf(x) == k
    decreases |xs|
  {
    if |xs| == 0 then []
    else WithKey(xs[..|xs| - 1], keyOf, k) + (if keyOf(xs[|xs| - 1]) == k then [xs[|xs| - 1]] else [])
  }

  lemma WithKeySnoc<T, K>(xs: seq<T>, x: T, keyOf: T -> K, k: K)
    ensures WithKey(xs + [x], keyOf, k) == WithKey(xs, keyOf, k) + (if keyOf(x) == k then [x] else [])
  {
    assert (xs + [x])[..|xs + [x]| - 1] == xs;
  }

  /** An element whose key is `k` is kept by `WithKey`. */
  lemma {:induction false} WithKeyHas<T, K>(xs: seq<T>, keyOf: T -> K, i: nat)
    requires i < |xs|
    ensures xs[i] in WithKey(xs, keyOf, keyOf(xs[i]))
    decreases |xs|
  {
    if i < |xs| - 1 {
      WithKeyHas(xs[..|xs| - 1], keyOf, i);
    }
  }

  /** With no element of key `k` there is nothing to keep. */
  lemma {:induction false} WithKeyNone<T, K>(xs: seq<T>, keyOf: T -> K, k: K)
    requires forall i :: 0 <= i < |xs| ==> keyOf(xs[i]) != k
    ensures WithKey(xs, keyOf, k) == []
    decreases |xs|
  {
    if |xs| > 0 {
      WithKeyNone(xs[..|xs| - 1], keyOf, k);
    }
  }

  // ---- groupBy ----

  /**
   * The members every plain object inherits. Indexing the accumulator with
   * one of these names finds a truthy non-array, and the `push` on it throws.
   */
  const PrototypeMembers: set<string> := {
    "constructor", "hasOwnProperty", "isPrototypeOf", "propertyIsEnumerable",
    "toLocaleString", "toString", "valueOf", "__proto__",
    "__defineGetter__", "__defineSetter__", "__lookupGetter__", "__lookupSetter__"
  }

  /**
   * `groupBy`: each item is appended to the group named by its key, in input
   * order. `None` is the `TypeError` thrown when a key names an inherited
   * object member.
   */
  function GroupBy<T>(items: seq<T>, keyOf: T -> string): (r: Option<map<string, seq<T>>>)
    ensures r.None? <==> exists i :: 0 <= i < |items| && keyOf(items[i]) in PrototypeMembers
    ensures r.Some? ==> forall k :: k in r.value <==> exists i :: 0 <= i < |items| && keyOf(items[i]) == k
    ensures r.Some? ==> forall k :: k in r.value ==> r.value[k] == WithKey(items, keyOf, k)
    decreases |items|
  {
    if |items| == 0 then Some(map[])
    else
      var init := items[..|items| - 1];
      var item := items[|items| - 1];
      assert items == init + [item];
      match GroupBy(init, keyOf)
      case None => None
      case Some(groups) =>
        var group := keyOf(item);
        if group in PrototypeMembers then None
        else
          var r := groups[group := (if group in groups then groups[group] else []) + [item]];
          GroupStep(init, item, keyOf, groups, r);
          Some(r)
  }

  /** One item appended to the groups of the items before it. */
  lemma GroupStep<T>(init: seq<T>, item: T, keyOf: T -> string, groups: map<string, seq<T>>, r: map<string, seq<T>>)
    requires forall k :: k in groups <==> exists i :: 0 <= i < |init| && keyOf(init[i]) == k
    requires forall k :: k in groups ==> groups[k] == WithKey(init, keyOf, k)
    requires r == groups[keyOf(item) := (if keyOf(item) in groups then groups[keyOf(item)] else []) + [item]]
    ensures forall k :: k in r <==> exists i :: 0 <= i < |init + [item]| && keyOf((init + [item])[i]) == k
    ensures forall k :: k in r ==> r[k] == WithKey(init + [item], keyOf, k)
  {
    var items := init + [item];
    forall k
      ensures k in r <==> exists i :: 0 <= i < |items| && keyOf(items[i]) == k
    {
      if k in groups {
        var i :| 0 <= i < |init| && keyOf(init[i]) == k;
        assert items[i] == init[i];
      }
      if k == keyOf(item) {
        assert items[|init|] == item;
      }
      if exists i :: 0 <= i < |items| && keyOf(items[i]) == k {
        var i :| 0 <= i < |items| && keyOf(items[i]) == k;
        if i < |init| {
          assert items[i] == init[i];
        }
      }
    }
    forall k | k in r
      ensures r[k] == WithKey(items, keyOf, k)
    {
      WithKeySnoc(init, item, keyOf, k);
      if k !in groups {
        WithKeyNone(init, keyOf, k);
      }
    }
  }

  /** Every item lands in the group of its key, and a group holds only items with its key. */
  lemma GroupByPartitions<T>(items: seq<T>, keyOf: T -> string, i: nat)
    requires GroupBy(items, keyOf).Some? && i < |items|
    ensures var groups := GroupBy(items, keyOf).value;
      && keyOf(items[i]) in groups
      && items[i] in groups[keyOf(items[i])]
      && forall k, x :: k in groups && x in groups[k] ==> keyOf(x) == k
  {
    WithKeyHas(items, keyOf, i);
  }

  // ---- sortBy ----

  datatype SortOrder = Asc | Desc

  /** Whether key `a` sorts strictly before key `b` (the comparator is negative). */
  predicate Precedes(order: SortOrder, a: int, b: int) {
    if order == Asc then a < b else a > b
  }

  predicate Sorted<T>(s: seq<T>, key: T -> int, order: SortOrder) {
    forall i, j :: 0 <= i < j < |s| ==> !Precedes(order, key(s[j]), key(s[i]))
  }

  /** Places `x` after every element it does not strictly precede. */
  function Insert<T>(s: seq<T>, x: T, key: T -> int, order: SortOrder): (r: seq<T>)
    requires Sorted(s, key, order)
    ensures multiset(r) == multiset(s) + multiset{x}
    ensures Sorted(r, key, order)
    decreases |s|
  {
    if |s| == 0 || !Precedes(order, key(x), key(s[|s| - 1])) then
      AppendAfterAll(s, x, key, order);
      s + [x]
    else
      var init := s[..|s| - 1];
      var last := s[|s| - 1];
      var front := Insert(init, x, key, order);
      InsertBeforeLast(s, x, front, key, order);
      front + [last]
  }

  /** Appending an element that precedes nothing already there keeps a sequence sorted. */
  lemma SortedSnoc<T>(s: seq<T>, x: T, key: T -> int, order: SortOrder)
    requires Sorted(s, key, order)
    requires forall i :: 0 <= i < |s| ==> !Precedes(order, key(x), key(s[i]))
    ensures Sorted(s + [x], key, order)
  {
    var t := s + [x];
    forall i, j | 0 <= i < j < |t|
      ensures !Precedes(order, key(t[j]), key(t[i]))
    {
      assert t[i] == s[i];
      if j < |s| {
        assert t[j] == s[j];
      }
    }
  }

  /** The case where `x` goes at the end. */
  lemma AppendAfterAll<T>(s: seq<T>, x: T, key: T -> int, order: SortOrder)
    requires Sorted(s, key, order)
    requires |s| == 0 || !Precedes(order, key(x), key(s[|s| - 1]))
    ensures Sorted(s + [x], key, order)
  {
    forall i | 0 <= i < |s|
      ensures !Precedes(order, key(x), key(s[i]))
    {
      if i < |s| - 1 {
        assert !Precedes(order, key(s[|s| - 1]), key(s[i]));
      }
    }
    SortedSnoc(s, x, key, order);
  }

  /** The case where `x` goes somewhere before the last element. */
  lemma InsertBeforeLast<T>(s: seq<T>, x: T, front: seq<T>, key: T -> int, order: SortOrder)
    requires Sorted(s, key, order) && |s| > 0
    requires Precedes(order, key(x), key(s[|s| - 1]))
    requires multiset(front) == multiset(s[..|s| - 1]) + multiset{x}
    requires Sorted(front, key, order)
    ensures multiset(front + [s[|s| - 1]]) == multiset(s) + multiset{x}
    ensures Sorted(front + [s[|s| - 1]], key, order)
  {
    var init := s[..|s| - 1];
    var last := s[|s| - 1];
    assert s == init + [last];
    assert multiset(front + [last]) == multiset(front) + multiset{last};
    assert multiset(s) == multiset(init) + multiset{last};
    forall i | 0 <= i < |front|
      ensures !Precedes(order, key(last), key(front[i]))
    {
      assert front[i] in multiset(front);
      if front[i] != x {
        assert front[i] in multiset(init);
        var j :| 0 <= j < |init| && init[j] == front[i];
        assert s[j] == init[j];
      }
    }
    SortedSnoc(front, last, key, order);
  }

  /**
   * Insertion is stable: among the elements of key `k`, the inserted one
   * comes after those already there, which keep their order.
   */
  lemma {:induction false} InsertStable<T>(s: seq<T>, x: T, key: T -> int, order: SortOrder, k: int)
    requires Sorted(s, key, order)
    ensures WithKey(Insert(s, x, key, order), key, k) == WithKey(s, key, k) + (if key(x) == k then [x] else [])
    decreases |s|
  {
    if |s| == 0 || !Precedes(order, key(x), key(s[|s| - 1])) {
      WithKeySnoc(s, x, key, k);
    } else {
      var init := s[..|s| - 1];
      var last := s[|s| - 1];
      assert s == init + [last];
      var front := Insert(init, x, key, order);
      assert Insert(s, x, key, order) == front + [last];
      InsertStable(init, x, key, order, k);
      KeysBeforeLast(init, last, x, front, key, k);
    }
  }

  /** Moving the last element past `x` does not reorder elements of one key, since their keys differ. */
  lemma KeysBeforeLast<T>(init: seq<T>, last: T, x: T, front: seq<T>, key: T -> int, k: int)
    requires key(x) != key(last)
    requires WithKey(front, key, k) == WithKey(init, key, k) + (if key(x) == k then [x] else [])
    ensures WithKey(front + [last], key, k) == WithKey(init + [last], key, k) + (if key(x) == k then [x] else [])
  {
    var mine := WithKey(init, key, k);
    WithKeySnoc(front, last, key, k);
    WithKeySnoc(init, last, key, k);
    if key(x) == k {
      assert key(last) != k;
      assert WithKey(init + [last], key, k) == mine + [];
      assert WithKey(front + [last], key, k) == mine + [x] + [];
    } else if key(last) == k {
      assert WithKey(front, key, k) == mine + [];
      assert WithKey(front + [last], key, k) == mine + [] + [last];
    } else {
      assert WithKey(front, key, k) == mine + [];
    }
  }

  /**
   * `sortBy`: a new sequence holding the same elements, ordered by key
   * ascending or descending.
   */
  function SortBy<T>(xs: seq<T>, key: T -> int, order: SortOrder): (r: seq<T>)
    ensures multiset(r) == multiset(xs)
    ensures Sorted(r, key, order)
    decreases |xs|
  {
    if |xs| == 0 then []
    else
      var init := xs[..|xs| - 1];
      var last := xs[|xs| - 1];
      assert xs == init + [last];
      Insert(SortBy(init, key, order), last, key, order)
  }

  /** `sortBy` is stable: elements with equal keys keep their input order. */
  lemma {:induction false} SortByStable<T>(xs: seq<T>, key: T -> int, order: SortOrder, k: int)
    ensures WithKey(SortBy(xs, key, order), key, k) == WithKey(xs, key, k)
    decreases |xs|
  {
    if |xs| > 0 {
      var init := xs[..|xs| - 1];
      var last := xs[|xs| - 1];
      assert xs == init + [last];
      SortByStable(init, key, order, k);
      InsertStable(SortBy(init, key, order), last, key, order, k);
      WithKeySnoc(init, last, key, k);
    }
  }

  /** A sequence already in order comes back unchanged. */
  lemma {:induction false} SortBySorted<T>(xs: seq<T>, key: T -> int, order: SortOrder)
    requires Sorted(xs, key, order)
    ensures SortBy(xs, key, order) == xs
    decreases |xs|
  {
    if |xs| > 0 {
      var init := xs[..|xs| - 1];
      var last := xs[|xs| - 1];
      assert xs == init + [last];
      SortBySorted(init, key, order);
      if |init| > 0 {
        assert !Precedes(order, key(last), key(init[|init| - 1])) by {
          assert init[|init| - 1] == xs[|xs| - 2];
        }
      }
    }
  }

  /** Sorting twice is sorting once. */
  lemma SortByIdempotent<T>(xs: seq<T>, key: T -> int, order: SortOrder)
    ensures SortBy(SortBy(xs, key, order), key, order) == SortBy(xs, key, order)
  {
    SortBySorted(SortBy(xs, key, order), key, order);
  }

  // ---- percentage ----

  /** `Math.round`: the nearest integer, halves rounded up. */
  function Round(x: real): int {
    (x + 0.5).Floor
  }

  /**
   * `percentage`: 0 when the total is 0, otherwise the rounded share of the
   * total in hundredths; a part of a positive total lies in 0..100.
   */
  function Percentage(value: real, total: real): (r: int)
    ensures total == 0.0 ==> r == 0
    ensures 0.0 <= value <= total ==> 0 <= r <= 100
  {
    if total == 0.0 then 0
    else
      var share := value / total * 100.0;
      assert 0.0 <= value <= total ==> 0.0 <= share <= 100.0 by {
        if 0.0 <= value <= total {
          assert value / total <= 1.0;
        }
      }
      Round(share)
  }

  /** The whole is 100 percent and nothing is 0 percent, for any nonzero total. */
  lemma PercentageEnds(total: real)
    requires total != 0.0
    ensures Percentage(total, total) == 100
    ensures Percentage(0.0, total) == 0
  {
    assert total / total == 1.0;
  }
}
