/**
 * `list.sort(key=...)` as images/visualise.py uses it: every element's key
 * is computed once, then the elements are ordered by key, stably (elements
 * with equal keys keep their input order). The sort is specified by a
 * functional insertion sort over key-decorated entries; its order, its
 * permutation and its stability are proved below.
 */
module StableSort {
  /** An element together with its precomputed sort key. */
  datatype Keyed<T> = Keyed(key: real, item: T)

  ghost predicate SortedByKey<T>(s: seq<Keyed<T>>) {
    forall i, j :: 0 <= i < j < |s| ==> s[i].key <= s[j].key
  }

  /** The items of `s`, in order. */
  function Items<T>(s: seq<Keyed<T>>): (r: seq<T>)
    ensures |r| == |s| && forall i :: 0 <= i < |s| ==> r[i] == s[i].item
  {
    if s == [] then [] else Items(s[..|s| - 1]) + [s[|s| - 1].item]
  }

  /** The items of `s` whose key is `k`, in order. */
  function Run<T>(s: seq<Keyed<T>>, k: real): seq<T> {
    if s == [] then []
    else Run(s[..|s| - 1], k) + (if s[|s| - 1].key == k then [s[|s| - 1].item] else [])
  }

  /** No key of `s` exceeds `b`. */
  ghost predicate KeysAtMost<T>(s: seq<Keyed<T>>, b: real) {
    forall i :: 0 <= i < |s| ==> s[i].key <= b
  }

  lemma AppendSorted<T>(s: seq<Keyed<T>>, x: Keyed<T>)
    requires SortedByKey(s) && KeysAtMost(s, x.key)
    ensures SortedByKey(s + [x])
  {
  }

  lemma LastBounds<T>(s: seq<Keyed<T>>)
    requires s != [] && SortedByKey(s)
    ensures SortedByKey(s[..|s| - 1]) && KeysAtMost(s[..|s| - 1], s[|s| - 1].key)
  {
  }

  /** A bound on the keys carries over to any rearrangement that adds an entry within it. */
  lemma BoundAfterInsert<T>(r: seq<Keyed<T>>, s: seq<Keyed<T>>, x: Keyed<T>, b: real)
    requires multiset(r) == multiset(s) + multiset{x}
    requires KeysAtMost(s, b) && x.key <= b
    ensures KeysAtMost(r, b)
  {
    forall i | 0 <= i < |r| ensures r[i].key <= b {
      assert r[i] in multiset(r);
      if r[i] != x {
        assert r[i] in multiset(s);
        var j :| 0 <= j < |s| && s[j] == r[i];
      }
    }
  }

  /** Place `x` after every entry of the sorted `s` whose key is not larger than its own. */
  function Insert<T>(x: Keyed<T>, s: seq<Keyed<T>>): (r: seq<Keyed<T>>)
    requires SortedByKey(s)
    ensures SortedByKey(r)
    ensures multiset(r) == multiset(s) + multiset{x}
  {
    if s == [] || s[|s| - 1].key <= x.key then
      LastBoundsOrEmpty(s, x);
      AppendSorted(s, x);
      s + [x]
    else
      var init, last := s[..|s| - 1], s[|s| - 1];
      LastBounds(s);
      var r0 := Insert(x, init);
      BoundAfterInsert(r0, init, x, last.key);
      AppendSorted(r0, last);
      assert s == init + [last];
      r0 + [last]
  }

  lemma LastBoundsOrEmpty<T>(s: seq<Keyed<T>>, x: Keyed<T>)
    requires SortedByKey(s) && (s == [] || s[|s| - 1].key <= x.key)
    ensures KeysAtMost(s, x.key)
  {
  }

  /** The entries of `s` ordered by key, equal keys in input order. */
  function SortByKey<T>(s: seq<Keyed<T>>): (r: seq<Keyed<T>>)
    ensures SortedByKey(r)
    ensures multiset(r) == multiset(s)
  {
    if s == [] then []
    else
      assert s == s[..|s| - 1] + [s[|s| - 1]];
      Insert(s[|s| - 1], SortByKey(s[..|s| - 1]))
  }

  lemma RunSnoc<T>(s: seq<Keyed<T>>, e: Keyed<T>, k: real)
    ensures Run(s + [e], k) == Run(s, k) + (if e.key == k then [e.item] else [])
  {
    assert (s + [e])[..|s|] == s;
  }

  lemma ItemsSnoc<T>(s: seq<Keyed<T>>, e: Keyed<T>)
    ensures Items(s + [e]) == Items(s) + [e.item]
  {
  }

  /** The shape of an insertion that goes before the last entry. */
  lemma InsertBeforeLast<T>(x: Keyed<T>, s: seq<Keyed<T>>)
    requires SortedByKey(s) && s != [] && x.key < s[|s| - 1].key
    ensures SortedByKey(s[..|s| - 1])
    ensures Insert(x, s) == Insert(x, s[..|s| - 1]) + [s[|s| - 1]]
    ensures s == s[..|s| - 1] + [s[|s| - 1]]
  {
    LastBounds(s);
  }

  /** Inserting `x` adds it at the end of the run of its own key and leaves the other runs alone. */
  lemma {:induction false} InsertRun<T>(x: Keyed<T>, s: seq<Keyed<T>>, k: real)
    requires SortedByKey(s)
    ensures Run(Insert(x, s), k) == Run(s, k) + (if x.key == k then [x.item] else [])
  {
    if s == [] || s[|s| - 1].key <= x.key {
      RunSnoc(s, x, k);
    } else {
      var init, last := s[..|s| - 1], s[|s| - 1];
      InsertBeforeLast(x, s);
      InsertRun(x, init, k);
      RunSnoc(Insert(x, init), last, k);
      RunSnoc(init, last, k);
      assert x.key != k || last.key != k;
    }
  }

  /**
   * Stability: for every key, the entries carrying it appear in the sorted
   * sequence in the same order as in the input.
   */
  lemma {:induction false} SortByKeyIsStable<T>(s: seq<Keyed<T>>, k: real)
    ensures Run(SortByKey(s), k) == Run(s, k)
  {
    if s != [] {
      var init, last := s[..|s| - 1], s[|s| - 1];
      SortByKeyIsStable(init, k);
      InsertRun(last, SortByKey(init), k);
    }
  }

  /** Inserting `x` adds its item to the items. */
  lemma {:induction false} InsertItems<T>(x: Keyed<T>, s: seq<Keyed<T>>)
    requires SortedByKey(s)
    ensures multiset(Items(Insert(x, s))) == multiset(Items(s)) + multiset{x.item}
  {
    if s == [] || s[|s| - 1].key <= x.key {
      ItemsSnoc(s, x);
    } else {
      var init, last := s[..|s| - 1], s[|s| - 1];
      InsertBeforeLast(x, s);
      calc {
        multiset(Items(Insert(x, s)));
        { ItemsSnoc(Insert(x, init), last); }
        multiset(Items(Insert(x, init)) + [last.item]);
        multiset(Items(Insert(x, init))) + multiset{last.item};
        { InsertItems(x, init); }
        multiset(Items(init)) + multiset{x.item} + multiset{last.item};
        multiset(Items(init) + [last.item]) + multiset{x.item};
        { ItemsSnoc(init, last); }
        multiset(Items(s)) + multiset{x.item};
      }
    }
  }

  /** The items are a permutation of the input's items. */
  lemma {:induction false} SortByKeyPermutesItems<T>(s: seq<Keyed<T>>)
    ensures multiset(Items(SortByKey(s))) == multiset(Items(s))
  {
    if s != [] {
      var init, last := s[..|s| - 1], s[|s| - 1];
      assert s == init + [last];
      calc {
        multiset(Items(SortByKey(s)));
        multiset(Items(Insert(last, SortByKey(init))));
        { InsertItems(last, SortByKey(init)); }
        multiset(Items(SortByKey(init))) + multiset{last.item};
        { SortByKeyPermutesItems(init); }
        multiset(Items(init)) + multiset{last.item};
        multiset(Items(init) + [last.item]);
        { ItemsSnoc(init, last); }
        multiset(Items(s));
      }
    }
  }
}
