/** `sort_by` (a stable sort) and `dedup_by` on a pair of strings taken as the sort key. */
module Sorting {
  import opened Strings

  type Key = (string, string)

  /** `a.0.cmp(b.0).then(a.1.cmp(b.1))` */
  predicate KeyLeq(a: Key, b: Key) {
    if a.0 == b.0 then StrLeq(a.1, b.1) else StrLeq(a.0, b.0)
  }

  predicate KeyLess(a: Key, b: Key) {
    a != b && KeyLeq(a, b)
  }

  /** The first parts decide, and the second ones where the first are the same. */
  lemma KeyLeqExact(a: Key, b: Key)
    ensures KeyLeq(a, b) <==> if a.0 != b.0 then Precedes(a.0, b.0) else Precedes(a.1, b.1)
  {
    StrLeqExact(a.0, b.0);
    StrLeqExact(a.1, b.1);
    hide Precedes, StrLeq;
  }

  lemma KeyLeqTotal(a: Key, b: Key)
    ensures KeyLeq(a, b) || KeyLeq(b, a)
    ensures KeyLeq(a, b) && KeyLeq(b, a) ==> a == b
  {
    StrLeqTotal(a.0, b.0);
    StrLeqTotal(a.1, b.1);
  }

  lemma KeyLeqTransitive(a: Key, b: Key, c: Key)
    requires KeyLeq(a, b) && KeyLeq(b, c)
    ensures KeyLeq(a, c)
  {
    StrLeqTotal(a.0, b.0);
    StrLeqTotal(b.0, c.0);
    if StrLeq(a.0, b.0) && StrLeq(b.0, c.0) {
      StrLeqTransitive(a.0, b.0, c.0);
    }
    if a.0 == b.0 == c.0 {
      StrLeqTransitive(a.1, b.1, c.1);
    } else if a.0 == c.0 {
      StrLeqTotal(a.0, b.0);
    }
  }

  function Insert<T>(x: T, sorted: seq<T>, key: T -> Key): (r: seq<T>)
    ensures multiset(r) == multiset(sorted) + multiset{x}
  {
    if sorted == [] || KeyLeq(key(x), key(sorted[0])) then
      assert multiset([x] + sorted) == multiset(sorted) + multiset{x};
      [x] + sorted
    else
      assert sorted == [sorted[0]] + sorted[1..];
      [sorted[0]] + Insert(x, sorted[1..], key)
  }

  /** The stable sort: an element goes before those of equal key that came after it. */
  function SortBy<T>(xs: seq<T>, key: T -> Key): (r: seq<T>)
    ensures multiset(r) == multiset(xs)
  {
    if xs == [] then [] else
      assert xs == [xs[0]] + xs[1..];
      Insert(xs[0], SortBy(xs[1..], key), key)
  }

  ghost predicate Sorted<T>(xs: seq<T>, key: T -> Key) {
    forall i, j :: 0 <= i < j < |xs| ==> KeyLeq(key(xs[i]), key(xs[j]))
  }

  ghost predicate StrictlySorted<T>(xs: seq<T>, key: T -> Key) {
    forall i, j :: 0 <= i < j < |xs| ==> KeyLess(key(xs[i]), key(xs[j]))
  }

  lemma {:induction false} InsertSorted<T>(x: T, xs: seq<T>, key: T -> Key)
    requires Sorted(xs, key)
    ensures Sorted(Insert(x, xs, key), key)
  {
    if xs == [] {
    } else {
      var r := Insert(x, xs, key);
      KeyLeqTotal(key(x), key(xs[0]));
      if KeyLeq(key(x), key(xs[0])) {
        forall i | 0 <= i < |xs| ensures KeyLeq(key(x), key(xs[i])) {
          if i > 0 { KeyLeqTransitive(key(x), key(xs[0]), key(xs[i])); }
        }
      } else {
        InsertSorted(x, xs[1..], key);
        var tail := Insert(x, xs[1..], key);
        forall i | 0 <= i < |tail| ensures KeyLeq(key(xs[0]), key(tail[i])) {
          assert tail[i] in multiset(tail);
          assert tail[i] == x || tail[i] in multiset(xs[1..]);
        }
      }
    }
  }

  lemma {:induction false} SortBySorted<T>(xs: seq<T>, key: T -> Key)
    ensures Sorted(SortBy(xs, key), key)
  {
    if xs == [] {
    } else {
      SortBySorted(xs[1..], key);
      InsertSorted(xs[0], SortBy(xs[1..], key), key);
    }
  }

  lemma {:induction false} InsertStrict<T>(x: T, xs: seq<T>, key: T -> Key)
    requires StrictlySorted(xs, key)
    requires forall i :: 0 <= i < |xs| ==> key(xs[i]) != key(x)
    ensures StrictlySorted(Insert(x, xs, key), key)
  {
    if xs == [] {
    } else {
      KeyLeqTotal(key(x), key(xs[0]));
      if KeyLeq(key(x), key(xs[0])) {
        forall i | 0 <= i < |xs| ensures KeyLess(key(x), key(xs[i])) {
          if i > 0 { KeyLeqTransitive(key(x), key(xs[0]), key(xs[i])); }
        }
      } else {
        InsertStrict(x, xs[1..], key);
        var tail := Insert(x, xs[1..], key);
        forall i | 0 <= i < |tail| ensures KeyLess(key(xs[0]), key(tail[i])) {
          assert tail[i] in multiset(tail);
          assert tail[i] == x || tail[i] in multiset(xs[1..]);
        }
      }
    }
  }

  /** Distinct keys come out in strict order. */
  lemma {:induction false} SortByStrict<T>(xs: seq<T>, key: T -> Key)
    requires forall i, j :: 0 <= i < j < |xs| ==> key(xs[i]) != key(xs[j])
    ensures StrictlySorted(SortBy(xs, key), key)
  {
    if xs == [] {
    } else {
      var tail := SortBy(xs[1..], key);
      SortByStrict(xs[1..], key);
      forall i | 0 <= i < |tail| ensures key(tail[i]) != key(xs[0]) {
        assert tail[i] in multiset(tail);
        assert tail[i] in multiset(xs[1..]);
      }
      InsertStrict(xs[0], tail, key);
    }
  }

  function Filter<T(!new)>(p: T -> bool, xs: seq<T>): (r: seq<T>)
    ensures forall x :: x in r <==> x in xs && p(x)
  {
    if xs == [] then []
    else if p(xs[0]) then [xs[0]] + Filter(p, xs[1..])
    else Filter(p, xs[1..])
  }

  lemma {:induction false} FilterAppend<T(!new)>(p: T -> bool, a: seq<T>, b: seq<T>)
    ensures Filter(p, a + b) == Filter(p, a) + Filter(p, b)
  {
    if a == [] {
      assert a + b == b;
    } else {
      assert (a + b)[1..] == a[1..] + b;
      FilterAppend(p, a[1..], b);
    }
  }

  lemma {:induction false} FilterInsert<T(!new)>(p: T -> bool, x: T, xs: seq<T>, key: T -> Key)
    requires Sorted(xs, key)
    ensures Filter(p, Insert(x, xs, key)) == if p(x) then Insert(x, Filter(p, xs), key) else Filter(p, xs)
  {
    if xs == [] {
    } else {
      if KeyLeq(key(x), key(xs[0])) {
        assert ([x] + xs)[1..] == xs;
        var f := Filter(p, xs);
        if f != [] {
          assert f[0] in xs;
          var i :| 0 <= i < |xs| && xs[i] == f[0];
          if i > 0 { KeyLeqTransitive(key(x), key(xs[0]), key(xs[i])); }
        }
      } else {
        FilterInsert(p, x, xs[1..], key);
        assert ([xs[0]] + Insert(x, xs[1..], key))[1..] == Insert(x, xs[1..], key);
        if p(xs[0]) {
          assert ([xs[0]] + Filter(p, xs[1..]))[1..] == Filter(p, xs[1..]);
        }
      }
    }
  }

  /** A stable sort commutes with every filter. */
  lemma {:induction false} FilterSortBy<T(!new)>(p: T -> bool, xs: seq<T>, key: T -> Key)
    ensures Filter(p, SortBy(xs, key)) == SortBy(Filter(p, xs), key)
  {
    if xs == [] {
    } else {
      FilterSortBy(p, xs[1..], key);
      SortBySorted(xs[1..], key);
      FilterInsert(p, xs[0], SortBy(xs[1..], key), key);
    }
  }

  /** `dedup_by` on equal keys: of each run of equal keys the first element stays. */
  function DedupBy<T>(xs: seq<T>, key: T -> Key): seq<T> {
    if |xs| <= 1 then xs
    else
      var init, last := xs[..|xs| - 1], xs[|xs| - 1];
      DedupBy(init, key) + if key(last) == key(init[|init| - 1]) then [] else [last]
  }

  /** Deduplication invents nothing and keeps the key of the last element at the end. */
  lemma {:induction false} DedupByMembers<T>(xs: seq<T>, key: T -> Key)
    ensures forall x :: x in DedupBy(xs, key) ==> x in xs
    ensures xs != [] ==> var d := DedupBy(xs, key); d != [] && key(d[|d| - 1]) == key(xs[|xs| - 1])
  {
    if |xs| <= 1 {
    } else {
      DedupByMembers(xs[..|xs| - 1], key);
    }
  }

  /** Deduplication loses no key. */
  lemma {:induction false} DedupByKeeps<T>(xs: seq<T>, key: T -> Key, i: nat) returns (y: T)
    requires i < |xs|
    ensures y in DedupBy(xs, key) && key(y) == key(xs[i])
  {
    var last := |xs| - 1;
    if |xs| == 1 {
      y := xs[0];
    } else if i < last {
      y := DedupByKeeps(xs[..last], key, i);
    } else if key(xs[last]) == key(xs[last - 1]) {
      y := DedupByKeeps(xs[..last], key, last - 1);
    } else {
      y := xs[last];
      assert DedupBy(xs, key)[|DedupBy(xs[..last], key)|] == y;
    }
  }

  /** In a sorted list a key that differs from the last but one has not occurred before. */
  lemma SortedLastDiffers<T>(xs: seq<T>, key: T -> Key)
    requires Sorted(xs, key) && |xs| >= 2 && key(xs[|xs| - 1]) != key(xs[|xs| - 2])
    ensures forall i :: 0 <= i < |xs| - 1 ==> KeyLess(key(xs[i]), key(xs[|xs| - 1]))
  {
    var last := |xs| - 1;
    KeyLeqTotal(key(xs[last - 1]), key(xs[last]));
  }

  /** On a sorted list, deduplication leaves each key exactly once, in order. */
  lemma {:induction false} DedupByStrict<T>(xs: seq<T>, key: T -> Key)
    requires Sorted(xs, key)
    ensures StrictlySorted(DedupBy(xs, key), key)
  {
    if |xs| <= 1 {
    } else {
      var init, last := xs[..|xs| - 1], xs[|xs| - 1];
      var d := DedupBy(init, key);
      DedupByStrict(init, key);
      if key(last) != key(init[|init| - 1]) {
        DedupByMembers(init, key);
        SortedLastDiffers(xs, key);
        forall i | 0 <= i < |d| ensures KeyLess(key(d[i]), key(last)) {
          assert d[i] in init;
        }
      }
    }
  }

  lemma DedupByPush<T>(xs: seq<T>, x: T, key: T -> Key)
    ensures DedupBy(xs + [x], key) ==
            DedupBy(xs, key) + if xs != [] && key(xs[|xs| - 1]) == key(x) then [] else [x]
  {
    assert (xs + [x])[..|xs|] == xs;
  }

  lemma FilterPush<T(!new)>(p: T -> bool, xs: seq<T>, x: T)
    ensures Filter(p, xs + [x]) == Filter(p, xs) + if p(x) then [x] else []
  {
    FilterAppend(p, xs, [x]);
    assert [x][1..] == [];
  }

  lemma FilterDedupByPush<T(!new)>(p: T -> bool, init: seq<T>, prev: T, last: T, key: T -> Key)
    requires Filter(p, DedupBy(init + [prev], key)) == DedupBy(Filter(p, init + [prev]), key)
    requires key(prev) == key(last) ==> p(prev) == p(last)
    requires key(prev) != key(last) ==> forall x :: x in init + [prev] ==> key(x) != key(last)
    ensures Filter(p, DedupBy(init + [prev] + [last], key)) == DedupBy(Filter(p, init + [prev] + [last]), key)
  {
    hide Filter, DedupBy;
    var xs := init + [prev];
    var f := Filter(p, xs);
    DedupByPush(xs, last, key);
    FilterPush(p, xs, last);
    FilterPush(p, DedupBy(xs, key), last);
    FilterPush(p, init, prev);
    assert f + [] == f && DedupBy(xs, key) + [] == DedupBy(xs, key);
    if p(last) {
      DedupByPush(f, last, key);
      if key(prev) != key(last) {
        assert f != [] ==> f[|f| - 1] in xs;
      }
    }
  }

  lemma FilterShort<T(!new)>(p: T -> bool, xs: seq<T>)
    requires |xs| <= 1
    ensures |Filter(p, xs)| <= 1
  {
  }

  /** On a sorted list deduplication commutes with a filter that looks only at the key. */
  lemma {:induction false} FilterDedupBy<T(!new)>(p: T -> bool, xs: seq<T>, key: T -> Key)
    requires Sorted(xs, key)
    requires forall i, j :: 0 <= i < j < |xs| && key(xs[i]) == key(xs[j]) ==> p(xs[i]) == p(xs[j])
    ensures Filter(p, DedupBy(xs, key)) == DedupBy(Filter(p, xs), key)
  {
    if |xs| <= 1 {
      FilterShort(p, xs);
      hide Filter;
    } else {
      var ys := xs[..|xs| - 1];
      var init, prev, last := xs[..|xs| - 2], xs[|xs| - 2], xs[|xs| - 1];
      FilterDedupBy(p, ys, key);
      assert ys == init + [prev] && xs == init + [prev] + [last];
      hide Filter, DedupBy;
      if key(prev) != key(last) {
        SortedLastDiffers(xs, key);
      }
      FilterDedupByPush(p, init, prev, last, key);
    }
  }

  /** A strictly sorted list is determined by its elements. */
  lemma {:induction false} StrictlySortedUnique<T>(a: seq<T>, b: seq<T>, key: T -> Key)
    requires StrictlySorted(a, key) && StrictlySorted(b, key)
    requires forall x :: x in a <==> x in b
    ensures a == b
  {
    assert a != [] ==> a[0] in b;
    assert b != [] ==> b[0] in a;
    if a == [] {
    } else {
      var i :| 0 <= i < |b| && b[i] == a[0];
      var j :| 0 <= j < |a| && a[j] == b[0];
      if i > 0 && j > 0 {
        KeyLeqTotal(key(a[0]), key(b[0]));
      }
      assert a[0] == b[0];
      forall x | x in a[1..] ensures x in b[1..] {
        assert x in b && key(x) != key(a[0]);
      }
      forall x | x in b[1..] ensures x in a[1..] {
        assert x in a && key(x) != key(b[0]);
      }
      StrictlySortedUnique(a[1..], b[1..], key);
    }
  }
}
