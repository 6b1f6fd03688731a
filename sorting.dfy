/**
 * `sort((a, b) => key(b) - key(a))` as the pages use it (src/pages/Leaderboard.tsx line 34,
 * supabase/functions/run-debate/index.ts line 19): `Array.prototype.sort` is stable, and this
 * comparator orders by descending key, so elements with equal keys keep their order.
 */
module Sorting {
  import opened Seqs

  predicate NonIncreasing<T>(s: seq<T>, key: T -> real) {
    forall i, j | 0 <= i < j < |s| :: key(s[i]) >= key(s[j])
  }

  /** The elements whose key is `v`. */
  function HasKey<T>(key: T -> real, v: real): T -> bool {
    y => key(y) == v
  }

  /** `x` placed after every element whose key is at least its own. */
  function Insert<T>(x: T, s: seq<T>, key: T -> real): (r: seq<T>)
    decreases |s|
  {
    if s == [] then [x]
    else if key(s[0]) < key(x) then [x] + s
    else [s[0]] + Insert(x, s[1..], key)
  }

  /** The stable descending order, built by inserting the elements in their order. */
  function SortDesc<T>(s: seq<T>, key: T -> real): (r: seq<T>)
    decreases |s|
  {
    if s == [] then [] else Insert(s[|s| - 1], SortDesc(s[..|s| - 1], key), key)
  }

  lemma {:induction false} InsertPerm<T>(x: T, s: seq<T>, key: T -> real)
    ensures multiset(Insert(x, s, key)) == multiset(s) + multiset{x}
    decreases |s|
  {
    if s != [] {
      assert s == [s[0]] + s[1..];
      if key(s[0]) >= key(x) {
        InsertPerm(x, s[1..], key);
      }
    }
  }

  /** An element whose key is at least every key of an ordered list may go in front of it. */
  lemma OrderedCons<T>(y: T, u: seq<T>, key: T -> real)
    requires NonIncreasing(u, key)
    requires forall k | 0 <= k < |u| :: key(y) >= key(u[k])
    ensures NonIncreasing([y] + u, key)
  {
    var r := [y] + u;
    forall i, j | 0 <= i < j < |r|
      ensures key(r[i]) >= key(r[j])
    {
      assert r[j] == u[j - 1];
      if i > 0 {
        assert r[i] == u[i - 1];
      }
    }
  }

  lemma {:induction false} InsertSorted<T>(x: T, s: seq<T>, key: T -> real)
    requires NonIncreasing(s, key)
    ensures NonIncreasing(Insert(x, s, key), key)
    decreases |s|
  {
    if s != [] && key(s[0]) >= key(x) {
      var t := s[1..];
      assert NonIncreasing(t, key) by {
        forall i, j | 0 <= i < j < |t|
          ensures key(t[i]) >= key(t[j])
        {
          assert t[i] == s[i + 1] && t[j] == s[j + 1];
        }
      }
      InsertSorted(x, t, key);
      var it := Insert(x, t, key);
      assert forall k | 0 <= k < |it| :: key(s[0]) >= key(it[k]) by {
        InsertPerm(x, t, key);
        forall k | 0 <= k < |it|
          ensures key(s[0]) >= key(it[k])
        {
          assert it[k] in multiset(it);
          if it[k] != x {
            assert it[k] in multiset(t);
            var e :| 0 <= e < |t| && t[e] == it[k];
            assert t[e] == s[e + 1];
          }
        }
      }
      OrderedCons(s[0], it, key);
    } else if s != [] {
      assert forall k | 0 <= k < |s| :: key(x) >= key(s[k]) by {
        forall k | 0 <= k < |s|
          ensures key(x) >= key(s[k])
        {
          assert key(s[0]) >= key(s[k]) || k == 0;
        }
      }
      OrderedCons(x, s, key);
    }
  }

  /** The result is ordered by descending key. */
  lemma {:induction false} SortedDesc<T>(s: seq<T>, key: T -> real)
    ensures NonIncreasing(SortDesc(s, key), key)
    decreases |s|
  {
    if s != [] {
      SortedDesc(s[..|s| - 1], key);
      InsertSorted(s[|s| - 1], SortDesc(s[..|s| - 1], key), key);
    }
  }

  /** The result is a permutation of the input. */
  lemma {:induction false} SortPermutes<T>(s: seq<T>, key: T -> real)
    ensures multiset(SortDesc(s, key)) == multiset(s)
    decreases |s|
  {
    if s != [] {
      var init := s[..|s| - 1];
      SortPermutes(init, key);
      InsertPerm(s[|s| - 1], SortDesc(init, key), key);
      assert s == init + [s[|s| - 1]];
    }
  }

  /** `x` goes in front: either it has the key, and none of the others can, or it has not. */
  lemma InsertFilterFront<T>(x: T, s: seq<T>, key: T -> real, v: real)
    requires NonIncreasing(s, key) && s != [] && key(s[0]) < key(x)
    ensures Filter([x] + s, HasKey(key, v)) == Filter(s, HasKey(key, v)) + Filter([x], HasKey(key, v))
  {
    var p := HasKey(key, v);
    FilterOne(x, p);
    FilterAppend([x], s, p);
    if key(x) == v {
      forall k | 0 <= k < |s|
        ensures !p(s[k])
      {
        assert key(s[0]) >= key(s[k]) || k == 0;
      }
      FilterNone(s, p);
      assert Filter(s, p) == [];
    } else {
      assert Filter([x], p) == [];
    }
  }

  /** A list ordered by descending key, with `x` inserted: the elements with one key are the old ones, then `x`. */
  lemma {:induction false} InsertFilter<T>(x: T, s: seq<T>, key: T -> real, v: real)
    requires NonIncreasing(s, key)
    ensures Filter(Insert(x, s, key), HasKey(key, v)) == Filter(s, HasKey(key, v)) + Filter([x], HasKey(key, v))
    decreases |s|
  {
    var p := HasKey(key, v);
    if s == [] {
      assert Filter([], p) == [];
    } else if key(s[0]) < key(x) {
      InsertFilterFront(x, s, key, v);
    } else {
      var t := s[1..];
      assert NonIncreasing(t, key) by {
        forall i, j | 0 <= i < j < |t|
          ensures key(t[i]) >= key(t[j])
        {
          assert t[i] == s[i + 1] && t[j] == s[j + 1];
        }
      }
      InsertFilter(x, t, key, v);
      FilterAppend([s[0]], Insert(x, t, key), p);
      FilterAppend([s[0]], t, p);
      assert s == [s[0]] + t;
      calc {
        Filter(Insert(x, s, key), p);
        Filter([s[0]], p) + Filter(Insert(x, t, key), p);
        Filter([s[0]], p) + (Filter(t, p) + Filter([x], p));
        Filter(s, p) + Filter([x], p);
      }
    }
  }

  /** Stability: for every key, the elements with that key come out in their input order. */
  lemma {:induction false} SortStable<T>(s: seq<T>, key: T -> real, v: real)
    ensures Filter(SortDesc(s, key), HasKey(key, v)) == Filter(s, HasKey(key, v))
    decreases |s|
  {
    if s != [] {
      var init := s[..|s| - 1];
      SortStable(init, key, v);
      SortedDesc(init, key);
      InsertFilter(s[|s| - 1], SortDesc(init, key), key, v);
      FilterAppend(init, [s[|s| - 1]], HasKey(key, v));
      assert s == init + [s[|s| - 1]];
    }
  }

  /** `Insert` written out at the place the swaps stop. */
  lemma {:induction false} InsertAt<T>(x: T, s: seq<T>, key: T -> real, j: nat)
    requires j <= |s| && NonIncreasing(s, key)
    requires j > 0 ==> key(s[j - 1]) >= key(x)
    requires forall k | j <= k < |s| :: key(s[k]) < key(x)
    ensures Insert(x, s, key) == s[..j] + [x] + s[j..]
    decreases |s|
  {
    if j > 0 {
      var t := s[1..];
      assert key(s[0]) >= key(x) by {
        assert key(s[0]) >= key(s[j - 1]) || j == 1;
      }
      assert NonIncreasing(t, key) by {
        forall a, b | 0 <= a < b < |t|
          ensures key(t[a]) >= key(t[b])
        {
          assert t[a] == s[a + 1] && t[b] == s[b + 1];
        }
      }
      assert forall k | j - 1 <= k < |t| :: key(t[k]) < key(x) by {
        forall k | j - 1 <= k < |t|
          ensures key(t[k]) < key(x)
        {
          assert t[k] == s[k + 1];
        }
      }
      assert j - 1 > 0 ==> key(t[j - 2]) >= key(x) by {
        if j > 1 {
          assert t[j - 2] == s[j - 1];
        }
      }
      InsertAt(x, t, key, j - 1);
      assert t[..j - 1] == s[1..j];
      assert t[j - 1..] == s[j..];
      assert s[..j] == [s[0]] + s[1..j];
    } else {
      assert s[..0] + [x] + s[0..] == [x] + s;
    }
  }

  /** One swap moves the element at `j` one place down and keeps the others in order. */
  lemma SwapSlices<T>(b: seq<T>, c: seq<T>, j: nat, i: nat)
    requires 0 < j <= i < |b| && |c| == |b|
    requires c == b[j - 1 := b[j]][j := b[j - 1]]
    ensures c[..j - 1] + c[j..i + 1] == b[..j] + b[j + 1..i + 1]
    ensures c[i + 1..] == b[i + 1..] && c[j - 1] == b[j]
  {
    assert c[..j - 1] == b[..j - 1];
    assert c[j..i + 1] == [b[j - 1]] + b[j + 1..i + 1];
    assert b[..j] == b[..j - 1] + [b[j - 1]];
  }

  /** A sequence with the element at `j` taken out, and put back. */
  lemma TakenOut<T>(c: seq<T>, sorted: seq<T>, j: nat, i: nat)
    requires j <= i < |c| && c[..j] + c[j + 1..i + 1] == sorted
    ensures sorted[..j] == c[..j] && sorted[j..] == c[j + 1..i + 1]
    ensures c[..i + 1] == sorted[..j] + [c[j]] + sorted[j..]
  {
    assert |c[..j]| == j;
    assert sorted[..j] == c[..j];
    assert sorted[j..] == c[j + 1..i + 1];
    assert c[..i + 1] == c[..j] + [c[j]] + c[j + 1..i + 1];
  }

  /** Where the swaps stop, the prefix is the element put back at `j`, with smaller keys behind it only. */
  lemma StopFacts<T>(c: seq<T>, sorted: seq<T>, x: T, key: T -> real, j: nat, i: nat)
    requires j <= i < |c| && c[j] == x && c[..j] + c[j + 1..i + 1] == sorted
    requires forall k | j < k <= i :: key(c[k]) < key(x)
    requires j > 0 ==> key(c[j - 1]) >= key(x)
    ensures c[..i + 1] == sorted[..j] + [x] + sorted[j..]
    ensures forall k | j <= k < |sorted| :: key(sorted[k]) < key(x)
    ensures j > 0 ==> key(sorted[j - 1]) >= key(x)
  {
    TakenOut(c, sorted, j, i);
    forall k | j <= k < |sorted|
      ensures key(sorted[k]) < key(x)
    {
      assert sorted[k] == sorted[j..][k - j] == c[j + 1..i + 1][k - j] == c[k + 1];
    }
    if j > 0 {
      assert sorted[j - 1] == sorted[..j][j - 1] == c[j - 1];
    }
  }

  /** The element at `i` swapped down into the ordered prefix before it. */
  method InsertLast<T>(a: array<T>, i: nat, key: T -> real)
    requires i < a.Length && NonIncreasing(a[..i], key)
    modifies a
    ensures a[..i + 1] == Insert(old(a[i]), old(a[..i]), key)
    ensures a[i + 1..] == old(a[i + 1..])
  {
    ghost var sorted, rest := a[..i], a[i + 1..];
    var x := a[i];
    var j := i;
    while j > 0 && key(a[j - 1]) < key(a[j])
      invariant 0 <= j <= i && a[j] == x
      invariant a[..j] + a[j + 1..i + 1] == sorted
      invariant a[i + 1..] == rest
      invariant forall k | j < k <= i :: key(a[k]) < key(x)
      decreases j
    {
      ghost var b := a[..];
      a[j - 1], a[j] := a[j], a[j - 1];
      SwapSlices(b, a[..], j, i);
      j := j - 1;
    }
    StopFacts(a[..], sorted, x, key, j, i);
    InsertAt(x, sorted, key, j);
  }

  /**
   * The in-place sort: insertion with adjacent swaps over the array, ending in the same
   * order as `SortDesc`.
   */
  method SortInPlace<T>(a: array<T>, key: T -> real)
    modifies a
    ensures a[..] == SortDesc(old(a[..]), key)
  {
    ghost var orig := a[..];
    for i := 0 to a.Length
      invariant a[..i] == SortDesc(orig[..i], key)
      invariant a[i..] == orig[i..]
    {
      SortedDesc(orig[..i], key);
      InsertLast(a, i, key);
      assert orig[..i + 1][..i] == orig[..i];
    }
    assert a[..a.Length] == a[..];
    assert orig[..a.Length] == orig;
  }

  lemma {:induction false} FilterNone<T>(s: seq<T>, p: T -> bool)
    requires forall k | 0 <= k < |s| :: !p(s[k])
    ensures Filter(s, p) == []
    decreases |s|
  {
    if s != [] {
      FilterNone(s[..|s| - 1], p);
    }
  }

  /** An element no larger than every element of an ordered list may be put at its end. */
  lemma OrderedSnoc<T>(s: seq<T>, x: T, key: T -> real)
    requires NonIncreasing(s, key)
    requires forall y | y in s :: key(y) >= key(x)
    ensures NonIncreasing(s + [x], key)
  {
    var r := s + [x];
    forall i, j | 0 <= i < j < |r|
      ensures key(r[i]) >= key(r[j])
    {
      assert r[i] == s[i];
      if j < |s| {
        assert r[j] == s[j];
      }
    }
  }

  lemma FilterBelow<T>(s: seq<T>, p: T -> bool, key: T -> real, v: real)
    requires forall k | 0 <= k < |s| :: key(s[k]) >= v
    ensures forall y | y in Filter(s, p) :: key(y) >= v
  {
    FilterMembers(s, p);
  }

  /** Filtering an ordered list leaves it ordered. */
  lemma {:induction false} FilterOrdered<T>(s: seq<T>, p: T -> bool, key: T -> real)
    requires NonIncreasing(s, key)
    ensures NonIncreasing(Filter(s, p), key)
    decreases |s|
  {
    if s != [] {
      var init, last := s[..|s| - 1], s[|s| - 1];
      assert NonIncreasing(init, key) by {
        forall i, j | 0 <= i < j < |init|
          ensures key(init[i]) >= key(init[j])
        {
          assert init[i] == s[i] && init[j] == s[j];
        }
      }
      FilterOrdered(init, p, key);
      if p(last) {
        forall k | 0 <= k < |init|
          ensures key(init[k]) >= key(last)
        {
          assert init[k] == s[k];
        }
        FilterBelow(init, p, key, key(last));
        OrderedSnoc(Filter(init, p), last, key);
      }
    }
  }
}
