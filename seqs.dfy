/**
 * The array builtins the pages use on fetched rows: `find` (the first element that satisfies a
 * test) and `filter` (the elements that do, in order); and `All` and `TakeWhile`, the shape of a
 * loop that goes over lines until one fails a test.
 */
module Seqs {
  import opened Wrappers

  /** The position of the first element of `s` that satisfies `p`. */
  function FindIndex<T>(s: seq<T>, p: T -> bool): (r: Option<nat>)
    ensures r.Some? ==> r.value < |s| && p(s[r.value]) && forall k | 0 <= k < r.value :: !p(s[k])
    ensures r.None? ==> forall k | 0 <= k < |s| :: !p(s[k])
  {
    if s == [] then None
    else if p(s[0]) then Some(0)
    else match FindIndex(s[1..], p)
      case Some(i) => Some(i + 1)
      case None => None
  }

  /** `find`: the first element that satisfies `p`, or nothing. */
  function Find<T>(s: seq<T>, p: T -> bool): (r: Option<T>)
    ensures r.Some? <==> exists k | 0 <= k < |s| :: p(s[k])
    ensures r.Some? ==> exists k | 0 <= k < |s| :: s[k] == r.value && p(s[k]) && forall e | 0 <= e < k :: !p(s[e])
  {
    match FindIndex(s, p)
    case Some(i) => Some(s[i])
    case None => None
  }

  /** `filter`: the elements that satisfy `p`, in their order. */
  function Filter<T>(s: seq<T>, p: T -> bool): (r: seq<T>)
    ensures |r| <= |s|
    decreases |s|
  {
    if s == [] then [] else Filter(s[..|s| - 1], p) + (if p(s[|s| - 1]) then [s[|s| - 1]] else [])
  }

  /** The filter keeps exactly the elements that satisfy the test. */
  lemma {:induction false} FilterMembers<T>(s: seq<T>, p: T -> bool)
    ensures forall x :: x in Filter(s, p) <==> x in s && p(x)
    decreases |s|
  {
    if s != [] {
      var init := s[..|s| - 1];
      FilterMembers(init, p);
      assert s == init + [s[|s| - 1]];
    }
  }

  /** The filter goes element by element, so it keeps the order. */
  lemma {:induction false} FilterAppend<T>(a: seq<T>, b: seq<T>, p: T -> bool)
    ensures Filter(a + b, p) == Filter(a, p) + Filter(b, p)
    decreases |b|
  {
    if b == [] {
      assert a + b == a;
    } else {
      var init := b[..|b| - 1];
      assert (a + b)[..|a + b| - 1] == a + init;
      FilterAppend(a, init, p);
    }
  }

  lemma FilterOne<T>(x: T, p: T -> bool)
    ensures Filter([x], p) == if p(x) then [x] else []
  {
    assert [x][..0] == [];
  }

  /** Every element passes: the filter changes nothing. */
  lemma {:induction false} FilterAll<T>(s: seq<T>, p: T -> bool)
    requires forall k | 0 <= k < |s| :: p(s[k])
    ensures Filter(s, p) == s
    decreases |s|
  {
    if s != [] {
      FilterAll(s[..|s| - 1], p);
      assert s == s[..|s| - 1] + [s[|s| - 1]];
    }
  }

  /** Every element satisfies `p`. */
  predicate All<T>(s: seq<T>, p: T -> bool) {
    forall k | 0 <= k < |s| :: p(s[k])
  }

  /** The longest prefix whose elements all satisfy `p`: a loop that stops at the first one that fails. */
  function TakeWhile<T>(s: seq<T>, p: T -> bool): seq<T>
    decreases |s|
  {
    if s == [] || !p(s[0]) then [] else [s[0]] + TakeWhile(s[1..], p)
  }

  lemma AllAppend<T>(a: seq<T>, b: seq<T>, p: T -> bool)
    ensures All(a + b, p) <==> All(a, p) && All(b, p)
  {
    if All(a + b, p) {
      forall k | 0 <= k < |a|
        ensures p(a[k])
      {
        assert a[k] == (a + b)[k];
      }
      forall k | 0 <= k < |b|
        ensures p(b[k])
      {
        assert b[k] == (a + b)[|a| + k];
      }
    }
  }

  lemma AllCons<T>(x: T, xs: seq<T>, p: T -> bool)
    ensures All([x] + xs, p) <==> p(x) && All(xs, p)
  {
    AllAppend([x], xs, p);
    assert [x][0] == x;
  }

  lemma TakeWhileCons<T>(x: T, xs: seq<T>, p: T -> bool)
    ensures TakeWhile([x] + xs, p) == if p(x) then [x] + TakeWhile(xs, p) else []
  {
    assert ([x] + xs)[0] == x;
    assert ([x] + xs)[1..] == xs;
  }

  /** The prefix of `a + b`: all of `a` and then that of `b` when `a` passes, else that of `a`. */
  lemma {:induction false} TakeWhileAppend<T>(a: seq<T>, b: seq<T>, p: T -> bool)
    ensures TakeWhile(a + b, p) == if All(a, p) then a + TakeWhile(b, p) else TakeWhile(a, p)
    decreases |a|
  {
    if a == [] {
      assert a + b == b;
    } else {
      var x, xs := a[0], a[1..];
      assert a + b == [x] + (xs + b);
      assert a == [x] + xs;
      TakeWhileCons(x, xs + b, p);
      TakeWhileCons(x, xs, p);
      AllCons(x, xs, p);
      TakeWhileAppend(xs, b, p);
      if p(x) && All(xs, p) {
        assert [x] + (xs + TakeWhile(b, p)) == a + TakeWhile(b, p);
      }
    }
  }

  /** The prefix passes, is shorter exactly when some element fails, and then stops at one that fails. */
  lemma {:induction false} TakeWhileSpec<T>(s: seq<T>, p: T -> bool)
    ensures TakeWhile(s, p) <= s && All(TakeWhile(s, p), p)
    ensures |TakeWhile(s, p)| < |s| <==> !All(s, p)
    ensures |TakeWhile(s, p)| < |s| ==> !p(s[|TakeWhile(s, p)|])
    decreases |s|
  {
    if s != [] {
      var x, xs := s[0], s[1..];
      assert s == [x] + xs;
      TakeWhileCons(x, xs, p);
      AllCons(x, xs, p);
      if p(x) {
        TakeWhileSpec(xs, p);
        var u := TakeWhile(xs, p);
        AllCons(x, u, p);
        assert |u| < |xs| ==> s[|u| + 1] == xs[|u|];
      }
    }
  }
}
