/**
  The two list operations the program builds its selections from:
  `filter`, and a filter fused with a map (keep what a function gives,
  drop what it gives nothing for).
*/
module Seqs {
  import opened Types

  /** `xs.filter(p)`. */
  function Filter<T>(xs: seq<T>, p: T -> bool): (r: seq<T>)
    ensures |r| <= |xs|
    ensures forall j :: 0 <= j < |r| ==> p(r[j]) && r[j] in xs
    ensures forall i :: 0 <= i < |xs| && p(xs[i]) ==> xs[i] in r
    ensures (forall i :: 0 <= i < |xs| ==> p(xs[i])) ==> r == xs
    ensures (forall i :: 0 <= i < |xs| ==> !p(xs[i])) ==> r == []
    decreases |xs|
  {
    if |xs| == 0 then []
    else
      var init := xs[..|xs| - 1];
      var rest := Filter(init, p);
      assert xs == init + [xs[|xs| - 1]];
      rest + (if p(xs[|xs| - 1]) then [xs[|xs| - 1]] else [])
  }

  /** Filtering works block by block, so it keeps the order of what it keeps. */
  lemma {:induction false} FilterAppend<T>(a: seq<T>, b: seq<T>, p: T -> bool)
    ensures Filter(a + b, p) == Filter(a, p) + Filter(b, p)
    decreases |b|
  {
    if |b| == 0 {
      assert a + b == a;
    } else {
      var b' := b[..|b| - 1];
      FilterAppend(a, b', p);
      assert (a + b)[..|a + b| - 1] == a + b';
      assert (a + b)[|a + b| - 1] == b[|b| - 1];
    }
  }

  /** The values `f` gives to the elements of `xs`, in order, skipping the elements it gives nothing for. */
  function FilterMap<T, U>(xs: seq<T>, f: T -> Option<U>): (r: seq<U>)
    ensures |r| <= |xs|
    ensures (forall i :: 0 <= i < |xs| ==> f(xs[i]).None?) ==> r == []
    decreases |xs|
  {
    if |xs| == 0 then []
    else
      var init := xs[..|xs| - 1];
      var rest := FilterMap(init, f);
      assert forall i :: 0 <= i < |init| ==> init[i] == xs[i];
      var y := f(xs[|xs| - 1]);
      rest + (if y.Some? then [y.value] else [])
  }

  /**
    `FilterMap` works block by block: what is kept from two blocks is what is
    kept from the first followed by what is kept from the second. So order is
    kept, and an element kept twice appears twice.
  */
  lemma {:induction false} FilterMapAppend<T, U>(a: seq<T>, b: seq<T>, f: T -> Option<U>)
    ensures FilterMap(a + b, f) == FilterMap(a, f) + FilterMap(b, f)
    decreases |b|
  {
    if |b| == 0 {
      assert a + b == a;
    } else {
      var b' := b[..|b| - 1];
      var x := b[|b| - 1];
      FilterMapAppend(a, b', f);
      assert a + b == (a + b') + [x];
      assert b == b' + [x];
      FilterMapSnoc(a + b', x, f);
      FilterMapSnoc(b', x, f);
    }
  }

  /** Every value `f` gives to an element is kept. */
  lemma {:induction false} FilterMapKeeps<T, U>(xs: seq<T>, f: T -> Option<U>)
    ensures forall i :: 0 <= i < |xs| && f(xs[i]).Some? ==> f(xs[i]).value in FilterMap(xs, f)
    decreases |xs|
  {
    if |xs| > 0 {
      var n := |xs| - 1;
      FilterMapKeeps(xs[..n], f);
      FilterMapSnoc(xs[..n], xs[n], f);
      assert xs == xs[..n] + [xs[n]];
      forall i | 0 <= i < n && f(xs[i]).Some?
        ensures f(xs[i]).value in FilterMap(xs, f)
      {
        assert xs[..n][i] == xs[i];
      }
    }
  }

  /** Everything `FilterMap` keeps is what `f` gives to some element. */
  lemma {:induction false} FilterMapOrigin<T, U>(xs: seq<T>, f: T -> Option<U>)
    ensures forall j :: 0 <= j < |FilterMap(xs, f)| ==>
      exists i :: 0 <= i < |xs| && f(xs[i]) == Some(FilterMap(xs, f)[j])
    decreases |xs|
  {
    if |xs| > 0 {
      var init := xs[..|xs| - 1];
      FilterMapOrigin(init, f);
      var r := FilterMap(xs, f);
      var rest := FilterMap(init, f);
      assert r[..|rest|] == rest;
      forall j | 0 <= j < |r|
        ensures exists i :: 0 <= i < |xs| && f(xs[i]) == Some(r[j])
      {
        if j < |rest| {
          assert r[j] == rest[j];
          var i :| 0 <= i < |init| && f(init[i]) == Some(rest[j]);
          assert xs[i] == init[i];
        } else {
          assert f(xs[|xs| - 1]) == Some(r[j]);
        }
      }
    } else {
      assert |FilterMap(xs, f)| == 0;
    }
  }

  lemma FilterMapSnoc<T, U>(xs: seq<T>, x: T, f: T -> Option<U>)
    ensures FilterMap(xs + [x], f) == FilterMap(xs, f) + (if f(x).Some? then [f(x).value] else [])
  {
    assert (xs + [x])[..|xs|] == xs;
  }

}
