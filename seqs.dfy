/** Order-preserving selection over sequences: the indices an element test accepts, the
    filtered subsequence (`filter`, list comprehensions with an `if`), and the first index
    accepted (`Array.prototype.find`, a `for` loop that breaks on the first hit), the
    concatenation of what each element contributes, and whether some element is accepted. */
module Seqs {
  import opened Text

  /** The indices of the elements `p` accepts, in ascending order. */
  function Positions<T>(xs: seq<T>, p: T -> bool): (r: seq<nat>)
    ensures |r| <= |xs|
    ensures forall k :: 0 <= k < |r| ==> r[k] < |xs|
  {
    if xs == [] then []
    else Positions(xs[..|xs| - 1], p) + (if p(xs[|xs| - 1]) then [|xs| - 1] else [])
  }

  ghost predicate Increasing(ps: seq<nat>) {
    forall a, b :: 0 <= a < b < |ps| ==> ps[a] < ps[b]
  }

  /** Positions lists exactly the accepted indices, each once, in ascending order. */
  lemma {:induction false} PositionsSpec<T>(xs: seq<T>, p: T -> bool)
    ensures Increasing(Positions(xs, p))
    ensures forall k :: 0 <= k < |Positions(xs, p)| ==>
      Positions(xs, p)[k] < |xs| && p(xs[Positions(xs, p)[k]])
    ensures forall i :: 0 <= i < |xs| && p(xs[i]) ==> i in Positions(xs, p)
  {
    if xs != [] {
      var init := xs[..|xs| - 1];
      PositionsSpec(init, p);
      assert forall j :: 0 <= j < |init| ==> xs[j] == init[j];
    }
  }

  /** The subsequence of the elements `p` accepts. */
  function Filter<T>(xs: seq<T>, p: T -> bool): (r: seq<T>)
    ensures |r| <= |xs|
  {
    if xs == [] then []
    else Filter(xs[..|xs| - 1], p) + (if p(xs[|xs| - 1]) then [xs[|xs| - 1]] else [])
  }

  /** The k-th kept element is the element at the k-th accepted index. */
  lemma {:induction false} FilterAt<T>(xs: seq<T>, p: T -> bool)
    ensures |Filter(xs, p)| == |Positions(xs, p)|
    ensures forall k :: 0 <= k < |Filter(xs, p)| ==>
      Positions(xs, p)[k] < |xs| && Filter(xs, p)[k] == xs[Positions(xs, p)[k]]
  {
    if xs != [] {
      var init := xs[..|xs| - 1];
      FilterAt(init, p);
      PositionsSpec(init, p);
    }
  }

  /** An element is kept exactly when it occurs in the input and is accepted. */
  lemma {:induction false} FilterMembership<T>(xs: seq<T>, p: T -> bool, x: T)
    ensures x in Filter(xs, p) <==> x in xs && p(x)
  {
    if xs != [] {
      var init := xs[..|xs| - 1];
      FilterMembership(init, p, x);
      assert xs == init + [xs[|xs| - 1]];
    }
  }

  /** Filtering distributes over concatenation, so it keeps the input's order. */
  lemma {:induction false} FilterAppend<T>(a: seq<T>, b: seq<T>, p: T -> bool)
    ensures Filter(a + b, p) == Filter(a, p) + Filter(b, p)
    decreases |b|
  {
    if b == [] {
      assert a + b == a;
    } else {
      var init := b[..|b| - 1];
      assert (a + b)[..|a + b| - 1] == a + init;
      FilterAppend(a, init, p);
    }
  }

  /** When every element is accepted nothing is dropped. */
  lemma {:induction false} FilterKeepsAll<T>(xs: seq<T>, p: T -> bool)
    requires forall i :: 0 <= i < |xs| ==> p(xs[i])
    ensures Filter(xs, p) == xs
  {
    if xs != [] {
      var init := xs[..|xs| - 1];
      assert forall i :: 0 <= i < |init| ==> init[i] == xs[i];
      FilterKeepsAll(init, p);
    }
  }

  /** The first index whose element `p` accepts. */
  function FindFirst<T>(xs: seq<T>, p: T -> bool): (r: Option<nat>)
    ensures r.Some? ==> r.value < |xs| && p(xs[r.value])
    ensures r.Some? ==> forall j :: 0 <= j < r.value ==> !p(xs[j])
    ensures r.None? <==> forall j :: 0 <= j < |xs| ==> !p(xs[j])
  {
    if xs == [] then None
    else if p(xs[0]) then Some(0)
    else match FindFirst(xs[1..], p)
      case None => None
      case Some(i) => Some(i + 1)
  }

  /** The concatenation of what `f` gives for each element, in order. */
  function FlatMap<T, U>(xs: seq<T>, f: T -> seq<U>): seq<U> {
    if xs == [] then [] else f(xs[0]) + FlatMap(xs[1..], f)
  }

  lemma FlatMapCons<T, U>(x: T, xs: seq<T>, f: T -> seq<U>)
    ensures FlatMap([x] + xs, f) == f(x) + FlatMap(xs, f)
  {
    assert ([x] + xs)[1..] == xs;
  }

  lemma {:induction false} FlatMapAppend<T, U>(a: seq<T>, b: seq<T>, f: T -> seq<U>)
    ensures FlatMap(a + b, f) == FlatMap(a, f) + FlatMap(b, f)
    decreases |a|
  {
    if a == [] {
      assert a + b == b;
    } else {
      assert a + b == [a[0]] + (a[1..] + b);
      FlatMapCons(a[0], a[1..] + b, f);
      FlatMapAppend(a[1..], b, f);
    }
  }

  /** Each element's part sits after the parts of the elements before it and before the
      parts of those after it. */
  lemma FlatMapSplit<T, U>(xs: seq<T>, f: T -> seq<U>, k: nat)
    requires k < |xs|
    ensures FlatMap(xs, f) == FlatMap(xs[..k], f) + f(xs[k]) + FlatMap(xs[k + 1..], f)
  {
    var a, b := FlatMap(xs[..k], f), FlatMap(xs[k + 1..], f);
    assert xs == xs[..k] + xs[k..];
    FlatMapAppend(xs[..k], xs[k..], f);
    assert xs[k..][0] == xs[k] && xs[k..][1..] == xs[k + 1..];
    assert FlatMap(xs[k..], f) == f(xs[k]) + b;
    assert a + (f(xs[k]) + b) == a + f(xs[k]) + b;
  }

  /** Some element is accepted. */
  predicate Exists<T>(xs: seq<T>, p: T -> bool) {
    exists k :: 0 <= k < |xs| && p(xs[k])
  }

  /** Some element is accepted exactly when the first is or some later one is. */
  lemma ExistsFirst<T>(xs: seq<T>, p: T -> bool)
    requires xs != []
    ensures Exists(xs, p) <==> p(xs[0]) || Exists(xs[1..], p)
  {
    ExistsCons(xs[0], xs[1..], p);
    assert xs == [xs[0]] + xs[1..];
  }

  lemma ExistsCons<T>(x: T, xs: seq<T>, p: T -> bool)
    ensures Exists([x] + xs, p) <==> p(x) || Exists(xs, p)
  {
    var all := [x] + xs;
    if p(x) {
      assert all[0] == x;
    }
    if Exists(xs, p) {
      var k :| 0 <= k < |xs| && p(xs[k]);
      assert all[k + 1] == xs[k];
    }
    if Exists(all, p) {
      var k :| 0 <= k < |all| && p(all[k]);
      if k == 0 {
        assert all[0] == x;
      } else {
        assert all[k] == xs[k - 1];
      }
    }
  }
}
