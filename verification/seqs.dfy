/** Sequence facts used by the playing-source registry: distinctness,
    removal of one element, and removal of a set of elements. */
module Seqs {

  predicate Distinct<T(==)>(xs: seq<T>) {
    forall i, j :: 0 <= i < j < |xs| ==> xs[i] != xs[j]
  }

  /** xs with its first occurrence of x removed (xs itself when x is absent). */
  function Without<T(==)>(xs: seq<T>, x: T): (r: seq<T>)
    ensures x in xs ==> |r| == |xs| - 1
    ensures x !in xs ==> r == xs
    ensures forall i :: 0 <= i < |r| ==> r[i] in xs
    decreases |xs|
  {
    if xs == [] then []
    else if xs[0] == x then xs[1..]
    else [xs[0]] + Without(xs[1..], x)
  }

  /** Removing the element at position k of a distinct sequence: Without cuts
      exactly that position and keeps the others in order, and the element
      no longer occurs. */
  lemma {:induction false} WithoutAt<T>(xs: seq<T>, k: nat)
    requires k < |xs| && Distinct(xs)
    ensures Without(xs, xs[k]) == xs[..k] + xs[k + 1..]
    ensures xs[k] !in Without(xs, xs[k])
    ensures Distinct(Without(xs, xs[k]))
    decreases k
  {
    if k > 0 {
      var t := xs[1..];
      assert t[k - 1] == xs[k] && xs[0] != xs[k];
      assert Distinct(t) by {
        forall i, j | 0 <= i < j < |t| ensures t[i] != t[j] { assert t[i] == xs[i + 1] && t[j] == xs[j + 1]; }
      }
      WithoutAt(t, k - 1);
      assert Without(xs, xs[k]) == [xs[0]] + Without(t, xs[k]);
      assert xs[..k] == [xs[0]] + t[..k - 1] && xs[k + 1..] == t[k..];
      AppendRegroup([xs[0]], t[..k - 1], t[k..]);
    }
  }

  /** xs with every element of r filtered out, order kept. */
  function Drop<T(==)>(xs: seq<T>, r: set<T>): (ys: seq<T>)
    ensures |ys| <= |xs|
    ensures forall i :: 0 <= i < |ys| ==> ys[i] in xs && ys[i] !in r
    ensures forall i :: 0 <= i < |xs| && xs[i] !in r ==> xs[i] in ys
    decreases |xs|
  {
    if xs == [] then []
    else (if xs[0] in r then [] else [xs[0]]) + Drop(xs[1..], r)
  }

  lemma {:induction false} DropAppend<T>(a: seq<T>, b: seq<T>, r: set<T>)
    ensures Drop(a + b, r) == Drop(a, r) + Drop(b, r)
    decreases |a|
  {
    if a != [] {
      assert (a + b)[0] == a[0] && (a + b)[1..] == a[1..] + b;
      DropAppend(a[1..], b, r);
      var h := if a[0] in r then [] else [a[0]];
      assert Drop(a + b, r) == h + Drop(a[1..] + b, r);
      AppendRegroup(h, Drop(a[1..], r), Drop(b, r));
    } else {
      assert a + b == b;
    }
  }

  /** Filtering out elements that do not occur changes nothing. */
  lemma {:induction false} DropNone<T>(xs: seq<T>, r: set<T>)
    requires forall i :: 0 <= i < |xs| ==> xs[i] !in r
    ensures Drop(xs, r) == xs
    decreases |xs|
  {
    if xs != [] {
      DropNone(xs[1..], r);
    }
  }

  /** Filtering out one more element that does not occur changes nothing. */
  lemma {:induction false} DropAbsent<T>(xs: seq<T>, r: set<T>, x: T)
    requires x !in xs
    ensures Drop(xs, r + {x}) == Drop(xs, r)
    decreases |xs|
  {
    if xs != [] {
      DropAbsent(xs[1..], r, x);
    }
  }

  /** Removing x from a sequence whose prefix a does not hold it cuts the
      occurrence right after a. */
  lemma {:induction false} WithoutAfter<T>(a: seq<T>, x: T, b: seq<T>)
    requires x !in a
    ensures Without(a + [x] + b, x) == a + b
    decreases |a|
  {
    if a == [] {
      assert a + [x] + b == [x] + b;
    } else {
      assert (a + [x] + b)[1..] == a[1..] + [x] + b;
      WithoutAfter(a[1..], x, b);
      assert a + b == [a[0]] + (a[1..] + b);
    }
  }

  /** Walking past the element at position k that stays: the kept prefix
      grows by it. */
  lemma PassKept<T>(xs: seq<T>, k: nat, r: set<T>)
    requires k < |xs| && xs[k] !in r
    ensures Drop(xs[..k], r) + xs[k..] == Drop(xs[..k + 1], r) + xs[k + 1..]
  {
    var a, x, b := xs[..k], xs[k], xs[k + 1..];
    assert xs[..k + 1] == a + [x] && xs[k..] == [x] + b;
    DropAppend(a, [x], r);
    assert Drop([x], r) == [x] + Drop([], r);
  }

  /** Walking past the element at position k that is removed: taking it out
      of the list is filtering it out of the walked prefix. */
  lemma PassRemoved<T>(xs: seq<T>, k: nat, r: set<T>)
    requires k < |xs| && xs[k] !in xs[..k]
    ensures Without(Drop(xs[..k], r) + xs[k..], xs[k]) == Drop(xs[..k + 1], r + {xs[k]}) + xs[k + 1..]
  {
    var a, x, b := xs[..k], xs[k], xs[k + 1..];
    assert xs[..k + 1] == a + [x] && xs[k..] == [x] + b;
    var d := Drop(a, r);
    assert x !in d;
    WithoutAfter(d, x, b);
    assert d + ([x] + b) == d + [x] + b;
    var e := Drop([x], r + {x});
    assert [x][1..] == [];
    assert e == [];
    DropAppend(a, [x], r + {x});
    DropAbsent(a, r, x);
    assert Drop(a + [x], r + {x}) == d by {
      assert d + e == d;
    }
    calc {
      Without(d + ([x] + b), x);
      Without(d + [x] + b, x);
      d + b;
    }
  }

  /** The positions of xs with position k cut out, and what still occurs. */
  lemma CutAt<T>(xs: seq<T>, k: nat)
    requires k < |xs|
    ensures |xs[..k] + xs[k + 1..]| == |xs| - 1
    ensures forall i :: 0 <= i < |xs| - 1 ==> (xs[..k] + xs[k + 1..])[i] == if i < k then xs[i] else xs[i + 1]
    ensures forall i :: 0 <= i < |xs| && i != k ==> xs[i] in xs[..k] + xs[k + 1..]
    ensures forall x :: x in xs[..k] + xs[k + 1..] ==> x in xs
  {
    var ys := xs[..k] + xs[k + 1..];
    forall i | 0 <= i < |xs| && i != k ensures xs[i] in ys {
      if i < k {
        assert ys[i] == xs[i];
      } else {
        assert ys[i - 1] == xs[i];
      }
    }
  }

  /** Regrouping a concatenation of three sequences. */
  lemma AppendRegroup<T>(a: seq<T>, b: seq<T>, c: seq<T>)
    ensures a + (b + c) == (a + b) + c
  {
  }

  /** A sequence that agrees with `a` everywhere but at k, where it holds x. */
  lemma UpdatedAt<T>(a: seq<T>, b: seq<T>, k: int, x: T)
    requires |a| == |b| && 0 <= k < |a| && b[k] == x
    requires forall j :: 0 <= j < |a| && j != k ==> b[j] == a[j]
    ensures b == a[k := x]
  {
  }

  /** Cutting within the first part of a concatenation. */
  lemma CutFront<T>(x: seq<T>, y: seq<T>, c: int)
    requires 0 <= c <= |x|
    ensures (x + y)[c..] == x[c..] + y && (x + y)[..c] == x[..c]
  {
  }
}
