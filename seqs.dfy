/** Sequence helpers shared by the aggregation and the page plan. */
module Seqs {

  /** The pairs (x, y) for one fixed x, in the order of ys. */
  function Pairs<X, Y>(x: X, ys: seq<Y>): (r: seq<(X, Y)>)
    ensures |r| == |ys|
    ensures forall j :: 0 <= j < |ys| ==> r[j] == (x, ys[j])
  {
    seq(|ys|, j requires 0 <= j < |ys| => (x, ys[j]))
  }

  /** The pairs of a nested comprehension `for x in xs for y in ys`:
      xs is the outer loop, ys the inner one. */
  function Product<X, Y>(xs: seq<X>, ys: seq<Y>): (r: seq<(X, Y)>)
    ensures |r| == |xs| * |ys|
    ensures forall p :: p in r ==> p.0 in xs && p.1 in ys
  {
    if xs == [] then []
    else
      var n := |xs| - 1;
      var front := Product(xs[..n], ys);
      assert |front| + |ys| == |xs| * |ys| by {
        assert |xs| * |ys| == n * |ys| + |ys|;
      }
      front + Pairs(xs[n], ys)
  }

  /** Where the pair (xs[i], ys[j]) sits in Product(xs, ys) when |ys| == width. */
  function ProductIndex(i: nat, j: nat, width: nat): nat
  {
    i * width + j
  }

  lemma {:induction false} ProductAt<X, Y>(xs: seq<X>, ys: seq<Y>, i: nat, j: nat)
    requires i < |xs| && j < |ys|
    ensures ProductIndex(i, j, |ys|) < |Product(xs, ys)|
    ensures Product(xs, ys)[ProductIndex(i, j, |ys|)] == (xs[i], ys[j])
  {
    var n := |xs| - 1;
    var front := Product(xs[..n], ys);
    assert Product(xs, ys) == front + Pairs(xs[n], ys);
    if i < n {
      assert (i + 1) * |ys| <= n * |ys| by {
        MulMonotone(i + 1, n, |ys|);
      }
      ProductAt(xs[..n], ys, i, j);
    } else {
      assert |front| == i * |ys|;
    }
  }

  lemma MulMonotone(a: nat, b: nat, c: nat)
    requires a <= b
    ensures a * c <= b * c
  {
  }

  /** How often x occurs in xs. */
  function Count<X(==)>(xs: seq<X>, x: X): (n: nat)
    ensures n <= |xs|
    ensures n == 0 <==> x !in xs
  {
    if xs == [] then 0
    else Count(xs[..|xs| - 1], x) + (if xs[|xs| - 1] == x then 1 else 0)
  }

  /** r lists elements of xs in order of first appearance: whenever r[i]
      comes before r[j], some occurrence of r[i] in xs precedes every
      occurrence of r[j]. */
  predicate FirstAppearanceOrder<X(==)>(xs: seq<X>, r: seq<X>)
  {
    forall i, j :: 0 <= i < j < |r| ==>
      exists a :: 0 <= a < |xs| && xs[a] == r[i] && r[j] !in xs[..a + 1]
  }

  lemma OrderExtends<X>(xs: seq<X>, rest: seq<X>)
    requires xs != []
    requires forall i :: 0 <= i < |xs| - 1 ==> xs[i] in rest
    requires forall i :: 0 <= i < |rest| ==> rest[i] in xs[..|xs| - 1]
    requires FirstAppearanceOrder(xs[..|xs| - 1], rest)
    ensures FirstAppearanceOrder(xs, rest)
    ensures xs[|xs| - 1] !in rest ==> FirstAppearanceOrder(xs, rest + [xs[|xs| - 1]])
  {
    var n := |xs| - 1;
    var front := xs[..n];
    forall i, j | 0 <= i < j < |rest|
      ensures exists a :: 0 <= a < |xs| && xs[a] == rest[i] && rest[j] !in xs[..a + 1]
    {
      var a :| 0 <= a < n && front[a] == rest[i] && rest[j] !in front[..a + 1];
      assert front[..a + 1] == xs[..a + 1];
    }
    if xs[n] !in rest {
      var r := rest + [xs[n]];
      forall i, j | 0 <= i < j < |r|
        ensures exists a :: 0 <= a < |xs| && xs[a] == r[i] && r[j] !in xs[..a + 1]
      {
        assert r[i] == rest[i];
        if j < |rest| {
          assert r[j] == rest[j];
        } else {
          var a :| 0 <= a < n && front[a] == rest[i];
          assert xs[n] !in xs[..a + 1] by {
            forall b | 0 <= b <= a ensures xs[b] != xs[n] {
              assert xs[b] in rest;
            }
          }
        }
      }
    }
  }

  /** The distinct elements of xs in order of first appearance: the key order of
      a Python dict built by inserting the elements of xs one after another. */
  function Distinct<X(==)>(xs: seq<X>): (r: seq<X>)
    ensures forall i :: 0 <= i < |xs| ==> xs[i] in r
    ensures forall i :: 0 <= i < |r| ==> r[i] in xs
    ensures forall i, j :: 0 <= i < j < |r| ==> r[i] != r[j]
    ensures xs != [] ==> r != [] && r[0] == xs[0]
    ensures FirstAppearanceOrder(xs, r)
  {
    if xs == [] then []
    else
      var n := |xs| - 1;
      var rest := Distinct(xs[..n]);
      OrderExtends(xs, rest);
      if xs[n] in rest then rest else rest + [xs[n]]
  }
}
