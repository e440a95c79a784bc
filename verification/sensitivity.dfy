/** Composition of sensitivities down the chain: each nested level's own
    screen/trackpad ratio is multiplied by its parent's already composed
    sensitivity, so level i ends up with the product of the ratios of
    levels 0..i. */
module Sensitivity {
  import opened Geometry
  import opened Trackpad

  /** Product of a sequence of ratios, taken parent to child. */
  function Product(rs: seq<real>): real
  {
    if rs == [] then 1.0 else Product(rs[..|rs| - 1]) * rs[|rs| - 1]
  }

  predicate AllWellFormed(ls: seq<Layout>) {
    forall i :: 0 <= i < |ls| ==> WellFormed(ls[i])
  }

  function RatiosX(ls: seq<Layout>): seq<real>
    requires AllWellFormed(ls)
  {
    seq(|ls|, i requires 0 <= i < |ls| => RatioX(ls[i]))
  }

  function RatiosY(ls: seq<Layout>): seq<real>
    requires AllWellFormed(ls)
  {
    seq(|ls|, i requires 0 <= i < |ls| => RatioY(ls[i]))
  }

  /** The composed sensitivity of level i, per axis. */
  function ComposedX(ls: seq<Layout>, i: nat): real
    requires AllWellFormed(ls) && i < |ls|
  {
    Product(RatiosX(ls)[..i + 1])
  }

  function ComposedY(ls: seq<Layout>, i: nat): real
    requires AllWellFormed(ls) && i < |ls|
  {
    Product(RatiosY(ls)[..i + 1])
  }

  /** The composition step the setup code performs: level i's own ratio times
      its parent's composed value gives level i's composed value. */
  lemma ComposeStep(ls: seq<Layout>, i: nat)
    requires AllWellFormed(ls) && 0 < i < |ls|
    ensures ComposedX(ls, i) == RatioX(ls[i]) * ComposedX(ls, i - 1)
    ensures ComposedY(ls, i) == RatioY(ls[i]) * ComposedY(ls, i - 1)
  {
    var rx, ry := RatiosX(ls), RatiosY(ls);
    assert rx[..i + 1] == rx[..i] + [rx[i]];
    assert ry[..i + 1] == ry[..i] + [ry[i]];
    ProductSplit(rx[..i], [rx[i]]);
    ProductSplit(ry[..i], [ry[i]]);
    assert [rx[i]][..0] == [] && [ry[i]][..0] == [];
  }

  /** The root's composed sensitivity is its own ratio. */
  lemma ComposedRoot(ls: seq<Layout>)
    requires AllWellFormed(ls) && 0 < |ls|
    ensures ComposedX(ls, 0) == RatioX(ls[0]) && ComposedY(ls, 0) == RatioY(ls[0])
  {
    var rx, ry := RatiosX(ls)[..1], RatiosY(ls)[..1];
    assert rx[..0] == [] && rx[0] == RatioX(ls[0]);
    assert ry[..0] == [] && ry[0] == RatioY(ls[0]);
    assert Product(rx) == Product(rx[..0]) * rx[0];
    assert Product(ry) == Product(ry[..0]) * ry[0];
  }

  /** Composing two chains composes their products: the sensitivity of a
      chain stacked under another is the product of the two. */
  lemma {:induction false} ProductSplit(a: seq<real>, b: seq<real>)
    ensures Product(a + b) == Product(a) * Product(b)
  {
    if b == [] {
      assert a + b == a;
    } else {
      var b' := b[..|b| - 1];
      var last := b[|b| - 1];
      assert (a + b)[..|a + b| - 1] == a + b';
      ProductSplit(a, b');
      calc {
        Product(a + b);
        Product(a + b') * last;
        (Product(a) * Product(b')) * last;
        Product(a) * (Product(b') * last);
        Product(a) * Product(b);
      }
    }
  }

  /** Positive ratios compose to a positive sensitivity. */
  lemma {:induction false} ProductPositive(rs: seq<real>)
    requires forall i :: 0 <= i < |rs| ==> rs[i] > 0.0
    ensures Product(rs) > 0.0
  {
    if rs != [] {
      ProductPositive(rs[..|rs| - 1]);
    }
  }

  /** With screens of positive size every composed sensitivity is positive. */
  lemma ComposedPositive(ls: seq<Layout>, i: nat)
    requires AllWellFormed(ls) && i < |ls|
    requires forall j :: 0 <= j < |ls| ==> Width(ls[j].screen) > 0.0 && Height(ls[j].screen) > 0.0
    ensures ComposedX(ls, i) > 0.0 && ComposedY(ls, i) > 0.0
  {
    ProductPositive(RatiosX(ls)[..i + 1]);
    ProductPositive(RatiosY(ls)[..i + 1]);
  }
}
