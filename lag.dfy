/** The two followers of the target rectangle: each frame `rect0` moves 0.7
    and `rect1` 0.3 of the remaining way towards `target_rect`. */
module Lag {
  import opened Geometry
  import opened Reals

  /** Per-frame rate of the sharp follower `rect0`. */
  const SharpRate: real := 0.7
  /** Per-frame rate of the blurred follower `rect1`. */
  const BlurRate: real := 0.3

  /** One component moved the fraction `rate` of the way from `v` to `t`. */
  function Approach(v: real, t: real, rate: real): real {
    v + (t - v) * rate
  }

  /** The follower `r` after one lag step towards `t`, component by component. */
  function LagRect(r: Rect, t: Rect, rate: real): Rect {
    Rect(Approach(r.x0, t.x0, rate), Approach(r.y0, t.y0, rate),
         Approach(r.x1, t.x1, rate), Approach(r.y1, t.y1, rate))
  }

  function Abs(x: real): real {
    if x < 0.0 then -x else x
  }

  /** `w` lies between `v` and `t`, whichever order they are in. */
  predicate Between(v: real, w: real, t: real) {
    (v <= w <= t) || (t <= w <= v)
  }

  function Pow(b: real, n: nat): real {
    if n == 0 then 1.0 else b * Pow(b, n - 1)
  }

  /** `n` lag steps towards a fixed target. */
  function Iterate(r: Rect, t: Rect, rate: real, n: nat): Rect {
    if n == 0 then r else LagRect(Iterate(r, t, rate, n - 1), t, rate)
  }

  /** The remaining distance to the target is multiplied by (1 - rate). */
  lemma ApproachDistance(v: real, t: real, rate: real)
    ensures t - Approach(v, t, rate) == (1.0 - rate) * (t - v)
  {
  }

  /** For a rate in [0, 1] the new value lies between the old value and the target. */
  lemma ApproachBetween(v: real, t: real, rate: real)
    requires 0.0 <= rate <= 1.0
    ensures Between(v, Approach(v, t, rate), t)
  {
    ApproachDistance(v, t, rate);
    if v <= t {
      NonnegProduct(t - v, rate);
      NonnegProduct(1.0 - rate, t - v);
    } else {
      NonnegProduct(v - t, rate);
      NonnegProduct(1.0 - rate, v - t);
    }
  }

  /** For a rate strictly inside (0, 1) a follower not yet at the target gets
      strictly closer without reaching it. */
  lemma ApproachStrict(v: real, t: real, rate: real)
    requires 0.0 < rate < 1.0 && v != t
    ensures Approach(v, t, rate) != t
    ensures Abs(t - Approach(v, t, rate)) < Abs(t - v)
  {
    var k, e := 1.0 - rate, t - v;
    var d := t - Approach(v, t, rate);
    ApproachDistance(v, t, rate);
    assert d == k * e;
    if e > 0.0 {
      PositiveProduct(k, e);
      ShrinkingProduct(k, e);
      assert 0.0 < d < e;
      assert Abs(d) == d && Abs(e) == e;
    } else {
      PositiveProduct(k, -e);
      ShrinkingProduct(k, -e);
      assert -d == k * (-e);
      assert 0.0 < -d < -e;
      assert Abs(d) == -d && Abs(e) == -e;
    }
  }

  /** Every component of both followers lands between its old value and
      the target; the sharp follower keeps 0.3 and the blurred one 0.7 of
      its distance. */
  lemma LagStepProperties(r0: Rect, r1: Rect, t: Rect)
    ensures forall i :: 0 <= i < 4 ==>
      Between(r0.S()[i], LagRect(r0, t, SharpRate).S()[i], t.S()[i]) &&
      Between(r1.S()[i], LagRect(r1, t, BlurRate).S()[i], t.S()[i]) &&
      t.S()[i] - LagRect(r0, t, SharpRate).S()[i] == 0.3 * (t.S()[i] - r0.S()[i]) &&
      t.S()[i] - LagRect(r1, t, BlurRate).S()[i] == 0.7 * (t.S()[i] - r1.S()[i])
  {
    forall i | 0 <= i < 4
      ensures Between(r0.S()[i], LagRect(r0, t, SharpRate).S()[i], t.S()[i])
      ensures Between(r1.S()[i], LagRect(r1, t, BlurRate).S()[i], t.S()[i])
      ensures t.S()[i] - LagRect(r0, t, SharpRate).S()[i] == 0.3 * (t.S()[i] - r0.S()[i])
      ensures t.S()[i] - LagRect(r1, t, BlurRate).S()[i] == 0.7 * (t.S()[i] - r1.S()[i])
    {
      ApproachBetween(r0.S()[i], t.S()[i], SharpRate);
      ApproachBetween(r1.S()[i], t.S()[i], BlurRate);
      ApproachDistance(r0.S()[i], t.S()[i], SharpRate);
      ApproachDistance(r1.S()[i], t.S()[i], BlurRate);
    }
  }

  /** A follower already at the target stays put. */
  lemma LagFixedPoint(t: Rect, rate: real)
    ensures LagRect(t, t, rate) == t
  {
  }

  /** `n` lag steps of a single component towards a fixed target. */
  function ApproachN(v: real, t: real, rate: real, n: nat): real {
    if n == 0 then v else Approach(ApproachN(v, t, rate, n - 1), t, rate)
  }

  /** After n steps towards a fixed target a component's distance is
      (1 - rate)^n times the initial one. */
  lemma {:induction false} ApproachNDistance(v: real, t: real, rate: real, n: nat)
    ensures t - ApproachN(v, t, rate, n) == Pow(1.0 - rate, n) * (t - v)
  {
    if n > 0 {
      var p := ApproachN(v, t, rate, n - 1);
      var k := Pow(1.0 - rate, n - 1);
      ApproachNDistance(v, t, rate, n - 1);
      ApproachDistance(p, t, rate);
      calc {
        t - ApproachN(v, t, rate, n);
        (1.0 - rate) * (t - p);
        (1.0 - rate) * (k * (t - v));
        ((1.0 - rate) * k) * (t - v);
      }
    }
  }

  /** Iterating the rectangle step iterates each component independently. */
  lemma {:induction false} IterateComponents(r: Rect, t: Rect, rate: real, n: nat)
    ensures var q := Iterate(r, t, rate, n);
      q.x0 == ApproachN(r.x0, t.x0, rate, n) && q.y0 == ApproachN(r.y0, t.y0, rate, n) &&
      q.x1 == ApproachN(r.x1, t.x1, rate, n) && q.y1 == ApproachN(r.y1, t.y1, rate, n)
  {
    if n > 0 {
      IterateComponents(r, t, rate, n - 1);
    }
  }

  /** After n frames towards a fixed target, each component of a follower
      has (1 - rate)^n of its initial distance left. */
  lemma IterateDistance(r: Rect, t: Rect, rate: real, n: nat, i: nat)
    requires i < 4
    ensures t.S()[i] - Iterate(r, t, rate, n).S()[i] == Pow(1.0 - rate, n) * (t.S()[i] - r.S()[i])
  {
    IterateComponents(r, t, rate, n);
    ApproachNDistance(r.S()[i], t.S()[i], rate, n);
    assert Iterate(r, t, rate, n).S()[i] == ApproachN(r.S()[i], t.S()[i], rate, n);
  }

  lemma {:induction false} PowMonotone(a: real, b: real, n: nat)
    requires 0.0 <= a <= b
    ensures 0.0 <= Pow(a, n) <= Pow(b, n)
  {
    if n > 0 {
      PowMonotone(a, b, n - 1);
      NonnegProduct(a, Pow(a, n - 1));
      ProductMonotone(a, b, Pow(a, n - 1));
      ProductMonotone(Pow(a, n - 1), Pow(b, n - 1), b);
    }
  }

  /** Started from the same place, the sharp follower is never further from
      a fixed target than the blurred one: after n frames its distance is
      0.3^n, the blurred one's 0.7^n, of the initial distance. */
  lemma SharpLeadsBlur(r: Rect, t: Rect, n: nat, i: nat)
    requires i < 4
    ensures Abs(t.S()[i] - Iterate(r, t, SharpRate, n).S()[i]) <= Abs(t.S()[i] - Iterate(r, t, BlurRate, n).S()[i])
  {
    IterateDistance(r, t, SharpRate, n, i);
    IterateDistance(r, t, BlurRate, n, i);
    PowMonotone(0.3, 0.7, n);
    var d := t.S()[i] - r.S()[i];
    var a, b := Pow(0.3, n), Pow(0.7, n);
    if d >= 0.0 {
      NonnegProduct(a, d);
      ProductMonotone(a, b, d);
    } else {
      NonnegProduct(a, -d);
      ProductMonotone(a, b, -d);
    }
  }
}
