/**
 `_apply_constraints` and `_project_l2` of `detection/adversarial_attack.py`
 change as little as they can: clamping takes every feature to the nearest value
 its constraint allows, and projecting takes the vector to the nearest point
 of the ball, along the line to the original.
 */
module AttackNearest {
  import opened Wrappers
  import opened AdversarialAttack

  /** Every mutable candidate goes to the nearest allowed value; nothing else is written. */
  lemma ClampedIsNearest(s: Setting, orig: Vector, cand: Vector, f: string, other: real)
    requires ValidSetting(s) && KnownFeatures(s, cand) && InBounds(s, orig) && f in cand && Mutable(s, f)
    requires Allowed(ConstraintOf(s, f), Get(orig, f), other)
    ensures var x := Clamped(s, orig, cand);
      && f in x && Allowed(ConstraintOf(s, f), Get(orig, f), x[f])
      && Distance(x[f], cand[f]) <= Distance(other, cand[f])
      && forall g :: g !in cand ==> (g in x <==> g in orig) && (g in orig ==> x[g] == orig[g])
  {
    ClampIsNearest(ConstraintOf(s, f), Get(orig, f), cand[f], other);
  }

  /**
   The manifest, entry by entry, with a missing feature counting as zero: what it
   does not list may become anything, what it lists as immutable stays, and the
   rest keeps its own bounds and direction if the original is within the bounds.
   */
  lemma ManifestIsApplied(s: Setting, orig: Vector, cand: Vector, f: string)
    requires f in cand && (f in s.constraints && s.constraints[f].min.Some? && s.constraints[f].max.Some? ==>
      s.constraints[f].min.value <= s.constraints[f].max.value)
    ensures var x := Clamped(s, orig, cand);
      && (f !in s.constraints ==> f in x && x[f] == cand[f])
      && (f in s.constraints && !s.constraints[f].mutable ==> (f in x <==> f in orig) && (f in orig ==> x[f] == orig[f]))
    ensures f in s.constraints && s.constraints[f].mutable ==>
      var (x, c, o) := (Clamped(s, orig, cand), s.constraints[f], if f in orig then orig[f] else 0.0);
      && f in x
      && ((c.min.Some? ==> c.min.value <= o) && (c.max.Some? ==> o <= c.max.value) ==>
            && (c.min.Some? ==> c.min.value <= x[f]) && (c.max.Some? ==> x[f] <= c.max.value)
            && (c.direction == Decrease ==> x[f] <= o) && (c.direction == Increase ==> o <= x[f]))
  {
    ClampKeeps(ConstraintOf(s, f), Get(orig, f), cand[f]);
  }

  /** A feature the vector lacks is probed and moved from zero. */
  lemma MissingCountsAsZero(s: Setting, from: Vector, alpha: real, n: real, cand: Vector, f: string)
    requires SteepestDescent(s, from, alpha, n, cand) && f in s.names && Mutable(s, f) && f !in from
    ensures f in cand && cand[f] == -Share((s.proba(from[f := 0.001]) - s.proba(from)) / 0.001, n, alpha)
  {
  }

  // ---------------------------------------------------------------- what a result is

  /** Squared length of what the mutable features among `names` were moved by; a missing one counts as zero. */
  function MovedSq(s: Setting, orig: Vector, x: Vector, names: seq<string>): real {
    if names == [] then 0.0
    else
      var d := (if names[0] in x then x[names[0]] else 0.0) - (if names[0] in orig then orig[names[0]] else 0.0);
      (if Mutable(s, names[0]) then d * d else 0.0) + MovedSq(s, orig, x, names[1..])
  }

  lemma {:induction false} MovedSqIsDeltas(s: Setting, orig: Vector, x: Vector, names: seq<string>)
    requires orig.Keys <= x.Keys
    ensures SumSq(Deltas(s, names, orig, x)) == MovedSq(s, orig, x, names)
  {
    if names != [] {
      MovedSqIsDeltas(s, orig, x, names[1..]);
      var f := names[0];
      assert f in orig ==> f in x;
      if Mutable(s, f) {
        assert Deltas(s, names, orig, x)[1..] == Deltas(s, names[1..], orig, x);
      } else {
        assert Deltas(s, names, orig, x) == Deltas(s, names[1..], orig, x);
      }
    }
  }

  /**
   What the attacks promise of every result and every iterate, feature by
   feature, for an original within its bounds: immutable features are as they
   were, every other one is within its bounds and on its side of the original,
   and all moves together are no longer than `eps`.
   */
  lemma ResultMeans(s: Setting, orig: Vector, eps: real, x: Vector, f: string)
    requires GoodResult(s, orig, eps, x) && InBounds(s, orig) && f in x
    ensures f in s.names && MovedSq(s, orig, x, s.names) <= eps * eps
    ensures f in s.constraints && !s.constraints[f].mutable ==> f in orig && x[f] == orig[f]
    ensures f in s.constraints && s.constraints[f].mutable ==>
      var (c, o) := (s.constraints[f], if f in orig then orig[f] else 0.0);
      && (c.min.Some? ==> c.min.value <= x[f]) && (c.max.Some? ==> x[f] <= c.max.value)
      && (c.direction == Decrease ==> x[f] <= o) && (c.direction == Increase ==> o <= x[f])
  {
    MovedSqIsDeltas(s, orig, x, s.names);
    if Mutable(s, f) {
      RespectsWithinBounds(s, orig, x, f);
    }
  }

  // ---------------------------------------------------------------- products and distances

  function Dot(a: seq<real>, b: seq<real>): real
    requires |a| == |b|
  {
    if a == [] then 0.0 else Times(a[0], b[0]) + Dot(a[1..], b[1..])
  }

  function Minus(a: seq<real>, b: seq<real>): (r: seq<real>)
    requires |a| == |b|
    ensures |r| == |a|
  {
    if a == [] then [] else [a[0] - b[0]] + Minus(a[1..], b[1..])
  }

  lemma SquareOfDifference(a: real, b: real)
    ensures (a - b) * (a - b) == a * a - 2.0 * Times(a, b) + b * b
  {
  }

  lemma {:induction false} DistanceExpands(a: seq<real>, b: seq<real>)
    requires |a| == |b|
    ensures SumSq(Minus(a, b)) == SumSq(a) - 2.0 * Dot(a, b) + SumSq(b)
  {
    hide Times;
    if a != [] {
      DistanceExpands(a[1..], b[1..]);
      assert Minus(a, b)[1..] == Minus(a[1..], b[1..]);
      SquareOfDifference(a[0], b[0]);
    }
  }

  lemma {:induction false} ScaleLength(d: seq<real>, t: real)
    ensures |Scale(d, t)| == |d|
  {
    if d != [] {
      ScaleLength(d[1..], t);
    }
  }

  lemma Regroup(a: real, t: real, b: real, rest: real)
    ensures Times(Times(a, t), b) + Times(t, rest) == Times(t, Times(a, b) + rest)
  {
  }

  lemma {:induction false} DotScale(d: seq<real>, t: real, y: seq<real>)
    requires |d| == |y|
    ensures |Scale(d, t)| == |d| && Dot(Scale(d, t), y) == Times(t, Dot(d, y))
  {
    ScaleLength(d, t);
    if d != [] {
      DotScale(d[1..], t, y[1..]);
      assert Scale(d, t)[1..] == Scale(d[1..], t);
      Regroup(d[0], t, y[0], Dot(d[1..], y[1..]));
    } else {
      assert Times(t, 0.0) == 0.0;
    }
  }

  lemma {:induction false} DotSelf(d: seq<real>)
    ensures Dot(d, d) == SumSq(d)
  {
    if d != [] {
      DotSelf(d[1..]);
    }
  }

  lemma DotSymmetric(a: seq<real>, b: seq<real>)
    requires |a| == |b|
    ensures Dot(a, b) == Dot(b, a)
  {
    if a != [] {
      DotSymmetric(a[1..], b[1..]);
      assert a[0] * b[0] == b[0] * a[0];
    }
  }

  lemma {:induction false} DotWithNothing(d: seq<real>, y: seq<real>)
    requires |d| == |y| && SumSq(y) <= 0.0
    ensures Dot(d, y) == 0.0 && SumSq(y) == 0.0
  {
    if y != [] {
      SumSqNonNegative(y[1..]);
      SumSqNonNegative([y[0]]);
      assert [y[0]][1..] == [] && SumSq([y[0]]) == y[0] * y[0] + SumSq([]);
      SquareZero(y[0]);
      DotWithNothing(d[1..], y[1..]);
      assert d[0] * 0.0 == 0.0;
    }
  }

  // ---------------------------------------------------------------- the nearest point of the ball

  lemma RatioTimes(eps: real, n: real)
    requires n > 0.0
    ensures Times(eps / n, Times(n, n)) == Times(eps, n)
  {
  }

  /** The inequality behind it: `dot` cannot be larger than the ball and the scaled point allow. */
  lemma BallInequality(n: real, eps: real, dot: real, y: real)
    requires 0.0 < eps < n && 0.0 <= y <= Times(eps, eps)
    requires Times(eps, eps) - 2.0 * Times(eps / n, dot) + y >= 0.0
    ensures 2.0 * dot <= 2.0 * Times(eps, n) - Times(eps, eps) + y
  {
    var k := n / eps;
    var e2 := eps * eps;
    assert k * (eps / n) == 1.0;
    assert k * (2.0 * ((eps / n) * dot)) == 2.0 * dot by {
      assert k * ((eps / n) * dot) == (k * (eps / n)) * dot;
    }
    assert k > 1.0;
    ProductNonNegative(k, e2 - 2.0 * ((eps / n) * dot) + y);
    assert k * (e2 - 2.0 * ((eps / n) * dot) + y) == k * e2 - 2.0 * dot + k * y;
    ProductNonNegative(k - 1.0, e2 - y);
    assert (k - 1.0) * (e2 - y) == k * e2 - k * y - e2 + y;
    assert k * e2 == eps * n by {
      assert k * (eps * eps) == (k * eps) * eps;
      assert k * eps == n;
    }
  }

  /** Scaling a vector down to length `eps` gives its nearest point of length at most `eps`. */
  lemma ScaledIsNearest(d: seq<real>, n: real, eps: real, y: seq<real>)
    requires |d| == |y| && 0.0 <= eps < n && Times(n, n) == SumSq(d) && SumSq(y) <= Times(eps, eps)
    ensures |Scale(d, eps / n)| == |d|
    ensures SumSq(Minus(d, Scale(d, eps / n))) <= SumSq(Minus(d, y))
  {
    var t := eps / n;
    DotScale(d, t, d);
    DotSelf(d);
    DotSymmetric(d, Scale(d, t));
    ScaleSumSq(d, t);
    DistanceExpands(d, Scale(d, t));
    DistanceExpands(d, y);
    RatioSquared(eps, n);
    RatioTimes(eps, n);
    assert SumSq(Minus(d, Scale(d, t))) == Times(n, n) - 2.0 * Times(eps, n) + Times(eps, eps);
    SumSqNonNegative(y);
    DotScale(d, t, y);
    DistanceExpands(Scale(d, t), y);
    SumSqNonNegative(Minus(Scale(d, t), y));
    if eps == 0.0 {
      assert Times(eps, eps) == 0.0 && Times(eps, n) == 0.0;
      DotWithNothing(d, y);
    } else {
      hide Times;
      BallInequality(n, eps, Dot(d, y), SumSq(y));
    }
  }

  lemma SameLength(s: Setting, orig: Vector, x: Vector, y: Vector)
    ensures |Deltas(s, s.names, orig, x)| == |Deltas(s, s.names, orig, y)|
  {
    DeltasAreFeats(s, s.names, orig, x);
    DeltasAreFeats(s, s.names, orig, y);
  }

  lemma {:induction false} NoDistance(d: seq<real>)
    ensures SumSq(Minus(d, d)) == 0.0
  {
    DistanceExpands(d, d);
    DotSelf(d);
  }

  /**
   Over the mutable features no vector of the ball is nearer to `x` than its
   projection; and if `x` lies outside, the projection lies on the sphere.
   */
  lemma ProjectionIsNearest(s: Setting, orig: Vector, x: Vector, eps: real, y: Vector)
    requires ValidSetting(s) && eps >= 0.0 && InBall(s, orig, y, eps)
    ensures var (d, p) := (Deltas(s, s.names, orig, x), Deltas(s, s.names, orig, Projected(s, orig, x, eps)));
      && |d| == |p| == |Deltas(s, s.names, orig, y)|
      && SumSq(Minus(d, p)) <= SumSq(Minus(d, Deltas(s, s.names, orig, y)))
      && (!InBall(s, orig, x, eps) ==> SumSq(p) == Times(eps, eps))
      && (InBall(s, orig, x, eps) ==> Projected(s, orig, x, eps) == x)
  {
    var (d, e) := (Deltas(s, s.names, orig, x), Deltas(s, s.names, orig, y));
    var n := s.norm(d);
    assert n >= 0.0 && Times(n, n) == SumSq(d);
    SameLength(s, orig, x, y);
    SumSqNonNegative(Minus(d, e));
    NoDistance(d);
    if n <= eps {
      SquareMonotone(n, eps);
    } else {
      StrictSquares(eps, n);
      hide Deltas, Times, SumSq, Minus, Scale, Shrunk;
      ShrunkDeltas(s, s.names, orig, x, eps / n);
      ScaledIsNearest(d, n, eps, e);
      ScaleSumSq(d, eps / n);
      RatioSquared(eps, n);
    }
  }
}
