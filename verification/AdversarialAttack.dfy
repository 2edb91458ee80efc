/**
 Constrained FGSM and PGD attacks of `detection/adversarial_attack.py`.

 Arithmetic is over the reals.  The ensemble's probability is an arbitrary
 function; the L2 norm is a function whose square is the sum of squares.
 */
module AdversarialAttack {
  import opened Wrappers

  // ---------------------------------------------------------------- data

  type Vector = map<string, real>

  datatype Direction = AnyDirection | Decrease | Increase

  /** A missing bound is an infinite one. */
  datatype Constraint = Constraint(mutable: bool, direction: Direction, min: Option<real>, max: Option<real>)

  datatype Setting = Setting(
    names: seq<string>, constraints: map<string, Constraint>,
    norm: seq<real> -> real, proba: Vector -> real)

  datatype AttackError = UnknownFeatures | BadSteps

  const GRAD_EPS: real := 0.001

  function Get(v: Vector, f: string): real { if f in v then v[f] else 0.0 }

  function ConstraintOf(s: Setting, f: string): Constraint {
    if f in s.constraints then s.constraints[f] else Constraint(true, AnyDirection, None, None)
  }

  predicate Mutable(s: Setting, f: string) { ConstraintOf(s, f).mutable }

  function Times(a: real, b: real): real { a * b }

  function SumSq(d: seq<real>): real {
    if d == [] then 0.0 else d[0] * d[0] + SumSq(d[1..])
  }

  ghost predicate IsNorm(norm: seq<real> -> real) {
    forall d :: norm(d) >= 0.0 && Times(norm(d), norm(d)) == SumSq(d)
  }

  predicate Above(lo: Option<real>, x: real) { lo.Some? ==> lo.value <= x }

  predicate BelowMax(x: real, hi: Option<real>) { hi.Some? ==> x <= hi.value }

  ghost predicate ValidSetting(s: Setting) {
    && IsNorm(s.norm)
    && (forall i, j :: 0 <= i < j < |s.names| ==> s.names[i] != s.names[j])
    && (forall f :: f in s.constraints && s.constraints[f].min.Some? ==> BelowMax(s.constraints[f].min.value, s.constraints[f].max))
  }

  // ---------------------------------------------------------------- one feature

  /** What a feature may become, given its original value. */
  predicate Allowed(c: Constraint, orig: real, x: real) {
    && Above(c.min, x) && BelowMax(x, c.max)
    && (c.direction == Decrease ==> x <= orig)
    && (c.direction == Increase ==> x >= orig)
  }

  /**
   What clamping and projecting keep of that for any original: each bound the
   original itself meets, and the direction if the original is not already
   beyond the bound it moves towards.
   */
  predicate Kept(c: Constraint, orig: real, x: real) {
    && (Above(c.min, orig) ==> Above(c.min, x))
    && (BelowMax(orig, c.max) ==> BelowMax(x, c.max))
    && (c.direction == Decrease && Above(c.min, orig) ==> x <= orig)
    && (c.direction == Increase && BelowMax(orig, c.max) ==> x >= orig)
  }

  /** For an original within its bounds that is everything. */
  lemma KeptIsAllowed(c: Constraint, orig: real, x: real)
    requires Above(c.min, orig) && BelowMax(orig, c.max)
    ensures Kept(c, orig, x) <==> Allowed(c, orig, x)
  {
  }

  /** Direction first, then the lower and the upper bound, as the source clamps. */
  function Clamp(c: Constraint, orig: real, x: real): real {
    var d := if c.direction == Decrease && x > orig then orig
             else if c.direction == Increase && x < orig then orig else x;
    var lo := if c.min.Some? && d < c.min.value then c.min.value else d;
    if c.max.Some? && lo > c.max.value then c.max.value else lo
  }

  function Distance(a: real, b: real): real { if a >= b then a - b else b - a }

  /** For an original within its bounds, clamping picks the nearest allowed value. */
  lemma ClampIsNearest(c: Constraint, orig: real, x: real, other: real)
    requires Above(c.min, orig) && BelowMax(orig, c.max) && Allowed(c, orig, other)
    ensures Allowed(c, orig, Clamp(c, orig, x))
    ensures Distance(Clamp(c, orig, x), x) <= Distance(other, x)
  {
  }

  /**
   The bound that matters is the one the direction moves towards: clamping
   respects the direction for every candidate exactly when the original does
   not already lie beyond that bound.
   */
  lemma ClampDirectionExact(c: Constraint, orig: real)
    requires c.min.Some? ==> BelowMax(c.min.value, c.max)
    ensures c.direction == Decrease ==>
      ((forall x :: Clamp(c, orig, x) <= orig) <==> Above(c.min, orig))
    ensures c.direction == Increase ==>
      ((forall x :: Clamp(c, orig, x) >= orig) <==> BelowMax(orig, c.max))
  {
    if c.direction == Decrease && !Above(c.min, orig) {
      assert Clamp(c, orig, orig) > orig;
    }
    if c.direction == Increase && !BelowMax(orig, c.max) {
      assert Clamp(c, orig, orig) < orig;
    }
  }

  lemma ClampKeeps(c: Constraint, orig: real, x: real)
    requires c.min.Some? ==> BelowMax(c.min.value, c.max)
    ensures Kept(c, orig, Clamp(c, orig, x))
  {
  }

  /** The point at fraction `t` of the way from `orig` to `x`. */
  function Toward(orig: real, x: real, t: real): real { orig + (x - orig) * t }

  lemma ProductNonNegative(a: real, b: real)
    requires a >= 0.0 && b >= 0.0
    ensures a * b >= 0.0
  {
  }

  lemma TowardIsBetween(orig: real, x: real, t: real)
    requires 0.0 <= t <= 1.0
    ensures orig <= x ==> orig <= Toward(orig, x, t) <= x
    ensures x <= orig ==> x <= Toward(orig, x, t) <= orig
  {
    assert (x - orig) * t + (x - orig) * (1.0 - t) == x - orig;
    if orig <= x {
      ProductNonNegative(x - orig, t);
      ProductNonNegative(x - orig, 1.0 - t);
    } else {
      ProductNonNegative(orig - x, t);
      ProductNonNegative(orig - x, 1.0 - t);
      assert (orig - x) * t == -((x - orig) * t);
      assert (orig - x) * (1.0 - t) == -((x - orig) * (1.0 - t));
    }
  }

  /** Moving from the original towards a kept value stays kept. */
  lemma ShrinkKeeps(c: Constraint, orig: real, x: real, r: real)
    requires Kept(c, orig, x) && (orig <= r <= x || x <= r <= orig)
    ensures Kept(c, orig, r)
  {
  }

  // ---------------------------------------------------------------- vectors

  /** `_apply_constraints`, as a map. */
  function Clamped(s: Setting, orig: Vector, cand: Vector): Vector {
    orig + map f | f in cand && Mutable(s, f) :: Clamp(ConstraintOf(s, f), Get(orig, f), cand[f])
  }

  /** A feature's value in a perturbed vector; a missing one counts as unperturbed. */
  function Val(orig: Vector, pert: Vector, f: string): real { if f in pert then pert[f] else Get(orig, f) }

  /** The perturbation, over mutable features in FEATURE_NAMES order. */
  function Deltas(s: Setting, names: seq<string>, orig: Vector, pert: Vector): seq<real> {
    if names == [] then []
    else Moved1(s, orig, pert, names[0]) + Deltas(s, names[1..], orig, pert)
  }

  /** How far one feature was moved; nothing for an immutable one. */
  function Moved1(s: Setting, orig: Vector, pert: Vector, f: string): seq<real> {
    if Mutable(s, f) then [Val(orig, pert, f) - Get(orig, f)] else []
  }

  /** Every mutable feature moved the fraction `t` of its way. */
  function Shrunk(s: Setting, orig: Vector, pert: Vector, t: real): Vector {
    orig + map f | f in s.names && Mutable(s, f) :: Toward(Get(orig, f), Val(orig, pert, f), t)
  }

  /** `_project_l2`, as a map. */
  function Projected(s: Setting, orig: Vector, pert: Vector, eps: real): Vector {
    var n := s.norm(Deltas(s, s.names, orig, pert));
    if n <= eps || n == 0.0 then pert else Shrunk(s, orig, pert, eps / n)
  }

  // ---------------------------------------------------------------- what an attack must respect

  predicate KnownFeatures(s: Setting, v: Vector) { forall f :: f in v ==> f in s.names }

  /** Immutable features untouched, mutable ones kept within direction and bounds. */
  ghost predicate Respects(s: Setting, orig: Vector, x: Vector) {
    && KnownFeatures(s, x) && orig.Keys <= x.Keys
    && (forall f :: f in x && !Mutable(s, f) ==> f in orig && x[f] == orig[f])
    && (forall f :: f in s.names && Mutable(s, f) ==> Kept(ConstraintOf(s, f), Get(orig, f), Val(orig, x, f)))
  }

  ghost predicate InBounds(s: Setting, orig: Vector) {
    forall f :: f in s.names && Mutable(s, f) ==>
      Above(ConstraintOf(s, f).min, Get(orig, f)) && BelowMax(Get(orig, f), ConstraintOf(s, f).max)
  }

  /** For an original within its bounds every mutable feature is then within direction and bounds. */
  lemma RespectsWithinBounds(s: Setting, orig: Vector, x: Vector, f: string)
    requires InBounds(s, orig) && Respects(s, orig, x) && f in s.names && Mutable(s, f)
    ensures Allowed(ConstraintOf(s, f), Get(orig, f), Val(orig, x, f))
  {
    KeptIsAllowed(ConstraintOf(s, f), Get(orig, f), Val(orig, x, f));
  }

  ghost predicate InBall(s: Setting, orig: Vector, x: Vector, eps: real) {
    SumSq(Deltas(s, s.names, orig, x)) <= Times(eps, eps)
  }

  lemma OriginalRespects(s: Setting, orig: Vector, eps: real)
    requires KnownFeatures(s, orig)
    ensures Respects(s, orig, orig) && InBall(s, orig, orig, eps)
  {
    ZeroDeltas(s, s.names, orig);
    ProductNonNegative(if eps >= 0.0 then eps else -eps, if eps >= 0.0 then eps else -eps);
  }

  lemma {:induction false} ZeroDeltas(s: Setting, names: seq<string>, orig: Vector)
    ensures SumSq(Deltas(s, names, orig, orig)) == 0.0
  {
    if names != [] {
      ZeroDeltas(s, names[1..], orig);
      var rest := Deltas(s, names[1..], orig, orig);
      if Mutable(s, names[0]) {
        assert Deltas(s, names, orig, orig) == [0.0] + rest && ([0.0] + rest)[1..] == rest;
      } else {
        assert Deltas(s, names, orig, orig) == rest;
      }
    }
  }

  lemma ClampedRespects(s: Setting, orig: Vector, cand: Vector)
    requires ValidSetting(s) && KnownFeatures(s, orig) && KnownFeatures(s, cand)
    ensures Respects(s, orig, Clamped(s, orig, cand))
  {
    var x := Clamped(s, orig, cand);
    forall f | f in s.names && Mutable(s, f) ensures Kept(ConstraintOf(s, f), Get(orig, f), Val(orig, x, f)) {
      if f in cand {
        ClampKeeps(ConstraintOf(s, f), Get(orig, f), cand[f]);
      }
    }
  }

  lemma ShrunkRespects(s: Setting, orig: Vector, x: Vector, t: real)
    requires KnownFeatures(s, orig) && Respects(s, orig, x) && 0.0 <= t <= 1.0
    ensures Respects(s, orig, Shrunk(s, orig, x, t))
  {
    var y := Shrunk(s, orig, x, t);
    forall f | f in s.names && Mutable(s, f) ensures Kept(ConstraintOf(s, f), Get(orig, f), Val(orig, y, f)) {
      var (o, v) := (Get(orig, f), Val(orig, x, f));
      TowardIsBetween(o, v, t);
      ShrinkKeeps(ConstraintOf(s, f), o, v, Toward(o, v, t));
    }
  }

  function Scale(d: seq<real>, t: real): seq<real> {
    if d == [] then [] else [Times(d[0], t)] + Scale(d[1..], t)
  }

  lemma {:induction false} ShrunkDeltas(s: Setting, names: seq<string>, orig: Vector, x: Vector, t: real)
    requires forall i :: 0 <= i < |names| ==> names[i] in s.names
    ensures Deltas(s, names, orig, Shrunk(s, orig, x, t)) == Scale(Deltas(s, names, orig, x), t)
  {
    if names != [] {
      ShrunkDeltas(s, names[1..], orig, x, t);
      var rest := Deltas(s, names[1..], orig, x);
      assert names[0] in s.names;
      var f := names[0];
      if Mutable(s, f) {
        var (o, v) := (Get(orig, f), Val(orig, x, f));
        assert Deltas(s, names, orig, x) == [v - o] + rest;
        assert Val(orig, Shrunk(s, orig, x, t), f) == Toward(o, v, t);
        TowardMoves(o, v, t);
        ScaleCons(v - o, rest, t);
      } else {
        assert Deltas(s, names, orig, x) == rest;
      }
    }
  }

  lemma TowardMoves(orig: real, x: real, t: real)
    ensures Toward(orig, x, t) - orig == Times(x - orig, t)
  {
  }

  lemma ScaleCons(d: real, rest: seq<real>, t: real)
    ensures Scale([d] + rest, t) == [Times(d, t)] + Scale(rest, t)
  {
  }

  lemma {:induction false} ScaleSumSq(d: seq<real>, t: real)
    ensures SumSq(Scale(d, t)) == Times(SumSq(d), Times(t, t))
  {
    if d != [] {
      ScaleSumSq(d[1..], t);
      var rest := Scale(d[1..], t);
      assert Scale(d, t)[1..] == rest;
      ScaleStep(d[0], SumSq(d[1..]), t);
    }
  }

  lemma ScaleStep(a: real, b: real, t: real)
    ensures (a * t) * (a * t) + b * (t * t) == (a * a + b) * (t * t)
  {
  }

  /**
   Projecting after clamping never undoes the clamp: the result still respects
   every constraint, and it lies in the ball.
   */
  lemma ProjectionKeepsConstraints(s: Setting, orig: Vector, x: Vector, eps: real)
    requires ValidSetting(s) && KnownFeatures(s, orig) && Respects(s, orig, x) && eps >= 0.0
    ensures Respects(s, orig, Projected(s, orig, x, eps)) && InBall(s, orig, Projected(s, orig, x, eps), eps)
  {
    var d := Deltas(s, s.names, orig, x);
    var n := s.norm(d);
    assert n >= 0.0 && Times(n, n) == SumSq(d);
    if n <= eps {
      SquareMonotone(n, eps);
    } else if n == 0.0 {
    } else {
      RatioSquared(eps, n);
      ShrunkRespects(s, orig, x, eps / n);
      ShrunkInBall(s, orig, x, eps, eps / n);
    }
  }

  lemma ShrunkInBall(s: Setting, orig: Vector, x: Vector, eps: real, t: real)
    requires Times(SumSq(Deltas(s, s.names, orig, x)), Times(t, t)) == Times(eps, eps)
    ensures InBall(s, orig, Shrunk(s, orig, x, t), eps)
  {
    ShrunkDeltas(s, s.names, orig, x, t);
    ScaleSumSq(Deltas(s, s.names, orig, x), t);
  }

  lemma SquareMonotone(a: real, b: real)
    requires 0.0 <= a <= b
    ensures Times(a, a) <= Times(b, b)
  {
  }

  lemma RatioSquared(eps: real, n: real)
    requires 0.0 <= eps < n
    ensures 0.0 <= eps / n <= 1.0
    ensures Times(Times(n, n), Times(eps / n, eps / n)) == Times(eps, eps)
  {
  }

  // ---------------------------------------------------------------- the source's loops

  lemma EqualVectors(a: Vector, b: Vector)
    requires forall f :: f in a <==> f in b
    requires forall f :: f in a ==> a[f] == b[f]
    ensures a == b
  {
  }

  /** `_apply_constraints`; the order in which the candidate's items come does not matter. */
  method ApplyConstraints(s: Setting, orig: Vector, cand: Vector) returns (out: Vector)
    ensures out == Clamped(s, orig, cand)
  {
    ghost var goal := Clamped(s, orig, cand);
    out := orig;
    var todo := cand.Keys;
    while todo != {}
      invariant todo <= cand.Keys
      invariant forall f :: f in out <==> f in goal && (f in orig || f !in todo)
      invariant forall f :: f in out ==> out[f] == if f in todo then orig[f] else goal[f]
      decreases |todo|
    {
      var feat :| feat in todo;
      todo := todo - {feat};
      if Mutable(s, feat) {
        out := out[feat := Clamp(ConstraintOf(s, feat), Get(orig, feat), cand[feat])];
      }
    }
    EqualVectors(out, goal);
  }

  /** The mutable features in FEATURE_NAMES order. */
  function Feats(s: Setting, names: seq<string>): seq<string> {
    if names == [] then [] else Feat1(s, names[0]) + Feats(s, names[1..])
  }

  function Feat1(s: Setting, f: string): seq<string> { if Mutable(s, f) then [f] else [] }

  lemma {:induction false} DeltasAreFeats(s: Setting, names: seq<string>, orig: Vector, pert: Vector)
    ensures |Deltas(s, names, orig, pert)| == |Feats(s, names)|
    ensures forall k :: 0 <= k < |Feats(s, names)| ==>
      Deltas(s, names, orig, pert)[k] == Val(orig, pert, Feats(s, names)[k]) - Get(orig, Feats(s, names)[k])
  {
    if names != [] {
      DeltasAreFeats(s, names[1..], orig, pert);
    }
  }

  lemma {:induction false} FeatsMembers(s: Setting, names: seq<string>)
    ensures forall f :: f in Feats(s, names) <==> f in names && Mutable(s, f)
  {
    if names != [] {
      FeatsMembers(s, names[1..]);
      assert names == [names[0]] + names[1..];
    }
  }

  lemma Associative<T>(a: seq<T>, b: seq<T>, c: seq<T>)
    ensures (a + b) + c == a + (b + c)
  {
  }

  lemma CollectNext(s: Setting, orig: Vector, pert: Vector, todo: seq<string>, feats: seq<string>, delta: seq<real>)
    requires todo != []
    ensures (delta + Moved1(s, orig, pert, todo[0])) + Deltas(s, todo[1..], orig, pert) == delta + Deltas(s, todo, orig, pert)
    ensures (feats + Feat1(s, todo[0])) + Feats(s, todo[1..]) == feats + Feats(s, todo)
  {
    hide Moved1, Feat1;
    Associative(delta, Moved1(s, orig, pert, todo[0]), Deltas(s, todo[1..], orig, pert));
    Associative(feats, Feat1(s, todo[0]), Feats(s, todo[1..]));
  }

  /** The body of the first loop of `_project_l2`. */
  method CollectOne(s: Setting, orig: Vector, pert: Vector, feat: string, feats: seq<string>, delta: seq<real>)
    returns (feats': seq<string>, delta': seq<real>)
    ensures delta' == delta + Moved1(s, orig, pert, feat) && feats' == feats + Feat1(s, feat)
  {
    feats', delta' := feats, delta;
    if Mutable(s, feat) {
      var d := (if feat in pert then pert[feat] else Get(orig, feat)) - Get(orig, feat);
      feats', delta' := feats + [feat], delta + [d];
    }
  }

  /** The mutable features and how far each was moved: the first loop of `_project_l2`. */
  method CollectDeltas(s: Setting, orig: Vector, pert: Vector) returns (feats: seq<string>, delta: seq<real>)
    ensures delta == Deltas(s, s.names, orig, pert) && feats == Feats(s, s.names)
  {
    feats, delta := [], [];
    var todo := s.names;
    while todo != []
      invariant delta + Deltas(s, todo, orig, pert) == Deltas(s, s.names, orig, pert)
      invariant feats + Feats(s, todo) == Feats(s, s.names)
      decreases |todo|
    {
      var feats', delta' := CollectOne(s, orig, pert, todo[0], feats, delta);
      CollectNext(s, orig, pert, todo, feats, delta);
      feats, delta, todo := feats', delta', todo[1..];
    }
  }

  /** `_project_l2`. */
  method ProjectL2(s: Setting, orig: Vector, pert: Vector, eps: real) returns (out: Vector)
    ensures out == Projected(s, orig, pert, eps)
  {
    var feats, delta := CollectDeltas(s, orig, pert);
    var n := s.norm(delta);
    if n <= eps || n == 0.0 {
      return pert;
    }
    DeltasAreFeats(s, s.names, orig, pert);
    FeatsMembers(s, s.names);
    out := WriteScaled(s, orig, pert, feats, delta, eps / n);
    EqualVectors(out, Shrunk(s, orig, pert, eps / n));
  }

  /** The second loop of `_project_l2`. */
  method WriteScaled(s: Setting, orig: Vector, pert: Vector, feats: seq<string>, delta: seq<real>, t: real)
    returns (out: Vector)
    requires |feats| == |delta|
    requires forall k :: 0 <= k < |feats| ==> delta[k] == Val(orig, pert, feats[k]) - Get(orig, feats[k])
    ensures forall f :: f in out <==> f in orig || f in feats
    ensures forall f :: f in out ==> out[f] == if f in feats then Toward(Get(orig, f), Val(orig, pert, f), t) else orig[f]
  {
    out := orig;
    for k := 0 to |feats|
      invariant forall f :: f in out <==> f in orig || f in feats[..k]
      invariant forall f :: f in out ==>
                  out[f] == if f in feats[..k] then Toward(Get(orig, f), Val(orig, pert, f), t) else orig[f]
    {
      assert feats[..k + 1] == feats[..k] + [feats[k]];
      TowardMoves(Get(orig, feats[k]), Val(orig, pert, feats[k]), t);
      out := out[feats[k] := Get(orig, feats[k]) + Times(delta[k], t)];
    }
    assert feats[..|feats|] == feats;
  }

  /** `_finite_diff_grad` over FEATURE_NAMES: immutable features have gradient zero. */
  function Gradient(s: Setting, vec: Vector): (g: seq<real>)
    ensures |g| == |s.names|
  {
    seq(|s.names|, i requires 0 <= i < |s.names| =>
      var f := s.names[i];
      if !Mutable(s, f) then 0.0 else (s.proba(vec[f := Get(vec, f) + GRAD_EPS]) - s.proba(vec)) / GRAD_EPS)
  }

  function Sign(x: real): real { if x > 0.0 then 1.0 else if x < 0.0 then -1.0 else 0.0 }

  function Signs(g: seq<real>): (r: seq<real>)
    ensures |r| == |g|
  {
    if g == [] then [] else [Sign(g[0])] + Signs(g[1..])
  }

  function Negated(g: seq<real>): (r: seq<real>)
    ensures |r| == |g|
  {
    if g == [] then [] else [-g[0]] + Negated(g[1..])
  }

  lemma {:induction false} SumSqNonNegative(d: seq<real>)
    ensures SumSq(d) >= 0.0
  {
    if d != [] {
      SumSqNonNegative(d[1..]);
      ProductNonNegative(if d[0] >= 0.0 then d[0] else -d[0], if d[0] >= 0.0 then d[0] else -d[0]);
    }
  }

  /** A gradient that is not zero has signs that are not all zero, and so has its opposite. */
  lemma {:induction false} NonZeroDirections(g: seq<real>)
    ensures SumSq(Signs(g)) == 0.0 ==> SumSq(g) == 0.0
    ensures SumSq(Negated(g)) == SumSq(g)
  {
    if g != [] {
      NonZeroDirections(g[1..]);
      SumSqNonNegative(Signs(g[1..]));
      assert Signs(g)[1..] == Signs(g[1..]) && Negated(g)[1..] == Negated(g[1..]);
      assert Sign(g[0]) * Sign(g[0]) == if g[0] == 0.0 then 0.0 else 1.0;
    }
  }

  lemma SquareZero(a: real)
    requires Times(a, a) == 0.0
    ensures a == 0.0
  {
    if a > 0.0 {
      ProductPositive(a, a);
    } else if a < 0.0 {
      ProductPositive(-a, -a);
      SquareOfOpposite(a);
    }
  }

  lemma SquareOfOpposite(a: real)
    ensures Times(-a, -a) == Times(a, a)
  {
  }

  lemma ProductPositive(a: real, b: real)
    requires a > 0.0 && b > 0.0
    ensures Times(a, b) > 0.0
  {
  }

  lemma DirectionsUsable(norm: seq<real> -> real, g: seq<real>)
    requires IsNorm(norm) && norm(g) != 0.0
    ensures norm(Signs(g)) != 0.0 && norm(Negated(g)) != 0.0
  {
    NonZeroDirections(g);
    assert Times(norm(g), norm(g)) == SumSq(g);
    assert Times(norm(Signs(g)), norm(Signs(g))) == SumSq(Signs(g));
    assert Times(norm(Negated(g)), norm(Negated(g))) == SumSq(Negated(g));
    if SumSq(g) == 0.0 {
      SquareZero(norm(g));
    }
  }

  /** The share that coordinate `d` of a direction of norm `n` has in a step of length `size`. */
  function Share(d: real, n: real, size: real): real
    requires n != 0.0
  {
    d / n * size
  }

  function Moved(from: real, d: real, n: real, size: real): real
    requires n != 0.0
  {
    from + Share(d, n, size)
  }

  /** `base` moved by `size` along `dir`, in the mutable ones of the first n features. */
  function Stepped(s: Setting, base: Vector, dir: seq<real>, size: real, n: nat): Vector
    requires |dir| == |s.names| && s.norm(dir) != 0.0 && n <= |s.names|
  {
    if n == 0 then base
    else
      var (f, cand) := (s.names[n - 1], Stepped(s, base, dir, size, n - 1));
      if Mutable(s, f) then cand[f := Moved(Get(base, f), dir[n - 1], s.norm(dir), size)] else cand
  }

  /** Each mutable feature moved along its own coordinate, everything else stayed. */
  lemma {:induction false} SteppedMeaning(s: Setting, base: Vector, dir: seq<real>, size: real, n: nat, k: nat)
    requires ValidSetting(s) && |dir| == |s.names| && s.norm(dir) != 0.0 && k < |s.names| && n <= |s.names|
    ensures var (f, cand) := (s.names[k], Stepped(s, base, dir, size, n));
            if k < n && Mutable(s, f) then f in cand && cand[f] == Moved(Get(base, f), dir[k], s.norm(dir), size)
            else (f in cand <==> f in base) && (f in base ==> cand[f] == base[f])
  {
    if n > 0 {
      SteppedMeaning(s, base, dir, size, n - 1, k);
    }
  }

  method TakeStep(s: Setting, base: Vector, dir: seq<real>, size: real) returns (cand: Vector)
    requires |dir| == |s.names| && s.norm(dir) != 0.0 && KnownFeatures(s, base)
    ensures cand == Stepped(s, base, dir, size, |s.names|) && KnownFeatures(s, cand)
  {
    cand := base;
    for i := 0 to |s.names|
      invariant cand == Stepped(s, base, dir, size, i) && KnownFeatures(s, cand)
    {
      var f := s.names[i];
      if Mutable(s, f) {
        cand := cand[f := Moved(Get(base, f), dir[i], s.norm(dir), size)];
      }
    }
  }

  /** Clamp, then project. */
  method Constrain(s: Setting, orig: Vector, cand: Vector, eps: real) returns (out: Vector)
    requires ValidSetting(s) && KnownFeatures(s, orig) && KnownFeatures(s, cand) && eps >= 0.0
    ensures out == Projected(s, orig, Clamped(s, orig, cand), eps)
    ensures GoodResult(s, orig, eps, out)
  {
    out := ApplyConstraints(s, orig, cand);
    ClampedRespects(s, orig, cand);
    ProjectionKeepsConstraints(s, orig, out, eps);
    out := ProjectL2(s, orig, out, eps);
  }

  // ---------------------------------------------------------------- which way the attacks move

  /** Forward difference of the probability along one feature. */
  function Slope(s: Setting, x: Vector, f: string): real {
    (s.proba(x[f := Get(x, f) + 0.001]) - s.proba(x)) / 0.001
  }

  /** Sum of the squared slopes of the mutable features among `names`. */
  function SlopeSq(s: Setting, x: Vector, names: seq<string>): real {
    if names == [] then 0.0
    else (if Mutable(s, names[0]) then Times(Slope(s, x, names[0]), Slope(s, x, names[0])) else 0.0) + SlopeSq(s, x, names[1..])
  }

  /** How many mutable features among `names` slope at all. */
  function Sloped(s: Setting, x: Vector, names: seq<string>): real {
    if names == [] then 0.0
    else (if Mutable(s, names[0]) && Slope(s, x, names[0]) != 0.0 then 1.0 else 0.0) + Sloped(s, x, names[1..])
  }

  lemma GradientIsSlope(s: Setting, x: Vector, k: nat)
    requires k < |s.names|
    ensures Gradient(s, x)[k] == if Mutable(s, s.names[k]) then Slope(s, x, s.names[k]) else 0.0
  {
  }

  lemma {:induction false} SignsAt(g: seq<real>, k: nat)
    requires k < |g|
    ensures Signs(g)[k] == Sign(g[k]) && Negated(g)[k] == -g[k]
    ensures Signs(g)[k..] == Signs(g[k..])
  {
    if k > 0 {
      SignsAt(g[1..], k - 1);
      assert g[1..][k - 1..] == g[k..] && Signs(g)[1..] == Signs(g[1..]);
      assert Signs(g)[1..][k - 1..] == Signs(g)[k..];
    } else {
      assert g[0..] == g && Signs(g)[0..] == Signs(g);
    }
  }

  lemma {:induction false} GradientSquares(s: Setting, x: Vector, k: nat)
    requires k <= |s.names|
    ensures SumSq(Gradient(s, x)[k..]) == SlopeSq(s, x, s.names[k..])
    ensures SumSq(Signs(Gradient(s, x)[k..])) == Sloped(s, x, s.names[k..])
    decreases |s.names| - k
  {
    var g := Gradient(s, x);
    if k < |s.names| {
      GradientSquares(s, x, k + 1);
      GradientIsSlope(s, x, k);
      assert g[k..][1..] == g[k + 1..] && s.names[k..][1..] == s.names[k + 1..];
      assert Signs(g[k..])[1..] == Signs(g[k + 1..]);
      assert Sign(g[k]) * Sign(g[k]) == if g[k] == 0.0 then 0.0 else 1.0;
    }
  }

  lemma EqualRoots(a: real, b: real)
    requires a >= 0.0 && b >= 0.0 && Times(a, a) == Times(b, b)
    ensures a == b
  {
    if a < b {
      StrictSquares(a, b);
    } else if b < a {
      StrictSquares(b, a);
    }
  }

  lemma StrictSquares(a: real, b: real)
    requires 0.0 <= a < b
    ensures Times(a, a) < Times(b, b)
  {
    assert b * b - a * a == (b - a) * (b + a);
    ProductPositive(b - a, b + a);
  }

  /** Features no attack touches keep their value. */
  ghost predicate OthersStay(s: Setting, from: Vector, cand: Vector) {
    forall f :: f !in s.names || !Mutable(s, f) ==> (f in cand <==> f in from) && (f in from ==> cand[f] == from[f])
  }

  /**
   Every mutable feature goes down its slope, by that slope's share of a step of
   length `alpha`; `n` is the length of the slope.
   */
  ghost predicate SteepestDescent(s: Setting, from: Vector, alpha: real, n: real, cand: Vector) {
    && n > 0.0 && Times(n, n) == SlopeSq(s, from, s.names)
    && (forall f :: f in s.names && Mutable(s, f) ==>
          f in cand && cand[f] == Get(from, f) - Share(Slope(s, from, f), n, alpha))
    && OthersStay(s, from, cand)
  }

  /**
   Every mutable feature moves by `step`: up where the probability rises with
   it, down where it falls, not at all where it is flat; together by `eps`.
   */
  ghost predicate SignedStep(s: Setting, from: Vector, eps: real, step: real, cand: Vector) {
    && step >= 0.0 && Times(Times(step, step), Sloped(s, from, s.names)) == Times(eps, eps)
    && (forall f :: f in s.names && Mutable(s, f) ==>
          && f in cand
          && cand[f] == Get(from, f) + (if Slope(s, from, f) > 0.0 then step else if Slope(s, from, f) < 0.0 then -step else 0.0))
    && OthersStay(s, from, cand)
  }

  lemma {:induction false} SteppedElsewhere(s: Setting, base: Vector, dir: seq<real>, size: real, n: nat, f: string)
    requires |dir| == |s.names| && s.norm(dir) != 0.0 && n <= |s.names| && (f !in s.names || !Mutable(s, f))
    ensures var cand := Stepped(s, base, dir, size, n); (f in cand <==> f in base) && (f in base ==> cand[f] == base[f])
  {
    if n > 0 {
      SteppedElsewhere(s, base, dir, size, n - 1, f);
    }
  }

  lemma SteppedStays(s: Setting, base: Vector, dir: seq<real>, size: real)
    requires |dir| == |s.names| && s.norm(dir) != 0.0
    ensures OthersStay(s, base, Stepped(s, base, dir, size, |s.names|))
  {
    forall f | f !in s.names || !Mutable(s, f)
      ensures var cand := Stepped(s, base, dir, size, |s.names|); (f in cand <==> f in base) && (f in base ==> cand[f] == base[f])
    {
      SteppedElsewhere(s, base, dir, size, |s.names|, f);
    }
  }

  lemma Opposite(d: real, n: real, size: real)
    requires n != 0.0
    ensures Share(-d, n, size) == -Share(d, n, size)
  {
  }

  lemma OppositeNorm(norm: seq<real> -> real, g: seq<real>)
    requires IsNorm(norm)
    ensures norm(Negated(g)) == norm(g)
  {
    NonZeroDirections(g);
    assert Times(norm(g), norm(g)) == SumSq(g) && Times(norm(Negated(g)), norm(Negated(g))) == SumSq(Negated(g));
    EqualRoots(norm(Negated(g)), norm(g));
  }

  /** A step against the gradient is a steepest descent. */
  lemma NegatedDescends(s: Setting, from: Vector, alpha: real)
    requires ValidSetting(s) && s.norm(Gradient(s, from)) != 0.0
    ensures s.norm(Negated(Gradient(s, from))) != 0.0
    ensures SteepestDescent(s, from, alpha, s.norm(Gradient(s, from)),
                            Stepped(s, from, Negated(Gradient(s, from)), alpha, |s.names|))
  {
    var g := Gradient(s, from);
    var n := s.norm(g);
    hide Share, Times, Gradient, Slope, Stepped, SlopeSq, SumSq, Sloped;
    OppositeNorm(s.norm, g);
    assert n >= 0.0 && Times(n, n) == SumSq(g);
    GradientSquares(s, from, 0);
    assert g[0..] == g && s.names[0..] == s.names;
    var cand := Stepped(s, from, Negated(g), alpha, |s.names|);
    SteppedStays(s, from, Negated(g), alpha);
    forall f | f in s.names && Mutable(s, f) ensures f in cand && cand[f] == Get(from, f) - Share(Slope(s, from, f), n, alpha) {
      var k :| 0 <= k < |s.names| && s.names[k] == f;
      SteppedMeaning(s, from, Negated(g), alpha, |s.names|, k);
      GradientIsSlope(s, from, k);
      SignsAt(g, k);
      Opposite(g[k], n, alpha);
    }
  }

  lemma ShareSquared(eps: real, n: real)
    requires eps >= 0.0 && n > 0.0
    ensures eps / n >= 0.0 && Times(Times(eps / n, eps / n), Times(n, n)) == Times(eps, eps)
  {
  }

  lemma SignTimes(x: real, n: real, eps: real)
    requires n > 0.0
    ensures Share(Sign(x), n, eps) == if x > 0.0 then eps / n else if x < 0.0 then -(eps / n) else 0.0
  {
  }

  /** A step along the signs of the gradient is a signed step. */
  lemma SignsStep(s: Setting, from: Vector, eps: real)
    requires ValidSetting(s) && eps >= 0.0 && s.norm(Gradient(s, from)) != 0.0
    ensures s.norm(Signs(Gradient(s, from))) != 0.0
    ensures SignedStep(s, from, eps, eps / s.norm(Signs(Gradient(s, from))),
                       Stepped(s, from, Signs(Gradient(s, from)), eps, |s.names|))
  {
    var g := Gradient(s, from);
    DirectionsUsable(s.norm, g);
    var n := s.norm(Signs(g));
    hide Share, Times, Gradient, Slope, Stepped, SlopeSq, SumSq, Sloped, Sign, Signs;
    assert n >= 0.0 && Times(n, n) == SumSq(Signs(g));
    GradientSquares(s, from, 0);
    assert g[0..] == g && s.names[0..] == s.names;
    ShareSquared(eps, n);
    var cand := Stepped(s, from, Signs(g), eps, |s.names|);
    SteppedStays(s, from, Signs(g), eps);
    forall f | f in s.names && Mutable(s, f)
      ensures && f in cand
              && cand[f] == Get(from, f) + (if Slope(s, from, f) > 0.0 then eps / n else if Slope(s, from, f) < 0.0 then -(eps / n) else 0.0)
    {
      var k :| 0 <= k < |s.names| && s.names[k] == f;
      SteppedMeaning(s, from, Signs(g), eps, |s.names|, k);
      GradientIsSlope(s, from, k);
      SignsAt(g, k);
      SignTimes(g[k], n, eps);
    }
  }

  /** First-order change of the probability over `names`. */
  function Change(s: Setting, from: Vector, to: Vector, names: seq<string>): real {
    if names == [] then 0.0
    else
      (if Mutable(s, names[0]) then Times(Slope(s, from, names[0]), Get(to, names[0]) - Get(from, names[0])) else 0.0)
      + Change(s, from, to, names[1..])
  }

  lemma {:induction false} DescentChange(s: Setting, from: Vector, alpha: real, n: real, cand: Vector, names: seq<string>)
    requires SteepestDescent(s, from, alpha, n, cand) && forall i :: 0 <= i < |names| ==> names[i] in s.names
    ensures Change(s, from, cand, names) == -Share(SlopeSq(s, from, names), n, alpha)
  {
    hide Share, Times, Slope;
    if names == [] {
      NoShare(n, alpha);
    } else {
      DescentChange(s, from, alpha, n, cand, names[1..]);
      var f := names[0];
      assert f in s.names;
      var d := Slope(s, from, f);
      var rest := SlopeSq(s, from, names[1..]);
      if Mutable(s, f) {
        SplitShare(d, rest, n, alpha);
      }
    }
  }

  lemma NoShare(n: real, alpha: real)
    requires n != 0.0
    ensures Share(0.0, n, alpha) == 0.0
  {
  }

  lemma SplitShare(d: real, rest: real, n: real, alpha: real)
    requires n != 0.0
    ensures Times(d, -Share(d, n, alpha)) + -Share(rest, n, alpha) == -Share(Times(d, d) + rest, n, alpha)
  {
    assert d * (d / n * alpha) == d * d / n * alpha;
  }

  /** To first order a descent step lowers the probability by `alpha` times the length of the slope. */
  lemma DescentLowers(s: Setting, from: Vector, alpha: real, n: real, cand: Vector)
    requires SteepestDescent(s, from, alpha, n, cand)
    ensures Change(s, from, cand, s.names) == -Times(alpha, n)
  {
    hide Share, Times, Slope;
    DescentChange(s, from, alpha, n, cand, s.names);
    WholeShare(n, alpha);
  }

  lemma WholeShare(n: real, alpha: real)
    requires n != 0.0
    ensures Share(Times(n, n), n, alpha) == Times(alpha, n)
  {
  }

  lemma {:induction false} SignedChange(s: Setting, from: Vector, eps: real, step: real, cand: Vector, names: seq<string>)
    requires SignedStep(s, from, eps, step, cand) && forall i :: 0 <= i < |names| ==> names[i] in s.names
    ensures Change(s, from, cand, names) >= 0.0
    ensures step > 0.0 && Sloped(s, from, names) > 0.0 ==> Change(s, from, cand, names) > 0.0
  {
    if names != [] {
      SignedChange(s, from, eps, step, cand, names[1..]);
      var f := names[0];
      assert f in s.names;
      if Mutable(s, f) {
        SignedTerm(Slope(s, from, f), step);
      }
    }
  }

  lemma SignedTerm(d: real, step: real)
    requires step >= 0.0
    ensures Times(d, if d > 0.0 then step else if d < 0.0 then -step else 0.0) >= 0.0
    ensures d != 0.0 && step > 0.0 ==> Times(d, if d > 0.0 then step else if d < 0.0 then -step else 0.0) > 0.0
  {
    if d > 0.0 {
      ProductNonNegative(d, step);
    } else if d < 0.0 {
      ProductNonNegative(-d, step);
      assert d * -step == -d * step;
    }
  }

  /** To first order an FGSM step of positive budget raises the probability: the two attacks move opposite ways. */
  lemma SignedStepRaises(s: Setting, from: Vector, eps: real, step: real, cand: Vector)
    requires SignedStep(s, from, eps, step, cand) && eps > 0.0
    ensures Change(s, from, cand, s.names) > 0.0
  {
    SlopedNonNegative(s, from, s.names);
    ProductPositive(eps, eps);
    ZeroFactors(step, Sloped(s, from, s.names));
    SignedChange(s, from, eps, step, cand, s.names);
  }

  lemma ZeroFactors(step: real, count: real)
    ensures step == 0.0 || count == 0.0 ==> Times(Times(step, step), count) == 0.0
  {
  }

  lemma {:induction false} SlopedNonNegative(s: Setting, x: Vector, names: seq<string>)
    ensures Sloped(s, x, names) >= 0.0
  {
    if names != [] {
      SlopedNonNegative(s, x, names[1..]);
    }
  }

  /** The probability is flat exactly when the gradient has norm zero. */
  lemma FlatIffZeroNorm(s: Setting, x: Vector)
    requires ValidSetting(s)
    ensures s.norm(Gradient(s, x)) == 0.0 <==> SlopeSq(s, x, s.names) == 0.0
  {
    var g := Gradient(s, x);
    GradientSquares(s, x, 0);
    assert g[0..] == g && s.names[0..] == s.names;
    assert Times(s.norm(g), s.norm(g)) == SumSq(g);
    if SumSq(g) == 0.0 {
      SquareZero(s.norm(g));
    }
  }

  // ---------------------------------------------------------------- the attacks

  /** All four constraints hold at once. */
  ghost predicate GoodResult(s: Setting, vector: Vector, eps: real, x: Vector) {
    Respects(s, vector, x) && InBall(s, vector, x, eps)
  }

  /** A signed step, clamped and projected. */
  ghost predicate FgsmMove(s: Setting, vector: Vector, eps: real, out: Vector) {
    exists step, cand :: SignedStep(s, vector, eps, step, cand) && out == Projected(s, vector, Clamped(s, vector, cand), eps)
  }

  /** `fgsm_attack`: the result respects every constraint and stays in the ball. */
  method FgsmAttack(s: Setting, vector: Vector, eps: real) returns (r: Result<(Vector, real), AttackError>)
    requires ValidSetting(s) && eps >= 0.0
    ensures r.Ok? <==> KnownFeatures(s, vector)
    ensures r.Ok? ==> r.value.1 == s.proba(r.value.0)
    ensures r.Ok? ==>
              if SlopeSq(s, vector, s.names) == 0.0 then r.value.0 == vector else FgsmMove(s, vector, eps, r.value.0)
    ensures r.Ok? ==> GoodResult(s, vector, eps, r.value.0)
  {
    if !KnownFeatures(s, vector) {
      return Err(UnknownFeatures);
    }
    var g := Gradient(s, vector);
    FlatIffZeroNorm(s, vector);
    if s.norm(g) == 0.0 {
      OriginalRespects(s, vector, eps);
      return Ok((vector, s.proba(vector)));
    }
    SignsStep(s, vector, eps);
    var cand := TakeStep(s, vector, Signs(g), eps);
    var out := Constrain(s, vector, cand, eps);
    return Ok((out, s.proba(out)));
  }

  /** Every iterate respects the constraints and stays in the ball. */
  ghost predicate GoodIterates(s: Setting, vector: Vector, eps: real, iterates: seq<Vector>) {
    forall k :: 0 <= k < |iterates| ==> GoodResult(s, vector, eps, iterates[k])
  }

  /** A steepest-descent step, clamped and projected. */
  ghost predicate DescentMove(s: Setting, vector: Vector, eps: real, alpha: real, from: Vector, to: Vector) {
    exists n, cand :: SteepestDescent(s, from, alpha, n, cand) && to == Projected(s, vector, Clamped(s, vector, cand), eps)
  }

  /** Every iterate comes from its predecessor by one such step. */
  ghost predicate DescentChain(s: Setting, vector: Vector, eps: real, alpha: real, iterates: seq<Vector>) {
    forall k :: 0 < k < |iterates| ==> DescentMove(s, vector, eps, alpha, iterates[k - 1], iterates[k])
  }

  method PgdStep(s: Setting, vector: Vector, pert: Vector, eps: real, alpha: real) returns (next: Option<Vector>)
    requires ValidSetting(s) && eps >= 0.0 && KnownFeatures(s, vector) && KnownFeatures(s, pert)
    ensures next.None? <==> SlopeSq(s, pert, s.names) == 0.0
    ensures next.Some? ==> DescentMove(s, vector, eps, alpha, pert, next.value)
    ensures next.Some? ==> GoodResult(s, vector, eps, next.value)
  {
    var g := Gradient(s, pert);
    FlatIffZeroNorm(s, pert);
    if s.norm(g) == 0.0 {
      return None;
    }
    NegatedDescends(s, pert, alpha);
    var cand := TakeStep(s, pert, Negated(g), alpha);
    var out := Constrain(s, vector, cand, eps);
    return Some(out);
  }

  lemma ExtendIterates(s: Setting, vector: Vector, eps: real, alpha: real, iterates: seq<Vector>, next: Vector)
    requires iterates != [] && GoodIterates(s, vector, eps, iterates) && DescentChain(s, vector, eps, alpha, iterates)
    requires GoodResult(s, vector, eps, next)
    requires DescentMove(s, vector, eps, alpha, iterates[|iterates| - 1], next)
    ensures GoodIterates(s, vector, eps, iterates + [next]) && DescentChain(s, vector, eps, alpha, iterates + [next])
  {
  }

  /** `pgd_attack`: every iterate respects every constraint and stays in the ball. */
  method PgdAttack(s: Setting, vector: Vector, eps: real, alpha: real, steps: int)
    returns (r: Result<(Vector, real), AttackError>, ghost iterates: seq<Vector>)
    requires ValidSetting(s) && eps >= 0.0
    ensures r.Ok? <==> steps > 0 && KnownFeatures(s, vector)
    ensures r.Ok? ==> 1 <= |iterates| <= steps + 1 && iterates[0] == vector
                      && r.value == (iterates[|iterates| - 1], s.proba(iterates[|iterates| - 1]))
    ensures GoodIterates(s, vector, eps, iterates) && DescentChain(s, vector, eps, alpha, iterates)
    ensures r.Ok? && |iterates| < steps + 1 ==> SlopeSq(s, r.value.0, s.names) == 0.0
  {
    if steps <= 0 {
      return Err(BadSteps), [];
    }
    if !KnownFeatures(s, vector) {
      return Err(UnknownFeatures), [];
    }
    var pert := vector;
    iterates := [pert];
    OriginalRespects(s, vector, eps);
    for i := 0 to steps
      invariant KnownFeatures(s, pert)
      invariant |iterates| == i + 1 && iterates[0] == vector && iterates[i] == pert
      invariant GoodIterates(s, vector, eps, iterates) && DescentChain(s, vector, eps, alpha, iterates)
    {
      var next := PgdStep(s, vector, pert, eps, alpha);
      if next.None? {
        return Ok((pert, s.proba(pert))), iterates;
      }
      ExtendIterates(s, vector, eps, alpha, iterates, next.value);
      pert := next.value;
      iterates := iterates + [pert];
    }
    return Ok((pert, s.proba(pert))), iterates;
  }
}
