/** What the mouse does to the cloth in TEAR mode (src/simulation.cpp:547-614):
    which springs a tear at a point cuts, and which particle a ray through
    the cursor picks. */
module Interaction {
  import opened Vectors
  import opened Options
  import opened Springs

  /** glm::clamp(v, lo, hi), that is min(max(v, lo), hi). */
  function Clamp(v: real, lo: real, hi: real): (r: real)
    requires lo <= hi
    ensures lo <= r <= hi
    ensures lo <= v <= hi ==> r == v
  {
    if v < lo then lo else if hi < v then hi else v
  }

  /** The point of the segment p1-p2 nearest to `point`: the projection onto
      the spring's direction, clamped to the spring. */
  function ClosestOnSegment(p1: Vec3, p2: Vec3, point: Vec3, length: Vec3 -> real): Vec3
    requires 0.0 < length(Sub(p2, p1))
  {
    var springLength := length(Sub(p2, p1));
    var springDir := Div(Sub(p2, p1), springLength);
    var t := Clamp(Dot(Sub(point, p1), springDir), 0.0, springLength);
    Add(p1, Scale(t, springDir))
  }

  /** The clamped point lies on the spring: it is p1 + s(p2 - p1) for some
      s between 0 and 1, and so no farther from p1 than p2 is. */
  lemma ClosestIsOnSpring(p1: Vec3, p2: Vec3, point: Vec3, length: Vec3 -> real)
    requires IsLengthFn(length) && 0.0 < length(Sub(p2, p1))
    ensures exists s :: 0.0 <= s <= 1.0 && ClosestOnSegment(p1, p2, point, length) == Add(p1, Scale(s, Sub(p2, p1)))
    ensures length(Sub(ClosestOnSegment(p1, p2, point, length), p1)) <= length(Sub(p2, p1))
  {
    var delta := Sub(p2, p1);
    var springLength := length(delta);
    var springDir := Div(delta, springLength);
    var t := Clamp(Dot(Sub(point, p1), springDir), 0.0, springLength);
    ScaleOfQuotient(t, delta, springLength);
    var s := t / springLength;
    FractionInUnit(t, springLength);
    assert ClosestOnSegment(p1, p2, point, length) == Add(p1, Scale(s, delta));
    assert Sub(ClosestOnSegment(p1, p2, point, length), p1) == Scale(s, delta);
    ScaledLength(length, s, delta, t);
  }

  lemma FractionInUnit(t: real, len: real)
    requires 0.0 <= t <= len && 0.0 < len
    ensures 0.0 <= t / len <= 1.0
  {
    assert t / len * len == t;
  }

  lemma ScaleOfQuotient(t: real, d: Vec3, len: real)
    requires len != 0.0
    ensures Scale(t, Div(d, len)) == Scale(t / len, d)
  {
  }

  /** Whether tearSpringsAroundPoint cuts the spring from p1 to p2: an
      endpoint, or else the nearest point of a spring of non-zero length, is
      strictly closer to `point` than `radius`. */
  function TearsSpring(p1: Vec3, p2: Vec3, point: Vec3, radius: real, length: Vec3 -> real): bool {
    var dist1 := length(Sub(point, p1));
    var dist2 := length(Sub(point, p2));
    if dist1 < radius || dist2 < radius then true
    else
      var springLength := length(Sub(p2, p1));
      if springLength > 0.0 then
        length(Sub(point, ClosestOnSegment(p1, p2, point, length))) < radius
      else false
  }

  /** Lengths are never negative, so a radius of zero or less cuts nothing. */
  lemma NoRadiusTearsNothing(p1: Vec3, p2: Vec3, point: Vec3, radius: real, length: Vec3 -> real)
    requires IsLengthFn(length) && radius <= 0.0
    ensures !TearsSpring(p1, p2, point, radius, length)
  {
    LengthZero(length, Sub(point, p1));
    LengthZero(length, Sub(point, p2));
    if 0.0 < length(Sub(p2, p1)) {
      LengthZero(length, Sub(point, ClosestOnSegment(p1, p2, point, length)));
    }
  }

  /** An endpoint within the radius, measured without square roots, always
      cuts the spring. */
  lemma NearEndpointTears(p1: Vec3, p2: Vec3, point: Vec3, radius: real, length: Vec3 -> real)
    requires IsLengthFn(length) && 0.0 < radius
    requires LengthSq(Sub(point, p1)) < Sq(radius) || LengthSq(Sub(point, p2)) < Sq(radius)
    ensures TearsSpring(p1, p2, point, radius, length)
  {
    LengthIsRoot(length, Sub(point, p1));
    LengthIsRoot(length, Sub(point, p2));
    SqrtLess(length(Sub(point, p1)), LengthSq(Sub(point, p1)), radius);
    SqrtLess(length(Sub(point, p2)), LengthSq(Sub(point, p2)), radius);
  }

  /** A spring whose both endpoints sit on the tear point (a degenerate,
      zero-length spring) is cut exactly when the radius is positive. */
  lemma CollapsedSpringTears(p: Vec3, radius: real, length: Vec3 -> real)
    requires IsLengthFn(length)
    ensures TearsSpring(p, p, p, radius, length) <==> 0.0 < radius
  {
    SubZero(p, p);
    LengthZero(length, Sub(p, p));
  }

  /** A larger radius cuts every spring a smaller one does. */
  lemma TearGrowsWithRadius(p1: Vec3, p2: Vec3, point: Vec3, r1: real, r2: real, length: Vec3 -> real)
    requires r1 <= r2 && TearsSpring(p1, p2, point, r1, length)
    ensures TearsSpring(p1, p2, point, r2, length)
  {
  }

  /** Every spring joins two of the first n particles. */
  predicate SpringsWithin(springs: seq<Spring>, n: nat) {
    forall i :: 0 <= i < |springs| ==> springs[i].p1 < n && springs[i].p2 < n
  }

  /** The active flags after a tear at `point`: a spring stays active when it
      was and the tear does not cut it. */
  function TearMask(active: seq<bool>, springs: seq<Spring>, pos: seq<Vec3>, point: Vec3,
                    radius: real, length: Vec3 -> real): (r: seq<bool>)
    requires |active| == |springs| && SpringsWithin(springs, |pos|)
    ensures |r| == |active|
  {
    seq(|active|, i requires 0 <= i < |active| =>
      active[i] && !TearsSpring(pos[springs[i].p1], pos[springs[i].p2], point, radius, length))
  }

  /** A tear only ever deactivates springs: a torn spring stays torn, and a
      spring is deactivated exactly when it was active and is cut. */
  lemma TearOnlyCuts(active: seq<bool>, springs: seq<Spring>, pos: seq<Vec3>, point: Vec3,
                     radius: real, length: Vec3 -> real, i: nat)
    requires |active| == |springs| && SpringsWithin(springs, |pos|) && i < |active|
    ensures TearMask(active, springs, pos, point, radius, length)[i] ==> active[i]
    ensures active[i] && !TearMask(active, springs, pos, point, radius, length)[i]
        <==> active[i] && TearsSpring(pos[springs[i].p1], pos[springs[i].p2], point, radius, length)
  {
  }

  /** Tearing twice at the same point cuts nothing more. */
  lemma TearIdempotent(active: seq<bool>, springs: seq<Spring>, pos: seq<Vec3>, point: Vec3,
                       radius: real, length: Vec3 -> real)
    requires |active| == |springs| && SpringsWithin(springs, |pos|)
    ensures var once := TearMask(active, springs, pos, point, radius, length);
      TearMask(once, springs, pos, point, radius, length) == once
  {
  }

  /** A tear with no radius leaves every spring as it was. */
  lemma NoRadiusMaskUnchanged(active: seq<bool>, springs: seq<Spring>, pos: seq<Vec3>, point: Vec3,
                              radius: real, length: Vec3 -> real)
    requires IsLengthFn(length) && radius <= 0.0
    requires |active| == |springs| && SpringsWithin(springs, |pos|)
    ensures TearMask(active, springs, pos, point, radius, length) == active
  {
    forall i | 0 <= i < |active|
      ensures !TearsSpring(pos[springs[i].p1], pos[springs[i].p2], point, radius, length)
    {
      NoRadiusTearsNothing(pos[springs[i].p1], pos[springs[i].p2], point, radius, length);
    }
  }

  /** std::numeric_limits<float>::max(), where the search for the nearest
      particle starts. */
  const FloatMax: real := 340282346638528859811704183484516925440.0

  /** The squared distance from p to the ray's line, as
      findClosestParticleToRay computes it. */
  function RayDistanceSq(p: Vec3, origin: Vec3, dir: Vec3): (r: real)
    ensures 0.0 <= r
  {
    var toParticle := Sub(p, origin);
    var closestOnRay := Add(origin, Scale(Dot(toParticle, dir), dir));
    var vec := Sub(p, closestOnRay);
    DotSelf(vec);
    Dot(vec, vec)
  }

  /** A point on the ray's line is at distance zero from it. */
  lemma PointOnRayIsNearest(origin: Vec3, dir: Vec3, s: real)
    requires Dot(dir, dir) == 1.0
    ensures RayDistanceSq(Add(origin, Scale(s, dir)), origin, dir) == 0.0
  {
    var p := Add(origin, Scale(s, dir));
    DotScale(s, dir);
    assert Sub(p, origin) == Scale(s, dir);
    var vec := Sub(p, Add(origin, Scale(Dot(Scale(s, dir), dir), dir)));
    assert vec == Zero;
  }

  lemma DotScale(s: real, d: Vec3)
    ensures Dot(Scale(s, d), d) == s * Dot(d, d)
  {
  }

  function RayDistances(pos: seq<Vec3>, origin: Vec3, dir: Vec3): (r: seq<real>)
    ensures |r| == |pos|
    ensures forall k :: 0 <= k < |r| ==> 0.0 <= r[k]
  {
    seq(|pos|, k requires 0 <= k < |pos| => RayDistanceSq(pos[k], origin, dir))
  }

  /** The search after it has looked at ds[0 .. n-1]: the index it holds, if
      any, and the smallest distance seen, which starts at FloatMax. */
  function Scan(ds: seq<real>, n: nat): (r: (Option<nat>, real))
    requires n <= |ds|
    ensures r.0.None? ==> r.1 == FloatMax
    ensures r.0.Some? ==> r.0.value < n && r.1 == ds[r.0.value]
  {
    if n == 0 then (None, FloatMax)
    else
      var prev := Scan(ds, n - 1);
      if ds[n - 1] < prev.1 then (Some(n - 1), ds[n - 1]) else prev
  }

  /** k holds the smallest of the first n values, below FloatMax, and no
      earlier index holds as small a value. */
  ghost predicate FirstNearest(ds: seq<real>, n: nat, k: nat)
    requires n <= |ds|
  {
    k < n && ds[k] < FloatMax
    && (forall j :: 0 <= j < n ==> ds[k] <= ds[j])
    && (forall j :: 0 <= j < k ==> ds[k] < ds[j])
  }

  /** The strict comparison keeps the first of equal candidates, and nothing
      at FloatMax or beyond is ever taken. */
  lemma {:induction false} ScanFindsFirstNearest(ds: seq<real>, n: nat)
    requires n <= |ds|
    ensures Scan(ds, n).0.Some? ==> FirstNearest(ds, n, Scan(ds, n).0.value)
    ensures Scan(ds, n).0.None? ==> forall j :: 0 <= j < n ==> FloatMax <= ds[j]
  {
    if n > 0 {
      ScanFindsFirstNearest(ds, n - 1);
    }
  }

  /** There is at most one first-nearest index. */
  lemma FirstNearestUnique(ds: seq<real>, n: nat, a: nat, b: nat)
    requires n <= |ds| && FirstNearest(ds, n, a) && FirstNearest(ds, n, b)
    ensures a == b
  {
  }

  /** What findClosestParticleToRay answers for the distances ds: the
      nearest particle when the square root of its distance is below `reach`
      (twice the tear radius), and none otherwise. */
  function Picked(ds: seq<real>, reach: real, sqrt: real -> real): (r: Option<nat>)
    requires IsSqrtFn(sqrt) && forall k :: 0 <= k < |ds| ==> 0.0 <= ds[k]
    ensures r.Some? ==> r.value < |ds|
  {
    var (closest, minDistSq) := Scan(ds, |ds|);
    if closest.Some? && sqrt(minDistSq) < reach then closest else None
  }

  /** The pick, without square roots: particle k is picked exactly when it
      is the first nearest to the ray and its squared distance is below
      reach^2. */
  lemma PickedIsFirstNearestInReach(ds: seq<real>, reach: real, sqrt: real -> real, k: nat)
    requires IsSqrtFn(sqrt) && forall j :: 0 <= j < |ds| ==> 0.0 <= ds[j]
    ensures Picked(ds, reach, sqrt) == Some(k)
        <==> FirstNearest(ds, |ds|, k) && 0.0 < reach && ds[k] < Sq(reach)
  {
    ScanFindsFirstNearest(ds, |ds|);
    var (closest, minDistSq) := Scan(ds, |ds|);
    if closest.Some? {
      SqrtIsRoot(sqrt, minDistSq);
      SqrtLess(sqrt(minDistSq), minDistSq, reach);
      if FirstNearest(ds, |ds|, k) {
        FirstNearestUnique(ds, |ds|, k, closest.value);
      }
    }
  }

  /** An empty cloth offers nothing to pick. */
  lemma NothingToPick(reach: real, sqrt: real -> real)
    requires IsSqrtFn(sqrt)
    ensures Picked([], reach, sqrt) == None
  {
  }
}
