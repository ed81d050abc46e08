/**
 * The scene: an ordered sequence of bodies and the per-frame simulation step
 * (gravity impulses, pairwise sphere collisions resolved by stopping both
 * bodies, then explicit position integration).
 *
 * The first half states each phase of the step as a function on the values
 * of the bodies (`seq<BodyState>`); the class `Scene` at the end does the
 * same work in place on `Body` objects and is proved to agree with them.
 */
module Scenes {
  import opened Vectors
  import opened Physics

  /** Acceleration due to gravity, along -z. */
  const Gravity := Vec3(0.0, 0.0, -9.81)

  /** Every body has a shape: what every collision query dereferences. */
  predicate AllShaped(s: seq<BodyState>)
  {
    forall k :: 0 <= k < |s| ==> s[k].shape.Some?
  }

  function Radius(b: BodyState): real
    requires b.shape.Some?
  {
    b.shape.value.radius
  }

  /** `r` is `s` with, at most, other linear velocities. */
  predicate SameButVelocities(s: seq<BodyState>, r: seq<BodyState>)
  {
    |r| == |s| && forall k :: 0 <= k < |s| ==> r[k] == s[k].(linearVelocity := r[k].linearVelocity)
  }

  lemma SameButVelocitiesKeepsShapes(s: seq<BodyState>, r: seq<BodyState>)
    requires AllShaped(s) && SameButVelocities(s, r)
    ensures AllShaped(r)
  {
    forall k | 0 <= k < |r| ensures r[k].shape.Some? {
      assert r[k].shape == s[k].shape;
    }
  }

  // ---------------------------------------------------------------------
  // Phase 1: gravity

  /**
   * The mass used for the gravity impulse. The inverse of an inverse mass of
   * zero does not exist over the reals; that case yields 0, and the impulse
   * it produces is ignored by the static body it is applied to.
   */
  function Mass(invMass: real): (m: real)
    ensures invMass != 0.0 ==> m * invMass == 1.0
    ensures invMass == 0.0 ==> m == 0.0
  {
    if invMass != 0.0 then 1.0 / invMass else 0.0
  }

  /**
   * The impulse of gravity over `dt` on a body: acceleration times mass times
   * time. It points along -z, and for a dynamic body, scaled by the inverse
   * mass, it is `Gravity * dt`.
   */
  function GravityImpulse(b: BodyState, dt: real): (j: Vec3)
    ensures j.x == 0.0 && j.y == 0.0
    ensures !IsStatic(b) ==> j.z * b.invMass == -9.81 * dt
  {
    Scale(Scale(Gravity, Mass(b.invMass)), dt)
  }

  /** Every body, in order, receives its gravity impulse. */
  function ApplyGravity(s: seq<BodyState>, dt: real): (r: seq<BodyState>)
    ensures SameButVelocities(s, r)
  {
    seq(|s|, k requires 0 <= k < |s| => PulseLinear(s[k], GravityImpulse(s[k], dt)))
  }

  /**
   * Gravity leaves a static body as it is and adds `Gravity * dt` to the
   * velocity of a dynamic one, whatever its mass.
   */
  lemma GravityPulse(b: BodyState, dt: real)
    ensures PulseLinear(b, GravityImpulse(b, dt)) ==
      if IsStatic(b) then b
      else b.(linearVelocity := Add(b.linearVelocity, Scale(Gravity, dt)))
  {
    if !IsStatic(b) {
      var m := b.invMass;
      var j := GravityImpulse(b, dt);
      assert j == Vec3(0.0, 0.0, -9.81 * (1.0 / m) * dt);
      assert -9.81 * (1.0 / m) * dt * m == -9.81 * dt by {
        assert (1.0 / m) * m == 1.0;
      }
      assert Scale(j, m) == Scale(Gravity, dt);
    }
  }

  // ---------------------------------------------------------------------
  // Phase 2: collisions

  /**
   * The sphere-sphere overlap test: the squared distance of the centres is at
   * most the square of the sum of the radii. Spheres with the same centre
   * always overlap.
   */
  predicate SpheresIntersect(a: BodyState, b: BodyState)
    requires a.shape.Some? && b.shape.Some?
    ensures a.position == b.position ==> SpheresIntersect(a, b)
  {
    var r := Radius(a) + Radius(b);
    assert a.position == b.position ==> Sub(a.position, b.position) == Zero;
    assert r * r >= 0.0;
    LengthSqr(Sub(a.position, b.position)) <= r * r
  }

  /** The overlap test does not depend on the order of the two bodies. */
  lemma SpheresIntersectSymmetric(a: BodyState, b: BodyState)
    requires a.shape.Some? && b.shape.Some?
    ensures SpheresIntersect(a, b) == SpheresIntersect(b, a)
  {
    LengthSqrSubSymmetric(a.position, b.position);
    assert Radius(a) + Radius(b) == Radius(b) + Radius(a);
  }

  /**
   * With radii whose sum is not negative, the squared test is the Euclidean
   * one: `d` being the distance of the centres, the spheres overlap iff
   * `d <= rA + rB`.
   */
  lemma SpheresIntersectIsDistanceTest(a: BodyState, b: BodyState, d: real)
    requires a.shape.Some? && b.shape.Some?
    requires Radius(a) + Radius(b) >= 0.0
    requires d >= 0.0 && d * d == LengthSqr(Sub(a.position, b.position))
    ensures SpheresIntersect(a, b) <==> d <= Radius(a) + Radius(b)
  {
    var r := Radius(a) + Radius(b);
    assert d * d - r * r == (d - r) * (d + r);
    if d <= r {
      assert (r - d) * (d + r) >= 0.0;
    } else {
      assert d - r > 0.0 && d + r > 0.0;
      assert (d - r) * (d + r) > 0.0;
    }
  }

  /** A pair is resolved when not both bodies are static and their spheres overlap. */
  predicate Resolves(a: BodyState, b: BodyState)
    requires a.shape.Some? && b.shape.Some?
    ensures IsStatic(a) && IsStatic(b) ==> !Resolves(a, b)
    ensures !SpheresIntersect(a, b) ==> !Resolves(a, b)
  {
    !(IsStatic(a) && IsStatic(b)) && SpheresIntersect(a, b)
  }

  /** What contact resolution does to each of the two bodies. */
  function Stopped(b: BodyState): BodyState
  {
    b.(linearVelocity := Zero)
  }

  /** Examines the pair (i, j): stops both bodies when the pair is resolved. */
  function ResolvePair(s: seq<BodyState>, i: nat, j: nat): (r: seq<BodyState>)
    requires i < j < |s| && AllShaped(s)
    ensures SameButVelocities(s, r) && AllShaped(r)
  {
    if Resolves(s[i], s[j]) then s[i := Stopped(s[i])][j := Stopped(s[j])] else s
  }

  /** Any sequence that stops bodies i and j exactly when the pair is resolved is ResolvePair's result. */
  lemma ResolvePairIs(s: seq<BodyState>, i: nat, j: nat, u: seq<BodyState>)
    requires i < j < |s| && AllShaped(s) && |u| == |s|
    requires u[i] == if Resolves(s[i], s[j]) then Stopped(s[i]) else s[i]
    requires u[j] == if Resolves(s[i], s[j]) then Stopped(s[j]) else s[j]
    requires forall k :: 0 <= k < |u| && k != i && k != j ==> u[k] == s[k]
    ensures u == ResolvePair(s, i, j)
  {
    var r := ResolvePair(s, i, j);
    assert forall k :: 0 <= k < |u| ==> u[k] == r[k];
  }

  /** Examines the pairs (i, j), (i, j + 1), ..., (i, |s| - 1), in that order. */
  function CollideRow(s: seq<BodyState>, i: nat, j: nat): (r: seq<BodyState>)
    requires i < j <= |s| && AllShaped(s)
    ensures SameButVelocities(s, r) && AllShaped(r)
    decreases |s| - j
  {
    if j == |s| then s else CollideRow(ResolvePair(s, i, j), i, j + 1)
  }

  /** Examines every pair (a, b) with i <= a < b, row by row, in order. */
  function CollideFrom(s: seq<BodyState>, i: nat): (r: seq<BodyState>)
    requires i <= |s| && AllShaped(s)
    ensures SameButVelocities(s, r) && AllShaped(r)
    decreases |s| - i
  {
    if i == |s| then s else CollideFrom(CollideRow(s, i, i + 1), i + 1)
  }

  /** The collision phase: every pair i < j, in lexicographic order. */
  function Collide(s: seq<BodyState>): (r: seq<BodyState>)
    requires AllShaped(s)
    ensures SameButVelocities(s, r) && AllShaped(r)
  {
    CollideFrom(s, 0)
  }

  /** Body k overlaps some other body with which it is not both static. */
  ghost predicate Touched(s: seq<BodyState>, k: nat)
    requires AllShaped(s) && k < |s|
  {
    exists m :: 0 <= m < |s| && m != k && Resolves(s[k], s[m])
  }

  /** Body k is stopped by the pairs (i, j..): as i itself, or as a partner of i. */
  ghost predicate RowHits(s: seq<BodyState>, i: nat, j: nat, k: nat)
    requires i < j <= |s| && k < |s| && AllShaped(s)
  {
    (k == i && exists m :: j <= m < |s| && Resolves(s[i], s[m]))
    || (j <= k && Resolves(s[i], s[k]))
  }

  /** Body k belongs to some resolved pair (a, b) with i <= a < b. */
  ghost predicate FromHits(s: seq<BodyState>, i: nat, k: nat)
    requires i <= |s| && k < |s| && AllShaped(s)
  {
    exists a, b :: i <= a < b < |s| && (a == k || b == k) && Resolves(s[a], s[b])
  }

  /** Whether a pair is resolved does not depend on velocities. */
  lemma ResolvesIgnoresVelocities(s: seq<BodyState>, r: seq<BodyState>)
    requires AllShaped(s) && SameButVelocities(s, r)
    ensures AllShaped(r)
    ensures forall a, b :: 0 <= a < |s| && 0 <= b < |s| ==> Resolves(r[a], r[b]) == Resolves(s[a], s[b])
  {
    SameButVelocitiesKeepsShapes(s, r);
  }

  lemma {:induction false} CollideRowEffect(s: seq<BodyState>, i: nat, j: nat, k: nat)
    requires i < j <= |s| && k < |s| && AllShaped(s)
    ensures CollideRow(s, i, j)[k] == if RowHits(s, i, j, k) then Stopped(s[k]) else s[k]
    decreases |s| - j
  {
    if j < |s| {
      var t := ResolvePair(s, i, j);
      CollideRowEffect(t, i, j + 1, k);
      RowHitsIgnoresVelocities(s, t, i, j + 1, k);
      RowHitsUnfold(s, i, j, k);
    }
  }

  lemma RowHitsIgnoresVelocities(s: seq<BodyState>, t: seq<BodyState>, i: nat, j: nat, k: nat)
    requires i < j <= |s| && k < |s| && AllShaped(s) && SameButVelocities(s, t)
    ensures AllShaped(t) && RowHits(t, i, j, k) == RowHits(s, i, j, k)
  {
    ResolvesIgnoresVelocities(s, t);
    if k == i {
      if exists m :: j <= m < |s| && Resolves(t[i], t[m]) {
        var m :| j <= m < |s| && Resolves(t[i], t[m]);
        assert Resolves(s[i], s[m]);
      }
      if exists m :: j <= m < |s| && Resolves(s[i], s[m]) {
        var m :| j <= m < |s| && Resolves(s[i], s[m]);
        assert Resolves(t[i], t[m]);
      }
    }
  }

  /** The row from j on is the pair (i, j) and the row from j + 1 on. */
  lemma RowHitsUnfold(s: seq<BodyState>, i: nat, j: nat, k: nat)
    requires i < j < |s| && k < |s| && AllShaped(s)
    ensures RowHits(s, i, j, k) == (RowHits(s, i, j + 1, k) || ((k == i || k == j) && Resolves(s[i], s[j])))
  {
    if k == i && RowHits(s, i, j, k) && !Resolves(s[i], s[j]) {
      var m :| j <= m < |s| && Resolves(s[i], s[m]);
      assert m != j;
    }
  }

  lemma {:induction false} CollideFromEffect(s: seq<BodyState>, i: nat, k: nat)
    requires i <= |s| && k < |s| && AllShaped(s)
    ensures CollideFrom(s, i)[k] == if FromHits(s, i, k) then Stopped(s[k]) else s[k]
    decreases |s| - i
  {
    if i < |s| {
      var t := CollideRow(s, i, i + 1);
      CollideFromEffect(t, i + 1, k);
      CollideRowEffect(s, i, i + 1, k);
      FromHitsIgnoresVelocities(s, t, i + 1, k);
      FromHitsUnfold(s, i, k);
    }
  }

  lemma FromHitsIgnoresVelocities(s: seq<BodyState>, t: seq<BodyState>, i: nat, k: nat)
    requires i <= |s| && k < |s| && AllShaped(s) && SameButVelocities(s, t)
    ensures AllShaped(t) && FromHits(t, i, k) == FromHits(s, i, k)
  {
    ResolvesIgnoresVelocities(s, t);
    if FromHits(t, i, k) {
      var a, b :| i <= a < b < |s| && (a == k || b == k) && Resolves(t[a], t[b]);
      assert Resolves(s[a], s[b]);
    }
    if FromHits(s, i, k) {
      var a, b :| i <= a < b < |s| && (a == k || b == k) && Resolves(s[a], s[b]);
      assert Resolves(t[a], t[b]);
    }
  }

  /** The pairs from row i on are row i and the pairs from row i + 1 on. */
  lemma FromHitsUnfold(s: seq<BodyState>, i: nat, k: nat)
    requires i < |s| && k < |s| && AllShaped(s)
    ensures FromHits(s, i, k) == (FromHits(s, i + 1, k) || RowHits(s, i, i + 1, k))
  {
    if FromHits(s, i, k) && !FromHits(s, i + 1, k) {
      var a, b :| i <= a < b < |s| && (a == k || b == k) && Resolves(s[a], s[b]);
      assert a == i;
      if k == i {
        assert i + 1 <= b < |s| && Resolves(s[i], s[b]);
      }
    }
    if RowHits(s, i, i + 1, k) {
      if k == i {
        var m :| i + 1 <= m < |s| && Resolves(s[i], s[m]);
        assert i <= i < m < |s| && Resolves(s[i], s[m]);
      } else {
        assert i <= i < k < |s| && Resolves(s[i], s[k]);
      }
    }
  }

  /**
   * The collision phase stops exactly the bodies that overlap some other body
   * with which they are not both static, and changes nothing else.
   */
  lemma CollideEffect(s: seq<BodyState>, k: nat)
    requires AllShaped(s) && k < |s|
    ensures |Collide(s)| == |s|
    ensures Collide(s)[k] == if Touched(s, k) then Stopped(s[k]) else s[k]
  {
    CollideFromEffect(s, 0, k);
    assert FromHits(s, 0, k) == Touched(s, k) by {
      if FromHits(s, 0, k) {
        var a, b :| 0 <= a < b < |s| && (a == k || b == k) && Resolves(s[a], s[b]);
        SpheresIntersectSymmetric(s[a], s[b]);
        if a == k {
          assert b != k && Resolves(s[k], s[b]);
        } else {
          assert a != k && Resolves(s[k], s[a]);
        }
      }
      if Touched(s, k) {
        var m :| 0 <= m < |s| && m != k && Resolves(s[k], s[m]);
        SpheresIntersectSymmetric(s[k], s[m]);
        if m < k {
          assert Resolves(s[m], s[k]);
        } else {
          assert Resolves(s[k], s[m]);
        }
      }
    }
  }

  /** Two static bodies never stop each other: a static body touching only static ones keeps its velocity. */
  lemma StaticPairsNotResolved(s: seq<BodyState>, k: nat)
    requires AllShaped(s) && k < |s| && IsStatic(s[k])
    requires forall m :: 0 <= m < |s| && m != k ==> IsStatic(s[m])
    ensures Collide(s)[k] == s[k]
  {
    CollideEffect(s, k);
  }

  // ---------------------------------------------------------------------
  // Phase 3: integration

  /** Every position advances by its velocity times `dt`. */
  function Integrate(s: seq<BodyState>, dt: real): (r: seq<BodyState>)
    ensures |r| == |s|
    ensures forall k :: 0 <= k < |s| ==> r[k].(position := s[k].position) == s[k]
  {
    seq(|s|, k requires 0 <= k < |s| =>
      s[k].(position := Add(s[k].position, Scale(s[k].linearVelocity, dt))))
  }

  /** A step of zero length moves nothing. */
  lemma IntegrateZero(s: seq<BodyState>)
    ensures Integrate(s, 0.0) == s
  {
    forall k | 0 <= k < |s| ensures Integrate(s, 0.0)[k] == s[k] {
      assert Scale(s[k].linearVelocity, 0.0) == Zero;
    }
  }

  // ---------------------------------------------------------------------
  // The whole step

  /** One call of Update: gravity, then collisions, then integration. */
  function Step(s: seq<BodyState>, dt: real): (r: seq<BodyState>)
    requires AllShaped(s)
    ensures |r| == |s| && AllShaped(r)
    ensures forall k :: 0 <= k < |s| ==>
      r[k].invMass == s[k].invMass && r[k].orientation == s[k].orientation && r[k].shape == s[k].shape
  {
    var g := ApplyGravity(s, dt);
    SameButVelocitiesKeepsShapes(s, g);
    Integrate(Collide(g), dt)
  }

  /**
   * Each body after a step: a body that overlaps another (not both static) is
   * stopped where it was; any other body gets gravity if it is dynamic and
   * then moves by its new velocity times `dt`.
   */
  lemma StepEffect(s: seq<BodyState>, dt: real, k: nat)
    requires AllShaped(s) && k < |s|
    ensures |Step(s, dt)| == |s|
    ensures Step(s, dt)[k] ==
      if Touched(s, k) then Stopped(s[k])
      else
        var v := if IsStatic(s[k]) then s[k].linearVelocity
                 else Add(s[k].linearVelocity, Scale(Gravity, dt));
        s[k].(linearVelocity := v, position := Add(s[k].position, Scale(v, dt)))
  {
    var g := ApplyGravity(s, dt);
    SameButVelocitiesKeepsShapes(s, g);
    ResolvesIgnoresVelocities(s, g);
    CollideEffect(g, k);
    GravityPulse(s[k], dt);
    TouchedIgnoresVelocities(s, g, k);
    if Touched(s, k) {
      assert Scale(Zero, dt) == Zero;
    }
  }

  lemma TouchedIgnoresVelocities(s: seq<BodyState>, g: seq<BodyState>, k: nat)
    requires AllShaped(s) && SameButVelocities(s, g) && k < |s|
    ensures AllShaped(g) && Touched(g, k) == Touched(s, k)
  {
    ResolvesIgnoresVelocities(s, g);
    if Touched(g, k) {
      var m :| 0 <= m < |g| && m != k && Resolves(g[k], g[m]);
      assert Resolves(s[k], s[m]);
    }
    if Touched(s, k) {
      var m :| 0 <= m < |s| && m != k && Resolves(s[k], s[m]);
      assert Resolves(g[k], g[m]);
    }
  }

  /** A static body at rest that overlaps nothing stays exactly as it was. */
  lemma StaticAtRestStays(s: seq<BodyState>, dt: real, k: nat)
    requires AllShaped(s) && k < |s| && !Touched(s, k)
    requires IsStatic(s[k]) && s[k].linearVelocity == Zero
    ensures |Step(s, dt)| == |s| && Step(s, dt)[k] == s[k]
  {
    StepEffect(s, dt, k);
    assert Scale(Zero, dt) == Zero;
    assert Add(s[k].position, Zero) == s[k].position;
  }

  /** A step with dt = 0 moves no body. */
  lemma StepZeroKeepsPositions(s: seq<BodyState>)
    requires AllShaped(s)
    ensures |Step(s, 0.0)| == |s|
    ensures forall k :: 0 <= k < |s| ==> Step(s, 0.0)[k].position == s[k].position
  {
    var g := ApplyGravity(s, 0.0);
    SameButVelocitiesKeepsShapes(s, g);
    IntegrateZero(Collide(g));
  }

  // ---------------------------------------------------------------------
  // The starting scenario

  /** A dynamic unit sphere just above a static sphere of radius 100, both unrotated. */
  function InitialBodies(): (r: seq<BodyState>)
    ensures |r| == 2 && AllShaped(r)
    ensures !IsStatic(r[0]) && IsStatic(r[1])
    ensures r[0].orientation == Identity && r[1].orientation == Identity
  {
    [ BodyState(Vec3(0.0, 0.0, 0.5), Identity, Zero, 1.0, Some(Sphere(1.0))),
      BodyState(Vec3(0.0, 0.0, -101.0), Identity, Zero, 0.0, Some(Sphere(100.0))) ]
  }

  /** At the start the spheres are apart: 101.5 squared exceeds 101 squared. */
  lemma InitialBodiesApart()
    ensures AllShaped(InitialBodies())
    ensures !SpheresIntersect(InitialBodies()[0], InitialBodies()[1])
    ensures !Touched(InitialBodies(), 0) && !Touched(InitialBodies(), 1)
  {
    var s := InitialBodies();
    assert Sub(s[0].position, s[1].position) == Vec3(0.0, 0.0, 101.5);
  }

  /**
   * The first step from the starting scenario: the small sphere falls by
   * 9.81 * dt * dt, the large one does not move.
   */
  lemma FirstStepFalls(dt: real)
    ensures AllShaped(InitialBodies()) && |Step(InitialBodies(), dt)| == 2
    ensures Step(InitialBodies(), dt)[0].position == Vec3(0.0, 0.0, 0.5 - 9.81 * dt * dt)
    ensures Step(InitialBodies(), dt)[0].linearVelocity == Vec3(0.0, 0.0, -9.81 * dt)
    ensures Step(InitialBodies(), dt)[1] == InitialBodies()[1]
  {
    var s := InitialBodies();
    InitialBodiesApart();
    var v := Add(s[0].linearVelocity, Scale(Gravity, dt));
    var p := Add(s[0].position, Scale(v, dt));
    assert v == Vec3(0.0, 0.0, -9.81 * dt);
    assert p == Vec3(0.0, 0.0, 0.5 - 9.81 * dt * dt);
    StepEffect(s, dt, 0);
    assert Step(s, dt)[0] == s[0].(linearVelocity := v, position := p);
    StaticAtRestStays(s, dt, 1);
  }

  // ---------------------------------------------------------------------
  // The imperative scene

  /** The two bodies a contact is between; A is the one with the lower index. */
  datatype Contact = Contact(bodyA: Body, bodyB: Body)

  class Scene {
    var bodies: seq<Body>

    /** Bodies are distinct objects, and each has a shape. */
    ghost predicate Valid()
      reads this, bodies
    {
      (forall a, b :: 0 <= a < |bodies| && 0 <= b < |bodies| && a != b ==> bodies[a] != bodies[b])
      && (forall k :: 0 <= k < |bodies| ==> bodies[k].shape.Some?)
    }

    /** The values of the bodies, in order. */
    function State(): (r: seq<BodyState>)
      reads this, bodies
      ensures |r| == |bodies|
      ensures forall k :: 0 <= k < |bodies| ==> r[k] == bodies[k].State()
    {
      seq(|bodies|, k reads this, bodies requires 0 <= k < |bodies| => bodies[k].State())
    }

    constructor ()
      ensures Valid() && bodies == []
    {
      bodies := [];
    }

    /** Appends the starting scenario's two bodies after the existing ones. */
    method Initialize()
      modifies this
      ensures |bodies| == old(|bodies|) + 2 && bodies[..old(|bodies|)] == old(bodies)
      ensures fresh(bodies[|bodies| - 2]) && fresh(bodies[|bodies| - 1])
      ensures State() == old(State()) + InitialBodies()
      ensures old(Valid()) ==> Valid()
    {
      var body := new Body();
      body.position := Vec3(0.0, 0.0, 0.5);
      body.orientation := Identity;
      body.invMass := 1.0;
      body.shape := Some(Sphere(1.0));
      bodies := bodies + [body];

      var globe := new Body();
      globe.position := Vec3(0.0, 0.0, -101.0);
      globe.orientation := Identity;
      globe.invMass := 0.0;
      globe.shape := Some(Sphere(100.0));
      bodies := bodies + [globe];
    }

    /** Drops every body and sets up the starting scenario again. */
    method Reset()
      modifies this
      ensures Valid()
      ensures |bodies| == 2 && fresh(bodies[0]) && fresh(bodies[1])
      ensures State() == InitialBodies()
    {
      bodies := [];
      Initialize();
    }

    /** The overlap test for two sphere bodies; the contact names them in the order given. */
    method Intersect(bodyA: Body, bodyB: Body) returns (hit: bool, contact: Contact)
      requires bodyA.shape.Some? && bodyB.shape.Some?
      ensures contact == Contact(bodyA, bodyB)
      ensures hit == SpheresIntersect(bodyA.State(), bodyB.State())
    {
      contact := Contact(bodyA, bodyB);
      var ab := Sub(bodyA.position, bodyB.position);
      var radiusAB := bodyA.shape.value.radius + bodyB.shape.value.radius;
      var lengthSqr := LengthSqr(ab);
      if lengthSqr <= radiusAB * radiusAB {
        return true, contact;
      }
      return false, contact;
    }

    /** Stops both bodies of the contact; nothing else changes. */
    method ResolveContact(contact: Contact)
      modifies contact.bodyA`linearVelocity, contact.bodyB`linearVelocity
      ensures contact.bodyA.linearVelocity == Zero && contact.bodyB.linearVelocity == Zero
    {
      var bodyA := contact.bodyA;
      var bodyB := contact.bodyB;
      bodyA.linearVelocity := Zero;
      bodyB.linearVelocity := Zero;
    }

    /**
     * One simulation step of length dt: the three loops of the step, each
     * written as a method of its own below, run in this order.
     */
    method Update(dt: real)
      requires Valid()
      modifies bodies
      ensures Valid()
      ensures State() == Step(old(State()), dt)
    {
      ghost var s0 := State();
      ApplyGravityLoop(dt);
      ghost var s1 := State();
      SameButVelocitiesKeepsShapes(s0, s1);
      CollisionLoop();
      IntegrateLoop(dt);
    }

    /** The first loop of Update: each body in turn receives the gravity impulse. */
    method ApplyGravityLoop(dt: real)
      requires Valid()
      modifies bodies
      ensures Valid()
      ensures State() == ApplyGravity(old(State()), dt)
    {
      ghost var s0 := State();
      var i := 0;
      while i < |bodies|
        invariant 0 <= i <= |bodies|
        invariant Valid()
        invariant forall k :: 0 <= k < |bodies| ==>
          bodies[k].State() == if k < i then ApplyGravity(s0, dt)[k] else s0[k]
      {
        var body := bodies[i];
        var mass := Mass(body.invMass);
        var impulseGravity := Scale(Scale(Gravity, mass), dt);
        body.ApplyPulseLinear(impulseGravity);
        i := i + 1;
      }
      assert State() == ApplyGravity(s0, dt);
    }

    /**
     * The second loop of Update: every pair i < j in order; a pair that is not
     * both static and whose spheres overlap is resolved on the spot.
     */
    method CollisionLoop()
      requires Valid()
      modifies bodies
      ensures Valid()
      ensures AllShaped(old(State())) && State() == Collide(old(State()))
    {
      ghost var s1 := State();
      var i := 0;
      while i < |bodies|
        invariant 0 <= i <= |bodies|
        invariant Valid()
        invariant AllShaped(State()) && CollideFrom(State(), i) == Collide(s1)
      {
        var j := i + 1;
        while j < |bodies|
          invariant i < j <= |bodies|
          invariant Valid()
          invariant AllShaped(State()) && CollideFrom(CollideRow(State(), i, j), i + 1) == Collide(s1)
        {
          ghost var t := State();
          ExaminePair(i, j);
          assert CollideRow(t, i, j) == CollideRow(State(), i, j + 1);
          j := j + 1;
        }
        i := i + 1;
      }
    }

    /**
     * The body of the inner loop of CollisionLoop: skips a pair of static
     * bodies, and stops both bodies of an overlapping pair.
     */
    method ExaminePair(i: nat, j: nat)
      requires Valid() && i < j < |bodies|
      modifies bodies
      ensures Valid()
      ensures AllShaped(old(State())) && State() == ResolvePair(old(State()), i, j)
    {
      ghost var t := State();
      var bodyA := bodies[i];
      var bodyB := bodies[j];
      if 0.0 == bodyA.invMass && 0.0 == bodyB.invMass {
        return;
      }
      var hit, contact := Intersect(bodyA, bodyB);
      if hit {
        ResolveContact(contact);
      }
      ghost var u := State();
      assert u[i] == if Resolves(t[i], t[j]) then Stopped(t[i]) else t[i];
      assert u[j] == if Resolves(t[i], t[j]) then Stopped(t[j]) else t[j];
      forall k | 0 <= k < |u| && k != i && k != j
        ensures u[k] == t[k]
      {
        assert bodies[k] != bodyA && bodies[k] != bodyB;
      }
      ResolvePairIs(t, i, j, u);
    }

    /** The third loop of Update: each position advances by velocity times dt. */
    method IntegrateLoop(dt: real)
      requires Valid()
      modifies bodies
      ensures Valid()
      ensures State() == Integrate(old(State()), dt)
    {
      ghost var s2 := State();
      var i := 0;
      while i < |bodies|
        invariant 0 <= i <= |bodies|
        invariant Valid()
        invariant forall k :: 0 <= k < |bodies| ==>
          bodies[k].State() == if k < i then Integrate(s2, dt)[k] else s2[k]
      {
        var body := bodies[i];
        body.position := Add(body.position, Scale(body.linearVelocity, dt));
        i := i + 1;
      }
      assert State() == Integrate(s2, dt);
    }
  }
}
