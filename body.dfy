/**
 * A rigid body: its world transform, linear velocity, inverse mass and
 * shape, with impulse application and the world/body-space conversions.
 */
module Physics {
  import opened Vectors

  datatype Option<T> = None | Some(value: T)

  /** The shape variants; the sphere is the only one. */
  datatype Shape = Sphere(radius: real)

  /** Centre of mass of a shape, in the shape's own frame. */
  function CenterOfMass(shape: Shape): Vec3
  {
    match shape
    case Sphere(_) => Zero
  }

  /** The value of a body's fields at one moment. */
  datatype BodyState = BodyState(
    position: Vec3,
    orientation: Quat,
    linearVelocity: Vec3,
    invMass: real,
    shape: Option<Shape>)

  /** A body with inverse mass 0 has infinite mass and never moves by impulse. */
  predicate IsStatic(b: BodyState)
  {
    b.invMass == 0.0
  }

  /**
   * The state after one linear impulse: what ApplyPulseLinear does to a body.
   * Only the velocity changes, and by impulse * invMass, which is nothing for
   * a static body.
   */
  function PulseLinear(b: BodyState, impulse: Vec3): (r: BodyState)
    ensures r.(linearVelocity := b.linearVelocity) == b
    ensures Sub(r.linearVelocity, b.linearVelocity) == Scale(impulse, b.invMass)
  {
    if IsStatic(b) then b
    else b.(linearVelocity := Add(b.linearVelocity, Scale(impulse, b.invMass)))
  }

  /** The state after the impulses of `impulses`, applied one call at a time, in order. */
  function PulseLinearAll(b: BodyState, impulses: seq<Vec3>): BodyState
    decreases |impulses|
  {
    if impulses == [] then b else PulseLinearAll(PulseLinear(b, impulses[0]), impulses[1..])
  }

  /** The sum of a sequence of impulses. */
  function Total(impulses: seq<Vec3>): Vec3
    decreases |impulses|
  {
    if impulses == [] then Zero else Add(impulses[0], Total(impulses[1..]))
  }

  /**
   * An impulse changes the velocity and nothing else; for a dynamic body the
   * change is the impulse divided by the mass (m * dv == J), and a static body
   * does not change at all.
   */
  lemma PulseLinearEffect(b: BodyState, impulse: Vec3)
    ensures PulseLinear(b, impulse).(linearVelocity := b.linearVelocity) == b
    ensures IsStatic(b) ==> PulseLinear(b, impulse) == b
    ensures !IsStatic(b) ==>
      Scale(Sub(PulseLinear(b, impulse).linearVelocity, b.linearVelocity), 1.0 / b.invMass) == impulse
  {
    if !IsStatic(b) {
      var dv := Sub(PulseLinear(b, impulse).linearVelocity, b.linearVelocity);
      assert dv == Scale(impulse, b.invMass);
      assert impulse.x * b.invMass * (1.0 / b.invMass) == impulse.x;
      assert impulse.y * b.invMass * (1.0 / b.invMass) == impulse.y;
      assert impulse.z * b.invMass * (1.0 / b.invMass) == impulse.z;
    }
  }

  /** Two impulses in a row have the effect of their sum applied once. */
  lemma PulseLinearAdditive(b: BodyState, j1: Vec3, j2: Vec3)
    ensures PulseLinear(PulseLinear(b, j1), j2) == PulseLinear(b, Add(j1, j2))
  {
    if !IsStatic(b) {
      var m := b.invMass;
      assert (j1.x + j2.x) * m == j1.x * m + j2.x * m;
      assert (j1.y + j2.y) * m == j1.y * m + j2.y * m;
      assert (j1.z + j2.z) * m == j1.z * m + j2.z * m;
    }
  }

  /** Any number of impulses, one call at a time, act like their total applied once. */
  lemma {:induction false} PulseLinearAllIsTotal(b: BodyState, impulses: seq<Vec3>)
    ensures PulseLinearAll(b, impulses) == PulseLinear(b, Total(impulses))
    decreases |impulses|
  {
    if impulses == [] {
      assert Total(impulses) == Zero;
      assert Scale(Zero, b.invMass) == Zero;
    } else {
      var rest := impulses[1..];
      PulseLinearAllIsTotal(PulseLinear(b, impulses[0]), rest);
      PulseLinearAdditive(b, impulses[0], Total(rest));
    }
  }

  /** No sequence of impulses changes anything about a static body. */
  lemma {:induction false} StaticBodyImmune(b: BodyState, impulses: seq<Vec3>)
    requires IsStatic(b)
    ensures PulseLinearAll(b, impulses) == b
    decreases |impulses|
  {
    if impulses != [] {
      StaticBodyImmune(PulseLinear(b, impulses[0]), impulses[1..]);
    }
  }

  /**
   * Rotating by the inverse of `q` and then by `q` gives the point back;
   * unit quaternions, the orientations bodies are meant to have, satisfy it.
   */
  ghost predicate UndoesInverse(q: Quat)
  {
    forall v :: RotatePoint(q, RotatePoint(Inverse(q), v)) == v
  }

  /** Rotating by `q` and then by its inverse gives the point back. */
  ghost predicate InverseUndoes(q: Quat)
  {
    forall v :: RotatePoint(Inverse(q), RotatePoint(q, v)) == v
  }

  class Body {
    var position: Vec3
    var orientation: Quat
    var linearVelocity: Vec3
    var invMass: real
    var shape: Option<Shape>

    /** A fresh body sits at the origin, unrotated, at rest, static and without a shape. */
    constructor ()
      ensures position == Zero && orientation == Identity && linearVelocity == Zero
      ensures invMass == 0.0 && shape == None
    {
      position := Zero;
      orientation := Identity;
      linearVelocity := Zero;
      invMass := 0.0;
      shape := None;
    }

    function State(): BodyState
      reads this
    {
      BodyState(position, orientation, linearVelocity, invMass, shape)
    }

    /** For a sphere the centre of mass is the origin of the body's own frame. */
    function GetCenterOfMassModelSpace(): (c: Vec3)
      reads this
      requires shape.Some?
      ensures c == Zero
    {
      CenterOfMass(shape.value)
    }

    /** A body's centre of mass in the world is its position. */
    function GetCenterOfMassWorldSpace(): (c: Vec3)
      reads this
      requires shape.Some?
      ensures c == position
    {
      Add(position, RotatePoint(orientation, GetCenterOfMassModelSpace()))
    }

    /**
     * A world point relative to the centre of mass, seen in the body's frame;
     * for an unrotated body that is the plain offset from the position.
     */
    function WorldSpaceToBodySpace(worldPt: Vec3): (r: Vec3)
      reads this
      requires shape.Some?
      ensures orientation == Identity ==> r == Sub(worldPt, position)
    {
      var temp := Sub(worldPt, GetCenterOfMassWorldSpace());
      IdentityRotation(temp);
      RotatePoint(Inverse(orientation), temp)
    }

    /**
     * A point in the body's frame, placed in the world; for an unrotated body
     * it is the position plus the point.
     */
    function BodyspaceToWorldSpace(bodyPt: Vec3): (r: Vec3)
      reads this
      requires shape.Some?
      ensures orientation == Identity ==> r == Add(position, bodyPt)
    {
      IdentityRotation(bodyPt);
      Add(GetCenterOfMassWorldSpace(), RotatePoint(orientation, bodyPt))
    }

    /** World to body space and back is the identity, whenever the rotations cancel. */
    lemma WorldBodyRoundTrip(worldPt: Vec3)
      requires shape.Some? && UndoesInverse(orientation)
      ensures BodyspaceToWorldSpace(WorldSpaceToBodySpace(worldPt)) == worldPt
    {
      var temp := Sub(worldPt, position);
      assert RotatePoint(orientation, RotatePoint(Inverse(orientation), temp)) == temp;
    }

    /** Body to world space and back is the identity, whenever the rotations cancel. */
    lemma BodyWorldRoundTrip(bodyPt: Vec3)
      requires shape.Some? && InverseUndoes(orientation)
      ensures WorldSpaceToBodySpace(BodyspaceToWorldSpace(bodyPt)) == bodyPt
    {
      assert RotatePoint(Inverse(orientation), RotatePoint(orientation, bodyPt)) == bodyPt;
    }

    /** The identity orientation satisfies both hypotheses of the round trips. */
    static lemma IdentityRotationsCancel()
      ensures UndoesInverse(Identity) && InverseUndoes(Identity)
    {
      forall v
        ensures RotatePoint(Identity, RotatePoint(Inverse(Identity), v)) == v
      {
        IdentityRotation(v);
      }
    }

    /**
     * Adds the impulse divided by the mass to the velocity; a static body
     * ignores the impulse. Nothing but the velocity can change.
     */
    method ApplyPulseLinear(impulse: Vec3)
      modifies this`linearVelocity
      ensures State() == PulseLinear(old(State()), impulse)
    {
      if 0.0 == invMass {
        return;
      }
      linearVelocity := Add(linearVelocity, Scale(impulse, invMass));
    }
  }
}
