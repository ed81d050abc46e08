# Rigid-body scene step, modelled in Dafny

This project models the core of a small real-time rigid-body physics engine.
A `Scene` owns an ordered sequence of `Body` objects. Each body has a position,
an orientation (a quaternion), a linear velocity, an inverse mass (0 means
static, i.e. infinite mass) and a sphere shape. Each call of `Scene::Update(dt)`
runs three loops over the bodies, in this order:

1. every body receives a gravity impulse `(0, 0, -9.81) * mass * dt` through
   `Body::ApplyPulseLinear`, which ignores impulses on static bodies;
2. every pair `i < j` that is not both static is tested for sphere overlap
   (squared centre distance at most the squared sum of the radii); an
   overlapping pair is resolved on the spot by zeroing both velocities;
3. every position advances by `velocity * dt`.

`Scene::Initialize` appends a fixed two-sphere scenario. It has a dynamic unit
sphere at `(0, 0, 0.5)` above a static sphere of radius 100 at `(0, 0, -101)`.
`Scene::Reset` clears the scene and initializes it again.

Files:

- `vectors.dfy` (module `Vectors`): `Vec3` and `Quat` over the reals, with the
  Hamilton product and quaternion rotation of a point.
- `body.dfy` (module `Physics`): `BodyState`, the value of a body's fields, and
  the functions on it. It also holds `class Body`, with its constructor, its
  frame conversions and the in-place `ApplyPulseLinear`.
- `scene.dfy` (module `Scenes`): each phase of `Update` as a function on
  `seq<BodyState>` (`ApplyGravity`, `Collide`, `Integrate`, and `Step`, which
  combines them), plus lemmas about them. It also holds `class Scene`, whose
  field `bodies: seq<Body>` its methods update in place. `Update`, its three
  loop methods and `ExaminePair` are each proved to leave the bodies in the
  state one of those functions computes (`State() == Step(old(State()), dt)`
  for `Update`). `Intersect` and `ResolveContact` state their effect directly.

The collision phase is specified in the order the nested loop visits the pairs
(`CollideFrom`, `CollideRow`, `ResolvePair`). `CollideEffect` then proves its
closed form: a body is stopped (its velocity set to zero) exactly when it
overlaps some other body with which it is not both static. Every other body is
left unchanged.

Two details of the code bear on the model:

- `code/Scene.cpp:80` computes `1 / invMass` for every body, static ones
  included. `ApplyPulseLinear` (`code/Physics/Body.cpp:48-51`) then discards
  the impulse for a static body. The model guards that one division over the
  reals (`Scenes.Mass`), with the same outcome.
- `code/Scene.cpp:132` places the contact point on B at `posB + normal * rB`.
  Contact points are not part of this model (see below).

## Model

| member | source | states |
|---|---|---|
| `Vectors.LengthSqrSubSymmetric` | code/Scene.cpp:124-135 | the squared length of `a - b` equals that of `b - a`, so the overlap test does not depend on which body is A |
| `Vectors.IdentityRotation` | code/Physics/Body.cpp:22 | the identity quaternion (0,0,0,1) is its own inverse and rotates every point to itself |
| `Physics.PulseLinear` | code/Physics/Body.cpp:46-57 | an impulse changes only the velocity, and changes it by impulse * invMass, which is nothing for a static body |
| `Physics.PulseLinearEffect` | code/Physics/Body.cpp:46-57 | an impulse changes only the linear velocity; a static body is unchanged; for a dynamic body the velocity change times the mass equals the impulse (`m dv = J`) |
| `Physics.PulseLinearAdditive` | code/Physics/Body.cpp:56 | applying J1 then J2 gives the same body as applying J1 + J2 once |
| `Physics.PulseLinearAllIsTotal` | code/Physics/Body.cpp:46-57 | any sequence of impulses, applied one call at a time, gives the same body as their sum applied once |
| `Physics.StaticBodyImmune` | code/Physics/Body.cpp:48-51 | no sequence of impulses changes anything about a body with inverse mass 0 |
| `Physics.Body.constructor` | code/Physics/Body.cpp:11-17 | a new body has zero position and velocity, orientation (0,0,0,1), inverse mass 0 and no shape |
| `Physics.Body.GetCenterOfMassModelSpace` | code/Physics/Body.cpp:26-30 | the centre of mass of a sphere body, in its own frame, is the origin |
| `Physics.Body.GetCenterOfMassWorldSpace` | code/Physics/Body.cpp:19-24 | position plus the rotated model-space centre of mass is, for a sphere, the body's position, whatever its orientation |
| `Physics.Body.WorldSpaceToBodySpace` | code/Physics/Body.cpp:32-38 | for an unrotated body, a world point in the body's frame is its offset from the body's position |
| `Physics.Body.BodyspaceToWorldSpace` | code/Physics/Body.cpp:40-44 | for an unrotated body, a body-frame point in the world is the position plus the point |
| `Physics.Body.WorldBodyRoundTrip` | code/Physics/Body.cpp:32-44 | body-to-world after world-to-body gives the world point back, for every orientation whose rotation undoes its inverse's |
| `Physics.Body.BodyWorldRoundTrip` | code/Physics/Body.cpp:32-44 | world-to-body after body-to-world gives the body point back, for every orientation whose inverse undoes its rotation |
| `Physics.Body.IdentityRotationsCancel` | code/Scene.cpp:51-58 | the orientation every initialized body has meets both round-trip hypotheses |
| `Physics.Body.ApplyPulseLinear` | code/Physics/Body.cpp:46-57 | the body's new state is `PulseLinear` of its old state: nothing for a static body, otherwise velocity += impulse * invMass; no other field changes |
| `Scenes.Mass` | code/Scene.cpp:80 | for a dynamic body the mass times the inverse mass is 1; the division is guarded for a static body, whose result is discarded |
| `Scenes.GravityImpulse` | code/Scene.cpp:80-81 | the gravity impulse points along -z, and scaled by a dynamic body's inverse mass its z component is -9.81 * dt |
| `Scenes.ApplyGravity` | code/Scene.cpp:72-83 | the gravity phase keeps every body and changes at most velocities |
| `Scenes.GravityPulse` | code/Scene.cpp:77-82 | the gravity impulse leaves a static body unchanged and adds `(0,0,-9.81) * dt` to a dynamic body's velocity, whatever its mass |
| `Scenes.SpheresIntersect` | code/Scene.cpp:134-137 | the squared-distance overlap test; spheres with the same centre always overlap |
| `Scenes.SpheresIntersectSymmetric` | code/Scene.cpp:124-142 | the overlap test gives the same answer when A and B are swapped |
| `Scenes.SpheresIntersectIsDistanceTest` | code/Scene.cpp:134-142 | with a non-negative sum of radii, the squared test holds iff the Euclidean centre distance is at most the sum of the radii |
| `Scenes.Resolves` | code/Scene.cpp:93-99 | a pair is never resolved when both bodies are static or when their spheres do not overlap |
| `Scenes.ResolvePair` | code/Scene.cpp:90-102 | examining one pair keeps every body and changes at most velocities |
| `Scenes.ResolvePairIs` | code/Scene.cpp:90-102 | stopping bodies i and j exactly when the pair is resolved, and changing no other body, is `ResolvePair` |
| `Scenes.CollideRow` | code/Scene.cpp:88-103 | one row of the pair loop keeps every body and changes at most velocities |
| `Scenes.CollideFrom` | code/Scene.cpp:86-104 | the rows from i on keep every body and change at most velocities |
| `Scenes.Collide` | code/Scene.cpp:86-104 | the whole pair loop keeps every body and changes at most velocities |
| `Scenes.CollideRowEffect` | code/Scene.cpp:88-103 | after the pairs (i, j..), body k is stopped iff it is i and forms a resolved pair with some later body, or it is a later body forming a resolved pair with i; otherwise it is unchanged |
| `Scenes.CollideFromEffect` | code/Scene.cpp:86-104 | after all pairs (a, b) with i <= a < b, body k is stopped iff it belongs to one that is resolved; otherwise it is unchanged |
| `Scenes.CollideEffect` | code/Scene.cpp:86-104 | the collision phase stops exactly the bodies that overlap another body with which they are not both static, and leaves every other body as it was |
| `Scenes.StaticPairsNotResolved` | code/Scene.cpp:93-96 | a static body among static bodies only is never stopped: pairs of static bodies are skipped |
| `Scenes.Integrate` | code/Scene.cpp:106-111 | integration keeps the number of bodies and changes at most positions |
| `Scenes.IntegrateZero` | code/Scene.cpp:106-111 | integrating over dt = 0 changes nothing |
| `Scenes.StepEffect` | code/Scene.cpp:71-112 | after Update each body is either stopped where it was (it overlaps a body with which it is not both static) or has its gravity-updated velocity and has moved by that velocity times dt |
| `Scenes.StaticAtRestStays` | code/Scene.cpp:71-112 | a static body at rest that overlaps nothing is left exactly as it was by Update |
| `Scenes.Step` | code/Scene.cpp:71-112 | Update keeps the number and order of bodies and every inverse mass, orientation and shape |
| `Scenes.StepZeroKeepsPositions` | code/Scene.cpp:71-112 | Update with dt = 0 moves no body |
| `Scenes.InitialBodies` | code/Scene.cpp:48-61 | the starting scenario is two shaped, unrotated bodies: a dynamic one followed by a static one |
| `Scenes.InitialBodiesApart` | code/Scene.cpp:48-61 | in the starting scenario the two spheres do not overlap (101.5 squared exceeds 101 squared), so neither is stopped |
| `Scenes.FirstStepFalls` | code/Scene.cpp:71-112 | the first Update from the starting scenario gives the small sphere velocity (0,0,-9.81 dt) and height 0.5 - 9.81 dt squared, and leaves the static sphere as it was |
| `Scenes.Scene.Initialize` | code/Scene.cpp:48-64 | two fresh bodies with the starting scenario's values are appended after the existing ones, which are kept; the count grows by exactly 2 |
| `Scenes.Scene.Reset` | code/Scene.cpp:34-41 | whatever the scene held, it afterwards holds exactly the two starting bodies, as fresh objects, so stepping can resume |
| `Scenes.Scene.Intersect` | code/Scene.cpp:119-143 | the contact always records A and B; the result is true iff the squared centre distance is at most the squared sum of the radii |
| `Scenes.Scene.ResolveContact` | code/Scene.cpp:150-157 | both bodies of the contact end with zero velocity; nothing else is modified |
| `Scenes.Scene.Update` | code/Scene.cpp:71-112 | the new state of the bodies is `Step` of the old one: gravity, then the pair loop, then integration |
| `Scenes.Scene.ApplyGravityLoop` | code/Scene.cpp:72-83 | the first loop leaves the bodies in the state `ApplyGravity` computes |
| `Scenes.Scene.CollisionLoop` | code/Scene.cpp:86-104 | the nested pair loop leaves the bodies in the state `Collide` computes |
| `Scenes.Scene.ExaminePair` | code/Scene.cpp:90-102 | one pass of the inner loop's body leaves the bodies in the state `ResolvePair` computes |
| `Scenes.Scene.IntegrateLoop` | code/Scene.cpp:106-111 | the third loop leaves the bodies in the state `Integrate` computes |

## Left out

- Floating point: `float` is modelled as `real`, so there is no rounding, no
  infinity and no NaN. The `1 / 0` for static bodies at `code/Scene.cpp:80`
  yields 0 in `Scenes.Mass` instead of infinity. The impulse built from it is
  discarded by `ApplyPulseLinear` either way.
- Contact normal and contact points (`code/Scene.cpp:125-132`): they need
  `Vec3::Normalize`, a square root that is undefined for coincident centres.
  No modelled operation reads them, so `Contact` holds only the two bodies.
- The quaternion library is not part of this model. `Vectors.Inverse` is the
  conjugate, which is the inverse of unit quaternions only. Bodies are meant to
  have unit orientations, but nothing in the code keeps them so.
- Physics.Body.WorldBodyRoundTrip: proved under the hypothesis that rotating by
  the orientation undoes rotating by its inverse (`Physics.UndoesInverse`), not
  for all unit quaternions. The identity orientation is proved to meet it.
- Physics.Body.BodyWorldRoundTrip: proved under the matching hypothesis
  `Physics.InverseUndoes`, for the same reason.
- Physics.Body.WorldSpaceToBodySpace: its closed form is stated for the
  identity orientation only. For other orientations the round-trip lemmas
  state its meaning.
- Physics.Body.BodyspaceToWorldSpace: as above, the closed form is stated for
  the identity orientation only.
- Heap management: shapes are values (a sphere radius), not pointers. The
  `new ShapeSphere`/`delete` pairs in `Initialize`, `Reset` and the destructor
  (`code/Scene.cpp:22-27,35-37,53,60`) and the destructor itself are not
  modelled. Neither is the aliasing that copying a `Body` creates.
- `Scene::Initialize` copies a local `Body` into the vector. The model
  allocates a fresh `Body` object for each appended element instead.
- The three loops of `Scene::Update` are written as three methods, plus one
  method for the inner pair loop's body, that `Update` calls in order. Each
  method keeps the loop as written.
- `Scene.h`, `Body.h`, `Contact.h`, `Broadphase.h`, `Intersections.h`, the
  shape class hierarchy beyond the sphere radius and its centre of mass, and
  the renderer are not part of this model.
