# Collision core of a real-time 3D engine, in Dafny

This project models the collision and intersection core of a small 3D engine:

- **Intersection predicates** (`intersect.dfy`, module `Intersect`). They classify a pair of bounding shapes with an integer code:
  - `IIntersect` (0) when the shapes meet;
  - `IReject` (1) when they are disjoint;
  - `-IReject` for "disjoint, on the negative side" when one shape is a plane.

  The shape pairs are sphere–plane, box–box, the final rule of box–plane, sphere–sphere, sphere–box (Arvo's test) and triangle–ray (Möller–Trumbore). The file also models the printable name of each code.
- **The parametric line** P(u) = O + u·d (`line.dfy`, module `Lines`). It is a class with the fields `o` and `d`, and has these operations:
  - its constructors and assignment;
  - `SetFromAtoB`;
  - point evaluation;
  - the projection parameter of a point;
  - the distance of a point from the line.
- **The avatar** (`avatar.dfy`, module `Avatars`). It is a class with the following:
  - a walk/fly flag;
  - an owned bounding sphere;
  - a shared camera;
  - a recursive collision test against the scene graph, which gates camera motion.
- **Vectors** (`vectors.dfy`, module `Vectors`). A value type with vector arithmetic and the two tolerances.

How the model represents the engine's code:

- Floats are modelled as `real`, with no rounding.
- `Vector3` is a value (`datatype`). `Line`, `Avatar` and `Camera` are classes whose methods update their fields.
- The tolerances `DistanceEpsilon` and `VectorEpsilon` are positive constants of unspecified value. Every result holds for any positive value.
- A plane is seen only through its two queries, `distance` and `whichSide`. They are fields of function type, so every result about planes holds for any plane.
- A scene node is a tree value. It has these parts:
  - its collision test against a sphere, which stands for `checkCollision`;
  - whether it carries a geometric object (`getGobject() != 0`);
  - its children.
- The Camera class's transforms are not part of this model. The camera is modelled as its position plus a ghost log of the requests it receives.
- Distances are modelled as squared distances, because `Vector3::length()` is a square root.

Each operation is tied to a partner by proofs:

- **Intersection tests.**
  - Box–box, sphere–sphere and sphere–box are proved exact against a geometric reference, for well-formed boxes (minimum at most maximum on every axis) and non-negative radii. Under those conditions, box–box returns `IIntersect` iff the two boxes share a point, sphere–sphere returns it iff the two balls share a point, and Arvo's test returns it iff some point of the box lies in the ball.
  - Triangle–ray is characterised by the ray/parallelogram equation. For a ray that is not near-parallel (|e1·(d×e2)| ≥ DistanceEpsilon), it hits with (u, v, w) iff u and v lie in [0, 1] and o + w·d = p0 + u·e1 + v·e2 (`TriangleRayHitMeaning`). Near-parallel rays are always rejected.
  - The sphere–plane test and the box–plane side rule are stated in terms of the plane's `distance` and `whichSide`, and hold for any plane.
- **Line.** The projection parameter is proved to invert `At`. The projected point is proved to be the nearest point of the line.
- **Collision traversal.** It is proved equal to a recursive predicate. That predicate is characterised by paths through hit nodes.

## Model

| member | source | states |
|---|---|---|
| Intersect.BSpherePlaneIntersect | Math/intersect.cc:18-23 | IIntersect iff the plane distance of the centre is at most the radius. -IReject iff it is farther and the centre is on the negative side. IReject iff it is farther and the centre is on the zero or positive side. |
| Intersect.BBoxBBoxIntersect | Math/intersect.cc:31-36 | The result is IIntersect or IReject. It is IReject iff on some axis one box's minimum exceeds the other's maximum. |
| Intersect.BBoxBBoxSymmetric | Math/intersect.cc:31-36 | The box–box test gives the same answer with its arguments swapped. |
| Intersect.BBoxBBoxSharesPoint | Math/intersect.cc:31-36 | For well-formed boxes, the test answers IIntersect iff some point lies in both closed boxes. |
| Intersect.BBoxPlaneSide | Math/intersect.cc:83-87 | When the plane puts both diagonal endpoints on the same side, the result is that side; otherwise it is IIntersect. |
| Intersect.BBoxPlaneSideAgrees | Math/intersect.cc:83-87 | The rule does not depend on the order of the endpoints. Any result other than IIntersect is a side on which both endpoints lie. |
| Intersect.BSphereBSphereIntersect | Math/intersect.cc:96-104 | The result is IIntersect or IReject. It is IReject iff the squared distance between the centres exceeds the square of the sum of the radii. |
| Intersect.BSphereBSphereSymmetric | Math/intersect.cc:96-104 | The sphere–sphere test gives the same answer with its arguments swapped. |
| Intersect.BSphereBSphereSharesPoint | Math/intersect.cc:96-104 | For non-negative radii, the test answers IIntersect iff the two closed balls share a point. |
| Intersect.AxisGap | Math/intersect.cc:121-131 | The per-axis offset the test accumulates is non-negative. It is zero when the centre coordinate lies between the box bounds. |
| Intersect.BSphereBBoxOutcome | Math/intersect.cc:112-158 | The result is IIntersect or IReject. For a non-negative radius it is IIntersect iff the squared distance from the centre to the box is at most the squared radius. |
| Intersect.EarlyRejectRedundant | Math/intersect.cc:121-155 | For a non-negative radius, an axis that triggers an early return already makes the squared distance exceed the squared radius. The early exits therefore never change the answer. |
| Intersect.AccumulateAxis | Math/intersect.cc:121-131 | One axis block rejects iff the centre's offset below the minimum, or else above the maximum, is positive and exceeds the radius. Otherwise it adds the square of that offset to the running sum. |
| Intersect.BSphereBBoxIntersect | Math/intersect.cc:112-158 | The axis-by-axis accumulation with its early returns computes BSphereBBoxOutcome. |
| Intersect.DegenerateBoxIsPointSphere | Math/intersect.cc:112-158 | For a non-negative radius, a box collapsed to the point c answers as the sphere–sphere test against a sphere of radius 0 at c. |
| Intersect.BSphereBBoxSharesPoint | Math/intersect.cc:112-158 | For a well-formed box and a non-negative radius, the test answers IIntersect iff some point of the box lies in the ball. |
| Intersect.TriangleRayHit | Math/intersect.cc:165-187 | The test rejects when \|e1·(d×e2)\| is below the distance tolerance. Any hit has u and v in [0, 1]. |
| Intersect.CramerSolution | Math/intersect.cc:170-185 | For a ray not parallel to the triangle, (u, v, w) solves o + w·d = p0 + u·e1 + v·e2 iff it is the triple the code computes. |
| Intersect.TriangleRayHitMeaning | Math/intersect.cc:165-187 | Outside the parallel case, the test hits with (u, v, w) iff u and v lie in [0, 1] and the ray point at w is the plane point with coordinates u, v. |
| Intersect.ParallelRayRejected | Math/intersect.cc:170-174 | A ray whose direction is orthogonal to the triangle's normal is always rejected. |
| Intersect.TriangleRayHitOutsideTriangle | Math/intersect.cc:179-182 | For every edge length k above the tolerance, there is a ray the test reports as a hit with u = v = 0.9 whose hit point is not in the triangle. |
| Intersect.TriangleRayHitInside | Math/intersect.cc:165-187 | The corrected test: it still rejects near-parallel rays. |
| Intersect.TriangleRayHitInsideMeaning | Math/intersect.cc:165-187 | The corrected test hits with (u, v, w) iff u, v ≥ 0, u + v ≤ 1, and the ray point at w is the triangle point with coordinates u, v. |
| Intersect.TriangleRayHitInsideIsInTriangle | Math/intersect.cc:165-187 | Every hit of the corrected test is a point of the closed triangle. |
| Intersect.IntersectTriangleRay | Math/intersect.cc:165-187 | The result is IIntersect or IReject. It is IIntersect iff TriangleRayHit hits. On a hit, `uvw` receives the computed (u, v, w); on a rejection, it keeps the caller's value. |
| Intersect.IntersectString | Math/intersect.cc:192-213 | The name of 0 is "IINTERSECT", of 1 "IREJECT" and of -1 "-IREJECT". Any other code is named "IERROR". |
| Intersect.IntersectStringInjective | Math/intersect.cc:192-213 | Two codes with the same name, other than "IERROR", are equal. |
| Lines.Line.constructor | Math/line.cc:9 | The default line has origin zero and direction the unit y vector. |
| Lines.Line.FromOriginDirection | Math/line.cc:10 | The line stores the given origin and direction as given. |
| Lines.Line.Copy | Math/line.cc:11 | The copy has the origin and direction of the original. |
| Lines.Line.Assign | Math/line.cc:13-19 | After assignment, the line has the assigned line's origin and direction. Self-assignment changes nothing. |
| Lines.Line.SetFromAtoB | Math/line.cc:25-30 | The origin becomes A. The direction has unit length, and `norm` times it is B − A. |
| Lines.SetFromAtoBNeedsDistinctPoints | Math/line.cc:25-30 | The norm requirement on B − A implies that A and B differ. |
| Lines.Line.At | Math/line.cc:34-38 | The point at parameter u is offset from the origin by u times the direction. |
| Lines.Line.ParamDistance | Math/line.cc:44-50 | The parameter r solves r (d·d) = d·(P − O), the equation of the orthogonal projection of P onto the line. |
| Lines.Line.SqDistance | Math/line.cc:57-61 | The squared distance from P to the line is never negative. |
| Lines.AtZero | Math/line.cc:34-38 | The point at parameter 0 is the origin. |
| Lines.ParamDistanceOfOrigin | Math/line.cc:44-50 | The origin projects to parameter 0. |
| Lines.ParamDistanceOfAt | Math/line.cc:44-50 | Projection inverts evaluation: the point at parameter u projects back to u. |
| Lines.ProjectionOrthogonal | Math/line.cc:40-50 | The offset from P to its projection is orthogonal to the direction. |
| Lines.ProjectionNearest | Math/line.cc:40-61 | No point of the line is closer to P than the point at paramDistance(P). The squared distance is therefore the minimum over the line. |
| Lines.SqDistanceOnLine | Math/line.cc:57-61 | Every point of the line is at distance zero from it. |
| Avatars.Avatar.constructor | Camera/avatar.cc:5-9 | A new avatar is in fly mode. Its sphere is centred on the camera's position and has the given radius. |
| Avatars.Avatar.WalkOrFly | Camera/avatar.cc:15-19 | Returns the previous mode and sets the mode to the argument. The sphere is unchanged. |
| Avatars.WalkThenFly | Camera/avatar.cc:15-19 | `walkOrFly(true)` followed by `walkOrFly(false)` returns true and leaves fly mode. |
| Avatars.Avatar.Advance | Camera/avatar.cc:29-40 | Returns true iff the sphere collides with the scene below the root. Only then does it send the camera one `walk(step)` in walk mode, or one `fly(step)` in fly mode. Otherwise the camera is unchanged. The mode and the sphere never change. |
| Avatars.Avatar.IsColliding | Camera/avatar.cc:42-57 | The answer equals `Colliding`. It is false when the node is not hit, and true when the node is hit and carries an object. Otherwise it is true iff some child collides, visiting the children in order up to the first child that collides. |
| Avatars.CollidingIffHitPath | Camera/avatar.cc:42-57 | The sphere collides with a node iff a path of hit nodes leads from it to a node carrying an object. |
| Avatars.NoGobjectsNeverCollides | Camera/avatar.cc:42-57 | A scene in which no node carries an object never collides. |
| Avatars.CollidingThroughChild | Camera/avatar.cc:46-54 | A hit node with a hit child that carries an object collides. |
| Avatars.Avatar.LeftRight | Camera/avatar.cc:59-64 | Sends the camera `viewYWorld(angle)` in walk mode and `yaw(angle)` in fly mode, and nothing else. |
| Avatars.Avatar.UpDown | Camera/avatar.cc:66-68 | Sends the camera `pitch(angle)` in either mode, and nothing else. |

## Left out

- BBoxPlaneIntersect, the diagonal selection (Math/intersect.cc:45-81): the loop chooses the box diagonal whose direction makes the smallest `acosf` angle with the plane normal. Only the final side rule applied to the chosen endpoints is modelled (`BBoxPlaneSide`), because the choice relies on floating-point `acosf` and on the plane's normal, which belong to the plane type and are not part of this model.
- Plane geometry: `Plane::distance` and `Plane::whichSide` are not part of this model. They are fields of function type, so every result about planes holds for any plane.
- Node geometry: `Node::checkCollision` and `getGobject` are not part of this model. `checkCollision` is a field of function type, and `getGobject() != 0` is a boolean field.
- The sibling-pointer representation of the scene graph: it is modelled as a tree with a sequence of children. `Scene::instance()->rootNode()` becomes an explicit `root` parameter of `Advance`.
- Avatars.Avatar.IsColliding: the literal child loop of Camera/avatar.cc:48-54 is not modelled. That loop steps with `n->nextSibling()` and recurses on `child->nextSibling()`, so it can repeat a child or fail to terminate. The model visits each child once, in order, recurses on the child itself, and stops at the first child that collides. A node with no children gives false; Camera/avatar.cc:48-50 would dereference a missing first child.
- The camera transforms (`walk`, `fly`, `viewYWorld`, `yaw`, `pitch`, `getPosition`): their code is not part of this model. The camera records each request in a ghost log, and the model states nothing about how the position moves.
- Lines.Line.SetFromAtoB: `Vector3::normalize` is not part of this model. The length of B − A that it returns is passed in as `norm`, with its defining property as a precondition. The `assert(norm > distance_epsilon)` of Math/line.cc:29 is also a precondition.
- Lines.Line.ParamDistance: the `assert(fabs(d·d) > epsilon)` of Math/line.cc:47 is a precondition.
- `Line::distance`: it is modelled as the squared distance `SqDistance`, because the square root is not modelled.
- Floating-point rounding: every computation is exact over the reals. The `1.0f / a` of the triangle test is an exact division.
- `Line::print`, `Avatar::print` and the avatar's destructor: they do console output or free memory, and this model has neither.
- Collision polarity of `advance`. The comment above `advance` (Camera/avatar.cc:24-27) says the avatar should do nothing when its destination collides. The code (Camera/avatar.cc:33-38) moves when `isColliding(root)` is true, and the model follows the code:
  - in a scene with no objects, `advance` never moves (`NoGobjectsNeverCollides`);
  - under a hit root, with a single hit child carrying an object, `advance` moves (`CollidingThroughChild`).
- The skybox (Scene/skybox.cc) is not part of this model.

## Findings

| source | as written | input that shows it | evidently intended | confidence | as-written member | corrected member |
|---|---|---|---|---|---|---|
| Math/intersect.cc:182 | After checking u in [0, 1], it rejects only when v < 0 or v > 1. It never checks u + v ≤ 1, so it accepts points of the parallelogram spanned by the two edges. | Triangle (0,0,0), (k,0,0), (0,1,0) with k above the distance tolerance. The ray from (0.9k, 0.9, 1) along (0,0,−1) is reported as a hit with u = v = 0.9, and (0.9k, 0.9, 0) is outside the triangle. | Reject when v < 0 or u + v > 1, so that hits are exactly the points of the triangle. | not executed | Intersect.TriangleRayHitOutsideTriangle | Intersect.TriangleRayHitInsideMeaning |
