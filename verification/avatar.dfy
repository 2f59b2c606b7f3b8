/** The avatar of Camera/avatar.cc: a camera driven in walk or fly mode,
    with a bounding sphere that is tested against the scene graph before
    the camera is moved. */
module Avatars {
  import opened Vectors
  import opened Intersect

  /** One request made of the camera. */
  datatype CameraCall =
    | Walk(step: real)
    | Fly(step: real)
    | ViewYWorld(angle: real)
    | Yaw(angle: real)
    | Pitch(angle: real)

  /** The camera the avatar drives. Its transforms are not part of this
      model: the camera is seen through its position and the log of the
      requests it has received. */
  class Camera {
    var position: Vector3
    ghost var calls: seq<CameraCall>

    constructor (position: Vector3)
      ensures this.position == position && calls == []
    {
      this.position := position;
      calls := [];
    }

    method Walk(step: real)
      modifies this
      ensures calls == old(calls) + [CameraCall.Walk(step)]
    {
      calls := calls + [CameraCall.Walk(step)];
    }

    method Fly(step: real)
      modifies this
      ensures calls == old(calls) + [CameraCall.Fly(step)]
    {
      calls := calls + [CameraCall.Fly(step)];
    }

    method ViewYWorld(angle: real)
      modifies this
      ensures calls == old(calls) + [CameraCall.ViewYWorld(angle)]
    {
      calls := calls + [CameraCall.ViewYWorld(angle)];
    }

    method Yaw(angle: real)
      modifies this
      ensures calls == old(calls) + [CameraCall.Yaw(angle)]
    {
      calls := calls + [CameraCall.Yaw(angle)];
    }

    method Pitch(angle: real)
      modifies this
      ensures calls == old(calls) + [CameraCall.Pitch(angle)]
    {
      calls := calls + [CameraCall.Pitch(angle)];
    }
  }

  /** A node of the scene graph: its collision test against a bounding
      sphere (true where the scene's checkCollision answers a node), whether
      it carries a geometric object, and its children in sibling order. */
  datatype Node = Node(checkCollision: BSphere -> bool, hasGobject: bool, children: seq<Node>)

  /** The sphere collides with n: n is hit and either carries an object or
      has a child the sphere collides with. */
  predicate Colliding(n: Node, s: BSphere) {
    n.checkCollision(s) &&
    (n.hasGobject || exists i :: 0 <= i < |n.children| && Colliding(n.children[i], s))
  }

  /** Following the child indices of `path` from n, every node passed
      (n included) is hit, and the node reached carries an object. */
  predicate HitPathTo(n: Node, path: seq<nat>, s: BSphere)
    decreases |path|
  {
    n.checkCollision(s) &&
    if path == [] then n.hasGobject
    else path[0] < |n.children| && HitPathTo(n.children[path[0]], path[1..], s)
  }

  /** No node of the tree carries an object. */
  predicate NoGobjects(n: Node) {
    !n.hasGobject && forall i :: 0 <= i < |n.children| ==> NoGobjects(n.children[i])
  }

  class Avatar {
    const name: string
    /** The camera, shared with the caller. */
    const cam: Camera
    /** Walk mode when true, fly mode when false. */
    var walk: bool
    /** The bounding sphere, owned by the avatar. */
    var bsph: BSphere

    /** A new avatar flies, and its sphere is centred on the camera. */
    constructor (name: string, cam: Camera, radius: real)
      ensures this.name == name && this.cam == cam
      ensures !walk
      ensures bsph == BSphere(cam.position, radius)
    {
      this.name := name;
      this.cam := cam;
      walk := false;
      bsph := BSphere(cam.position, radius);
    }

    /** Sets the mode and returns the mode it replaces. */
    method WalkOrFly(walkOrFly: bool) returns (previous: bool)
      modifies this
      ensures previous == old(walk) && walk == walkOrFly
      ensures bsph == old(bsph)
    {
      previous := walk;
      walk := walkOrFly;
    }

    /** Moves the camera `step` units (walking or flying, by the mode) when
        the sphere collides with the scene below `root`, and reports whether
        it moved. The mode and the sphere stay as they are. */
    method Advance(step: real, root: Node) returns (moved: bool)
      modifies cam
      ensures moved == Colliding(root, bsph)
      ensures moved ==> cam.calls == old(cam.calls) + [if walk then CameraCall.Walk(step) else CameraCall.Fly(step)]
      ensures !moved ==> unchanged(cam)
      ensures walk == old(walk) && bsph == old(bsph)
    {
      var collides := IsColliding(root);
      if collides {
        if walk {
          cam.Walk(step);
        } else {
          cam.Fly(step);
        }
        moved := true;
      } else {
        moved := false;
      }
    }

    /** Whether the sphere collides with the tree below n: false when n is
        not hit, true when n is hit and carries an object, and otherwise
        whether the sphere collides with one of the children, which are
        visited in order until the first that does. */
    method IsColliding(n: Node) returns (collides: bool)
      ensures collides == Colliding(n, bsph)
      decreases n
    {
      var hit := n.checkCollision(bsph);
      collides := false;
      if hit && n.hasGobject {
        collides := true;
      } else if hit {
        var i := 0;
        while i < |n.children| && !collides
          invariant 0 <= i <= |n.children|
          invariant collides <==> exists j :: 0 <= j < i && Colliding(n.children[j], bsph)
        {
          var child := n.children[i];
          var childHit := child.checkCollision(bsph);
          if childHit && child.hasGobject {
            collides := true;
          } else if childHit {
            collides := IsColliding(child);
          }
          i := i + 1;
        }
      }
    }

    /** Turns left or right: about the world's y axis in walk mode, about
        the camera's own vertical axis in fly mode. */
    method LeftRight(angle: real)
      modifies cam
      ensures cam.calls == old(cam.calls) + [if walk then CameraCall.ViewYWorld(angle) else CameraCall.Yaw(angle)]
    {
      if walk {
        cam.ViewYWorld(angle);
      } else {
        cam.Yaw(angle);
      }
    }

    /** Looks up or down, in either mode. */
    method UpDown(angle: real)
      modifies cam
      ensures cam.calls == old(cam.calls) + [CameraCall.Pitch(angle)]
    {
      cam.Pitch(angle);
    }
  }

  /** Switching to walk mode and back reports walk mode as the mode replaced. */
  method WalkThenFly(av: Avatar) returns (previous: bool)
    modifies av
    ensures previous && !av.walk
  {
    var _ := av.WalkOrFly(true);
    previous := av.WalkOrFly(false);
  }

  /** A scene without objects never collides, so the avatar never moves in it. */
  lemma {:induction false} NoGobjectsNeverCollides(n: Node, s: BSphere)
    requires NoGobjects(n)
    ensures !Colliding(n, s)
    decreases n
  {
    forall i | 0 <= i < |n.children|
      ensures !Colliding(n.children[i], s)
    {
      NoGobjectsNeverCollides(n.children[i], s);
    }
  }

  /** The sphere collides with n exactly when some path from n through hit
      nodes reaches a node carrying an object. */
  lemma CollidingIffHitPath(n: Node, s: BSphere)
    ensures Colliding(n, s) <==> exists path: seq<nat> :: HitPathTo(n, path, s)
  {
    if Colliding(n, s) {
      var path := HitPathOf(n, s);
      assert HitPathTo(n, path, s);
      assert exists p: seq<nat> :: HitPathTo(n, p, s);
    } else {
      forall path | HitPathTo(n, path, s)
        ensures false
      {
        HitPathColliding(n, path, s);
      }
    }
  }

  /** A path witnessing a collision. */
  lemma {:induction false} HitPathOf(n: Node, s: BSphere) returns (path: seq<nat>)
    requires Colliding(n, s)
    ensures HitPathTo(n, path, s)
    decreases n
  {
    if n.hasGobject {
      path := [];
    } else {
      var i :| 0 <= i < |n.children| && Colliding(n.children[i], s);
      var rest := HitPathOf(n.children[i], s);
      path := [i] + rest;
      assert path[1..] == rest;
    }
  }

  /** Every hit path to an object is a collision. */
  lemma {:induction false} HitPathColliding(n: Node, path: seq<nat>, s: BSphere)
    requires HitPathTo(n, path, s)
    ensures Colliding(n, s)
    decreases |path|
  {
    if path != [] && !n.hasGobject {
      HitPathColliding(n.children[path[0]], path[1..], s);
    }
  }

  /** A node that is hit collides through a single hit child carrying an
      object, whether or not the node carries one itself. */
  lemma CollidingThroughChild(n: Node, s: BSphere, i: nat)
    requires i < |n.children|
    requires n.checkCollision(s)
    requires n.children[i].checkCollision(s) && n.children[i].hasGobject
    ensures Colliding(n, s)
  {
    assert Colliding(n.children[i], s);
  }
}
