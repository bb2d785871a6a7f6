/** The physics world as the spawner sees it: a sequence of immutable bodies,
    each either static (a boundary) or dynamic (a falling sprite). The engine
    that integrates and renders them is not part of this model. */
module Bodies {

  /** The four cached sprite textures. */
  datatype Texture = Drone | CameraModern | CameraCinema | CameraVintage

  datatype Shape = Rectangle(width: real, height: real) | Circle(radius: real)

  /** Material parameters; boundaries keep the engine's defaults. */
  datatype Material =
    | EngineDefault
    | Custom(restitution: real, friction: real, frictionStatic: real, density: real)

  datatype Sprite = Invisible | Textured(texture: Texture, xScale: real, yScale: real)

  /** A body at creation time plus the force accumulated on it since.
      `angleTurns` is the initial angle as a fraction of a full turn (2π rad). */
  datatype Body = Body(
    isStatic: bool,
    x: real,
    y: real,
    shape: Shape,
    material: Material,
    sprite: Sprite,
    angleTurns: real,
    angularVelocity: real,
    forceX: real,
    forceY: real)

  /** The bodies of `world` whose static flag is `wantStatic`, in world order. */
  function Having(world: seq<Body>, wantStatic: bool): (r: seq<Body>)
    ensures |r| <= |world|
    ensures forall b :: b in r <==> b in world && b.isStatic == wantStatic
  {
    if |world| == 0 then []
    else if world[0].isStatic == wantStatic then [world[0]] + Having(world[1..], wantStatic)
    else Having(world[1..], wantStatic)
  }

  function Statics(world: seq<Body>): seq<Body> {
    Having(world, true)
  }

  function Dynamics(world: seq<Body>): seq<Body> {
    Having(world, false)
  }

  /** The world without every body that belongs to `gone` (`Composite.remove`). */
  function RemoveAll(world: seq<Body>, gone: set<Body>): (r: seq<Body>)
    ensures |r| <= |world|
    ensures forall b :: b in r <==> b in world && b !in gone
  {
    if |world| == 0 then []
    else if world[0] in gone then RemoveAll(world[1..], gone)
    else [world[0]] + RemoveAll(world[1..], gone)
  }

  /** Filtering by the static flag distributes over concatenation. */
  lemma {:induction false} HavingAppend(a: seq<Body>, b: seq<Body>, wantStatic: bool)
    ensures Having(a + b, wantStatic) == Having(a, wantStatic) + Having(b, wantStatic)
  {
    if |a| == 0 {
      assert a + b == b;
    } else {
      assert (a + b)[1..] == a[1..] + b;
      HavingAppend(a[1..], b, wantStatic);
    }
  }

  /** Removing bodies and filtering by the static flag commute. */
  lemma {:induction false} HavingRemoveAll(world: seq<Body>, gone: set<Body>, wantStatic: bool)
    ensures Having(RemoveAll(world, gone), wantStatic) == RemoveAll(Having(world, wantStatic), gone)
  {
    if |world| > 0 {
      HavingRemoveAll(world[1..], gone, wantStatic);
    }
  }

  /** Removing bodies none of which are present leaves the world as it was. */
  lemma {:induction false} RemoveAbsent(world: seq<Body>, gone: set<Body>)
    requires forall b :: b in world ==> b !in gone
    ensures RemoveAll(world, gone) == world
  {
    if |world| > 0 {
      assert world[0] in world;
      assert forall b :: b in world[1..] ==> b in world;
      RemoveAbsent(world[1..], gone);
      assert [world[0]] + world[1..] == world;
    }
  }

  /** Adding a body of the other kind does not change a filtered view. */
  lemma AppendOther(world: seq<Body>, b: Body, wantStatic: bool)
    requires b.isStatic != wantStatic
    ensures Having(world + [b], wantStatic) == Having(world, wantStatic)
  {
    HavingAppend(world, [b], wantStatic);
  }

  /** Adding a body of the filtered kind appends it to the filtered view. */
  lemma AppendSame(world: seq<Body>, b: Body)
    ensures Having(world + [b], b.isStatic) == Having(world, b.isStatic) + [b]
  {
    HavingAppend(world, [b], b.isStatic);
  }

  /** A sequence of one kind filters to itself, and to nothing for the other kind. */
  lemma {:induction false} HavingUniform(bodies: seq<Body>, wantStatic: bool)
    requires forall b :: b in bodies ==> b.isStatic == wantStatic
    ensures Having(bodies, wantStatic) == bodies
    ensures Having(bodies, !wantStatic) == []
  {
    if |bodies| > 0 {
      assert bodies[0] in bodies;
      assert forall b :: b in bodies[1..] ==> b in bodies;
      HavingUniform(bodies[1..], wantStatic);
      assert [bodies[0]] + bodies[1..] == bodies;
    }
  }

  /** Removing a set that covers the whole sequence leaves nothing. */
  lemma RemoveEverything(bodies: seq<Body>, gone: set<Body>)
    requires forall b :: b in bodies ==> b in gone
    ensures RemoveAll(bodies, gone) == []
  {
    assert forall b :: b in RemoveAll(bodies, gone) ==> false;
  }
}
