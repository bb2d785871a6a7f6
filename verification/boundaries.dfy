/** The floor and the two side walls that keep falling bodies in view. */
module BoundaryManager {
  import opened Common
  import opened Bodies
  import Responsive

  const WallThickness: real := 60.0

  datatype Boundaries = Boundaries(ground: Body, leftWall: Body, rightWall: Body)

  /** The boundary bodies in the order they are added to the world. */
  function Triple(b: Boundaries): seq<Body> {
    [b.ground, b.leftWall, b.rightWall]
  }

  /** How far the floor is raised above the container's bottom edge, chosen
      from the window width (not the container width). */
  function GroundOffset(innerWidth: nat): real {
    if Responsive.IsMobile(innerWidth) then 80.0 else 10.0
  }

  /** An invisible static rectangle centred at (cx, cy). */
  function StaticBox(cx: real, cy: real, w: real, h: real): Body {
    Body(true, cx, cy, Rectangle(w, h), EngineDefault, Invisible, 0.0, 0.0, 0.0, 0.0)
  }

  function LeftEdge(b: Body): real
    requires b.shape.Rectangle?
  {
    b.x - b.shape.width / 2.0
  }

  function RightEdge(b: Body): real
    requires b.shape.Rectangle?
  {
    b.x + b.shape.width / 2.0
  }

  function TopEdge(b: Body): real
    requires b.shape.Rectangle?
  {
    b.y - b.shape.height / 2.0
  }

  function BottomEdge(b: Body): real
    requires b.shape.Rectangle?
  {
    b.y + b.shape.height / 2.0
  }

  /** The three boundaries for a container of the given size. */
  function MakeBoundaries(width: nat, height: nat, innerWidth: nat): (b: Boundaries)
    ensures forall body :: body in Triple(b) ==> body.isStatic && body.shape.Rectangle?
    // the floor spans the container and its top edge sits groundOffset above the bottom
    ensures LeftEdge(b.ground) == 0.0 && RightEdge(b.ground) == width as real
    ensures TopEdge(b.ground) == height as real - GroundOffset(innerWidth)
    ensures b.ground.shape.height == WallThickness
    // walls one thickness outside each edge, twice the container height, vertically centred
    ensures b.leftWall.shape == b.rightWall.shape == Rectangle(WallThickness, 2.0 * height as real)
    ensures b.leftWall.x == -WallThickness && b.rightWall.x == width as real + WallThickness
    ensures TopEdge(b.leftWall) == TopEdge(b.rightWall) == -(height as real) / 2.0
    ensures BottomEdge(b.leftWall) == 3.0 * (height as real) / 2.0
    // mirror symmetry about the vertical line x = width / 2
    ensures width as real / 2.0 - b.leftWall.x == b.rightWall.x - width as real / 2.0
    ensures b.leftWall.y == b.rightWall.y
    ensures b.ground != b.leftWall && b.ground != b.rightWall && b.leftWall != b.rightWall
  {
    var w := width as real;
    var h := height as real;
    Boundaries(
      StaticBox(w / 2.0, h + WallThickness / 2.0 - GroundOffset(innerWidth), w, WallThickness),
      StaticBox(0.0 - WallThickness, h / 2.0, WallThickness, h * 2.0),
      StaticBox(w + WallThickness, h / 2.0, WallThickness, h * 2.0))
  }

  /** `createBoundaries`: drop the previous boundaries (if any) from the world,
      then add three new ones at the end. */
  function CreateBoundaries(world: seq<Body>, previous: Option<Boundaries>,
                            width: nat, height: nat, innerWidth: nat): (r: (seq<Body>, Boundaries))
    requires previous.Some? ==> forall b :: b in Triple(previous.value) ==> b.isStatic
    ensures r.1 == MakeBoundaries(width, height, innerWidth)
    ensures Dynamics(r.0) == Dynamics(world)
    ensures previous.Some? && Statics(world) == Triple(previous.value) ==> Statics(r.0) == Triple(r.1)
    ensures previous.None? && Statics(world) == [] ==> Statics(r.0) == Triple(r.1)
  {
    var kept := if previous.Some? then RemoveAll(world, set b | b in Triple(previous.value)) else world;
    var built := MakeBoundaries(width, height, innerWidth);
    RebuildLemma(world, previous, kept, built);
    (kept + Triple(built), built)
  }

  lemma RebuildLemma(world: seq<Body>, previous: Option<Boundaries>, kept: seq<Body>, built: Boundaries)
    requires kept == if previous.Some? then RemoveAll(world, set b | b in Triple(previous.value)) else world
    requires previous.Some? ==> forall b :: b in Triple(previous.value) ==> b.isStatic
    requires forall body :: body in Triple(built) ==> body.isStatic
    ensures Dynamics(kept + Triple(built)) == Dynamics(world)
    ensures previous.Some? && Statics(world) == Triple(previous.value) ==> Statics(kept + Triple(built)) == Triple(built)
    ensures previous.None? && Statics(world) == [] ==> Statics(kept + Triple(built)) == Triple(built)
  {
    var t := Triple(built);
    HavingAppend(kept, t, false);
    HavingAppend(kept, t, true);
    HavingUniform(t, true);
    if previous.Some? {
      var gone := set b | b in Triple(previous.value);
      HavingRemoveAll(world, gone, false);
      HavingRemoveAll(world, gone, true);
      if Statics(world) == Triple(previous.value) {
        RemoveEverything(Statics(world), gone);
      }
      RemoveAbsent(Dynamics(world), gone);
    }
  }
}
