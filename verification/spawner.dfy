/** `spawnBody`, the cap-gated periodic spawn and the initial burst. */
module Spawner {
  import opened Common
  import opened Bodies
  import Responsive

  const Padding: real := 50.0
  const SpawnY: real := -100.0
  const BaseSize: real := 60.0
  const BurstSpacingMs: nat := 100

  /** The `Math.random()` draws one spawn consumes, in the order `spawnBody` draws them: category,
      camera kind (not drawn on the drone path), scale, x, angle, spin. */
  datatype SpawnDraws = SpawnDraws(kind: real, camType: real, scale: real, x: real, angle: real, spin: real)

  predicate ValidDraws(d: SpawnDraws) {
    Unit(d.kind) && Unit(d.camType) && Unit(d.scale) && Unit(d.x) && Unit(d.angle) && Unit(d.spin)
  }

  /** Category selection: a drone below 0.2, otherwise one of three cameras
      split at 0.33 and 0.66 of a second draw. */
  function ChooseTexture(kind: real, camType: real): Texture {
    if kind < 0.2 then Drone
    else if camType < 0.33 then CameraModern
    else if camType < 0.66 then CameraCinema
    else CameraVintage
  }

  /** A half-open rectangle of the (kind, camType) unit square. */
  datatype Region = Region(kindLo: real, kindHi: real, camLo: real, camHi: real)

  predicate InRegion(kind: real, camType: real, g: Region) {
    g.kindLo <= kind < g.kindHi && g.camLo <= camType < g.camHi
  }

  /** Reference table: the part of the draw square that selects each texture. */
  function RegionOf(t: Texture): Region {
    match t
    case Drone => Region(0.0, 0.2, 0.0, 1.0)
    case CameraModern => Region(0.2, 1.0, 0.0, 0.33)
    case CameraCinema => Region(0.2, 1.0, 0.33, 0.66)
    case CameraVintage => Region(0.2, 1.0, 0.66, 1.0)
  }

  /** The probability of a texture: the area of its region. */
  function Weight(t: Texture): real {
    var g := RegionOf(t);
    (g.kindHi - g.kindLo) * (g.camHi - g.camLo)
  }

  /** The nested conditionals select exactly the texture whose table region
      holds the draws. */
  lemma ChooseTextureMatchesTable(kind: real, camType: real, t: Texture)
    requires Unit(kind) && Unit(camType)
    ensures ChooseTexture(kind, camType) == t <==> InRegion(kind, camType, RegionOf(t))
  {
  }

  /** Drones take 20%; the cameras split the rest 33/33/34, not in exact thirds. */
  lemma TextureWeights()
    ensures Weight(Drone) == 0.2
    ensures Weight(CameraModern) == Weight(CameraCinema) == 0.264
    ensures Weight(CameraVintage) == 0.272
    ensures Weight(Drone) + Weight(CameraModern) + Weight(CameraCinema) + Weight(CameraVintage) == 1.0
  {
  }

  /** Size variant: drones in [0.8, 1.2), cameras in [0.7, 1.0). */
  function ScaleVariant(t: Texture, draw: real): (s: real)
    requires Unit(draw)
    ensures t == Drone ==> 0.8 <= s < 1.2
    ensures t != Drone ==> 0.7 <= s < 1.0
  {
    if t == Drone then 0.8 + draw * 0.4 else 0.7 + draw * 0.3
  }

  /** The circle collider's radius, `60 * scale * 0.45`. */
  function ColliderRadius(scale: real): (r: real)
    ensures r == 27.0 * scale
  {
    BaseSize * scale * 0.45
  }

  /** Horizontal spawn position: a uniform point of the width, clamped by
      two successive tests to [50, width - 50]. */
  function SpawnX(width: nat, draw: real): (x: real)
    requires Unit(draw)
    ensures width >= 100 ==> Padding <= x <= width as real - Padding
    ensures width < 100 ==> x == width as real - Padding
    ensures Padding <= draw * width as real <= width as real - Padding ==> x == draw * width as real
    ensures width >= 100 && draw * width as real < Padding ==> x == Padding
    ensures width >= 100 && draw * width as real > width as real - Padding ==> x == width as real - Padding
  {
    var x0 := draw * width as real;
    var x1 := if x0 < Padding then Padding else x0;
    if x1 > width as real - Padding then width as real - Padding else x1
  }

  /** Initial angular velocity, `(draw - 0.5) * 0.15`. */
  function Spin(draw: real): (w: real)
    requires Unit(draw)
    ensures -0.075 <= w < 0.075
  {
    (draw - 0.5) * 0.15
  }

  /** `spawnBody`: the body created for a container of the given width. */
  function SpawnBody(width: nat, d: SpawnDraws): (b: Body)
    requires ValidDraws(d)
    ensures !b.isStatic && b.y == SpawnY
    ensures width >= 100 ==> Padding <= b.x <= width as real - Padding
    ensures b.sprite.Textured? && b.sprite.texture == ChooseTexture(d.kind, d.camType)
    ensures b.shape.Circle? && b.shape.radius == 27.0 * (b.sprite.xScale / 0.9)
    ensures b.sprite.xScale == b.sprite.yScale
    ensures b.sprite.texture == Drone ==> 21.6 <= b.shape.radius < 32.4
    ensures b.sprite.texture != Drone ==> 18.9 <= b.shape.radius < 27.0
    ensures b.material == Custom(0.5, 0.7, 1.0, 0.005)
    ensures -0.075 <= b.angularVelocity < 0.075 && 0.0 <= b.angleTurns < 1.0
    ensures b.forceX == 0.0 && b.forceY == 0.0
  {
    var texture := ChooseTexture(d.kind, d.camType);
    var scale := ScaleVariant(texture, d.scale);
    Body(false, SpawnX(width, d.x), SpawnY, Circle(ColliderRadius(scale)),
         Custom(0.5, 0.7, 1.0, 0.005), Textured(texture, scale * 0.9, scale * 0.9),
         d.angle, Spin(d.spin), 0.0, 0.0)
  }

  /** One firing of the spawn interval: a body is added at the end of the world
      exactly when the dynamic population is below the current cap. */
  function Tick(world: seq<Body>, settings: Responsive.Settings, width: nat, d: SpawnDraws): (r: seq<Body>)
    requires ValidDraws(d)
    ensures |Dynamics(world)| < settings.maxBodies ==>
              r == world + [SpawnBody(width, d)] && |Dynamics(r)| == |Dynamics(world)| + 1
    ensures |Dynamics(world)| >= settings.maxBodies ==> r == world
    ensures Statics(r) == Statics(world)
    ensures |Dynamics(r)| <= MaxNat(|Dynamics(world)|, settings.maxBodies)
  {
    if |Dynamics(world)| < settings.maxBodies then
      var b := SpawnBody(width, d);
      AppendSame(world, b);
      AppendOther(world, b, true);
      world + [b]
    else
      world
  }

  /** One initial-burst callback: spawns without consulting the cap. */
  function BurstSpawn(world: seq<Body>, width: nat, d: SpawnDraws): (r: seq<Body>)
    requires ValidDraws(d)
    ensures Dynamics(r) == Dynamics(world) + [SpawnBody(width, d)]
    ensures Statics(r) == Statics(world)
  {
    var b := SpawnBody(width, d);
    AppendSame(world, b);
    AppendOther(world, b, true);
    world + [b]
  }

  /** The start-up loop: one spawn scheduled per burst slot, 100 ms apart. */
  method ScheduleBurst(settings: Responsive.Settings) returns (delays: seq<nat>)
    ensures |delays| == settings.initialBurst
    ensures forall i :: 0 <= i < |delays| ==> delays[i] == BurstSpacingMs * i
    ensures forall i :: 0 < i < |delays| ==> delays[i] - delays[i - 1] == BurstSpacingMs
  {
    delays := [];
    var i := 0;
    while i < settings.initialBurst
      invariant 0 <= i <= settings.initialBurst
      invariant |delays| == i
      invariant forall j :: 0 <= j < i ==> delays[j] == BurstSpacingMs * j
    {
      delays := delays + [i * BurstSpacingMs];
      i := i + 1;
    }
  }

  /** At every breakpoint the burst is ten spawns at 0, 100, ..., 900 ms. */
  method InitialBurst(innerWidth: nat) returns (delays: seq<nat>)
    ensures delays == [0, 100, 200, 300, 400, 500, 600, 700, 800, 900]
  {
    delays := ScheduleBurst(Responsive.GetResponsiveSettings(innerWidth));
  }
}
