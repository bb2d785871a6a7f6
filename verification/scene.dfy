/** The hero section's whole runtime state and its event handlers: the world,
    the boundaries, the settings, gravity and the scroll/resize memories. */
module HeroScene {
  import opened Common
  import opened Bodies
  import opened Responsive
  import opened BoundaryManager
  import Spawner
  import ForceInjector

  const InitialGravityY: real := 0.8
  const ResizeThreshold: nat := 50

  /** The host element's current client size. */
  datatype Container = Container(clientWidth: nat, clientHeight: nat)

  /** `spawnIntervalMs` is the period the spawn timer was started with;
      `pendingBurst` counts initial-burst callbacks not yet fired. */
  datatype Sim = Sim(
    world: seq<Body>,
    bounds: Boundaries,
    settings: Settings,
    spawnIntervalMs: nat,
    pendingBurst: nat,
    gravityX: real,
    gravityY: real,
    lastScrollTop: real,
    lastWidth: nat)

  /** The population can exceed the largest cap only by the one-time burst. */
  const PopulationBound: nat := LargestCap + BurstSize

  /** What holds between events: the static bodies are exactly the current
      boundaries, the settings belong to the last accepted width, gravity is
      in range with its vertical part untouched, and the dynamic population
      plus the bursts still to come stays within the bound. */
  predicate Valid(s: Sim) {
    && Statics(s.world) == Triple(s.bounds)
    && s.settings == GetResponsiveSettings(s.lastWidth)
    && -1.0 <= s.gravityX <= 1.0
    && s.gravityY == InitialGravityY
    && s.pendingBurst <= BurstSize
    && |Dynamics(s.world)| + s.pendingBurst <= PopulationBound
  }

  /** The page-load handler: nothing happens without the host container. */
  function Init(container: Option<Container>, innerWidth: nat, scrollTop: real): (r: Option<Sim>)
    ensures r.Some? <==> container.Some?
    ensures r.Some? ==>
      && Valid(r.value)
      && r.value.bounds == MakeBoundaries(container.value.clientWidth, container.value.clientHeight, innerWidth)
      && r.value.world == Triple(r.value.bounds)
      && Dynamics(r.value.world) == []
      && r.value.settings == GetResponsiveSettings(innerWidth)
      && r.value.spawnIntervalMs == r.value.settings.spawnIntervalMs
      && r.value.pendingBurst == BurstSize
      && r.value.gravityX == 0.0
      && r.value.lastWidth == innerWidth
      && r.value.lastScrollTop == scrollTop
  {
    if container.None? then None
    else
      var c := container.value;
      var (world, bounds) := CreateBoundaries([], None, c.clientWidth, c.clientHeight, innerWidth);
      var settings := GetResponsiveSettings(innerWidth);
      Some(Sim(world, bounds, settings, settings.spawnIntervalMs, settings.initialBurst,
               0.0, InitialGravityY, scrollTop, innerWidth))
  }

  /** The resize handler: a window-width change under 50 px is ignored;
      otherwise the boundaries are rebuilt for the container and the settings
      recomputed, while the spawn period keeps its start-up value. */
  function OnResize(s: Sim, innerWidth: nat, container: Container): (r: Sim)
    requires forall b :: b in Triple(s.bounds) ==> b.isStatic
    ensures Valid(s) ==> Valid(r)
    ensures Abs(innerWidth as real - s.lastWidth as real) < ResizeThreshold as real ==> r == s
    ensures Abs(innerWidth as real - s.lastWidth as real) >= ResizeThreshold as real ==>
      && r.lastWidth == innerWidth
      && r.bounds == MakeBoundaries(container.clientWidth, container.clientHeight, innerWidth)
      && (Statics(s.world) == Triple(s.bounds) ==> Statics(r.world) == Triple(r.bounds))
      && Dynamics(r.world) == Dynamics(s.world)
      && r.settings == GetResponsiveSettings(innerWidth)
      && r == s.(world := r.world, bounds := r.bounds, settings := r.settings, lastWidth := innerWidth)
    ensures r.spawnIntervalMs == s.spawnIntervalMs
  {
    if Abs(innerWidth as real - s.lastWidth as real) < ResizeThreshold as real then s
    else
      var (world, bounds) := CreateBoundaries(s.world, Some(s.bounds), container.clientWidth, container.clientHeight, innerWidth);
      s.(world := world, bounds := bounds, settings := GetResponsiveSettings(innerWidth), lastWidth := innerWidth)
  }

  /** The device-orientation handler: only the horizontal gravity changes. */
  function OnTilt(s: Sim, orientation: Option<int>, beta: Option<real>, gamma: Option<real>): (r: Sim)
    ensures Valid(s) ==> Valid(r)
    ensures r == s.(gravityX := r.gravityX)
    ensures r.gravityX == ForceInjector.TiltGravityX(s.gravityX, orientation, beta, gamma)
  {
    s.(gravityX := ForceInjector.TiltGravityX(s.gravityX, orientation, beta, gamma))
  }

  /** The scroll handler: past the threshold, every dynamic body gets a nudge
      and the offset is remembered; otherwise nothing changes at all. */
  function OnScroll(s: Sim, scrollTop: real, forceDraw: real, nudges: nat -> (real, real)): (r: Sim)
    requires Unit(forceDraw) && ForceInjector.ValidNudges(nudges)
    ensures Valid(s) ==> Valid(r)
    ensures !ForceInjector.ScrollTriggers(s.lastScrollTop, scrollTop) ==> r == s
    ensures ForceInjector.ScrollTriggers(s.lastScrollTop, scrollTop) ==>
      && r.lastScrollTop == scrollTop
      && r.world == ForceInjector.ApplyJitter(s.world, ForceInjector.JoltForce(forceDraw), nudges, 0)
      && r == s.(world := r.world, lastScrollTop := scrollTop)
  {
    if ForceInjector.ScrollTriggers(s.lastScrollTop, scrollTop) then
      var force := ForceInjector.JoltForce(forceDraw);
      ForceInjector.JitterEffect(s.world, force, nudges, 0);
      s.(world := ForceInjector.ApplyJitter(s.world, force, nudges, 0), lastScrollTop := scrollTop)
    else
      s
  }

  /** The spawn interval firing: cap-gated, with the current settings. */
  function OnInterval(s: Sim, width: nat, d: Spawner.SpawnDraws): (r: Sim)
    requires Spawner.ValidDraws(d)
    ensures Valid(s) ==> Valid(r)
    ensures |Dynamics(s.world)| < s.settings.maxBodies ==>
      && r.world == s.world + [Spawner.SpawnBody(width, d)]
      && |Dynamics(r.world)| == |Dynamics(s.world)| + 1
    ensures |Dynamics(s.world)| >= s.settings.maxBodies ==> r == s
    ensures r == s.(world := r.world)
  {
    SettingsMonotone(s.lastWidth, s.lastWidth);
    s.(world := Spawner.Tick(s.world, s.settings, width, d))
  }

  /** One of the scheduled burst callbacks firing: spawns past the cap. A
      callback beyond those scheduled does not exist, so it changes nothing. */
  function OnBurst(s: Sim, width: nat, d: Spawner.SpawnDraws): (r: Sim)
    requires Spawner.ValidDraws(d)
    ensures Valid(s) ==> Valid(r)
    ensures s.pendingBurst > 0 ==>
      && Dynamics(r.world) == Dynamics(s.world) + [Spawner.SpawnBody(width, d)]
      && r.pendingBurst == s.pendingBurst - 1
    ensures s.pendingBurst == 0 ==> r == s
    ensures r == s.(world := r.world, pendingBurst := r.pendingBurst)
  {
    if s.pendingBurst == 0 then s
    else s.(world := Spawner.BurstSpawn(s.world, width, d), pendingBurst := s.pendingBurst - 1)
  }

  /** The host events the hero section reacts to, with their random draws. */
  datatype Event =
    | BurstFires(width: nat, draws: Spawner.SpawnDraws)
    | IntervalFires(width: nat, draws: Spawner.SpawnDraws)
    | Tilt(orientation: Option<int>, beta: Option<real>, gamma: Option<real>)
    | Scroll(scrollTop: real, forceDraw: real, nudges: nat -> (real, real))
    | Resize(innerWidth: nat, container: Container)

  ghost predicate ValidEvent(e: Event) {
    match e
    case BurstFires(_, d) => Spawner.ValidDraws(d)
    case IntervalFires(_, d) => Spawner.ValidDraws(d)
    case Tilt(_, _, _) => true
    case Scroll(_, f, n) => Unit(f) && ForceInjector.ValidNudges(n)
    case Resize(_, _) => true
  }

  ghost function Step(s: Sim, e: Event): (r: Sim)
    requires Valid(s) && ValidEvent(e)
    ensures Valid(r)
    ensures r.spawnIntervalMs == s.spawnIntervalMs
    ensures r.pendingBurst <= s.pendingBurst
  {
    match e
    case BurstFires(w, d) => OnBurst(s, w, d)
    case IntervalFires(w, d) => OnInterval(s, w, d)
    case Tilt(o, b, g) => OnTilt(s, o, b, g)
    case Scroll(t, f, n) => OnScroll(s, t, f, n)
    case Resize(iw, c) => OnResize(s, iw, c)
  }

  /** Any sequence of host events from a valid state keeps it valid, never
      touches the spawn period or the vertical gravity, and so never lets the
      dynamic population exceed the largest cap plus the burst. */
  ghost function Run(s: Sim, events: seq<Event>): (r: Sim)
    requires Valid(s)
    requires forall i :: 0 <= i < |events| ==> ValidEvent(events[i])
    ensures Valid(r)
    ensures r.spawnIntervalMs == s.spawnIntervalMs
    ensures r.gravityY == s.gravityY
    ensures r.pendingBurst <= s.pendingBurst
    ensures |Dynamics(r.world)| <= PopulationBound
    decreases |events|
  {
    if |events| == 0 then s
    else
      Run(Step(s, events[0]), events[1..])
  }

  /** From page load, whatever events arrive, the population never exceeds
      200 + 10 bodies and there are always exactly the three boundaries. */
  lemma {:induction false} LifetimeBounds(container: Container, innerWidth: nat, scrollTop: real, events: seq<Event>)
    requires forall i :: 0 <= i < |events| ==> ValidEvent(events[i])
    ensures var s0 := Init(Some(container), innerWidth, scrollTop).value;
      var r := Run(s0, events);
      && |Dynamics(r.world)| <= 210
      && |Statics(r.world)| == 3
      && r.spawnIntervalMs == GetResponsiveSettings(innerWidth).spawnIntervalMs
      && r.gravityY == 0.8
  {
  }
}
