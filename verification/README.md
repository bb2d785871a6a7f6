# Hero physics and page widgets — a Dafny model

This project models the decisions made by a photographer/filmmaker landing
page's two scripts:

- `js/hero-physics.js`, the decorative hero section. Drone and camera sprites
  fall into a bounded box. The box's floor and walls follow the container size.
  Sprites are spawned on a timer up to a population cap that depends on the
  window width. Device tilt steers horizontal gravity, and page scroll shakes
  the sprites.
- `js/app.js`, the page widgets: the mobile menu flags, the navbar's
  scrolled class, the portfolio filter, the testimonial carousel and the
  contact form's date-input mask.

Everything is a pure function over explicit state:

- The physics world is a sequence of immutable `Body` values, each carrying
  an `isStatic` flag (module `Bodies`).
- Every `Math.random()` draw is a parameter in [0, 1): a `SpawnDraws` record
  per spawn, and a stream of pairs per scroll jolt.
- JavaScript numbers are reals. Window and container sizes are naturals.
- Timers are discrete events. The whole hero section is one state (`HeroScene.Sim`)
  driven by `HeroScene.Step`.
- The window width (`window.innerWidth`: breakpoint, floor offset, resize gate)
  and the container size (`clientWidth`/`clientHeight`: geometry, spawn x)
  are separate inputs throughout.

Modules: `Common` (option type, unit draws, real helpers), `Bodies`,
`Responsive`, `BoundaryManager`, `Spawner`, `ForceInjector`, `HeroScene` for
`js/hero-physics.js`; `DateMask`, `Carousel`, `Navigation`, `PortfolioFilter`
for `js/app.js`.

The model follows the code in these details:

- The camera kinds are split at 0.33 and 0.66, not at exact thirds. The shares
  are therefore 26.4%, 26.4% and 27.2% (`Spawner.TextureWeights`).
- The walls are centred one thickness outside the container edges. Their inner
  faces are half a thickness (30) outside.
- The settings are recomputed on every accepted resize, not only when the
  breakpoint changes. The spawn timer keeps the period it was started with.
- The resize gate compares `window.innerWidth`, not the container width.

## Model

| member | source | states |
|---|---|---|
| Responsive.SettingsByBreakpoint | js/hero-physics.js:300-307 | below 768 px the settings are (60, 600 ms, 10), otherwise (200, 300 ms, 10) |
| Responsive.SettingsMonotone | js/hero-physics.js:300-307 | a wider window never lowers the cap or lengthens the spawn period; every cap is at most 200 and the burst is always 10 |
| BoundaryManager.MakeBoundaries | js/hero-physics.js:42-63 | the floor spans [0, width] and its top edge is exactly the ground offset (80 mobile, 10 desktop) above the container bottom; the walls are 60 thick and twice the height tall, centred at −60 and width+60, so they mirror about width/2; all three are static and distinct |
| BoundaryManager.CreateBoundaries | js/hero-physics.js:39-66 | a rebuild keeps every dynamic body, in order, and afterwards the static bodies are exactly the three new boundaries (the old three are removed first; on the first call there are none) |
| Spawner.ChooseTextureMatchesTable | js/hero-physics.js:316-330 | the nested category tests pick texture t exactly when the draws fall in t's cell of a cumulative table: drone for r1 < 0.2, else modern / cinema / vintage for r2 below 0.33 / below 0.66 / above |
| Spawner.TextureWeights | js/hero-physics.js:321-330 | the cell areas are 0.2 for the drone and 0.264, 0.264, 0.272 for the cameras, summing to 1 |
| Spawner.ScaleVariant | js/hero-physics.js:319-333 | the drone scale is in [0.8, 1.2) and the camera scale in [0.7, 1.0) |
| Spawner.SpawnX | js/hero-physics.js:335-340 | for width ≥ 100 the x position lies in [50, width−50]: a draw inside the band is kept, one left of it is moved to 50 and one right of it to width−50; below 100 it is always width−50 |
| Spawner.Spin | js/hero-physics.js:360 | the initial angular velocity is in [−0.075, 0.075) |
| Spawner.SpawnBody | js/hero-physics.js:312-363 | a spawned body is dynamic at y = −100 with the chosen texture, its sprite scale is 0.9·scale, its collider radius is 60·scale·0.45 = 27·scale and so lies in the band for its category, its material is (0.5, 0.7, 1.0, 0.005), its spin is within ±0.075 and it starts with no force |
| Spawner.Tick | js/hero-physics.js:371-378 | an interval tick appends exactly one body iff the dynamic count is below the current cap and otherwise leaves the world unchanged; static bodies are never touched and the count never rises above max(count, cap) |
| Spawner.BurstSpawn | js/hero-physics.js:365-368 | a burst callback appends one dynamic body without looking at the cap |
| Spawner.ScheduleBurst | js/hero-physics.js:365-368 | the start-up loop schedules one spawn per burst slot at delays 100·i, exactly 100 ms apart |
| Spawner.InitialBurst | js/hero-physics.js:309-368 | at every window width the burst is ten spawns at 0, 100, …, 900 ms |
| ForceInjector.Clamp | js/hero-physics.js:404 | the clamped value is in [−1, 1], equals its input inside that range and saturates outside |
| ForceInjector.TiltGravityX | js/hero-physics.js:399-411 | rotation 0 sets gravity.x to clamp(gamma/50), 90 to clamp(beta/50), −90 to clamp(−beta/50); any other rotation leaves it unchanged; the result is in [−1, 1] whenever the previous value was; a missing rotation counts as 0 and a missing angle as 0 |
| ForceInjector.LandscapeMirror | js/hero-physics.js:406-410 | the two landscape rotations give opposite horizontal gravity for the same beta |
| ForceInjector.TiltSaturates | js/hero-physics.js:400-404 | in portrait (rotation 0, whether reported or absent) a gamma of ±50 or beyond gives full gravity ±1, for any beta |
| ForceInjector.JoltForce | js/hero-physics.js:422 | the jolt strength is in [0, 0.005) |
| ForceInjector.NudgeBounds | js/hero-physics.js:427-430 | each nudge component is within [−force/2, force/2], and strictly below force/2 when the force is positive |
| ForceInjector.ApplyJitter | js/hero-physics.js:424-432 | the jolt maps the world to a world of the same length |
| ForceInjector.JitterPerBody | js/hero-physics.js:424-432 | each static body is unchanged; the k-th dynamic body in world order receives exactly one push with the k-th pair of draws |
| ForceInjector.JitterEffect | js/hero-physics.js:419-432 | after a jolt the static bodies and the dynamic count are the same; each dynamic body differs only in its accumulated force, by at most force/2 per axis |
| HeroScene.Init | js/hero-physics.js:3-21 | without the container nothing is set up; with it the state holds only the three boundaries, built from the container's clientWidth and clientHeight with the floor offset chosen by the window width (lines 39-68), the settings for the window width (line 309), the spawn period from those settings, ten pending burst spawns (lines 366-367), gravity (0, 0.8), and the initial scroll offset and width (lines 414 and 443) |
| HeroScene.OnResize | js/hero-physics.js:443-460 | a window-width change under 50 px changes nothing; otherwise the last width is updated, the boundaries are rebuilt for the container with every dynamic body kept and the old boundaries replaced, the settings are recomputed, and the spawn period stays as it was; the scene invariant is preserved |
| HeroScene.OnTilt | js/hero-physics.js:399-411 | only gravity.x changes, to the tilt mapping's value; gravity.y is never modified |
| HeroScene.OnScroll | js/hero-physics.js:414-435 | a jolt fires iff the offset moved strictly more than 5 px since the last jolt; it then nudges every dynamic body and records the new offset; otherwise nothing changes, including the recorded offset |
| HeroScene.OnInterval | js/hero-physics.js:370-378 | below the current cap a tick appends exactly the body built from its draws, keeping every existing body in place; at or above the cap it leaves the state unchanged; the scene invariant is preserved |
| HeroScene.OnBurst | js/hero-physics.js:365-368 | each of the ten scheduled burst callbacks adds one body regardless of the cap |
| HeroScene.Step | js/hero-physics.js:365-460 | every host event preserves the scene invariant and the spawn period, and never adds pending burst spawns |
| HeroScene.Run | js/hero-physics.js:365-460 | over any event sequence: the statics stay exactly the current boundaries; the settings match the last accepted width; gravity.x stays in [−1, 1] and gravity.y stays 0.8; the spawn period is fixed; the dynamic population never exceeds 200 + 10 |
| HeroScene.LifetimeBounds | js/hero-physics.js:365-378 | from page load, whatever events follow, there are at most 210 dynamic bodies and always exactly three static ones |
| DateMask.Mask | js/app.js:179-191 | the masked value contains only digits and '/', is at most 10 long, and dropping its slashes gives exactly the first min(8, n) digits of the input, in order |
| DateMask.MaskLayout | js/app.js:184-188 | 0–2 digits have no slash; 3–4 have one, at index 2; 5–8 have slashes at indices 2 and 5, and nowhere else |
| DateMask.MaskIdempotent | js/app.js:180-190 | masking the masked value returns it unchanged |
| DateMask.MaskSeesOnlyDigits | js/app.js:180 | the mask depends on the typed text only through its digits |
| Carousel.ShowSlide | js/app.js:137-148 | with at least one slide, the current slide becomes 0 for an index past the end, the last slide for a negative index, else the index; it is in range and it is the only active slide; with no slides it throws |
| Carousel.StepsAreModular | js/app.js:150-151 | from a real slide, next moves to (i+1) mod n and previous to (i−1) mod n |
| Carousel.WrapAround | js/app.js:142-143 | next from the last slide goes to 0, previous from 0 goes to the last slide |
| Carousel.PrevNextInverse | js/app.js:150-151 | on a settled carousel, previous undoes next and next undoes previous, active flags included |
| Carousel.AutoplayCycles | js/app.js:154-156 | after k autoplay ticks the current slide is (start + k) mod n |
| Navigation.RunMenu | js/app.js:13-27 | flags that start equal stay equal under any clicks, and they are equal after any sequence containing a link click, since a link click clears all three |
| Navigation.MenuOpenIffOddClicks | js/app.js:13-27 | from the closed page-load state, or from any state once a link has been clicked, the menu is wholly open exactly when an odd number of hamburger clicks followed the last link click, and wholly closed otherwise |
| Navigation.HamburgerInvolution | js/app.js:13-18 | a hamburger click toggles each flag, so two clicks restore the original flags |
| Navigation.HamburgerParity | js/app.js:13-18 | after only hamburger clicks, the flags depend only on whether their count is even |
| Navigation.NavbarFollowsLastScroll | js/app.js:29-35 | after any non-empty sequence of scroll events the class is present iff the last offset exceeds 100; the earlier state and offsets play no part |
| PortfolioFilter.ClickFilter | js/app.js:81-108 | after a click exactly the clicked button is active, and an item is shown iff the filter is 'all' or the item has that class; every other item is hidden |

## Left out

- Texture generation (`createTexture` and the four drawing routines, js/hero-physics.js:71-296) is canvas drawing with an encoded-image output. It has no stateable behaviour, so a texture is only one of four tags.
- The Matter.js engine, renderer, runner, mouse constraint and wheel-listener removal (js/hero-physics.js:7-34, 381-396, 439-441) are an external library. Integration and collisions are not modelled. A body's force is only the sum of the nudges applied to it.
- The renderer's canvas resize on window resize (js/hero-physics.js:456-457) belongs to the renderer.
- Timer semantics: `setTimeout` and `setInterval` become discrete events that may arrive in any order. Real time is not modelled. The burst is a count of pending callbacks plus the list of their delays.
- `Math.random` is replaced by draws passed in as parameters. The drone path does not consume the camera-kind draw; in the model that field is simply unused.
- The initial angle `Math.random() * 2π` is kept as a fraction of a full turn, because π is not a rational number.
- Floating-point rounding, and NaN from an `undefined` tilt angle, are not modelled. Numbers are exact reals, and a `null` angle counts as 0.
- The missing-container check inside `spawnBody` and the resize handler cannot fail once the page-load handler has gone past its own check. Only that first check is modelled (`HeroScene.Init`).
- A filter button without a `data-filter` attribute (a `null` filter value) is not modelled. Filter values are strings.
- GSAP and ScrollTrigger animations, the hero timeline, reveal effects and the media-query overlay (js/app.js:1-2, 37-75, 92-128) are animation library calls. The filter's show/hide is modelled as its final visibility only, and the ScrollTrigger refresh is left out.
- Smooth anchor scrolling (js/app.js:159-170), the WhatsApp link (js/app.js:194-214) and the video modal (js/app.js:218-257) are browser navigation, URL encoding and media playback with timed transitions.
