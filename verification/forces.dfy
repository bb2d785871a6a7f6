/** Device tilt to horizontal gravity, and scroll to random per-body nudges. */
module ForceInjector {
  import opened Common
  import opened Bodies

  const TiltDivisor: real := 50.0
  const ScrollThreshold: real := 5.0
  const MaxJolt: real := 0.005

  /** `Math.max(-1, Math.min(1, v))`. */
  function Clamp(v: real): (c: real)
    ensures -1.0 <= c <= 1.0
    ensures -1.0 <= v <= 1.0 ==> c == v
    ensures v > 1.0 ==> c == 1.0
    ensures v < -1.0 ==> c == -1.0
  {
    Max(-1.0, Min(1.0, v))
  }

  /** A tilt angle as used in arithmetic: a missing (`null`) angle counts as 0. */
  function AngleOrZero(angle: Option<real>): real {
    if angle.Some? then angle.value else 0.0
  }

  /** `window.orientation || 0`: an absent screen rotation reads as 0. */
  function ScreenRotation(orientation: Option<int>): int {
    if orientation.Some? then orientation.value else 0
  }

  /** The new horizontal gravity after a device-orientation event, given the
      current one. Portrait uses the left/right tilt (gamma), landscape the
      forward/back tilt (beta), sign-flipped at -90; other rotations leave it. */
  function TiltGravityX(gravityX: real, orientation: Option<int>, beta: Option<real>, gamma: Option<real>): (r: real)
    ensures -1.0 <= gravityX <= 1.0 ==> -1.0 <= r <= 1.0
    ensures ScreenRotation(orientation) !in {0, 90, -90} ==> r == gravityX
    ensures ScreenRotation(orientation) in {0, 90, -90} ==> -1.0 <= r <= 1.0
    ensures ScreenRotation(orientation) == 0 ==> r == Clamp(AngleOrZero(gamma) / 50.0)
    ensures ScreenRotation(orientation) == 90 ==> r == Clamp(AngleOrZero(beta) / 50.0)
    ensures ScreenRotation(orientation) == -90 ==> r == Clamp(-AngleOrZero(beta) / 50.0)
    ensures ScreenRotation(orientation) == 0 && -50.0 <= AngleOrZero(gamma) <= 50.0 ==>
              r * TiltDivisor == AngleOrZero(gamma)
  {
    var rotation := ScreenRotation(orientation);
    if rotation == 0 then Clamp(AngleOrZero(gamma) / TiltDivisor)
    else if rotation == 90 then Clamp(AngleOrZero(beta) / TiltDivisor)
    else if rotation == -90 then Clamp(-AngleOrZero(beta) / TiltDivisor)
    else gravityX
  }

  /** The two landscape rotations pull in mirrored directions. */
  lemma LandscapeMirror(gravityX: real, beta: Option<real>, gamma: Option<real>)
    ensures TiltGravityX(gravityX, Some(90), beta, gamma) == -TiltGravityX(gravityX, Some(-90), beta, gamma)
  {
  }

  /** In portrait (rotation 0, reported or absent), a left/right tilt of 50
      degrees or more saturates gravity at full strength, whatever beta is. */
  lemma TiltSaturates(gravityX: real, orientation: Option<int>, beta: Option<real>, gamma: real)
    requires ScreenRotation(orientation) == 0
    ensures gamma >= 50.0 ==> TiltGravityX(gravityX, orientation, beta, Some(gamma)) == 1.0
    ensures gamma <= -50.0 ==> TiltGravityX(gravityX, orientation, beta, Some(gamma)) == -1.0
  {
  }

  /** The scroll handler's gate: strictly more than 5 pixels since the last jolt. */
  predicate ScrollTriggers(lastScrollTop: real, scrollTop: real) {
    Abs(scrollTop - lastScrollTop) > ScrollThreshold
  }

  /** The jolt strength drawn once per triggering scroll, in [0, 0.005). */
  function JoltForce(draw: real): (f: real)
    requires Unit(draw)
    ensures 0.0 <= f < MaxJolt
  {
    MaxJolt * draw
  }

  /** One nudge component, `(draw - 0.5) * force`. */
  function Nudge(force: real, draw: real): real {
    (draw - 0.5) * force
  }

  /** A nudge is within half the force either way (strictly below on the
      positive side unless the force is zero). */
  lemma NudgeBounds(force: real, draw: real)
    requires 0.0 <= force && Unit(draw)
    ensures -force / 2.0 <= Nudge(force, draw) <= force / 2.0
    ensures force > 0.0 ==> Nudge(force, draw) < force / 2.0
  {
    assert draw * force <= force by {
      assert (1.0 - draw) * force >= 0.0;
    }
    if force > 0.0 {
      assert (1.0 - draw) * force > 0.0;
    }
  }

  /** A source of nudge draws: pairs in [0, 1) for as many bodies as needed. */
  ghost predicate ValidNudges(nudges: nat -> (real, real)) {
    forall k: nat :: Unit(nudges(k).0) && Unit(nudges(k).1)
  }

  /** `Matter.Body.applyForce` with one nudge pair. */
  function Push(b: Body, force: real, pair: (real, real)): Body {
    b.(forceX := b.forceX + Nudge(force, pair.0), forceY := b.forceY + Nudge(force, pair.1))
  }

  /** The `forEach` over all bodies: each dynamic body, in world order, takes the
      next pair of draws starting at `next`; static bodies are skipped. */
  function ApplyJitter(bodies: seq<Body>, force: real, nudges: nat -> (real, real), next: nat): (r: seq<Body>)
    ensures |r| == |bodies|
    decreases |bodies|
  {
    if |bodies| == 0 then []
    else if bodies[0].isStatic then [bodies[0]] + ApplyJitter(bodies[1..], force, nudges, next)
    else [Push(bodies[0], force, nudges(next))] + ApplyJitter(bodies[1..], force, nudges, next + 1)
  }

  /** The number of dynamic bodies strictly before position i. */
  function Rank(bodies: seq<Body>, i: nat): nat
    requires i <= |bodies|
  {
    |Dynamics(bodies[..i])|
  }

  lemma RankStep(bodies: seq<Body>, i: nat)
    requires 0 < i <= |bodies|
    ensures Rank(bodies, i) == (if bodies[0].isStatic then 0 else 1) + Rank(bodies[1..], i - 1)
  {
    assert bodies[..i][1..] == bodies[1..][..i - 1];
  }

  /** What the jolt does to the body at position i. */
  lemma {:induction false} JitterAt(bodies: seq<Body>, force: real, nudges: nat -> (real, real), next: nat, i: nat)
    requires i < |bodies|
    ensures ApplyJitter(bodies, force, nudges, next)[i] ==
      if bodies[i].isStatic then bodies[i] else Push(bodies[i], force, nudges(next + Rank(bodies, i)))
    decreases i
  {
    var next' := if bodies[0].isStatic then next else next + 1;
    var tail := ApplyJitter(bodies[1..], force, nudges, next');
    if i == 0 {
      assert bodies[..0] == [];
    } else {
      assert ApplyJitter(bodies, force, nudges, next)[i] == tail[i - 1];
      assert bodies[i] == bodies[1..][i - 1];
      JitterAt(bodies[1..], force, nudges, next', i - 1);
      RankStep(bodies, i);
    }
  }

  /** Each dynamic body receives exactly one push, with its own pair of draws
      (the k-th dynamic body the k-th pair); static bodies are untouched. */
  lemma JitterPerBody(bodies: seq<Body>, force: real, nudges: nat -> (real, real), next: nat)
    ensures forall i :: 0 <= i < |bodies| ==>
      ApplyJitter(bodies, force, nudges, next)[i] ==
        if bodies[i].isStatic then bodies[i] else Push(bodies[i], force, nudges(next + Rank(bodies, i)))
  {
    forall i | 0 <= i < |bodies|
      ensures ApplyJitter(bodies, force, nudges, next)[i] ==
        if bodies[i].isStatic then bodies[i] else Push(bodies[i], force, nudges(next + Rank(bodies, i)))
    {
      JitterAt(bodies, force, nudges, next, i);
    }
  }

  /** The jolt keeps the static bodies and the dynamic population, and moves
      every dynamic body's accumulated force by at most half the jolt per axis. */
  lemma {:induction false} JitterEffect(bodies: seq<Body>, force: real, nudges: nat -> (real, real), next: nat)
    requires 0.0 <= force && ValidNudges(nudges)
    ensures var r := ApplyJitter(bodies, force, nudges, next);
      && Statics(r) == Statics(bodies)
      && |Dynamics(r)| == |Dynamics(bodies)|
      && forall i :: 0 <= i < |bodies| && !bodies[i].isStatic ==>
           && !r[i].isStatic
           && r[i] == bodies[i].(forceX := r[i].forceX, forceY := r[i].forceY)
           && -force / 2.0 <= r[i].forceX - bodies[i].forceX <= force / 2.0
           && -force / 2.0 <= r[i].forceY - bodies[i].forceY <= force / 2.0
    decreases |bodies|
  {
    var r := ApplyJitter(bodies, force, nudges, next);
    JitterPerBody(bodies, force, nudges, next);
    forall i | 0 <= i < |bodies| && !bodies[i].isStatic
      ensures -force / 2.0 <= r[i].forceX - bodies[i].forceX <= force / 2.0
      ensures -force / 2.0 <= r[i].forceY - bodies[i].forceY <= force / 2.0
    {
      var k := next + Rank(bodies, i);
      NudgeBounds(force, nudges(k).0);
      NudgeBounds(force, nudges(k).1);
    }
    if |bodies| > 0 {
      var next' := if bodies[0].isStatic then next else next + 1;
      JitterEffect(bodies[1..], force, nudges, next');
      assert r == [r[0]] + ApplyJitter(bodies[1..], force, nudges, next');
    }
  }
}
