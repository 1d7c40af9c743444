/**
 * The two-state jump machine (Grounded / Airborne) as pure functions over the
 * jump part of the application state: the launch, one animation frame of
 * semi-implicit Euler integration with landing detection, and the reset.
 * Positions are metres with "up" negative, so 0 is the ground and every
 * airborne position is below zero.
 */
module JumpMachine {
  import opened Wrappers
  import opened Planets

  /** Launch speed on Earth, in m/s. */
  const BaseJumpVelocity: real := 4.8
  /** Largest time step one frame may integrate, in seconds. */
  const MaxDelta: real := 0.05

  datatype Jump = Jump(velocity: real, position: real, jumping: bool)

  /** The state the character rests in: on the ground, not moving. */
  const Grounded: Jump := Jump(0.0, 0.0, false)

  /**
   * The state-machine invariant: never above the ground, and a character that
   * is not jumping is exactly at rest on the ground.
   */
  predicate Inv(j: Jump) {
    j.position <= 0.0 && (!j.jumping ==> j == Grounded)
  }

  /** `scale` is the square root of EarthGravity / g, as Math.sqrt returns it. */
  predicate IsVelocityScale(g: real, scale: real)
    requires g > 0.0
  {
    scale >= 0.0 && scale * scale == EarthGravity / g
  }

  /**
   * The launch velocity for gravity g: upwards (negative), and with
   * velocity^2 * g held at its Earth value, so weaker gravity gives a faster
   * launch.
   */
  function LaunchVelocity(g: real, scale: real): (v: real)
    requires g > 0.0 && IsVelocityScale(g, scale)
    ensures v < 0.0
    ensures v * v * g == BaseJumpVelocity * BaseJumpVelocity * EarthGravity
  {
    assert (scale * scale) * g == EarthGravity;
    -BaseJumpVelocity * scale
  }

  /** On Earth the scale is 1, so the launch velocity is exactly -4.8 m/s. */
  lemma EarthLaunchVelocity(scale: real)
    requires IsVelocityScale(EarthGravity, scale)
    ensures scale == 1.0
    ensures LaunchVelocity(EarthGravity, scale) == -BaseJumpVelocity
  {
    assert EarthGravity / EarthGravity == 1.0;
    UnitSquareRoot(scale);
  }

  /** The only non-negative square root of 1 is 1. */
  lemma UnitSquareRoot(x: real)
    requires x >= 0.0 && x * x == 1.0
    ensures x == 1.0
  {
    assert (x - 1.0) * (x + 1.0) == 0.0;
    assert x + 1.0 > 0.0;
  }

  /** A planet with stronger gravity gives a strictly slower launch. */
  lemma StrongerGravitySlowerLaunch(g1: real, s1: real, g2: real, s2: real)
    requires 0.0 < g1 < g2
    requires IsVelocityScale(g1, s1) && IsVelocityScale(g2, s2)
    ensures LaunchVelocity(g1, s1) < LaunchVelocity(g2, s2) < 0.0
  {
    assert EarthGravity / g2 < EarthGravity / g1 by {
      assert EarthGravity / g2 * g2 == EarthGravity == EarthGravity / g1 * g1;
    }
    assert s2 * s2 < s1 * s1;
    if s1 <= s2 {
      assert s1 * s1 <= s1 * s2 <= s2 * s2;
    }
  }

  /**
   * startJump: ignored while a jump is in flight; otherwise the character
   * takes off with the launch velocity (the position is left as it is).
   */
  function Launch(j: Jump, g: real, scale: real): (r: Jump)
    requires g > 0.0 && IsVelocityScale(g, scale)
    ensures j.jumping ==> r == j
    ensures r.jumping && r.position == j.position
    ensures !j.jumping ==> r.velocity == LaunchVelocity(g, scale)
  {
    if j.jumping then j else Jump(LaunchVelocity(g, scale), j.position, true)
  }

  /** A second trigger before any frame changes nothing. */
  lemma LaunchIdempotent(j: Jump, g: real, scale: real)
    requires g > 0.0 && IsVelocityScale(g, scale)
    ensures Launch(Launch(j, g, scale), g, scale) == Launch(j, g, scale)
  {
  }

  /** From the ground the launch gives a jump at ground level moving up. */
  lemma LaunchFromGround(j: Jump, g: real, scale: real)
    requires Inv(j) && !j.jumping
    requires g > 0.0 && IsVelocityScale(g, scale)
    ensures Launch(j, g, scale) == Jump(LaunchVelocity(g, scale), 0.0, true)
    ensures Launch(j, g, scale).velocity < 0.0
  {
  }

  /** resetJump: back on the ground at rest, whatever the state was. */
  function Reset(j: Jump): (r: Jump)
    ensures Inv(r) && !r.jumping
    ensures r.position == 0.0 && r.velocity == 0.0
  {
    Grounded
  }

  /**
   * The jumping part of one animation frame: velocity is updated first and
   * the new velocity moves the position (semi-implicit Euler); reaching or
   * passing the ground lands the character.
   */
  function Step(j: Jump, g: real, delta: real): (r: Jump)
    ensures !j.jumping ==> r == j
    ensures r.jumping ==> r.position < 0.0
    ensures j.jumping && !r.jumping ==> r == Grounded
    ensures j.jumping ==> (r.jumping <==> j.position + (j.velocity + g * delta) * delta < 0.0)
  {
    if !j.jumping then j
    else
      var v := j.velocity + g * delta;
      var p := j.position + v * delta;
      if p >= 0.0 then Reset(j) else Jump(v, p, true)
  }

  /** A frame keeps the state-machine invariant. */
  lemma StepPreservesInv(j: Jump, g: real, delta: real)
    requires Inv(j)
    ensures Inv(Step(j, g, delta))
  {
  }

  /**
   * The frame's integration scheme, compared with the exact constant-
   * acceleration motion over the same step: velocity agrees, and the position
   * ends an extra g*delta^2/2 further down the axis (towards the ground).
   */
  lemma StepIsSemiImplicitEuler(j: Jump, g: real, delta: real)
    requires j.jumping && Step(j, g, delta).jumping
    ensures Step(j, g, delta).velocity == j.velocity + g * delta
    ensures Step(j, g, delta).position
         == (j.position + j.velocity * delta + g * delta * delta / 2.0) + g * delta * delta / 2.0
  {
  }

  /** With positive gravity and a non-negative step, velocity never decreases in flight. */
  lemma StepVelocityNonDecreasing(j: Jump, g: real, delta: real)
    requires j.jumping && Step(j, g, delta).jumping
    requires g > 0.0 && delta >= 0.0
    ensures Step(j, g, delta).velocity >= j.velocity
  {
  }

  /**
   * A zero-length frame right after a launch from the ground lands the
   * character at once: the position stays at 0, which counts as landed. This
   * is what happens to a jump triggered before the very first frame.
   */
  lemma ZeroDeltaCancelsFreshJump(j: Jump, g: real, scale: real)
    requires Inv(j) && !j.jumping
    requires g > 0.0 && IsVelocityScale(g, scale)
    ensures Step(Launch(j, g, scale), g, 0.0) == Grounded
  {
  }

  /** Successive frames, applied in order. */
  function Run(j: Jump, g: real, deltas: seq<real>): (r: Jump)
    ensures deltas != [] && r.jumping ==> r.position < 0.0
    decreases |deltas|
  {
    if deltas == [] then j
    else Step(Run(j, g, deltas[..|deltas| - 1]), g, deltas[|deltas| - 1])
  }

  /** Any number of frames keeps the invariant: the character never rises above ground. */
  lemma {:induction false} RunPreservesInv(j: Jump, g: real, deltas: seq<real>)
    requires Inv(j)
    ensures Inv(Run(j, g, deltas))
    decreases |deltas|
  {
    if deltas != [] {
      RunPreservesInv(j, g, deltas[..|deltas| - 1]);
      StepPreservesInv(Run(j, g, deltas[..|deltas| - 1]), g, deltas[|deltas| - 1]);
    }
  }

  /** Landed is absorbing: once on the ground, more frames leave it there. */
  lemma {:induction false} RunFromGround(g: real, deltas: seq<real>)
    ensures Run(Grounded, g, deltas) == Grounded
    decreases |deltas|
  {
    if deltas != [] {
      RunFromGround(g, deltas[..|deltas| - 1]);
    }
  }

  /** n frames of the same length. */
  function Repeat(delta: real, n: nat): seq<real> {
    seq(n, _ => delta)
  }

  /** Velocity after k equal frames of flight. */
  function FlightVelocity(j: Jump, g: real, delta: real, k: nat): real {
    j.velocity + (k as real) * g * delta
  }

  /** Position after k equal frames of flight: the semi-implicit Euler sum in closed form. */
  function FlightPosition(j: Jump, g: real, delta: real, k: nat): real {
    j.position + (k as real) * delta * j.velocity
      + g * delta * delta * ((k as real) * ((k as real) + 1.0)) / 2.0
  }

  /** A jump still in flight after k equal frames is on its closed-form trajectory. */
  lemma {:induction false} FlightClosedForm(j: Jump, g: real, delta: real, k: nat)
    requires j.jumping
    requires Run(j, g, Repeat(delta, k)).jumping
    ensures Run(j, g, Repeat(delta, k))
         == Jump(FlightVelocity(j, g, delta, k), FlightPosition(j, g, delta, k), true)
  {
    if k > 0 {
      RunRepeatLast(j, g, delta, k);
      var prev := Run(j, g, Repeat(delta, k - 1));
      assert prev.jumping;
      FlightClosedForm(j, g, delta, k - 1);
      ExtendFlight(j, g, delta, k, prev);
    } else {
      assert Repeat(delta, 0) == [];
      assert FlightVelocity(j, g, delta, 0) == j.velocity;
      assert FlightPosition(j, g, delta, 0) == j.position;
    }
  }

  /** The last of k equal frames is one step after the first k - 1. */
  lemma RunRepeatLast(j: Jump, g: real, delta: real, k: nat)
    requires k > 0
    ensures Run(j, g, Repeat(delta, k)) == Step(Run(j, g, Repeat(delta, k - 1)), g, delta)
  {
    assert Repeat(delta, k)[..k - 1] == Repeat(delta, k - 1);
  }

  /** A frame that does not land moves the closed-form trajectory on by one frame. */
  lemma ExtendFlight(j: Jump, g: real, delta: real, k: nat, prev: Jump)
    requires k > 0
    requires prev == Jump(FlightVelocity(j, g, delta, k - 1), FlightPosition(j, g, delta, k - 1), true)
    requires Step(prev, g, delta).jumping
    ensures Step(prev, g, delta)
         == Jump(FlightVelocity(j, g, delta, k), FlightPosition(j, g, delta, k), true)
  {
    var K := k as real;
    assert (k - 1) as real == K - 1.0;
    FlightArithmetic(j.position, j.velocity, g, delta, K);
  }

  /** The arithmetic of one more frame on the closed-form trajectory. */
  lemma FlightArithmetic(p0: real, v0: real, g: real, d: real, K: real)
    ensures v0 + (K - 1.0) * g * d + g * d == v0 + K * g * d
    ensures p0 + (K - 1.0) * d * v0 + g * d * d * ((K - 1.0) * ((K - 1.0) + 1.0)) / 2.0
              + (v0 + K * g * d) * d
         == p0 + K * d * v0 + g * d * d * (K * (K + 1.0)) / 2.0
  {
    var e := g * d * d;
    assert (K - 1.0) * g * d + g * d == K * g * d;
    assert (v0 + K * g * d) * d == d * v0 + K * e;
    assert (K - 1.0) * ((K - 1.0) + 1.0) + 2.0 * K == K * (K + 1.0);
    assert e * ((K - 1.0) * ((K - 1.0) + 1.0)) / 2.0 + K * e == e * (K * (K + 1.0)) / 2.0;
    assert (K - 1.0) * d * v0 + d * v0 == K * d * v0;
  }

  /**
   * Every jump lands: with positive gravity and frames of any fixed positive
   * length, the character is back on the ground after n frames.
   */
  lemma LandsEventually(j: Jump, g: real, delta: real) returns (n: nat)
    requires Inv(j) && g > 0.0 && delta > 0.0
    ensures Run(j, g, Repeat(delta, n)) == Grounded
  {
    if !j.jumping {
      n := 0;
      return;
    }
    n := FramesToGround(j, g, delta);
    var r := Run(j, g, Repeat(delta, n));
    assert |Repeat(delta, n)| == n;
    if r.jumping {
      FlightClosedForm(j, g, delta, n);
      assert false;
    }
    RunPreservesInv(j, g, Repeat(delta, n));
  }

  /**
   * A number of equal frames after which the closed-form position is at or
   * below the ground line again.
   */
  lemma FramesToGround(j: Jump, g: real, delta: real) returns (n: nat)
    requires j.position <= 0.0 && g > 0.0 && delta > 0.0
    ensures n > 0 && FlightPosition(j, g, delta, n) >= 0.0
  {
    var a := -j.position / delta;
    var b := 2.0 * (1.0 - j.velocity) / (g * delta);
    assert a >= 0.0;
    var m := if a.Floor >= b.Floor then a.Floor else b.Floor;
    n := m + 1;
    var N := n as real;
    assert N > a && N + 1.0 > b;
    // enough frames to cover the starting height, and enough for gravity to
    // turn the average frame velocity downwards by at least 1 m/s
    ScaledBound(delta, -j.position, N);
    ScaledBound(g * delta, 2.0 * (1.0 - j.velocity), N + 1.0);
    var rate := j.velocity + g * delta * (N + 1.0) / 2.0;
    assert rate >= 1.0;
    FlightPositionFactored(j, g, delta, n);
    assert N * delta * rate >= N * delta * 1.0;
    assert FlightPosition(j, g, delta, n) >= 0.0;
  }

  /** If N is at least t / c for positive c, then N * c is at least t. */
  lemma ScaledBound(c: real, t: real, N: real)
    requires c > 0.0 && N >= t / c
    ensures N * c >= t
  {
  }

  /** The closed-form position, factored as start plus frames times average frame velocity. */
  lemma FlightPositionFactored(j: Jump, g: real, delta: real, k: nat)
    ensures FlightPosition(j, g, delta, k)
         == j.position + (k as real) * delta * (j.velocity + g * delta * ((k as real) + 1.0) / 2.0)
  {
  }
}
