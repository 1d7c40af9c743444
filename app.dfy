/**
 * The page's mutable state: the module-level `state` record (planet, mass,
 * velocity, position, jumping) together with the `lastTimestamp` of the
 * frame loop, and the handlers that change them. Each method is tied to the
 * pure definition of what it does; the DOM writes a handler makes are
 * returned as values.
 */
module App {
  import opened Wrappers
  import opened Planets
  import opened JumpMachine
  import opened Animation
  import opened Readout

  class AppState {
    var planet: Planet
    var mass: real
    var velocity: real
    var position: real
    var jumping: bool
    var lastTimestamp: Option<real>

    /** The jump part of the state. */
    function JumpState(): Jump
      reads this
    {
      Jump(velocity, position, jumping)
    }

    /** The state-machine invariant holds of the jump part. */
    predicate Valid()
      reads this
    {
      Inv(JumpState())
    }

    /**
     * Page load: Earth, the mass from the input (`|| 70`), standing still on
     * the ground, no frame seen yet.
     */
    constructor (parsedMass: Option<real>)
      ensures Valid()
      ensures planet == Earth && mass == ParsedOr(parsedMass, DefaultMass)
      ensures JumpState() == Grounded && lastTimestamp == None
    {
      planet := Earth;
      mass := ParsedOr(parsedMass, DefaultMass);
      velocity := 0.0;
      position := 0.0;
      jumping := false;
      lastTimestamp := None;
    }

    /**
     * startJump, with `scale` the value of Math.sqrt(earthGravity / gravity):
     * ignored while jumping, otherwise a launch with the scaled velocity.
     */
    method StartJump(scale: real)
      requires Valid() && IsVelocityScale(Gravity(planet), scale)
      modifies this`velocity, this`jumping
      ensures Valid()
      ensures JumpState() == Launch(old(JumpState()), Gravity(planet), scale)
      ensures old(jumping) ==> JumpState() == old(JumpState())
      ensures !old(jumping) ==> jumping && position == 0.0 && velocity < 0.0
    {
      if jumping {
        return;
      }
      jumping := true;
      velocity := -BaseJumpVelocity * scale;
    }

    /** resetJump: back on the ground at rest; returns the values it draws. */
    method ResetJump() returns (drawn: Visual)
      modifies this`position, this`velocity, this`jumping
      ensures Valid()
      ensures JumpState() == Reset(old(JumpState())) && JumpState() == Grounded
      ensures drawn == GroundVisual
    {
      position := 0.0;
      velocity := 0.0;
      jumping := false;
      drawn := GroundVisual;
    }

    /**
     * animate: one frame at `timestamp` (milliseconds). Records the
     * timestamp, integrates the jump over the capped delta and lands it if it
     * reached the ground; returns what the frame draws (None when no jump is
     * in flight and nothing is drawn).
     */
    method Animate(timestamp: real) returns (drawn: Option<Visual>)
      requires Valid()
      modifies this`velocity, this`position, this`jumping, this`lastTimestamp
      ensures Valid()
      ensures lastTimestamp == Some(timestamp)
      ensures JumpState()
           == Step(old(JumpState()), Gravity(planet), FrameDelta(old(lastTimestamp), timestamp))
      ensures jumping ==> position < 0.0
      ensures !old(jumping) ==> JumpState() == old(JumpState())
      ensures drawn == FrameVisual(old(JumpState()), JumpState())
    {
      if lastTimestamp == None {
        lastTimestamp := Some(timestamp);
      }
      var elapsed := (timestamp - lastTimestamp.value) / 1000.0;
      var delta := if elapsed <= MaxDelta then elapsed else MaxDelta;
      lastTimestamp := Some(timestamp);

      drawn := None;
      if jumping {
        velocity := velocity + Gravity(planet) * delta;
        position := position + velocity * delta;

        if position >= 0.0 {
          var ground := ResetJump();
          drawn := Some(ground);
        } else {
          drawn := Some(AirborneVisual(position));
        }
      }
    }

    /**
     * handlePlanetChange: switch planet and put the character back on the
     * ground; the frame clock is left alone.
     */
    method HandlePlanetChange(p: Planet) returns (drawn: Visual)
      modifies this`planet, this`position, this`velocity, this`jumping
      ensures Valid()
      ensures planet == p && JumpState() == Grounded
      ensures drawn == GroundVisual
    {
      planet := p;
      drawn := ResetJump();
    }

    /** clampMassInput: commit the mass input, clamped into (0, MaxMass]. */
    method ClampMass(parsed: Option<real>)
      modifies this`mass
      ensures mass == ClampedMass(parsed)
      ensures 0.0 < mass <= MaxMass
    {
      if parsed == None || parsed.value <= 0.0 {
        mass := DefaultMass;
      } else {
        mass := if parsed.value <= MaxMass then parsed.value else MaxMass;
      }
    }

    /** The live mass input handler: `parseFloat(text) || state.mass`. */
    method InputMass(parsed: Option<real>)
      modifies this`mass
      ensures mass == ParsedOr(parsed, old(mass))
      ensures old(mass) != 0.0 ==> mass != 0.0
    {
      mass := ParsedOr(parsed, mass);
    }
  }

  /** On Earth, Math.sqrt(earthGravity / gravity) is 1. */
  lemma EarthGravityScale()
    ensures IsVelocityScale(Gravity(Earth), 1.0)
  {
  }
}
