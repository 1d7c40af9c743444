# Planet jump simulator: a Dafny model of the jump state machine

The page lets a character jump on one of five planets. Space starts a jump,
and a per-frame `animate` callback moves the character under the chosen
planet's gravity until it lands. The readout shows the character's weight
for a mass the user types in. This project models the jump state (velocity,
position, jumping flag and the frame clock) as a class. It models the pure
parts as functions: the launch, one animation frame, the per-height visual
values, the frame delta, mass clamping and the choice of weight unit. It
proves the state machine's invariants and the behaviour of each operation.
JavaScript numbers become `real`.

Modules:

- `Planets` (planets.dfy): the gravity catalogue and the weight product.
- `JumpMachine` (jump.dfy): the Grounded/Airborne machine as functions on a
  `Jump` value: `Launch` (startJump), `Step` (the jumping part of one animate
  call), `Reset` (resetJump) and `Run` (a sequence of frames). It holds the
  lemmas about them, including a closed form for the flight and a proof that
  every jump lands.
- `Animation` (animation.dfy): the capped frame delta and the offset, shadow and
  brightness values a frame draws.
- `Readout` (readout.dfy): `parseFloat(...) || x`, the mass clamp and
  formatNewton's choice of unit.
- `App` (app.dfy): class `AppState` with the fields the page mutates. Its methods
  `StartJump`, `ResetJump`, `Animate`, `HandlePlanetChange`, `ClampMass` and
  `InputMass` each state their new state through the functions above.

Conventions taken from the code: positions are metres with up negative, so 0
is the ground. Timestamps are milliseconds. The delta is in seconds, capped at
0.05. An animation frame uses semi-implicit Euler: it updates the velocity
first and then moves the position with the new velocity. Landing is
`position >= 0`.

The launch is 4.8 m/s scaled by `sqrt(earthGravity / g)`. Each frame takes one
Euler step, and no frame integrates more than 0.05 s. The shadow scale is
`max(0.55, 1 - h/6)` and the brightness `1 + h/10`, for a height of h metres.

`Math.sqrt` is a library call with no body in the model. `StartJump` takes its
result as the parameter `scale`, and `IsVelocityScale` says what that value
is: the non-negative square root of `earthGravity / g`. `EarthLaunchVelocity`
shows that on Earth the scale is 1, so the launch velocity is exactly -4.8.

One edge case falls out of the proofs (`ZeroDeltaCancelsFreshJump`). A jump
started from the ground and followed by a frame with zero delta is cancelled
at once, because the position stays at 0 and 0 counts as landed. That frame
can be the very first one or repeat the previous timestamp.

## Model

| member | source | states |
|---|---|---|
| `Planets.Gravity` | script.js:1-37 | every catalogue gravity lies in [1.62, 24.79], so it is positive; Earth is 9.81 and no other planet has that value |
| `Planets.Weight` | script.js:74 | a positive mass has a positive weight, heavier than on Earth exactly on planets with stronger gravity and lighter on weaker ones |
| `Planets.WeightRelativeToEarth` | script.js:79-81 | weight on a planet is Earth weight times the relative gravity g / earthGravity |
| `JumpMachine.LaunchVelocity` | script.js:128-130 | the launch velocity -4.8 * sqrt(earthGravity / g) points up (is negative) and keeps velocity^2 * g at its Earth value |
| `JumpMachine.EarthLaunchVelocity` | script.js:39-40 | on Earth the sqrt scale is 1 and the launch velocity is exactly -4.8 |
| `JumpMachine.StrongerGravitySlowerLaunch` | script.js:128-130 | stronger gravity gives a strictly slower launch |
| `JumpMachine.Launch` | script.js:125-131 | startJump leaves a jumping state unchanged, otherwise sets jumping with the launch velocity and keeps the position |
| `JumpMachine.LaunchIdempotent` | script.js:126 | starting a jump twice equals starting it once |
| `JumpMachine.LaunchFromGround` | script.js:125-131 | from the grounded state the launch gives position 0, jumping, strictly negative velocity |
| `JumpMachine.Reset` | script.js:116-119 | resetJump yields position 0, velocity 0, not jumping, which satisfies the invariant |
| `JumpMachine.Step` | script.js:142-148 | a frame without a jump changes nothing; a frame that leaves the character jumping leaves it strictly below ground; it lands exactly when the integrated position is no longer negative, into the grounded state |
| `JumpMachine.StepPreservesInv` | script.js:142-148 | a frame keeps position <= 0 and "not jumping means grounded at rest" |
| `JumpMachine.StepIsSemiImplicitEuler` | script.js:143-144 | in flight the new velocity is v + g*delta and the new position is the exact constant-acceleration position plus g*delta^2/2 (the new velocity moves the position) |
| `JumpMachine.StepVelocityNonDecreasing` | script.js:143 | with g > 0 and delta >= 0 the velocity never decreases in flight |
| `JumpMachine.ZeroDeltaCancelsFreshJump` | script.js:139-147 | a zero-length frame right after a launch from the ground lands the character |
| `JumpMachine.Run` | script.js:135-157 | after at least one frame, a character still jumping is strictly below ground |
| `JumpMachine.RunPreservesInv` | script.js:135-157 | any sequence of frames keeps the invariant, so the character never rises above ground |
| `JumpMachine.RunFromGround` | script.js:142 | frames alone never take a grounded character off the ground |
| `JumpMachine.FlightClosedForm` | script.js:143-144 | after k equal frames in flight, velocity is v0 + k*g*delta and position is p0 + k*delta*v0 + g*delta^2*k(k+1)/2 |
| `JumpMachine.LandsEventually` | script.js:142-147 | with g > 0 and any fixed positive frame length, every jump is back in the grounded state after finitely many frames |
| `Animation.FrameDelta` | script.js:136-140 | the delta is the elapsed time in seconds capped at 0.05, never more than the elapsed time, and 0 on the first frame |
| `Animation.FrameDeltaBounds` | script.js:136-140 | with timestamps that do not go backwards every delta lies in [0, 0.05] |
| `Animation.ShadowScale` | script.js:151 | the shadow scale is max(0.55, 1 - h/6), at least 0.55 and for h >= 0 at most 1 |
| `Animation.Brightness` | script.js:153 | brightness is at least 1 at any height h >= 0 |
| `Animation.AirborneVisual` | script.js:149-153 | for a position at or below ground: offset <= 0, shadow scale in [0.55, 1], brightness >= 1 |
| `Animation.ShadowShrinksWithHeight` | script.js:151 | the shadow does not grow as height increases |
| `Animation.BrightnessGrowsWithHeight` | script.js:153 | brightness strictly increases with height |
| `Animation.ShadowFloorHeight` | script.js:151 | the shadow is at its 0.55 floor exactly from 2.7 m up |
| `Animation.AirborneVisualAtGround` | script.js:120-122 | the airborne values at height 0 equal what resetJump draws |
| `Animation.FrameVisual` | script.js:142-155 | a frame draws nothing exactly when no jump was in flight, the grounded values on landing, and in-range values in flight |
| `Readout.ParsedOr` | script.js:175 | JavaScript's parseFloat-or-fallback gives the number unless it is NaN or zero, then the fallback; a non-zero fallback never yields a zero mass |
| `Readout.LiveInputAgreesWithClamp` | script.js:103-114 | for a parsed mass in (0, 300] the live handler and the committed clamp give the same mass, whatever the previous mass was |
| `Readout.ClampedMass` | script.js:103-114 | the committed mass lies in (0, 300]: 70 for no number or one <= 0, the value itself in (0, 300], 300 above |
| `Readout.ClampIdempotent` | script.js:103-114 | clamping an already clamped mass gives it back |
| `Readout.FormatNewton` | script.js:60-66 | kN is chosen exactly when the value is >= 1000, and the number shown, read in its unit, is the value |
| `Readout.WeightUnitThreshold` | script.js:60-74 | for any mass, including the negative ones the live input keeps, the readout is in kN exactly when mass >= 1000 / g |
| `App.AppState.constructor` | script.js:52-58 | the initial state is Earth, mass parsed from the input or else 70, grounded at rest, no previous timestamp |
| `App.AppState.StartJump` | script.js:125-131 | the new jump state is Launch of the old; a jumping state is unchanged; from the ground it moves up; the invariant is kept |
| `App.AppState.ResetJump` | script.js:116-123 | the state becomes grounded at rest and the grounded visual values are drawn |
| `App.AppState.Animate` | script.js:135-155 | lastTimestamp becomes the timestamp; the jump state becomes Step of the old with the planet's gravity and FrameDelta; still jumping implies below ground; the drawn values are FrameVisual; the invariant is kept |
| `App.AppState.HandlePlanetChange` | script.js:160-166 | the planet is the new one and the character is grounded at rest |
| `App.AppState.ClampMass` | script.js:103-114 | the mass becomes ClampedMass of the parsed input, in (0, 300] |
| `App.AppState.InputMass` | script.js:174-177 | the mass becomes the parsed number, or stays as it was when the parse is NaN or zero; a non-zero mass stays non-zero |
| `App.EarthGravityScale` | script.js:129 | on Earth, 1 is the square root Math.sqrt returns for earthGravity / gravity |

## Left out

- DOM reads and writes (element lookups, `style.transform`/`filter`/`background`, `innerHTML` templates, `updateBackground`, `updateFacts`, `updateReadout` text): they render; the model returns the numeric visual values a frame draws instead (`Visual`).
- Event wiring and `requestAnimationFrame` self-scheduling: browser plumbing; one `Animate(timestamp)` call stands for one frame, and `Run` for a sequence of frames.
- `parseFloat`, NaN and infinities: a parse is an `Option<real>` with `None` for NaN; infinite inputs (which `Number.isFinite` sends to 70 in clampMassInput but `||` keeps in the live handler) are not modelled, since `real` has no infinities.
- Rewriting the mass input box in clampMassInput (`massInput.value = ...`): a DOM write; only the committed `mass` is modelled.
- `toFixed` rounding (shadow scale to 2 places, readout to 1 or 2 places) and formatNewton's `'—'` text for non-finite values: text formatting; `FormatNewton` models only the numeric branch and the unit.
- `Math.sqrt`: a library call; `StartJump` takes its result as the parameter `scale` constrained by `IsVelocityScale`.
- Floating-point rounding: arithmetic is exact over `real`.
- Planet names, descriptions and scene colour variables: display metadata; only gravity matters.
