/**
 * The frame delta taken from the animation clock, and the per-height visual
 * values written during a jump: vertical offset, shadow scale and
 * brightness.
 */
module Animation {
  import opened Wrappers
  import opened JumpMachine

  /**
   * Seconds to integrate for a frame at `timestamp` (milliseconds), given the
   * previous frame's timestamp: the elapsed time, capped at MaxDelta; zero on
   * the first frame, which has no previous timestamp.
   */
  function FrameDelta(last: Option<real>, timestamp: real): (d: real)
    ensures d <= MaxDelta
    ensures last == None ==> d == 0.0
    ensures last.Some? ==> d * 1000.0 <= timestamp - last.value
    ensures last.Some? ==> d == MaxDelta || d * 1000.0 == timestamp - last.value
  {
    var from := if last.None? then timestamp else last.value;
    var elapsed := (timestamp - from) / 1000.0;
    if elapsed <= MaxDelta then elapsed else MaxDelta
  }

  /** With a clock that does not run backwards, every frame delta lies in [0, MaxDelta]. */
  lemma FrameDeltaBounds(last: Option<real>, timestamp: real)
    requires last.Some? ==> last.value <= timestamp
    ensures 0.0 <= FrameDelta(last, timestamp) <= MaxDelta
  {
  }

  const PixelsPerMeter: real := 55.0
  /** The smallest the shadow ever gets. */
  const MinShadowScale: real := 0.55

  datatype Visual = Visual(offsetPixels: real, shadowScale: real, brightness: real)

  /** What resetJump draws: no offset, full shadow, normal brightness. */
  const GroundVisual: Visual := Visual(0.0, 1.0, 1.0)

  /** Shadow scale at a height in metres: shrinks by 1/6 per metre down to MinShadowScale. */
  function ShadowScale(height: real): (s: real)
    ensures MinShadowScale <= s
    ensures height >= 0.0 ==> s <= 1.0
    ensures s >= 1.0 - height / 6.0
    ensures s == MinShadowScale || s == 1.0 - height / 6.0
  {
    if 1.0 - height / 6.0 >= MinShadowScale then 1.0 - height / 6.0 else MinShadowScale
  }

  /** Brightness at a height in metres: ten percent more per metre, never dimmer than normal. */
  function Brightness(height: real): (b: real)
    ensures height >= 0.0 ==> b >= 1.0
  {
    1.0 + height / 10.0
  }

  /** The values drawn for a character in flight at `position`. */
  function AirborneVisual(position: real): (v: Visual)
    ensures position <= 0.0 ==> v.offsetPixels <= 0.0
    ensures position <= 0.0 ==> MinShadowScale <= v.shadowScale <= 1.0 && v.brightness >= 1.0
  {
    var height := -position;
    Visual(position * PixelsPerMeter, ShadowScale(height), Brightness(height))
  }

  /** Higher means a smaller (or equally small) shadow. */
  lemma ShadowShrinksWithHeight(h1: real, h2: real)
    requires h1 <= h2
    ensures ShadowScale(h2) <= ShadowScale(h1)
  {
  }

  /** Higher means brighter. */
  lemma BrightnessGrowsWithHeight(h1: real, h2: real)
    requires h1 < h2
    ensures Brightness(h1) < Brightness(h2)
  {
  }

  /** The shadow reaches its floor at 2.7 m and stays there above it. */
  lemma ShadowFloorHeight(height: real)
    ensures ShadowScale(height) == MinShadowScale <==> height >= 2.7
  {
  }

  /** The airborne mapping meets the grounded values at ground level: landing has no jump in the picture. */
  lemma AirborneVisualAtGround()
    ensures AirborneVisual(0.0) == GroundVisual
  {
  }

  /**
   * What a frame draws, given the jump state before and after it: nothing
   * when no jump was in flight, the grounded values on landing, otherwise the
   * airborne values for the new position.
   */
  function FrameVisual(before: Jump, after: Jump): (v: Option<Visual>)
    ensures v == None <==> !before.jumping
    ensures before.jumping && !after.jumping ==> v == Some(GroundVisual)
    ensures before.jumping && after.jumping && after.position <= 0.0 ==>
      v.Some? && MinShadowScale <= v.value.shadowScale <= 1.0 && v.value.brightness >= 1.0
  {
    if !before.jumping then None
    else if after.jumping then Some(AirborneVisual(after.position))
    else Some(GroundVisual)
  }
}
