/**
 * The mass input and the weight readout: JavaScript's `parseFloat(...) || x`
 * fallback, the mass clamp applied when the input is committed, and the
 * choice between newtons and kilonewtons.
 */
module Readout {
  import opened Wrappers
  import opened Planets

  /** The mass used when the input holds no usable number. */
  const DefaultMass: real := 70.0
  /** The largest mass the input accepts. */
  const MaxMass: real := 300.0

  /**
   * `parseFloat(text) || fallback`, with the parse given as `parsed` (None for
   * NaN): the parsed number unless it is falsy (NaN or zero).
   */
  function ParsedOr(parsed: Option<real>, fallback: real): (m: real)
    ensures parsed.Some? && parsed.value != 0.0 ==> m == parsed.value
    ensures parsed == None || parsed.value == 0.0 ==> m == fallback
    ensures fallback != 0.0 ==> m != 0.0
  {
    if parsed.Some? && parsed.value != 0.0 then parsed.value else fallback
  }

  /**
   * On a parse that is already a valid mass, the live handler and the
   * committed clamp agree, whatever the previous mass was.
   */
  lemma LiveInputAgreesWithClamp(parsed: Option<real>, previous: real)
    requires parsed.Some? && 0.0 < parsed.value <= MaxMass
    ensures ParsedOr(parsed, previous) == ClampedMass(parsed) == parsed.value
  {
  }

  /**
   * The mass after the input is committed: the default for no number or a
   * non-positive one, otherwise the number capped at MaxMass.
   */
  function ClampedMass(parsed: Option<real>): (m: real)
    ensures 0.0 < m <= MaxMass
    ensures parsed == None || parsed.value <= 0.0 ==> m == DefaultMass
    ensures parsed.Some? && 0.0 < parsed.value <= MaxMass ==> m == parsed.value
    ensures parsed.Some? && parsed.value > MaxMass ==> m == MaxMass
  {
    if parsed.None? || parsed.value <= 0.0 then DefaultMass
    else if parsed.value <= MaxMass then parsed.value
    else MaxMass
  }

  /** Committing the clamped mass again changes nothing. */
  lemma ClampIdempotent(parsed: Option<real>)
    ensures ClampedMass(Some(ClampedMass(parsed))) == ClampedMass(parsed)
  {
  }

  datatype Unit = Newtons | KiloNewtons

  /** A force as displayed: a number and its unit. */
  datatype Reading = Reading(amount: real, unit: Unit)

  /** The force a reading stands for, in newtons. */
  function InNewtons(r: Reading): real {
    match r.unit
    case Newtons => r.amount
    case KiloNewtons => r.amount * 1000.0
  }

  /**
   * formatNewton's choice of unit: kilonewtons exactly from 1000 N up, with
   * the displayed amount standing for the same force.
   */
  function FormatNewton(value: real): (r: Reading)
    ensures r.unit == KiloNewtons <==> value >= 1000.0
    ensures InNewtons(r) == value
    ensures r.unit == KiloNewtons ==> r.amount >= 1.0
    ensures r.unit == Newtons ==> r.amount < 1000.0
  {
    if value >= 1000.0 then Reading(value / 1000.0, KiloNewtons) else Reading(value, Newtons)
  }

  /**
   * The weight readout switches to kilonewtons exactly when the mass
   * reaches 1000 N divided by the planet's gravity (for any mass, since the
   * live input handler keeps negative numbers).
   */
  lemma WeightUnitThreshold(mass: real, p: Planet)
    ensures FormatNewton(Weight(mass, p)).unit == KiloNewtons <==> mass >= 1000.0 / Gravity(p)
  {
  }
}
