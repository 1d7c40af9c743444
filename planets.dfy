/**
 * The fixed planet catalogue: only the gravitational acceleration of each
 * planet matters to the simulation (names, descriptions and scene colours are
 * display metadata).
 */
module Planets {

  datatype Planet = Earth | Moon | Mars | Jupiter | Saturn

  /** Surface gravity in m/s^2; every catalogue entry is strictly positive. */
  function Gravity(p: Planet): (g: real)
    ensures 1.62 <= g <= 24.79
    ensures p == Earth <==> g == 9.81
  {
    match p
    case Earth => 9.81
    case Moon => 1.62
    case Mars => 3.71
    case Jupiter => 24.79
    case Saturn => 10.44
  }

  /** The reference gravity used to scale launch speeds. */
  const EarthGravity: real := Gravity(Earth)

  /** Weight in newtons of a body of the given mass standing on the planet. */
  function Weight(mass: real, p: Planet): (w: real)
    ensures mass > 0.0 ==> w > 0.0
    ensures mass > 0.0 && Gravity(p) > EarthGravity ==> w > mass * EarthGravity
    ensures mass > 0.0 && Gravity(p) < EarthGravity ==> w < mass * EarthGravity
  {
    mass * Gravity(p)
  }

  /** Weight on a planet is Earth weight scaled by the relative gravity. */
  lemma WeightRelativeToEarth(mass: real, p: Planet)
    ensures Weight(mass, p) == Weight(mass, Earth) * (Gravity(p) / EarthGravity)
  {
  }
}
