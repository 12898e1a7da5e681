/** The bronze engine fuel table: per fluid, its power, burn duration and heat dissipation. */
module Fuels {
  import opened Fluids

  datatype EngineBronzeFuel = EngineBronzeFuel(powerPerCycle: nat, burnDuration: nat, dissipationMultiplier: nat)

  /** The registered bronze engine fuels, keyed by fluid. */
  type FuelTable = map<Fluid, EngineBronzeFuel>

  /** The power one unit of the fluid yields; an unregistered fluid yields nothing. */
  function FuelValue(fuels: FuelTable, fluid: Fluid): (power: nat)
    ensures fluid in fuels ==> power == fuels[fluid].powerPerCycle
    ensures fluid !in fuels ==> power == 0
  {
    if fluid in fuels then fuels[fluid].powerPerCycle else 0
  }

  /** How many ticks one bucket of the fluid burns for; 0 for an unregistered fluid. */
  function BurnTime(fuels: FuelTable, fluid: Fluid): (duration: nat)
    ensures fluid in fuels ==> duration == fuels[fluid].burnDuration
    ensures fluid !in fuels ==> duration == 0
  {
    if fluid in fuels then fuels[fluid].burnDuration else 0
  }

  /**
   * The factor by which heat loss grows for the fluid held in the fuel tank:
   * the registered multiplier of that fluid, or 1 (no change) when the tank is
   * empty or its fluid is unregistered.
   */
  function DissipationMultiplier(fuels: FuelTable, fuelTank: Tank): (m: nat)
    ensures Amount(fuelTank) > 0 && fuelTank.contents.value.fluid in fuels ==>
              m == fuels[fuelTank.contents.value.fluid].dissipationMultiplier
    ensures !(Amount(fuelTank) > 0 && fuelTank.contents.value.fluid in fuels) ==> m == 1
  {
    if Amount(fuelTank) > 0 && fuelTank.contents.value.fluid in fuels
    then fuels[fuelTank.contents.value.fluid].dissipationMultiplier
    else 1
  }
}
