/**
 * The biogas engine as an object whose three tick operations update its
 * fields in place. Each operation is proved to leave the state that the
 * corresponding function of BiogasModel computes from the old state.
 */
module BiogasEngine {
  import opened Fluids
  import opened Fuels
  import opened HeatLevel
  import opened BiogasModel

  class EngineBiogas {
    const fuels: FuelTable
    const maxHeat: nat
    const lavaHeat: nat
    const heatGeneration: nat

    var heat: int
    /** True while the engine is too cold and has to warm itself up. */
    var shutdown: bool
    var currentOutput: nat
    var fuelTank: Tank
    var heatingTank: Tank
    var burnTank: Tank
    /** The content of the energy store. */
    var energy: nat

    function Settings(): Config
    {
      Config(fuels, maxHeat, lavaHeat, heatGeneration)
    }

    function State(): Engine
      reads this
    {
      Engine(heat, shutdown, currentOutput, fuelTank, heatingTank, burnTank, energy)
    }

    /** No tank holds more than its capacity, and the heating tank holds nothing but lava. */
    ghost predicate Valid()
      reads this
    {
      maxHeat > 0 &&
      TanksOk(State()) &&
      (heatingTank.contents.Some? ==> heatingTank.contents.value.fluid == LAVA)
    }

    /** A new engine: cold, not shut down, all tanks empty, the burn tank sized for one bucket. */
    constructor (fuels: FuelTable, maxHeat: nat, lavaHeat: nat, heatGeneration: nat, tankCapacity: nat)
      requires maxHeat > 0
      ensures Valid()
      ensures Settings() == Config(fuels, maxHeat, lavaHeat, heatGeneration)
      ensures State() == Engine(0, false, 0, EmptyTank(tankCapacity), EmptyTank(tankCapacity),
                                EmptyTank(BUCKET_VOLUME), 0)
    {
      this.fuels := fuels;
      this.maxHeat := maxHeat;
      this.lavaHeat := lavaHeat;
      this.heatGeneration := heatGeneration;
      heat := 0;
      shutdown := false;
      currentOutput := 0;
      fuelTank := EmptyTank(tankCapacity);
      heatingTank := EmptyTank(tankCapacity);
      burnTank := EmptyTank(BUCKET_VOLUME);
      energy := 0;
    }

    /** Burns fuel, increasing stored energy. */
    method Burn(redstone: bool)
      requires Valid()
      modifies this
      ensures Valid()
      ensures State() == BiogasModel.Burn(Settings(), old(State()), redstone)
    {
      currentOutput := 0;
      if redstone && (Amount(fuelTank) >= BUCKET_VOLUME || Amount(burnTank) > 0) {
        // the level is taken once, before any lava is added
        var heatStage := heat;
        if Gt25(heatStage, maxHeat) && shutdown {
          shutdown := false;
        } else if shutdown {
          if Amount(heatingTank) > 0 && heatingTank.contents.value.fluid == LAVA {
            heat := heat + lavaHeat;
            heatingTank := Drain(heatingTank, 1).0;
          }
        }
        if Gt20(heatStage, maxHeat) {
          if Amount(burnTank) > 0 {
            var result := Drain(burnTank, 1);
            burnTank := result.0;
            var drained := result.1;
            currentOutput := FuelValue(fuels, drained.value.fluid);
            energy := energy + currentOutput;
          } else {
            var result := Drain(fuelTank, BUCKET_VOLUME);
            fuelTank := result.0;
            var fuel := result.1;
            var burnTime := BurnTime(fuels, fuel.value.fluid);
            var loaded := FluidStack(fuel.value.fluid, burnTime);
            burnTank := burnTank.(capacity := burnTime);
            burnTank := burnTank.(contents := Some(loaded));
          }
        } else {
          shutdown := true;
        }
      }
    }

    /** Removes heat and returns how much; heat is not kept from going below 0. */
    method DissipateHeat(mayBurn: bool) returns (loss: nat)
      requires Valid()
      modifies this
      ensures Valid()
      ensures loss == HeatLoss(Settings(), old(State()), mayBurn)
      ensures State() == old(State()).(heat := old(heat) - loss)
    {
      if heat <= 0 {
        return 0;
      }
      loss := 1;
      if !IsBurning(State(), mayBurn) {
        loss := loss + 1;
      }
      if Gt55(heat, maxHeat) {
        loss := loss + 1;
      }
      if Amount(fuelTank) > 0 {
        var fluid := fuelTank.contents.value.fluid;
        if fluid in fuels {
          loss := loss * fuels[fluid].dissipationMultiplier;
        }
      }
      heat := heat - loss;
    }

    /** Adds heat in tiers of the heat level and returns how much. */
    method GenerateHeat(redstone: bool) returns (generate: nat)
      requires Valid()
      modifies this
      ensures Valid()
      ensures generate == HeatGain(Settings(), old(State()), redstone)
      ensures State() == old(State()).(heat := old(heat) + generate)
    {
      generate := 0;
      if redstone && Amount(burnTank) > 0 {
        if Ge75(heat, maxHeat) {
          generate := generate + heatGeneration * 3;
        } else if Gt24(heat, maxHeat) {
          generate := generate + heatGeneration * 2;
        } else if Gt20(heat, maxHeat) {
          generate := generate + heatGeneration;
        }
      }
      heat := heat + generate;
    }

    /** The burn progress bar on a scale of i; it never leaves the range 0 to i. */
    function GetBurnTimeRemainingScaled(i: int): (r: int)
      reads this
      requires Valid()
      ensures r == BurnTimeRemainingScaled(burnTank, i)
      ensures i >= 0 ==> 0 <= r <= i
      ensures i < 0 ==> i <= r <= 0
    {
      BurnTimeRemainingScaled(burnTank, i)
    }

    /** The advisory NO_HEAT and NO_FUEL conditions; reading them changes nothing. */
    method ErrorConditions() returns (noHeat: bool, noFuel: bool)
      requires Valid()
      ensures noHeat == NoHeat(Settings(), State())
      ensures noFuel == NoFuel(State())
    {
      var hasHeat := Gt20(heat, maxHeat) || Amount(heatingTank) > 0;
      noHeat := !hasHeat;
      var hasFuel := Amount(burnTank) > 0 || Amount(fuelTank) > 0;
      noFuel := !hasFuel;
    }
  }
}
