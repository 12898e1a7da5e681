/**
 * Properties of the engine over several calls of burn, and of how the tick
 * operations relate to the fuel table and to the advisory conditions.
 */
module BiogasProperties {
  import opened Fluids
  import opened Fuels
  import opened HeatLevel
  import opened BiogasModel

  /** n consecutive calls of burn with the same redstone input. */
  function BurnTicks(c: Config, s: Engine, redstone: bool, n: nat): Engine
    decreases n
  {
    if n == 0 then s else BurnTicks(c, Burn(c, s, redstone), redstone, n - 1)
  }

  /**
   * A warm, enabled engine burns n units of its batch in n calls: each unit
   * yields the fluid's power, the fuel tank is left alone and the engine does
   * not cool down.
   */
  lemma {:induction false} BatchYield(c: Config, s: Engine, f: Fluid, n: nat)
    requires Gt20(s.heat, c.maxHeat)
    requires n <= Amount(s.burnTank)
    requires s.burnTank.contents.Some? ==> s.burnTank.contents.value.fluid == f
    ensures var r := BurnTicks(c, s, true, n);
      r.energy == s.energy + n * FuelValue(c.fuels, f) &&
      Amount(r.burnTank) == Amount(s.burnTank) - n &&
      r.burnTank.capacity == s.burnTank.capacity &&
      r.fuelTank == s.fuelTank &&
      r.heat >= s.heat
    decreases n
  {
    if n > 0 {
      var p := FuelValue(c.fuels, f);
      var s1 := Burn(c, s, true);
      BurnOneUnit(c, s, f);
      BatchYield(c, s1, f, n - 1);
      assert BurnTicks(c, s, true, n) == BurnTicks(c, s1, true, n - 1);
      assert n * p == p + (n - 1) * p;
    }
  }

  /** One call of burn on a warm engine with fuel in the burn tank. */
  lemma BurnOneUnit(c: Config, s: Engine, f: Fluid)
    requires Gt20(s.heat, c.maxHeat) && Amount(s.burnTank) > 0
    requires s.burnTank.contents.Some? ==> s.burnTank.contents.value.fluid == f
    ensures var r := Burn(c, s, true);
      r.energy == s.energy + FuelValue(c.fuels, f) &&
      Amount(r.burnTank) == Amount(s.burnTank) - 1 &&
      r.burnTank.capacity == s.burnTank.capacity &&
      (r.burnTank.contents.Some? ==> r.burnTank.contents.value.fluid == f) &&
      r.fuelTank == s.fuelTank &&
      r.heat >= s.heat && Gt20(r.heat, c.maxHeat)
  {
    assert Active(s, true);
  }

  /**
   * One bucket of fuel f, loaded into an empty burn tank of a warm engine,
   * yields exactly its burn duration times its power per cycle, over one
   * loading call and burn-duration burning calls, and costs the fuel tank
   * exactly one bucket.
   */
  lemma BucketYield(c: Config, s: Engine, f: Fluid)
    requires Gt20(s.heat, c.maxHeat)
    requires Amount(s.burnTank) == 0
    requires Amount(s.fuelTank) >= BUCKET_VOLUME && s.fuelTank.contents.value.fluid == f
    ensures var r := BurnTicks(c, s, true, 1 + BurnTime(c.fuels, f));
      r.energy == s.energy + BurnTime(c.fuels, f) * FuelValue(c.fuels, f) &&
      Amount(r.fuelTank) == Amount(s.fuelTank) - BUCKET_VOLUME &&
      Amount(r.burnTank) == 0 &&
      r.burnTank.capacity == BurnTime(c.fuels, f)
  {
    var s1 := Burn(c, s, true);
    BatchYield(c, s1, f, BurnTime(c.fuels, f));
  }

  /**
   * A bucket of an unregistered fluid is consumed without any output: the
   * burn tank is loaded with nothing, so the next warm call drains yet
   * another bucket.
   */
  lemma UnregisteredFuelStalls(c: Config, s: Engine)
    requires Gt20(s.heat, c.maxHeat) && Amount(s.burnTank) == 0
    requires Amount(s.fuelTank) >= BUCKET_VOLUME && s.fuelTank.contents.value.fluid !in c.fuels
    ensures var r := Burn(c, s, true);
      r.currentOutput == 0 && r.energy == s.energy &&
      Amount(r.burnTank) == 0 && r.burnTank.capacity == 0 &&
      BurnTimeRemainingScaled(r.burnTank, 100) == 0 &&
      Amount(r.fuelTank) == Amount(s.fuelTank) - BUCKET_VOLUME
  {
  }

  /** Under NO_FUEL neither burn nor generateHeat does anything but reset the output. */
  lemma NoFuelIsInert(c: Config, s: Engine, redstone: bool)
    requires c.maxHeat > 0
    requires NoFuel(s)
    ensures Burn(c, s, redstone) == s.(currentOutput := 0)
    ensures HeatGain(c, s, redstone) == 0
  {
  }

  /** Under NO_HEAT an enabled engine shuts down, consumes nothing, produces nothing and stays as cold. */
  lemma NoHeatIsCold(c: Config, s: Engine, redstone: bool)
    requires c.maxHeat > 0
    requires NoHeat(c, s)
    ensures var r := Burn(c, s, redstone);
      r.heat == s.heat && r.currentOutput == 0 && r.energy == s.energy &&
      r.fuelTank == s.fuelTank && r.burnTank == s.burnTank &&
      (Active(s, redstone) ==> r.shutdown)
    ensures HeatGain(c, s, redstone) == 0
  {
  }

  /** A hotter engine generates at least as much heat. */
  lemma HeatGainMonotone(c: Config, s: Engine, t: Engine, redstone: bool)
    requires c.maxHeat > 0
    requires s.heat <= t.heat && Amount(s.burnTank) == Amount(t.burnTank)
    ensures HeatGain(c, s, redstone) <= HeatGain(c, t, redstone)
  {
  }

  /** A hotter engine loses at least as much heat, other things equal. */
  lemma HeatLossMonotone(c: Config, s: Engine, t: Engine, mayBurn: bool)
    requires 0 < s.heat <= t.heat
    requires s.fuelTank == t.fuelTank && Amount(s.burnTank) == Amount(t.burnTank)
    ensures HeatLoss(c, s, mayBurn) <= HeatLoss(c, t, mayBurn)
  {
  }

  /** Dissipation from a cold engine changes nothing, however often it is applied. */
  lemma ColdDissipationIdempotent(c: Config, s: Engine, mayBurn: bool)
    requires s.heat <= 0
    ensures var s1 := s.(heat := s.heat - HeatLoss(c, s, mayBurn));
      s1 == s && HeatLoss(c, s1, mayBurn) == 0
  {
  }

  /** Dissipation is not floored at 0: an engine with 1 heat that is not burning ends at -1. */
  lemma DissipationCanGoNegative()
    ensures var c := Config(map[], 10000, 20, 1);
      var s := Engine(1, false, 0, EmptyTank(10000), EmptyTank(10000), EmptyTank(BUCKET_VOLUME), 0);
      s.heat - HeatLoss(c, s, true) == -1
  {
  }

  /**
   * The shutdown flag does not stop energy output: a shut down engine whose
   * level lies in (0.2, 0.25] still burns from its burn tank, and stays shut down.
   */
  lemma OutputWhileShutdown()
    ensures var c := Config(map["biogas" := EngineBronzeFuel(50, 2500, 1)], 10000, 20, 1);
      var s := Engine(2200, true, 0, EmptyTank(10000), EmptyTank(10000),
                      Tank(Some(FluidStack("biogas", 500)), 2500), 0);
      var r := Burn(c, s, true);
      r.shutdown && r.currentOutput == 50 && r.energy == 50
  {
  }
}
