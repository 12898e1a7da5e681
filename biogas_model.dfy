/**
 * The biogas (bronze) engine's per-tick behaviour as functions on an engine
 * state value: burn, heat generation, heat dissipation, the burn progress
 * bar and the two advisory conditions.
 */
module BiogasModel {
  import opened Fluids
  import opened Fuels
  import opened HeatLevel

  /**
   * What the engine is built with: the fuel table, the heat at full level,
   * the heat one unit of lava adds and the base heat generation step.
   */
  datatype Config = Config(fuels: FuelTable, maxHeat: nat, lavaHeat: nat, heatGeneration: nat)

  /** The engine's mutable state; energy is the energy store's content. */
  datatype Engine = Engine(
    heat: int,
    shutdown: bool,
    currentOutput: nat,
    fuelTank: Tank,
    heatingTank: Tank,
    burnTank: Tank,
    energy: nat)

  predicate TanksOk(s: Engine)
  {
    TankOk(s.fuelTank) && TankOk(s.heatingTank) && TankOk(s.burnTank)
  }

  /** Burn does anything beyond resetting the output only when enabled and a bucket or a started batch is ready. */
  predicate Active(s: Engine, redstone: bool)
    ensures !redstone ==> !Active(s, redstone)
    // with the burn tank empty, the guard leaves a whole bucket to load
    ensures Active(s, redstone) && Amount(s.burnTank) == 0 ==> Amount(s.fuelTank) >= BUCKET_VOLUME
  {
    redstone && (Amount(s.fuelTank) >= BUCKET_VOLUME || Amount(s.burnTank) > 0)
  }

  /** The heating tank holds lava; then one unit of it can be drained. */
  predicate HasLava(t: Tank)
    ensures HasLava(t) ==> t.contents.Some? && t.contents.value.fluid == LAVA
    ensures HasLava(t) ==> Amount(Drain(t, 1).0) == Amount(t) - 1
  {
    Amount(t) > 0 && t.contents.value.fluid == LAVA
  }

  /** The engine may burn and has a batch to burn from. */
  predicate IsBurning(s: Engine, mayBurn: bool)
    ensures !mayBurn ==> !IsBurning(s, mayBurn)
    ensures IsBurning(s, mayBurn) ==> s.burnTank.contents.Some?
  {
    mayBurn && Amount(s.burnTank) > 0
  }

  /**
   * The shutdown handling at the start of an active burn, given the level
   * computed on entry: leave shutdown once warm enough, otherwise warm a shut
   * down engine with one unit of lava if there is any.
   */
  function Reignite(c: Config, s: Engine, level: int): (r: Engine)
    // only the flag, the heat and the heating tank can change
    ensures r.fuelTank == s.fuelTank && r.burnTank == s.burnTank
    ensures r.energy == s.energy && r.currentOutput == s.currentOutput
    // an engine that is not shut down is left alone; none is shut down here
    ensures !s.shutdown ==> r == s
    ensures r.shutdown ==> s.shutdown
    ensures r.heat >= s.heat
    ensures TankOk(s.heatingTank) ==> TankOk(r.heatingTank)
  {
    if Gt25(level, c.maxHeat) && s.shutdown then s.(shutdown := false)
    else if s.shutdown && HasLava(s.heatingTank) then
      s.(heat := s.heat + c.lavaHeat, heatingTank := Drain(s.heatingTank, 1).0)
    else s
  }

  /** One call of burn: re-ignition, then consuming a unit of the burn tank, loading a new bucket, or shutting down. */
  function Burn(c: Config, s: Engine, redstone: bool): (r: Engine)
    // disabled or out of fuel: only the output is reset
    ensures !Active(s, redstone) ==> r == s.(currentOutput := 0)
    // the shutdown flag after an active burn
    ensures Active(s, redstone) ==>
              r.shutdown == (!Gt20(s.heat, c.maxHeat) || (s.shutdown && !Gt25(s.heat, c.maxHeat)))
    // lava warms a shut down engine that is not yet safe to restart
    ensures Active(s, redstone) && s.shutdown && !Gt25(s.heat, c.maxHeat) && HasLava(s.heatingTank) ==>
              r.heat == s.heat + c.lavaHeat && Amount(r.heatingTank) == Amount(s.heatingTank) - 1
    ensures !(Active(s, redstone) && s.shutdown && !Gt25(s.heat, c.maxHeat) && HasLava(s.heatingTank)) ==>
              r.heat == s.heat && r.heatingTank == s.heatingTank
    // too cold: nothing is drained and nothing is produced
    ensures Active(s, redstone) && !Gt20(s.heat, c.maxHeat) ==>
              r.shutdown && r.fuelTank == s.fuelTank && r.burnTank == s.burnTank &&
              r.currentOutput == 0 && r.energy == s.energy
    // warm with fuel in the burn tank: one unit burns into energy
    ensures Active(s, redstone) && Gt20(s.heat, c.maxHeat) && Amount(s.burnTank) > 0 ==>
              Amount(r.burnTank) == Amount(s.burnTank) - 1 &&
              r.burnTank.capacity == s.burnTank.capacity &&
              (r.burnTank.contents.Some? ==> r.burnTank.contents.value.fluid == s.burnTank.contents.value.fluid) &&
              r.currentOutput == FuelValue(c.fuels, s.burnTank.contents.value.fluid) &&
              r.energy == s.energy + r.currentOutput &&
              r.fuelTank == s.fuelTank
    // warm with an empty burn tank: one bucket is loaded as a full batch
    ensures Active(s, redstone) && Gt20(s.heat, c.maxHeat) && Amount(s.burnTank) == 0 ==>
              Amount(s.fuelTank) >= BUCKET_VOLUME &&
              Amount(r.fuelTank) == Amount(s.fuelTank) - BUCKET_VOLUME &&
              r.fuelTank.capacity == s.fuelTank.capacity &&
              (r.fuelTank.contents.Some? ==> r.fuelTank.contents.value.fluid == s.fuelTank.contents.value.fluid) &&
              r.burnTank == Tank(Some(FluidStack(s.fuelTank.contents.value.fluid,
                                                 BurnTime(c.fuels, s.fuelTank.contents.value.fluid))),
                                 BurnTime(c.fuels, s.fuelTank.contents.value.fluid)) &&
              r.currentOutput == 0 && r.energy == s.energy
    // energy is produced only while warm
    ensures r.currentOutput > 0 ==> Active(s, redstone) && Gt20(s.heat, c.maxHeat)
    ensures r.energy == s.energy + r.currentOutput
    // burn never cools the engine and never overfills a tank
    ensures r.heat >= s.heat
    ensures TanksOk(s) ==> TanksOk(r)
    ensures r.fuelTank.capacity == s.fuelTank.capacity && r.heatingTank.capacity == s.heatingTank.capacity
  {
    if !Active(s, redstone) then s.(currentOutput := 0)
    else
      var level := s.heat;
      var s1 := Reignite(c, s.(currentOutput := 0), level);
      if !Gt20(level, c.maxHeat) then s1.(shutdown := true)
      else if Amount(s1.burnTank) > 0 then
        var (burnTank, drained) := Drain(s1.burnTank, 1);
        var power := FuelValue(c.fuels, drained.value.fluid);
        s1.(burnTank := burnTank, currentOutput := power, energy := s1.energy + power)
      else
        var (fuelTank, fuel) := Drain(s1.fuelTank, BUCKET_VOLUME);
        var burnTime := BurnTime(c.fuels, fuel.value.fluid);
        s1.(fuelTank := fuelTank, burnTank := Tank(Some(FluidStack(fuel.value.fluid, burnTime)), burnTime))
  }

  /** The heat generateHeat adds: a multiple of the base step that grows with the heat level. */
  function HeatGain(c: Config, s: Engine, redstone: bool): (gain: nat)
    requires c.maxHeat > 0
    ensures !(redstone && Amount(s.burnTank) > 0) || !Gt20(s.heat, c.maxHeat) ==> gain == 0
    ensures redstone && Amount(s.burnTank) > 0 && Ge75(s.heat, c.maxHeat) ==> gain == 3 * c.heatGeneration
    ensures redstone && Amount(s.burnTank) > 0 && Gt24(s.heat, c.maxHeat) && !Ge75(s.heat, c.maxHeat) ==>
              gain == 2 * c.heatGeneration
    ensures redstone && Amount(s.burnTank) > 0 && Gt20(s.heat, c.maxHeat) && !Gt24(s.heat, c.maxHeat) ==>
              gain == c.heatGeneration
    ensures gain <= 3 * c.heatGeneration
  {
    if redstone && Amount(s.burnTank) > 0 then
      if Ge75(s.heat, c.maxHeat) then c.heatGeneration * 3
      else if Gt24(s.heat, c.maxHeat) then c.heatGeneration * 2
      else if Gt20(s.heat, c.maxHeat) then c.heatGeneration
      else 0
    else 0
  }

  /**
   * The heat dissipateHeat removes: nothing from a cold engine; otherwise a
   * base loss of 1 to 3 (more when not burning, more when hot), scaled by
   * the fuel's dissipation multiplier.
   */
  function HeatLoss(c: Config, s: Engine, mayBurn: bool): (loss: nat)
    ensures s.heat <= 0 ==> loss == 0
    ensures s.heat > 0 ==>
              var m := DissipationMultiplier(c.fuels, s.fuelTank);
              m <= loss <= 3 * m &&
              (IsBurning(s, mayBurn) && !Gt55(s.heat, c.maxHeat) ==> loss == m) &&
              (IsBurning(s, mayBurn) == Gt55(s.heat, c.maxHeat) ==> loss == 2 * m) &&
              (!IsBurning(s, mayBurn) && Gt55(s.heat, c.maxHeat) ==> loss == 3 * m)
  {
    if s.heat <= 0 then 0
    else
      var base := 1 + (if !IsBurning(s, mayBurn) then 1 else 0) + (if Gt55(s.heat, c.maxHeat) then 1 else 0);
      var m := DissipationMultiplier(c.fuels, s.fuelTank);
      assert base == 1 ==> base * m == m;
      assert base == 2 ==> base * m == 2 * m;
      assert base == 3 ==> base * m == 3 * m;
      base * m
  }

  /** Java's int division, which truncates toward zero, for a positive divisor. */
  function JavaDiv(a: int, b: int): (q: int)
    requires b > 0
    ensures a >= 0 ==> 0 <= q && q * b <= a < q * b + b
    ensures a < 0 ==> q <= 0 && q * b - b < a <= q * b
  {
    if a >= 0 then
      DivBounds(a, b);
      a / b
    else
      DivBounds(-a, b);
      NegMul((-a) / b, b);
      -((-a) / b)
  }

  lemma DivBounds(a: nat, b: nat)
    requires b > 0
    ensures 0 <= a / b && (a / b) * b <= a < (a / b) * b + b
  {
    assert a == b * (a / b) + a % b;
    assert b * (a / b) == (a / b) * b;
  }

  lemma NegMul(x: int, y: int)
    ensures (-x) * y == -(x * y)
  {
  }

  /** The burn progress bar on a scale of i: the burn tank's fill, truncated, or 0 for a tank of capacity 0. */
  function BurnTimeRemainingScaled(t: Tank, i: int): (r: int)
    ensures t.capacity == 0 || Amount(t) == 0 ==> r == 0
    ensures TankOk(t) && i >= 0 ==> 0 <= r <= i
    ensures TankOk(t) && i < 0 ==> i <= r <= 0
    ensures t.capacity > 0 && Amount(t) == t.capacity ==> r == i
  {
    if t.capacity == 0 then 0
    else
      ScaledBounds(Amount(t), t.capacity, i);
      JavaDiv(Amount(t) * i, t.capacity)
  }

  /** The scaled fill a * i / c of a tank holding a <= c lies between 0 and i. */
  lemma ScaledBounds(a: nat, c: nat, i: int)
    requires c > 0
    ensures a == 0 ==> JavaDiv(a * i, c) == 0
    ensures a <= c && i >= 0 ==> 0 <= JavaDiv(a * i, c) <= i
    ensures a <= c && i < 0 ==> i <= JavaDiv(a * i, c) <= 0
    ensures a == c ==> JavaDiv(a * i, c) == i
  {
    if a == c {
      DivExact(c, i);
    }
    if a <= c && i >= 0 {
      MulMono(a, c, i);
      DivAtMost(a * i, c, i);
    }
    if a <= c && i < 0 {
      MulMono(a, c, -i);
      assert a * i == -(a * (-i));
      DivAtMost(a * (-i), c, -i);
    }
  }

  lemma DivAtMost(x: nat, c: nat, k: int)
    requires c > 0 && x <= c * k
    ensures x / c <= k
  {
    var q := x / c;
    assert c * q <= x;
    if q > k {
      MulMono(k + 1, q, c);
      assert false;
    }
  }

  lemma MulMono(x: int, y: int, k: int)
    requires x <= y && k >= 0
    ensures x * k <= y * k
  {
    assert y * k - x * k == (y - x) * k;
  }

  lemma DivExact(c: nat, i: int)
    requires c > 0
    ensures JavaDiv(c * i, c) == i
  {
    var q := JavaDiv(c * i, c);
    if q > i {
      MulMono(i + 1, q, c);
      assert false;
    } else if q < i {
      MulMono(q + 1, i, c);
      assert false;
    }
  }

  /** NO_HEAT: too cold to burn and no lava to warm up with. */
  function NoHeat(c: Config, s: Engine): (b: bool)
    ensures b <==> 5 * s.heat <= c.maxHeat && Amount(s.heatingTank) == 0
  {
    !(Gt20(s.heat, c.maxHeat) || Amount(s.heatingTank) > 0)
  }

  /** NO_FUEL: both the burn tank and the fuel tank are empty. */
  function NoFuel(s: Engine): (b: bool)
    ensures b <==> Amount(s.burnTank) == 0 && Amount(s.fuelTank) == 0
  {
    !(Amount(s.burnTank) > 0 || Amount(s.fuelTank) > 0)
  }
}
