# Biogas engine model

A Dafny model of the bronze (biogas) engine of the Forestry mod: the tile
entity `TileEngineBiogas`, which once per tick burns fluid fuel into energy,
heats itself up and loses heat. The engine holds three tanks: a fuel tank,
a heating tank that accepts only lava, and a burn tank that holds the batch
being burnt, with a capacity set to the batch's burn duration. Around the
tanks it keeps the heat, a `shutdown` flag (the engine is too cold and is
warming itself up), the output of the last tick and an energy store.

Layout:

- `fluids.dfy` (module `Fluids`): fluids, fluid stacks and tanks, with
  `Drain`, the tank's `drainInternal`.
- `fuels.dfy` (module `Fuels`): the bronze engine fuel table, a map from
  fluid to power per cycle, burn duration and dissipation multiplier, and
  its lookups `determineFuelValue` and `determineBurnTime`.
- `heat_level.dfy` (module `HeatLevel`): the heat level is `heat / maxHeat`;
  every threshold the engine tests is an integer cross-multiplication
  (level > 0.2 is `5 * heat > maxHeat`, level >= 0.75 is
  `4 * heat >= 3 * maxHeat`).
- `biogas_model.dfy` (module `BiogasModel`): the engine state as a value and
  each tick operation as a function whose contract states, case by case,
  what the operation does; the burn progress bar; the NO_HEAT and NO_FUEL
  conditions.
- `biogas_engine.dfy` (module `BiogasEngine`): the class `EngineBiogas`,
  whose fields are updated in place by `Burn`, `DissipateHeat` and
  `GenerateHeat`. Each method is proved to leave exactly the state that the
  model function computes from the old state. The object invariant `Valid`
  says that no tank is overfull and that the heating tank holds only lava.
- `biogas_lemmas.dfy` (module `BiogasProperties`): properties over several
  calls of burn (a bucket yields its burn duration times its power per
  cycle), and how the tick operations relate to the fuel table and to the
  advisory conditions.

Inputs the base engine class supplies (redstone activation, `mayBurn`) are
parameters of the operations. The constants of the mod (maximum heat, the
heat of lava, the heat generation step, the tank capacity) are parameters
of the constructor.

Three consequences of the code are worth stating, each shown by a lemma:

- A shut down engine whose level lies in (0.2, 0.25] still burns from its
  burn tank and stays shut down, so shutdown does not imply zero output
  (`OutputWhileShutdown`).
- Dissipation subtracts the heat loss without a floor, so heat can become
  negative (`DissipationCanGoNegative`); nothing in the engine clamps heat
  from above either.
- A bucket of a fluid that is not in the fuel table gives no output, yet each
  warm call of burn still drains one more bucket of it from the fuel tank
  (`UnregisteredFuelStalls`). The fuel tank's filter
  (`TileEngineBiogas.java:60`) only admits fluids in the table, so this is
  reachable only when the tank holds a fluid that has since left the table.

## Model

| member | source | states |
|---|---|---|
| Fluids.Drain | src/main/java/forestry/energy/tiles/TileEngineBiogas.java:123-127 | draining n units removes min(n, amount): drained plus remaining equals the old amount, the fluid and capacity are kept, nothing is drained from a tank without fluid, and a tank within capacity stays within it |
| Fuels.FuelValue | src/main/java/forestry/energy/tiles/TileEngineBiogas.java:197-203 | a registered fluid yields its power per cycle, an unregistered one 0 |
| Fuels.BurnTime | src/main/java/forestry/energy/tiles/TileEngineBiogas.java:208-214 | a registered fluid burns for its burn duration, an unregistered one for 0 |
| Fuels.DissipationMultiplier | src/main/java/forestry/energy/tiles/TileEngineBiogas.java:160-167 | heat loss is scaled by the registered multiplier of the fuel tank's fluid, and left unchanged when the tank is empty or its fluid unregistered |
| BiogasModel.Active | src/main/java/forestry/energy/tiles/TileEngineBiogas.java:104 | the guard of burn: false without redstone, and with an empty burn tank it guarantees a whole bucket in the fuel tank |
| BiogasModel.HasLava | src/main/java/forestry/energy/tiles/TileEngineBiogas.java:114 | the heating tank holds a positive amount of lava, so one unit of it can be drained |
| BiogasModel.IsBurning | src/main/java/forestry/energy/tiles/TileEngineBiogas.java:217-220 | burning needs mayBurn and a burn tank that holds a fluid |
| BiogasModel.Reignite | src/main/java/forestry/energy/tiles/TileEngineBiogas.java:108-118 | changes only the shutdown flag, the heat and the heating tank; leaves an engine that is not shut down alone, never sets shutdown, never lowers heat; its effect on flag, heat and lava is specified through `BiogasModel.Burn` |
| BiogasModel.Burn | src/main/java/forestry/energy/tiles/TileEngineBiogas.java:100-137 | output is reset first; disabled or without a bucket and with an empty burn tank nothing else changes; shutdown afterwards is exactly (level <= 0.2 or (shut down and level <= 0.25)); lava adds its heat and drops by 1 only for a shut down engine at level <= 0.25; at level <= 0.2 nothing is drained or produced; warm with a batch, the burn tank drops by exactly 1 and output and energy grow by the fluid's power; warm without a batch, exactly one bucket (guaranteed present) is drained, the fuel tank keeping its fluid, and loaded as a batch whose amount and capacity are its burn time; output is positive only when warm; heat never drops; no tank overfills |
| BiogasModel.HeatGain | src/main/java/forestry/energy/tiles/TileEngineBiogas.java:174-192 | 0 unless enabled with a non-empty burn tank and level > 0.2; 3, 2 or 1 times the base step for level >= 0.75, level in (0.24, 0.75), level in (0.2, 0.24]; never more than 3 steps |
| BiogasModel.HeatLoss | src/main/java/forestry/energy/tiles/TileEngineBiogas.java:144-171 | 0 for heat <= 0; otherwise between 1 and 3 times the dissipation multiplier: 1 when burning and level <= 0.55, 3 when not burning and level > 0.55, 2 in the other two cases |
| BiogasModel.JavaDiv | src/main/java/forestry/energy/tiles/TileEngineBiogas.java:228 | integer division truncating toward zero, as Java's `/` does, characterised by bounds on quotient times divisor |
| BiogasModel.BurnTimeRemainingScaled | src/main/java/forestry/energy/tiles/TileEngineBiogas.java:223-229 | 0 for capacity 0 or an empty tank; within [0, i] (for negative i within [i, 0]) when the tank is within capacity; exactly i for a full tank |
| BiogasModel.ScaledBounds | src/main/java/forestry/energy/tiles/TileEngineBiogas.java:228 | amount * i / capacity lies between 0 and i whenever amount <= capacity, is 0 for amount 0 and i for a full tank |
| BiogasModel.NoHeat | src/main/java/forestry/energy/tiles/TileEngineBiogas.java:89-90 | NO_HEAT holds iff level <= 0.2 and the heating tank is empty |
| BiogasModel.NoFuel | src/main/java/forestry/energy/tiles/TileEngineBiogas.java:92-93 | NO_FUEL holds iff both the burn tank and the fuel tank are empty |
| BiogasEngine.EngineBiogas.constructor | src/main/java/forestry/energy/tiles/TileEngineBiogas.java:55-65 | a new engine is cold and not shut down, with empty tanks, the burn tank sized for one bucket, and satisfies the invariant |
| BiogasEngine.EngineBiogas.Burn | src/main/java/forestry/energy/tiles/TileEngineBiogas.java:100-137 | updating the fields step by step leaves exactly the state `BiogasModel.Burn` gives for the old state, and keeps the invariant |
| BiogasEngine.EngineBiogas.DissipateHeat | src/main/java/forestry/energy/tiles/TileEngineBiogas.java:144-171 | returns `HeatLoss` of the old state, lowers heat by exactly that, with no floor, and changes nothing else |
| BiogasEngine.EngineBiogas.GenerateHeat | src/main/java/forestry/energy/tiles/TileEngineBiogas.java:174-192 | returns `HeatGain` of the old state, raises heat by exactly that, and changes nothing else |
| BiogasEngine.EngineBiogas.GetBurnTimeRemainingScaled | src/main/java/forestry/energy/tiles/TileEngineBiogas.java:223-229 | the progress bar of the engine's burn tank, which the invariant keeps within [0, i] |
| BiogasEngine.EngineBiogas.ErrorConditions | src/main/java/forestry/energy/tiles/TileEngineBiogas.java:87-93 | reports NO_HEAT and NO_FUEL of the current state and changes no field |
| BiogasProperties.BurnOneUnit | src/main/java/forestry/energy/tiles/TileEngineBiogas.java:122-125 | one warm, enabled call with fuel in the burn tank adds that fluid's power to the energy store, removes one unit, keeps the fluid, and leaves the engine warm |
| BiogasProperties.BatchYield | src/main/java/forestry/energy/tiles/TileEngineBiogas.java:122-125 | n warm, enabled calls on a batch of at least n units add n times the fluid's power, drain exactly n units and leave the fuel tank alone |
| BiogasProperties.BucketYield | src/main/java/forestry/energy/tiles/TileEngineBiogas.java:205-214 | one bucket of fuel loaded into a warm engine yields exactly burn duration times power per cycle, over 1 + burn duration calls, and costs the fuel tank exactly one bucket |
| BiogasProperties.UnregisteredFuelStalls | src/main/java/forestry/energy/tiles/TileEngineBiogas.java:127-131 | a bucket of an unregistered fluid is drained and loaded as an empty batch of capacity 0: no output, no energy, a progress bar at 0 |
| BiogasProperties.NoFuelIsInert | src/main/java/forestry/energy/tiles/TileEngineBiogas.java:92-104 | under NO_FUEL burn only resets the output and no heat is generated |
| BiogasProperties.NoHeatIsCold | src/main/java/forestry/energy/tiles/TileEngineBiogas.java:89-135 | under NO_HEAT burn drains nothing, produces nothing, leaves the heat, and shuts an enabled engine down; no heat is generated |
| BiogasProperties.HeatGainMonotone | src/main/java/forestry/energy/tiles/TileEngineBiogas.java:178-186 | a hotter engine generates at least as much heat |
| BiogasProperties.HeatLossMonotone | src/main/java/forestry/energy/tiles/TileEngineBiogas.java:149-166 | a hotter engine loses at least as much heat, other things equal |
| BiogasProperties.ColdDissipationIdempotent | src/main/java/forestry/energy/tiles/TileEngineBiogas.java:145-147 | dissipating a cold engine returns 0 and leaves the state unchanged, again and again |
| BiogasProperties.DissipationCanGoNegative | src/main/java/forestry/energy/tiles/TileEngineBiogas.java:169 | an engine with 1 heat that is not burning ends with heat -1 |
| BiogasProperties.OutputWhileShutdown | src/main/java/forestry/energy/tiles/TileEngineBiogas.java:109-125 | a shut down engine at level 0.22 burns its batch, produces its power and stays shut down |

## Left out

- The tick driver of the base engine class (`TileEngine`, not part of this
  model): the order in which burn, heat generation and dissipation run, the
  20-tick interval of the condition checks, and energy transfer.
- `getHeatLevel` is a floating-point ratio in the base class; the model
  compares `heat` and `maxHeat` exactly by cross-multiplication, which agrees
  with the double comparison for the small integers the engine uses.
- `isRedstoneActivated`, `mayBurn` and `addHeat` belong to the base class,
  which is not part of this model: the first two are inputs, and `addHeat`
  is modelled as plain addition; a clamp at maxHeat in the base class, if
  any, is not captured.
- The energy manager is a plain accumulator; its capacity (300000) and any
  clamp at it are not modelled.
- No 32-bit overflow is modelled: `heat`, the energy store and
  `amount * i` are unbounded integers.
- Fuel table values (power, duration, multiplier) and the constants are
  taken as non-negative.
- The fluid library's tank code is not part of this model. `Drain` assumes
  the behaviour of its `drainInternal`: nothing is drained for n = 0 or from
  a tank without fluid, at most the amount held is drained, and a tank that
  runs dry forgets its fluid; `setCapacity` and `setFluid` are plain field
  updates.
- Filling the tanks (`FluidHelper.drainContainers` and the fuel tank's
  filter) is left out, so the model lets the fuel tank hold a fluid that is
  not in the table.
- `getOperatingTemperatureScaled`: floating point and `Math.round`.
- NBT persistence, network and GUI synchronisation, capabilities, and the
  GUI and container factories: host plumbing, not engine behaviour.
