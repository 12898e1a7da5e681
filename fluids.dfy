/** Fluids, fluid stacks and fluid tanks, as the biogas engine uses them. */
module Fluids {

  datatype Option<+T> = None | Some(value: T)

  /** A fluid is identified by its registry name. */
  type Fluid = string

  /** The only fluid the heating tank accepts. */
  const LAVA: Fluid := "lava"

  /** The volume of one bucket, in millibuckets. */
  const BUCKET_VOLUME: nat := 1000

  /** A quantity of one fluid. */
  datatype FluidStack = FluidStack(fluid: Fluid, amount: nat)

  /** A tank holds one stack or nothing, and has a capacity. */
  datatype Tank = Tank(contents: Option<FluidStack>, capacity: nat)

  /** The amount of fluid in the tank; an empty tank holds 0. */
  function Amount(t: Tank): nat
  {
    if t.contents.Some? then t.contents.value.amount else 0
  }

  /** The tank holds no more than its capacity. */
  predicate TankOk(t: Tank)
  {
    Amount(t) <= t.capacity
  }

  function EmptyTank(capacity: nat): (t: Tank)
    ensures Amount(t) == 0 && t.capacity == capacity && TankOk(t)
  {
    Tank(None, capacity)
  }

  function Min(a: nat, b: nat): (m: nat)
    ensures m <= a && m <= b && (m == a || m == b)
  {
    if a <= b then a else b
  }

  /**
   * Removes up to n units from the tank. The result is the new tank and the
   * stack that was drained; nothing is drained from a tank without fluid or
   * when n is 0, and a tank that runs dry forgets its fluid.
   */
  function Drain(t: Tank, n: nat): (r: (Tank, Option<FluidStack>))
    ensures r.0.capacity == t.capacity
    ensures r.1.Some? <==> t.contents.Some? && n > 0
    ensures r.1.Some? ==> r.1.value.fluid == t.contents.value.fluid && r.1.value.amount == Min(n, Amount(t))
    ensures Amount(r.0) + (if r.1.Some? then r.1.value.amount else 0) == Amount(t)
    ensures r.0.contents.Some? ==> t.contents.Some? && r.0.contents.value.fluid == t.contents.value.fluid
    ensures TankOk(t) ==> TankOk(r.0)
  {
    match t.contents
    case None => (t, None)
    case Some(stack) =>
      if n == 0 then (t, None)
      else
        var drained := Min(n, stack.amount);
        var left := stack.amount - drained;
        (Tank(if left == 0 then None else Some(FluidStack(stack.fluid, left)), t.capacity),
         Some(FluidStack(stack.fluid, drained)))
  }
}
