/**
 * The engine's heat level is the ratio heat / maxHeat. Each threshold the
 * engine tests is written as an integer cross-multiplication, so that no
 * floating point is involved: heat / maxHeat > 0.2 is 5 * heat > maxHeat.
 */
module HeatLevel {

  /** level > 0.2: warm enough to burn fuel. */
  predicate Gt20(heat: int, maxHeat: nat)
  {
    5 * heat > maxHeat
  }

  /** level > 0.24: the middle heat generation tier. */
  predicate Gt24(heat: int, maxHeat: nat)
  {
    25 * heat > 6 * maxHeat
  }

  /** level > 0.25: safe to leave shutdown. */
  predicate Gt25(heat: int, maxHeat: nat)
  {
    4 * heat > maxHeat
  }

  /** level > 0.55: hot enough to lose heat faster. */
  predicate Gt55(heat: int, maxHeat: nat)
  {
    20 * heat > 11 * maxHeat
  }

  /** level >= 0.75: the top heat generation tier. */
  predicate Ge75(heat: int, maxHeat: nat)
  {
    4 * heat >= 3 * maxHeat
  }
}
