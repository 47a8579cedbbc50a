/** The body limits that LiteWorld publishes and the body factories check. */
module LiteWorld {

  /** Smallest allowed body area, 0.01 * 0.1 (single-precision rounding not modelled). */
  const MinBodySize: real := 0.01 * 0.1
  /** Largest allowed body area, 64 * 64. */
  const MaxBodySize: real := 64.0 * 64.0

  /** Density limits in g/cm^3. */
  const MinDensity: real := 0.5
  const MaxDensity: real := 22.0

  /** The limits form non-empty ranges. */
  lemma LimitsAreOrdered()
    ensures 0.0 < MinBodySize < MaxBodySize
    ensures 0.0 < MinDensity < MaxDensity
    ensures MinBodySize == 0.001 && MaxBodySize == 4096.0
  {
  }
}
