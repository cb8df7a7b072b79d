/** Time in the models: natural numbers of nanoseconds on a monotone clock. */
module Instants {
  const SECOND: nat := 1_000_000_000
  const MILLISECOND: nat := 1_000_000
}
