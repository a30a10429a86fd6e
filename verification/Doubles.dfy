/** Double-precision values without their rounding. */
module Doubles {

  /** Any finite value, or one of the infinities and NaNs, which the modelled
      operations treat alike. */
  datatype Number = Finite(r: real) | NonFinite
}
