/** Floating-point values over the reals: a number, or one of NaN and the infinities. */
module Floats {
  datatype Float = Finite(value: real) | NotFinite
}
