/**
 Vectors of the magnetometer model. Single-precision floats of the firmware
 are modelled as mathematical reals throughout.
 */
module Geometry {

  /** The three sensor axes, in the order the firmware stores them. */
  datatype Axis = X | Y | Z

  /** A raw field reading or a fitted centre: (x, y, z). */
  datatype Vec3 = Vec3(x: real, y: real, z: real) {

    /** The component along one axis. */
    function Get(a: Axis): (r: real) {
      match a
      case X => x
      case Y => y
      case Z => z
    }
  }

  function Abs(r: real): (a: real)
    ensures a >= 0.0
    ensures a == r || a == -r
  {
    if r < 0.0 then -r else r
  }
}
