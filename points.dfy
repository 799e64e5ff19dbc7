/** Point.java: one stylus sample. */
module Points {

  /**
   * A sampled position and pressure. The Java fields are floats; here they are
   * reals, and pressure carries no range: the raw event value is stored.
   */
  datatype Point = Point(x: real, y: real, pressure: real)
}
