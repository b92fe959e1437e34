// Points of the drawing plane (`glm::vec2`). The coordinates are
// single-precision floats in the program; they are only copied, compared
// and added here, so they are kept as reals and rounding is not modelled.

module Geometry {
  datatype Vec2 = Vec2(x: real, y: real)

  /** Componentwise sum (`glm::vec2 + glm::vec2`). */
  function Plus(a: Vec2, b: Vec2): Vec2
  {
    Vec2(a.x + b.x, a.y + b.y)
  }
}
