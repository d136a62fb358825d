/** Value types shared by the text layout engine: 2D vectors, colours, vertices,
    rectangles, glyph descriptors, and the float rounding functions the engine
    calls (std::floor, std::ceil, std::round, std::abs, std::min, std::max).
    C++ floats are modelled as exact reals. */
module Primitives {

  datatype Vec2 = Vec2(x: real, y: real)

  type Byte = n: int | 0 <= n < 256

  /** An RGBA colour, one byte per channel. */
  datatype Color = Color(r: Byte, g: Byte, b: Byte, a: Byte)

  const White: Color := Color(255, 255, 255, 255)
  const Black: Color := Color(0, 0, 0, 255)

  /** One vertex of a triangle list: position, colour and texture coordinate. */
  datatype Vertex = Vertex(position: Vec2, color: Color, texCoords: Vec2)

  datatype FloatRect = FloatRect(left: real, top: real, width: real, height: real)

  const EmptyRect: FloatRect := FloatRect(0.0, 0.0, 0.0, 0.0)

  /** An integer rectangle, as used for a glyph's region in the font atlas. */
  datatype IntRect = IntRect(left: int, top: int, width: int, height: int)

  /** A font's description of one rendered character. */
  datatype Glyph = Glyph(advance: real, bounds: FloatRect, textureRect: IntRect)

  /** std::min: the smaller argument. */
  function Min(a: real, b: real): (r: real)
    ensures r <= a && r <= b
    ensures r == a || r == b
  {
    if b < a then b else a
  }

  /** std::max: the larger argument. */
  function Max(a: real, b: real): (r: real)
    ensures a <= r && b <= r
    ensures r == a || r == b
  {
    if a < b then b else a
  }

  function Abs(v: real): (r: real)
    ensures 0.0 <= r
    ensures r == v || r == -v
  {
    if v < 0.0 then -v else v
  }

  /** std::ceil: the least integer not below v. */
  function Ceil(v: real): (r: int)
    ensures v <= r as real < v + 1.0
  {
    -((-v).Floor)
  }

  /** std::round: nearest integer, halfway cases rounded away from zero. */
  function Round(v: real): (r: int)
    ensures 0.0 <= v ==> v - 0.5 < r as real <= v + 0.5
    ensures v < 0.0 ==> v - 0.5 <= r as real < v + 0.5
  {
    if 0.0 <= v then (v + 0.5).Floor else -((-v + 0.5).Floor)
  }
}
