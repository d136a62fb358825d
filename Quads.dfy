/** The two vertex emitters of the text engine (addLine and addGlyphQuad), and the
    in-place colour repaint used by the colour setters. Each emitter produces the six
    vertices (two triangles, no index buffer) that the caller appends to a buffer. */
module Quads {
  import opened Primitives

  /** The pixel row where a decoration line starts: its nominal top edge plus a half,
      floored, which is the whole pixel nearest to that edge, halfway cases going down
      the screen. */
  function SnappedTop(lineTop: real, offset: real, thickness: real): (r: real)
    ensures r == r.Floor as real
    ensures r - 0.5 <= lineTop + offset - thickness / 2.0 < r + 0.5
  {
    (lineTop + offset - thickness / 2.0 + 0.5).Floor as real
  }

  /** The number of pixel rows a decoration line covers: its thickness plus a half,
      floored, which is the whole number nearest to the thickness, halfway cases going
      up. */
  function SnappedHeight(thickness: real): (r: real)
    ensures r == r.Floor as real
    ensures r - 0.5 <= thickness < r + 0.5
  {
    (thickness + 0.5).Floor as real
  }

  /** Every vertex of vs has colour c. */
  predicate AllColored(vs: seq<Vertex>, c: Color)
  {
    forall i :: 0 <= i < |vs| ==> vs[i].color == c
  }

  const LineTexCoords: Vec2 := Vec2(1.0, 1.0)

  /** addLine: a solid rectangle from lineLeft to lineRight, pixel-snapped vertically,
      widened on every side by outlineThickness (zero for a fill line). */
  function LineQuad(lineLeft: real, lineRight: real, lineTop: real, color: Color,
                    offset: real, thickness: real, outlineThickness: real): (r: seq<Vertex>)
    ensures |r| == 6
  {
    var top := SnappedTop(lineTop, offset, thickness);
    var bottom := top + SnappedHeight(thickness);
    var o := outlineThickness;
    [Vertex(Vec2(lineLeft - o, top - o), color, LineTexCoords),
     Vertex(Vec2(lineRight + o, top - o), color, LineTexCoords),
     Vertex(Vec2(lineLeft - o, bottom + o), color, LineTexCoords),
     Vertex(Vec2(lineLeft - o, bottom + o), color, LineTexCoords),
     Vertex(Vec2(lineRight + o, top - o), color, LineTexCoords),
     Vertex(Vec2(lineRight + o, bottom + o), color, LineTexCoords)]
  }

  /** The six vertices of a decoration line are the four corners of the snapped
      rectangle widened by the outline thickness, as two triangles sharing the
      diagonal from top-right to bottom-left: the first triangle starts at the
      top-left corner and the second ends at the bottom-right one. All are in the
      given colour and at the fixed texture coordinate. */
  lemma LineQuadCorners(lineLeft: real, lineRight: real, lineTop: real, color: Color,
                        offset: real, thickness: real, outlineThickness: real)
    ensures var r := LineQuad(lineLeft, lineRight, lineTop, color, offset, thickness, outlineThickness);
            var top := SnappedTop(lineTop, offset, thickness) - outlineThickness;
            var bottom := SnappedTop(lineTop, offset, thickness) + SnappedHeight(thickness) + outlineThickness;
            var left := lineLeft - outlineThickness;
            var right := lineRight + outlineThickness;
            AllColored(r, color)
            && (forall v | v in r :: v.texCoords == LineTexCoords)
            && (set v | v in r :: v.position)
                 == {Vec2(left, top), Vec2(right, top), Vec2(left, bottom), Vec2(right, bottom)}
            && r[0].position == Vec2(left, top) && r[5].position == Vec2(right, bottom)
            && r[1] == r[4] && r[2] == r[3]
  {
    var r := LineQuad(lineLeft, lineRight, lineTop, color, offset, thickness, outlineThickness);
    var top := SnappedTop(lineTop, offset, thickness) - outlineThickness;
    var bottom := SnappedTop(lineTop, offset, thickness) + SnappedHeight(thickness) + outlineThickness;
    var left := lineLeft - outlineThickness;
    var right := lineRight + outlineThickness;
    assert r[0].position == Vec2(left, top);
    assert r[1].position == Vec2(right, top);
    assert r[2].position == Vec2(left, bottom);
    assert r[5].position == Vec2(right, bottom);
  }

  /** Padding, in pixels, added around a glyph's box and its atlas rectangle. */
  const GlyphPadding: real := 1.0

  /** addGlyphQuad: the textured, possibly sheared quad of one glyph. */
  function GlyphQuad(position: Vec2, color: Color, glyph: Glyph, italicShear: real): (r: seq<Vertex>)
    ensures |r| == 6
  {
    var left := glyph.bounds.left - GlyphPadding;
    var top := glyph.bounds.top - GlyphPadding;
    var right := glyph.bounds.left + glyph.bounds.width + GlyphPadding;
    var bottom := glyph.bounds.top + glyph.bounds.height + GlyphPadding;
    var u1 := glyph.textureRect.left as real - GlyphPadding;
    var v1 := glyph.textureRect.top as real - GlyphPadding;
    var u2 := (glyph.textureRect.left + glyph.textureRect.width) as real + GlyphPadding;
    var v2 := (glyph.textureRect.top + glyph.textureRect.height) as real + GlyphPadding;
    [Vertex(Vec2(position.x + left - italicShear * top, position.y + top), color, Vec2(u1, v1)),
     Vertex(Vec2(position.x + right - italicShear * top, position.y + top), color, Vec2(u2, v1)),
     Vertex(Vec2(position.x + left - italicShear * bottom, position.y + bottom), color, Vec2(u1, v2)),
     Vertex(Vec2(position.x + left - italicShear * bottom, position.y + bottom), color, Vec2(u1, v2)),
     Vertex(Vec2(position.x + right - italicShear * top, position.y + top), color, Vec2(u2, v1)),
     Vertex(Vec2(position.x + right - italicShear * bottom, position.y + bottom), color, Vec2(u2, v2))]
  }

  /** The corner of the glyph box padded by one pixel on the given sides, placed at
      position and sheared by its height, paired with the matching corner of the atlas
      rectangle padded by one pixel. */
  function PaddedCorner(position: Vec2, glyph: Glyph, italicShear: real, right: bool, bottom: bool): (r: (Vec2, Vec2))
    ensures r.0.y == position.y + (if bottom then glyph.bounds.top + glyph.bounds.height + GlyphPadding
                                   else glyph.bounds.top - GlyphPadding)
  {
    var b := glyph.bounds;
    var t := glyph.textureRect;
    var dx := if right then b.left + b.width + GlyphPadding else b.left - GlyphPadding;
    var dy := if bottom then b.top + b.height + GlyphPadding else b.top - GlyphPadding;
    var u := if right then (t.left + t.width) as real + GlyphPadding else t.left as real - GlyphPadding;
    var v := if bottom then (t.top + t.height) as real + GlyphPadding else t.top as real - GlyphPadding;
    (Vec2(position.x + dx - italicShear * dy, position.y + dy), Vec2(u, v))
  }

  /** A glyph quad is the padded, sheared glyph box: its six vertices carry exactly the
      four padded corners with their padded atlas corners, as two triangles sharing the
      diagonal from top-right to bottom-left (the first starts at the top-left corner,
      the second ends at the bottom-right one), all in the given colour. */
  lemma GlyphQuadCorners(position: Vec2, color: Color, glyph: Glyph, italicShear: real)
    ensures var r := GlyphQuad(position, color, glyph, italicShear);
            AllColored(r, color)
            && (set v | v in r :: (v.position, v.texCoords))
                 == {PaddedCorner(position, glyph, italicShear, false, false),
                     PaddedCorner(position, glyph, italicShear, true, false),
                     PaddedCorner(position, glyph, italicShear, false, true),
                     PaddedCorner(position, glyph, italicShear, true, true)}
            && (r[0].position, r[0].texCoords) == PaddedCorner(position, glyph, italicShear, false, false)
            && (r[5].position, r[5].texCoords) == PaddedCorner(position, glyph, italicShear, true, true)
            && r[1] == r[4] && r[2] == r[3]
  {
    var r := GlyphQuad(position, color, glyph, italicShear);
    CornerOf(r[0], PaddedCorner(position, glyph, italicShear, false, false));
    CornerOf(r[1], PaddedCorner(position, glyph, italicShear, true, false));
    CornerOf(r[2], PaddedCorner(position, glyph, italicShear, false, true));
    CornerOf(r[5], PaddedCorner(position, glyph, italicShear, true, true));
  }

  lemma CornerOf(v: Vertex, c: (Vec2, Vec2))
    requires v.position == c.0 && v.texCoords == c.1
    ensures (v.position, v.texCoords) == c
  {
  }

  /** The colour setters' in-place pass: every vertex takes the new colour. */
  function Repaint(vertices: seq<Vertex>, color: Color): (r: seq<Vertex>)
    ensures |r| == |vertices|
    ensures forall i :: 0 <= i < |r| ==>
              r[i].color == color
              && r[i].position == vertices[i].position
              && r[i].texCoords == vertices[i].texCoords
  {
    seq(|vertices|, i requires 0 <= i < |vertices| => vertices[i].(color := color))
  }

  lemma RepaintAppend(a: seq<Vertex>, b: seq<Vertex>, color: Color)
    ensures Repaint(a + b, color) == Repaint(a, color) + Repaint(b, color)
  {
    assert forall i :: 0 <= i < |a + b| ==> Repaint(a + b, color)[i] == (Repaint(a, color) + Repaint(b, color))[i];
  }

  /** Repainting a decoration line is the same as emitting it in the new colour. */
  lemma RepaintLineQuad(lineLeft: real, lineRight: real, lineTop: real, c0: Color, color: Color,
                        offset: real, thickness: real, outlineThickness: real)
    ensures Repaint(LineQuad(lineLeft, lineRight, lineTop, c0, offset, thickness, outlineThickness), color)
         == LineQuad(lineLeft, lineRight, lineTop, color, offset, thickness, outlineThickness)
  {
  }

  /** Repainting a glyph quad is the same as emitting it in the new colour. */
  lemma RepaintGlyphQuad(position: Vec2, c0: Color, color: Color, glyph: Glyph, italicShear: real)
    ensures Repaint(GlyphQuad(position, c0, glyph, italicShear), color)
         == GlyphQuad(position, color, glyph, italicShear)
  {
  }
}
