/** The text object: its style fields, the lazily rebuilt geometry cache behind a
    dirty flag and a recorded font texture id, and the operations that read and
    update them. Each loop is proved against the corresponding fold of the Layout
    and Geometry modules. */
module TextObject {
  import opened Primitives
  import opened Fonts
  import opened Styles
  import opened Quads
  import opened Layout
  import opened Geometry

  class Text {
    // Style
    var str: seq<char>
    var font: Font
    var characterSize: nat
    var letterSpacingFactor: real
    var lineSpacingFactor: real
    var style: bv32
    var fillColor: Color
    var outlineColor: Color
    var outlineThickness: real
    var lineAlignment: LineAlignment

    // Derived state and the geometry cache
    var lineOffsets: seq<real>
    var vertices: seq<Vertex>
    var outlineVertices: seq<Vertex>
    var bounds: FloatRect
    var geometryNeedUpdate: bool
    var fontTextureId: nat

    /** The style fields, with the font's current atlas id for the character size. */
    function CurrentStyle(): (r: Style)
      reads this`str, this`font, this`characterSize, this`letterSpacingFactor, this`lineSpacingFactor,
            this`style, this`fillColor, this`outlineColor, this`outlineThickness, this`lineAlignment,
            font`textureCacheIdOf
    {
      Style(str, font, characterSize, letterSpacingFactor, lineSpacingFactor, style,
            fillColor, outlineColor, outlineThickness, lineAlignment, font.textureCacheIdOf(characterSize))
    }

    /** The cache holds exactly the geometry of the current style, in the font's
        current atlas. */
    ghost predicate Cached()
      reads this, font
    {
      var g := Build(CurrentStyle());
      vertices == g.fill && outlineVertices == g.outline && bounds == g.bounds
    }

    /** Whenever the flag is clear and the recorded texture id is the font's current
        atlas id, the cache is up to date with the style. A repacked atlas has a new
        id, so it falls outside the invariant until the next rebuild; a zero id marks
        a text that was never built. */
    ghost predicate Valid()
      reads this, font
    {
      !geometryNeedUpdate && fontTextureId == font.textureCacheIdOf(characterSize) ==> Cached()
    }

    /** A new text with the given font, string and size; every other field takes its
        declared default, the flag is clear and no texture id is recorded. */
    constructor (font: Font, s: seq<char>, characterSize: nat)
      ensures str == s && this.font == font && this.characterSize == characterSize
      ensures letterSpacingFactor == 1.0 && lineSpacingFactor == 1.0 && style == Regular
      ensures fillColor == White && outlineColor == Black && outlineThickness == 0.0
      ensures lineAlignment == Left
      ensures lineOffsets == [] && vertices == [] && outlineVertices == [] && bounds == EmptyRect
      ensures !geometryNeedUpdate && fontTextureId == 0
      ensures Valid()
    {
      str := s;
      this.font := font;
      this.characterSize := characterSize;
      letterSpacingFactor := 1.0;
      lineSpacingFactor := 1.0;
      style := Regular;
      fillColor := White;
      outlineColor := Black;
      outlineThickness := 0.0;
      lineAlignment := Left;
      lineOffsets := [];
      vertices := [];
      outlineVertices := [];
      bounds := EmptyRect;
      geometryNeedUpdate := false;
      fontTextureId := 0;
    }

    // -------------------------------------------------------------------------
    // Setters that change the geometry: the flag is raised only on a real change

    method SetString(s: seq<char>)
      requires Valid()
      modifies this`str, this`geometryNeedUpdate
      ensures Valid()
      ensures str == s
      ensures geometryNeedUpdate == (old(geometryNeedUpdate) || s != old(str))
    {
      if str != s {
        str := s;
        geometryNeedUpdate := true;
      }
    }

    method SetFont(f: Font)
      requires Valid()
      modifies this`font, this`geometryNeedUpdate
      ensures Valid()
      ensures font == f
      ensures geometryNeedUpdate == (old(geometryNeedUpdate) || f != old(font))
    {
      if font != f {
        font := f;
        geometryNeedUpdate := true;
      }
    }

    method SetCharacterSize(size: nat)
      requires Valid()
      modifies this`characterSize, this`geometryNeedUpdate
      ensures Valid()
      ensures characterSize == size
      ensures geometryNeedUpdate == (old(geometryNeedUpdate) || size != old(characterSize))
    {
      if characterSize != size {
        characterSize := size;
        geometryNeedUpdate := true;
      }
    }

    method SetLetterSpacing(spacingFactor: real)
      requires Valid()
      modifies this`letterSpacingFactor, this`geometryNeedUpdate
      ensures Valid()
      ensures letterSpacingFactor == spacingFactor
      ensures geometryNeedUpdate == (old(geometryNeedUpdate) || spacingFactor != old(letterSpacingFactor))
    {
      if letterSpacingFactor != spacingFactor {
        letterSpacingFactor := spacingFactor;
        geometryNeedUpdate := true;
      }
    }

    method SetLineSpacing(spacingFactor: real)
      requires Valid()
      modifies this`lineSpacingFactor, this`geometryNeedUpdate
      ensures Valid()
      ensures lineSpacingFactor == spacingFactor
      ensures geometryNeedUpdate == (old(geometryNeedUpdate) || spacingFactor != old(lineSpacingFactor))
    {
      if lineSpacingFactor != spacingFactor {
        lineSpacingFactor := spacingFactor;
        geometryNeedUpdate := true;
      }
    }

    method SetStyle(bits: bv32)
      requires Valid()
      modifies this`style, this`geometryNeedUpdate
      ensures Valid()
      ensures style == bits
      ensures geometryNeedUpdate == (old(geometryNeedUpdate) || bits != old(style))
    {
      if style != bits {
        style := bits;
        geometryNeedUpdate := true;
      }
    }

    method SetOutlineThickness(thickness: real)
      requires Valid()
      modifies this`outlineThickness, this`geometryNeedUpdate
      ensures Valid()
      ensures outlineThickness == thickness
      ensures geometryNeedUpdate == (old(geometryNeedUpdate) || thickness != old(outlineThickness))
    {
      if thickness != outlineThickness {
        outlineThickness := thickness;
        geometryNeedUpdate := true;
      }
    }

    /** Raises the flag on a change, then stores the alignment unconditionally. */
    method SetLineAlignment(alignment: LineAlignment)
      requires Valid()
      modifies this`lineAlignment, this`geometryNeedUpdate
      ensures Valid()
      ensures lineAlignment == alignment
      ensures geometryNeedUpdate == (old(geometryNeedUpdate) || alignment != old(lineAlignment))
    {
      if lineAlignment != alignment {
        geometryNeedUpdate := true;
      }
      lineAlignment := alignment;
    }

    // -------------------------------------------------------------------------
    // Colour setters: repaint the cached vertices in place instead of rebuilding

    method SetFillColor(color: Color)
      requires Valid()
      modifies this`fillColor, this`vertices
      ensures Valid()
      ensures fillColor == color
      ensures vertices == if color != old(fillColor) && !geometryNeedUpdate
                          then Repaint(old(vertices), color) else old(vertices)
    {
      if color != fillColor {
        ghost var before := CurrentStyle();
        fillColor := color;
        if !geometryNeedUpdate {
          PaintFill(color);
          BuildRepaintFill(before, color);
        }
      }
    }

    /** The fill colour setter's loop: every vertex of the fill buffer takes the
        new colour in place. */
    method PaintFill(color: Color)
      modifies this`vertices
      ensures vertices == Repaint(old(vertices), color)
    {
      for i := 0 to |vertices|
        invariant |vertices| == |old(vertices)|
        invariant forall k :: 0 <= k < i ==> vertices[k] == old(vertices)[k].(color := color)
        invariant forall k :: i <= k < |vertices| ==> vertices[k] == old(vertices)[k]
      {
        vertices := vertices[i := vertices[i].(color := color)];
      }
    }

    method SetOutlineColor(color: Color)
      requires Valid()
      modifies this`outlineColor, this`outlineVertices
      ensures Valid()
      ensures outlineColor == color
      ensures outlineVertices == if color != old(outlineColor) && !geometryNeedUpdate
                                 then Repaint(old(outlineVertices), color) else old(outlineVertices)
    {
      if color != outlineColor {
        ghost var before := CurrentStyle();
        outlineColor := color;
        if !geometryNeedUpdate {
          PaintOutline(color);
          BuildRepaintOutline(before, color);
        }
      }
    }

    /** The outline colour setter's loop: every vertex of the outline buffer takes the
        new colour in place. */
    method PaintOutline(color: Color)
      modifies this`outlineVertices
      ensures outlineVertices == Repaint(old(outlineVertices), color)
    {
      for i := 0 to |outlineVertices|
        invariant |outlineVertices| == |old(outlineVertices)|
        invariant forall k :: 0 <= k < i ==> outlineVertices[k] == old(outlineVertices)[k].(color := color)
        invariant forall k :: i <= k < |outlineVertices| ==> outlineVertices[k] == old(outlineVertices)[k]
      {
        outlineVertices := outlineVertices[i := outlineVertices[i].(color := color)];
      }
    }

    // -------------------------------------------------------------------------
    // Line offsets

    /** Measures every line, then turns the widths into rounded alignment offsets in
        place. */
    method UpdateLineOffsets()
      modifies this`lineOffsets
      ensures lineOffsets == LineOffsets(CurrentStyle())
    {
      var maxWidth := MeasureLines();
      AlignLines(maxWidth);
    }

    /** The first loop of updateLineOffsets: the width of every '\n'-terminated line,
        then of the trailing line, goes into lineOffsets; the widest
        '\n'-terminated line is returned. */
    method MeasureLines() returns (maxWidth: real)
      modifies this`lineOffsets
      ensures lineOffsets == LineWidths(MetricsOf(CurrentStyle()), str)
      ensures maxWidth == MeasurePrefix(MetricsOf(CurrentStyle()), str).maxWidth
    {
      lineOffsets := [];
      var isBold := HasFlag(style, Bold);
      var atlas := font.textureCacheIdOf(characterSize);
      var spacing := SpacingOf(font, characterSize, isBold, atlas, letterSpacingFactor, lineSpacingFactor);
      ghost var m := MetricsOf(CurrentStyle());
      var x := 0.0;
      var prevChar := NoChar;
      maxWidth := 0.0;
      for i := 0 to |str|
        invariant MeasurePrefix(m, str[..i]) == Measure(lineOffsets, x, prevChar, maxWidth)
      {
        var curChar := str[i];
        assert str[..i + 1][..i] == str[..i];
        assert MeasurePrefix(m, str[..i + 1]) == MeasureStep(m, MeasurePrefix(m, str[..i]), curChar);
        x := x + font.kerningOf(prevChar, curChar, characterSize, isBold);
        prevChar := curChar;
        if curChar == ' ' {
          x := x + spacing.whitespaceWidth;
        } else if curChar == '\t' {
          x := x + spacing.whitespaceWidth * 4.0;
        } else if curChar == '\n' {
          if x > maxWidth {
            maxWidth := x;
          }
          lineOffsets := lineOffsets + [x];
          x := 0.0;
        } else {
          x := x + font.glyphOf(curChar, characterSize, isBold, 0.0, atlas).advance + spacing.letterSpacing;
        }
      }
      assert str[..|str|] == str;
      lineOffsets := lineOffsets + [x];
    }

    /** The second loop of updateLineOffsets: each width becomes its line's offset
        under the alignment, rounded to a whole pixel. */
    method AlignLines(maxWidth: real)
      modifies this`lineOffsets
      ensures |lineOffsets| == |old(lineOffsets)|
      ensures forall k :: 0 <= k < |lineOffsets| ==>
                lineOffsets[k] == Round(AlignedOffset(lineAlignment, maxWidth, old(lineOffsets)[k])) as real
    {
      ghost var widths := lineOffsets;
      for i := 0 to |lineOffsets|
        invariant |lineOffsets| == |widths|
        invariant forall k :: 0 <= k < i ==>
                    lineOffsets[k] == Round(AlignedOffset(lineAlignment, maxWidth, widths[k])) as real
        invariant forall k :: i <= k < |widths| ==> lineOffsets[k] == widths[k]
      {
        match lineAlignment {
          case Right => lineOffsets := lineOffsets[i := maxWidth - lineOffsets[i]];
          case Center => lineOffsets := lineOffsets[i := (maxWidth - lineOffsets[i]) / 2.0];
          case Left => lineOffsets := lineOffsets[i := 0.0];
        }
        lineOffsets := lineOffsets[i := Round(lineOffsets[i]) as real];
      }
    }

    // -------------------------------------------------------------------------
    // Position query

    /** The position of the index-th character (clamped to the end of the string),
        after the caret walk from the first line's offset, mapped through the
        object's transform. */
    method FindCharacterPos(index: nat, transform: Vec2 -> Vec2) returns (position: Vec2)
      requires Valid()
      modifies this`lineOffsets
      ensures Valid()
      ensures lineOffsets == LineOffsets(CurrentStyle()) && |lineOffsets| > 0
      ensures position == transform(CaretPrefix(MetricsOf(CurrentStyle()), lineOffsets[0],
                                                str[..if index > |str| then |str| else index]).position)
      ensures index == 0 ==> position == transform(Vec2(lineOffsets[0], 0.0))
    {
      var n := index;
      if n > |str| {
        n := |str|;
      }
      UpdateLineOffsets();
      var isBold := HasFlag(style, Bold);
      var atlas := font.textureCacheIdOf(characterSize);
      var spacing := SpacingOf(font, characterSize, isBold, atlas, letterSpacingFactor, lineSpacingFactor);
      ghost var m := MetricsOf(CurrentStyle());
      var pos := Vec2(lineOffsets[0], 0.0);
      var prevChar := NoChar;
      for i := 0 to n
        invariant CaretPrefix(m, lineOffsets[0], str[..i]) == Caret(pos, prevChar)
      {
        var curChar := str[i];
        assert str[..i + 1][..i] == str[..i];
        pos := pos.(x := pos.x + font.kerningOf(prevChar, curChar, characterSize, isBold));
        prevChar := curChar;
        if curChar == ' ' {
          pos := pos.(x := pos.x + spacing.whitespaceWidth);
        } else if curChar == '\t' {
          pos := pos.(x := pos.x + spacing.whitespaceWidth * 4.0);
        } else if curChar == '\n' {
          pos := Vec2(0.0, pos.y + spacing.lineSpacing);
        } else {
          pos := pos.(x := pos.x + font.glyphOf(curChar, characterSize, isBold, 0.0, atlas).advance + spacing.letterSpacing);
        }
      }
      position := transform(pos);
    }

    // -------------------------------------------------------------------------
    // The geometry cache

    /** Rebuilds the geometry unless the flag is clear and the font's texture still
        has the recorded id; either way the cache then holds the geometry of the
        current style, so a second call with nothing changed in between does nothing. */
    method EnsureGeometryUpdate()
      requires Valid()
      modifies this`lineOffsets, this`vertices, this`outlineVertices, this`bounds,
               this`geometryNeedUpdate, this`fontTextureId
      ensures Valid() && Cached()
      ensures !geometryNeedUpdate && fontTextureId == font.textureCacheIdOf(characterSize)
      ensures old(!geometryNeedUpdate && fontTextureId == font.textureCacheIdOf(characterSize)) ==>
                lineOffsets == old(lineOffsets) && vertices == old(vertices)
                && outlineVertices == old(outlineVertices) && bounds == old(bounds)
      ensures str == [] ==> vertices == [] && outlineVertices == [] && bounds == EmptyRect
      ensures old(geometryNeedUpdate || fontTextureId != font.textureCacheIdOf(characterSize)) ==>
                lineOffsets == if str == [] then old(lineOffsets) else LineOffsets(CurrentStyle())
    {
      if !geometryNeedUpdate && font.textureCacheIdOf(characterSize) == fontTextureId {
        return;
      }
      fontTextureId := font.textureCacheIdOf(characterSize);
      geometryNeedUpdate := false;
      Regenerate();
    }

    /** The rebuild proper: the buffers and bounds are cleared and, for a non-empty
        string, the line offsets are recomputed and the geometry laid out again. */
    method Regenerate()
      modifies this`lineOffsets, this`vertices, this`outlineVertices, this`bounds
      ensures Cached()
      ensures str == [] ==> vertices == [] && outlineVertices == [] && bounds == EmptyRect
      ensures lineOffsets == if str == [] then old(lineOffsets) else LineOffsets(CurrentStyle())
    {
      vertices := [];
      outlineVertices := [];
      bounds := EmptyRect;
      if str == [] {
        return;
      }
      UpdateLineOffsets();
      Rebuild();
    }

    /** The body of the rebuild for a non-empty string, once the line offsets are up
        to date: the walk over the string, then the outline padding, the closing
        decoration and the bounds. */
    method Rebuild()
      requires str != [] && lineOffsets == LineOffsets(CurrentStyle())
      requires vertices == [] && outlineVertices == []
      modifies this`vertices, this`outlineVertices, this`bounds
      ensures Cached()
    {
      ghost var st := CurrentStyle();
      var p := PenOf(CurrentStyle());
      var x, y, minX, minY, maxX, maxY, horizontalOffset;
      ghost var w;
      x, y, minX, minY, maxX, maxY, horizontalOffset, w := LayOut(p);

      if outlineThickness != 0.0 {
        var outline := Abs(Ceil(outlineThickness) as real);
        minX := minX - outline;
        maxX := maxX + outline;
        minY := minY - outline;
        maxY := maxY + outline;
      }

      // the last line, unless the text ends at the start of a line
      if x > 0.0 {
        AddLines(p, horizontalOffset, x, y);
      }

      bounds := FloatRect(minX, minY, maxX - minX, maxY - minY);
      assert Build(st) == Finish(p, w);
      assert CurrentStyle() == st;
    }

    /** The rebuild loop: every code point of the string laid out in turn, the
        buffers filled in place; the result is the cursor and box the loop ends with. */
    method LayOut(p: Pen)
      returns (x: real, y: real, minX: real, minY: real, maxX: real, maxY: real,
               horizontalOffset: real, ghost w: Cursor)
      requires p.metrics.size == characterSize
      requires p.fillColor == fillColor && p.outlineColor == outlineColor
      requires p.outlineThickness == outlineThickness
      requires |lineOffsets| == CountOf(str, '\n') + 1
      requires vertices == [] && outlineVertices == []
      modifies this`vertices, this`outlineVertices
      ensures w == Walk(p, lineOffsets, str)
      ensures w == Cursor(x, y, minX, minY, maxX, maxY, w.prevChar, w.line, horizontalOffset,
                          vertices, outlineVertices)
    {
      ghost var offsets := lineOffsets;
      var m := p.metrics;

      x := lineOffsets[0];
      y := characterSize as real;
      minX := characterSize as real;
      minY := characterSize as real;
      maxX := 0.0;
      maxY := 0.0;
      var prevChar := NoChar;
      var line: nat := 0;
      horizontalOffset := x;
      for i := 0 to |str|
        modifies this`vertices, this`outlineVertices
        invariant Cursor(x, y, minX, minY, maxX, maxY, prevChar, line, horizontalOffset, vertices, outlineVertices)
                  == Walk(p, offsets, str[..i])
        invariant line == CountOf(str[..i], '\n')
      {
        var curChar := str[i];
        assert str[..i + 1][..i] == str[..i];
        assert CountOf(str[..i + 1], '\n') == line + if curChar == '\n' then 1 else 0;
        if curChar == '\n' {
          CountOfPrefix(str, '\n', i + 1);
        }
        x, y, minX, minY, maxX, maxY, prevChar, line, horizontalOffset :=
          AdvanceChar(p, curChar, x, y, minX, minY, maxX, maxY, prevChar, line, horizontalOffset);
      }
      assert str[..|str|] == str;
      w := Cursor(x, y, minX, minY, maxX, maxY, prevChar, line, horizontalOffset, vertices, outlineVertices);
    }

    /** The underline, then the strike-through, of one line from left to right at
        baseline y, each in the fill buffer and, with an outline, in the outline
        buffer too. */
    method AddLines(p: Pen, left: real, right: real, y: real)
      requires p.fillColor == fillColor && p.outlineColor == outlineColor
      requires p.outlineThickness == outlineThickness
      modifies this`vertices, this`outlineVertices
      ensures vertices == old(vertices) + FillLines(p, left, right, y)
      ensures outlineVertices == old(outlineVertices) + OutlineLines(p, left, right, y)
    {
      if p.underlined {
        vertices := vertices + LineQuad(left, right, y, fillColor, p.underlineOffset, p.underlineThickness, 0.0);
        if outlineThickness != 0.0 {
          outlineVertices := outlineVertices
            + LineQuad(left, right, y, outlineColor, p.underlineOffset, p.underlineThickness, outlineThickness);
        }
      }
      if p.struck {
        vertices := vertices + LineQuad(left, right, y, fillColor, p.strikeThroughOffset, p.underlineThickness, 0.0);
        if outlineThickness != 0.0 {
          outlineVertices := outlineVertices
            + LineQuad(left, right, y, outlineColor, p.strikeThroughOffset, p.underlineThickness, outlineThickness);
        }
      }
    }

    /** One iteration of the rebuild loop: a '\r' is skipped; otherwise the kerning
        is applied, a '\n' closes the current line's decorations (once per run of
        '\n'), and the character is laid out as whitespace or as a glyph. */
    method AdvanceChar(p: Pen, c: char, x: real, y: real, minX: real, minY: real,
                       maxX: real, maxY: real, prevChar: char, line: nat, horizontalOffset: real)
      returns (x': real, y': real, minX': real, minY': real, maxX': real, maxY': real,
               prevChar': char, line': nat, horizontalOffset': real)
      requires p.metrics.size == characterSize
      requires p.fillColor == fillColor && p.outlineColor == outlineColor
      requires p.outlineThickness == outlineThickness
      requires c == '\n' ==> line + 1 < |lineOffsets|
      modifies this`vertices, this`outlineVertices
      ensures Cursor(x', y', minX', minY', maxX', maxY', prevChar', line', horizontalOffset',
                     vertices, outlineVertices)
           == Step(p, lineOffsets,
                   Cursor(x, y, minX, minY, maxX, maxY, prevChar, line, horizontalOffset,
                          old(vertices), old(outlineVertices)), c)
    {
      ghost var here := Cursor(x, y, minX, minY, maxX, maxY, prevChar, line, horizontalOffset,
                               vertices, outlineVertices);
      x', y', minX', minY', maxX', maxY', prevChar', line', horizontalOffset' :=
        x, y, minX, minY, maxX, maxY, prevChar, line, horizontalOffset;
      if c == '\r' {
        return;
      }
      x' := x + Kerning(p.metrics, prevChar, c);
      if c == '\n' && prevChar != '\n' {
        AddLines(p, horizontalOffset, x', y);
      }
      ghost var closed := here.(fill := vertices, outline := outlineVertices);
      assert closed == if c == '\n' && prevChar != '\n' then CloseLine(p, here, x') else here;
      prevChar' := c;
      if c == ' ' || c == '\n' || c == '\t' {
        x', y', minX', minY', maxX', maxY', line', horizontalOffset' :=
          AdvanceBlank(p, closed, c, x', y, minX, minY, maxX, maxY, line, horizontalOffset);
      } else {
        x', minX', minY', maxX', maxY' := AdvanceGlyph(p, closed, c, x', y, minX, minY, maxX, maxY);
      }
    }

    /** A space, tab or '\n' reached at x, from the cursor w whose position, box and
        line are given: the cursor moves on (to the next line's offset and one line
        spacing down for '\n'), and the box takes in both positions. */
    method AdvanceBlank(p: Pen, ghost w: Cursor, c: char, x: real, y: real,
                        minX: real, minY: real, maxX: real, maxY: real, line: nat, horizontalOffset: real)
      returns (x': real, y': real, minX': real, minY': real, maxX': real, maxY': real,
               line': nat, horizontalOffset': real)
      requires c == ' ' || c == '\n' || c == '\t'
      requires c == '\n' ==> line + 1 < |lineOffsets|
      requires w.y == y && w.minX == minX && w.minY == minY && w.maxX == maxX && w.maxY == maxY
      requires w.line == line && w.lineStart == horizontalOffset
      ensures Cursor(x', y', minX', minY', maxX', maxY', c, line', horizontalOffset', w.fill, w.outline)
           == Blank(p, lineOffsets, w, x, c)
    {
      var m := p.metrics;
      minX' := Min(minX, x);
      minY' := Min(minY, y);
      x', y', line', horizontalOffset' := x, y, line, horizontalOffset;
      if c == ' ' {
        x' := x + m.spacing.whitespaceWidth;
      } else if c == '\t' {
        x' := x + m.spacing.whitespaceWidth * 4.0;
      } else {
        y' := y + m.spacing.lineSpacing;
        line' := line + 1;
        horizontalOffset' := lineOffsets[line'];
        x' := horizontalOffset';
      }
      maxX' := Max(maxX, x');
      maxY' := Max(maxY, y');
    }

    /** A glyph drawn at x, from the cursor w whose box is given and whose buffers are
        the current ones: its quads go into the buffers, its sheared box into the box,
        and the cursor moves on by its advance and the letter spacing. */
    method AdvanceGlyph(p: Pen, ghost w: Cursor, c: char, x: real, y: real,
                        minX: real, minY: real, maxX: real, maxY: real)
      returns (x': real, minX': real, minY': real, maxX': real, maxY': real)
      requires p.fillColor == fillColor && p.outlineColor == outlineColor
      requires p.outlineThickness == outlineThickness
      requires w.y == y && w.minX == minX && w.minY == minY && w.maxX == maxX && w.maxY == maxY
      requires w.fill == vertices && w.outline == outlineVertices
      modifies this`vertices, this`outlineVertices
      ensures Cursor(x', y, minX', minY', maxX', maxY', c, w.line, w.lineStart, vertices, outlineVertices)
           == Ink(p, w, x, c)
    {
      var glyph := AddGlyph(p, Vec2(x, y), c);
      minX' := Min(minX, InkLeft(x, glyph.bounds, p.italicShear));
      maxX' := Max(maxX, InkRight(x, glyph.bounds, p.italicShear));
      minY' := Min(minY, y + glyph.bounds.top);
      maxY' := Max(maxY, y + (glyph.bounds.top + glyph.bounds.height));
      x' := x + glyph.advance + p.metrics.spacing.letterSpacing;
    }

    /** The quads of one glyph at position: the outline glyph first when there is an
        outline, then the fill glyph, which is returned for the bounds. */
    method AddGlyph(p: Pen, position: Vec2, c: char) returns (glyph: Glyph)
      requires p.fillColor == fillColor && p.outlineColor == outlineColor
      requires p.outlineThickness == outlineThickness
      modifies this`vertices, this`outlineVertices
      ensures glyph == p.metrics.font.glyphOf(c, p.metrics.size, p.metrics.bold, 0.0, p.metrics.atlas)
      ensures vertices == old(vertices) + GlyphQuad(position, p.fillColor, glyph, p.italicShear)
      ensures outlineVertices == if p.outlineThickness == 0.0 then old(outlineVertices)
                                 else old(outlineVertices) + GlyphQuad(position, p.outlineColor,
                                   p.metrics.font.glyphOf(c, p.metrics.size, p.metrics.bold, p.outlineThickness, p.metrics.atlas),
                                   p.italicShear)
    {
      var m := p.metrics;
      if outlineThickness != 0.0 {
        var outlineGlyph := m.font.glyphOf(c, m.size, m.bold, outlineThickness, m.atlas);
        outlineVertices := outlineVertices + GlyphQuad(position, outlineColor, outlineGlyph, p.italicShear);
      }
      glyph := m.font.glyphOf(c, m.size, m.bold, 0.0, m.atlas);
      vertices := vertices + GlyphQuad(position, fillColor, glyph, p.italicShear);
    }

    /** getLocalBounds: the bounds of the current style's geometry. */
    method GetLocalBounds() returns (r: FloatRect)
      requires Valid()
      modifies this`lineOffsets, this`vertices, this`outlineVertices, this`bounds,
               this`geometryNeedUpdate, this`fontTextureId
      ensures Valid()
      ensures r == Build(CurrentStyle()).bounds
      ensures !geometryNeedUpdate && fontTextureId == font.textureCacheIdOf(characterSize) && Cached()
    {
      EnsureGeometryUpdate();
      r := bounds;
    }

    /** getGlobalBounds: the local bounds mapped through the object's transform. */
    method GetGlobalBounds(transformRect: FloatRect -> FloatRect) returns (r: FloatRect)
      requires Valid()
      modifies this`lineOffsets, this`vertices, this`outlineVertices, this`bounds,
               this`geometryNeedUpdate, this`fontTextureId
      ensures Valid()
      ensures r == transformRect(Build(CurrentStyle()).bounds)
      ensures !geometryNeedUpdate && fontTextureId == font.textureCacheIdOf(characterSize) && Cached()
    {
      var local := GetLocalBounds();
      r := transformRect(local);
    }
  }
}
