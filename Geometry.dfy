/** The geometry rebuild of the text engine (ensureGeometryUpdate) as a function of
    the style: a fold over the string that emits glyph quads and decoration lines and
    tracks the bounding box, followed by the outline padding and the closing
    decoration of the last line. */
module Geometry {
  import opened Primitives
  import opened Fonts
  import opened Styles
  import opened Quads
  import opened Layout

  /** The italic shear factor: 12 degrees expressed in radians (12 * pi / 180),
      truncated to eight decimals. No proof depends on its value. */
  const ItalicShear: real := 0.20943951

  /** The constants of one rebuild, fixed before the walk starts. */
  datatype Pen = Pen(
    metrics: Metrics,
    underlined: bool,
    struck: bool,
    italicShear: real,
    underlineOffset: real,
    underlineThickness: real,
    strikeThroughOffset: real,
    fillColor: Color,
    outlineColor: Color,
    outlineThickness: real)

  /** The strike-through sits at the vertical centre of the box of the 'x' glyph. */
  function PenOf(st: Style): (r: Pen)
  {
    var m := MetricsOf(st);
    var xBounds := st.font.glyphOf('x', st.size, m.bold, 0.0, st.atlas).bounds;
    Pen(m,
        HasFlag(st.bits, Underlined),
        HasFlag(st.bits, StrikeThrough),
        if HasFlag(st.bits, Italic) then ItalicShear else 0.0,
        st.font.underlinePositionOf(st.size),
        st.font.underlineThicknessOf(st.size),
        xBounds.top + xBounds.height / 2.0,
        st.fillColor,
        st.outlineColor,
        st.outlineThickness)
  }

  /** The fill-buffer decoration lines of one line of text, underline first. */
  function FillLines(p: Pen, left: real, right: real, y: real): (r: seq<Vertex>)
  {
    (if p.underlined then LineQuad(left, right, y, p.fillColor, p.underlineOffset, p.underlineThickness, 0.0) else [])
    + (if p.struck then LineQuad(left, right, y, p.fillColor, p.strikeThroughOffset, p.underlineThickness, 0.0) else [])
  }

  /** The outline-buffer decoration lines of one line of text; none without an outline. */
  function OutlineLines(p: Pen, left: real, right: real, y: real): (r: seq<Vertex>)
  {
    if p.outlineThickness == 0.0 then []
    else
      (if p.underlined
       then LineQuad(left, right, y, p.outlineColor, p.underlineOffset, p.underlineThickness, p.outlineThickness)
       else [])
      + (if p.struck
         then LineQuad(left, right, y, p.outlineColor, p.strikeThroughOffset, p.underlineThickness, p.outlineThickness)
         else [])
  }

  /** The state of the rebuild loop. lineStart is the x where the current line began. */
  datatype Cursor = Cursor(
    x: real, y: real,
    minX: real, minY: real, maxX: real, maxY: real,
    prevChar: char,
    line: nat,
    lineStart: real,
    fill: seq<Vertex>,
    outline: seq<Vertex>)

  /** The k-th entry of the offset table (0 past its end; the rebuild never gets there). */
  function Nth(offsets: seq<real>, k: nat): (r: real)
  {
    if k < |offsets| then offsets[k] else 0.0
  }

  /** The cursor starts on the first line's offset and one character size down; the
      box starts with its minimum at (size, size) and its maximum at (0, 0). */
  function Start(p: Pen, offsets: seq<real>): (r: Cursor)
  {
    var size := p.metrics.size as real;
    Cursor(Nth(offsets, 0), size, size, size, 0.0, 0.0, NoChar, 0, Nth(offsets, 0), [], [])
  }

  /** The leftmost x of a glyph box drawn at x: its bottom-left corner, which the
      shear moves furthest left. */
  function InkLeft(x: real, b: FloatRect, italicShear: real): (r: real)
  {
    x + b.left - italicShear * (b.top + b.height)
  }

  /** The rightmost x of a glyph box drawn at x: its top-right corner. */
  function InkRight(x: real, b: FloatRect, italicShear: real): (r: real)
  {
    x + (b.left + b.width) - italicShear * b.top
  }

  /** A line ends at x: its decorations go into both buffers. */
  function CloseLine(p: Pen, w: Cursor, x: real): (r: Cursor)
  {
    w.(fill := w.fill + FillLines(p, w.lineStart, x, w.y),
       outline := w.outline + OutlineLines(p, w.lineStart, x, w.y))
  }

  /** A space, tab or '\n' reached at x: the cursor moves on (to the next line's
      offset and one line spacing down for '\n'); the box takes in the position
      before the move and the one after it. */
  function Blank(p: Pen, offsets: seq<real>, w: Cursor, x: real, c: char): (r: Cursor)
  {
    var m := p.metrics;
    var line := if c == '\n' then w.line + 1 else w.line;
    var lineStart := if c == '\n' then Nth(offsets, line) else w.lineStart;
    var x' := if c == ' ' then x + m.spacing.whitespaceWidth
              else if c == '\t' then x + m.spacing.whitespaceWidth * 4.0
              else lineStart;
    var y' := if c == '\n' then w.y + m.spacing.lineSpacing else w.y;
    Cursor(x', y', Min(w.minX, x), Min(w.minY, w.y), Max(w.maxX, x'), Max(w.maxY, y'),
           c, line, lineStart, w.fill, w.outline)
  }

  /** A glyph drawn at x: its quad goes into the fill buffer and, with an outline,
      its outline quad into the outline buffer; its sheared box goes into the bounds;
      the cursor moves on by its advance and the letter spacing. */
  function Ink(p: Pen, w: Cursor, x: real, c: char): (r: Cursor)
  {
    var m := p.metrics;
    var position := Vec2(x, w.y);
    var outline :=
      if p.outlineThickness != 0.0
      then w.outline + GlyphQuad(position, p.outlineColor,
                                 m.font.glyphOf(c, m.size, m.bold, p.outlineThickness, m.atlas), p.italicShear)
      else w.outline;
    var glyph := m.font.glyphOf(c, m.size, m.bold, 0.0, m.atlas);
    var b := glyph.bounds;
    Cursor(x + glyph.advance + m.spacing.letterSpacing, w.y,
           Min(w.minX, InkLeft(x, b, p.italicShear)),
           Min(w.minY, w.y + b.top),
           Max(w.maxX, InkRight(x, b, p.italicShear)),
           Max(w.maxY, w.y + (b.top + b.height)),
           c, w.line, w.lineStart,
           w.fill + GlyphQuad(position, p.fillColor, glyph, p.italicShear), outline)
  }

  /** One code point of the rebuild loop: '\r' is skipped; otherwise the kerning
      moves the cursor, a '\n' that does not follow another '\n' closes the line's
      decorations, and the code point is laid out as whitespace or as a glyph. */
  function Step(p: Pen, offsets: seq<real>, w: Cursor, c: char): (r: Cursor)
  {
    if c == '\r' then w
    else
      var x := w.x + Kerning(p.metrics, w.prevChar, c);
      var w' := if c == '\n' && w.prevChar != '\n' then CloseLine(p, w, x) else w;
      if c == ' ' || c == '\n' || c == '\t' then Blank(p, offsets, w', x, c)
      else Ink(p, w', x, c)
  }

  /** The rebuild loop run over the whole of s. */
  function Walk(p: Pen, offsets: seq<real>, s: seq<char>): (r: Cursor)
    decreases |s|
  {
    if s == [] then Start(p, offsets)
    else Step(p, offsets, Walk(p, offsets, s[..|s| - 1]), s[|s| - 1])
  }

  /** The padding the outline adds on each side of the bounds: |ceil(thickness)|, a
      whole number of pixels that covers a positive thickness and stays within one
      pixel below a negative one's magnitude. */
  function OutlinePadding(thickness: real): (r: real)
    ensures r == r.Floor as real
    ensures thickness == 0.0 ==> r == 0.0
    ensures 0.0 < thickness ==> thickness <= r < thickness + 1.0
    ensures thickness < 0.0 ==> -thickness - 1.0 < r <= -thickness
  {
    if thickness != 0.0 then
      var c := Ceil(thickness);
      assert (c as real).Floor == c && ((-c) as real).Floor == -c;
      Abs(c as real)
    else 0.0
  }

  /** The contents of the geometry cache: both vertex buffers and the bounds. */
  datatype Mesh = Mesh(fill: seq<Vertex>, outline: seq<Vertex>, bounds: FloatRect)

  /** After the walk: pad the box for the outline, close the decoration of a last line
      that ends right of 0, and turn the extremes into a rectangle. */
  function Finish(p: Pen, w: Cursor): (r: Mesh)
  {
    var pad := OutlinePadding(p.outlineThickness);
    var minX, minY, maxX, maxY := w.minX - pad, w.minY - pad, w.maxX + pad, w.maxY + pad;
    var closed := if w.x > 0.0 then CloseLine(p, w, w.x) else w;
    Mesh(closed.fill, closed.outline, FloatRect(minX, minY, maxX - minX, maxY - minY))
  }

  /** The geometry cache contents for a style: nothing at all for an empty string. */
  function Build(st: Style): (r: Mesh)
  {
    if st.str == [] then Mesh([], [], EmptyRect)
    else Finish(PenOf(st), Walk(PenOf(st), LineOffsets(st), st.str))
  }

  // ---------------------------------------------------------------------------
  // Reference counts

  /** Code points that get a glyph quad: all but space, tab, '\n' and '\r'. */
  function GlyphCount(s: seq<char>): (r: nat)
    decreases |s|
  {
    if s == [] then 0
    else
      var c := s[|s| - 1];
      GlyphCount(s[..|s| - 1]) + (if c == ' ' || c == '\t' || c == '\n' || c == '\r' then 0 else 1)
  }

  /** The last code point of s that is not '\r' (NoChar if there is none). */
  function LastNonCR(s: seq<char>): (r: char)
    decreases |s|
  {
    if s == [] then NoChar
    else if s[|s| - 1] == '\r' then LastNonCR(s[..|s| - 1])
    else s[|s| - 1]
  }

  /** The '\n's whose previous code point, ignoring '\r', is not itself '\n'. */
  function BreakCount(s: seq<char>): (r: nat)
    decreases |s|
  {
    if s == [] then 0
    else
      var t := s[..|s| - 1];
      BreakCount(t) + (if s[|s| - 1] == '\n' && LastNonCR(t) != '\n' then 1 else 0)
  }

  /** Decoration styles in use: underline and strike-through each add one line. */
  function DecorationCount(p: Pen): (r: nat)
  {
    (if p.underlined then 1 else 0) + (if p.struck then 1 else 0)
  }

  lemma LinesShape(p: Pen, left: real, right: real, y: real)
    ensures |FillLines(p, left, right, y)| == 6 * DecorationCount(p)
    ensures |OutlineLines(p, left, right, y)| == if p.outlineThickness == 0.0 then 0 else 6 * DecorationCount(p)
    ensures AllColored(FillLines(p, left, right, y), p.fillColor)
    ensures AllColored(OutlineLines(p, left, right, y), p.outlineColor)
  {
    LineQuadCorners(left, right, y, p.fillColor, p.underlineOffset, p.underlineThickness, 0.0);
    LineQuadCorners(left, right, y, p.fillColor, p.strikeThroughOffset, p.underlineThickness, 0.0);
    LineQuadCorners(left, right, y, p.outlineColor, p.underlineOffset, p.underlineThickness, p.outlineThickness);
    LineQuadCorners(left, right, y, p.outlineColor, p.strikeThroughOffset, p.underlineThickness, p.outlineThickness);
  }

  lemma AllColoredAppend(a: seq<Vertex>, b: seq<Vertex>, c: Color)
    requires AllColored(a, c) && AllColored(b, c)
    ensures AllColored(a + b, c)
  {
  }

  /** The buffers are coloured and sized consistently: the outline buffer is empty
      without an outline, else as long as the fill buffer. */
  predicate Consistent(p: Pen, w: Cursor)
  {
    |w.outline| == (if p.outlineThickness == 0.0 then 0 else |w.fill|)
    && AllColored(w.fill, p.fillColor)
    && AllColored(w.outline, p.outlineColor)
  }

  /** The decorations a line break adds keep the buffers consistent. */
  lemma BreakShape(p: Pen, w: Cursor, x: real)
    requires Consistent(p, w)
    ensures |CloseLine(p, w, x).fill| == |w.fill| + 6 * DecorationCount(p)
    ensures Consistent(p, CloseLine(p, w, x))
  {
    LinesShape(p, w.lineStart, x, w.y);
    AllColoredAppend(w.fill, FillLines(p, w.lineStart, x, w.y), p.fillColor);
    AllColoredAppend(w.outline, OutlineLines(p, w.lineStart, x, w.y), p.outlineColor);
  }

  /** A glyph adds six vertices to the fill buffer and keeps the buffers consistent. */
  lemma InkShape(p: Pen, w: Cursor, x: real, c: char)
    requires Consistent(p, w)
    ensures |Ink(p, w, x, c).fill| == |w.fill| + 6
    ensures Consistent(p, Ink(p, w, x, c))
  {
    var m := p.metrics;
    var position := Vec2(x, w.y);
    var glyph := m.font.glyphOf(c, m.size, m.bold, 0.0, m.atlas);
    var outlineGlyph := m.font.glyphOf(c, m.size, m.bold, p.outlineThickness, m.atlas);
    GlyphQuadCorners(position, p.fillColor, glyph, p.italicShear);
    GlyphQuadCorners(position, p.outlineColor, outlineGlyph, p.italicShear);
    AllColoredAppend(w.fill, GlyphQuad(position, p.fillColor, glyph, p.italicShear), p.fillColor);
    AllColoredAppend(w.outline, GlyphQuad(position, p.outlineColor, outlineGlyph, p.italicShear), p.outlineColor);
  }

  /** One step adds six fill vertices for a glyph and six per decoration style at a
      line break, keeps the buffers consistent, and moves to the next line on '\n'. */
  lemma StepShape(p: Pen, offsets: seq<real>, w: Cursor, c: char)
    requires Consistent(p, w)
    ensures var w' := Step(p, offsets, w, c);
            var breaks := c == '\n' && w.prevChar != '\n';
            var glyph := !(c == ' ' || c == '\t' || c == '\n' || c == '\r');
            |w'.fill| == |w.fill| + 6 * ((if glyph then 1 else 0) + (if breaks then DecorationCount(p) else 0))
            && Consistent(p, w')
            && w'.prevChar == (if c == '\r' then w.prevChar else c)
            && w'.line == w.line + (if c == '\n' then 1 else 0)
  {
    if c != '\r' {
      var x := w.x + Kerning(p.metrics, w.prevChar, c);
      var w' := if c == '\n' && w.prevChar != '\n' then CloseLine(p, w, x) else w;
      if c == '\n' && w.prevChar != '\n' {
        BreakShape(p, w, x);
      }
      if !(c == ' ' || c == '\t' || c == '\n') {
        InkShape(p, w', x, c);
        assert Step(p, offsets, w, c) == Ink(p, w', x, c);
      } else {
        var b := Blank(p, offsets, w', x, c);
        assert b.fill == w'.fill && b.outline == w'.outline;
        assert Step(p, offsets, w, c) == b;
      }
    }
  }

  /** Six fill vertices per glyph and per decoration style at each line break, the
      outline buffer the same size as the fill buffer or empty, every vertex in its
      buffer's colour; the walk's previous code point skips '\r' and its line index
      counts every '\n'. */
  lemma {:induction false} WalkShape(p: Pen, offsets: seq<real>, s: seq<char>)
    ensures var w := Walk(p, offsets, s);
            |w.fill| == 6 * (GlyphCount(s) + DecorationCount(p) * BreakCount(s))
            && Consistent(p, w)
            && w.prevChar == LastNonCR(s)
            && w.line == CountOf(s, '\n')
    decreases |s|
  {
    if s != [] {
      var t := s[..|s| - 1];
      var c := s[|s| - 1];
      WalkShape(p, offsets, t);
      StepShape(p, offsets, Walk(p, offsets, t), c);
      var glyph := if c == ' ' || c == '\t' || c == '\n' || c == '\r' then 0 else 1;
      var breaks := if c == '\n' && LastNonCR(t) != '\n' then 1 else 0;
      assert GlyphCount(s) == GlyphCount(t) + glyph;
      assert BreakCount(s) == BreakCount(t) + breaks;
      CountsAdd(GlyphCount(t), BreakCount(t), glyph, breaks, DecorationCount(p));
    }
  }

  lemma CountsAdd(glyphs: nat, breaks: nat, glyph: nat, newBreak: nat, d: nat)
    requires newBreak <= 1
    ensures 6 * (glyphs + d * breaks) + 6 * (glyph + (if newBreak == 1 then d else 0))
         == 6 * ((glyphs + glyph) + d * (breaks + newBreak))
  {
    assert d * (breaks + newBreak) == d * breaks + d * newBreak;
  }

  /** Whether the rebuild closes the last line with a decoration. */
  predicate HasClosingLine(st: Style)
  {
    st.str != [] && Walk(PenOf(st), LineOffsets(st), st.str).x > 0.0
  }

  /** Vertex counts after a rebuild: six fill vertices per glyph, six more per
      decoration style for every line break and for the closing line, the outline
      buffer empty without an outline and as large as the fill buffer with one; every
      vertex carries its buffer's colour; an empty string gives nothing at all. */
  lemma BuildShape(st: Style)
    ensures var g := Build(st);
            var d := DecorationCount(PenOf(st));
            |g.fill| == 6 * (GlyphCount(st.str) + d * (BreakCount(st.str) + (if HasClosingLine(st) then 1 else 0)))
            && |g.outline| == (if st.outlineThickness == 0.0 then 0 else |g.fill|)
            && AllColored(g.fill, st.fillColor)
            && AllColored(g.outline, st.outlineColor)
            && (st.str == [] ==> g.fill == [] && g.outline == [] && g.bounds == EmptyRect)
  {
    if st.str != [] {
      var p := PenOf(st);
      var w := Walk(p, LineOffsets(st), st.str);
      WalkShape(p, LineOffsets(st), st.str);
      BreakShape(p, w, w.x);
      var d := DecorationCount(p);
      assert d * (BreakCount(st.str) + 1) == d * BreakCount(st.str) + d;
    }
  }

  // ---------------------------------------------------------------------------
  // Colour independence: the colour setters' repaint equals a rebuild

  lemma RepaintLines(p: Pen, left: real, right: real, y: real, color: Color)
    ensures Repaint(FillLines(p, left, right, y), color) == FillLines(p.(fillColor := color), left, right, y)
    ensures Repaint(OutlineLines(p, left, right, y), color) == OutlineLines(p.(outlineColor := color), left, right, y)
  {
    var ul := if p.underlined then LineQuad(left, right, y, p.fillColor, p.underlineOffset, p.underlineThickness, 0.0) else [];
    var sk := if p.struck then LineQuad(left, right, y, p.fillColor, p.strikeThroughOffset, p.underlineThickness, 0.0) else [];
    RepaintAppend(ul, sk, color);
    if p.outlineThickness != 0.0 {
      var oul := if p.underlined then LineQuad(left, right, y, p.outlineColor, p.underlineOffset, p.underlineThickness, p.outlineThickness) else [];
      var osk := if p.struck then LineQuad(left, right, y, p.outlineColor, p.strikeThroughOffset, p.underlineThickness, p.outlineThickness) else [];
      RepaintAppend(oul, osk, color);
    }
  }

  lemma CloseLineRepaint(p: Pen, w: Cursor, x: real, color: Color)
    ensures var w' := CloseLine(p, w, x);
            CloseLine(p.(fillColor := color), w.(fill := Repaint(w.fill, color)), x)
              == w'.(fill := Repaint(w'.fill, color))
    ensures var w' := CloseLine(p, w, x);
            CloseLine(p.(outlineColor := color), w.(outline := Repaint(w.outline, color)), x)
              == w'.(outline := Repaint(w'.outline, color))
  {
    RepaintLines(p, w.lineStart, x, w.y, color);
    RepaintAppend(w.fill, FillLines(p, w.lineStart, x, w.y), color);
    RepaintAppend(w.outline, OutlineLines(p, w.lineStart, x, w.y), color);
  }

  lemma InkRepaint(p: Pen, w: Cursor, x: real, c: char, color: Color)
    ensures var w' := Ink(p, w, x, c);
            Ink(p.(fillColor := color), w.(fill := Repaint(w.fill, color)), x, c)
              == w'.(fill := Repaint(w'.fill, color))
    ensures var w' := Ink(p, w, x, c);
            Ink(p.(outlineColor := color), w.(outline := Repaint(w.outline, color)), x, c)
              == w'.(outline := Repaint(w'.outline, color))
  {
    var m := p.metrics;
    var position := Vec2(x, w.y);
    var glyph := m.font.glyphOf(c, m.size, m.bold, 0.0, m.atlas);
    var outlineGlyph := m.font.glyphOf(c, m.size, m.bold, p.outlineThickness, m.atlas);
    RepaintAppend(w.fill, GlyphQuad(position, p.fillColor, glyph, p.italicShear), color);
    RepaintGlyphQuad(position, p.fillColor, color, glyph, p.italicShear);
    RepaintAppend(w.outline, GlyphQuad(position, p.outlineColor, outlineGlyph, p.italicShear), color);
    RepaintGlyphQuad(position, p.outlineColor, color, outlineGlyph, p.italicShear);
  }

  /** Whitespace leaves both buffers alone and reads no colour. */
  lemma BlankRepaint(p: Pen, q: Pen, offsets: seq<real>, w: Cursor, x: real, c: char,
                     fill: seq<Vertex>, outline: seq<Vertex>)
    requires q.metrics == p.metrics
    ensures Blank(q, offsets, w.(fill := fill, outline := outline), x, c)
         == Blank(p, offsets, w, x, c).(fill := fill, outline := outline)
  {
  }

  lemma StepRepaintFill(p: Pen, offsets: seq<real>, w: Cursor, c: char, color: Color)
    ensures var w' := Step(p, offsets, w, c);
            Step(p.(fillColor := color), offsets, w.(fill := Repaint(w.fill, color)), c)
              == w'.(fill := Repaint(w'.fill, color))
  {
    if c == ' ' || c == '\n' || c == '\t' {
      BlankStepRepaintFill(p, offsets, w, c, color);
    } else if c != '\r' {
      InkStepRepaintFill(p, offsets, w, c, color);
    }
  }

  /** StepRepaintFill for whitespace, which may close the line first. */
  lemma BlankStepRepaintFill(p: Pen, offsets: seq<real>, w: Cursor, c: char, color: Color)
    requires c == ' ' || c == '\n' || c == '\t'
    ensures var w' := Step(p, offsets, w, c);
            Step(p.(fillColor := color), offsets, w.(fill := Repaint(w.fill, color)), c)
              == w'.(fill := Repaint(w'.fill, color))
  {
    var p' := p.(fillColor := color);
    var x := w.x + Kerning(p.metrics, w.prevChar, c);
    var w' := if c == '\n' && w.prevChar != '\n' then CloseLine(p, w, x) else w;
    var v := w.(fill := Repaint(w.fill, color));
    var v' := if c == '\n' && w.prevChar != '\n' then CloseLine(p', v, x) else v;
    if c == '\n' && w.prevChar != '\n' {
      CloseLineRepaint(p, w, x, color);
    }
    assert v' == w'.(fill := Repaint(w'.fill, color));
    BlankRepaint(p, p', offsets, w', x, c, Repaint(w'.fill, color), w'.outline);
  }

  /** StepRepaintFill for a glyph, which never closes a line. */
  lemma InkStepRepaintFill(p: Pen, offsets: seq<real>, w: Cursor, c: char, color: Color)
    requires !(c == ' ' || c == '\n' || c == '\t' || c == '\r')
    ensures var w' := Step(p, offsets, w, c);
            Step(p.(fillColor := color), offsets, w.(fill := Repaint(w.fill, color)), c)
              == w'.(fill := Repaint(w'.fill, color))
  {
    var p' := p.(fillColor := color);
    var x := w.x + Kerning(p.metrics, w.prevChar, c);
    var v := w.(fill := Repaint(w.fill, color));
    InkRepaint(p, w, x, c, color);
    assert Step(p, offsets, w, c) == Ink(p, w, x, c);
    assert Step(p', offsets, v, c) == Ink(p', v, x, c);
  }

  lemma StepRepaintOutline(p: Pen, offsets: seq<real>, w: Cursor, c: char, color: Color)
    ensures var w' := Step(p, offsets, w, c);
            Step(p.(outlineColor := color), offsets, w.(outline := Repaint(w.outline, color)), c)
              == w'.(outline := Repaint(w'.outline, color))
  {
    if c == ' ' || c == '\n' || c == '\t' {
      BlankStepRepaintOutline(p, offsets, w, c, color);
    } else if c != '\r' {
      InkStepRepaintOutline(p, offsets, w, c, color);
    }
  }

  /** StepRepaintOutline for whitespace, which may close the line first. */
  lemma BlankStepRepaintOutline(p: Pen, offsets: seq<real>, w: Cursor, c: char, color: Color)
    requires c == ' ' || c == '\n' || c == '\t'
    ensures var w' := Step(p, offsets, w, c);
            Step(p.(outlineColor := color), offsets, w.(outline := Repaint(w.outline, color)), c)
              == w'.(outline := Repaint(w'.outline, color))
  {
    var p' := p.(outlineColor := color);
    var x := w.x + Kerning(p.metrics, w.prevChar, c);
    var w' := if c == '\n' && w.prevChar != '\n' then CloseLine(p, w, x) else w;
    var v := w.(outline := Repaint(w.outline, color));
    var v' := if c == '\n' && w.prevChar != '\n' then CloseLine(p', v, x) else v;
    if c == '\n' && w.prevChar != '\n' {
      CloseLineRepaint(p, w, x, color);
    }
    assert v' == w'.(outline := Repaint(w'.outline, color));
    BlankRepaint(p, p', offsets, w', x, c, w'.fill, Repaint(w'.outline, color));
  }

  /** StepRepaintOutline for a glyph, which never closes a line. */
  lemma InkStepRepaintOutline(p: Pen, offsets: seq<real>, w: Cursor, c: char, color: Color)
    requires !(c == ' ' || c == '\n' || c == '\t' || c == '\r')
    ensures var w' := Step(p, offsets, w, c);
            Step(p.(outlineColor := color), offsets, w.(outline := Repaint(w.outline, color)), c)
              == w'.(outline := Repaint(w'.outline, color))
  {
    var p' := p.(outlineColor := color);
    var x := w.x + Kerning(p.metrics, w.prevChar, c);
    var v := w.(outline := Repaint(w.outline, color));
    InkRepaint(p, w, x, c, color);
    assert Step(p, offsets, w, c) == Ink(p, w, x, c);
    assert Step(p', offsets, v, c) == Ink(p', v, x, c);
  }

  /** Walking with another fill colour gives the same cursor, bounds and outline, and
      the fill buffer repainted in that colour. */
  lemma {:induction false} WalkRepaintFill(p: Pen, offsets: seq<real>, s: seq<char>, color: Color)
    ensures var w := Walk(p, offsets, s);
            Walk(p.(fillColor := color), offsets, s) == w.(fill := Repaint(w.fill, color))
    decreases |s|
  {
    if s != [] {
      var t := s[..|s| - 1];
      WalkRepaintFill(p, offsets, t, color);
      StepRepaintFill(p, offsets, Walk(p, offsets, t), s[|s| - 1], color);
    }
  }

  /** Walking with another outline colour gives the same cursor, bounds and fill, and
      the outline buffer repainted in that colour. */
  lemma {:induction false} WalkRepaintOutline(p: Pen, offsets: seq<real>, s: seq<char>, color: Color)
    ensures var w := Walk(p, offsets, s);
            Walk(p.(outlineColor := color), offsets, s) == w.(outline := Repaint(w.outline, color))
    decreases |s|
  {
    if s != [] {
      var t := s[..|s| - 1];
      WalkRepaintOutline(p, offsets, t, color);
      StepRepaintOutline(p, offsets, Walk(p, offsets, t), s[|s| - 1], color);
    }
  }

  /** Changing the fill colour of a style changes its geometry only by repainting
      the fill buffer: positions, texture coordinates, order, the outline buffer and
      the bounds stay as they were. */
  lemma BuildRepaintFill(st: Style, color: Color)
    ensures var g := Build(st);
            Build(st.(fillColor := color)) == g.(fill := Repaint(g.fill, color))
  {
    var st' := st.(fillColor := color);
    if st.str != [] {
      var p := PenOf(st);
      assert PenOf(st') == p.(fillColor := color);
      assert LineOffsets(st') == LineOffsets(st);
      var w := Walk(p, LineOffsets(st), st.str);
      WalkRepaintFill(p, LineOffsets(st), st.str, color);
      CloseLineRepaint(p, w, w.x, color);
    }
  }

  /** Changing the outline colour of a style changes its geometry only by repainting
      the outline buffer. */
  lemma BuildRepaintOutline(st: Style, color: Color)
    ensures var g := Build(st);
            Build(st.(outlineColor := color)) == g.(outline := Repaint(g.outline, color))
  {
    var st' := st.(outlineColor := color);
    if st.str != [] {
      var p := PenOf(st);
      assert PenOf(st') == p.(outlineColor := color);
      assert LineOffsets(st') == LineOffsets(st);
      var w := Walk(p, LineOffsets(st), st.str);
      WalkRepaintOutline(p, LineOffsets(st), st.str, color);
      CloseLineRepaint(p, w, w.x, color);
    }
  }

  // ---------------------------------------------------------------------------
  // Outline independence

  lemma StepWithoutOutline(p: Pen, offsets: seq<real>, w: Cursor, c: char)
    ensures Step(p.(outlineThickness := 0.0), offsets, w.(outline := []), c) == Step(p, offsets, w, c).(outline := [])
  {
    var a := Step(p.(outlineThickness := 0.0), offsets, w.(outline := []), c);
    var b := Step(p, offsets, w, c);
    if c != '\r' {
      assert a.x == b.x && a.fill == b.fill && a.outline == [];
    }
  }

  /** The outline thickness touches nothing of the walk but the outline buffer. */
  lemma {:induction false} WalkWithoutOutline(p: Pen, offsets: seq<real>, s: seq<char>)
    ensures Walk(p.(outlineThickness := 0.0), offsets, s) == Walk(p, offsets, s).(outline := [])
    decreases |s|
  {
    if s != [] {
      var t := s[..|s| - 1];
      WalkWithoutOutline(p, offsets, t);
      StepWithoutOutline(p, offsets, Walk(p, offsets, t), s[|s| - 1]);
    }
  }

  /** Dropping the outline leaves the fill buffer as it is, empties the outline
      buffer, and takes |ceil(thickness)| of padding off every side of the bounds. */
  lemma BuildWithoutOutline(st: Style)
    ensures var g := Build(st);
            var g0 := Build(st.(outlineThickness := 0.0));
            var pad := if st.outlineThickness == 0.0 then 0.0 else Abs(Ceil(st.outlineThickness) as real);
            g0.fill == g.fill
            && g0.outline == []
            && (st.str != [] ==>
                  g.bounds == FloatRect(g0.bounds.left - pad, g0.bounds.top - pad,
                                        g0.bounds.width + 2.0 * pad, g0.bounds.height + 2.0 * pad))
  {
    var st0 := st.(outlineThickness := 0.0);
    if st.str != [] {
      var p := PenOf(st);
      assert PenOf(st0) == p.(outlineThickness := 0.0);
      assert LineOffsets(st0) == LineOffsets(st);
      var w := Walk(p, LineOffsets(st), st.str);
      WalkWithoutOutline(p, LineOffsets(st), st.str);
      FinishWithoutOutline(p, w);
    }
  }

  /** Finishing without an outline: the same fill, no outline, and bounds without the
      outline padding. */
  lemma FinishWithoutOutline(p: Pen, w: Cursor)
    ensures var g := Finish(p, w);
            var g0 := Finish(p.(outlineThickness := 0.0), w.(outline := []));
            var pad := OutlinePadding(p.outlineThickness);
            g0.fill == g.fill
            && g0.outline == []
            && g.bounds == FloatRect(g0.bounds.left - pad, g0.bounds.top - pad,
                                     g0.bounds.width + 2.0 * pad, g0.bounds.height + 2.0 * pad)
  {
    var p0 := p.(outlineThickness := 0.0);
    assert OutlineLines(p0, w.lineStart, w.x, w.y) == [];
  }

  // ---------------------------------------------------------------------------
  // The rebuild lays lines out where the line metrics measured them

  /** The cursor w on line n agrees with the measuring state mw. */
  ghost predicate FollowsMeasure(p: Pen, offsets: seq<real>, w: Cursor, mw: Measure, n: nat)
  {
    w.line == n
    && w.lineStart == Nth(offsets, n)
    && w.x == w.lineStart + mw.x
    && w.y == p.metrics.size as real + n as real * p.metrics.spacing.lineSpacing
    && w.prevChar == mw.prevChar
  }

  lemma StepFollowsMeasure(p: Pen, offsets: seq<real>, w: Cursor, mw: Measure, n: nat, c: char)
    requires c != '\r'
    requires FollowsMeasure(p, offsets, w, mw, n)
    ensures FollowsMeasure(p, offsets, Step(p, offsets, w, c), MeasureStep(p.metrics, mw, c),
                           n + if c == '\n' then 1 else 0)
  {
    var ls := p.metrics.spacing.lineSpacing;
    assert (n as real + 1.0) * ls == n as real * ls + ls;
  }

  /** Without '\r', the rebuild's cursor on line n is that line's offset plus the width
      the measuring loop has for it so far, one line spacing per '\n' below the first
      baseline, with the same previous code point. */
  lemma {:induction false} WalkFollowsMeasure(p: Pen, offsets: seq<real>, s: seq<char>)
    requires '\r' !in s
    ensures FollowsMeasure(p, offsets, Walk(p, offsets, s), MeasurePrefix(p.metrics, s), CountOf(s, '\n'))
    decreases |s|
  {
    if s != [] {
      var t := s[..|s| - 1];
      assert '\r' !in t by {
        forall i | 0 <= i < |t| ensures t[i] != '\r' { assert t[i] == s[i]; }
      }
      WalkFollowsMeasure(p, offsets, t);
      StepFollowsMeasure(p, offsets, Walk(p, offsets, t), MeasurePrefix(p.metrics, t), CountOf(t, '\n'), s[|s| - 1]);
    }
  }

  /** Without '\r', the closing decoration is drawn exactly when the last line, at its
      alignment offset, ends right of 0: it spans from the last offset to the offset
      plus the last line's measured width. */
  lemma BuildClosingLine(st: Style)
    requires st.str != []
    requires '\r' !in st.str
    ensures var offsets := LineOffsets(st);
            var ws := LineWidths(MetricsOf(st), st.str);
            var last := |offsets| - 1;
            |offsets| == |ws|
            && (HasClosingLine(st) <==> offsets[last] + ws[last] > 0.0)
  {
    var p := PenOf(st);
    MeasureShape(p.metrics, st.str);
    WalkFollowsMeasure(p, LineOffsets(st), st.str);
  }

  /** Every line index the rebuild reaches, after any prefix of the string, indexes
      the offset table, so the '\n' case never reads past it. */
  lemma LineWithinOffsets(st: Style, i: nat)
    requires i <= |st.str|
    ensures Walk(PenOf(st), LineOffsets(st), st.str[..i]).line < |LineOffsets(st)|
  {
    WalkShape(PenOf(st), LineOffsets(st), st.str[..i]);
    CountOfPrefix(st.str, '\n', i);
  }

  /** Without '\r', the caret of findCharacterPos is the rebuild's pen position moved
      up by the character size and, on every line after the first, left by that
      line's offset: findCharacterPos restarts a line at 0, where the rebuild restarts
      it at the line's alignment offset. */
  lemma CaretAgainstRebuild(p: Pen, offsets: seq<real>, s: seq<char>)
    requires '\r' !in s
    ensures var w := Walk(p, offsets, s);
            var k := CaretPrefix(p.metrics, Nth(offsets, 0), s).position;
            var n := CountOf(s, '\n');
            w.y == p.metrics.size as real + k.y
            && w.x == k.x + (if n == 0 then 0.0 else Nth(offsets, n))
  {
    WalkFollowsMeasure(p, offsets, s);
    CaretFollowsMeasure(p.metrics, Nth(offsets, 0), s);
    CaretDepth(p.metrics, Nth(offsets, 0), s);
  }
}
