/** Spacing, line metrics and the caret walk of the text engine, as functions of the
    style. Each pass is a left fold over the string, one step per code point, so
    that the loops of the text object can be proved against a prefix of the fold. */
module Layout {
  import opened Primitives
  import opened Fonts
  import opened Styles

  datatype Spacing = Spacing(whitespaceWidth: real, letterSpacing: real, lineSpacing: real)

  /** getSpacing, as the text object computes it from its style. */
  function SpacingOf(font: Font, size: nat, bold: bool, atlas: CacheId,
                     letterSpacingFactor: real, lineSpacingFactor: real): (r: Spacing)
  {
    var whitespaceWidth := font.glyphOf(' ', size, bold, 0.0, atlas).advance;
    var letterSpacing := (whitespaceWidth / 3.0) * (letterSpacingFactor - 1.0);
    Spacing(whitespaceWidth + letterSpacing, letterSpacing, font.lineSpacingOf(size) * lineSpacingFactor)
  }

  /** The space glyph's advance gives the whitespace width; the letter spacing factor
      adds a third of it per unit above 1, to letters and to the whitespace width
      alike; the line spacing factor scales the font's line spacing. */
  lemma SpacingMeaning(font: Font, size: nat, bold: bool, atlas: CacheId,
                       letterSpacingFactor: real, lineSpacingFactor: real)
    ensures var r := SpacingOf(font, size, bold, atlas, letterSpacingFactor, lineSpacingFactor);
            var advance := font.glyphOf(' ', size, bold, 0.0, atlas).advance;
            r.whitespaceWidth - r.letterSpacing == advance
            && 3.0 * r.letterSpacing == advance * (letterSpacingFactor - 1.0)
            && (letterSpacingFactor == 1.0 ==> r.letterSpacing == 0.0)
            && r.lineSpacing == font.lineSpacingOf(size) * lineSpacingFactor
  {
    var advance := font.glyphOf(' ', size, bold, 0.0, atlas).advance;
    assert 3.0 * ((advance / 3.0) * (letterSpacingFactor - 1.0)) == advance * (letterSpacingFactor - 1.0);
  }

  /** A wider letter spacing factor never narrows letters or words, for a font whose
      space advance is not negative. */
  lemma SpacingMonotone(font: Font, size: nat, bold: bool, atlas: CacheId,
                        f1: real, f2: real, lineSpacingFactor: real)
    requires f1 <= f2
    requires 0.0 <= font.glyphOf(' ', size, bold, 0.0, atlas).advance
    ensures SpacingOf(font, size, bold, atlas, f1, lineSpacingFactor).letterSpacing
         <= SpacingOf(font, size, bold, atlas, f2, lineSpacingFactor).letterSpacing
    ensures SpacingOf(font, size, bold, atlas, f1, lineSpacingFactor).whitespaceWidth
         <= SpacingOf(font, size, bold, atlas, f2, lineSpacingFactor).whitespaceWidth
  {
    var a := font.glyphOf(' ', size, bold, 0.0, atlas).advance;
    assert (a / 3.0) * (f1 - 1.0) <= (a / 3.0) * (f2 - 1.0) by {
      assert (a / 3.0) * (f2 - 1.0) - (a / 3.0) * (f1 - 1.0) == (a / 3.0) * (f2 - f1);
    }
  }

  /** The font lookups of one pass, at the text's size and boldness, in the atlas
      version the font had when the pass ran. */
  datatype Metrics = Metrics(font: Font, size: nat, bold: bool, atlas: CacheId, spacing: Spacing)

  function MetricsOf(st: Style): (r: Metrics)
  {
    var bold := HasFlag(st.bits, Bold);
    Metrics(st.font, st.size, bold, st.atlas,
            SpacingOf(st.font, st.size, bold, st.atlas, st.letterSpacingFactor, st.lineSpacingFactor))
  }

  function Kerning(m: Metrics, prev: char, cur: char): (r: real)
  {
    m.font.kerningOf(prev, cur, m.size, m.bold)
  }

  /** The code point the passes use as "no previous character". */
  const NoChar: char := '\0'

  // ---------------------------------------------------------------------------
  // updateLineOffsets, first loop: one width per '\n'-terminated line

  /** The state of the measuring loop: the widths pushed so far, the cursor x, the
      previous code point and the widest '\n'-terminated line so far. */
  datatype Measure = Measure(widths: seq<real>, x: real, prevChar: char, maxWidth: real)

  function MeasureStep(m: Metrics, w: Measure, c: char): (r: Measure)
  {
    var x := w.x + Kerning(m, w.prevChar, c);
    if c == ' ' then Measure(w.widths, x + m.spacing.whitespaceWidth, c, w.maxWidth)
    else if c == '\t' then Measure(w.widths, x + m.spacing.whitespaceWidth * 4.0, c, w.maxWidth)
    else if c == '\n' then Measure(w.widths + [x], 0.0, c, if x > w.maxWidth then x else w.maxWidth)
    else Measure(w.widths, x + m.font.glyphOf(c, m.size, m.bold, 0.0, m.atlas).advance + m.spacing.letterSpacing, c, w.maxWidth)
  }

  /** The measuring loop run over the whole of s. */
  function MeasurePrefix(m: Metrics, s: seq<char>): (r: Measure)
    decreases |s|
  {
    if s == [] then Measure([], 0.0, NoChar, 0.0)
    else MeasureStep(m, MeasurePrefix(m, s[..|s| - 1]), s[|s| - 1])
  }

  /** One width per '\n', the largest of them (or zero) as maxWidth, and the previous
      code point is the last one of s. The trailing line never reaches maxWidth. */
  lemma {:induction false} MeasureShape(m: Metrics, s: seq<char>)
    ensures var w := MeasurePrefix(m, s);
            |w.widths| == CountOf(s, '\n')
            && 0.0 <= w.maxWidth
            && (forall k :: 0 <= k < |w.widths| ==> w.widths[k] <= w.maxWidth)
            && (w.maxWidth == 0.0 || w.maxWidth in w.widths)
            && w.prevChar == (if s == [] then NoChar else s[|s| - 1])
    decreases |s|
  {
    if s != [] {
      MeasureShape(m, s[..|s| - 1]);
    }
  }

  /** The widths of all lines: the '\n'-terminated ones, then the trailing one. */
  function LineWidths(m: Metrics, s: seq<char>): (r: seq<real>)
  {
    var w := MeasurePrefix(m, s);
    w.widths + [w.x]
  }

  // ---------------------------------------------------------------------------
  // updateLineOffsets, second loop: widths become alignment offsets

  /** The unrounded offset of a line of the given width: Left keeps it at 0, Right
      puts its right edge at maxWidth, Center puts its midpoint at half of maxWidth. */
  function AlignedOffset(alignment: LineAlignment, maxWidth: real, width: real): (r: real)
    ensures alignment == Left ==> r == 0.0
    ensures alignment == Right ==> r + width == maxWidth
    ensures alignment == Center ==> 2.0 * r + width == maxWidth
  {
    match alignment
    case Right => maxWidth - width
    case Center => (maxWidth - width) / 2.0
    case Left => 0.0
  }

  /** The line offset table of s: one rounded offset per line. */
  function Offsets(m: Metrics, alignment: LineAlignment, s: seq<char>): (r: seq<real>)
    ensures |r| == CountOf(s, '\n') + 1
  {
    MeasureShape(m, s);
    var ws := LineWidths(m, s);
    var maxWidth := MeasurePrefix(m, s).maxWidth;
    seq(|ws|, i requires 0 <= i < |ws| => Round(AlignedOffset(alignment, maxWidth, ws[i])) as real)
  }

  function LineOffsets(st: Style): (r: seq<real>)
  {
    Offsets(MetricsOf(st), st.alignment, st.str)
  }

  /** Left alignment puts every line at 0. Right alignment lines up every line's right
      edge, and Center every line's midpoint, to within half a pixel of one common
      width W, which is the widest '\n'-terminated line (or 0); so no
      '\n'-terminated line is ever shifted left. */
  lemma AlignmentOfOffsets(m: Metrics, alignment: LineAlignment, s: seq<char>)
    ensures var offsets := Offsets(m, alignment, s);
            var ws := LineWidths(m, s);
            var W := MeasurePrefix(m, s).maxWidth;
            |offsets| == |ws| == CountOf(s, '\n') + 1
            && (alignment == Left ==> forall i :: 0 <= i < |offsets| ==> offsets[i] == 0.0)
            && (alignment == Right ==> forall i :: 0 <= i < |offsets| ==>
                  offsets[i] == Round(W - ws[i]) as real
                  && W - 0.5 <= offsets[i] + ws[i] <= W + 0.5)
            && (alignment == Center ==> forall i :: 0 <= i < |offsets| ==>
                  offsets[i] == Round((W - ws[i]) / 2.0) as real
                  && W - 1.0 <= 2.0 * offsets[i] + ws[i] <= W + 1.0)
            && (alignment != Left ==> forall i :: 0 <= i < |offsets| - 1 ==> 0.0 <= offsets[i])
  {
    MeasureShape(m, s);
    var offsets := Offsets(m, alignment, s);
    var ws := LineWidths(m, s);
    var W := MeasurePrefix(m, s).maxWidth;
    forall i | 0 <= i < |offsets| - 1
      ensures 0.0 <= W - ws[i]
    {
      assert ws[i] == MeasurePrefix(m, s).widths[i];
    }
  }

  // ---------------------------------------------------------------------------
  // findCharacterPos: the caret walk

  datatype Caret = Caret(position: Vec2, prevChar: char)

  function CaretStep(m: Metrics, k: Caret, c: char): (r: Caret)
  {
    var p := k.position;
    var x := p.x + Kerning(m, k.prevChar, c);
    if c == ' ' then Caret(Vec2(x + m.spacing.whitespaceWidth, p.y), c)
    else if c == '\t' then Caret(Vec2(x + m.spacing.whitespaceWidth * 4.0, p.y), c)
    else if c == '\n' then Caret(Vec2(0.0, p.y + m.spacing.lineSpacing), c)
    else Caret(Vec2(x + m.font.glyphOf(c, m.size, m.bold, 0.0, m.atlas).advance + m.spacing.letterSpacing, p.y), c)
  }

  /** The caret after walking all of s, starting at (startX, 0). */
  function CaretPrefix(m: Metrics, startX: real, s: seq<char>): (r: Caret)
    decreases |s|
  {
    if s == [] then Caret(Vec2(startX, 0.0), NoChar)
    else CaretStep(m, CaretPrefix(m, startX, s[..|s| - 1]), s[|s| - 1])
  }

  /** The caret walk and the measuring loop agree: the caret's x is the width
      measured for the current line, shifted by the first line's offset only while no
      '\n' has been seen, and both remember the same previous code point. */
  lemma {:induction false} CaretFollowsMeasure(m: Metrics, startX: real, s: seq<char>)
    ensures var k := CaretPrefix(m, startX, s);
            var w := MeasurePrefix(m, s);
            k.prevChar == w.prevChar
            && k.position.x == w.x + (if CountOf(s, '\n') == 0 then startX else 0.0)
    decreases |s|
  {
    if s != [] {
      var t := s[..|s| - 1];
      CaretFollowsMeasure(m, startX, t);
      if s[|s| - 1] == '\n' {
        assert CountOf(s, '\n') == CountOf(t, '\n') + 1;
      } else {
        assert CountOf(s, '\n') == CountOf(t, '\n');
      }
    }
  }

  /** The caret goes one line spacing down per '\n' and never moves otherwise. */
  lemma {:induction false} CaretDepth(m: Metrics, startX: real, s: seq<char>)
    ensures CaretPrefix(m, startX, s).position.y == CountOf(s, '\n') as real * m.spacing.lineSpacing
    decreases |s|
  {
    if s != [] {
      var t := s[..|s| - 1];
      var c := s[|s| - 1];
      var n := CountOf(t, '\n');
      CaretDepth(m, startX, t);
      CaretStepDepth(m, CaretPrefix(m, startX, t), c);
      if c == '\n' {
        assert CountOf(s, '\n') == n + 1;
        NextLineDown(n, m.spacing.lineSpacing);
      } else {
        assert CountOf(s, '\n') == n;
      }
    }
  }

  lemma CaretStepDepth(m: Metrics, k: Caret, c: char)
    ensures CaretStep(m, k, c).position.y
         == k.position.y + (if c == '\n' then m.spacing.lineSpacing else 0.0)
  {
  }

  lemma NextLineDown(n: nat, lineSpacing: real)
    ensures n as real * lineSpacing + lineSpacing == (n + 1) as real * lineSpacing
  {
  }
}
