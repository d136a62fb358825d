# SFML text layout and geometry, in Dafny

This project models the text object of SFML's graphics module, `sf::Text`
(`src/SFML/Graphics/Text.cpp`). The object holds a string and its style: font,
character size, letter and line spacing factors, style bits, fill and outline colour,
outline thickness and line alignment. It turns them lazily into three buffers:
the per-line alignment offsets, a fill vertex buffer and an outline vertex buffer,
plus a bounding rectangle. A dirty flag and the recorded cache id of the font's
texture decide when the buffers must be rebuilt.

Structure:

- `Primitives` — vectors, colours, vertices, rectangles, glyph descriptors, and
  `std::floor`/`std::ceil`/`std::round`/`std::abs`/`std::min`/`std::max` over exact
  reals.
- `Fonts` — the font as the engine consumes it: deterministic glyph, kerning, line
  spacing and underline metrics, and a texture cache id per character size that
  changes when the atlas is repacked. A glyph lookup is made in a given atlas
  version, so a glyph's texture rectangle can move when the atlas is repacked.
- `Styles` — the style bits, the line alignment and the `Style` record of every field
  the layout passes read.
- `Quads` — `addLine` and `addGlyphQuad` as functions returning their six vertices,
  and the in-place repaint of the colour setters.
- `Layout` — `getSpacing`; the two loops of `updateLineOffsets` as a left fold
  (`MeasurePrefix`) followed by the alignment map (`Offsets`); and the caret walk of
  `findCharacterPos` (`CaretPrefix`).
- `Geometry` — the rebuild loop of `ensureGeometryUpdate` as a left fold (`Walk`,
  one `Step` per code point) and its epilogue (`Finish`). Together these give `Build`,
  the geometry a style determines. This module also holds the lemmas about
  `Build`: vertex counts, colours, independence from the colours and from the outline,
  and agreement with the line measurements.
- `TextObject` — the class `Text` with the source's fields. The setters,
  `updateLineOffsets`, `findCharacterPos`, `ensureGeometryUpdate` and the bounds
  getters are methods. The colour setters, `updateLineOffsets`, `findCharacterPos`
  and the rebuild contain loops, and each loop is proved against the fold above.
  The class invariant `Valid` says that whenever the flag is clear and the
  recorded texture id is the font's current atlas id, the buffers and bounds equal
  `Build` of the current style in that atlas. After a repack the invariant no
  longer claims anything until `EnsureGeometryUpdate` rebuilds.

Floats are exact reals. Kerning, glyphs and metrics come from the font. The object's
affine transform is a function parameter.

## Model

| member | source | states |
|---|---|---|
| Primitives.Ceil | src/SFML/Graphics/Text.cpp:541 | `std::ceil`: the least integer not below its argument |
| Primitives.Round | src/SFML/Graphics/Text.cpp:636 | `std::round`: within half a unit of its argument, halfway cases away from zero |
| Primitives.Min | src/SFML/Graphics/Text.cpp:481-532 | `std::min`: no greater than either argument, and equal to one of them |
| Primitives.Max | src/SFML/Graphics/Text.cpp:481-532 | `std::max`: no less than either argument, and equal to one of them |
| Primitives.Abs | src/SFML/Graphics/Text.cpp:541 | `std::abs`: non-negative and equal to the argument or its negation |
| Quads.LineQuad | src/SFML/Graphics/Text.cpp:42-66 | addLine appends exactly six vertices |
| Quads.SnappedTop | src/SFML/Graphics/Text.cpp:51 | the decoration's top edge lands on a whole pixel, the nearest one to its nominal value (halfway cases go down the screen) |
| Quads.SnappedHeight | src/SFML/Graphics/Text.cpp:52 | the decoration's height is a whole number of pixels, the nearest one to its thickness (halfway cases go up) |
| Quads.LineQuadCorners | src/SFML/Graphics/Text.cpp:42-66 | the six vertices are exactly the four corners of the snapped rectangle widened by the outline thickness; the first is the top-left and the last the bottom-right corner, and vertices 1 and 4, 2 and 3 coincide, so the two triangles share the top-right to bottom-left diagonal; all in the given colour with texture coordinate (1,1) |
| Quads.GlyphQuad | src/SFML/Graphics/Text.cpp:69-96 | addGlyphQuad appends exactly six vertices |
| Quads.PaddedCorner | src/SFML/Graphics/Text.cpp:73-95 | one corner of the glyph box padded by 1, sheared by its height, with the matching padded texture corner; its y is the padded top or bottom edge |
| Quads.GlyphQuadCorners | src/SFML/Graphics/Text.cpp:69-96 | the six vertices carry exactly the four corners of the glyph box padded by 1 and sheared by their height, each with the matching corner of the texture rectangle padded by 1 (so the texture coordinates span u1..u2 and v1..v2); the first is the top-left and the last the bottom-right corner, and vertices 1 and 4, 2 and 3 coincide, so the two triangles share the top-right to bottom-left diagonal; all in the given colour |
| Quads.Repaint | src/SFML/Graphics/Text.cpp:188-189 | the repaint keeps length, positions and texture coordinates and gives every vertex the new colour |
| Quads.RepaintAppend | src/SFML/Graphics/Text.cpp:188-189 | repainting distributes over concatenation |
| Quads.RepaintLineQuad | src/SFML/Graphics/Text.cpp:42-66 | repainting a decoration quad equals emitting it in the new colour |
| Quads.RepaintGlyphQuad | src/SFML/Graphics/Text.cpp:69-96 | repainting a glyph quad equals emitting it in the new colour |
| Layout.SpacingOf | src/SFML/Graphics/Text.cpp:642-650 | getSpacing: the whitespace width, letter spacing and line spacing of a style; no ensures of its own, its meaning is stated by Layout.SpacingMeaning |
| Layout.SpacingMeaning | src/SFML/Graphics/Text.cpp:642-650 | letter spacing is a third of the space advance per unit of factor above 1 (zero at factor 1); whitespace width is the space advance plus the letter spacing; line spacing is the font's line spacing times the factor |
| Layout.SpacingMonotone | src/SFML/Graphics/Text.cpp:645-647 | a larger letter spacing factor never decreases letter spacing or whitespace width, for a non-negative space advance |
| Layout.MeasureStep | src/SFML/Graphics/Text.cpp:587-615 | one iteration of the measuring loop: kerning, then whitespace, tab or glyph advance, or at `\n` a pushed width and a running maximum; no ensures of its own |
| Layout.MeasurePrefix | src/SFML/Graphics/Text.cpp:587-615 | the measuring loop over a whole string, as a left fold of MeasureStep; no ensures of its own, its properties are Layout.MeasureShape and the loop in TextObject.Text.MeasureLines |
| Layout.MeasureShape | src/SFML/Graphics/Text.cpp:587-615 | the measuring loop pushes one width per `\n`; maxWidth is 0 or one of those widths and bounds all of them; prevChar is the last code point |
| Layout.AlignedOffset | src/SFML/Graphics/Text.cpp:624-635 | the unrounded offset of one line: 0 for Left, its right edge at maxWidth for Right, its midpoint at half of maxWidth for Center |
| Layout.Offsets | src/SFML/Graphics/Text.cpp:575-638 | the offset table has one entry per `\n` plus one |
| Layout.AlignmentOfOffsets | src/SFML/Graphics/Text.cpp:619-637 | Left gives all zeros; Right gives round(maxW − wᵢ) and Center gives round((maxW − wᵢ)/2), lining each line's right edge or midpoint up with maxW to within half a pixel; maxW counts only `\n`-terminated lines, so those are never shifted left |
| Layout.CaretStep | src/SFML/Graphics/Text.cpp:317-345 | one iteration of the caret walk: kerning, then whitespace, tab or glyph advance, or at `\n` back to x = 0 one line spacing down; no ensures of its own, Layout.CaretStepDepth states its vertical move |
| Layout.CaretPrefix | src/SFML/Graphics/Text.cpp:317-345 | the caret walk over a prefix of the string, as a left fold of CaretStep; no ensures of its own, its properties are Layout.CaretFollowsMeasure and Layout.CaretDepth |
| Layout.CaretFollowsMeasure | src/SFML/Graphics/Text.cpp:318-345 | the caret's x is the width measured for the current line (plus the first offset while no `\n` was seen), and both remember the same previous code point |
| Layout.CaretDepth | src/SFML/Graphics/Text.cpp:337-340 | the caret's y is the number of `\n` times the line spacing |
| Layout.CaretStepDepth | src/SFML/Graphics/Text.cpp:337-340 | one caret step moves y down by the line spacing exactly on `\n` |
| Geometry.PenOf | src/SFML/Graphics/Text.cpp:413-427 | the constants of a rebuild: metrics, decoration flags, the italic shear, the underline metrics and the strike-through at the centre of the 'x' glyph's box; no ensures of its own |
| Geometry.Start | src/SFML/Graphics/Text.cpp:428-438 | the loop's initial state: x at the first line's offset, y one character size down, the box at (size, size)-(0, 0), no previous code point, line 0, empty buffers; no ensures of its own |
| Geometry.FillLines | src/SFML/Graphics/Text.cpp:450-473 | the fill-buffer decorations of one line, underline then strike-through; no ensures of its own, Geometry.LinesShape states its size and colour |
| Geometry.OutlineLines | src/SFML/Graphics/Text.cpp:450-473 | the outline-buffer decorations of one line, none without an outline; no ensures of its own, Geometry.LinesShape states its size and colour |
| Geometry.CloseLine | src/SFML/Graphics/Text.cpp:450-473 | a line break appends both decoration sequences; no ensures of its own, Geometry.BreakShape states its effect on the buffers |
| Geometry.Blank | src/SFML/Graphics/Text.cpp:478-505 | space, tab or `\n`: the box takes in the position before and after the move; no ensures of its own |
| Geometry.Ink | src/SFML/Graphics/Text.cpp:508-535 | a glyph: its quads, its sheared box and its advance; no ensures of its own, Geometry.InkShape states its effect on the buffers |
| Geometry.Step | src/SFML/Graphics/Text.cpp:441-535 | one iteration of the rebuild loop: `\r` skipped, kerning, the decorations at a line break, then Blank or Ink; no ensures of its own, Geometry.StepShape states its effect |
| Geometry.Walk | src/SFML/Graphics/Text.cpp:439-536 | the rebuild loop over a whole string, as a left fold of Step from Start; no ensures of its own, its properties are Geometry.WalkShape, the repaint and outline lemmas, and the loop in TextObject.Text.LayOut |
| Geometry.OutlinePadding | src/SFML/Graphics/Text.cpp:538-546 | the bounds padding \|ceil(thickness)\|: zero without an outline, else a whole number of pixels that covers a positive thickness and lies within one pixel below a negative thickness's magnitude |
| Geometry.Finish | src/SFML/Graphics/Text.cpp:538-570 | the epilogue: padding, the closing decorations when x > 0, and the bounds rectangle; no ensures of its own, Geometry.FinishWithoutOutline states its effect |
| Geometry.Build | src/SFML/Graphics/Text.cpp:401-571 | the geometry cache a style determines: nothing for an empty string, else Finish after Walk; no ensures of its own, its properties are Geometry.BuildShape and the Build lemmas below |
| Geometry.LinesShape | src/SFML/Graphics/Text.cpp:450-473 | a line break emits six fill vertices per enabled decoration, the same number of outline vertices when there is an outline and none otherwise, each in its buffer's colour |
| Geometry.BreakShape | src/SFML/Graphics/Text.cpp:450-473 | closing a line's decorations keeps the buffers consistent in size and colour |
| Geometry.InkShape | src/SFML/Graphics/Text.cpp:508-521 | a glyph adds six fill vertices and keeps the buffers consistent |
| Geometry.StepShape | src/SFML/Graphics/Text.cpp:439-536 | one loop iteration adds six fill vertices per glyph and per decoration at a line break, keeps the buffers consistent, skips `\r` without touching prevChar, and counts every `\n` as a line |
| Geometry.WalkShape | src/SFML/Graphics/Text.cpp:439-536 | after the loop: six fill vertices per glyph and per decoration at each `\n` not preceded (ignoring `\r`) by `\n`; outline buffer empty or as long as the fill buffer; all vertices in their buffer's colour; prevChar is the last non-`\r` code point |
| Geometry.BuildShape | src/SFML/Graphics/Text.cpp:444-564 | after a rebuild: the vertex counts above plus one decoration per style for the closing line; the outline buffer empty without an outline, else as large as the fill buffer; all colours right; an empty string gives empty buffers and zero bounds |
| Geometry.RepaintLines | src/SFML/Graphics/Text.cpp:450-473 | repainting a line's decorations equals emitting them in the new colour |
| Geometry.CloseLineRepaint | src/SFML/Graphics/Text.cpp:450-473 | closing a line commutes with repainting either buffer |
| Geometry.InkRepaint | src/SFML/Graphics/Text.cpp:508-535 | drawing a glyph commutes with repainting either buffer |
| Geometry.StepRepaintFill | src/SFML/Graphics/Text.cpp:439-536 | one iteration under another fill colour equals the iteration with its fill buffer repainted |
| Geometry.StepRepaintOutline | src/SFML/Graphics/Text.cpp:439-536 | one iteration under another outline colour equals the iteration with its outline buffer repainted |
| Geometry.WalkRepaintFill | src/SFML/Graphics/Text.cpp:439-536 | the whole loop under another fill colour equals the loop with its fill buffer repainted |
| Geometry.WalkRepaintOutline | src/SFML/Graphics/Text.cpp:439-536 | the whole loop under another outline colour equals the loop with its outline buffer repainted |
| Geometry.BuildRepaintFill | src/SFML/Graphics/Text.cpp:178-192 | the in-place fill repaint yields exactly the geometry a rebuild with the new fill colour would give |
| Geometry.BuildRepaintOutline | src/SFML/Graphics/Text.cpp:196-210 | the in-place outline repaint yields exactly the geometry a rebuild with the new outline colour would give |
| Geometry.StepWithoutOutline | src/SFML/Graphics/Text.cpp:509-515 | the outline thickness affects one iteration only through the outline buffer |
| Geometry.WalkWithoutOutline | src/SFML/Graphics/Text.cpp:439-536 | the outline thickness affects the loop only through the outline buffer |
| Geometry.FinishWithoutOutline | src/SFML/Graphics/Text.cpp:538-570 | the epilogue with an outline has the same fill buffer, and bounds padded by \|ceil(thickness)\| on every side |
| Geometry.BuildWithoutOutline | src/SFML/Graphics/Text.cpp:538-546 | a rebuild with an outline has the same fill buffer as one without, and bounds padded by \|ceil(thickness)\| on every side |
| Geometry.StepFollowsMeasure | src/SFML/Graphics/Text.cpp:447-536 | one rebuild iteration keeps the cursor at its line's offset plus the measured width, one line spacing per line below the first baseline |
| Geometry.WalkFollowsMeasure | src/SFML/Graphics/Text.cpp:428-536 | for a string without `\r`, the rebuild's cursor is the current line's offset plus the width the measuring loop has for it, its y the character size plus one line spacing per `\n` |
| Geometry.LineWithinOffsets | src/SFML/Graphics/Text.cpp:492-496 | after any prefix of the string the rebuild's line index is below the length of the offset table, so the lookup at a `\n` is always in range |
| Geometry.CaretAgainstRebuild | src/SFML/Graphics/Text.cpp:337-340 | for a string without `\r`, the caret is the rebuild's pen position moved up by the character size and, after the first `\n`, left by the current line's offset, because findCharacterPos restarts a line at 0 where the rebuild (line 496) restarts it at the line's offset |
| Geometry.BuildClosingLine | src/SFML/Graphics/Text.cpp:548-564 | for a string without `\r`, the closing decoration is drawn exactly when the last line's offset plus its measured width is positive |
| TextObject.Text.constructor | src/SFML/Graphics/Text.cpp:103-108 | stores font, string and size; every other field takes its declared default; the invariant holds |
| TextObject.Text.SetString | src/SFML/Graphics/Text.cpp:112-119 | stores the string; raises the flag iff it changed; nothing else changes; keeps the invariant |
| TextObject.Text.SetFont | src/SFML/Graphics/Text.cpp:123-130 | stores the font; raises the flag iff it is another font object; keeps the invariant |
| TextObject.Text.SetCharacterSize | src/SFML/Graphics/Text.cpp:134-141 | stores the size; raises the flag iff it changed; keeps the invariant |
| TextObject.Text.SetLetterSpacing | src/SFML/Graphics/Text.cpp:145-152 | stores the factor; raises the flag iff it changed; keeps the invariant |
| TextObject.Text.SetLineSpacing | src/SFML/Graphics/Text.cpp:156-163 | stores the factor; raises the flag iff it changed; keeps the invariant |
| TextObject.Text.SetStyle | src/SFML/Graphics/Text.cpp:167-174 | stores the style bits; raises the flag iff they changed; keeps the invariant |
| TextObject.Text.SetFillColor | src/SFML/Graphics/Text.cpp:178-192 | stores the colour without touching the flag; repaints the fill buffer when the colour changed and the flag is clear, else leaves it; keeps the invariant |
| TextObject.Text.PaintFill | src/SFML/Graphics/Text.cpp:188-189 | the loop leaves the fill buffer repainted in the new colour |
| TextObject.Text.SetOutlineColor | src/SFML/Graphics/Text.cpp:196-210 | stores the colour without touching the flag; repaints the outline buffer when the colour changed and the flag is clear, else leaves it; keeps the invariant |
| TextObject.Text.PaintOutline | src/SFML/Graphics/Text.cpp:206-207 | the loop leaves the outline buffer repainted in the new colour |
| TextObject.Text.SetOutlineThickness | src/SFML/Graphics/Text.cpp:214-221 | stores the thickness; raises the flag iff it changed; keeps the invariant |
| TextObject.Text.SetLineAlignment | src/SFML/Graphics/Text.cpp:225-230 | stores the alignment; raises the flag iff it changed; keeps the invariant |
| TextObject.Text.FindCharacterPos | src/SFML/Graphics/Text.cpp:304-351 | recomputes the line offsets; returns the transformed caret after walking the first min(index, size) code points from (first offset, 0), which for index 0 is the first offset itself |
| TextObject.Text.GetLocalBounds | src/SFML/Graphics/Text.cpp:355-360 | returns the bounds of the geometry of the current style, and leaves the flag clear, the current atlas id recorded and the cache up to date |
| TextObject.Text.GetGlobalBounds | src/SFML/Graphics/Text.cpp:364-367 | returns those bounds mapped through the transform, and leaves the cache in the same state as GetLocalBounds |
| TextObject.Text.EnsureGeometryUpdate | src/SFML/Graphics/Text.cpp:389-571 | afterwards the flag is clear, the current texture id is recorded and the cache equals the geometry of the current style in the current atlas, so a repacked atlas forces a rebuild even with the flag clear; when the flag was clear and the id current nothing changes, so a second call is a no-op; an empty string gives empty buffers and zero bounds |
| TextObject.Text.Regenerate | src/SFML/Graphics/Text.cpp:401-571 | clears the cache, and for a non-empty string recomputes the line offsets and rebuilds it; the cache then equals the geometry of the current style |
| TextObject.Text.UpdateLineOffsets | src/SFML/Graphics/Text.cpp:575-638 | the line offsets become the offset table of the current style |
| TextObject.Text.MeasureLines | src/SFML/Graphics/Text.cpp:577-619 | the buffer holds the width of every `\n`-terminated line then the trailing line; maxWidth is the measured maximum |
| TextObject.Text.AlignLines | src/SFML/Graphics/Text.cpp:621-637 | each width is replaced in place by its rounded aligned offset |
| TextObject.Text.Rebuild | src/SFML/Graphics/Text.cpp:413-570 | from cleared buffers and current offsets, the loop, the outline padding and the closing decorations leave the cache equal to the geometry of the current style |
| TextObject.Text.LayOut | src/SFML/Graphics/Text.cpp:428-536 | the rebuild loop leaves its variables and both buffers equal to the fold of the loop over the whole string |
| TextObject.Text.AdvanceChar | src/SFML/Graphics/Text.cpp:441-535 | one iteration of the loop equals one step of the fold |
| TextObject.Text.AddLines | src/SFML/Graphics/Text.cpp:450-473 | appends the underline then the strike-through of one line to the fill buffer and, with an outline, to the outline buffer |
| TextObject.Text.AdvanceBlank | src/SFML/Graphics/Text.cpp:478-505 | space, tab and `\n` move the cursor (to the next line's offset and one line spacing down for `\n`) and widen the box by the positions before and after |
| TextObject.Text.AdvanceGlyph | src/SFML/Graphics/Text.cpp:508-535 | a glyph appends its quads, widens the box by its sheared bounds and advances by its advance plus the letter spacing |
| TextObject.Text.AddGlyph | src/SFML/Graphics/Text.cpp:508-521 | appends the outline glyph's quad (with an outline) and then the fill glyph's quad, and returns the fill glyph |

## Left out

- `Text::draw` (src/SFML/Graphics/Text.cpp:371-385) hands the buffers to a render target, which is a foreign rendering backend.
- The object's transform (`getTransform().transformPoint`, `transformRect`) is external; `FindCharacterPos` and `GetGlobalBounds` take it as a function parameter.
- Font internals (rasterisation, kerning tables, atlas packing) are left out: the model sees only their results, as fixed functions of their arguments and of the atlas version. Texture cache ids are taken as positive, so the zero a new text records always forces the first rebuild.
- TextObject.Text.EnsureGeometryUpdate: glyph lookups are modelled without side effects, all in the atlas version read at the start of the rebuild. A lookup that grows or repacks the atlas in the middle of a rebuild (the font loads glyphs on demand) is not captured; in the program the recorded id can then be stale right after the rebuild.
- Strings are sequences of Dafny `char`, which are Unicode scalar values. `sf::String` holds arbitrary 32-bit code points, including surrogates and values above 0x10FFFF, which reach the font lookups unchanged. The layout compares code points only against space, tab, `\n` and `\r`, so it does not depend on the difference.
- IEEE single-precision rounding is not modelled: every float is an exact real.
- The italic shear is the constant 0.20943951 rather than `sf::degrees(12).asRadians()` (src/SFML/Graphics/Text.cpp:417); the conversion belongs to the angle class.
- The trivial getters (src/SFML/Graphics/Text.cpp:234-300) only return a field, which the model exposes directly.
- The y coordinate that updateLineOffsets advances at `\n` (src/SFML/Graphics/Text.cpp:605) is never read, so the model does not keep it.
- The style bit values and the fields' default values come from the class declaration in `include/SFML/Graphics/Text.hpp`, which is not part of this model.
- `SFML/System/Err.cpp` is not part of this model: it is a thread-local error stream, not part of the text engine.
- Geometry.WalkFollowsMeasure, Geometry.BuildClosingLine, Geometry.CaretAgainstRebuild: stated only for strings without `\r`. updateLineOffsets and findCharacterPos give `\r` its glyph advance, while the rebuild skips it (src/SFML/Graphics/Text.cpp:444-445), so with `\r` present the rebuild's lines are not where the measurements put them.
- Layout.CaretFollowsMeasure: states the caret's x and previous code point; its y is stated separately by Layout.CaretDepth.
