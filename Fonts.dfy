/** The font provider, as far as the text engine consumes it. Glyph rasterisation,
    atlas packing and kerning tables are the font's own business; the engine sees
    only their results, which are modelled as fixed functions of their arguments.
    The one piece of font state that changes under the text's feet is the cache id
    of the atlas texture for a character size: repacking the atlas gives the texture
    a new id. */
module Fonts {
  import opened Primitives

  /** A texture cache id. Zero is reserved for "no texture recorded yet". */
  type CacheId = n: nat | 0 < n witness 1

  class Font {
    /** getGlyph(codePoint, characterSize, bold, outlineThickness), looked up in the
        atlas whose cache id is the last argument: the glyph's texture rectangle is
        where that version of the atlas packed it. */
    const glyphOf: (char, nat, bool, real, CacheId) -> Glyph
    /** getKerning(first, second, characterSize, bold) */
    const kerningOf: (char, char, nat, bool) -> real
    /** getLineSpacing(characterSize) */
    const lineSpacingOf: nat -> real
    /** getUnderlinePosition(characterSize) */
    const underlinePositionOf: nat -> real
    /** getUnderlineThickness(characterSize) */
    const underlineThicknessOf: nat -> real
    /** getTexture(characterSize).m_cacheId; changes whenever the atlas is rebuilt */
    var textureCacheIdOf: nat -> CacheId

    constructor (glyphOf: (char, nat, bool, real, CacheId) -> Glyph,
                 kerningOf: (char, char, nat, bool) -> real,
                 lineSpacingOf: nat -> real,
                 underlinePositionOf: nat -> real,
                 underlineThicknessOf: nat -> real,
                 textureCacheIdOf: nat -> CacheId)
      ensures this.glyphOf == glyphOf && this.kerningOf == kerningOf
      ensures this.lineSpacingOf == lineSpacingOf
      ensures this.underlinePositionOf == underlinePositionOf
      ensures this.underlineThicknessOf == underlineThicknessOf
      ensures this.textureCacheIdOf == textureCacheIdOf
    {
      this.glyphOf := glyphOf;
      this.kerningOf := kerningOf;
      this.lineSpacingOf := lineSpacingOf;
      this.underlinePositionOf := underlinePositionOf;
      this.underlineThicknessOf := underlineThicknessOf;
      this.textureCacheIdOf := textureCacheIdOf;
    }
  }
}
