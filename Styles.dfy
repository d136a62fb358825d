/** The style state of a text object, gathered into one value so that the layout
    passes can be stated as functions of it. */
module Styles {
  import opened Primitives
  import opened Fonts

  /** Bits of the text style word (sf::Text::Style). */
  const Regular: bv32 := 0
  const Bold: bv32 := 1
  const Italic: bv32 := 2
  const Underlined: bv32 := 4
  const StrikeThrough: bv32 := 8

  /** Whether the style word has the given bit set (C++ `style & flag` used as a bool). */
  predicate HasFlag(style: bv32, flag: bv32)
  {
    style & flag != 0
  }

  datatype LineAlignment = Left | Center | Right

  /** Every field the layout and geometry passes read, and the cache id of the font's
      atlas texture for the character size, which the glyph lookups read. */
  datatype Style = Style(
    str: seq<char>,
    font: Font,
    size: nat,
    letterSpacingFactor: real,
    lineSpacingFactor: real,
    bits: bv32,
    fillColor: Color,
    outlineColor: Color,
    outlineThickness: real,
    alignment: LineAlignment,
    atlas: CacheId)

  /** Number of occurrences of c in s. */
  function CountOf(s: seq<char>, c: char): (r: nat)
    decreases |s|
  {
    if s == [] then 0
    else CountOf(s[..|s| - 1], c) + (if s[|s| - 1] == c then 1 else 0)
  }

  lemma {:induction false} CountOfPrefix(s: seq<char>, c: char, i: nat)
    requires i <= |s|
    ensures CountOf(s[..i], c) <= CountOf(s, c)
    decreases |s|
  {
    if i < |s| {
      assert s[..|s| - 1][..i] == s[..i];
      CountOfPrefix(s[..|s| - 1], c, i);
    } else {
      assert s[..i] == s;
    }
  }
}
