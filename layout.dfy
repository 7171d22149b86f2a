/** The constants and the built-in font of chip8.hpp. */
module Layout {
  import opened Types

  const START_ADDRESS := 0x200
  const FONTSET_SIZE := 80
  const FONTSET_START_ADDRESS := 0x050
  const VIDEO_HEIGHT := 32
  const VIDEO_WIDTH := 64

  const MEMORY_SIZE := 4096
  const REGISTER_COUNT := 16
  const STACK_DEPTH := 16
  const KEY_COUNT := 16
  const DISPLAY_SIZE := VIDEO_WIDTH * VIDEO_HEIGHT

  /** The register written as a side effect (carry, borrow, shifted-out bit, collision). */
  const VF: nibble := 0xF

  /** Bytes per glyph: a glyph is 8 pixels wide and 5 rows high. */
  const GLYPH_HEIGHT := 5

  /** The sixteen hexadecimal digit glyphs, five rows each, digit 0 first (one glyph per line). */
  const FONTSET: seq<byte> :=
    [0xF0, 0x90, 0x90, 0x90, 0xF0] + // 0
    [0x20, 0x60, 0x20, 0x20, 0x70] + // 1
    [0xF0, 0x10, 0xF0, 0x80, 0xF0] + // 2
    [0xF0, 0x10, 0xF0, 0x10, 0xF0] + // 3
    [0x90, 0x90, 0xF0, 0x10, 0x10] + // 4
    [0xF0, 0x80, 0xF0, 0x10, 0xF0] + // 5
    [0xF0, 0x80, 0xF0, 0x90, 0xF0] + // 6
    [0xF0, 0x10, 0x20, 0x40, 0x40] + // 7
    [0xF0, 0x90, 0xF0, 0x90, 0xF0] + // 8
    [0xF0, 0x90, 0xF0, 0x10, 0xF0] + // 9
    [0xF0, 0x90, 0xF0, 0x90, 0x90] + // A
    [0xE0, 0x90, 0xE0, 0x90, 0xE0] + // B
    [0xF0, 0x80, 0x80, 0x80, 0xF0] + // C
    [0xE0, 0x90, 0x90, 0x90, 0xE0] + // D
    [0xF0, 0x80, 0xF0, 0x80, 0xF0] + // E
    [0xF0, 0x80, 0xF0, 0x80, 0x80]   // F

  /** The five rows of the glyph for hexadecimal digit `d`. */
  function Glyph(d: nibble): (g: seq<byte>)
    ensures |g| == GLYPH_HEIGHT
    ensures forall r :: 0 <= r < GLYPH_HEIGHT ==> g[r] == FONTSET[GLYPH_HEIGHT * d as int + r]
  {
    FONTSET[GLYPH_HEIGHT * d as int .. GLYPH_HEIGHT * d as int + GLYPH_HEIGHT]
  }

  /** Every byte has a zero low nibble: a glyph row uses only the left four of its eight pixels. */
  predicate LowNibblesZero(s: seq<byte>)
  {
    forall i :: 0 <= i < |s| ==> s[i] as int % 16 == 0
  }

  lemma LowNibblesZeroDigits0To3()
    ensures LowNibblesZero(FONTSET[0..20])
  {
  }

  lemma LowNibblesZeroDigits4To7()
    ensures LowNibblesZero(FONTSET[20..40])
  {
  }

  lemma LowNibblesZeroDigits8ToB()
    ensures LowNibblesZero(FONTSET[40..60])
  {
  }

  lemma LowNibblesZeroDigitsCToF()
    ensures LowNibblesZero(FONTSET[60..80])
  {
  }

  /** Every glyph row of the font uses only the left four pixels. */
  lemma FontsetLowNibblesZero()
    ensures |FONTSET| == FONTSET_SIZE && LowNibblesZero(FONTSET)
  {
    LowNibblesZeroDigits0To3();
    LowNibblesZeroDigits4To7();
    LowNibblesZeroDigits8ToB();
    LowNibblesZeroDigitsCToF();
    forall i | 0 <= i < |FONTSET| ensures FONTSET[i] as int % 16 == 0 {
      if i < 20 {
        assert FONTSET[0..20][i] == FONTSET[i];
      } else if i < 40 {
        assert FONTSET[20..40][i - 20] == FONTSET[i];
      } else if i < 60 {
        assert FONTSET[40..60][i - 40] == FONTSET[i];
      } else {
        assert FONTSET[60..80][i - 60] == FONTSET[i];
      }
    }
  }

  /** The font has 80 bytes; its region ends at 0x0A0, below the program load address, and the framebuffer has 2048 cells. */
  lemma LayoutFits()
    ensures |FONTSET| == FONTSET_SIZE
    ensures FONTSET_START_ADDRESS + FONTSET_SIZE == 0x0A0 <= START_ADDRESS < MEMORY_SIZE
    ensures DISPLAY_SIZE == 2048
  {
  }
}
