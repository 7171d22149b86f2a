/**
 * The sprite-drawing loop of DRW (Dxyn), on a value framebuffer.
 *
 * A sprite is `n` bytes, one per row; bit 7 of a byte is the leftmost pixel.
 * Pixel (row, col) of the 8 x n block lands on cell
 * `(yPos + row) * 64 + (xPos + col)`: only the start position is wrapped
 * onto the screen, so a sprite that runs past the right edge continues on
 * the next row.  The loop visits rows in order and, within a row, columns
 * 0 to 7.
 */
module Framebuffer {
  import opened Types
  import opened Layout

  /** A lit cell: all 32 bits set. */
  const ON: cell := 0xFFFF_FFFF

  /** Column `col` of a sprite row is lit: `spriteByte & (0x80 >> col)` is non-zero. */
  predicate SpriteBit(b: byte, col: nat)
    requires col < 8
  {
    (b as bv8) & (0x80 >> col) != 0
  }

  /** The cell that pixel (row, col) of the block lands on. */
  function Target(xPos: nat, yPos: nat, row: nat, col: nat): nat
  {
    (yPos + row) * VIDEO_WIDTH + (xPos + col)
  }

  predicate Lit(sprite: seq<byte>, row: nat, col: nat)
    requires row < |sprite| && col < 8
  {
    SpriteBit(sprite[row], col)
  }

  /** A point of the loop: `row` whole rows done and `col` pixels of the next one. */
  predicate At(sprite: seq<byte>, row: nat, col: nat)
  {
    (row < |sprite| && col <= 8) || (row == |sprite| && col == 0)
  }

  /** Pixel (r, c) is visited before the loop reaches (row, col). */
  predicate Before(r: nat, c: nat, row: nat, col: nat)
  {
    r < row || (r == row && c < col)
  }

  /** Every cell address the loop forms for a block of `height` rows lies inside the framebuffer. */
  predicate Fits(xPos: nat, yPos: nat, height: nat)
  {
    height == 0 || (yPos + height - 1) * VIDEO_WIDTH + xPos + 7 < DISPLAY_SIZE
  }

  lemma TargetInside(xPos: nat, yPos: nat, height: nat, row: nat, col: nat)
    requires Fits(xPos, yPos, height) && row < height && col < 8
    ensures Target(xPos, yPos, row, col) < DISPLAY_SIZE
  {
  }

  /** The cells of distinct pixels are distinct, so no cell is toggled twice by one draw. */
  lemma TargetInjective(xPos: nat, yPos: nat, r1: nat, c1: nat, r2: nat, c2: nat)
    requires c1 < 8 && c2 < 8 && Target(xPos, yPos, r1, c1) == Target(xPos, yPos, r2, c2)
    ensures r1 == r2 && c1 == c2
  {
    assert (r1 - r2) * VIDEO_WIDTH == c2 - c1;
  }

  /**
   * The loop up to (row, col): each lit pixel reports a collision if its cell
   * is already lit, then XORs the cell with ON.  Returns the new framebuffer
   * and whether any collision was reported.
   */
  function Plot(d: seq<cell>, xPos: nat, yPos: nat, sprite: seq<byte>, row: nat, col: nat): (r: (seq<cell>, bool))
    requires |d| == DISPLAY_SIZE && At(sprite, row, col) && Fits(xPos, yPos, |sprite|)
    ensures |r.0| == DISPLAY_SIZE
    decreases row, col
  {
    if col == 0 then
      if row == 0 then (d, false) else Plot(d, xPos, yPos, sprite, row - 1, 8)
    else
      var (e, hit) := Plot(d, xPos, yPos, sprite, row, col - 1);
      if Lit(sprite, row, col - 1) then
        TargetInside(xPos, yPos, |sprite|, row, col - 1);
        var t := Target(xPos, yPos, row, col - 1);
        (e[t := e[t] ^ ON], hit || e[t] == ON)
      else
        (e, hit)
  }

  /** The whole sprite drawn. */
  function Drawn(d: seq<cell>, xPos: nat, yPos: nat, sprite: seq<byte>): (r: (seq<cell>, bool))
    requires |d| == DISPLAY_SIZE && Fits(xPos, yPos, |sprite|)
    ensures |r.0| == DISPLAY_SIZE
  {
    Plot(d, xPos, yPos, sprite, |sprite|, 0)
  }

  /** One pixel step of the loop, from the framebuffer `e` and flag `hit` reached at (row, col). */
  lemma PlotStep(d: seq<cell>, xPos: nat, yPos: nat, sprite: seq<byte>, row: nat, col: nat, e: seq<cell>, hit: bool)
    requires |d| == DISPLAY_SIZE && row < |sprite| && col < 8 && Fits(xPos, yPos, |sprite|)
    requires Plot(d, xPos, yPos, sprite, row, col) == (e, hit)
    ensures Target(xPos, yPos, row, col) < |e| == DISPLAY_SIZE
    ensures var t := Target(xPos, yPos, row, col);
      Plot(d, xPos, yPos, sprite, row, col + 1) == if Lit(sprite, row, col) then (e[t := e[t] ^ ON], hit || e[t] == ON) else (e, hit)
  {
    TargetInside(xPos, yPos, |sprite|, row, col);
  }

  /** Some lit pixel visited before (row, col) lands on cell `k`. */
  predicate Covered(xPos: nat, yPos: nat, sprite: seq<byte>, row: nat, col: nat, k: nat)
  {
    exists r, c :: 0 <= r < |sprite| && 0 <= c < 8 && Before(r, c, row, col) && Lit(sprite, r, c) && Target(xPos, yPos, r, c) == k
  }

  /** Some lit pixel visited before (row, col) lands on a cell that is lit in `d`. */
  predicate Collides(d: seq<cell>, xPos: nat, yPos: nat, sprite: seq<byte>, row: nat, col: nat)
  {
    exists r, c :: 0 <= r < |sprite| && 0 <= c < 8 && Before(r, c, row, col) && Lit(sprite, r, c) &&
      Target(xPos, yPos, r, c) < |d| && d[Target(xPos, yPos, r, c)] == ON
  }

  lemma CoveredColumn(xPos: nat, yPos: nat, sprite: seq<byte>, row: nat, col: nat, k: nat)
    requires row < |sprite| && 0 < col <= 8
    ensures Covered(xPos, yPos, sprite, row, col, k) <==>
      Covered(xPos, yPos, sprite, row, col - 1, k) || (Lit(sprite, row, col - 1) && Target(xPos, yPos, row, col - 1) == k)
  {
    if Covered(xPos, yPos, sprite, row, col, k) {
      var r, c :| 0 <= r < |sprite| && 0 <= c < 8 && Before(r, c, row, col) && Lit(sprite, r, c) && Target(xPos, yPos, r, c) == k;
      assert Before(r, c, row, col - 1) ==> Covered(xPos, yPos, sprite, row, col - 1, k);
    }
  }

  lemma CoveredRow(xPos: nat, yPos: nat, sprite: seq<byte>, row: nat, k: nat)
    requires 0 < row
    ensures Covered(xPos, yPos, sprite, row, 0, k) <==> Covered(xPos, yPos, sprite, row - 1, 8, k)
  {
    if Covered(xPos, yPos, sprite, row, 0, k) {
      var r, c :| 0 <= r < |sprite| && 0 <= c < 8 && Before(r, c, row, 0) && Lit(sprite, r, c) && Target(xPos, yPos, r, c) == k;
      assert Before(r, c, row - 1, 8);
    }
    if Covered(xPos, yPos, sprite, row - 1, 8, k) {
      var r, c :| 0 <= r < |sprite| && 0 <= c < 8 && Before(r, c, row - 1, 8) && Lit(sprite, r, c) && Target(xPos, yPos, r, c) == k;
      assert Before(r, c, row, 0);
    }
  }

  lemma CollidesColumn(d: seq<cell>, xPos: nat, yPos: nat, sprite: seq<byte>, row: nat, col: nat)
    requires row < |sprite| && 0 < col <= 8
    ensures Collides(d, xPos, yPos, sprite, row, col) <==>
      Collides(d, xPos, yPos, sprite, row, col - 1) ||
      (Lit(sprite, row, col - 1) && Target(xPos, yPos, row, col - 1) < |d| && d[Target(xPos, yPos, row, col - 1)] == ON)
  {
    if Collides(d, xPos, yPos, sprite, row, col) {
      var r, c :| 0 <= r < |sprite| && 0 <= c < 8 && Before(r, c, row, col) && Lit(sprite, r, c) &&
        Target(xPos, yPos, r, c) < |d| && d[Target(xPos, yPos, r, c)] == ON;
      assert Before(r, c, row, col - 1) ==> Collides(d, xPos, yPos, sprite, row, col - 1);
    }
  }

  lemma CollidesRow(d: seq<cell>, xPos: nat, yPos: nat, sprite: seq<byte>, row: nat)
    requires 0 < row
    ensures Collides(d, xPos, yPos, sprite, row, 0) <==> Collides(d, xPos, yPos, sprite, row - 1, 8)
  {
    if Collides(d, xPos, yPos, sprite, row, 0) {
      var r, c :| 0 <= r < |sprite| && 0 <= c < 8 && Before(r, c, row, 0) && Lit(sprite, r, c) &&
        Target(xPos, yPos, r, c) < |d| && d[Target(xPos, yPos, r, c)] == ON;
      assert Before(r, c, row - 1, 8);
    }
    if Collides(d, xPos, yPos, sprite, row - 1, 8) {
      var r, c :| 0 <= r < |sprite| && 0 <= c < 8 && Before(r, c, row - 1, 8) && Lit(sprite, r, c) &&
        Target(xPos, yPos, r, c) < |d| && d[Target(xPos, yPos, r, c)] == ON;
      assert Before(r, c, row, 0);
    }
  }

  /** No pixel visited before (row, col) lands on the cell of (row, col). */
  lemma NotCoveredBefore(xPos: nat, yPos: nat, sprite: seq<byte>, row: nat, col: nat)
    requires col < 8
    ensures !Covered(xPos, yPos, sprite, row, col, Target(xPos, yPos, row, col))
  {
    forall r, c | 0 <= r < |sprite| && 0 <= c < 8 && Before(r, c, row, col) && Lit(sprite, r, c) &&
      Target(xPos, yPos, r, c) == Target(xPos, yPos, row, col)
      ensures false
    {
      TargetInjective(xPos, yPos, r, c, row, col);
    }
  }

  /**
   * What the loop computes, cell by cell: a cell under a lit pixel is XORed
   * with ON and every other cell keeps its value.
   */
  lemma {:induction false} PlotCells(d: seq<cell>, xPos: nat, yPos: nat, sprite: seq<byte>, row: nat, col: nat)
    requires |d| == DISPLAY_SIZE && At(sprite, row, col) && Fits(xPos, yPos, |sprite|)
    ensures forall k :: 0 <= k < DISPLAY_SIZE ==>
      Plot(d, xPos, yPos, sprite, row, col).0[k] == if Covered(xPos, yPos, sprite, row, col, k) then d[k] ^ ON else d[k]
    decreases row, col
  {
    if col == 0 {
      if row > 0 {
        PlotCells(d, xPos, yPos, sprite, row - 1, 8);
        forall k | 0 <= k < DISPLAY_SIZE {
          CoveredRow(xPos, yPos, sprite, row, k);
        }
      } else {
        forall k | 0 <= k < DISPLAY_SIZE ensures !Covered(xPos, yPos, sprite, 0, 0, k) {
        }
      }
    } else {
      PlotCells(d, xPos, yPos, sprite, row, col - 1);
      forall k | 0 <= k < DISPLAY_SIZE
        ensures Plot(d, xPos, yPos, sprite, row, col).0[k] == if Covered(xPos, yPos, sprite, row, col, k) then d[k] ^ ON else d[k]
      {
        CoveredColumn(xPos, yPos, sprite, row, col, k);
        if Lit(sprite, row, col - 1) && Target(xPos, yPos, row, col - 1) == k {
          NotCoveredBefore(xPos, yPos, sprite, row, col - 1);
        }
      }
    }
  }

  /** The loop reports a collision exactly when some lit pixel lands on a cell that was lit before the draw. */
  lemma {:induction false} PlotCollision(d: seq<cell>, xPos: nat, yPos: nat, sprite: seq<byte>, row: nat, col: nat)
    requires |d| == DISPLAY_SIZE && At(sprite, row, col) && Fits(xPos, yPos, |sprite|)
    ensures Plot(d, xPos, yPos, sprite, row, col).1 <==> Collides(d, xPos, yPos, sprite, row, col)
    decreases row, col
  {
    if col == 0 {
      if row > 0 {
        PlotCollision(d, xPos, yPos, sprite, row - 1, 8);
        CollidesRow(d, xPos, yPos, sprite, row);
      }
    } else {
      PlotCollision(d, xPos, yPos, sprite, row, col - 1);
      CollidesColumn(d, xPos, yPos, sprite, row, col);
      if Lit(sprite, row, col - 1) {
        TargetInside(xPos, yPos, |sprite|, row, col - 1);
        PlotCells(d, xPos, yPos, sprite, row, col - 1);
        NotCoveredBefore(xPos, yPos, sprite, row, col - 1);
      }
    }
  }

  /** Drawing the same sprite at the same place twice restores the framebuffer. */
  lemma DrawnTwice(d: seq<cell>, xPos: nat, yPos: nat, sprite: seq<byte>)
    requires |d| == DISPLAY_SIZE && Fits(xPos, yPos, |sprite|)
    ensures Drawn(Drawn(d, xPos, yPos, sprite).0, xPos, yPos, sprite).0 == d
  {
    var once := Drawn(d, xPos, yPos, sprite).0;
    var twice := Drawn(once, xPos, yPos, sprite).0;
    PlotCells(d, xPos, yPos, sprite, |sprite|, 0);
    PlotCells(once, xPos, yPos, sprite, |sprite|, 0);
    forall k | 0 <= k < DISPLAY_SIZE ensures twice[k] == d[k] {
      assert (d[k] ^ ON) ^ ON == d[k];
    }
  }

  /** A framebuffer whose every cell is fully on or fully off. */
  predicate Binary(d: seq<cell>)
  {
    forall k :: 0 <= k < |d| ==> d[k] == 0 || d[k] == ON
  }

  /** Drawing keeps every cell fully on or fully off. */
  lemma DrawnKeepsBinary(d: seq<cell>, xPos: nat, yPos: nat, sprite: seq<byte>)
    requires |d| == DISPLAY_SIZE && Fits(xPos, yPos, |sprite|) && Binary(d)
    ensures Binary(Drawn(d, xPos, yPos, sprite).0)
  {
    PlotCells(d, xPos, yPos, sprite, |sprite|, 0);
  }
}
