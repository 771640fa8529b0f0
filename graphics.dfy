/**
 * The monochrome display (src/io/graphics.rs): a 64 x 32 grid of on/off
 * pixels, stored row by row, onto which sprites are XOR-drawn. Drawing
 * reports a collision when it switches off a pixel that was on.
 *
 * `Draw` is specified by `DrawSprite`: the pixel flips the source performs,
 * in its loop order (`Targets`), applied one after another (`FlipAll`).
 * The lemmas then give the outcome in closed form (`Covered`).
 */
module Graphics {
  import opened Bytes

  const WIDTH_PX: nat := 64
  const HEIGHT_PX: nat := 32
  const BUFFER_SIZE: nat := WIDTH_PX * HEIGHT_PX

  /** `index_pixel`: the cell of (x, y), or None when it lies off the screen. */
  function IndexPixel(x: uint8, y: uint8): (index: Option<nat>)
    ensures index.Some? <==> x < WIDTH_PX && y < HEIGHT_PX
    ensures index.Some? ==> index.value < BUFFER_SIZE && index.value % WIDTH_PX == x && index.value / WIDTH_PX == y
  {
    if x >= WIDTH_PX || y >= HEIGHT_PX then None else Some(x + WIDTH_PX * y)
  }

  /** Distinct on-screen coordinates name distinct cells. */
  lemma IndexPixelInjective(x1: uint8, y1: uint8, x2: uint8, y2: uint8)
    requires IndexPixel(x1, y1).Some? && IndexPixel(x1, y1) == IndexPixel(x2, y2)
    ensures x1 == x2 && y1 == y2
  {
  }

  /** The cases of the source's index test. */
  lemma IndexPixelExamples()
    ensures IndexPixel(32, 63).None? && IndexPixel(31, 64).None? && IndexPixel(32, 64).None?
    ensures IndexPixel(0, 0) == Some(0) && IndexPixel(5, 0) == Some(5) && IndexPixel(63, 0) == Some(63)
    ensures IndexPixel(0, 1) == Some(64) && IndexPixel(12, 2) == Some(140) && IndexPixel(63, 31) == Some(2047)
  {
  }

  /** A screen with every pixel off. */
  function Blank(): (buffer: seq<bool>)
    ensures |buffer| == BUFFER_SIZE && forall k :: 0 <= k < BUFFER_SIZE ==> !buffer[k]
  {
    seq(BUFFER_SIZE, _ => false)
  }

  /**
   * `flip_pixel` on the buffer's contents: toggle the cell at (x, y) and
   * report whether it was on; off the screen nothing changes and the
   * result is false.
   */
  function Flip(buffer: seq<bool>, x: uint8, y: uint8): (r: (seq<bool>, bool))
    requires |buffer| == BUFFER_SIZE
    ensures |r.0| == BUFFER_SIZE
    ensures forall k :: 0 <= k < BUFFER_SIZE ==> r.0[k] == (buffer[k] != (IndexPixel(x, y) == Some(k)))
    ensures r.1 <==> IndexPixel(x, y).Some? && buffer[IndexPixel(x, y).value]
  {
    match IndexPixel(x, y)
    case None => (buffer, false)
    case Some(k) => (buffer[k := !buffer[k]], buffer[k])
  }

  /** Flipping a pixel twice restores the buffer, and the second flip reports the first one's new value. */
  lemma FlipTwice(buffer: seq<bool>, x: uint8, y: uint8)
    requires |buffer| == BUFFER_SIZE
    ensures Flip(Flip(buffer, x, y).0, x, y).0 == buffer
    ensures IndexPixel(x, y).Some? ==> Flip(Flip(buffer, x, y).0, x, y).1 == !Flip(buffer, x, y).1
  {
    var once := Flip(buffer, x, y).0;
    var twice := Flip(once, x, y).0;
    assert forall k :: 0 <= k < BUFFER_SIZE ==> twice[k] == buffer[k];
  }

  /**
   * Rust's `u8::reverse_bits`: bit i of the result is bit 7 - i of the
   * argument.
   */
  function ReverseBits(v: bv8): bv8
  {
    ((v & 0x01) << 7) | ((v & 0x02) << 5) | ((v & 0x04) << 3) | ((v & 0x08) << 1)
      | ((v & 0x10) >> 1) | ((v & 0x20) >> 3) | ((v & 0x40) >> 5) | ((v & 0x80) >> 7)
  }

  /**
   * The source's pixel test in `draw`: reverse the sprite row, then test
   * bit `column`. It selects bit 7 - column of the row, so the most
   * significant bit is the leftmost pixel.
   */
  lemma ReversedBitIsMsbFirst(line: uint8, column: nat)
    requires column < 8
    ensures (ReverseBits(line as bv8) & (1 << column) != 0) == Bit(line, 7 - column)
  {
  }

  /**
   * The screen coordinates that column `col` of sprite row `row` is sent
   * to when drawing at (x, y): both additions wrap at 256, and the row
   * index is itself cast to `u8` first.
   */
  function PixelTarget(x: uint8, y: uint8, row: nat, col: nat): (uint8, uint8)
  {
    ((x + col) % 0x100, (y + row % 0x100) % 0x100)
  }

  /** Whether (row, col) is a position `draw`'s loops reach: whole rows before `row`, then `col` columns of it. */
  predicate InLoop(sprite: seq<uint8>, row: nat, col: nat)
  {
    row <= |sprite| && col <= 8 && (row == |sprite| ==> col == 0)
  }

  /**
   * The flips `draw` performs before reaching column `col` of row `row`,
   * in loop order: row by row, and within a row from column 0 (the most
   * significant bit) to column 7, one flip per set bit.
   */
  function Targets(x: uint8, y: uint8, sprite: seq<uint8>, row: nat, col: nat): (targets: seq<(uint8, uint8)>)
    requires InLoop(sprite, row, col)
    ensures |targets| <= 8 * row + col
    decreases row, col
  {
    if col == 0 then
      if row == 0 then [] else Targets(x, y, sprite, row - 1, 8)
    else
      Targets(x, y, sprite, row, col - 1)
        + if Bit(sprite[row], 7 - (col - 1)) then [PixelTarget(x, y, row, col - 1)] else []
  }

  /** Flip each target in turn; the result is the new buffer and whether any flip switched a pixel off. */
  function FlipAll(buffer: seq<bool>, targets: seq<(uint8, uint8)>): (r: (seq<bool>, bool))
    requires |buffer| == BUFFER_SIZE
    ensures |r.0| == BUFFER_SIZE
  {
    if targets == [] then (buffer, false)
    else
      var before := FlipAll(buffer, targets[..|targets| - 1]);
      var last := targets[|targets| - 1];
      var flip := Flip(before.0, last.0, last.1);
      (flip.0, flip.1 || before.1)
  }

  /** `draw` on the buffer's contents: the new buffer and the collision flag. */
  function DrawSprite(buffer: seq<bool>, x: uint8, y: uint8, sprite: seq<uint8>): (seq<bool>, bool)
    requires |buffer| == BUFFER_SIZE
  {
    FlipAll(buffer, Targets(x, y, sprite, |sprite|, 0))
  }

  /** Appending one target flips it on top of the earlier flips and accumulates the collision flag. */
  lemma FlipAllSnoc(buffer: seq<bool>, targets: seq<(uint8, uint8)>, t: (uint8, uint8))
    requires |buffer| == BUFFER_SIZE
    ensures FlipAll(buffer, targets + [t])
        == (Flip(FlipAll(buffer, targets).0, t.0, t.1).0, Flip(FlipAll(buffer, targets).0, t.0, t.1).1 || FlipAll(buffer, targets).1)
  {
    assert (targets + [t])[..|targets|] == targets;
  }

  /** Whether cell k is flipped an odd number of times by `targets`. */
  function Parity(targets: seq<(uint8, uint8)>, k: nat): bool
  {
    if targets == [] then false
    else
      var last := targets[|targets| - 1];
      Parity(targets[..|targets| - 1], k) != (IndexPixel(last.0, last.1) == Some(k))
  }

  /** Each cell ends up toggled exactly when an odd number of the flips address it. */
  lemma {:induction false} FlipAllPointwise(buffer: seq<bool>, targets: seq<(uint8, uint8)>)
    requires |buffer| == BUFFER_SIZE
    ensures forall k :: 0 <= k < BUFFER_SIZE ==> FlipAll(buffer, targets).0[k] == (buffer[k] != Parity(targets, k))
  {
    if targets != [] {
      FlipAllPointwise(buffer, targets[..|targets| - 1]);
    }
  }

  /** When no target addresses cell k, cell k is flipped an even number of times. */
  lemma {:induction false} NoHitParity(targets: seq<(uint8, uint8)>, k: nat)
    requires forall j :: 0 <= j < |targets| ==> IndexPixel(targets[j].0, targets[j].1) != Some(k)
    ensures !Parity(targets, k)
  {
    if targets != [] {
      NoHitParity(targets[..|targets| - 1], k);
    }
  }

  /** Flipping a sequence of targets, one of which addresses a pixel that is on, reports a collision. */
  lemma {:induction false} HitOnPixelCollides(buffer: seq<bool>, targets: seq<(uint8, uint8)>, k: nat)
    requires |buffer| == BUFFER_SIZE && k < BUFFER_SIZE && buffer[k]
    requires exists j :: 0 <= j < |targets| && IndexPixel(targets[j].0, targets[j].1) == Some(k)
    ensures FlipAll(buffer, targets).1
  {
    var prefix := targets[..|targets| - 1];
    var last := targets[|targets| - 1];
    if exists j :: 0 <= j < |prefix| && IndexPixel(prefix[j].0, prefix[j].1) == Some(k) {
      HitOnPixelCollides(buffer, prefix, k);
    } else {
      NoHitParity(prefix, k);
      FlipAllPointwise(buffer, prefix);
      assert IndexPixel(last.0, last.1) == Some(k);
    }
  }

  /**
   * Drawing the same sprite at the same place twice restores the original
   * buffer, and the second draw reports a collision whenever the first one
   * switched some pixel on.
   */
  lemma DrawTwice(buffer: seq<bool>, x: uint8, y: uint8, sprite: seq<uint8>)
    requires |buffer| == BUFFER_SIZE
    ensures DrawSprite(DrawSprite(buffer, x, y, sprite).0, x, y, sprite).0 == buffer
    ensures (exists k :: 0 <= k < BUFFER_SIZE && !buffer[k] && DrawSprite(buffer, x, y, sprite).0[k])
        ==> DrawSprite(DrawSprite(buffer, x, y, sprite).0, x, y, sprite).1
  {
    var targets := Targets(x, y, sprite, |sprite|, 0);
    var once := FlipAll(buffer, targets).0;
    FlipAllPointwise(buffer, targets);
    FlipAllPointwise(once, targets);
    assert forall k :: 0 <= k < BUFFER_SIZE ==> FlipAll(once, targets).0[k] == buffer[k];
    if k :| 0 <= k < BUFFER_SIZE && !buffer[k] && once[k] {
      assert Parity(targets, k);
      if forall j :: 0 <= j < |targets| ==> IndexPixel(targets[j].0, targets[j].1) != Some(k) {
        NoHitParity(targets, k);
      }
      HitOnPixelCollides(once, targets, k);
    }
  }

  /** The sprite column that would land on pixel k's column when drawing at x (meaningful when below 8). */
  function Column(x: uint8, k: nat): int
  {
    (k % WIDTH_PX - x as int) % 0x100
  }

  /** The sprite row that would land on pixel k's row when drawing at y. */
  function Row(y: uint8, k: nat): int
  {
    (k / WIDTH_PX - y as int) % 0x100
  }

  /** Whether pixel k is covered by a set bit the loops have passed before reaching (row, col). */
  predicate CoveredBefore(x: uint8, y: uint8, sprite: seq<uint8>, row: nat, col: nat, k: nat)
  {
    var c, r := Column(x, k), Row(y, k);
    c < 8 && r < |sprite| && (r < row || (r == row && c < col)) && Bit(sprite[r], 7 - c)
  }

  /** Whether pixel k is covered by a set bit of the sprite drawn at (x, y). */
  predicate Covered(x: uint8, y: uint8, sprite: seq<uint8>, k: nat)
  {
    var c, r := Column(x, k), Row(y, k);
    c < 8 && r < |sprite| && Bit(sprite[r], 7 - c)
  }

  /** Column `col` of sprite row `row` (below 256) lands on pixel k exactly when k's column and row select it. */
  lemma PixelTargetHits(x: uint8, y: uint8, row: nat, col: nat, k: nat)
    requires row < 0x100 && col < 8 && k < BUFFER_SIZE
    ensures IndexPixel(PixelTarget(x, y, row, col).0, PixelTarget(x, y, row, col).1) == Some(k)
        <==> Column(x, k) == col && Row(y, k) == row
  {
    var (tx, ty) := PixelTarget(x, y, row, col);
    var px, py := k % WIDTH_PX, k / WIDTH_PX;
    assert k == px + WIDTH_PX * py;
    WrappingAddInverse(x, col, px);
    WrappingAddInverse(y, row, py);
    if IndexPixel(tx, ty) == Some(k) {
      assert tx == px && ty == py;
    }
  }

  /** Wrapping addition at 256 is undone by wrapping subtraction: (a + c) mod 256 = b iff (b - a) mod 256 = c. */
  lemma WrappingAddInverse(a: uint8, c: nat, b: nat)
    requires c < 0x100 && b < 0x100
    ensures (a + c) % 0x100 == b <==> (b - a) % 0x100 == c
  {
  }

  /**
   * Passing column `col` of row `row` adds exactly the pixel its target
   * lands on when its bit is set, and that pixel was not covered before.
   */
  lemma CoveredStep(x: uint8, y: uint8, sprite: seq<uint8>, row: nat, col: nat, k: nat)
    requires row < |sprite| <= 0x100 && col < 8 && k < BUFFER_SIZE
    ensures CoveredBefore(x, y, sprite, row, col + 1, k)
        <==> CoveredBefore(x, y, sprite, row, col, k)
             || (Bit(sprite[row], 7 - col) && IndexPixel(PixelTarget(x, y, row, col).0, PixelTarget(x, y, row, col).1) == Some(k))
    ensures IndexPixel(PixelTarget(x, y, row, col).0, PixelTarget(x, y, row, col).1) == Some(k)
        ==> !CoveredBefore(x, y, sprite, row, col, k)
  {
    PixelTargetHits(x, y, row, col, k);
  }

  /** Before reaching (row, col), pixel k has been flipped an odd number of times exactly when it is covered. */
  lemma {:induction false} TargetsParity(x: uint8, y: uint8, sprite: seq<uint8>, row: nat, col: nat, k: nat)
    requires InLoop(sprite, row, col) && |sprite| <= 0x100 && k < BUFFER_SIZE
    ensures Parity(Targets(x, y, sprite, row, col), k) == CoveredBefore(x, y, sprite, row, col, k)
    decreases row, col
  {
    if col == 0 {
      if row > 0 {
        TargetsParity(x, y, sprite, row - 1, 8, k);
      }
    } else {
      TargetsParity(x, y, sprite, row, col - 1, k);
      CoveredStep(x, y, sprite, row, col - 1, k);
      var before := Targets(x, y, sprite, row, col - 1);
      if Bit(sprite[row], 7 - (col - 1)) {
        var t := PixelTarget(x, y, row, col - 1);
        assert (before + [t])[..|before|] == before;
      } else {
        assert before + [] == before;
      }
    }
  }

  /** When column `col` of row `row` is not set or lands off the screen, it covers no further pixel. */
  lemma CoveredUnchanged(x: uint8, y: uint8, sprite: seq<uint8>, row: nat, col: nat)
    requires row < |sprite| <= 0x100 && col < 8
    requires !Bit(sprite[row], 7 - col) || IndexPixel(PixelTarget(x, y, row, col).0, PixelTarget(x, y, row, col).1).None?
    ensures forall k :: 0 <= k < BUFFER_SIZE ==> CoveredBefore(x, y, sprite, row, col + 1, k) == CoveredBefore(x, y, sprite, row, col, k)
  {
    forall k | 0 <= k < BUFFER_SIZE {
      CoveredStep(x, y, sprite, row, col, k);
    }
  }

  /** When column `col` of row `row` is set and lands on pixel k0, it covers k0 and nothing else new. */
  lemma CoveredAdds(x: uint8, y: uint8, sprite: seq<uint8>, row: nat, col: nat, k0: nat)
    requires row < |sprite| <= 0x100 && col < 8
    requires Bit(sprite[row], 7 - col) && IndexPixel(PixelTarget(x, y, row, col).0, PixelTarget(x, y, row, col).1) == Some(k0)
    ensures !CoveredBefore(x, y, sprite, row, col, k0)
    ensures forall k :: 0 <= k < BUFFER_SIZE ==> CoveredBefore(x, y, sprite, row, col + 1, k) == (CoveredBefore(x, y, sprite, row, col, k) || k == k0)
  {
    forall k | 0 <= k < BUFFER_SIZE {
      CoveredStep(x, y, sprite, row, col, k);
    }
  }

  /**
   * One iteration of `draw`'s inner loop, at row `row` and column `col`:
   * when the bit is set, flipping the target the source computes extends
   * the flips by that column; otherwise nothing changes.
   */
  lemma DrawStep(
    original: seq<bool>, x: uint8, y: uint8, sprite: seq<uint8>, row: nat, col: nat,
    buffer: seq<bool>, flipped: bool)
    requires |original| == BUFFER_SIZE && row < |sprite| && col < 8
    requires (buffer, flipped) == FlipAll(original, Targets(x, y, sprite, row, col))
    ensures FlipAll(original, Targets(x, y, sprite, row, col + 1))
      == if Bit(sprite[row], 7 - col)
         then
           var flip := Flip(buffer, (x + col) % 0x100, (y + row % 0x100) % 0x100);
           (flip.0, flip.1 || flipped)
         else (buffer, flipped)
  {
    var before := Targets(x, y, sprite, row, col);
    if Bit(sprite[row], 7 - col) {
      FlipAllSnoc(original, before, PixelTarget(x, y, row, col));
    } else {
      assert before + [] == before;
    }
  }

  /**
   * The first `col` columns of sprite row `row` (bits `line`) drawn on top
   * of (buffer, flipped): one flip per set bit, from the most significant.
   */
  function RowFlips(buffer: seq<bool>, flipped: bool, x: uint8, y: uint8, line: uint8, row: nat, col: nat): (r: (seq<bool>, bool))
    requires |buffer| == BUFFER_SIZE && col <= 8
    ensures |r.0| == BUFFER_SIZE
  {
    if col == 0 then (buffer, flipped)
    else
      var before := RowFlips(buffer, flipped, x, y, line, row, col - 1);
      if Bit(line, 7 - (col - 1)) then
        var target := PixelTarget(x, y, row, col - 1);
        var flip := Flip(before.0, target.0, target.1);
        (flip.0, flip.1 || before.1)
      else before
  }

  /** Drawing a row column by column continues the sprite's flips in loop order. */
  lemma {:induction false} RowFlipsExtendTargets(original: seq<bool>, x: uint8, y: uint8, sprite: seq<uint8>, row: nat, col: nat)
    requires |original| == BUFFER_SIZE && row < |sprite| && col <= 8
    ensures var start := FlipAll(original, Targets(x, y, sprite, row, 0));
      FlipAll(original, Targets(x, y, sprite, row, col)) == RowFlips(start.0, start.1, x, y, sprite[row], row, col)
  {
    if col > 0 {
      RowFlipsExtendTargets(original, x, y, sprite, row, col - 1);
      var now := FlipAll(original, Targets(x, y, sprite, row, col - 1));
      DrawStep(original, x, y, sprite, row, col - 1, now.0, now.1);
    }
  }

  /**
   * Before reaching (row, col), a collision has been reported exactly when
   * some pixel covered so far was on beforehand.
   */
  lemma {:induction false} TargetsCollision(buffer: seq<bool>, x: uint8, y: uint8, sprite: seq<uint8>, row: nat, col: nat)
    requires |buffer| == BUFFER_SIZE && InLoop(sprite, row, col) && |sprite| <= 0x100
    ensures FlipAll(buffer, Targets(x, y, sprite, row, col)).1
        <==> exists k :: 0 <= k < BUFFER_SIZE && buffer[k] && CoveredBefore(x, y, sprite, row, col, k)
    decreases row, col
  {
    if col == 0 {
      if row > 0 {
        TargetsCollision(buffer, x, y, sprite, row - 1, 8);
      }
    } else {
      var c := col - 1;
      var before := Targets(x, y, sprite, row, c);
      TargetsCollision(buffer, x, y, sprite, row, c);
      var t := PixelTarget(x, y, row, c);
      if !Bit(sprite[row], 7 - c) {
        assert before + [] == before;
        CoveredUnchanged(x, y, sprite, row, c);
      } else {
        FlipAllSnoc(buffer, before, t);
        match IndexPixel(t.0, t.1)
        case None =>
          CoveredUnchanged(x, y, sprite, row, c);
        case Some(k0) =>
          CoveredAdds(x, y, sprite, row, c, k0);
          FlipAllPointwise(buffer, before);
          TargetsParity(x, y, sprite, row, c, k0);
          assert Flip(FlipAll(buffer, before).0, t.0, t.1).1 == buffer[k0];
          if buffer[k0] {
            assert CoveredBefore(x, y, sprite, row, col, k0);
          }
      }
    }
  }

  /** Every pixel of the result is the old pixel XOR whether the sprite covers it. */
  lemma DrawPixels(buffer: seq<bool>, x: uint8, y: uint8, sprite: seq<uint8>)
    requires |buffer| == BUFFER_SIZE && |sprite| <= 0x100
    ensures forall k :: 0 <= k < BUFFER_SIZE ==> DrawSprite(buffer, x, y, sprite).0[k] == (buffer[k] != Covered(x, y, sprite, k))
  {
    var targets := Targets(x, y, sprite, |sprite|, 0);
    FlipAllPointwise(buffer, targets);
    forall k | 0 <= k < BUFFER_SIZE
      ensures Parity(targets, k) == Covered(x, y, sprite, k)
    {
      TargetsParity(x, y, sprite, |sprite|, 0, k);
    }
  }

  /** `draw` reports a collision exactly when it switches off at least one pixel that was on. */
  lemma DrawCollision(buffer: seq<bool>, x: uint8, y: uint8, sprite: seq<uint8>)
    requires |buffer| == BUFFER_SIZE && |sprite| <= 0x100
    ensures DrawSprite(buffer, x, y, sprite).1
        <==> exists k :: 0 <= k < BUFFER_SIZE && buffer[k] && !DrawSprite(buffer, x, y, sprite).0[k]
  {
    DrawPixels(buffer, x, y, sprite);
    TargetsCollision(buffer, x, y, sprite, |sprite|, 0);
    forall k | 0 <= k < BUFFER_SIZE
      ensures Covered(x, y, sprite, k) == CoveredBefore(x, y, sprite, |sprite|, 0, k)
    {
    }
  }

  /**
   * Bit 7 of sprite row i lands at (x, y + i) and bit 0 at (x + 7, y + i):
   * an on-screen pixel of the sprite's box is toggled exactly when its bit is set.
   */
  lemma DrawMsbFirst(buffer: seq<bool>, x: uint8, y: uint8, sprite: seq<uint8>, i: nat, c: nat)
    requires |buffer| == BUFFER_SIZE && |sprite| <= 0x100
    requires i < |sprite| && c < 8 && x + c < WIDTH_PX && y + i < HEIGHT_PX
    ensures DrawSprite(buffer, x, y, sprite).0[(x + c) + WIDTH_PX * (y + i)]
        == (buffer[(x + c) + WIDTH_PX * (y + i)] != Bit(sprite[i], 7 - c))
  {
    var k := (x + c) + WIDTH_PX * (y + i);
    assert Covered(x, y, sprite, k) == Bit(sprite[i], 7 - c) by {
      assert k % WIDTH_PX == x + c && k / WIDTH_PX == y + i;
      assert Column(x, k) == c && Row(y, k) == i;
    }
    DrawPixels(buffer, x, y, sprite);
  }

  /** Drawing an empty sprite changes nothing and reports no collision. */
  lemma DrawEmpty(buffer: seq<bool>, x: uint8, y: uint8)
    requires |buffer| == BUFFER_SIZE
    ensures DrawSprite(buffer, x, y, []) == (buffer, false)
  {
  }

  /**
   * Coordinates wrap at 256 before clipping: a full row drawn at x = 250
   * covers the pixels at x = 0 and x = 1 of the top row, but not x = 2.
   */
  lemma WrapAroundExample()
    ensures Covered(250, 0, [0xFF], 0) && Covered(250, 0, [0xFF], 1)
    ensures !Covered(250, 0, [0xFF], 2)
  {
  }

  /**
   * At the bottom-right pixel, only row 0, column 0 of a sprite is on the
   * screen, as long as the sprite is too short for its row index to wrap
   * past 255 back onto the top of the screen.
   */
  lemma CornerCovered(sprite: seq<uint8>, k: nat)
    requires 0 < |sprite| <= 0x100 - 31 && k < BUFFER_SIZE
    ensures Covered(63, 31, sprite, k) <==> k == 2047 && Bit(sprite[0], 7)
  {
    assert Column(63, k) < 8 <==> k % WIDTH_PX == 63;
    assert Row(31, k) < |sprite| ==> k / WIDTH_PX == 31;
  }

  /**
   * Sprites are clipped at the screen edge, not wrapped to the opposite
   * one: drawn at the bottom-right pixel, a sprite can only toggle that
   * pixel (with its top-left bit), and collides only if it switches it off.
   */
  lemma DrawClippedAtCorner(buffer: seq<bool>, sprite: seq<uint8>)
    requires |buffer| == BUFFER_SIZE && 0 < |sprite| <= 0x100 - 31
    ensures DrawSprite(buffer, 63, 31, sprite).0 == buffer[2047 := buffer[2047] != Bit(sprite[0], 7)]
    ensures DrawSprite(buffer, 63, 31, sprite).1 <==> buffer[2047] && Bit(sprite[0], 7)
  {
    var drawn := DrawSprite(buffer, 63, 31, sprite);
    DrawPixels(buffer, 63, 31, sprite);
    DrawCollision(buffer, 63, 31, sprite);
    forall k | 0 <= k < BUFFER_SIZE
      ensures drawn.0[k] == buffer[2047 := buffer[2047] != Bit(sprite[0], 7)][k]
    {
      CornerCovered(sprite, k);
    }
    assert drawn.0 == buffer[2047 := buffer[2047] != Bit(sprite[0], 7)];
  }

  /** The source's clipping test: an 8 x 8 block at the bottom-right pixel of a blank screen lights that pixel alone. */
  lemma BlockAtCornerOfBlankScreen(buffer: seq<bool>, sprite: seq<uint8>)
    requires buffer == Blank() && sprite == seq(8, _ => 0xFF)
    ensures DrawSprite(buffer, 63, 31, sprite) == (Blank()[2047 := true], false)
  {
    assert Bit(sprite[0], 7) && !buffer[2047] by {
      assert sprite[0] == 0xFF;
    }
    DrawClippedAtCorner(buffer, sprite);
  }

  /** The two checkerboard sprites of the source's drawing test; each is the other's complement. */
  const CHECKER_POSITIVE: seq<uint8> := [0xAA, 0x55, 0xAA, 0x55]
  const CHECKER_NEGATIVE: seq<uint8> := [0x55, 0xAA, 0x55, 0xAA]

  /** Pixel k lies in the 8 x 4 box at the origin that the checkerboards cover. */
  predicate InCheckerBox(k: nat)
  {
    k % WIDTH_PX < 8 && k / WIDTH_PX < 4
  }

  /** Within the 8 x 4 box at the origin, each pixel is covered by exactly one of the two checkerboards. */
  lemma CheckerboardsComplement(k: nat)
    requires k < BUFFER_SIZE
    ensures Covered(0, 0, CHECKER_POSITIVE, k) != Covered(0, 0, CHECKER_NEGATIVE, k) <==> InCheckerBox(k)
    ensures !(Covered(0, 0, CHECKER_POSITIVE, k) && Covered(0, 0, CHECKER_NEGATIVE, k))
  {
    assert Column(0, k) == k % WIDTH_PX && Row(0, k) == k / WIDTH_PX;
    if InCheckerBox(k) {
      var c, r := k % WIDTH_PX, k / WIDTH_PX;
      assert CHECKER_POSITIVE[r] == 0xAA || CHECKER_POSITIVE[r] == 0x55;
      assert CHECKER_NEGATIVE[r] as int == 0xFF - CHECKER_POSITIVE[r];
    }
  }

  /** A collision happens exactly when the sprite covers some pixel that was on. */
  lemma DrawCollisionCovered(buffer: seq<bool>, x: uint8, y: uint8, sprite: seq<uint8>)
    requires |buffer| == BUFFER_SIZE && |sprite| <= 0x100
    ensures DrawSprite(buffer, x, y, sprite).1 <==> exists k :: 0 <= k < BUFFER_SIZE && buffer[k] && Covered(x, y, sprite, k)
  {
    DrawPixels(buffer, x, y, sprite);
    DrawCollision(buffer, x, y, sprite);
  }

  /** The positive checkerboard starts with a lit pixel at column 0 and the negative one at column 1. */
  lemma CheckerStarts()
    ensures InCheckerBox(0) && Covered(0, 0, CHECKER_POSITIVE, 0)
    ensures Covered(0, 0, CHECKER_NEGATIVE, 1)
  {
  }

  /** First draw: the positive checkerboard on a blank screen collides with nothing. */
  lemma CheckerFirst(buffer: seq<bool>)
    requires buffer == Blank()
    ensures var b := DrawSprite(buffer, 0, 0, CHECKER_POSITIVE);
      !b.1 && forall k :: 0 <= k < BUFFER_SIZE ==> b.0[k] == Covered(0, 0, CHECKER_POSITIVE, k)
  {
    DrawPixels(buffer, 0, 0, CHECKER_POSITIVE);
    DrawCollisionCovered(buffer, 0, 0, CHECKER_POSITIVE);
  }

  /** Second draw: the negative checkerboard fills the gaps without collision, lighting the whole box. */
  lemma CheckerSecond(buffer: seq<bool>)
    requires |buffer| == BUFFER_SIZE
    requires forall k :: 0 <= k < BUFFER_SIZE ==> buffer[k] == Covered(0, 0, CHECKER_POSITIVE, k)
    ensures var b := DrawSprite(buffer, 0, 0, CHECKER_NEGATIVE);
      !b.1 && forall k :: 0 <= k < BUFFER_SIZE ==> b.0[k] == InCheckerBox(k)
  {
    DrawPixels(buffer, 0, 0, CHECKER_NEGATIVE);
    DrawCollisionCovered(buffer, 0, 0, CHECKER_NEGATIVE);
    forall k | 0 <= k < BUFFER_SIZE
      ensures !(Covered(0, 0, CHECKER_POSITIVE, k) && Covered(0, 0, CHECKER_NEGATIVE, k))
      ensures (Covered(0, 0, CHECKER_POSITIVE, k) != Covered(0, 0, CHECKER_NEGATIVE, k)) == InCheckerBox(k)
    {
      CheckerboardsComplement(k);
    }
  }

  /** Third draw: the positive checkerboard over the full box collides and leaves the negative one. */
  lemma CheckerThird(buffer: seq<bool>)
    requires |buffer| == BUFFER_SIZE
    requires forall k :: 0 <= k < BUFFER_SIZE ==> buffer[k] == InCheckerBox(k)
    ensures var b := DrawSprite(buffer, 0, 0, CHECKER_POSITIVE);
      b.1 && forall k :: 0 <= k < BUFFER_SIZE ==> b.0[k] == Covered(0, 0, CHECKER_NEGATIVE, k)
  {
    var b := DrawSprite(buffer, 0, 0, CHECKER_POSITIVE);
    assert b.1 by {
      CheckerStarts();
      assert buffer[0];
      DrawCollisionCovered(buffer, 0, 0, CHECKER_POSITIVE);
    }
    DrawPixels(buffer, 0, 0, CHECKER_POSITIVE);
    forall k | 0 <= k < BUFFER_SIZE
      ensures b.0[k] == Covered(0, 0, CHECKER_NEGATIVE, k)
    {
      CheckerboardsComplement(k);
    }
  }

  /** Fourth draw: the negative checkerboard over itself collides and blanks the screen. */
  lemma CheckerFourth(buffer: seq<bool>)
    requires |buffer| == BUFFER_SIZE
    requires forall k :: 0 <= k < BUFFER_SIZE ==> buffer[k] == Covered(0, 0, CHECKER_NEGATIVE, k)
    ensures DrawSprite(buffer, 0, 0, CHECKER_NEGATIVE) == (Blank(), true)
  {
    var b := DrawSprite(buffer, 0, 0, CHECKER_NEGATIVE);
    assert b.1 by {
      CheckerStarts();
      assert buffer[1];
      DrawCollisionCovered(buffer, 0, 0, CHECKER_NEGATIVE);
    }
    assert b.0 == Blank() by {
      DrawPixels(buffer, 0, 0, CHECKER_NEGATIVE);
    }
  }

  /**
   * The source's checkerboard test on a blank screen at (0, 0): the first
   * checkerboard and then its complement collide with nothing and fill the
   * 8 x 4 box; drawing each again collides and leaves the screen blank.
   */
  lemma CheckerboardExample(b0: seq<bool>)
    requires b0 == Blank()
    ensures var b1 := DrawSprite(b0, 0, 0, CHECKER_POSITIVE);
      var b2 := DrawSprite(b1.0, 0, 0, CHECKER_NEGATIVE);
      var b3 := DrawSprite(b2.0, 0, 0, CHECKER_POSITIVE);
      var b4 := DrawSprite(b3.0, 0, 0, CHECKER_NEGATIVE);
      && !b1.1 && !b2.1 && b3.1 && b4.1
      && (forall k :: 0 <= k < BUFFER_SIZE ==> b2.0[k] == InCheckerBox(k))
      && b4.0 == Blank()
  {
    var b1 := DrawSprite(b0, 0, 0, CHECKER_POSITIVE);
    CheckerFirst(b0);
    var b2 := DrawSprite(b1.0, 0, 0, CHECKER_NEGATIVE);
    CheckerSecond(b1.0);
    var b3 := DrawSprite(b2.0, 0, 0, CHECKER_POSITIVE);
    CheckerThird(b2.0);
    CheckerFourth(b3.0);
  }

  /**
   * `draw`'s pixel test for column `spriteX` of a sprite row: reverse the
   * row's bits, then test bit `spriteX`. It selects bit 7 - spriteX of the
   * row, so the most significant bit is the leftmost pixel.
   */
  method SpritePixel(spriteLine: uint8, spriteX: nat) returns (pixel: bool)
    requires spriteX < 8
    ensures pixel == Bit(spriteLine, 7 - spriteX)
  {
    var reversed := ReverseBits(spriteLine as bv8);
    pixel := reversed & (1 << spriteX) != 0;
    ReversedBitIsMsbFirst(spriteLine, spriteX);
  }

  class GraphicsBuffer {
    const buffer: array<bool>

    ghost predicate Valid()
      reads this
    {
      buffer.Length == BUFFER_SIZE
    }

    /** `GraphicsBuffer::new`: every pixel off. */
    constructor ()
      ensures Valid() && fresh(buffer)
      ensures buffer[..] == Blank()
    {
      buffer := new bool[BUFFER_SIZE](_ => false);
    }

    /** `clear`: switch every pixel off. */
    method Clear()
      requires Valid()
      modifies buffer
      ensures buffer[..] == Blank()
    {
      for i := 0 to buffer.Length
        invariant forall k :: 0 <= k < i ==> !buffer[k]
      {
        buffer[i] := false;
      }
    }

    /** `get_pixel`: the pixel at (x, y), or None off the screen. */
    function GetPixel(x: uint8, y: uint8): (pixel: Option<bool>)
      requires Valid()
      reads this, buffer
      ensures pixel.Some? <==> x < WIDTH_PX && y < HEIGHT_PX
      ensures pixel.Some? ==> pixel.value == buffer[x + WIDTH_PX * y]
    {
      match IndexPixel(x, y)
      case None => None
      case Some(k) => Some(buffer[k])
    }

    /** `flip_pixel`: toggle the pixel at (x, y) in place and return its previous value. */
    method FlipPixel(x: uint8, y: uint8) returns (previous: bool)
      requires Valid()
      modifies buffer
      ensures (buffer[..], previous) == Flip(old(buffer[..]), x, y)
    {
      match IndexPixel(x, y)
      case None =>
        previous := false;
      case Some(k) =>
        previous := buffer[k];
        buffer[k] := !previous;
    }

    /**
     * One pass of `draw`'s outer loop: the eight columns of sprite row
     * `spriteY`, from the most significant bit, flipping the pixel under
     * each set bit; `flippedBefore` is the collision flag so far.
     */
    method DrawRow(canvasX: uint8, canvasY: uint8, spriteLine: uint8, spriteY: nat, flippedBefore: bool)
      returns (flippedPixel: bool)
      requires Valid()
      modifies buffer
      ensures (buffer[..], flippedPixel) == RowFlips(old(buffer[..]), flippedBefore, canvasX, canvasY, spriteLine, spriteY, 8)
    {
      flippedPixel := flippedBefore;
      var row: uint8 := spriteY % 0x100;
      for spriteX := 0 to 8
        invariant (buffer[..], flippedPixel) == RowFlips(old(buffer[..]), flippedBefore, canvasX, canvasY, spriteLine, spriteY, spriteX)
      {
        var pixel := SpritePixel(spriteLine, spriteX);
        if pixel {
          var targetX := (canvasX + spriteX) % 0x100;
          var targetY := (canvasY + row) % 0x100;
          var previous := FlipPixel(targetX, targetY);
          flippedPixel := previous || flippedPixel;
        }
      }
    }

    /**
     * `draw`: XOR the sprite onto the screen at (canvasX, canvasY), row by
     * row and within a row from the most significant bit; returns whether
     * any pixel was switched off.
     */
    method Draw(canvasX: uint8, canvasY: uint8, sprite: seq<uint8>) returns (flippedPixel: bool)
      requires Valid()
      modifies buffer
      ensures (buffer[..], flippedPixel) == DrawSprite(old(buffer[..]), canvasX, canvasY, sprite)
    {
      ghost var original := buffer[..];
      flippedPixel := false;
      for spriteY := 0 to |sprite|
        invariant (buffer[..], flippedPixel) == FlipAll(original, Targets(canvasX, canvasY, sprite, spriteY, 0))
      {
        RowFlipsExtendTargets(original, canvasX, canvasY, sprite, spriteY, 8);
        flippedPixel := DrawRow(canvasX, canvasY, sprite[spriteY], spriteY, flippedPixel);
      }
    }
  }

  /** The source's pixel test: set cell 70 (pixel (6, 1)), then flip it off, on and off again. */
  method PixelOperationsExample()
  {
    var graphics := new GraphicsBuffer();
    assert graphics.GetPixel(6, 1) == Some(false);
    graphics.buffer[70] := true;
    assert graphics.GetPixel(6, 1) == Some(true);
    var first := graphics.FlipPixel(6, 1);
    assert first && graphics.GetPixel(6, 1) == Some(false);
    var second := graphics.FlipPixel(6, 1);
    var third := graphics.FlipPixel(6, 1);
    assert !second && third;
    assert graphics.buffer[..] == Blank();
  }

  /** The source's drawing test on a fresh buffer: an empty sprite, then the two checkerboards twice each. */
  method DrawingExample()
  {
    var graphics := new GraphicsBuffer();
    ghost var b0 := graphics.buffer[..];
    CheckerboardExample(b0);
    var flipped := graphics.Draw(0, 0, []);
    assert !flipped && graphics.buffer[..] == Blank();
    flipped := graphics.Draw(0, 0, CHECKER_POSITIVE);
    assert !flipped;
    flipped := graphics.Draw(0, 0, CHECKER_NEGATIVE);
    assert !flipped;
    assert forall k :: 0 <= k < BUFFER_SIZE ==> graphics.buffer[k] == InCheckerBox(k);
    flipped := graphics.Draw(0, 0, CHECKER_POSITIVE);
    assert flipped;
    flipped := graphics.Draw(0, 0, CHECKER_NEGATIVE);
    assert flipped && graphics.buffer[..] == Blank();
  }
}
