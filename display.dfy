/**
 * The 64x32 monochrome pixel surface (src/display.rs).
 *
 * Cells hold the byte 0 or 1. Coordinates wrap modulo the width and the
 * height. `draw` XORs an 8-pixel-wide sprite into the surface one pixel at
 * a time, row by row and left to right within a row, and reports
 * `Overwrite` when any pixel it visits was set at the moment it was
 * visited -- whatever the sprite bit there is.
 *
 * `Blit` gives `draw`'s effect as a function of the surface before the
 * call, defined pixel by pixel in the order the loops run (a sprite longer
 * than 32 rows visits cells twice, and the order matters then). The lemmas
 * below give its closed form for sprites of at most 32 rows, which covers
 * every draw the interpreter makes (16 rows).
 */
module Display {
  import opened Bytes

  const WIDTH := 64
  const HEIGHT := 32
  /** Number of cells of the surface. */
  const CELLS := WIDTH * HEIGHT

  /** Width of a sprite row in pixels. */
  const SPRITE_WIDTH := 8

  datatype DrawResult = Overwrite | NoOverwrite

  /** The cell that pixel (x, y) addresses: `(x % WIDTH) + (y % HEIGHT) * WIDTH`. */
  function Index(x: nat, y: nat): (k: nat)
    ensures k < CELLS
    ensures k % WIDTH == x % WIDTH && k / WIDTH == y % HEIGHT
  {
    (x % WIDTH) + (y % HEIGHT) * WIDTH
  }

  /** Two pixels share a cell exactly when their coordinates agree modulo the width and the height. */
  lemma IndexSameCell(x1: nat, y1: nat, x2: nat, y2: nat)
    ensures Index(x1, y1) == Index(x2, y2) <==> x1 % WIDTH == x2 % WIDTH && y1 % HEIGHT == y2 % HEIGHT
  {
  }

  /** Every cell holds 0 or 1. */
  ghost predicate IsBitmap(screen: seq<Byte>) {
    |screen| == CELLS && forall k :: 0 <= k < |screen| ==> screen[k] <= 1
  }

  /** Bit `i` of a sprite row, counting from the most significant: `row >> (7 - i) & 1`. */
  function SpriteBit(row: Byte, i: nat): bool
    requires i < SPRITE_WIDTH
  {
    ((row as bv8) >> (7 - i)) & 1 == 1
  }

  /** The value a cell takes when a sprite bit is XORed into it (`(bit == 1) ^ old_value`, stored as a byte). */
  function Xored(cell: Byte, bit: bool): (v: Byte)
    ensures cell <= 1 ==> (v == 1 <==> bit != (cell == 1))
    ensures cell <= 1 && !bit ==> v == cell
  {
    if bit != (cell == 1) then 1 else 0
  }

  /** XORing the same bit into a 0/1 cell twice gives the cell back. */
  lemma XoredTwice(cell: Byte, bit: bool)
    requires cell <= 1
    ensures Xored(Xored(cell, bit), bit) == cell
  {
  }

  /** The eight bits `SpriteBit` reads, weighted 128 down to 1, make up the row: no bit is read twice or missed. */
  lemma SpriteBitsMakeRow(row: Byte)
    ensures var bits: bv8 :=
              (if SpriteBit(row, 0) then 0x80 else 0) | (if SpriteBit(row, 1) then 0x40 else 0)
              | (if SpriteBit(row, 2) then 0x20 else 0) | (if SpriteBit(row, 3) then 0x10 else 0)
              | (if SpriteBit(row, 4) then 0x08 else 0) | (if SpriteBit(row, 5) then 0x04 else 0)
              | (if SpriteBit(row, 6) then 0x02 else 0) | (if SpriteBit(row, 7) then 0x01 else 0);
            bits == row as bv8
  {
  }

  /** The cell of pixel (x + i, y + j): column i, row j of a sprite drawn at (x, y). */
  function WindowCell(x: nat, y: nat, i: nat, j: nat): nat {
    Index(x + i, y + j)
  }

  /** The cell of pixel (px + i, py): column i of a sprite row drawn at (px, py). */
  function RowCell(px: nat, py: nat, i: nat): (k: nat)
    ensures k < CELLS
  {
    Index(px + i, py)
  }

  /** The surface in the middle of a draw, with whether a set pixel has been met so far. */
  datatype Canvas = Canvas(cells: seq<Byte>, overwrite: bool)

  /** One step of `draw`: XOR `bit` into cell `k`, noting whether that cell was set. */
  function PixelXor(c: Canvas, k: nat, bit: bool): (r: Canvas)
    requires |c.cells| == CELLS && k < CELLS
    ensures |r.cells| == CELLS
    ensures IsBitmap(c.cells) ==> IsBitmap(r.cells)
  {
    Canvas(c.cells[k := Xored(c.cells[k], bit)], c.overwrite || c.cells[k] == 1)
  }

  /** The first `i` pixels of one sprite row drawn at (px, py). */
  function BlitRow(c: Canvas, px: nat, py: nat, row: Byte, i: nat): (r: Canvas)
    requires |c.cells| == CELLS && i <= SPRITE_WIDTH
    ensures |r.cells| == CELLS
    ensures IsBitmap(c.cells) ==> IsBitmap(r.cells)
  {
    if i == 0 then c
    else PixelXor(BlitRow(c, px, py, row, i - 1), RowCell(px, py, i - 1), SpriteBit(row, i - 1))
  }

  /** The first `j` rows of `sprite` drawn at (x, y). */
  function BlitRows(c: Canvas, x: nat, y: nat, sprite: seq<Byte>, j: nat): (r: Canvas)
    requires |c.cells| == CELLS && j <= |sprite|
    ensures |r.cells| == CELLS
    ensures IsBitmap(c.cells) ==> IsBitmap(r.cells)
  {
    if j == 0 then c
    else BlitRow(BlitRows(c, x, y, sprite, j - 1), x, y + (j - 1), sprite[j - 1], SPRITE_WIDTH)
  }

  /** `draw(x, y, sprite)` on `screen`: the surface after the call, and whether it returns `Overwrite`. */
  function Blit(screen: seq<Byte>, x: nat, y: nat, sprite: seq<Byte>): (r: Canvas)
    requires |screen| == CELLS
    ensures |r.cells| == CELLS
    ensures IsBitmap(screen) ==> IsBitmap(r.cells)
  {
    BlitRows(Canvas(screen, false), x, y, sprite, |sprite|)
  }

  /** Whether cell `c` lies in the wrapped 8 x `rows` window of a sprite drawn at (x, y). */
  ghost predicate InWindow(x: nat, y: nat, rows: nat, c: nat) {
    exists i, j :: 0 <= i < SPRITE_WIDTH && 0 <= j < rows && WindowCell(x, y, i, j) == c
  }

  /** Whether some cell of the wrapped 8 x `rows` window at (x, y) is set. */
  ghost predicate WindowHasSetCell(screen: seq<Byte>, x: nat, y: nat, rows: nat)
    requires |screen| == CELLS
  {
    exists i, j :: 0 <= i < SPRITE_WIDTH && 0 <= j < rows && screen[WindowCell(x, y, i, j)] == 1
  }

  /** Whether some cell of the 8-pixel row at (px, py) is set. */
  ghost predicate RowHasSetCell(screen: seq<Byte>, px: nat, py: nat)
    requires |screen| == CELLS
  {
    exists i :: 0 <= i < SPRITE_WIDTH && screen[RowCell(px, py, i)] == 1
  }

  /** Two columns of one sprite row never wrap onto each other. */
  lemma ColumnsDistinct(x: nat, y: nat, i1: nat, i2: nat)
    requires i1 < SPRITE_WIDTH && i2 < SPRITE_WIDTH && i1 != i2
    ensures RowCell(x, y, i1) != RowCell(x, y, i2)
  {
    IndexSameCell(x + i1, y, x + i2, y);
  }

  /** Two of the first 32 rows of a sprite never wrap onto each other. */
  lemma RowsDistinct(x: nat, y: nat, i1: nat, j1: nat, i2: nat, j2: nat)
    requires j1 < HEIGHT && j2 < HEIGHT && j1 != j2
    ensures WindowCell(x, y, i1, j1) != WindowCell(x, y, i2, j2)
  {
    IndexSameCell(x + i1, y + j1, x + i2, y + j2);
  }

  /** A cell that none of the first `i` pixels of a row addresses keeps its value. */
  lemma {:induction false} RowUnvisited(c: Canvas, px: nat, py: nat, row: Byte, i: nat, k: nat)
    requires |c.cells| == CELLS && i <= SPRITE_WIDTH && k < CELLS
    requires forall i' :: 0 <= i' < i ==> RowCell(px, py, i') != k
    ensures BlitRow(c, px, py, row, i).cells[k] == c.cells[k]
  {
    if i > 0 {
      RowUnvisited(c, px, py, row, i - 1, k);
    }
  }

  /** Pixel `i' < i` of a row ends up as its old value XOR its sprite bit. */
  lemma {:induction false} RowVisited(c: Canvas, px: nat, py: nat, row: Byte, i: nat, i': nat)
    requires |c.cells| == CELLS && i' < i <= SPRITE_WIDTH
    ensures BlitRow(c, px, py, row, i).cells[RowCell(px, py, i')]
         == Xored(c.cells[RowCell(px, py, i')], SpriteBit(row, i'))
  {
    var k := RowCell(px, py, i');
    if i' == i - 1 {
      forall i'' | 0 <= i'' < i' ensures RowCell(px, py, i'') != k {
        ColumnsDistinct(px, py, i'', i');
      }
      RowUnvisited(c, px, py, row, i', k);
    } else {
      ColumnsDistinct(px, py, i', i - 1);
      RowVisited(c, px, py, row, i - 1, i');
    }
  }

  /** The first `i` pixels of a row meet a set pixel exactly when one of them was set before the row. */
  lemma {:induction false} RowOverwrite(c: Canvas, px: nat, py: nat, row: Byte, i: nat)
    requires |c.cells| == CELLS && i <= SPRITE_WIDTH
    ensures BlitRow(c, px, py, row, i).overwrite
        <==> c.overwrite || exists i' :: 0 <= i' < i && c.cells[RowCell(px, py, i')] == 1
  {
    if i > 0 {
      RowOverwrite(c, px, py, row, i - 1);
      var k := RowCell(px, py, (i - 1));
      forall i'' | 0 <= i'' < i - 1 ensures RowCell(px, py, i'') != k {
        ColumnsDistinct(px, py, i'', i - 1);
      }
      RowUnvisited(c, px, py, row, i - 1, k);
    }
  }

  /** A cell outside the window of the first `j` rows keeps its value. */
  lemma {:induction false} RowsUnvisited(c: Canvas, x: nat, y: nat, sprite: seq<Byte>, j: nat, k: nat)
    requires |c.cells| == CELLS && j <= |sprite| && k < CELLS && !InWindow(x, y, j, k)
    ensures BlitRows(c, x, y, sprite, j).cells[k] == c.cells[k]
  {
    if j > 0 {
      RowsUnvisited(c, x, y, sprite, j - 1, k);
      var py := y + (j - 1);
      forall i' | 0 <= i' < SPRITE_WIDTH ensures RowCell(x, py, i') != k {
        if WindowCell(x, y, i', j - 1) == k {
          assert InWindow(x, y, j, k);
        }
      }
      RowUnvisited(BlitRows(c, x, y, sprite, j - 1), x, py, sprite[j - 1], SPRITE_WIDTH, k);
    }
  }

  /** Within 32 rows, cell (x + i, y + j') of the window ends up as its old value XOR its sprite bit. */
  lemma {:induction false} RowsVisited(c: Canvas, x: nat, y: nat, sprite: seq<Byte>, j: nat, i: nat, j': nat)
    requires |c.cells| == CELLS && j <= |sprite| && j <= HEIGHT && i < SPRITE_WIDTH && j' < j
    ensures BlitRows(c, x, y, sprite, j).cells[WindowCell(x, y, i, j')]
         == Xored(c.cells[WindowCell(x, y, i, j')], SpriteBit(sprite[j'], i))
  {
    if j' == j - 1 {
      RowsUnvisitedLastRow(c, x, y, sprite, j, i);
      RowVisited(BlitRows(c, x, y, sprite, j - 1), x, y + j', sprite[j'], SPRITE_WIDTH, i);
    } else {
      LastRowSkipsEarlierRows(c, x, y, sprite, j, i, j');
      RowsVisited(c, x, y, sprite, j - 1, i, j');
    }
  }

  /** Within 32 rows, row `j - 1` of a draw leaves the cells of the rows above it alone. */
  lemma LastRowSkipsEarlierRows(c: Canvas, x: nat, y: nat, sprite: seq<Byte>, j: nat, i: nat, j': nat)
    requires |c.cells| == CELLS && j <= |sprite| && j <= HEIGHT && i < SPRITE_WIDTH && j' < j - 1
    ensures BlitRows(c, x, y, sprite, j).cells[WindowCell(x, y, i, j')]
         == BlitRows(c, x, y, sprite, j - 1).cells[WindowCell(x, y, i, j')]
  {
    var k := WindowCell(x, y, i, j');
    var py := y + (j - 1);
    forall i' | 0 <= i' < SPRITE_WIDTH ensures RowCell(x, py, i') != k {
      RowsDistinct(x, y, i', j - 1, i, j');
    }
    RowUnvisited(BlitRows(c, x, y, sprite, j - 1), x, py, sprite[j - 1], SPRITE_WIDTH, k);
  }

  /** Within 32 rows, the first `j` rows meet a set pixel exactly when their window held one before the draw. */
  lemma {:induction false} RowsOverwrite(c: Canvas, x: nat, y: nat, sprite: seq<Byte>, j: nat)
    requires |c.cells| == CELLS && j <= |sprite| && j <= HEIGHT
    ensures BlitRows(c, x, y, sprite, j).overwrite <==> c.overwrite || WindowHasSetCell(c.cells, x, y, j)
  {
    if j > 0 {
      var before := BlitRows(c, x, y, sprite, j - 1);
      var py := y + (j - 1);
      RowsOverwrite(c, x, y, sprite, j - 1);
      RowOverwrite(before, x, py, sprite[j - 1], SPRITE_WIDTH);
      forall i' | 0 <= i' < SPRITE_WIDTH ensures before.cells[RowCell(x, py, i')] == c.cells[RowCell(x, py, i')] {
        RowsUnvisitedLastRow(c, x, y, sprite, j, i');
      }
      WindowLastRow(c.cells, x, y, j);
    }
  }

  /** The window of `j` rows holds a set cell exactly when the first `j - 1` rows or row `j - 1` does. */
  lemma WindowLastRow(screen: seq<Byte>, x: nat, y: nat, j: nat)
    requires |screen| == CELLS && j > 0
    ensures WindowHasSetCell(screen, x, y, j)
        <==> WindowHasSetCell(screen, x, y, j - 1)
             || RowHasSetCell(screen, x, y + (j - 1))
  {
    var py := y + (j - 1);
    if WindowHasSetCell(screen, x, y, j) {
      var i, j' :| 0 <= i < SPRITE_WIDTH && 0 <= j' < j && screen[WindowCell(x, y, i, j')] == 1;
      if j' == j - 1 {
        assert screen[RowCell(x, py, i)] == 1;
      } else {
        assert WindowHasSetCell(screen, x, y, j - 1);
      }
    }
    if RowHasSetCell(screen, x, py) {
      var i :| 0 <= i < SPRITE_WIDTH && screen[RowCell(x, py, i)] == 1;
      assert screen[WindowCell(x, y, i, j - 1)] == 1;
    }
  }

  /** Within 32 rows, the rows before row `j - 1` leave row `j - 1`'s cells alone. */
  lemma RowsUnvisitedLastRow(c: Canvas, x: nat, y: nat, sprite: seq<Byte>, j: nat, i: nat)
    requires |c.cells| == CELLS && 0 < j <= |sprite| && j <= HEIGHT && i < SPRITE_WIDTH
    ensures BlitRows(c, x, y, sprite, j - 1).cells[WindowCell(x, y, i, j - 1)] == c.cells[WindowCell(x, y, i, j - 1)]
  {
    var k := WindowCell(x, y, i, j - 1);
    if InWindow(x, y, j - 1, k) {
      var i2, j2 :| 0 <= i2 < SPRITE_WIDTH && 0 <= j2 < j - 1 && WindowCell(x, y, i2, j2) == k;
      RowsDistinct(x, y, i2, j2, i, j - 1);
    }
    RowsUnvisited(c, x, y, sprite, j - 1, k);
  }

  /**
   * Blit, inside the window: for a sprite of at most 32 rows, cell
   * (x + i, y + j) ends up as its old value XOR bit (7 - i) of row j. In
   * particular it is unchanged where that bit is 0.
   */
  lemma BlitInWindow(screen: seq<Byte>, x: nat, y: nat, sprite: seq<Byte>, i: nat, j: nat)
    requires |screen| == CELLS && |sprite| <= HEIGHT && i < SPRITE_WIDTH && j < |sprite|
    ensures Blit(screen, x, y, sprite).cells[WindowCell(x, y, i, j)]
         == Xored(screen[WindowCell(x, y, i, j)], SpriteBit(sprite[j], i))
    ensures !SpriteBit(sprite[j], i) && IsBitmap(screen)
         ==> Blit(screen, x, y, sprite).cells[WindowCell(x, y, i, j)] == screen[WindowCell(x, y, i, j)]
  {
    RowsVisited(Canvas(screen, false), x, y, sprite, |sprite|, i, j);
  }

  /** Blit, outside the window: a cell no pixel of the sprite addresses keeps its value, whatever the sprite's length. */
  lemma BlitOutsideWindow(screen: seq<Byte>, x: nat, y: nat, sprite: seq<Byte>, k: nat)
    requires |screen| == CELLS && k < CELLS && !InWindow(x, y, |sprite|, k)
    ensures Blit(screen, x, y, sprite).cells[k] == screen[k]
  {
    RowsUnvisited(Canvas(screen, false), x, y, sprite, |sprite|, k);
  }

  /**
   * Collision: for a sprite of at most 32 rows, `draw` reports `Overwrite`
   * exactly when some cell of the wrapped 8 x |sprite| window was set
   * before the draw, regardless of the sprite's bits.
   */
  lemma CollidesIffWindowSet(screen: seq<Byte>, x: nat, y: nat, sprite: seq<Byte>)
    requires |screen| == CELLS && |sprite| <= HEIGHT
    ensures Blit(screen, x, y, sprite).overwrite <==> WindowHasSetCell(screen, x, y, |sprite|)
  {
    RowsOverwrite(Canvas(screen, false), x, y, sprite, |sprite|);
  }

  /** Drawing the same sprite (at most 32 rows) twice at the same origin restores the surface exactly. */
  lemma DrawTwiceRestores(screen: seq<Byte>, x: nat, y: nat, sprite: seq<Byte>)
    requires IsBitmap(screen) && |sprite| <= HEIGHT
    ensures Blit(Blit(screen, x, y, sprite).cells, x, y, sprite).cells == screen
  {
    var once := Blit(screen, x, y, sprite).cells;
    var twice := Blit(once, x, y, sprite).cells;
    forall k | 0 <= k < CELLS ensures twice[k] == screen[k] {
      if InWindow(x, y, |sprite|, k) {
        var i, j :| 0 <= i < SPRITE_WIDTH && 0 <= j < |sprite| && WindowCell(x, y, i, j) == k;
        BlitInWindow(screen, x, y, sprite, i, j);
        BlitInWindow(once, x, y, sprite, i, j);
      } else {
        BlitOutsideWindow(screen, x, y, sprite, k);
        BlitOutsideWindow(once, x, y, sprite, k);
      }
    }
  }

  /**
   * The second of two identical draws reports `Overwrite` exactly when some
   * cell of the window differed from the sprite bit drawn onto it before
   * the first draw.
   */
  lemma DrawTwiceCollides(screen: seq<Byte>, x: nat, y: nat, sprite: seq<Byte>)
    requires IsBitmap(screen) && |sprite| <= HEIGHT
    ensures Blit(Blit(screen, x, y, sprite).cells, x, y, sprite).overwrite
        <==> exists i, j :: 0 <= i < SPRITE_WIDTH && 0 <= j < |sprite|
               && (screen[WindowCell(x, y, i, j)] == 1) != SpriteBit(sprite[j], i)
  {
    var once := Blit(screen, x, y, sprite).cells;
    CollidesIffWindowSet(once, x, y, sprite);
    forall i, j | 0 <= i < SPRITE_WIDTH && 0 <= j < |sprite|
      ensures (once[WindowCell(x, y, i, j)] == 1)
          == ((screen[WindowCell(x, y, i, j)] == 1) != SpriteBit(sprite[j], i))
    {
      BlitInWindow(screen, x, y, sprite, i, j);
    }
  }

  /**
   * On a window that is clear, a sprite with a set bit draws without
   * collision the first time and with a collision the second time.
   */
  lemma DrawTwiceOnClearWindow(screen: seq<Byte>, x: nat, y: nat, sprite: seq<Byte>, i: nat, j: nat)
    requires IsBitmap(screen) && |sprite| <= HEIGHT && !WindowHasSetCell(screen, x, y, |sprite|)
    requires i < SPRITE_WIDTH && j < |sprite| && SpriteBit(sprite[j], i)
    ensures !Blit(screen, x, y, sprite).overwrite
    ensures Blit(Blit(screen, x, y, sprite).cells, x, y, sprite).overwrite
  {
    CollidesIffWindowSet(screen, x, y, sprite);
    DrawTwiceCollides(screen, x, y, sprite);
    assert screen[WindowCell(x, y, i, j)] != 1;
  }

  class Display {
    /** `memory: [u8; WIDTH * HEIGHT]`, row-major. */
    const memory: array<Byte>

    ghost predicate Valid()
      reads memory
    {
      IsBitmap(memory[..])
    }

    /** `Display::new`: every cell 0. */
    constructor ()
      ensures Valid() && fresh(memory)
      ensures forall k :: 0 <= k < CELLS ==> memory[k] == 0
    {
      memory := new Byte[CELLS](_ => 0);
    }

    /** `reset` is `clear`. */
    method Reset()
      requires Valid()
      modifies memory
      ensures Valid()
      ensures forall k :: 0 <= k < CELLS ==> memory[k] == 0
    {
      Clear();
    }

    /** `clear` makes every cell 0. */
    method Clear()
      requires Valid()
      modifies memory
      ensures Valid()
      ensures forall k :: 0 <= k < CELLS ==> memory[k] == 0
    {
      forall k | 0 <= k < memory.Length {
        memory[k] := 0;
      }
    }

    /** `is_pixel_set`: the wrapped cell of (x, y) holds 1. */
    function IsPixelSet(x: nat, y: nat): (b: bool)
      reads memory
      requires Valid()
      // Kept so that `DrawRow`'s loop sees the cell it reads without unfolding the body.
      ensures b <==> memory[Index(x, y)] == 1
    {
      memory[Index(x, y)] == 1
    }

    /** `is_pixel_set` wraps around: one screen width to the right, or one height down, is the same pixel. */
    lemma PixelWraps(x: nat, y: nat)
      requires Valid()
      ensures IsPixelSet(x + WIDTH, y) == IsPixelSet(x, y)
      ensures IsPixelSet(x, y + HEIGHT) == IsPixelSet(x, y)
    {
      IndexSameCell(x + WIDTH, y, x, y);
      IndexSameCell(x, y + HEIGHT, x, y);
    }

    /** `set_pixel` stores `state as u8` in the wrapped cell of (x, y) and touches no other cell. */
    method SetPixel(x: nat, y: nat, state: bool)
      requires Valid()
      modifies memory
      ensures Valid()
      ensures memory[..] == old(memory[..])[Index(x, y) := if state then 1 else 0]
      ensures IsPixelSet(x, y) == state
    {
      memory[Index(x, y)] := if state then 1 else 0;
    }

    /**
     * One row of `draw`'s loop: for each column i in 0..8, read the old
     * pixel at (px + i, py), note an overwrite if it was set, and store the
     * sprite bit XOR the old pixel. `overwrite` is what the rows before
     * have found.
     */
    method DrawRow(px: nat, py: nat, row: Byte, overwrite: bool) returns (res: bool)
      requires Valid()
      modifies memory
      ensures Valid()
      ensures Canvas(memory[..], res) == BlitRow(Canvas(old(memory[..]), overwrite), px, py, row, SPRITE_WIDTH)
    {
      ghost var start := Canvas(memory[..], overwrite);
      res := overwrite;
      var i := 0;
      while i < SPRITE_WIDTH
        invariant 0 <= i <= SPRITE_WIDTH
        invariant Valid()
        invariant Canvas(memory[..], res) == BlitRow(start, px, py, row, i)
      {
        var newValue := if SpriteBit(row, i) then 1 else 0;
        var oldValue := IsPixelSet(px + i, py);
        if oldValue {
          res := true;
        }
        SetPixel(px + i, py, (newValue == 1) != oldValue);
        i := i + 1;
      }
    }

    /** `draw`: the rows of the sprite one after another, from (x, y) downwards. */
    method Draw(x: nat, y: nat, sprite: seq<Byte>) returns (res: DrawResult)
      requires Valid()
      modifies memory
      ensures Valid()
      ensures memory[..] == Blit(old(memory[..]), x, y, sprite).cells
      ensures res == if Blit(old(memory[..]), x, y, sprite).overwrite then Overwrite else NoOverwrite
    {
      ghost var start := Canvas(memory[..], false);
      var overwrite := false;
      var j := 0;
      while j < |sprite|
        invariant 0 <= j <= |sprite|
        invariant Valid()
        invariant Canvas(memory[..], overwrite) == BlitRows(start, x, y, sprite, j)
      {
        overwrite := DrawRow(x, y + j, sprite[j], overwrite);
        j := j + 1;
      }
      res := if overwrite then Overwrite else NoOverwrite;
    }
  }
}
