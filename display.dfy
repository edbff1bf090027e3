/**
 * The 64x32 monochrome display and sprite compositing (display.rs):
 * a row-major array of pixels, an XOR `Set` that reports whether the pixel
 * it wrote is now off, `Clear`, and `Sprite.Draw`, which writes a sprite of
 * up to 15 byte-rows at (x, y), wrapping both columns and rows.
 */
module Graphics {
  import opened Bytes

  const WIDTH: nat := 64
  const HEIGHT: nat := 32
  const PIXEL_COUNT: nat := WIDTH * HEIGHT
  const MAX_SPRITE_LEN: nat := 15

  predicate Blank(screen: seq<bool>) {
    forall k :: 0 <= k < |screen| ==> !screen[k]
  }

  /** Bit `k` of `b`, bit 0 being the least significant. */
  predicate Bit(b: u8, k: nat)
    requires k < 8
  {
    ((b as bv8) >> k) & 1 == 1
  }

  /** Pixel `c` of a sprite row: the most significant bit is the leftmost pixel. */
  predicate Pixel(b: u8, c: nat)
    requires c < 8
  {
    Bit(b, 7 - c)
  }

  // ---------------------------------------------------------------------
  // Where a sprite lands: the footprint of a draw at (x, y).

  /** Screen index written for sprite row `r`, bit `c` of a draw at (x, y). */
  function Cell(x: nat, y: nat, r: nat, c: nat): nat {
    ((y % HEIGHT + r) % HEIGHT) * WIDTH + (x % WIDTH + c) % WIDTH
  }

  /** The sprite row that lands on the screen row of index `k`. */
  function RowOf(y: nat, k: nat): nat {
    (k / WIDTH - y % HEIGHT) % HEIGHT
  }

  /** The sprite column that lands on the screen column of index `k`. */
  function ColOf(x: nat, k: nat): nat {
    (k % WIDTH - x % WIDTH) % WIDTH
  }

  predicate InFootprint(bytes: seq<u8>, x: nat, y: nat, k: nat) {
    RowOf(y, k) < |bytes| && ColOf(x, k) < 8
  }

  /** The sprite pixel that a draw XORs into index `k` of its footprint. */
  predicate SpritePixel(bytes: seq<u8>, x: nat, y: nat, k: nat)
    requires InFootprint(bytes, x, y, k)
  {
    Pixel(bytes[RowOf(y, k)], ColOf(x, k))
  }

  /** The screen after a draw: every footprint pixel XORed with its sprite pixel. */
  function Composite(screen: seq<bool>, bytes: seq<u8>, x: nat, y: nat): (s: seq<bool>)
    requires |screen| == PIXEL_COUNT
    ensures |s| == PIXEL_COUNT
  {
    seq(PIXEL_COUNT, k requires 0 <= k < PIXEL_COUNT =>
      if InFootprint(bytes, x, y, k) then screen[k] != SpritePixel(bytes, x, y, k) else screen[k])
  }

  /** A draw reports a collision when some footprint pixel is off afterwards. */
  predicate Collides(after: seq<bool>, bytes: seq<u8>, x: nat, y: nat)
    requires |after| == PIXEL_COUNT
  {
    exists k :: 0 <= k < PIXEL_COUNT && InFootprint(bytes, x, y, k) && !after[k]
  }

  /** `Cell` and (`RowOf`, `ColOf`) are inverse to each other. */
  lemma CellInverse(x: nat, y: nat, r: nat, c: nat)
    requires r < HEIGHT && c < WIDTH
    ensures Cell(x, y, r, c) < PIXEL_COUNT
    ensures RowOf(y, Cell(x, y, r, c)) == r && ColOf(x, Cell(x, y, r, c)) == c
  {
    var row, col := (y % HEIGHT + r) % HEIGHT, (x % WIDTH + c) % WIDTH;
    var k := row * WIDTH + col;
    DivModUnique(k, WIDTH, row, col);
  }

  lemma IndexInverse(x: nat, y: nat, k: nat)
    requires k < PIXEL_COUNT
    ensures RowOf(y, k) < HEIGHT && ColOf(x, k) < WIDTH
    ensures Cell(x, y, RowOf(y, k), ColOf(x, k)) == k
  {
    var row, col := k / WIDTH, k % WIDTH;
    assert k == row * WIDTH + col;
    OffsetBack(row, y % HEIGHT, HEIGHT);
    OffsetBack(col, x % WIDTH, WIDTH);
  }

  /** Stepping `(a - s) mod n` on from `s` comes back to `a`. */
  lemma OffsetBack(a: nat, s: nat, n: nat)
    requires a < n && s < n
    ensures (a - s) % n < n && (s + (a - s) % n) % n == a
  {
    if a >= s {
      DivModUnique(a - s, n, 0, a - s);
      DivModUnique(a, n, 0, a);
    } else {
      DivModUnique(a - s, n, -1, a - s + n);
      DivModUnique(a + n, n, 1, a);
    }
  }

  /**
   * No two pixels of one sprite land on the same cell: a sprite has at
   * most 15 rows, fewer than the 32 screen rows, and 8 columns, fewer
   * than the 64 screen columns.
   */
  lemma FootprintDistinct(x: nat, y: nat, r1: nat, c1: nat, r2: nat, c2: nat)
    requires r1 < MAX_SPRITE_LEN && r2 < MAX_SPRITE_LEN && c1 < 8 && c2 < 8
    requires Cell(x, y, r1, c1) == Cell(x, y, r2, c2)
    ensures r1 == r2 && c1 == c2
  {
    CellInverse(x, y, r1, c1);
    CellInverse(x, y, r2, c2);
  }

  /**
   * Row `r`, bit `c` of the sprite lands on column `(x mod 64 + c) mod 64`
   * and row `(y mod 32 + r) mod 32`, where it is XORed with its pixel.
   */
  lemma CompositeAt(screen: seq<bool>, bytes: seq<u8>, x: nat, y: nat, r: nat, c: nat)
    requires |screen| == PIXEL_COUNT && r < |bytes| <= MAX_SPRITE_LEN && c < 8
    ensures Cell(x, y, r, c) == ((y % HEIGHT + r) % HEIGHT) * WIDTH + (x % WIDTH + c) % WIDTH
    ensures Cell(x, y, r, c) < PIXEL_COUNT
    ensures Composite(screen, bytes, x, y)[Cell(x, y, r, c)] == (screen[Cell(x, y, r, c)] != Pixel(bytes[r], c))
  {
    CellInverse(x, y, r, c);
  }

  /** Every cell a draw changes is the image of a sprite pixel; the others keep their value. */
  lemma CompositeElsewhere(screen: seq<bool>, bytes: seq<u8>, x: nat, y: nat, k: nat)
    requires |screen| == PIXEL_COUNT && k < PIXEL_COUNT
    requires forall r, c :: 0 <= r < |bytes| && 0 <= c < 8 ==> Cell(x, y, r, c) != k
    ensures Composite(screen, bytes, x, y)[k] == screen[k]
  {
    IndexInverse(x, y, k);
    if InFootprint(bytes, x, y, k) {
      assert false;
    }
  }

  /** Drawing the same sprite at the same place twice restores the screen. */
  lemma CompositeTwice(screen: seq<bool>, bytes: seq<u8>, x: nat, y: nat)
    requires |screen| == PIXEL_COUNT
    ensures Composite(Composite(screen, bytes, x, y), bytes, x, y) == screen
  {
    var once := Composite(screen, bytes, x, y);
    var twice := Composite(once, bytes, x, y);
    forall k | 0 <= k < PIXEL_COUNT ensures twice[k] == screen[k] {
    }
  }

  /**
   * A draw reports a collision exactly when some footprint pixel was equal
   * to the sprite pixel XORed into it: a lit pixel erased, but also an unlit
   * pixel under a clear sprite bit.
   */
  lemma CollisionMeans(screen: seq<bool>, bytes: seq<u8>, x: nat, y: nat)
    requires |screen| == PIXEL_COUNT
    ensures Collides(Composite(screen, bytes, x, y), bytes, x, y) <==>
      exists k :: 0 <= k < PIXEL_COUNT && InFootprint(bytes, x, y, k) && screen[k] == SpritePixel(bytes, x, y, k)
  {
    var after := Composite(screen, bytes, x, y);
    if Collides(after, bytes, x, y) {
      var k :| 0 <= k < PIXEL_COUNT && InFootprint(bytes, x, y, k) && !after[k];
      assert screen[k] == SpritePixel(bytes, x, y, k);
    }
    if exists k :: 0 <= k < PIXEL_COUNT && InFootprint(bytes, x, y, k) && screen[k] == SpritePixel(bytes, x, y, k) {
      var k :| 0 <= k < PIXEL_COUNT && InFootprint(bytes, x, y, k) && screen[k] == SpritePixel(bytes, x, y, k);
      assert !after[k];
    }
  }

  /**
   * Drawing a sprite a second time at the same place restores the screen, and
   * that second draw reports a collision exactly when some footprint pixel
   * was off before the first.
   */
  lemma DrawTwice(screen: seq<bool>, bytes: seq<u8>, x: nat, y: nat)
    requires |screen| == PIXEL_COUNT
    ensures Composite(Composite(screen, bytes, x, y), bytes, x, y) == screen
    ensures Collides(Composite(Composite(screen, bytes, x, y), bytes, x, y), bytes, x, y) <==>
      exists k :: 0 <= k < PIXEL_COUNT && InFootprint(bytes, x, y, k) && !screen[k]
  {
    CompositeTwice(screen, bytes, x, y);
  }

  /** A draw of no rows changes nothing and reports no collision. */
  lemma CompositeEmpty(screen: seq<bool>, x: nat, y: nat)
    requires |screen| == PIXEL_COUNT
    ensures Composite(screen, [], x, y) == screen
    ensures !Collides(Composite(screen, [], x, y), [], x, y)
  {
  }

  /** Drawing at x = 60 covers columns 60..63 and then 0..3; at y = 31 rows 31 and 0. */
  lemma WrapExample(r: nat, c: nat)
    requires r < 2 && c < 8
    ensures Cell(60, 31, r, c) / WIDTH == [31, 0][r]
    ensures Cell(60, 31, r, c) % WIDTH == [60, 61, 62, 63, 0, 1, 2, 3][c]
  {
    CellInverse(60, 31, r, c);
  }

  // ---------------------------------------------------------------------
  // Progress of the drawing loop: the cells written so far.

  /** Footprint index `k` was written once rows before `r`, and columns before `c` of row `r`, are done. */
  predicate Done(bytes: seq<u8>, x: nat, y: nat, r: nat, c: nat, k: nat) {
    InFootprint(bytes, x, y, k) && (RowOf(y, k) < r || (RowOf(y, k) == r && ColOf(x, k) < c))
  }

  class Display {
    const memory: array<bool>

    ghost predicate Valid() {
      memory.Length == PIXEL_COUNT
    }

    constructor ()
      ensures Valid() && fresh(memory) && Blank(memory[..])
    {
      memory := new bool[PIXEL_COUNT](_ => false);
    }

    /** Row-major layout: index `y * 64 + x` is column `x` of row `y`. */
    static function ToIndex(x: nat, y: nat): (k: nat)
      ensures x < WIDTH ==> k / WIDTH == y && k % WIDTH == x
    {
      var k := y * WIDTH + x;
      assert x < WIDTH ==> k / WIDTH == y && k % WIDTH == x by {
        if x < WIDTH { DivModUnique(k, WIDTH, y, x); }
      }
      k
    }

    function Get(x: nat, y: nat): bool
      reads memory
      requires Valid() && ToIndex(x, y) < PIXEL_COUNT
    {
      memory[ToIndex(x, y)]
    }

    /**
     * XORs `pixel` into (x, y) and reports "erased" exactly when the pixel
     * is off afterwards: on->off, and also off->off.
     */
    method Set(x: nat, y: nat, pixel: bool) returns (erased: bool)
      requires Valid() && ToIndex(x, y) < PIXEL_COUNT
      modifies memory
      ensures memory[..] == old(memory[..])[ToIndex(x, y) := old(Get(x, y)) != pixel]
      ensures erased <==> !memory[ToIndex(x, y)]
    {
      var current := Get(x, y);
      if current != pixel {
        memory[ToIndex(x, y)] := true;
        erased := false;
      } else {
        memory[ToIndex(x, y)] := false;
        erased := true;
      }
    }

    method Clear()
      requires Valid()
      modifies memory
      ensures Blank(memory[..])
    {
      forall k | 0 <= k < memory.Length {
        memory[k] := false;
      }
    }
  }

  datatype Collision = True | False

  datatype Sprite = Sprite(bytes: seq<u8>) {

    predicate Valid() {
      |bytes| <= MAX_SPRITE_LEN
    }

    /** A sprite is at most 15 bytes long. */
    static function New(bytes: seq<u8>): (s: Sprite)
      requires |bytes| <= MAX_SPRITE_LEN
      ensures s.Valid() && s.bytes == bytes
    {
      Sprite(bytes)
    }

    /**
     * XORs the sprite onto `display` with its top-left corner at
     * (x mod 64, y mod 32), wrapping columns and rows, and reports a
     * collision when some pixel it wrote is off afterwards.
     */
    method Draw(x: nat, y: nat, display: Display) returns (collision: Collision)
      requires Valid() && display.Valid()
      modifies display.memory
      ensures display.memory[..] == Composite(old(display.memory[..]), bytes, x, y)
      ensures collision == True <==> Collides(display.memory[..], bytes, x, y)
    {
      ghost var before := display.memory[..];
      var dx := x % WIDTH;
      var dy := y % HEIGHT;
      collision := False;
      for r := 0 to |bytes|
        invariant dx == x % WIDTH && dy == (y % HEIGHT + r) % HEIGHT
        invariant DrawnUpTo(before, display.memory[..], bytes, x, y, r, 0)
        invariant collision == True <==> CollidedUpTo(display.memory[..], bytes, x, y, r, 0)
      {
        var pixels := ToPixels(bytes[r]);
        for c := 0 to 8
          invariant dx == (x % WIDTH + c) % WIDTH && dy == (y % HEIGHT + r) % HEIGHT
          invariant DrawnUpTo(before, display.memory[..], bytes, x, y, r, c)
          invariant collision == True <==> CollidedUpTo(display.memory[..], bytes, x, y, r, c)
        {
          CursorAt(x, y, r, c, dx, dy);
          ghost var mem := display.memory[..];
          var collide := display.Set(dx, dy, pixels[c]);
          DrawStep(before, mem, display.memory[..], bytes, x, y, r, c);
          if collide {
            collision := True;
          }
          ModSucc(x % WIDTH + c, WIDTH);
          dx := dx + 1;
          dx := dx % WIDTH;
        }
        DrawNextRow(before, display.memory[..], bytes, x, y, r);
        ModSucc(y % HEIGHT + r, HEIGHT);
        dx := x % WIDTH;
        dy := dy + 1;
        dy := dy % HEIGHT;
      }
      DrawAll(before, display.memory[..], bytes, x, y);
    }

    /** The eight pixels of a sprite row, most significant bit first. */
    method ToPixels(byte: u8) returns (pixels: seq<bool>)
      ensures |pixels| == 8 && forall c :: 0 <= c < 8 ==> pixels[c] == Pixel(byte, c)
    {
      var b: bv8 := byte as bv8;
      ghost var original := b;
      pixels := [false, false, false, false, false, false, false, false];
      for i := 0 to 8
        invariant b == Rotated(original, i)
        invariant PixelsUpTo(byte, pixels, i)
      {
        ghost var before := pixels;
        if LeadingOne(b) {
          pixels := pixels[i := true];
        }
        PixelStep(byte, before, pixels, i);
        b := RotateLeft1(b);
      }
    }
  }

  /** The first `i` pixels of `byte` are in place and the others still off. */
  ghost predicate PixelsUpTo(byte: u8, pixels: seq<bool>, i: nat) {
    |pixels| == 8 && i <= 8 &&
    (forall j :: 0 <= j < i ==> pixels[j] == Pixel(byte, j)) &&
    (forall j :: i <= j < 8 ==> !pixels[j])
  }

  lemma PixelStep(byte: u8, pixels: seq<bool>, pixels': seq<bool>, i: nat)
    requires i < 8 && PixelsUpTo(byte, pixels, i)
    requires pixels' == if LeadingOne(Rotated(byte as bv8, i)) then pixels[i := true] else pixels
    ensures PixelsUpTo(byte, pixels', i + 1)
  {
    TopBitRotated(byte as bv8, i);
    var top := LeadingOne(Rotated(byte as bv8, i));
    assert top == Pixel(byte, i);
    assert pixels' == if top then pixels[i := true] else pixels;
  }

  /** `b.leading_ones() > 0`: the most significant bit is set. */
  predicate LeadingOne(b: bv8)
    ensures LeadingOne(b) <==> b >= 0x80
  {
    b & 0x80 != 0
  }

  /** `b.rotate_left(1)`. */
  function RotateLeft1(b: bv8): (r: bv8)
    ensures r == (b << 1) | (b >> 7)
  {
    b.RotateLeft(1)
  }

  ghost function Rotated(b: bv8, n: nat): bv8 {
    if n == 0 then b else RotateLeft1(Rotated(b, n - 1))
  }

  /** After `i` left rotations, the top bit is bit `7 - i` of the original byte. */
  lemma TopBitRotated(b: bv8, i: nat)
    requires i < 8
    ensures LeadingOne(Rotated(b, i)) == ((b >> (7 - i)) & 1 == 1)
  {
    var r1 := RotateLeft1(b);
    var r2 := RotateLeft1(r1);
    var r3 := RotateLeft1(r2);
    var r4 := RotateLeft1(r3);
    var r5 := RotateLeft1(r4);
    var r6 := RotateLeft1(r5);
    var r7 := RotateLeft1(r6);
    assert Rotated(b, 1) == r1;
    assert Rotated(b, 2) == r2;
    assert Rotated(b, 3) == r3;
    assert Rotated(b, 4) == r4;
    assert Rotated(b, 5) == r5;
    assert Rotated(b, 6) == r6;
    assert Rotated(b, 7) == r7;
  }

  /** The loop's column and row cursors address the cell of sprite pixel (r, c). */
  lemma CursorAt(x: nat, y: nat, r: nat, c: nat, dx: nat, dy: nat)
    requires r < HEIGHT && c < WIDTH
    requires dx == (x % WIDTH + c) % WIDTH && dy == (y % HEIGHT + r) % HEIGHT
    ensures Display.ToIndex(dx, dy) == Cell(x, y, r, c) < PIXEL_COUNT
  {
    CellInverse(x, y, r, c);
  }

  lemma ModSucc(a: nat, n: nat)
    requires n > 0
    ensures (a % n + 1) % n == (a + 1) % n
  {
    var q := a / n;
    assert a + 1 == n * q + (a % n + 1);
    if a % n + 1 < n {
      DivModUnique(a + 1, n, q, a % n + 1);
    } else {
      DivModUnique(a + 1, n, q + 1, 0);
    }
  }

  /** The screen `mem` holds the cells done so far XORed, and every other cell as `before`. */
  ghost predicate DrawnUpTo(before: seq<bool>, mem: seq<bool>, bytes: seq<u8>, x: nat, y: nat, r: nat, c: nat) {
    |before| == PIXEL_COUNT && |mem| == PIXEL_COUNT &&
    forall k :: 0 <= k < PIXEL_COUNT ==>
      mem[k] == if Done(bytes, x, y, r, c, k) then before[k] != SpritePixel(bytes, x, y, k) else before[k]
  }

  /** Some cell done so far is off. */
  ghost predicate CollidedUpTo(mem: seq<bool>, bytes: seq<u8>, x: nat, y: nat, r: nat, c: nat)
    requires |mem| == PIXEL_COUNT
  {
    exists k :: 0 <= k < PIXEL_COUNT && Done(bytes, x, y, r, c, k) && !mem[k]
  }

  /** Writing the pixel (r, c) extends both loop facts by one cell. */
  lemma DrawStep(before: seq<bool>, mem: seq<bool>, mem': seq<bool>, bytes: seq<u8>, x: nat, y: nat, r: nat, c: nat)
    requires r < |bytes| <= MAX_SPRITE_LEN && c < 8
    requires DrawnUpTo(before, mem, bytes, x, y, r, c)
    requires Cell(x, y, r, c) < PIXEL_COUNT
    requires mem' == mem[Cell(x, y, r, c) := mem[Cell(x, y, r, c)] != Pixel(bytes[r], c)]
    ensures DrawnUpTo(before, mem', bytes, x, y, r, c + 1)
    ensures CollidedUpTo(mem', bytes, x, y, r, c + 1) <==>
      CollidedUpTo(mem, bytes, x, y, r, c) || !mem'[Cell(x, y, r, c)]
  {
    var k0 := Cell(x, y, r, c);
    CellInverse(x, y, r, c);
    forall k | 0 <= k < PIXEL_COUNT
      ensures Done(bytes, x, y, r, c + 1, k) <==> Done(bytes, x, y, r, c, k) || k == k0
    {
      IndexInverse(x, y, k);
    }
    assert !Done(bytes, x, y, r, c, k0);
    if CollidedUpTo(mem, bytes, x, y, r, c) {
      var k :| 0 <= k < PIXEL_COUNT && Done(bytes, x, y, r, c, k) && !mem[k];
      assert k != k0 && Done(bytes, x, y, r, c + 1, k) && !mem'[k];
    }
    if CollidedUpTo(mem', bytes, x, y, r, c + 1) {
      var k :| 0 <= k < PIXEL_COUNT && Done(bytes, x, y, r, c + 1, k) && !mem'[k];
      if k != k0 {
        assert Done(bytes, x, y, r, c, k) && !mem[k];
      }
    }
  }

  lemma DrawNextRow(before: seq<bool>, mem: seq<bool>, bytes: seq<u8>, x: nat, y: nat, r: nat)
    requires DrawnUpTo(before, mem, bytes, x, y, r, 8)
    ensures DrawnUpTo(before, mem, bytes, x, y, r + 1, 0)
    ensures CollidedUpTo(mem, bytes, x, y, r, 8) <==> CollidedUpTo(mem, bytes, x, y, r + 1, 0)
  {
    assert forall k :: Done(bytes, x, y, r, 8, k) <==> Done(bytes, x, y, r + 1, 0, k);
  }

  lemma DrawAll(before: seq<bool>, mem: seq<bool>, bytes: seq<u8>, x: nat, y: nat)
    requires DrawnUpTo(before, mem, bytes, x, y, |bytes|, 0)
    ensures mem == Composite(before, bytes, x, y)
    ensures CollidedUpTo(mem, bytes, x, y, |bytes|, 0) <==> Collides(mem, bytes, x, y)
  {
    assert forall k :: Done(bytes, x, y, |bytes|, 0, k) <==> InFootprint(bytes, x, y, k);
  }
}
