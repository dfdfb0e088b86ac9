/** The demo program of source/main.cc: 96 sprites, 16 tiles in each of 6
    palettes, set up once and then moved one step per displayed frame. Each
    sprite drifts right one pixel per frame, re-entering at the left edge,
    and bobs on a sine wave whose phase depends on its tile, its palette
    and the frame counter.

    The sprites are handed out by a `SpriteManager` passed in explicitly,
    and the sine table by the array `fixsin` passed in explicitly. */
module Animation {
  import opened SpriteAttr
  import opened SpritePool
  import opened SineTable

  /** `NumColors` */
  const NumColors: int := 6

  /** `NumSpritesPerColor` */
  const NumSpritesPerColor: int := 16

  /** The number of sprites on screen. */
  const NumShown: int := 96

  /** The place of sprite (i, c) in the program's own table:
      `sprites[(c << 4) + i]`. */
  function Cell(i: int, c: int): int
  {
    c * 16 + i
  }

  /** The pool slot sprite (i, c) receives in setup: i runs down from 15,
      and for each i the six palettes are allocated in turn. */
  function SetupSlot(i: int, c: int): int
  {
    (15 - i) * 6 + c
  }

  // ---------------------------------------------------------------------
  // The per-sprite formulas

  /** The x position of sprite (i, c) in setup: `(16 * i) - (c * 8)`,
      where `c` is unsigned, so the difference is taken modulo 2^32 and
      then narrowed to the `int16_t` parameter of `setPos`. The wrap-around
      cancels out: the result is the signed difference. */
  function SetupX(i: int, c: int): (x: Int16)
    requires 0 <= i < NumSpritesPerColor && 0 <= c < NumColors
    ensures x == 16 * i - 8 * c
  {
    var v := 16 * i - c * 8;
    assert -40 <= v <= 240;
    assert v % 0x1_0000_0000 == if v < 0 then v + 0x1_0000_0000 else v;
    assert v % 0x1_0000_0000 % 0x1_0000 == if v < 0 then v + 0x1_0000 else v;
    Signed16(v % 0x1_0000_0000 % 0x1_0000)
  }

  /** The phase `aa` of sprite (i, c) in degrees:
      `((angle * (c + 1)) + (i * 16) + (45 * c)) % 360`, every operation on
      `unsigned` 32-bit values. */
  function Phase(angle: U32, i: int, c: int): (aa: int)
    requires 0 <= i < NumSpritesPerColor && 0 <= c < NumColors
    ensures 0 <= aa < 360
  {
    (angle * (c + 1) + i * 16 + 45 * c) % 0x1_0000_0000 % 360
  }

  /** The new y of a sprite whose sine is s:
      `((int64_t)s * (int64_t)(40 << 16) >> 32) + 76`; the arithmetic shift
      of the 64-bit product is a division by 2^32 rounding down. */
  function WaveY(s: int): int
  {
    s * (40 * 0x1_0000) / 0x1_0000_0000 + 76
  }

  /** The new x of a sprite at x: one step right, and once past the right
      edge of the screen, back to 8 pixels before the left edge. */
  function StepX(x: int): int
  {
    var x' := x + 1;
    if x' > ScreenWidth then x' - (ScreenWidth + 8) else x'
  }

  /** The position a sprite of the `sprites` table holds after setup. */
  ghost predicate Placed(s: Sprite, i: int, c: int)
    reads s
  {
    s.X() == 16 * i - 8 * c && s.Y() == 80 && s.TileIndex() == i &&
    PaletteOf(s.attr2) == c && HFlipOf(s.attr1) == (c % 2 == 1)
  }

  /** The four attribute words of a record, as a value. */
  datatype Attrs = Attrs(a0: Word16, a1: Word16, a2: Word16, a3: Word16)

  ghost function AttrsOf(s: Sprite): Attrs
    reads s
  {
    Attrs(s.attr0, s.attr1, s.attr2, s.attr3)
  }

  /** The words setup leaves in a record of sprite (i, c) whose words were
      w: the writes of `setPos`, `setTileIndex`, `setPalette` and
      `setHFlip`, every other bit as it was. */
  function SetupWords(w: Attrs, i: int, c: int): Attrs
    requires 0 <= i < NumSpritesPerColor && 0 <= c < NumColors
  {
    Attrs(WithY(w.a0, 80), WithHFlip(WithX(w.a1, SetupX(i, c)), c % 2 == 1),
          WithPalette(WithTile(w.a2, i), c), w.a3)
  }

  ghost predicate PlacedFrom(s: Sprite, w: Attrs, i: int, c: int)
    requires 0 <= i < NumSpritesPerColor && 0 <= c < NumColors
    reads s
  {
    AttrsOf(s) == SetupWords(w, i, c)
  }

  // ---------------------------------------------------------------------
  // Properties of the formulas

  /** Cells of distinct sprites are distinct, and they fill 0 .. 95. */
  lemma CellsDistinct(i: int, c: int, i': int, c': int)
    requires 0 <= i < NumSpritesPerColor && 0 <= c < NumColors
    requires 0 <= i' < NumSpritesPerColor && 0 <= c' < NumColors
    ensures 0 <= Cell(i, c) < NumShown
    ensures Cell(i, c) == Cell(i', c') <==> i == i' && c == c'
  {
  }

  /** Every place of the table is the cell of one sprite. */
  lemma CellOf(k: int)
    requires 0 <= k < NumShown
    ensures 0 <= k % 16 < NumSpritesPerColor && 0 <= k / 16 < NumColors
    ensures Cell(k % 16, k / 16) == k
  {
  }

  /** The sprite that receives slot k in setup: row 15 - k / 6, palette
      k % 6. */
  function SlotRow(k: int): int
  {
    15 - k / 6
  }

  function SlotColor(k: int): int
  {
    k % 6
  }

  /** After setup has handled slot k, the table cell of the sprite of
      slot k points at the record of slot k ... */
  ghost predicate Recorded(sprites: seq<Sprite?>, table: seq<Sprite>, k: int)
    requires |sprites| == NumShown && 0 <= k < NumShown && k < |table|
  {
    sprites[Cell(SlotRow(k), SlotColor(k))] == table[k]
  }

  /** ... and the record of slot k holds the words words[k]: during setup,
      what setup writes there once slot k is handed out, and its original
      words until then. */
  ghost predicate Holds(table: array<Sprite>, words: seq<Attrs>, k: int)
    requires 0 <= k < table.Length == |words|
    reads table, table[k]
  {
    var s := table[k];
    s.attr0 == words[k].a0 && s.attr1 == words[k].a1 && s.attr2 == words[k].a2 && s.attr3 == words[k].a3
  }

  /** The words setup writes in the record of slot k, whose original words
      are orig[k]. */
  ghost predicate Target(orig: seq<Attrs>, target: seq<Attrs>, k: int)
    requires |orig| == |target| == NumSprites && 0 <= k < NumShown
  {
    target[k] == SetupWords(orig[k], SlotRow(k), SlotColor(k))
  }

  /** The words of the first n records of table, in order. */
  ghost function AttrsUpTo(table: array<Sprite>, n: nat): (r: seq<Attrs>)
    requires n <= table.Length
    reads table, table[..]
    ensures |r| == n && forall k :: 0 <= k < n ==> r[k] == AttrsOf(table[k])
  {
    if n == 0 then [] else AttrsUpTo(table, n - 1) + [AttrsOf(table[n - 1])]
  }

  /** The words setup leaves in each record whose original words are orig:
      its own for the slots it hands out, the original ones for the rest. */
  function TargetsUpTo(orig: seq<Attrs>, n: nat): (r: seq<Attrs>)
    requires n <= |orig| == NumSprites
    ensures |r| == n
    ensures forall k :: 0 <= k < n && k < NumShown ==> r[k] == SetupWords(orig[k], SlotRow(k), SlotColor(k))
  {
    if n == 0 then []
    else
      var k := n - 1;
      TargetsUpTo(orig, k) + [if k < NumShown then SetupWords(orig[k], SlotRow(k), SlotColor(k)) else orig[k]]
  }

  /** The slots setup hands out before the one of (i, c) belong to later
      rows, or to earlier palettes of the same row. */
  lemma SlotsBefore(k: int, i: int, c: int)
    requires 0 <= i < NumSpritesPerColor && 0 <= c < NumColors
    requires 0 <= k < SetupSlot(i, c)
    ensures i < SlotRow(k) < NumSpritesPerColor || (SlotRow(k) == i && SlotColor(k) < c)
    ensures 0 <= SlotColor(k) < NumColors
  {
  }

  lemma SlotOfSetup(i: int, c: int)
    requires 0 <= i < NumSpritesPerColor && 0 <= c < NumColors
    ensures SlotRow(SetupSlot(i, c)) == i && SlotColor(SetupSlot(i, c)) == c
  {
  }

  /** Setup hands out slots 0 .. 95, one per sprite. */
  lemma SetupSlotsDistinct(i: int, c: int, i': int, c': int)
    requires 0 <= i < NumSpritesPerColor && 0 <= c < NumColors
    requires 0 <= i' < NumSpritesPerColor && 0 <= c' < NumColors
    ensures 0 <= SetupSlot(i, c) < NumShown
    ensures SetupSlot(i, c) == SetupSlot(i', c') <==> i == i' && c == c'
  {
  }

  /** Without wrap-around of the 32-bit sum, the phase is the plain sum
      modulo 360. */
  lemma PhaseNoWrap(angle: U32, i: int, c: int)
    requires 0 <= i < NumSpritesPerColor && 0 <= c < NumColors
    requires angle * (c + 1) + i * 16 + 45 * c < 0x1_0000_0000
    ensures Phase(angle, i, c) == (angle * (c + 1) + i * 16 + 45 * c) % 360
  {
  }

  /** From one frame to the next the phase of a sprite of palette c
      advances by c + 1 degrees, as long as the 32-bit sum does not wrap. */
  lemma {:induction false} PhaseAdvances(angle: U32, i: int, c: int)
    requires 0 <= i < NumSpritesPerColor && 0 <= c < NumColors
    requires (angle + 1) * (c + 1) + i * 16 + 45 * c < 0x1_0000_0000
    ensures angle + 1 < 0x1_0000_0000
    ensures Phase(angle + 1, i, c) == (Phase(angle, i, c) + c + 1) % 360
  {
    var sum := angle * (c + 1) + i * 16 + 45 * c;
    assert (angle + 1) * (c + 1) + i * 16 + 45 * c == sum + (c + 1);
    PhaseNoWrap(angle, i, c);
    PhaseNoWrap(angle + 1, i, c);
    ShiftMod360(sum, c + 1);
  }

  lemma ShiftMod360(a: int, k: int)
    ensures (a + k) % 360 == (a % 360 + k) % 360
  {
    var q := a / 360;
    assert a == q * 360 + a % 360;
    assert a + k == q * 360 + (a % 360 + k);
  }

  /** When the frame counter wraps from 2^32 - 1 to 0, the phase of sprite
      (0, 0) jumps from 255 to 0 rather than advancing to 256, because 2^32
      is not a multiple of 360. */
  lemma PhaseJumpsAtWrap()
    ensures Phase(0xffff_ffff, 0, 0) == 255
    ensures Phase(0, 0, 0) == 0
  {
  }

  /** y is the sine scaled to 40 pixels, rounded down, about line 76. */
  lemma {:induction false} WaveYScaled(s: int)
    ensures WaveY(s) == s * 40 / 0x1_0000 + 76
  {
    var q := s * 40 / 0x1_0000;
    var r := s * 40 % 0x1_0000;
    assert s * 40 == q * 0x1_0000 + r && 0 <= r < 0x1_0000;
    assert s * (40 * 0x1_0000) == q * 0x1_0000_0000 + r * 0x1_0000;
    assert 0 <= r * 0x1_0000 < 0x1_0000_0000;
  }

  /** For a sine in [-1, 1] (16.16), y stays within lines 36 .. 116, so
      it fits the 8-bit field of `attr0` and reads back unchanged. */
  lemma {:induction false} WaveYRange(s: int)
    requires -0x1_0000 <= s <= 0x1_0000
    ensures 36 <= WaveY(s) <= 116
    ensures Wrap8(WaveY(s)) == WaveY(s)
  {
    WaveYScaled(s);
    assert -40 * 0x1_0000 <= s * 40 <= 40 * 0x1_0000;
  }

  /** y grows with the sine. */
  lemma {:induction false} WaveYMonotone(s: int, s': int)
    requires s <= s'
    ensures WaveY(s) <= WaveY(s')
  {
    WaveYScaled(s);
    WaveYScaled(s');
    assert s * 40 <= s' * 40;
  }

  /** From any x the getter can return, the step lands in [-255, 240],
      and it is a plain step right up to 239. */
  lemma StepXRange(x: int)
    requires -256 <= x < 256
    ensures -255 <= StepX(x) <= ScreenWidth
    ensures x < ScreenWidth ==> StepX(x) == x + 1
    ensures x >= ScreenWidth ==> StepX(x) == x - 247
  {
  }

  /** The x position after k frames from x. */
  function StepsX(x: int, k: nat): int
  {
    if k == 0 then x else StepX(StepsX(x, k - 1))
  }

  /** On the track [-7, 240] a sprite moves along a cycle of 248
      positions: after k frames it is at -7 + (x + 7 + k) mod 248. */
  lemma {:induction false} StepsXCycle(x: int, k: nat)
    requires -7 <= x <= ScreenWidth
    ensures StepsX(x, k) == -7 + (x + 7 + k) % 248
  {
    if k > 0 {
      StepsXCycle(x, k - 1);
    }
  }

  /** So every 248 frames each sprite on the track is back where it was. */
  lemma {:induction false} StepsXPeriod(x: int)
    requires -7 <= x <= ScreenWidth
    ensures StepsX(x, 248) == x
  {
    StepsXCycle(x, 248);
  }

  /** What `setPos` and `setHFlip` of the setup loop leave in `attr1`. */
  lemma {:induction false} SetupAttr1(a1: Word16, i: int, c: int)
    requires 0 <= i < NumSpritesPerColor && 0 <= c < NumColors
    ensures XOf(WithHFlip(WithX(a1, SetupX(i, c)), c % 2 == 1)) == 16 * i - 8 * c
    ensures HFlipOf(WithHFlip(WithX(a1, SetupX(i, c)), c % 2 == 1)) == (c % 2 == 1)
    ensures VFlipOf(WithHFlip(WithX(a1, SetupX(i, c)), c % 2 == 1)) == VFlipOf(a1)
  {
    var x := SetupX(i, c);
    var w := WithX(a1, x);
    XRoundTrip(a1, x);
    assert Wrap9(x) == x by {
      assert (x + 0x100) % 0x200 == x + 0x100;
    }
    HFlipExact(w, c % 2 == 1);
    PosKeepsFlips(a1, x);
  }

  /** What `setTileIndex` and `setPalette` of the setup loop leave in
      `attr2`. */
  lemma {:induction false} SetupAttr2(a2: Word16, i: int, c: int)
    requires 0 <= i < NumSpritesPerColor && 0 <= c < NumColors
    ensures TileOf(WithPalette(WithTile(a2, i), c)) == i
    ensures PaletteOf(WithPalette(WithTile(a2, i), c)) == c
  {
    TileExact(a2, i);
    assert i % 0x400 == i;
    PaletteExact(WithTile(a2, i), c);
    assert c % 0x10 == c;
  }

  /** Read through the getters, the words setup writes are the position,
      tile, palette and horizontal flip of sprite (i, c), and the vertical
      flip is kept. */
  lemma {:induction false} PlacedFromPlaced(s: Sprite, w: Attrs, i: int, c: int)
    requires 0 <= i < NumSpritesPerColor && 0 <= c < NumColors
    requires PlacedFrom(s, w, i, c)
    ensures Placed(s, i, c)
    ensures VFlipOf(s.attr1) == VFlipOf(w.a1)
  {
    SetupAttr1(w.a1, i, c);
    YRoundTrip(w.a0, 80);
    SetupAttr2(w.a2, i, c);
  }

  /** What one frame's `setPos` leaves: the getters read back the stepped x
      and the wave's y, which stays within lines 36 .. 116, and both flips
      are kept. */
  lemma {:induction false} FrameWords(a0: Word16, a1: Word16, s: int)
    requires -0x1_0000 <= s <= 0x1_0000
    ensures XOf(WithX(a1, StepX(XOf(a1)))) == StepX(XOf(a1))
    ensures YOf(WithY(a0, WaveY(s))) == WaveY(s) && 36 <= WaveY(s) <= 116
    ensures HFlipOf(WithX(a1, StepX(XOf(a1)))) == HFlipOf(a1)
    ensures VFlipOf(WithX(a1, StepX(XOf(a1)))) == VFlipOf(a1)
  {
    StepXRange(XOf(a1));
    XRoundTrip(a1, StepX(XOf(a1)));
    WaveYRange(s);
    YRoundTrip(a0, WaveY(s));
    PosKeepsFlips(a1, StepX(XOf(a1)));
  }

  // ---------------------------------------------------------------------
  // The program

  /** The allocation half of one pass of the setup loop: with the slots
      below n taken, `newSprite` hands out the record of slot n. */
  method AllocateNext(mgr: SpriteManager, n: int) returns (sprite: Sprite)
    requires 0 <= n < NumSprites
    requires mgr.Valid() && TakenBelow(mgr.freeSprites[..], n)
    modifies mgr.freeSprites
    ensures mgr.Valid() && TakenBelow(mgr.freeSprites[..], n + 1)
    ensures sprite == mgr.sprites[n]
  {
    NextInOrder(mgr.freeSprites[..], n);
    var s := mgr.NewSprite();
    sprite := s;
  }

  /** The placement half: position (16i - 8c, 80), tile i, palette c and
      horizontal flip c & 1. */
  method Place(sprite: Sprite, i: int, c: int)
    requires 0 <= i < NumSpritesPerColor && 0 <= c < NumColors
    modifies sprite
    ensures sprite.attr0 == WithY(old(sprite.attr0), 80)
    ensures sprite.attr1 == WithHFlip(WithX(old(sprite.attr1), SetupX(i, c)), c % 2 == 1)
    ensures sprite.attr2 == WithPalette(WithTile(old(sprite.attr2), i), c)
    ensures sprite.attr3 == old(sprite.attr3)
    ensures AttrsOf(sprite) == SetupWords(old(AttrsOf(sprite)), i, c)
    ensures Placed(sprite, i, c) && VFlipOf(sprite.attr1) == VFlipOf(old(sprite.attr1))
  {
    ghost var w := AttrsOf(sprite);
    sprite.SetPos(SetupX(i, c), 80);
    sprite.SetTileIndex(i);
    sprite.SetPalette(c);
    sprite.SetHFlip(c % 2 == 1);
    PlacedFromPlaced(sprite, w, i, c);
  }

  /** The records of the slots setup has handed out so far (those below
      n) hold their sprites' words target, the table points at them, and
      the other records still hold their original words orig. */
  ghost predicate SetUpBelow(mgr: SpriteManager, sprites: array<Sprite?>, orig: seq<Attrs>, target: seq<Attrs>, n: int)
    requires mgr.Valid() && sprites.Length == NumShown && 0 <= n <= NumShown
    requires |orig| == |target| == NumSprites
    reads mgr, mgr.sprites, mgr.sprites[..], sprites
  {
    (forall k :: 0 <= k < n ==> Recorded(sprites[..], mgr.sprites[..], k)) &&
    (forall k :: 0 <= k < n ==> Holds(mgr.sprites, target, k)) &&
    (forall k :: n <= k < NumSprites ==> Holds(mgr.sprites, orig, k))
  }

  /** Placing sprite (i, c) in the record of its slot n changes that record
      from its original words to setup's, and no other record. */
  method PlaceAt(mgr: SpriteManager, ghost orig: seq<Attrs>, ghost target: seq<Attrs>, n: int, i: int, c: int)
    requires 0 <= i < NumSpritesPerColor && 0 <= c < NumColors && n == SetupSlot(i, c)
    requires mgr.Valid() && |orig| == |target| == NumSprites
    requires Target(orig, target, n)
    requires forall k :: 0 <= k < n ==> Holds(mgr.sprites, target, k)
    requires forall k :: n <= k < NumSprites ==> Holds(mgr.sprites, orig, k)
    modifies mgr.sprites[n]
    ensures forall k :: 0 <= k <= n ==> Holds(mgr.sprites, target, k)
    ensures forall k :: n < k < NumSprites ==> Holds(mgr.sprites, orig, k)
  {
    SetupSlotsDistinct(i, c, i, c);
    SlotOfSetup(i, c);
    var sprite := mgr.sprites[n];
    assert Holds(mgr.sprites, orig, n);
    assert AttrsOf(sprite) == orig[n];
    Place(sprite, i, c);
    assert Holds(mgr.sprites, target, n);
  }

  /** The allocation and placement of sprite (i, c): it takes the next
      slot and its record is placed; no other record changes. */
  method TakeAndPlace(mgr: SpriteManager, ghost orig: seq<Attrs>, ghost target: seq<Attrs>, i: int, c: int)
      returns (sprite: Sprite)
    requires 0 <= i < NumSpritesPerColor && 0 <= c < NumColors
    requires mgr.Valid() && TakenBelow(mgr.freeSprites[..], SetupSlot(i, c))
    requires |orig| == |target| == NumSprites && Target(orig, target, SetupSlot(i, c))
    requires forall k :: 0 <= k < SetupSlot(i, c) ==> Holds(mgr.sprites, target, k)
    requires forall k :: SetupSlot(i, c) <= k < NumSprites ==> Holds(mgr.sprites, orig, k)
    modifies mgr.freeSprites, mgr.sprites[SetupSlot(i, c)]
    ensures mgr.Valid() && TakenBelow(mgr.freeSprites[..], SetupSlot(i, c) + 1)
    ensures sprite == mgr.sprites[SetupSlot(i, c)]
    ensures forall k :: 0 <= k <= SetupSlot(i, c) ==> Holds(mgr.sprites, target, k)
    ensures forall k :: SetupSlot(i, c) < k < NumSprites ==> Holds(mgr.sprites, orig, k)
  {
    var n := SetupSlot(i, c);
    sprite := AllocateNext(mgr, n);
    PlaceAt(mgr, orig, target, n, i, c);
  }

  /** One pass of the inner setup loop: sprite (i, c) takes the next slot,
      is placed, and is recorded in the table. */
  method SetupCell(mgr: SpriteManager, sprites: array<Sprite?>, ghost orig: seq<Attrs>, ghost target: seq<Attrs>,
                   i: int, c: int)
    requires 0 <= i < NumSpritesPerColor && 0 <= c < NumColors && sprites.Length == NumShown
    requires mgr.Valid() && TakenBelow(mgr.freeSprites[..], SetupSlot(i, c))
    requires |orig| == |target| == NumSprites && Target(orig, target, SetupSlot(i, c))
    requires SetUpBelow(mgr, sprites, orig, target, SetupSlot(i, c))
    modifies mgr.freeSprites, mgr.sprites[SetupSlot(i, c)], sprites
    ensures mgr.Valid() && TakenBelow(mgr.freeSprites[..], SetupSlot(i, c) + 1)
    ensures SetUpBelow(mgr, sprites, orig, target, SetupSlot(i, c) + 1)
  {
    var sprite := TakeAndPlace(mgr, orig, target, i, c);
    RecordCell(mgr, sprites, i, c, sprite);
  }

  /** The table write of one pass of the inner setup loop:
      `sprites[(c << 4) + i]` is set to the record of the slot of (i, c),
      and the cells of the sprites set up before keep theirs. */
  method RecordCell(mgr: SpriteManager, sprites: array<Sprite?>, i: int, c: int, sprite: Sprite)
    requires 0 <= i < NumSpritesPerColor && 0 <= c < NumColors && sprites.Length == NumShown
    requires mgr.Valid() && sprite == mgr.sprites[SetupSlot(i, c)]
    requires forall k :: 0 <= k < SetupSlot(i, c) ==> Recorded(sprites[..], mgr.sprites[..], k)
    modifies sprites
    ensures forall k :: 0 <= k <= SetupSlot(i, c) ==> Recorded(sprites[..], mgr.sprites[..], k)
  {
    var n := SetupSlot(i, c);
    ghost var before := sprites[..];
    sprites[Cell(i, c)] := sprite;
    assert sprites[..] == before[Cell(i, c) := sprite];
    forall k | 0 <= k < n
      ensures Recorded(sprites[..], mgr.sprites[..], k)
    {
      assert Recorded(before, mgr.sprites[..], k);
      SlotsBefore(k, i, c);
      CellsDistinct(SlotRow(k), SlotColor(k), i, c);
    }
    SlotOfSetup(i, c);
    assert Recorded(sprites[..], mgr.sprites[..], n);
  }

  /** One pass of the outer setup loop: the six palettes of row i, which
      change the records of their six slots and no other. */
  method SetupRow(mgr: SpriteManager, sprites: array<Sprite?>, ghost orig: seq<Attrs>, ghost target: seq<Attrs>, i: int)
    requires 0 <= i < NumSpritesPerColor && sprites.Length == NumShown
    requires mgr.Valid() && TakenBelow(mgr.freeSprites[..], SetupSlot(i, 0))
    requires |orig| == |target| == NumSprites && forall k :: 0 <= k < NumShown ==> Target(orig, target, k)
    requires SetUpBelow(mgr, sprites, orig, target, SetupSlot(i, 0))
    modifies mgr.freeSprites, sprites, set c | 0 <= c < NumColors :: mgr.sprites[SetupSlot(i, c)]
    ensures mgr.Valid() && TakenBelow(mgr.freeSprites[..], SetupSlot(i, NumColors))
    ensures SetUpBelow(mgr, sprites, orig, target, SetupSlot(i, NumColors))
  {
    for c := 0 to NumColors
      invariant mgr.Valid()
      invariant TakenBelow(mgr.freeSprites[..], SetupSlot(i, c))
      invariant SetUpBelow(mgr, sprites, orig, target, SetupSlot(i, c))
    {
      SetupCell(mgr, sprites, orig, target, i, c);
      assert SetupSlot(i, c + 1) == SetupSlot(i, c) + 1;
    }
  }

  /** The sprite setup of `main`: for i from 15 down to 0 and each palette
      c, take a sprite from a fresh manager, place it at (16i - 8c, 80)
      with tile i, palette c and horizontal flip c & 1, and record it as
      `sprites[(c << 4) + i]`. No other bit of the records changes, and the
      records of slots 96 .. 127 stay as they were. */
  method Setup(mgr: SpriteManager) returns (sprites: array<Sprite?>)
    requires mgr.Valid() && mgr.freeSprites[..] == AllFree
    modifies mgr.freeSprites, mgr.sprites[..]
    ensures fresh(sprites) && sprites.Length == NumShown
    ensures TakenBelow(mgr.freeSprites[..], NumShown)
    ensures forall i, c :: 0 <= i < NumSpritesPerColor && 0 <= c < NumColors ==>
      sprites[Cell(i, c)] == mgr.sprites[SetupSlot(i, c)] && Placed(mgr.sprites[SetupSlot(i, c)], i, c)
    ensures forall i, c :: 0 <= i < NumSpritesPerColor && 0 <= c < NumColors ==>
      PlacedFrom(mgr.sprites[SetupSlot(i, c)], old(AttrsOf(mgr.sprites[SetupSlot(i, c)])), i, c)
    ensures forall i, c :: 0 <= i < NumSpritesPerColor && 0 <= c < NumColors ==>
      VFlipOf(mgr.sprites[SetupSlot(i, c)].attr1) == old(VFlipOf(mgr.sprites[SetupSlot(i, c)].attr1))
    ensures forall k :: NumShown <= k < NumSprites ==> AttrsOf(mgr.sprites[k]) == old(AttrsOf(mgr.sprites[k]))
    ensures forall k :: 0 <= k < NumShown ==> sprites[k] != null
    ensures forall a, b :: 0 <= a < b < NumShown ==> sprites[a] != sprites[b]
  {
    ghost var orig := AttrsUpTo(mgr.sprites, NumSprites);
    ghost var target := TargetsUpTo(orig, NumSprites);
    sprites := new Sprite?[NumShown](_ => null);
    FreshAllFree();
    SetupRows(mgr, sprites, orig, target);
    SetUpAll(mgr, sprites, orig, target);
  }

  /** The nested setup loop itself, over a table of 96 empty cells and a
      manager whose records hold the words orig and whose slots are all
      free. */
  method SetupRows(mgr: SpriteManager, sprites: array<Sprite?>, ghost orig: seq<Attrs>, ghost target: seq<Attrs>)
    requires mgr.Valid() && mgr.freeSprites[..] == AllFree && sprites.Length == NumShown
    requires |orig| == |target| == NumSprites && forall k :: 0 <= k < NumShown ==> Target(orig, target, k)
    requires forall k :: 0 <= k < NumSprites ==> Holds(mgr.sprites, orig, k)
    modifies mgr.freeSprites, mgr.sprites[..], sprites
    ensures mgr.Valid() && TakenBelow(mgr.freeSprites[..], NumShown)
    ensures SetUpBelow(mgr, sprites, orig, target, NumShown)
  {
    FreshAllFree();
    var i := NumSpritesPerColor - 1;
    while i >= 0
      invariant -1 <= i < NumSpritesPerColor
      invariant mgr.Valid()
      invariant TakenBelow(mgr.freeSprites[..], SetupSlot(i, 0))
      invariant SetUpBelow(mgr, sprites, orig, target, SetupSlot(i, 0))
    {
      SetupRow(mgr, sprites, orig, target, i);
      assert SetupSlot(i - 1, 0) == SetupSlot(i, NumColors);
      i := i - 1;
    }
  }

  /** Once all 96 slots are handed out: each table cell points at the
      record of its sprite's slot, which holds setup's words over its
      original ones; the other records hold their original words; and the
      table's entries are non-null and distinct. */
  lemma SetUpAll(mgr: SpriteManager, sprites: array<Sprite?>, orig: seq<Attrs>, target: seq<Attrs>)
    requires mgr.Valid() && sprites.Length == NumShown && |orig| == |target| == NumSprites
    requires forall k :: 0 <= k < NumShown ==> Target(orig, target, k)
    requires SetUpBelow(mgr, sprites, orig, target, NumShown)
    ensures forall i, c :: 0 <= i < NumSpritesPerColor && 0 <= c < NumColors ==>
      sprites[Cell(i, c)] == mgr.sprites[SetupSlot(i, c)] && Placed(mgr.sprites[SetupSlot(i, c)], i, c)
    ensures forall i, c :: 0 <= i < NumSpritesPerColor && 0 <= c < NumColors ==>
      PlacedFrom(mgr.sprites[SetupSlot(i, c)], orig[SetupSlot(i, c)], i, c)
    ensures forall i, c :: 0 <= i < NumSpritesPerColor && 0 <= c < NumColors ==>
      VFlipOf(mgr.sprites[SetupSlot(i, c)].attr1) == VFlipOf(orig[SetupSlot(i, c)].a1)
    ensures forall k :: NumShown <= k < NumSprites ==> AttrsOf(mgr.sprites[k]) == orig[k]
    ensures forall k :: 0 <= k < NumShown ==> sprites[k] != null
    ensures forall a, b :: 0 <= a < b < NumShown ==> sprites[a] != sprites[b]
  {
    forall i, c | 0 <= i < NumSpritesPerColor && 0 <= c < NumColors
      ensures sprites[Cell(i, c)] == mgr.sprites[SetupSlot(i, c)]
      ensures PlacedFrom(mgr.sprites[SetupSlot(i, c)], orig[SetupSlot(i, c)], i, c)
      ensures Placed(mgr.sprites[SetupSlot(i, c)], i, c)
      ensures VFlipOf(mgr.sprites[SetupSlot(i, c)].attr1) == VFlipOf(orig[SetupSlot(i, c)].a1)
    {
      var n := SetupSlot(i, c);
      SlotOfSetup(i, c);
      SetupSlotsDistinct(i, c, i, c);
      assert Recorded(sprites[..], mgr.sprites[..], n);
      assert Holds(mgr.sprites, target, n) && Target(orig, target, n);
      PlacedFromPlaced(mgr.sprites[n], orig[n], i, c);
    }
    forall k | NumShown <= k < NumSprites
      ensures AttrsOf(mgr.sprites[k]) == orig[k]
    {
      assert Holds(mgr.sprites, orig, k);
    }
    forall k | 0 <= k < NumShown
      ensures sprites[k] != null
    {
      CellOf(k);
    }
    forall a, b | 0 <= a < b < NumShown
      ensures sprites[a] != sprites[b]
    {
      CellOf(a);
      CellOf(b);
      SetupSlotsDistinct(a % 16, a / 16, b % 16, b / 16);
    }
  }

  /** What one frame does to the record of a sprite whose words were a0 ..
      a3 before: x steps right (wrapping past the right edge), y is set to
      the wave's value y, and the tile, palette and flips stay. */
  ghost predicate Moved(s: Sprite, a0: Word16, a1: Word16, a2: Word16, a3: Word16, y: int)
    reads s
  {
    s.attr0 == WithY(a0, y) && s.attr1 == WithX(a1, StepX(XOf(a1))) &&
    s.attr2 == a2 && s.attr3 == a3
  }

  /** The wave's y for sprite (i, c) in the frame whose counter is angle. */
  function WaveOf(angle: U32, i: int, c: int): int
    requires 0 <= i < NumSpritesPerColor && 0 <= c < NumColors
  {
    WaveY(FixSin(Phase(angle, i, c)))
  }

  /** Read through the getters: after a frame, a sprite has stepped one
      pixel right (wrapping), sits at the wave's y within lines 36 .. 116,
      and keeps its tile, palette and flips. */
  lemma {:induction false} AfterMove(s: Sprite, a0: Word16, a1: Word16, a2: Word16, a3: Word16,
                                     angle: U32, i: int, c: int)
    requires 0 <= i < NumSpritesPerColor && 0 <= c < NumColors
    requires Moved(s, a0, a1, a2, a3, WaveOf(angle, i, c))
    ensures s.X() == StepX(XOf(a1))
    ensures s.Y() == WaveOf(angle, i, c) && 36 <= s.Y() <= 116
    ensures s.TileIndex() == TileOf(a2) && PaletteOf(s.attr2) == PaletteOf(a2)
    ensures HFlipOf(s.attr1) == HFlipOf(a1) && VFlipOf(s.attr1) == VFlipOf(a1)
  {
    FixSinFacts(Phase(angle, i, c));
    FrameWords(a0, a1, FixSin(Phase(angle, i, c)));
  }

  /** The body of the frame loop for sprite (i, c): read x, step it, look
      up the sine of the phase and set the new position. */
  method Move(sprite: Sprite, fixsin: array<int>, angle: U32, i: int, c: int)
    requires 0 <= i < NumSpritesPerColor && 0 <= c < NumColors
    requires fixsin.Length == 360 && forall d :: 0 <= d < 360 ==> fixsin[d] == FixSin(d)
    modifies sprite
    ensures Moved(sprite, old(sprite.attr0), old(sprite.attr1), old(sprite.attr2), old(sprite.attr3),
                  WaveOf(angle, i, c))
  {
    ghost var a1 := sprite.attr1;
    var x := sprite.X() + 1;
    if x > ScreenWidth {
      x := x - (ScreenWidth + 8);
    }
    var aa := Phase(angle, i, c);
    FixSinFacts(aa);
    var y := WaveY(fixsin[aa]);
    StepXRange(XOf(a1));
    WaveYRange(fixsin[aa]);
    sprite.SetPos(x, y);
  }

  /** One pass of the outer frame loop: the six palettes of row i. The
      records of the other rows stay as they were. */
  method FrameRow(sprites: array<Sprite?>, fixsin: array<int>, angle: U32, i: int)
    requires 0 <= i < NumSpritesPerColor && sprites.Length == NumShown
    requires fixsin.Length == 360 && forall d :: 0 <= d < 360 ==> fixsin[d] == FixSin(d)
    requires forall k :: 0 <= k < NumShown ==> sprites[k] != null
    requires forall a, b :: 0 <= a < b < NumShown ==> sprites[a] != sprites[b]
    modifies sprites[..]
    ensures forall c :: 0 <= c < NumColors ==>
      Moved(sprites[Cell(i, c)], old(sprites[Cell(i, c)].attr0), old(sprites[Cell(i, c)].attr1),
            old(sprites[Cell(i, c)].attr2), old(sprites[Cell(i, c)].attr3), WaveOf(angle, i, c))
    ensures forall i', c :: 0 <= i' < NumSpritesPerColor && i' != i && 0 <= c < NumColors ==>
      unchanged(sprites[Cell(i', c)])
  {
    for c := 0 to NumColors
      invariant forall c' :: 0 <= c' < c ==>
        Moved(sprites[Cell(i, c')], old(sprites[Cell(i, c')].attr0), old(sprites[Cell(i, c')].attr1),
              old(sprites[Cell(i, c')].attr2), old(sprites[Cell(i, c')].attr3), WaveOf(angle, i, c'))
      invariant forall c' :: c <= c' < NumColors ==> unchanged(sprites[Cell(i, c')])
      invariant forall i', c' :: 0 <= i' < NumSpritesPerColor && i' != i && 0 <= c' < NumColors ==>
        unchanged(sprites[Cell(i', c')])
    {
      CellsDistinct(i, c, i, c);
      var sprite := sprites[Cell(i, c)];
      forall i', c' | 0 <= i' < NumSpritesPerColor && 0 <= c' < NumColors && (i' != i || c' != c)
        ensures sprites[Cell(i', c')] != sprite
      {
        CellsDistinct(i', c', i, c);
      }
      Move(sprite, fixsin, angle, i, c);
    }
  }

  /** One frame of the main loop: the counter `angle` is incremented (an
      `unsigned`, so modulo 2^32), then every sprite steps right and takes
      the y of its phase on the sine wave. */
  method Frame(sprites: array<Sprite?>, fixsin: array<int>, angle: U32) returns (next: U32)
    requires sprites.Length == NumShown
    requires fixsin.Length == 360 && forall d :: 0 <= d < 360 ==> fixsin[d] == FixSin(d)
    requires forall k :: 0 <= k < NumShown ==> sprites[k] != null
    requires forall a, b :: 0 <= a < b < NumShown ==> sprites[a] != sprites[b]
    modifies sprites[..]
    ensures next == (angle + 1) % 0x1_0000_0000
    ensures forall i, c :: 0 <= i < NumSpritesPerColor && 0 <= c < NumColors ==>
      Moved(sprites[Cell(i, c)], old(sprites[Cell(i, c)].attr0), old(sprites[Cell(i, c)].attr1),
            old(sprites[Cell(i, c)].attr2), old(sprites[Cell(i, c)].attr3), WaveOf(next, i, c))
  {
    next := (angle + 1) % 0x1_0000_0000;
    for i := 0 to NumSpritesPerColor
      invariant forall i', c :: 0 <= i' < i && 0 <= c < NumColors ==>
        Moved(sprites[Cell(i', c)], old(sprites[Cell(i', c)].attr0), old(sprites[Cell(i', c)].attr1),
              old(sprites[Cell(i', c)].attr2), old(sprites[Cell(i', c)].attr3), WaveOf(next, i', c))
      invariant forall i', c :: i <= i' < NumSpritesPerColor && 0 <= c < NumColors ==>
        unchanged(sprites[Cell(i', c)])
    {
      FrameRow(sprites, fixsin, next, i);
    }
  }
}
