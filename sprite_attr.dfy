/** The packed object-attribute record of one hardware sprite (`Sprite` in
    source/Sprite.hh). Each of the four attribute words is a `uint16_t`,
    modelled as an integer in [0, 2^16). Every setter is a masked
    read-modify-write of one word, so a field write never disturbs the bits
    of another field.

    Layout:
      attr0 bits 0-7    y, sign bit 7            setPos keeps 0xff00
      attr1 bits 0-8    x, sign bit 8            setPos keeps 0xfe00
      attr1 bit 12      horizontal flip          0x1000
      attr1 bit 13      vertical flip            0x2000
      attr2 bits 0-9    tile index               0x03ff
      attr2 bits 12-15  palette                  0xf000
      attr3             never written

    The masks are written as the arithmetic they perform on a 16-bit word:
    `w & 0xff00` is `w / 0x100 * 0x100` (clear the low 8 bits), `w & 0x1ff`
    is `w % 0x200` (keep the low 9 bits), and an OR of bits that are known
    to be clear in `w` is an addition. */
module SpriteAttr {

  /** Screen size of the platform (mode 0), used as the off-screen position. */
  const ScreenWidth: int := 240
  const ScreenHeight: int := 160

  /** `uint16_t` */
  type Word16 = w: int | 0 <= w < 0x1_0000

  /** `int16_t` */
  type Int16 = v: int | -0x8000 <= v < 0x8000

  /** `uint8_t` */
  type Byte = v: int | 0 <= v < 0x100

  /** The value of a 16-bit pattern converted to `int16_t` (two's complement). */
  function Signed16(w: Word16): Int16
  {
    if w < 0x8000 then w else w - 0x1_0000
  }

  /** The number a 9-bit two's-complement field holds once `v` is stored in
      it: `v` brought into [-256, 256) by a multiple of 512. */
  function Wrap9(v: int): (r: int)
    ensures -256 <= r < 256
    ensures (r - v) % 0x200 == 0
  {
    (v + 0x100) % 0x200 - 0x100
  }

  /** The number an 8-bit two's-complement field holds once `v` is stored in
      it: `v` brought into [-128, 128) by a multiple of 256. */
  function Wrap8(v: int): (r: int)
    ensures -128 <= r < 128
    ensures (r - v) % 0x100 == 0
  {
    (v + 0x80) % 0x100 - 0x80
  }

  // ---------------------------------------------------------------------
  // Word-level meaning of each accessor of `Sprite`

  /** attr0 after `setPos(_, y)`: `(a0 & 0xff00) | (y & 0xff)`. */
  function WithY(a0: Word16, y: int): Word16
  {
    a0 / 0x100 * 0x100 + y % 0x100
  }

  /** attr1 after `setPos(x, _)`: `(a1 & 0xfe00) | (x & 0x1ff)`. */
  function WithX(a1: Word16, x: int): Word16
  {
    a1 / 0x200 * 0x200 + x % 0x200
  }

  /** `x()`: the low 9 bits of attr1; when bit 8 is set, bits 9-15 are
      filled with ones (`| 0xfe00`) before the word is read as `int16_t`. */
  function XOf(a1: Word16): (r: Int16)
    ensures -256 <= r < 256
  {
    var x := a1 % 0x200;
    if x / 0x100 % 2 == 1 then Signed16(x + 0xfe00) else Signed16(x)
  }

  /** `y()`: the low 8 bits of attr0; when bit 7 is set, bits 8-15 are
      filled with ones (`| 0xff00`) before the word is read as `int16_t`. */
  function YOf(a0: Word16): (r: Int16)
    ensures -128 <= r < 128
  {
    var y := a0 % 0x100;
    if y / 0x80 % 2 == 1 then Signed16(y + 0xff00) else Signed16(y)
  }

  /** attr2 after `setTileIndex(index)`: `(a2 & ~0x03ff) | (index & 0x03ff)`. */
  function WithTile(a2: Word16, index: Word16): Word16
  {
    a2 / 0x400 * 0x400 + index % 0x400
  }

  /** `tileIndex()`: `a2 & 0x03ff`. */
  function TileOf(a2: Word16): (r: Word16)
    ensures r <= 0x3ff
  {
    a2 % 0x400
  }

  /** attr2 after `setPalette(index)`: `(a2 & ~0xf000) | ((index & 0xf) << 12)`. */
  function WithPalette(a2: Word16, index: Byte): Word16
  {
    a2 % 0x1000 + index % 0x10 * 0x1000
  }

  /** The palette nibble, bits 12-15 of attr2 (the source has no getter). */
  function PaletteOf(a2: Word16): int
  {
    a2 / 0x1000
  }

  /** Bit 12 (horizontal flip) and bit 13 (vertical flip) of attr1. */
  function HFlipOf(a1: Word16): bool
  {
    a1 / 0x1000 % 2 == 1
  }

  function VFlipOf(a1: Word16): bool
  {
    a1 / 0x2000 % 2 == 1
  }

  /** attr1 after `setHFlip(flag)`: `a1 | 0x1000` or `a1 & ~0x1000`. */
  function WithHFlip(a1: Word16, flag: bool): Word16
  {
    if flag then (if HFlipOf(a1) then a1 else a1 + 0x1000)
    else (if HFlipOf(a1) then a1 - 0x1000 else a1)
  }

  /** attr1 after `setVFlip(flag)`: `a1 | 0x2000` or `a1 & ~0x2000`. */
  function WithVFlip(a1: Word16, flag: bool): Word16
  {
    if flag then (if VFlipOf(a1) then a1 else a1 + 0x2000)
    else (if VFlipOf(a1) then a1 - 0x2000 else a1)
  }

  // ---------------------------------------------------------------------
  // Position: round trips and untouched bits

  /** `x()` is the 9-bit field read as a two's-complement number. */
  lemma XOfField(a1: Word16)
    ensures XOf(a1) == Wrap9(a1 % 0x200) && XOf(a1) % 0x200 == a1 % 0x200
  {
  }

  /** Storing x and reading it back yields x wrapped into [-256, 256), and
      the bits setPos keeps in attr1 (the flips among them) are unchanged. */
  lemma XRoundTrip(a1: Word16, x: int)
    ensures XOf(WithX(a1, x)) == Wrap9(x)
    ensures WithX(a1, x) / 0x200 == a1 / 0x200
  {
  }

  /** Storing y and reading it back yields y wrapped into [-128, 128), and
      the high byte of attr0 is unchanged. */
  lemma YRoundTrip(a0: Word16, y: int)
    ensures YOf(WithY(a0, y)) == Wrap8(y)
    ensures WithY(a0, y) / 0x100 == a0 / 0x100
  {
  }

  /** Inside the field ranges, `setPos` followed by `x()` and `y()` gives
      back exactly what was stored. */
  lemma {:induction false} PosRoundTrip(a0: Word16, a1: Word16, x: int, y: int)
    requires -256 <= x < 256 && -128 <= y < 128
    ensures XOf(WithX(a1, x)) == x && YOf(WithY(a0, y)) == y
  {
    XRoundTrip(a1, x);
    YRoundTrip(a0, y);
  }

  /** Bits 9-15 of attr1, which setPos keeps, hold both flips. */
  lemma {:induction false} PosKeepsFlips(a1: Word16, x: int)
    ensures HFlipOf(WithX(a1, x)) == HFlipOf(a1)
    ensures VFlipOf(WithX(a1, x)) == VFlipOf(a1)
  {
    var q := a1 / 0x200;
    AboveNine(a1, q, a1 % 0x200);
    AboveNine(WithX(a1, x), q, x % 0x200);
  }

  // ---------------------------------------------------------------------
  // Quotient and remainder by a power of two, read off a decomposition

  lemma DivMod9(w: int, k: int, l: int)
    requires 0 <= l < 0x200 && w == k * 0x200 + l
    ensures w / 0x200 == k && w % 0x200 == l
  {
  }

  lemma DivMod12(w: int, k: int, l: int)
    requires 0 <= l < 0x1000 && w == k * 0x1000 + l
    ensures w / 0x1000 == k && w % 0x1000 == l
  {
  }

  lemma DivMod13(w: int, k: int, l: int)
    requires 0 <= l < 0x2000 && w == k * 0x2000 + l
    ensures w / 0x2000 == k && w % 0x2000 == l
  {
  }

  lemma DivMod14(w: int, k: int, l: int)
    requires 0 <= l < 0x4000 && w == k * 0x4000 + l
    ensures w / 0x4000 == k && w % 0x4000 == l
  {
  }

  /** Bits 12 and 13 of a word whose bits 9-15 are `q`. */
  lemma AboveNine(w: int, q: int, l: int)
    requires 0 <= l < 0x200 && w == q * 0x200 + l
    ensures w / 0x1000 == q / 8 && w / 0x2000 == q / 16
  {
  }

  /** A word split around bit 12: `q` above it, `b` the bit, `l` below. */
  lemma {:induction false} AroundBit12(w: int, q: int, b: int, l: int)
    requires 0 <= l < 0x1000 && 0 <= b <= 1 && w == q * 0x2000 + b * 0x1000 + l
    ensures w % 0x1000 == l && w / 0x1000 % 2 == b && w / 0x2000 == q
    ensures w % 0x200 == l % 0x200
  {
    DivMod12(w, q * 2 + b, l);
    DivMod13(w, q, b * 0x1000 + l);
    DivMod9(w, q * 16 + b * 8 + l / 0x200, l % 0x200);
  }

  /** A word split around bit 13: `q` above it, `b` the bit, `l` below. */
  lemma {:induction false} AroundBit13(w: int, q: int, b: int, l: int)
    requires 0 <= l < 0x2000 && 0 <= b <= 1 && w == q * 0x4000 + b * 0x2000 + l
    ensures w % 0x2000 == l && w / 0x2000 % 2 == b && w / 0x4000 == q
    ensures w / 0x1000 % 2 == l / 0x1000
    ensures w % 0x200 == l % 0x200
  {
    var h := q * 2 + b;
    assert w == h * 0x2000 + l;
    DivMod13(w, h, l);
    assert h % 2 == b;
    DivMod14(w, q, b * 0x2000 + l);
    Bit12Below13(w, h, l);
    Low9Below13(w, h, l);
  }

  /** Bit 12 of a word whose bits 0-12 are `l` is bit 12 of `l`. */
  lemma {:induction false} Bit12Below13(w: int, h: int, l: int)
    requires 0 <= l < 0x2000 && w == h * 0x2000 + l
    ensures w / 0x1000 % 2 == l / 0x1000
  {
    var t := l / 0x1000;
    assert 0 <= t <= 1 && l == t * 0x1000 + l % 0x1000;
    assert w == (h * 2 + t) * 0x1000 + l % 0x1000;
    DivMod12(w, h * 2 + t, l % 0x1000);
    assert (h * 2 + t) % 2 == t;
  }

  /** Bits 0-8 of a word whose bits 0-12 are `l` are those of `l`. */
  lemma {:induction false} Low9Below13(w: int, h: int, l: int)
    requires 0 <= l < 0x2000 && w == h * 0x2000 + l
    ensures w % 0x200 == l % 0x200
  {
    assert l == l / 0x200 * 0x200 + l % 0x200;
    assert w == (h * 16 + l / 0x200) * 0x200 + l % 0x200;
    DivMod9(w, h * 16 + l / 0x200, l % 0x200);
  }

  lemma Split12(w: Word16)
    ensures w == w / 0x2000 * 0x2000 + w / 0x1000 % 2 * 0x1000 + w % 0x1000
  {
  }

  lemma Split13(w: Word16)
    ensures w == w / 0x4000 * 0x4000 + w / 0x2000 % 2 * 0x2000 + w % 0x2000
  {
  }

  // ---------------------------------------------------------------------
  // Flips: each writes exactly its own bit

  /** `setHFlip(flag)` makes bit 12 equal to `flag` and keeps every other
      bit of attr1: bits 0-11 (so `x()`) and bits 13-15 (so the vertical
      flip). */
  lemma {:induction false} HFlipExact(a1: Word16, flag: bool)
    ensures HFlipOf(WithHFlip(a1, flag)) == flag
    ensures WithHFlip(a1, flag) % 0x1000 == a1 % 0x1000
    ensures WithHFlip(a1, flag) / 0x2000 == a1 / 0x2000
    ensures XOf(WithHFlip(a1, flag)) == XOf(a1)
    ensures VFlipOf(WithHFlip(a1, flag)) == VFlipOf(a1)
  {
    var q, l := a1 / 0x2000, a1 % 0x1000;
    Split12(a1);
    AroundBit12(a1, q, a1 / 0x1000 % 2, l);
    AroundBit12(WithHFlip(a1, flag), q, if flag then 1 else 0, l);
  }

  /** `setVFlip(flag)` makes bit 13 equal to `flag` and keeps every other
      bit of attr1: bits 0-12 (so `x()` and the horizontal flip) and bits
      14-15. */
  lemma {:induction false} VFlipExact(a1: Word16, flag: bool)
    ensures VFlipOf(WithVFlip(a1, flag)) == flag
    ensures WithVFlip(a1, flag) % 0x2000 == a1 % 0x2000
    ensures WithVFlip(a1, flag) / 0x4000 == a1 / 0x4000
    ensures XOf(WithVFlip(a1, flag)) == XOf(a1)
    ensures HFlipOf(WithVFlip(a1, flag)) == HFlipOf(a1)
  {
    var q, l := a1 / 0x4000, a1 % 0x2000;
    Split13(a1);
    AroundBit13(a1, q, a1 / 0x2000 % 2, l);
    AroundBit13(WithVFlip(a1, flag), q, if flag then 1 else 0, l);
  }

  /** Writing the same flag twice is the same as writing it once. */
  lemma {:induction false} FlipsIdempotent(a1: Word16, flag: bool)
    ensures WithHFlip(WithHFlip(a1, flag), flag) == WithHFlip(a1, flag)
    ensures WithVFlip(WithVFlip(a1, flag), flag) == WithVFlip(a1, flag)
  {
    HFlipExact(a1, flag);
    VFlipExact(a1, flag);
  }

  // ---------------------------------------------------------------------
  // Tile index and palette share attr2 without overlapping

  /** `setTileIndex(index)` stores `index & 0x3ff` and keeps bits 10-15,
      the palette among them. */
  lemma TileExact(a2: Word16, index: Word16)
    ensures TileOf(WithTile(a2, index)) == index % 0x400
    ensures WithTile(a2, index) / 0x400 == a2 / 0x400
    ensures PaletteOf(WithTile(a2, index)) == PaletteOf(a2)
  {
  }

  /** `setPalette(index)` stores `index & 0xf` in bits 12-15 and keeps
      bits 0-11, the tile index among them. */
  lemma PaletteExact(a2: Word16, index: Byte)
    ensures PaletteOf(WithPalette(a2, index)) == index % 0x10
    ensures WithPalette(a2, index) % 0x1000 == a2 % 0x1000
    ensures TileOf(WithPalette(a2, index)) == TileOf(a2)
  {
  }

  // ---------------------------------------------------------------------

  /** One hardware sprite: four 16-bit attribute words updated in place. */
  class Sprite {
    var attr0: Word16
    var attr1: Word16
    var attr2: Word16
    var attr3: Word16

    /** Every word starts at zero (the in-class initialisers). */
    constructor ()
      ensures attr0 == 0 && attr1 == 0 && attr2 == 0 && attr3 == 0
    {
      attr0, attr1, attr2, attr3 := 0, 0, 0, 0;
    }

    /** `x()` */
    function X(): (r: int)
      reads this
      ensures -256 <= r < 256
    {
      XOf(attr1)
    }

    /** `y()` */
    function Y(): (r: int)
      reads this
      ensures -128 <= r < 128
    {
      YOf(attr0)
    }

    /** `tileIndex()` */
    function TileIndex(): (r: int)
      reads this
      ensures 0 <= r <= 0x3ff
    {
      TileOf(attr2)
    }

    method SetPos(x: Int16, y: Int16)
      modifies this
      ensures attr0 == WithY(old(attr0), y) && attr1 == WithX(old(attr1), x)
      ensures attr2 == old(attr2) && attr3 == old(attr3)
    {
      attr0 := attr0 / 0x100 * 0x100;     // _attr0 &= 0xff00
      attr0 := attr0 + y % 0x100;         // _attr0 |= (y & 0xff)
      attr1 := attr1 / 0x200 * 0x200;     // _attr1 &= 0xfe00
      attr1 := attr1 + x % 0x200;         // _attr1 |= (x & 0x1ff)
    }

    method SetTileIndex(index: Word16)
      modifies this
      ensures attr2 == WithTile(old(attr2), index)
      ensures attr0 == old(attr0) && attr1 == old(attr1) && attr3 == old(attr3)
    {
      attr2 := attr2 / 0x400 * 0x400;     // _attr2 &= ~0x03ff
      attr2 := attr2 + index % 0x400;     // _attr2 |= index & 0x03ff
    }

    method SetPalette(index: Byte)
      modifies this
      ensures attr2 == WithPalette(old(attr2), index)
      ensures attr0 == old(attr0) && attr1 == old(attr1) && attr3 == old(attr3)
    {
      attr2 := attr2 % 0x1000;                  // _attr2 &= ~0xf000
      attr2 := attr2 + index % 0x10 * 0x1000;   // _attr2 |= (index & 0xf) << 12
    }

    method SetVFlip(flag: bool)
      modifies this
      ensures attr1 == WithVFlip(old(attr1), flag)
      ensures attr0 == old(attr0) && attr2 == old(attr2) && attr3 == old(attr3)
    {
      if flag {
        if !VFlipOf(attr1) {                    // _attr1 |= 0x2000
          attr1 := attr1 + 0x2000;
        }
      } else {
        if VFlipOf(attr1) {                     // _attr1 &= ~0x2000
          attr1 := attr1 - 0x2000;
        }
      }
    }

    method SetHFlip(flag: bool)
      modifies this
      ensures attr1 == WithHFlip(old(attr1), flag)
      ensures attr0 == old(attr0) && attr2 == old(attr2) && attr3 == old(attr3)
    {
      if flag {
        if !HFlipOf(attr1) {                    // _attr1 |= 0x1000
          attr1 := attr1 + 0x1000;
        }
      } else {
        if HFlipOf(attr1) {                     // _attr1 &= ~0x1000
          attr1 := attr1 - 0x1000;
        }
      }
    }
  }
}
