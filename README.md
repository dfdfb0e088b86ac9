# color-sprites-gba: sprites, slot pool and sine wave, in Dafny

This project models the core of the Game Boy Advance demo color-sprites-gba.
The demo places 96 hardware sprites, 16 tiles in each of 6 palettes, on the
screen. Every frame it moves each sprite one pixel to the right and bobs it
on a sine wave.

The model has four modules:

- `SpriteAttr` (`sprite_attr.dfy`) is the `Sprite` record of
  `source/Sprite.hh`: four 16-bit attribute words, updated in place by
  masked read-modify-write setters. The class `Sprite` has those words as
  fields. Its setters are methods proved against word-level functions
  (`WithX`, `WithY`, `WithTile`, `WithPalette`, `WithHFlip`, `WithVFlip`),
  and its getters read the words back. The lemmas state the round trips,
  the sign extension of x and y, and that every setter leaves the bits of
  the other fields alone.
- `SpritePool` (`sprite_pool.dfy`) is the `SpriteManager` allocator: 128
  records and a bitmap of four 32-bit words in which a set bit marks a
  free slot. Slot k is bit 31 - k % 32 of word k / 32. `newSprite` is the
  method `NewSprite`, with its scan loop and `break`. It is proved to
  return the record of `FirstFree`, the specification of the scan.
  `FirstFree` in turn is proved to be the lowest free slot, or none exactly
  when every word is zero. `freeSprite` is modelled as written
  (`FreeSprite`) and as evidently intended (`ReleaseSprite`); see
  Findings.
- `SineTable` (`sine_table.dfy`) is the `SinCos` quarter-wave table and
  `initSinCosTables`. `BuildTable` is the fill loop, run on any quarter
  wave (90 entries rising strictly from 0). Its result is proved equal to
  `SineFrom`, the sine by quadrant symmetry. `InitSinCosTables` applies it
  to `SinCos`, which is proved to be such a quarter wave.
- `Animation` (`animation.dfy`) is `main` minus the hardware:
  - `Setup` is the nested setup loop.
  - `Frame` is one pass of the endless frame loop.
  - `SetupX`, `Phase`, `WaveY` and `StepX` are the per-sprite formulas.

  The loops and their bodies are split into small methods (`SetupRows`,
  `SetupRow`, `SetupCell`, `TakeAndPlace`, `AllocateNext`, `PlaceAt`,
  `Place`, `RecordCell`; `FrameRow`, `Move`) so that each proof stays
  small. Setup is specified on whole words: every record it hands out
  gets the words of its four setter calls over its old words, and every
  other record keeps its words.

Machine integers are integers with explicit wrap-around where the program
wraps:

- the `unsigned` phase sum is taken modulo 2^32;
- the setup x is narrowed from `unsigned` to `int16_t`;
- the negation in the table loop is spelled out on 32 bits.

The bitmap uses bit-vectors (`bv32` words, `bv7` slots).

## Model

| member | source | states |
|---|---|---|
| SpriteAttr.XOf | source/Sprite.hh:19-25 | `x()` always lies in [-256, 256) |
| SpriteAttr.YOf | source/Sprite.hh:27-33 | `y()` always lies in [-128, 128) |
| SpriteAttr.XOfField | source/Sprite.hh:19-25 | `x()` is the low 9 bits of attr1 read as a two's-complement number: bit 8 is the sign |
| SpriteAttr.XRoundTrip | source/Sprite.hh:11-25 | after `setPos(x, _)`, `x()` returns x wrapped into [-256, 256) by a multiple of 512, and bits 9-15 of attr1 are unchanged |
| SpriteAttr.YRoundTrip | source/Sprite.hh:11-33 | after `setPos(_, y)`, `y()` returns y wrapped into [-128, 128) by a multiple of 256, and the high byte of attr0 is unchanged |
| SpriteAttr.PosRoundTrip | source/Sprite.hh:11-33 | for x in [-256, 255] and y in [-128, 127], `setPos(x, y)` then `x()` and `y()` give back exactly x and y |
| SpriteAttr.PosKeepsFlips | source/Sprite.hh:15-16 | `setPos` keeps both flip bits of attr1 |
| SpriteAttr.HFlipExact | source/Sprite.hh:57-63 | `setHFlip(f)` makes bit 12 equal to f, keeps bits 0-11 (so `x()`) and bits 13-15 (so the vertical flip) |
| SpriteAttr.VFlipExact | source/Sprite.hh:49-55 | `setVFlip(f)` makes bit 13 equal to f, keeps bits 0-12 (so `x()` and the horizontal flip) and bits 14-15 |
| SpriteAttr.FlipsIdempotent | source/Sprite.hh:49-63 | setting the same flip twice is the same as setting it once |
| SpriteAttr.TileExact | source/Sprite.hh:35-42 | after `setTileIndex(n)`, `tileIndex() == n & 0x3ff`, and bits 10-15 (the palette among them) are unchanged |
| SpriteAttr.PaletteExact | source/Sprite.hh:44-47 | `setPalette(p)` puts `p & 0xf` in bits 12-15 and keeps bits 0-11, so `tileIndex()` is unchanged |
| SpriteAttr.WithY | source/Sprite.hh:12-13 | the attr0 that `setPos` writes; its meaning is stated by `YRoundTrip`: `y()` reads back y wrapped into [-128, 128), and the high byte is kept |
| SpriteAttr.WithX | source/Sprite.hh:15-16 | the attr1 that `setPos` writes; its meaning is stated by `XRoundTrip` (`x()` reads back x wrapped into [-256, 256), bits 9-15 kept) and `PosKeepsFlips` |
| SpriteAttr.WithTile | source/Sprite.hh:35-38 | the attr2 that `setTileIndex` writes; its meaning is stated by `TileExact` |
| SpriteAttr.TileOf | source/Sprite.hh:40-42 | `tileIndex()` is at most 0x3ff; `TileExact` states that it reads back what `setTileIndex` wrote |
| SpriteAttr.WithPalette | source/Sprite.hh:44-47 | the attr2 that `setPalette` writes; its meaning is stated by `PaletteExact` |
| SpriteAttr.WithVFlip | source/Sprite.hh:49-55 | the attr1 that `setVFlip` writes; its meaning is stated by `VFlipExact` and `FlipsIdempotent` |
| SpriteAttr.WithHFlip | source/Sprite.hh:57-63 | the attr1 that `setHFlip` writes; its meaning is stated by `HFlipExact` and `FlipsIdempotent` |
| SpriteAttr.Sprite.constructor | source/Sprite.hh:66-72 | all four words start at zero |
| SpriteAttr.Sprite.X | source/Sprite.hh:19-25 | the getter lies in [-256, 256) |
| SpriteAttr.Sprite.Y | source/Sprite.hh:27-33 | the getter lies in [-128, 128) |
| SpriteAttr.Sprite.TileIndex | source/Sprite.hh:40-42 | the getter lies in [0, 0x3ff] |
| SpriteAttr.Sprite.SetPos | source/Sprite.hh:11-17 | attr0 and attr1 become `WithY`/`WithX` of their old values; attr2 and attr3 are unchanged |
| SpriteAttr.Sprite.SetTileIndex | source/Sprite.hh:35-38 | attr2 becomes `WithTile` of its old value; the other words are unchanged |
| SpriteAttr.Sprite.SetPalette | source/Sprite.hh:44-47 | attr2 becomes `WithPalette` of its old value; the other words are unchanged |
| SpriteAttr.Sprite.SetVFlip | source/Sprite.hh:49-55 | attr1 becomes `WithVFlip` of its old value; the other words are unchanged |
| SpriteAttr.Sprite.SetHFlip | source/Sprite.hh:57-63 | attr1 becomes `WithHFlip` of its old value; the other words are unchanged |
| SpritePool.Clz | source/Sprite.hh:87 | the count c of leading zeros of a nonzero word leaves bit 31 - c as its highest set bit |
| SpritePool.SlotAtValue | source/Sprite.hh:88 | the slot found at bit `bit` (from the top) of word i is `bit + i * 32` |
| SpritePool.FoundInWord | source/Sprite.hh:86-88 | in a nonzero word, the slot of the highest set bit is free, and no slot before it from that word on is free |
| SpritePool.FirstFreeFrom | source/Sprite.hh:85-92 | the scan from word i finds a slot in word i or later |
| SpritePool.FirstFreeFromNone | source/Sprite.hh:85-92 | the scan from word i finds nothing exactly when every word from i on is zero |
| SpritePool.FirstFreeFromLowest | source/Sprite.hh:85-92 | what the scan from word i finds is free, and every slot before it from word i on is taken |
| SpritePool.FirstFree | source/Sprite.hh:84-93 | the slot `newSprite` picks, or none; `FirstFreeIsLowest`, `LowestIsFirst` and `FirstFreeNone` state that it is the lowest free slot, and none exactly when no slot is free |
| SpritePool.AfterNew | source/Sprite.hh:85-92 | the bitmap `newSprite` leaves, four words; it is the bitmap unchanged when `FirstFree` finds nothing and `Take` of the slot found otherwise; `TakeFound` states that it is the bitmap with the word the loop writes back |
| SpritePool.Take | source/Sprite.hh:89 | the bitmap with one bit cleared, four words; `TakeExact` states that exactly slot k becomes taken |
| SpritePool.FreeAsWritten | source/Sprite.hh:98-99 | the bitmap as `freeSprite` is written, four words; `FreeAsWrittenExact` states which slot it marks free |
| SpritePool.Release | source/Sprite.hh:96-100 | the bitmap as `freeSprite` is evidently meant, four words; `ReleaseExact` and `TakeReleaseRoundTrip` state that it frees exactly slot k and undoes `Take` |
| SpritePool.FirstFreeIsLowest | source/Sprite.hh:82-94 | `newSprite` picks a free slot with no free slot below it |
| SpritePool.FirstFreeNone | source/Sprite.hh:82-94 | `newSprite` returns null exactly when all four words are zero, exactly when no slot is free |
| SpritePool.LowestIsFirst | source/Sprite.hh:82-94 | conversely, the lowest free slot is the one `newSprite` picks |
| SpritePool.SkipZeroWords | source/Sprite.hh:85-92 | zero words before word i do not change what the scan finds |
| SpritePool.TakeAt | source/Sprite.hh:89 | clearing bit `31 - bit` of word i is taking slot `bit + 32 i`, and no other word changes |
| SpritePool.TakeFound | source/Sprite.hh:86-90 | on the first nonzero word, the index computed is the scan's answer and the word written back is the bitmap with that slot taken |
| SpritePool.TakeExact | source/Sprite.hh:89 | taking slot k marks exactly slot k taken |
| SpritePool.FreeAsWrittenExact | source/Sprite.hh:98-99 | as written, freeing slot k marks slot 31 - k / 8 free (always in word 0), clears no bit and changes nothing else |
| SpritePool.ReleaseExact | source/Sprite.hh:96-100 | the intended release of slot k marks exactly slot k free |
| SpritePool.TakeReleaseRoundTrip | source/Sprite.hh:89-99 | the intended release of a slot just taken restores the bitmap |
| SpritePool.FreshAllFree | source/Sprite.hh:117-120 | on a fresh bitmap every slot is free |
| SpritePool.FreshRecordsOffScreen | source/Sprite.hh:113-116 | a record as the constructor leaves it reads `x() == 240` and `y() == -96`, both off the 240 x 160 screen |
| SpritePool.FirstOfTakenBelow | source/Sprite.hh:82-94 | when exactly the slots below n are taken, `newSprite` picks slot n |
| SpritePool.NextInOrder | source/Sprite.hh:82-94 | when exactly the slots below n < 128 are taken, `newSprite` picks slot n, and afterwards exactly the slots below n + 1 are taken |
| SpritePool.ExhaustedNone | source/Sprite.hh:82-94 | once all 128 slots are taken, `newSprite` returns null |
| SpritePool.AllocateInOrder | source/Sprite.hh:82-121 | from a fresh manager, call n of `newSprite` (from 0) returns slot n for n < 128, and call 128 returns null |
| SpritePool.FreeThenAllocateSkips | source/Sprite.hh:82-100 | as written: allocate slot 0, free it, allocate again, and the result is slot 1, not 0 |
| SpritePool.FreeAsWrittenDoubleIssue | source/Sprite.hh:82-100 | as written: with slots 0..31 taken, freeing slot 0 marks slot 31 free while it is in use, and the next allocation hands out slot 31 again |
| SpritePool.ReleaseThenAllocateReuses | source/Sprite.hh:82-100 | with the intended release, the slot just freed is the next one allocated |
| SpritePool.SpriteManager.constructor | source/Sprite.hh:113-121 | 128 distinct fresh records, each moved to raw (240, 160), with tile, palette and attr3 zero; all four bitmap words are 0xffffffff |
| SpritePool.SpriteManager.NewSprite | source/Sprite.hh:82-94 | returns null when `FirstFree` finds nothing, otherwise the record of the slot it finds; the bitmap becomes `AfterNew` (that slot taken); no record changes |
| SpritePool.SpriteManager.TakeInWord | source/Sprite.hh:86-90 | on the first nonzero word, returns the slot `FirstFree` finds and leaves the bitmap with that slot taken |
| SpritePool.SpriteManager.FreeSprite | source/Sprite.hh:96-100 | as written: the record's raw position becomes (240, 160), and the bitmap becomes `FreeAsWritten` (bit `(k / 8) & 0x1f` of word `(k / 8) >> 5` set) |
| SpritePool.SpriteManager.ReleaseSprite | source/Sprite.hh:96-100 | intended: the record's raw position becomes (240, 160), and the bitmap becomes `Release` (the bit `newSprite` cleared is set again) |
| SineTable.NegatedEntryValue | source/main.cc:26-27 | `(s32)((~v + 1) \| 0xffff0000)` is -v for every nonzero entry v (the mask changes nothing then) and -65536 for zero |
| SineTable.NegatedEntry | source/main.cc:26-27 | the value of `(s32)((~v + 1) \| 0xffff0000)`; `NegatedEntryValue` states that it is -v for every nonzero entry |
| SineTable.QuarterWaveRises | source/main.cc:7-20 | the `SinCos` entries rise strictly |
| SineTable.RisingFromZero | source/main.cc:7-20 | in a table rising from 0, every entry after the first is positive |
| SineTable.SinCosIsQuarterWave | source/main.cc:7-20 | `SinCos` has 90 entries, starts at 0 and rises strictly, so entries 1..89 are nonzero |
| SineTable.SineFrom | source/main.cc:22-34 | the entry the fill loop leaves at d for a quarter wave t; `AxisValues`, `Mirror`, `HalfTurn`, `Range` and `QuarterRises` state that it is a sine by quadrant symmetry, and `BuildTable` that the loop computes it |
| SineTable.FixSin | source/main.cc:22-34 | `fixsin[d]` as `initSinCosTables` leaves it; `FixSinFacts` states its range, half turn, mirror and agreement with `SinCos` on 1..89 |
| SineTable.BuildTable | source/main.cc:22-34 | for any quarter wave, after the loop and the four axis writes, every entry d of the table is `SineFrom(t, d)`; every index read or written is in bounds |
| SineTable.InitSinCosTables | source/main.cc:22-34 | every entry d of `fixsin` is `FixSin(d)` |
| SineTable.AxisValues | source/main.cc:30-33 | the entries at 0, 90, 180 and 270 are 0, 65536, 0 and -65536 |
| SineTable.Mirror | source/main.cc:24-25 | sin(180 - d) = sin(d) for d in [0, 180] |
| SineTable.HalfTurn | source/main.cc:26-27 | sin(d + 180) = -sin(d) for d in [0, 180) |
| SineTable.Range | source/main.cc:22-34 | every entry lies in [-65536, 65536]; it is positive exactly for d in (0, 180) and negative exactly for d in (180, 360) |
| SineTable.QuarterRises | source/main.cc:23-24 | sin rises strictly from 0 to 90 degrees |
| SineTable.FixSinFacts | source/main.cc:22-34 | for the built table: range, half turn, mirror, and `fixsin[d] == SinCos[d]` for d in 1..89 |
| Animation.SetupX | source/main.cc:77 | `(16 * i) - (c * 8)` computed in `unsigned` and narrowed to `int16_t` is the signed 16i - 8c |
| Animation.CellsDistinct | source/main.cc:81 | the cells `(c << 4) + i` of distinct sprites are distinct and lie in [0, 96) |
| Animation.CellOf | source/main.cc:81 | every cell of the 96-entry table belongs to one sprite |
| Animation.SetupSlotsDistinct | source/main.cc:74-76 | sprite (i, c) receives slot (15 - i) * 6 + c; distinct sprites receive distinct slots, all below 96 |
| Animation.SlotOfSetup | source/main.cc:74-76 | slot (15 - i) * 6 + c goes back to row i and palette c |
| Animation.SlotsBefore | source/main.cc:74-76 | the slots handed out before sprite (i, c) belong to later rows, or to earlier palettes of row i |
| Animation.SetupAttr1 | source/main.cc:77-80 | after setup's `setPos` and `setHFlip`, `x()` is 16i - 8c and the horizontal flip is `c & 1` |
| Animation.SetupAttr2 | source/main.cc:78-79 | after setup's `setTileIndex` and `setPalette`, the tile is i and the palette c |
| Animation.SetupWords | source/main.cc:77-80 | the four words setup writes over a record's old words; `PlacedFromPlaced` states what they read back as |
| Animation.PlacedFromPlaced | source/main.cc:77-80 | a record holding setup's words reads back x 16i - 8c, y 80, tile i, palette c and horizontal flip `c & 1`, and keeps its vertical flip |
| Animation.AllocateNext | source/main.cc:76 | with the slots below n taken, `newSprite` returns the record of slot n and leaves the slots below n + 1 taken |
| Animation.Place | source/main.cc:77-80 | the record's four words become those of `setPos(16i - 8c, 80)`, `setTileIndex(i)`, `setPalette(c)` and `setHFlip(c & 1)` over its old words, attr3 unchanged; read back, x is 16i - 8c, y 80, tile i, palette c, horizontal flip `c & 1`, and the vertical flip is kept |
| Animation.PlaceAt | source/main.cc:76-80 | placing sprite (i, c) changes the record of its slot from its original words to setup's words, and no other record |
| Animation.TakeAndPlace | source/main.cc:76-80 | sprite (i, c) takes the next slot and its record gets setup's words; the records of earlier slots keep setup's words and those of later slots their original words |
| Animation.SetupCell | source/main.cc:75-82 | one inner pass: the next slot is taken, its record gets setup's words, and it is recorded at cell `(c << 4) + i`; the other records keep their words |
| Animation.RecordCell | source/main.cc:81 | `sprites[(c << 4) + i]` becomes the record of the slot of (i, c), and the cells of the sprites set up before keep theirs |
| Animation.SetupRow | source/main.cc:75-82 | the six palettes of row i are set up; only the records of their six slots may change |
| Animation.SetupRows | source/main.cc:74-82 | from all slots free, the nested loop takes exactly slots 0..95, gives each its sprite's words, records it in its cell, and leaves the records of slots 96..127 with their original words |
| Animation.SetUpAll | source/main.cc:73-83 | once all 96 slots are handed out, each cell points at the record of its sprite's slot, which holds setup's words over its original ones and reads back as placed; the other records hold their original words; the table's entries are non-null and distinct |
| Animation.Setup | source/main.cc:73-83 | from a fresh manager, exactly slots 0..95 are taken, and `sprites[(c << 4) + i]` is the record of slot (15 - i) * 6 + c; its words become setup's words over the old ones (position (16i - 8c, 80), tile i, palette c, horizontal flip `c & 1`, vertical flip and attr3 kept); the records of slots 96..127 keep their words; the 96 entries are non-null and distinct |
| Animation.Phase | source/main.cc:102 | the phase lies in [0, 360) for every 32-bit counter, wrap-around included |
| Animation.PhaseNoWrap | source/main.cc:102 | without wrap-around of the 32-bit sum, the phase is the plain sum modulo 360 |
| Animation.PhaseAdvances | source/main.cc:93-102 | from one frame to the next, the phase of a palette-c sprite advances by c + 1 degrees while the sum does not wrap |
| Animation.PhaseJumpsAtWrap | source/main.cc:93-102 | when the counter wraps from 2^32 - 1 to 0, the phase of sprite (0, 0) jumps from 255 to 0 |
| Animation.WaveYScaled | source/main.cc:103 | y is floor(fixsin[aa] * 40 / 65536) + 76 |
| Animation.WaveYRange | source/main.cc:103-104 | for a sine in [-65536, 65536], y lies in [36, 116], so it fits the 8-bit field unchanged |
| Animation.WaveYMonotone | source/main.cc:103 | y grows with the sine |
| Animation.WaveY | source/main.cc:103 | y from a sine value; `WaveYScaled`, `WaveYRange` and `WaveYMonotone` state that it is floor(s * 40 / 65536) + 76, lies in [36, 116] for every table value, and grows with the sine |
| Animation.StepXRange | source/main.cc:98-101 | the stepped x lies in [-255, 240], and is x + 1 whenever x < 240 |
| Animation.StepsXCycle | source/main.cc:98-101 | on the track [-7, 240], after k frames a sprite is at -7 + (x + 7 + k) mod 248 |
| Animation.StepsXPeriod | source/main.cc:98-101 | every 248 frames a sprite on the track is back where it was |
| Animation.StepX | source/main.cc:98-101 | the next x; `StepXRange`, `StepsXCycle` and `StepsXPeriod` state its range, its two branches and its 248-frame cycle |
| Animation.FrameWords | source/main.cc:98-104 | after a frame's `setPos`, `x()` reads back the stepped x and `y()` the wave's y (in [36, 116]), and both flips are kept |
| Animation.AfterMove | source/main.cc:96-104 | read through the getters, a moved sprite has stepped x, the wave's y in [36, 116], and its old tile, palette and flips |
| Animation.Move | source/main.cc:96-104 | the sprite's attr1 becomes `WithX(a1, StepX(x()))`, its attr0 becomes `WithY(a0, WaveY(fixsin[Phase]))`, and attr2 and attr3 are unchanged |
| Animation.FrameRow | source/main.cc:94-105 | the six sprites of row i are moved; the other rows are unchanged |
| Animation.Frame | source/main.cc:93-106 | the counter becomes `angle + 1` modulo 2^32, and every sprite (i, c) is moved with the phase of the new counter |

## Left out

- `updateAll` (source/Sprite.hh:102-104) is a DMA copy of the records to
  object attribute memory, a foreign hardware call. The model keeps the
  records in memory only.
- `instance()` (source/Sprite.hh:77-80) is a static singleton. The manager
  is passed to `Setup` explicitly. `Setup` requires all slots to be free,
  which holds in the program because setup is the manager's first use.
- The hardware set-up in `main` is not modelled: display control, tile
  pixels in VRAM, palette RAM, interrupt set-up and the wait for vertical
  blank (source/main.cc:39-70, 85-89, 108-110). These are writes to
  memory-mapped registers.
- The endless `for (;;)` loop (source/main.cc:92-111) is not modelled as a
  loop. `Frame` is one pass, taking the counter and returning the next
  one; `StepsXCycle` and `PhaseAdvances` state what repeated passes do.
- SpritePool.SpriteManager.FreeSprite: takes the record's slot number, the
  pointer difference `sprite - _sprites`, rather than a pointer. A pointer
  that does not point into the pool is not modelled.
- The signed shift `1 << 31` (source/Sprite.hh:89, 99) is modelled as an
  unsigned bit operation on `bv32`.
- The arithmetic right shift of a negative `int64_t` (source/main.cc:103)
  is modelled as floor division by 2^32.
- Narrowing to `int16_t` is modelled as wrap-around modulo 2^16.
- The quarter-wave table in source/main.cc:7-20 has 90 entries (0 to 89
  degrees), not 91 running up to 90 degrees. The model follows the code:
  only entries 1..89 are read, and sin(90) comes from the special case
  `fixsin[90] = 0x00010000`.
- `fixsin` entries (`s32`) are integers. Every entry lies in
  [-65536, 65536], so no 32-bit overflow can occur.

## Findings

| source | as written | input that shows it | evidently intended | confidence | as-written member | corrected member |
|---|---|---|---|---|---|---|
| source/Sprite.hh:98-99 | `freeSprite` divides the pointer difference, already an element count, by `sizeof(Sprite)` (8). It then sets bit `index & 0x1f` counted from the least significant end. `newSprite` counts from the most significant end. So freeing slot k marks slot 31 - k / 8 free. | On a fresh manager, allocate (slot 0), free it, and allocate again: the result is slot 1, not 0. With slots 0..31 allocated, freeing slot 0 marks slot 31 free while it is still in use, and the next allocation returns slot 31 a second time. | Set the bit `newSprite` cleared, bit 31 - k % 32 of word k / 32, so the freed slot becomes free again. | not executed | SpritePool.SpriteManager.FreeSprite, SpritePool.FreeAsWritten, SpritePool.FreeThenAllocateSkips, SpritePool.FreeAsWrittenDoubleIssue | SpritePool.SpriteManager.ReleaseSprite, SpritePool.Release, SpritePool.ReleaseExact, SpritePool.ReleaseThenAllocateReuses |
