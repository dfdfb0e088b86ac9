/** The 360-entry sine table of source/main.cc: `fixsin[d]` is sin(d degrees)
    in 16.16 fixed point, built by `initSinCosTables` from the first quarter
    wave `SinCos` by the symmetries of the sine. The table entries are
    `s32` and the quarter-wave entries `u16`, both modelled as integers;
    the 32-bit two's-complement steps of the negation the source writes out
    are spelled as arithmetic modulo 2^32.

    The table's own values matter to one lemma only (`SinCosIsQuarterWave`:
    it starts at 0 and rises strictly); everything else is proved for any
    quarter wave with that shape and then applied to `SinCos`. */
module SineTable {

  /** `u16` */
  type U16 = v: int | 0 <= v < 0x1_0000

  /** `unsigned` (32 bits) */
  type U32 = v: int | 0 <= v < 0x1_0000_0000

  /** `SinCos`: sin(d) * 65536 for d = 0 .. 89, rounded, as `u16`, kept as
      the twelve lines of eight entries the table is written in. */
  const Row0: seq<U16> := [0x0000, 0x0477, 0x08EF, 0x0D65, 0x11DB, 0x164F, 0x1AC2, 0x1F32]
  const Row1: seq<U16> := [0x23A0, 0x280C, 0x2C74, 0x30D8, 0x3539, 0x3996, 0x3DEE, 0x4241]
  const Row2: seq<U16> := [0x4690, 0x4AD8, 0x4F1B, 0x5358, 0x578E, 0x5BBE, 0x5FE6, 0x6406]
  const Row3: seq<U16> := [0x681F, 0x6C30, 0x7039, 0x7438, 0x782F, 0x7C1C, 0x7FFF, 0x83D9]
  const Row4: seq<U16> := [0x87A8, 0x8B6D, 0x8F27, 0x92D5, 0x9679, 0x9A10, 0x9D9B, 0xA11B]
  const Row5: seq<U16> := [0xA48D, 0xA7F3, 0xAB4C, 0xAE97, 0xB1D5, 0xB504, 0xB826, 0xBB39]
  const Row6: seq<U16> := [0xBE3E, 0xC134, 0xC41B, 0xC6F3, 0xC9BB, 0xCC73, 0xCF1B, 0xD1B3]
  const Row7: seq<U16> := [0xD43B, 0xD6B3, 0xD919, 0xDB6F, 0xDDB3, 0xDFE7, 0xE208, 0xE419]
  const Row8: seq<U16> := [0xE617, 0xE803, 0xE9DE, 0xEBA6, 0xED5B, 0xEEFF, 0xF08F, 0xF20D]
  const Row9: seq<U16> := [0xF378, 0xF4D0, 0xF615, 0xF746, 0xF865, 0xF970, 0xFA67, 0xFB4B]
  const Row10: seq<U16> := [0xFC1C, 0xFCD9, 0xFD82, 0xFE17, 0xFE98, 0xFF06, 0xFF60, 0xFFA6]
  const Row11: seq<U16> := [0xFFD8, 0xFFF6]

  const SinCos: seq<U16> :=
    Row0 + Row1 + Row2 + Row3 + Row4 + Row5 + Row6 + Row7 + Row8 + Row9 + Row10 + Row11

  // ---------------------------------------------------------------------
  // 32-bit arithmetic of the negation

  /** A 32-bit pattern read as `s32` (two's complement). */
  function Signed32(b: U32): int
  {
    if b < 0x8000_0000 then b else b - 0x1_0000_0000
  }

  /** `~b` on 32 bits. */
  function Not32(b: U32): U32
  {
    0xffff_ffff - b
  }

  /** `a + b` on 32 bits, wrapping. */
  function Add32(a: U32, b: U32): U32
  {
    (a + b) % 0x1_0000_0000
  }

  /** `b | 0xffff0000`: the upper sixteen bits set, the lower kept. */
  function OrUpperHalf(b: U32): U32
  {
    0xffff_0000 + b % 0x1_0000
  }

  /** `(s32)((~v + 1) | 0xffff0000)` for a `u16` entry v, promoted to a
      32-bit `int` before the complement. */
  function NegatedEntry(v: U16): int
  {
    Signed32(OrUpperHalf(Add32(Not32(v), 1)))
  }

  /** The upper-half mask changes nothing for a nonzero entry, whose
      negation already has all upper bits set; for zero it gives -65536
      instead of 0. */
  lemma NegatedEntryValue(v: U16)
    ensures v != 0 ==> NegatedEntry(v) == -(v as int)
    ensures v == 0 ==> NegatedEntry(v) == -0x1_0000
  {
  }

  // ---------------------------------------------------------------------
  // The quarter wave, entry by entry: one case split over the entries,
  // cut into blocks of 15 (see QuarterWaveRises)

  lemma Rises0(i: int)
    requires 0 <= i < 15
    ensures SinCos[i] < SinCos[i + 1]
  {
    assert i == 0 || i == 1 || i == 2 || i == 3 || i == 4 || i == 5 || i == 6 || i == 7 ||
      i == 8 || i == 9 || i == 10 || i == 11 || i == 12 || i == 13 || i == 14;
  }

  lemma Rises15(i: int)
    requires 15 <= i < 30
    ensures SinCos[i] < SinCos[i + 1]
  {
    assert i == 15 || i == 16 || i == 17 || i == 18 || i == 19 || i == 20 || i == 21 || i == 22 ||
      i == 23 || i == 24 || i == 25 || i == 26 || i == 27 || i == 28 || i == 29;
  }

  lemma Rises30(i: int)
    requires 30 <= i < 45
    ensures SinCos[i] < SinCos[i + 1]
  {
    assert i == 30 || i == 31 || i == 32 || i == 33 || i == 34 || i == 35 || i == 36 || i == 37 ||
      i == 38 || i == 39 || i == 40 || i == 41 || i == 42 || i == 43 || i == 44;
  }

  lemma Rises45(i: int)
    requires 45 <= i < 60
    ensures SinCos[i] < SinCos[i + 1]
  {
    assert i == 45 || i == 46 || i == 47 || i == 48 || i == 49 || i == 50 || i == 51 || i == 52 ||
      i == 53 || i == 54 || i == 55 || i == 56 || i == 57 || i == 58 || i == 59;
  }

  lemma Rises60(i: int)
    requires 60 <= i < 75
    ensures SinCos[i] < SinCos[i + 1]
  {
    assert i == 60 || i == 61 || i == 62 || i == 63 || i == 64 || i == 65 || i == 66 || i == 67 ||
      i == 68 || i == 69 || i == 70 || i == 71 || i == 72 || i == 73 || i == 74;
  }

  lemma Rises75(i: int)
    requires 75 <= i < 89
    ensures SinCos[i] < SinCos[i + 1]
  {
    assert i == 75 || i == 76 || i == 77 || i == 78 || i == 79 || i == 80 || i == 81 || i == 82 ||
      i == 83 || i == 84 || i == 85 || i == 86 || i == 87 || i == 88;
  }

  /** The quarter wave rises strictly. The proof checks every pair of
      neighbouring entries; it is cut into the six blocks `Rises0` ..
      `Rises75` because one case split over all 89 pairs is too large for
      the solver to finish in one proof. */
  lemma QuarterWaveRises(i: int)
    requires 0 <= i < 89
    ensures SinCos[i] < SinCos[i + 1]
  {
    if i < 15 { Rises0(i); }
    else if i < 30 { Rises15(i); }
    else if i < 45 { Rises30(i); }
    else if i < 60 { Rises45(i); }
    else if i < 75 { Rises60(i); }
    else { Rises75(i); }
  }

  /** What `initSinCosTables` relies on in a quarter-wave table: 90
      entries rising strictly from 0, so all but the first are positive. */
  ghost predicate QuarterWave(t: seq<U16>)
  {
    |t| == 90 && t[0] == 0 &&
    (forall i :: 0 <= i < 89 ==> t[i] < t[i + 1]) &&
    (forall i :: 1 <= i < 90 ==> t[i] > 0)
  }

  /** Every entry after the first is positive in a table that rises from 0. */
  lemma {:induction false} RisingFromZero(t: seq<U16>, i: int)
    requires |t| == 90 && t[0] == 0 && forall j :: 0 <= j < 89 ==> t[j] < t[j + 1]
    requires 1 <= i < 90
    ensures t[i] > 0
  {
    if i > 1 {
      RisingFromZero(t, i - 1);
    }
  }

  /** `SinCos` is such a table. */
  lemma SinCosIsQuarterWave()
    ensures QuarterWave(SinCos)
  {
    forall i | 0 <= i < 89
      ensures SinCos[i] < SinCos[i + 1]
    {
      QuarterWaveRises(i);
    }
    forall i | 1 <= i < 90
      ensures SinCos[i] > 0
    {
      RisingFromZero(SinCos, i);
    }
  }

  // ---------------------------------------------------------------------
  // The full wave

  /** sin(d) in 16.16 fixed point for a whole number of degrees
      0 <= d < 360, by the symmetries of the sine from the quarter wave t:
      the reference the table is built to match. */
  function SineFrom(t: seq<U16>, d: int): int
    requires |t| == 90 && 0 <= d < 360
  {
    if d == 0 || d == 180 then 0
    else if d == 90 then 0x1_0000
    else if d == 270 then -0x1_0000
    else if d < 90 then t[d]
    else if d < 180 then t[180 - d]
    else if d < 270 then -(t[d - 180] as int)
    else -(t[360 - d] as int)
  }

  /** The contents of `fixsin` once it is built. */
  function FixSin(d: int): int
    requires 0 <= d < 360
  {
    SineFrom(SinCos, d)
  }

  /** The entries the loop of `initSinCosTables` has written before its
      step i: i - 1 entries after each of 0, 90, 180 and 270. */
  predicate Filled(d: int, i: int)
  {
    0 < d < i || 90 < d < 90 + i || 180 < d < 180 + i || 270 < d < 270 + i
  }

  /** The body of `initSinCosTables`, reading the quarter wave t: for
      i = 1 .. 89 fill the four quadrants, then the four axis values;
      afterwards entry d is sin(d) as `SineFrom` has it. */
  method BuildTable(t: seq<U16>, fixsin: array<int>)
    requires QuarterWave(t) && fixsin.Length == 360
    modifies fixsin
    ensures forall d :: 0 <= d < 360 ==> fixsin[d] == SineFrom(t, d)
  {
    for i := 1 to 90
      invariant forall d :: 0 <= d < 360 && Filled(d, i) ==> fixsin[d] == SineFrom(t, d)
    {
      NegatedEntryValue(t[i]);
      NegatedEntryValue(t[90 - i]);
      fixsin[i] := t[i];
      fixsin[i + 90] := t[90 - i];
      fixsin[i + 180] := NegatedEntry(t[i]);
      fixsin[i + 270] := NegatedEntry(t[90 - i]);
    }
    fixsin[90] := 0x0001_0000;
    fixsin[180] := 0x0000_0000;
    fixsin[270] := Signed32(0xffff_0000);
    fixsin[0] := 0x0000_0000;
  }

  /** `initSinCosTables`: the table built from `SinCos`. */
  method InitSinCosTables(fixsin: array<int>)
    requires fixsin.Length == 360
    modifies fixsin
    ensures forall d :: 0 <= d < 360 ==> fixsin[d] == FixSin(d)
  {
    SinCosIsQuarterWave();
    BuildTable(SinCos, fixsin);
  }

  // ---------------------------------------------------------------------
  // What the table promises, for any quarter wave

  /** The four axis entries. */
  lemma AxisValues(t: seq<U16>)
    requires |t| == 90
    ensures SineFrom(t, 0) == 0 && SineFrom(t, 90) == 0x1_0000
    ensures SineFrom(t, 180) == 0 && SineFrom(t, 270) == -0x1_0000
  {
  }

  /** sin(180 - d) = sin(d) over the upper half wave. */
  lemma Mirror(t: seq<U16>, d: int)
    requires |t| == 90 && 0 <= d <= 180
    ensures SineFrom(t, 180 - d) == SineFrom(t, d)
  {
  }

  /** sin(d + 180) = -sin(d). */
  lemma HalfTurn(t: seq<U16>, d: int)
    requires |t| == 90 && 0 <= d < 180
    ensures SineFrom(t, d + 180) == -SineFrom(t, d)
  {
  }

  /** Every entry lies in [-1, 1] in 16.16 fixed point, and is positive
      exactly on the upper half wave, negative exactly on the lower. */
  lemma Range(t: seq<U16>, d: int)
    requires QuarterWave(t) && 0 <= d < 360
    ensures -0x1_0000 <= SineFrom(t, d) <= 0x1_0000
    ensures SineFrom(t, d) > 0 <==> 0 < d < 180
    ensures SineFrom(t, d) < 0 <==> 180 < d < 360
  {
  }

  /** sin rises strictly from 0 to 90 degrees. */
  lemma QuarterRises(t: seq<U16>, d: int)
    requires QuarterWave(t) && 0 <= d < 90
    ensures SineFrom(t, d) < SineFrom(t, d + 1)
  {
  }

  /** The four facts for the table `initSinCosTables` builds. */
  lemma FixSinFacts(d: int)
    requires 0 <= d < 360
    ensures -0x1_0000 <= FixSin(d) <= 0x1_0000
    ensures d < 180 ==> FixSin(d + 180) == -FixSin(d)
    ensures d <= 180 ==> FixSin(180 - d) == FixSin(d)
    ensures 1 <= d < 90 ==> FixSin(d) == SinCos[d]
  {
    SinCosIsQuarterWave();
    Range(SinCos, d);
    if d < 180 {
      HalfTurn(SinCos, d);
    }
    if d <= 180 {
      Mirror(SinCos, d);
    }
  }
}
