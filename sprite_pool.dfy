/** The sprite slot allocator (`SpriteManager` in source/Sprite.hh): a pool
    of 128 sprite records and a bitmap of four 32-bit words in which a set
    bit marks a free slot. Slot k lives in word k / 32 at bit 31 - k % 32,
    so the lowest free slot is found with a count of leading zeros.

    Slot numbers are 7-bit values (`Slot`), word indexes 2-bit or 3-bit
    values and bit positions 5-bit values: everything the bitmap does is
    then bit-vector arithmetic, and `k as int` gives the slot as a number. */
module SpritePool {
  import opened SpriteAttr

  datatype Option<T> = None | Some(value: T)

  /** `NumSprites` */
  const NumSprites: int := 128

  /** A slot number, 0 to 127. */
  type Slot = bv7

  /** The bitmap word that holds slot k: k / 32. */
  function WordOf(k: Slot): bv2
  {
    (k >> 5) as bv2
  }

  /** The bit of that word that stands for slot k: 31 - k % 32. */
  function BitOf(k: Slot): bv5
  {
    31 - (k & 31) as bv5
  }

  /** Slot `c + 32 * i`: bit 31 - c of word i. */
  function SlotAt(i: bv2, c: bv5): (k: Slot)
    ensures WordOf(k) == i && BitOf(k) == 31 - c
  {
    ((i as bv7) << 5) | (c as bv7)
  }

  lemma SlotAtValue(i: bv2, c: bv5)
    ensures SlotAt(i, c) as int == 32 * i as int + c as int
  {
  }

  predicate HasBit(w: bv32, b: bv5)
  {
    (w >> b) & 1 == 1
  }

  /** Slot k is free in the bitmap `words`. */
  predicate IsFree(words: seq<bv32>, k: Slot)
    requires |words| == 4
  {
    HasBit(words[WordOf(k)], BitOf(k))
  }

  /** The bitmap of a fresh manager: every slot free. */
  const AllFree: seq<bv32> := [0xffff_ffff, 0xffff_ffff, 0xffff_ffff, 0xffff_ffff]

  // ---------------------------------------------------------------------
  // Count of leading zeros

  /** `__builtin_clz` of a nonzero word, found by halving the window five
      times: bit 31 - c is the highest bit that is set. */
  function Clz(w: bv32): (c: bv5)
    requires w != 0
    ensures w >> (31 - c) == 1
  {
    var z4 := w >> 16 == 0;
    var w4 := if z4 then w << 16 else w;
    var z3 := w4 >> 24 == 0;
    var w3 := if z3 then w4 << 8 else w4;
    var z2 := w3 >> 28 == 0;
    var w2 := if z2 then w3 << 4 else w3;
    var z1 := w2 >> 30 == 0;
    var w1 := if z1 then w2 << 2 else w2;
    var z0 := w1 >> 31 == 0;
    (if z4 then 16 else 0) + (if z3 then 8 else 0) + (if z2 then 4 else 0) +
    (if z1 then 2 else 0) + (if z0 then 1 else 0)
  }

  lemma TopBitSet(w: bv32, t: bv5)
    requires w >> t == 1
    ensures HasBit(w, t)
  {
  }

  lemma AboveTopClear(w: bv32, t: bv5, b: bv5)
    requires w >> t == 1 && b > t
    ensures !HasBit(w, b)
  {
  }

  // ---------------------------------------------------------------------
  // The search of `newSprite`

  /** The slot `newSprite` picks among words i.. : in the first nonzero
      word, the slot of its highest set bit. */
  function FirstFreeFrom(words: seq<bv32>, i: bv3): (r: Option<Slot>)
    requires |words| == 4 && i <= 4
    ensures r.Some? ==> i <= WordOf(r.value) as bv3
    decreases 4 - i
  {
    if i == 4 then None
    else if words[i] != 0 then Some(SlotAt(i as bv2, Clz(words[i])))
    else FirstFreeFrom(words, i + 1)
  }

  function FirstFree(words: seq<bv32>): Option<Slot>
    requires |words| == 4
  {
    FirstFreeFrom(words, 0)
  }

  lemma ZeroWordNotFree(words: seq<bv32>, k: Slot)
    requires |words| == 4 && words[WordOf(k)] == 0
    ensures !IsFree(words, k)
  {
  }

  lemma EarlierSlotEarlierWord(k: Slot, s: Slot)
    requires k < s
    ensures WordOf(k) <= WordOf(s)
  {
  }

  lemma SameWordOrder(k: Slot, s: Slot)
    requires WordOf(k) == WordOf(s) && k < s
    ensures BitOf(k) > BitOf(s)
  {
  }

  lemma {:induction false} BeforeTopInWord(words: seq<bv32>, i: bv2, k: Slot, t: bv5)
    requires |words| == 4 && words[i] >> t == 1
    requires WordOf(k) == i && k < SlotAt(i, 31 - t)
    ensures !IsFree(words, k)
  {
    SameWordOrder(k, SlotAt(i, 31 - t));
    AboveTopClear(words[i], t, BitOf(k));
  }

  /** In a nonzero word whose highest set bit is t, the slot of t is free
      and every slot before it, from that word on, is taken. */
  lemma {:induction false} FoundInWord(words: seq<bv32>, i: bv2, t: bv5)
    requires |words| == 4 && words[i] >> t == 1
    ensures IsFree(words, SlotAt(i, 31 - t))
    ensures forall j: Slot :: WordOf(j) >= i && j < SlotAt(i, 31 - t) ==> !IsFree(words, j)
  {
    var k := SlotAt(i, 31 - t);
    TopBitSet(words[i], t);
    forall j: Slot | WordOf(j) >= i && j < k
      ensures !IsFree(words, j)
    {
      EarlierSlotEarlierWord(j, k);
      BeforeTopInWord(words, i, j, t);
    }
  }

  /** The search fails exactly when every word from i on is zero. */
  lemma {:induction false} FirstFreeFromNone(words: seq<bv32>, i: bv3)
    requires |words| == 4 && i <= 4
    ensures FirstFreeFrom(words, i).None? <==> forall j: bv3 | i <= j < 4 :: words[j] == 0
    decreases 4 - i
  {
    if i < 4 && words[i] == 0 {
      FirstFreeFromNone(words, i + 1);
    }
  }

  /** What the search finds is free, and every slot before it, from word i
      on, is taken. */
  lemma {:induction false} FirstFreeFromLowest(words: seq<bv32>, i: bv3)
    requires |words| == 4 && i <= 4 && FirstFreeFrom(words, i).Some?
    ensures IsFree(words, FirstFreeFrom(words, i).value)
    ensures forall k: Slot :: WordOf(k) as bv3 >= i && k < FirstFreeFrom(words, i).value ==> !IsFree(words, k)
    decreases 4 - i
  {
    if words[i] != 0 {
      FoundInWord(words, i as bv2, 31 - Clz(words[i]));
    } else {
      FirstFreeFromLowest(words, i + 1);
      forall k: Slot | WordOf(k) as bv3 >= i && k < FirstFreeFrom(words, i + 1).value
        ensures !IsFree(words, k)
      {
        if WordOf(k) as bv3 == i {
          ZeroWordNotFree(words, k);
        }
      }
    }
  }

  /** `newSprite` returns the lowest free slot: it is free and every
      lower slot is taken. */
  lemma {:induction false} FirstFreeIsLowest(words: seq<bv32>)
    requires |words| == 4 && FirstFree(words).Some?
    ensures IsFree(words, FirstFree(words).value)
    ensures forall k: Slot :: k < FirstFree(words).value ==> !IsFree(words, k)
  {
    FirstFreeFromLowest(words, 0);
  }

  /** `newSprite` returns null exactly when no slot is free, which is
      exactly when all four words are zero. */
  lemma {:induction false} FirstFreeNone(words: seq<bv32>)
    requires |words| == 4
    ensures FirstFree(words).None? <==> (forall j: bv3 | j < 4 :: words[j] == 0)
    ensures FirstFree(words).None? <==> (forall k: Slot :: !IsFree(words, k))
  {
    FirstFreeFromNone(words, 0);
    if FirstFree(words).Some? {
      FirstFreeIsLowest(words);
    } else {
      forall k: Slot
        ensures !IsFree(words, k)
      {
        ZeroWordNotFree(words, k);
      }
    }
  }

  // ---------------------------------------------------------------------
  // Marking slots taken and free

  /** The bitmap after `newSprite` takes slot k:
      `_freeSprites[i] &= ~(1 << (31 - bit))`. */
  function Take(words: seq<bv32>, k: Slot): (r: seq<bv32>)
    requires |words| == 4
    ensures |r| == 4
  {
    words[WordOf(k) := words[WordOf(k)] & !(1 << BitOf(k))]
  }

  /** Taking slot k marks exactly slot k taken. */
  lemma TakeExact(words: seq<bv32>, k: Slot, j: Slot)
    requires |words| == 4
    ensures IsFree(Take(words, k), j) <==> IsFree(words, j) && j != k
  {
  }

  /** The bitmap after `freeSprite` on the sprite in slot k, as written:
      the index computed from the pointer difference is divided by
      `sizeof(Sprite)` a second time, so the bit set is `(k / 8) & 0x1f`
      of word `(k / 8) >> 5`, counted from the least significant end. */
  function FreeAsWritten(words: seq<bv32>, k: Slot): (r: seq<bv32>)
    requires |words| == 4
    ensures |r| == 4
  {
    var index: bv32 := (k as bv32) / 8;
    words[index >> 5 := words[index >> 5] | (1 << (index & 0x1f))]
  }

  /** As written, freeing slot k marks slot 31 - k / 8 free, and nothing
      else changes. */
  lemma FreeAsWrittenExact(words: seq<bv32>, k: Slot, j: Slot)
    requires |words| == 4
    ensures IsFree(FreeAsWritten(words, k), j) <==> IsFree(words, j) || j == 31 - k / 8
  {
  }

  /** The evidently intended `freeSprite`: set the bit that `newSprite`
      cleared, bit 31 - k % 32 of word k / 32. */
  function Release(words: seq<bv32>, k: Slot): (r: seq<bv32>)
    requires |words| == 4
    ensures |r| == 4
  {
    words[WordOf(k) := words[WordOf(k)] | (1 << BitOf(k))]
  }

  /** Releasing slot k marks exactly slot k free. */
  lemma ReleaseExact(words: seq<bv32>, k: Slot, j: Slot)
    requires |words| == 4
    ensures IsFree(Release(words, k), j) <==> IsFree(words, j) || j == k
  {
  }

  lemma ClearThenSet(w: bv32, b: bv5)
    requires HasBit(w, b)
    ensures (w & !(1 << b)) | (1 << b) == w
  {
  }

  /** Releasing a slot that was just taken restores the bitmap. */
  lemma {:induction false} TakeReleaseRoundTrip(words: seq<bv32>, k: Slot)
    requires |words| == 4 && IsFree(words, k)
    ensures Release(Take(words, k), k) == words
  {
    ClearThenSet(words[WordOf(k)], BitOf(k));
  }

  // ---------------------------------------------------------------------
  // Allocation in order

  /** Slots below n are taken and slots from n on are free. */
  ghost predicate TakenBelow(words: seq<bv32>, n: int)
    requires |words| == 4
  {
    forall k: Slot :: IsFree(words, k) <==> k as int >= n
  }

  lemma FreshAllFree()
    ensures TakenBelow(AllFree, 0)
  {
  }

  /** A free slot with no free slot below it is what `newSprite` returns. */
  lemma {:induction false} LowestIsFirst(words: seq<bv32>, k: Slot)
    requires |words| == 4 && IsFree(words, k)
    requires forall j: Slot :: j < k ==> !IsFree(words, j)
    ensures FirstFree(words) == Some(k)
  {
    FirstFreeNone(words);
    FirstFreeIsLowest(words);
  }

  /** The free slot with the least number is at least n when every slot
      below n is taken, and at most n when slot n is free. */
  lemma {:induction false} FirstOfTakenBelow(words: seq<bv32>, n: int)
    requires |words| == 4 && 0 <= n < NumSprites && TakenBelow(words, n)
    ensures FirstFree(words).Some? && FirstFree(words).value as int == n
  {
    assert IsFree(words, 127);
    FirstFreeNone(words);
    var r := FirstFree(words).value;
    FirstFreeIsLowest(words);
    assert r as int >= n;
    assert r == 0 || !IsFree(words, r - 1);
  }

  /** When exactly the slots below n < 128 are taken, `newSprite` returns
      slot n and afterwards exactly the slots below n + 1 are taken. */
  lemma {:induction false} NextInOrder(words: seq<bv32>, n: int)
    requires |words| == 4 && 0 <= n < NumSprites && TakenBelow(words, n)
    ensures FirstFree(words).Some? && FirstFree(words).value as int == n
    ensures TakenBelow(Take(words, FirstFree(words).value), n + 1)
  {
    FirstOfTakenBelow(words, n);
    var k := FirstFree(words).value;
    forall j: Slot
      ensures IsFree(Take(words, k), j) <==> j as int >= n + 1
    {
      TakeExact(words, k, j);
    }
  }

  /** Once all 128 slots are taken, `newSprite` returns null. */
  lemma {:induction false} ExhaustedNone(words: seq<bv32>)
    requires |words| == 4 && TakenBelow(words, NumSprites)
    ensures FirstFree(words).None?
  {
    FirstFreeNone(words);
  }

  /** On a fresh manager, the n-th call of `newSprite` (counting from 0)
      returns slot n for every n < 128, and the 129th returns null. */
  lemma {:induction false} AllocateInOrder(n: nat)
    requires n <= NumSprites
    ensures TakenBelow(Allocated(n), n)
    ensures n < NumSprites ==> FirstFree(Allocated(n)).Some? && FirstFree(Allocated(n)).value as int == n
    ensures n == NumSprites ==> FirstFree(Allocated(n)).None?
  {
    if n == 0 {
      FreshAllFree();
    } else {
      AllocateInOrder(n - 1);
      NextInOrder(Allocated(n - 1), n - 1);
    }
    if n < NumSprites {
      NextInOrder(Allocated(n), n);
    } else {
      ExhaustedNone(Allocated(n));
    }
  }

  /** The bitmap after n calls of `newSprite` on a fresh manager. */
  function Allocated(n: nat): (r: seq<bv32>)
    ensures |r| == 4
  {
    if n == 0 then AllFree
    else
      var w := Allocated(n - 1);
      match FirstFree(w)
      case None => w
      case Some(k) => Take(w, k)
  }

  // ---------------------------------------------------------------------
  // Consequences of `freeSprite` as written

  /** Allocating slot 0, freeing it and allocating again returns slot 1:
      the freed bit (bit 0 of word 0) is slot 31's, which was still free. */
  lemma FreeThenAllocateSkips()
    ensures FirstFree(AllFree) == Some(0)
    ensures FirstFree(FreeAsWritten(Take(AllFree, 0), 0)) == Some(1)
  {
  }

  /** With slots 0 to 31 taken, freeing slot 0 marks slot 31 free while it
      is still in use, so the next allocation hands out slot 31 twice. */
  lemma {:induction false} FreeAsWrittenDoubleIssue()
    ensures !IsFree(Allocated(32), 31)
    ensures FirstFree(FreeAsWritten(Allocated(32), 0)) == Some(31)
  {
    AllocateInOrder(32);
    var w := FreeAsWritten(Allocated(32), 0);
    forall j: Slot
      ensures IsFree(w, j) <==> j as int >= 32 || j == 31
    {
      FreeAsWrittenExact(Allocated(32), 0, j);
    }
    LowestIsFirst(w, 31);
  }

  /** With the intended `freeSprite`, the slot just freed is the next one
      allocated. */
  lemma {:induction false} ReleaseThenAllocateReuses(words: seq<bv32>)
    requires |words| == 4 && FirstFree(words).Some?
    ensures FirstFree(Release(Take(words, FirstFree(words).value), FirstFree(words).value)) == FirstFree(words)
  {
    FirstFreeIsLowest(words);
    TakeReleaseRoundTrip(words, FirstFree(words).value);
  }

  /** The bitmap after one call of `newSprite`. */
  function AfterNew(words: seq<bv32>): (r: seq<bv32>)
    requires |words| == 4
    ensures |r| == 4
  {
    match FirstFree(words)
    case None => words
    case Some(k) => Take(words, k)
  }

  /** Zero words before word i do not change what the search finds. */
  lemma {:induction false} SkipZeroWords(words: seq<bv32>, i: bv3)
    requires |words| == 4 && i <= 4
    requires forall j: bv3 | j < i :: words[j] == 0
    ensures FirstFree(words) == FirstFreeFrom(words, i)
    decreases i
  {
    if i > 0 {
      SkipZeroWords(words, i - 1);
    }
  }

  /** Taking the slot of bit `bit` (from the top) of word i clears that bit
      of that word and changes no other word. */
  lemma TakeAt(words: seq<bv32>, i: bv3, bit: bv5)
    requires |words| == 4 && i < 4
    ensures Take(words, SlotAt(i as bv2, bit)) == words[i := words[i] & !(1 << (31 - bit))]
  {
    assert WordOf(SlotAt(i as bv2, bit)) as int == i as int;
  }

  /** The step of `newSprite` that finds word i nonzero, after words
      0..i-1 were found zero: the slot it computes is the search's answer,
      and the word it writes back gives the bitmap with that slot taken. */
  lemma {:induction false} TakeFound(words: seq<bv32>, i: bv3, bit: bv5)
    requires |words| == 4 && i < 4 && words[i] != 0 && bit == Clz(words[i])
    requires FirstFree(words) == FirstFreeFrom(words, i)
    ensures FirstFree(words).Some?
    ensures FirstFree(words).value as int == bit as int + i as int * 32
    ensures AfterNew(words) == words[i := words[i] & !(1 << (31 - bit))]
  {
    SlotAtValue(i as bv2, bit);
    assert FirstFree(words) == Some(SlotAt(i as bv2, bit));
    TakeAt(words, i, bit);
  }

  // ---------------------------------------------------------------------

  /** A record as the constructor leaves it reads back x() == 240, the
      first column past the right edge, and y() == -96: the 8-bit field
      holds 160, whose bit 7 is set, so the getter sign-extends it. Both
      are off the visible 240 x 160 screen. */
  lemma FreshRecordsOffScreen()
    ensures XOf(WithX(0, ScreenWidth)) == 240 && XOf(WithX(0, ScreenWidth)) >= ScreenWidth
    ensures YOf(WithY(0, ScreenHeight)) == -96 && YOf(WithY(0, ScreenHeight)) < 0
  {
    XRoundTrip(0, ScreenWidth);
    YRoundTrip(0, ScreenHeight);
  }

  /** The pool itself: the records and the bitmap, updated in place. */
  class SpriteManager {
    const sprites: array<Sprite>
    const freeSprites: array<bv32>

    /** 128 distinct records and four bitmap words. */
    ghost predicate Valid()
      reads this, sprites
    {
      sprites.Length == NumSprites && freeSprites.Length == 4 &&
      forall a, b :: 0 <= a < b < NumSprites ==> sprites[a] != sprites[b]
    }

    /** Every record is moved off screen to (240, 160) and every slot is
        marked free. */
    constructor ()
      ensures Valid() && fresh(sprites) && fresh(freeSprites)
      ensures freeSprites[..] == AllFree
      ensures forall k :: 0 <= k < NumSprites ==> fresh(sprites[k])
      ensures forall k :: 0 <= k < NumSprites ==>
        sprites[k].attr0 == WithY(0, ScreenHeight) && sprites[k].attr1 == WithX(0, ScreenWidth) &&
        sprites[k].attr2 == 0 && sprites[k].attr3 == 0
    {
      var pool: seq<Sprite> := [];
      for i := 0 to NumSprites
        invariant |pool| == i
        invariant forall k :: 0 <= k < i ==> fresh(pool[k])
        invariant forall a, b :: 0 <= a < b < i ==> pool[a] != pool[b]
        invariant forall k :: 0 <= k < i ==>
          pool[k].attr0 == WithY(0, ScreenHeight) && pool[k].attr1 == WithX(0, ScreenWidth) &&
          pool[k].attr2 == 0 && pool[k].attr3 == 0
      {
        var sprite := new Sprite();
        sprite.SetPos(ScreenWidth, ScreenHeight);
        pool := pool + [sprite];
      }
      sprites := new Sprite[NumSprites](k requires 0 <= k < NumSprites => pool[k]);
      freeSprites := new bv32[4](_ => 0xffff_ffff);
    }

    /** `newSprite`: scan the words in order; in the first nonzero one,
        take the slot of its highest set bit. */
    method NewSprite() returns (s: Sprite?)
      requires Valid()
      modifies freeSprites
      ensures s == (match FirstFree(old(freeSprites[..]))
                    case None => null
                    case Some(k) => sprites[k])
      ensures freeSprites[..] == AfterNew(old(freeSprites[..]))
    {
      ghost var words := freeSprites[..];
      var index := -1;
      var i: bv3 := 0;
      while i < 4
        invariant i <= 4 && index == -1
        invariant freeSprites[..] == words
        invariant forall j: bv3 | j < i :: words[j] == 0
        decreases 4 - i
      {
        if freeSprites[i] != 0 {
          index := TakeInWord(i);
          break;
        }
        i := i + 1;
      }
      if index == -1 {
        FirstFreeNone(words);
      }
      s := if index == -1 then null else sprites[index];
    }

    /** One step of `newSprite`'s scan, on the first nonzero word i: the
        slot of its most significant set bit is taken and returned. */
    method TakeInWord(i: bv3) returns (index: int)
      requires Valid() && i < 4 && freeSprites[i] != 0
      requires forall j: bv3 | j < i :: freeSprites[j] == 0
      modifies freeSprites
      ensures FirstFree(old(freeSprites[..])).Some?
      ensures index == FirstFree(old(freeSprites[..])).value as int
      ensures freeSprites[..] == AfterNew(old(freeSprites[..]))
    {
      ghost var words := freeSprites[..];
      var w := i as int;
      var bit := Clz(freeSprites[w]);
      index := bit as int + i as int * 32;
      SkipZeroWords(words, i);
      TakeFound(words, i, bit);
      freeSprites[w] := freeSprites[w] & !(1 << (31 - bit));
    }

    /** `freeSprite`, as written: move the record off screen, then set bit
        `(k / 8) & 0x1f` of word `(k / 8) >> 5`, where k is the record's
        slot, the pointer difference `sprite - _sprites`. */
    method FreeSprite(slot: Slot)
      requires Valid()
      modifies sprites[slot], freeSprites
      ensures Valid()
      ensures freeSprites[..] == FreeAsWritten(old(freeSprites[..]), slot)
      ensures sprites[slot].attr0 == WithY(old(sprites[slot].attr0), ScreenHeight)
      ensures sprites[slot].attr1 == WithX(old(sprites[slot].attr1), ScreenWidth)
      ensures sprites[slot].attr2 == old(sprites[slot].attr2)
      ensures sprites[slot].attr3 == old(sprites[slot].attr3)
    {
      sprites[slot].SetPos(ScreenWidth, ScreenHeight);
      var index: bv32 := (slot as bv32) / 8;
      freeSprites[index >> 5] := freeSprites[index >> 5] | (1 << (index & 0x1f));
    }

    /** The evidently intended `freeSprite`: move the record off screen and
        set the very bit `newSprite` cleared for its slot. */
    method ReleaseSprite(slot: Slot)
      requires Valid()
      modifies sprites[slot], freeSprites
      ensures Valid()
      ensures freeSprites[..] == Release(old(freeSprites[..]), slot)
      ensures sprites[slot].attr0 == WithY(old(sprites[slot].attr0), ScreenHeight)
      ensures sprites[slot].attr1 == WithX(old(sprites[slot].attr1), ScreenWidth)
      ensures sprites[slot].attr2 == old(sprites[slot].attr2)
      ensures sprites[slot].attr3 == old(sprites[slot].attr3)
    {
      sprites[slot].SetPos(ScreenWidth, ScreenHeight);
      freeSprites[WordOf(slot)] := freeSprites[WordOf(slot)] | (1 << BitOf(slot));
    }
  }
}
