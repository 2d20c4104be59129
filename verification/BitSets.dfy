/** The two bit sets of the code, each shown to be the mathematical set it stands for. */
module BitSets {

  // -------- EndpointBitSet (src/bitset.rs) --------

  /** The slot of an endpoint address: its number and its direction.  Bits 4 to 6 take no part. */
  function Slot(ep: bv8): bv8 {
    ((ep & 0x0f) << 1) | (ep >> 7)
  }

  function Mask(ep: bv8): bv32 {
    1 << Slot(ep)
  }

  /** The word has the bit of this slot. */
  predicate HasSlot(w: bv32, slot: bv8) {
    slot < 32 && w & (1 << slot) != 0
  }

  lemma SlotIsNumberAndDirection(a: bv8, b: bv8)
    ensures Slot(a) < 32
    ensures Slot(a) == Slot(b) <==> a & 0x8f == b & 0x8f
  {
  }

  lemma Assoc32(w: bv32, m: bv32, n: bv32)
    ensures (w & m) & n == w & (m & n)
  {
  }

  lemma Outside32(m: bv32, n: bv32)
    requires m & n == 0
    ensures !m & n == n
  {
  }

  lemma OtherBit32(w: bv32, m: bv32, n: bv32)
    requires m & n == 0
    ensures (w & !m) & n == w & n
  {
    Assoc32(w, !m, n);
    Outside32(m, n);
  }

  lemma TwoBits32(a: bv8, b: bv8)
    requires a < 32 && b < 32
    ensures (1 as bv32 << a) & (1 << b) == if a == b then 1 << a else 0
  {
  }

  lemma SetBit32(w: bv32, a: bv8, b: bv8)
    requires a < 32 && b < 32
    ensures (w | (1 << a)) & (1 << b) != 0 <==> a == b || w & (1 << b) != 0
  {
  }

  lemma ClearBit32(w: bv32, a: bv8, b: bv8)
    requires a < 32 && b < 32
    ensures (w & !(1 << a)) & (1 << b) != 0 <==> a != b && w & (1 << b) != 0
  {
    var m: bv32, n: bv32 := 1 << a, 1 << b;
    TwoBits32(a, b);
    if a == b {
      assert (w & !m) & m == 0;
    } else {
      OtherBit32(w, m, n);
      assert w & n == w & (1 << b);
    }
  }

  /** The second word has one slot more, or one slot less, and otherwise the same slots. */
  ghost predicate Added(w: bv32, w': bv32, slot: bv8) {
    forall s :: HasSlot(w', s) <==> s == slot || HasSlot(w, s)
  }

  ghost predicate Removed(w: bv32, w': bv32, slot: bv8) {
    forall s :: HasSlot(w', s) <==> s != slot && HasSlot(w, s)
  }

  lemma SetAddsSlot(w: bv32, slot: bv8)
    requires slot < 32
    ensures Added(w, w | (1 << slot), slot)
  {
    forall s
      ensures HasSlot(w | (1 << slot), s) <==> s == slot || HasSlot(w, s)
    {
      if s < 32 {
        SetBit32(w, slot, s);
      }
    }
  }

  lemma ClearRemovesSlot(w: bv32, slot: bv8)
    requires slot < 32
    ensures Removed(w, w & !(1 << slot), slot)
  {
    forall s
      ensures HasSlot(w & !(1 << slot), s) <==> s != slot && HasSlot(w, s)
    {
      if s < 32 {
        ClearBit32(w, slot, s);
      }
    }
  }

  /** The same for the mask of an address. */
  lemma AddressMaskAdds(w: bv32, ep: bv8)
    ensures Added(w, w | Mask(ep), Slot(ep))
  {
    hide HasSlot, Slot;
    SlotIsNumberAndDirection(ep, ep);
    SetAddsSlot(w, Slot(ep));
  }

  lemma AddressMaskRemoves(w: bv32, ep: bv8)
    ensures Removed(w, w & !Mask(ep), Slot(ep))
  {
    hide HasSlot, Slot;
    SlotIsNumberAndDirection(ep, ep);
    ClearRemovesSlot(w, Slot(ep));
  }

  lemma ZeroWord(w: bv32)
    ensures w == 0 <==> forall slot :: !HasSlot(w, slot)
  {
    if w != 0 {
      var slot := SomeSlot(w);
    }
  }

  /** A word other than zero has a slot, found by halving. */
  lemma SomeSlot(w: bv32) returns (slot: bv8)
    requires w != 0
    ensures HasSlot(w, slot)
  {
    var v := w;
    slot := 0;
    if v & 0xffff == 0 { slot, v := 16, v >> 16; }
    if v & 0xff == 0 { slot, v := slot + 8, v >> 8; }
    if v & 0xf == 0 { slot, v := slot + 4, v >> 4; }
    if v & 3 == 0 { slot, v := slot + 2, v >> 2; }
    if v & 1 == 0 { slot := slot + 1; }
  }

  /** `is_set`, `set`, `clear` and `is_empty`, with the word updated in place. */
  class EndpointBitSet {
    var word: bv32

    constructor ()
      ensures word == 0
    {
      word := 0;
    }

    method IsSet(ep: bv8) returns (r: bool)
      ensures r <==> HasSlot(word, Slot(ep))
    {
      SlotIsNumberAndDirection(ep, ep);
      r := word & Mask(ep) != 0;
    }

    method IsEmpty() returns (r: bool)
      ensures r <==> forall slot :: !HasSlot(word, slot)
    {
      ZeroWord(word);
      r := word == 0;
    }

    method Set(ep: bv8)
      modifies this
      ensures Added(old(word), word, Slot(ep)) && word == old(word) | Mask(ep)
    {
      AddressMaskAdds(word, ep);
      word := word | Mask(ep);
    }

    method Clear(ep: bv8)
      modifies this
      ensures Removed(old(word), word, Slot(ep)) && word == old(word) & !Mask(ep)
    {
      AddressMaskRemoves(word, ep);
      word := word & !Mask(ep);
    }
  }

  // -------- BitSet256 (src/platform/windows_winusb/device.rs) --------

  /** Four 64-bit words. */
  type Words = ws: seq<bv64> | |ws| == 4 witness [0, 0, 0, 0]

  const EMPTY_WORDS: Words := [0, 0, 0, 0]

  function Idx(bit: bv8): (i: nat)
    ensures i < 4
  {
    if bit < 64 then 0 else if bit < 128 then 1 else if bit < 192 then 2 else 3
  }

  function Mask64(offset: bv8): bv64
    requires offset < 64
  {
    1 << offset
  }

  predicate Has64(w: bv64, offset: bv8) {
    offset < 64 && w & Mask64(offset) != 0
  }

  predicate IsSet256(ws: Words, bit: bv8) {
    Has64(ws[Idx(bit)], bit % 64)
  }

  function Set64(w: bv64, offset: bv8): bv64
    requires offset < 64
  {
    w | Mask64(offset)
  }

  function Clear64(w: bv64, offset: bv8): bv64
    requires offset < 64
  {
    w & !Mask64(offset)
  }

  function Set256(ws: Words, bit: bv8): Words {
    ws[Idx(bit) := Set64(ws[Idx(bit)], bit % 64)]
  }

  function Clear256(ws: Words, bit: bv8): Words {
    ws[Idx(bit) := Clear64(ws[Idx(bit)], bit % 64)]
  }

  lemma Assoc64(w: bv64, m: bv64, n: bv64)
    ensures (w & m) & n == w & (m & n)
  {
  }

  lemma Outside64(m: bv64, n: bv64)
    requires m & n == 0
    ensures !m & n == n
  {
  }

  lemma OtherBit64(w: bv64, m: bv64, n: bv64)
    requires m & n == 0
    ensures (w & !m) & n == w & n
  {
    Assoc64(w, !m, n);
    Outside64(m, n);
  }

  lemma TwoBits64(a: bv8, b: bv8)
    requires a < 64 && b < 64
    ensures Mask64(a) & Mask64(b) == if a == b then Mask64(a) else 0
  {
  }

  lemma UnionThrough64(w: bv64, m: bv64, n: bv64)
    requires m & n == 0
    ensures (w | m) & n == w & n
  {
  }

  lemma SetLeavesMask(w: bv64, a: bv8, b: bv8)
    requires a < 64 && b < 64 && a != b
    ensures Set64(w, a) & Mask64(b) == w & Mask64(b)
  {
    TwoBits64(a, b);
    UnionThrough64(w, Mask64(a), Mask64(b));
  }

  lemma SetOther(w: bv64, a: bv8, b: bv8)
    requires a < 64 && b < 64 && a != b
    ensures Has64(Set64(w, a), b) == Has64(w, b)
  {
    SetLeavesMask(w, a, b);
  }

  lemma SetSame(w: bv64, a: bv8)
    requires a < 64
    ensures Has64(Set64(w, a), a)
  {
  }

  lemma ClearLeavesMask(w: bv64, a: bv8, b: bv8)
    requires a < 64 && b < 64 && a != b
    ensures Clear64(w, a) & Mask64(b) == w & Mask64(b)
  {
    TwoBits64(a, b);
    OtherBit64(w, Mask64(a), Mask64(b));
  }

  lemma ClearOther(w: bv64, a: bv8, b: bv8)
    requires a < 64 && b < 64 && a != b
    ensures Has64(Clear64(w, a), b) == Has64(w, b)
  {
    ClearLeavesMask(w, a, b);
  }

  lemma ClearSame(w: bv64, a: bv8)
    requires a < 64
    ensures !Has64(Clear64(w, a), a)
  {
  }

  lemma BitIsWordAndOffset(a: bv8, b: bv8)
    ensures a == b <==> a % 64 == b % 64 && Idx(a) == Idx(b)
  {
  }

  lemma SetWord(ws: Words, i: nat, j: nat, a: bv8, b: bv8)
    requires i < 4 && j < 4 && a < 64 && b < 64
    ensures Has64(ws[i := Set64(ws[i], a)][j], b) <==> (i == j && a == b) || Has64(ws[j], b)
  {
    if a == b {
      SetSame(ws[i], a);
    } else {
      SetOther(ws[i], a, b);
    }
  }

  lemma ClearWord(ws: Words, i: nat, j: nat, a: bv8, b: bv8)
    requires i < 4 && j < 4 && a < 64 && b < 64
    ensures Has64(ws[i := Clear64(ws[i], a)][j], b) <==> !(i == j && a == b) && Has64(ws[j], b)
  {
    if a == b {
      ClearSame(ws[i], a);
    } else {
      ClearOther(ws[i], a, b);
    }
  }

  /** Setting and clearing a bit changes that bit and no other. */
  lemma Changes256(ws: Words, bit: bv8, other: bv8)
    ensures IsSet256(Set256(ws, bit), other) <==> other == bit || IsSet256(ws, other)
    ensures IsSet256(Clear256(ws, bit), other) <==> other != bit && IsSet256(ws, other)
  {
    hide Has64, Set64, Clear64, Mask64;
    BitIsWordAndOffset(bit, other);
    SetWord(ws, Idx(bit), Idx(other), bit % 64, other % 64);
    ClearWord(ws, Idx(bit), Idx(other), bit % 64, other % 64);
  }

  lemma SomeBit64(w: bv64) returns (bit: bv8)
    requires w != 0
    ensures Has64(w, bit)
  {
    var v := w;
    bit := 0;
    if v & 0xffffffff == 0 { bit, v := 32, v >> 32; }
    if v & 0xffff == 0 { bit, v := bit + 16, v >> 16; }
    if v & 0xff == 0 { bit, v := bit + 8, v >> 8; }
    if v & 0xf == 0 { bit, v := bit + 4, v >> 4; }
    if v & 3 == 0 { bit, v := bit + 2, v >> 2; }
    if v & 1 == 0 { bit := bit + 1; }
  }

  lemma BitOfWord(i: bv8, b: bv8)
    requires i < 4 && b < 64
    ensures (64 * i + b) % 64 == b
    ensures Idx(64 * i + b) == if i == 0 then 0 else if i == 1 then 1 else if i == 2 then 2 else 3
  {
  }

  /** The set is empty exactly when all four words are zero. */
  lemma EmptyIsZero256(ws: Words)
    ensures ws == EMPTY_WORDS <==> forall bit :: !IsSet256(ws, bit)
  {
    if ws != EMPTY_WORDS {
      var k: nat :| k < 4 && ws[k] != 0;
      var i: bv8 := if k == 0 then 0 else if k == 1 then 1 else if k == 2 then 2 else 3;
      var b := SomeBit64(ws[k]);
      BitOfWord(i, b);
      assert IsSet256(ws, 64 * i + b);
    }
  }
}
