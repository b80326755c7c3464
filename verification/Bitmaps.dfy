/** The byte bitmaps that both chains use to record missed heights. */
module Bitmaps {
  type Bitmap = seq<bv8>

  function Mask(k: nat): bv8
    requires k < 8
  {
    (1 as bv8) << k
  }

  /** Whether bit i is set; bits outside the bitmap read as unset. */
  predicate BitmapIsSet(bitmap: Bitmap, i: int) {
    if i < 0 || i / 8 >= |bitmap| then false else bitmap[i / 8] & Mask(i % 8) != 0
  }

  /** The number of bytes that hold `bits` bits. */
  function ByteLen(bits: int): nat
    requires bits >= 0
  {
    (bits + 7) / 8
  }

  lemma MaskBits(b: bv8, i: nat, j: nat)
    requires i < 8 && j < 8
    ensures (b | Mask(i)) & Mask(j) != 0 <==> i == j || b & Mask(j) != 0
  {
    assert Mask(0) == 1 && Mask(1) == 2 && Mask(2) == 4 && Mask(3) == 8;
    assert Mask(4) == 16 && Mask(5) == 32 && Mask(6) == 64 && Mask(7) == 128;
  }

  /** Sets bit i in place and no other. */
  method BitmapSet(bitmap: array<bv8>, i: nat)
    requires i / 8 < bitmap.Length
    modifies bitmap
    ensures forall j :: BitmapIsSet(bitmap[..], j) <==> j == i || BitmapIsSet(old(bitmap[..]), j)
  {
    ghost var was := bitmap[..];
    bitmap[i / 8] := bitmap[i / 8] | Mask(i % 8);
    forall j ensures BitmapIsSet(bitmap[..], j) <==> j == i || BitmapIsSet(was, j) {
      if 0 <= j && j / 8 < |was| {
        if j / 8 == i / 8 {
          MaskBits(was[i / 8], i % 8, j % 8);
        }
      }
    }
  }

  /** How many of the bits lo..hi are set. */
  function CountBits(bitmap: Bitmap, lo: int, hi: int): (n: nat)
    ensures lo <= hi ==> n <= hi - lo
    decreases hi - lo
  {
    if lo >= hi then 0
    else CountBits(bitmap, lo, hi - 1) + if BitmapIsSet(bitmap, hi - 1) then 1 else 0
  }

  /** The bits of the range that are set. */
  ghost function SetBits(bitmap: Bitmap, lo: int, hi: int): set<int> {
    set i | lo <= i < hi && BitmapIsSet(bitmap, i)
  }

  lemma {:induction false} CountIsNumberOfSetBits(bitmap: Bitmap, lo: int, hi: int)
    ensures CountBits(bitmap, lo, hi) == |SetBits(bitmap, lo, hi)|
    decreases hi - lo
  {
    if lo >= hi {
      assert SetBits(bitmap, lo, hi) == {};
    } else {
      CountIsNumberOfSetBits(bitmap, lo, hi - 1);
      assert SetBits(bitmap, lo, hi)
          == SetBits(bitmap, lo, hi - 1) + if BitmapIsSet(bitmap, hi - 1) then {hi - 1} else {};
    }
  }

  /** Counting depends on the bits only, wherever they are stored. */
  lemma {:induction false} CountBitsShift(a: Bitmap, b: Bitmap, lo: int, hi: int, shift: int)
    requires forall i :: lo <= i < hi ==> (BitmapIsSet(a, i) <==> BitmapIsSet(b, i + shift))
    ensures CountBits(a, lo, hi) == CountBits(b, lo + shift, hi + shift)
    decreases hi - lo
  {
    if lo < hi {
      CountBitsShift(a, b, lo, hi - 1, shift);
      assert BitmapIsSet(a, hi - 1) <==> BitmapIsSet(b, hi - 1 + shift);
    }
  }
}
