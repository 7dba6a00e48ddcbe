/** core/lib/bitmap.c: a bitmap over bytes, and the search for a run of clear bits. */
module Bitmap {
  const NOT_FOUND: nat := 0xffff_ffff  // -1 as a uint_32

  // FULL_MASK << i
  function Mask(i: nat): bv8
    requires i < 8
  {
    if i == 0 then 1 else if i == 1 then 2 else if i == 2 then 4 else if i == 3 then 8
    else if i == 4 then 16 else if i == 5 then 32 else if i == 6 then 64 else 128
  }

  predicate Bit(b: bv8, i: nat)
    requires i < 8
  {
    b & Mask(i) != 0
  }

  lemma SetBit(b: bv8, i: nat, j: nat)
    requires i < 8 && j < 8
    ensures Bit(SetIn(b, i, true), j) <==> i == j || Bit(b, j)
    ensures Bit(SetIn(b, i, false), j) <==> i != j && Bit(b, j)
  {
  }

  lemma FullByte(b: bv8)
    ensures b == 0xff <==> forall i: nat :: i < 8 ==> Bit(b, i)
  {
    if forall i: nat :: i < 8 ==> Bit(b, i) {
      assert Bit(b, 0) && Bit(b, 1) && Bit(b, 2) && Bit(b, 3) && Bit(b, 4) && Bit(b, 5) && Bit(b, 6) && Bit(b, 7);
    }
  }

  /** `cnt` bits from `start` on are clear. */
  ghost predicate FreeRun(bits: seq<bool>, start: nat, cnt: nat) {
    start + cnt <= |bits| && forall i :: start <= i < start + cnt ==> !bits[i]
  }

  /** `r` is the lowest place at which `cnt` clear bits begin, or NOT_FOUND if there is none. */
  ghost predicate FirstFit(bits: seq<bool>, cnt: nat, r: nat) {
    if r == NOT_FOUND then forall s: nat :: !FreeRun(bits, s, cnt)
    else FreeRun(bits, r, cnt) && forall s: nat :: s < r ==> !FreeRun(bits, s, cnt)
  }

  predicate BitAt(bytes: seq<bv8>, pos: nat)
    requires pos < 8 * |bytes|
  {
    Bit(bytes[pos / 8], pos % 8)
  }

  ghost function BitsOf(bytes: seq<bv8>, length: nat): (s: seq<bool>)
    requires length <= |bytes|
    ensures |s| == 8 * length
  {
    seq(8 * length, i requires 0 <= i < 8 * length => BitAt(bytes, i))
  }

  function SetAt(bytes: seq<bv8>, pos: nat, value: bool): (r: seq<bv8>)
    requires pos < 8 * |bytes|
    ensures |r| == |bytes|
  {
    bytes[pos / 8 := SetIn(bytes[pos / 8], pos % 8, value)]
  }

  function SetIn(b: bv8, i: nat, value: bool): bv8
    requires i < 8
  {
    if value then b | Mask(i) else b & !Mask(i)
  }

  lemma SamePlace(pos: nat, k: nat)
    ensures k == pos <==> k / 8 == pos / 8 && k % 8 == pos % 8
  {
  }

  lemma UpdateBit(bytes: seq<bv8>, pos: nat, value: bool, k: nat)
    requires pos < 8 * |bytes| && k < 8 * |bytes|
    ensures BitAt(SetAt(bytes, pos, value), k) == if k == pos then value else BitAt(bytes, k)
  {
    SamePlace(pos, k);
    SetBit(bytes[pos / 8], pos % 8, k % 8);
    hide Bit, SetIn;
  }

  lemma UpdateBits(bytes: seq<bv8>, length: nat, pos: nat, value: bool)
    requires length <= |bytes| && pos < 8 * length
    ensures BitsOf(SetAt(bytes, pos, value), length) == BitsOf(bytes, length)[pos := value]
  {
    hide BitAt, SetAt;
    forall k | 0 <= k < 8 * length
      ensures BitAt(SetAt(bytes, pos, value), k) == if k == pos then value else BitAt(bytes, k)
    {
      UpdateBit(bytes, pos, value, k);
    }
  }

  lemma NoRunBefore(b: seq<bool>, start: nat, cnt: nat)
    requires cnt > 0 && |b| < NOT_FOUND
    requires forall i :: 0 <= i < |b| && i < start ==> b[i]
    ensures forall s: nat :: s < start ==> !FreeRun(b, s, cnt)
  {
    forall s: nat | s < start
      ensures !FreeRun(b, s, cnt)
    {
      assert s < |b| ==> b[s];
    }
  }

  class Map {
    // The byte after the map is readable: the search looks at it before it tests for the end.
    const bits: array<bv8>
    const length: nat  // map_bytes_length

    ghost predicate Valid() {
      length < bits.Length && 8 * length < NOT_FOUND
    }

    ghost function Bits(): (s: seq<bool>)
      requires Valid()
      reads bits
    {
      BitsOf(bits[..], length)
    }

    constructor (bits: array<bv8>, length: nat)
      requires length < bits.Length && 8 * length < NOT_FOUND
      ensures this.bits == bits && this.length == length && Valid()
    {
      this.bits, this.length := bits, length;
    }

    method InitBitmap()
      requires Valid()
      modifies bits
      ensures forall i :: 0 <= i < |Bits()| ==> !Bits()[i]
    {
      var i := 0;
      while i < length
        invariant 0 <= i <= length
        invariant forall k :: 0 <= k < i ==> bits[k] == 0
      {
        bits[i] := 0;
        i := i + 1;
      }
    }

    method SetValue(pos: nat, value: bool)
      requires Valid() && pos < 8 * length
      modifies bits
      ensures Bits() == old(Bits())[pos := value]
    {
      UpdateBits(bits[..], length, pos, value);
      hide Bit, BitsOf;
      ghost var bytes := SetAt(bits[..], pos, value);
      var byte, bit := pos / 8, pos % 8;
      if value {
        bits[byte] := bits[byte] | Mask(bit);
      } else {
        bits[byte] := bits[byte] & !Mask(bit);
      }
      assert bits[..] == bytes;
    }

    method GetValue(pos: nat) returns (r: bool)
      requires Valid() && pos < 8 * length
      ensures r == Bits()[pos]
    {
      assert BitAt(bits[..], pos) == Bit(bits[pos / 8], pos % 8);
      r := bits[pos / 8] & Mask(pos % 8) != 0;
    }

    /** The first clear bit, or NOT_FOUND: skips full bytes, then set bits. */
    method FirstClear() returns (r: nat)
      requires Valid()
      ensures r == NOT_FOUND || (r < |Bits()| && !Bits()[r])
      ensures forall i :: 0 <= i < |Bits()| && i < r ==> Bits()[i]
    {
      var p := 0;
      while bits[p] == 0xff && p < length
        invariant 0 <= p <= length
        invariant forall i :: 0 <= i < 8 * p ==> Bits()[i]
        decreases length - p
      {
        FullByte(bits[p]);
        p := p + 1;
      }
      if p == length {
        return NOT_FOUND;
      }
      FullByte(bits[p]);
      var bit := 0;
      while Mask(bit) & bits[p] != 0
        invariant 0 <= bit < 8
        invariant forall j: nat :: j < bit ==> Bit(bits[p], j)
        invariant !(forall j: nat :: j < 8 ==> Bit(bits[p], j))
        decreases 8 - bit
      {
        assert Bit(bits[p], bit);
        bit := bit + 1;
      }
      assert !Bit(bits[p], bit);
      r := 8 * p + bit;
    }

    method FindBlock(cnt: nat) returns (r: nat)
      requires Valid()
      ensures if cnt == 0 then r == NOT_FOUND else FirstFit(Bits(), cnt, r)
    {
      hide BitsOf, Bit;
      if cnt == 0 {
        return NOT_FOUND;
      }
      var start := FirstClear();
      ghost var b := Bits();
      NoRunBefore(b, start, cnt);
      if start == NOT_FOUND || cnt == 1 {
        return start;
      }
      var otherBits := 8 * length - start;
      var nextBit := start + 1;
      var count := 1;
      r := NOT_FOUND;
      if nextBit >= 8 * length {
        return;
      }
      while otherBits > 0
        invariant b == Bits() && r == NOT_FOUND
        invariant otherBits >= 8 * length - nextBit
        invariant start < nextBit <= |b| && count < cnt && count <= nextBit
        invariant forall i :: nextBit - count <= i < nextBit ==> !b[i]
        invariant nextBit > count ==> b[nextBit - count - 1]
        invariant forall s: nat :: s + cnt <= nextBit ==> !FreeRun(b, s, cnt)
        decreases otherBits
      {
        otherBits := otherBits - 1;
        if nextBit >= 8 * length {
          break;
        }
        var taken := GetValue(nextBit);
        if !taken {
          count := count + 1;
        } else {
          count := 0;
        }
        if count == cnt {
          r := nextBit - cnt + 1;
          return;
        }
        nextBit := nextBit + 1;
      }
    }
  }
}
