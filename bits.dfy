/** Bit arithmetic behind the I2Cdev bit-field helpers, on 8-bit and 16-bit
    register values.

    C evaluates `x << k` and `x >> k` on `uint8_t`/`uint16_t` operands in `int`
    and truncates when the result is stored back into the narrow variable.
    Shl8/Shr8 (and Shl16/Shr16) write that out: a shift by the width or more
    leaves nothing of an 8-bit (16-bit) operand.

    Bit positions are `uint8_t` in the source and `bv8` here, numbered from 0
    (least significant).  A field is given, as in the source, by its highest
    bit `bitStart` and its `length`; its lowest bit is `bitStart + 1 - length`. */
module Bits {

  // ---------------------------------------------------------------- 8 bits

  /** Bit i of b is 1. */
  predicate Bit8(b: bv8, i: bv8)
    requires i < 8
  {
    b & (1 << i) != 0
  }

  /** `(uint8_t)(x << k)` */
  function Shl8(x: bv8, k: bv8): bv8
  {
    if k >= 8 then 0 else x << k
  }

  /** `(uint8_t)(x >> k)` */
  function Shr8(x: bv8, k: bv8): bv8
  {
    if k >= 8 then 0 else x >> k
  }

  /** The n lowest bits set: `(1 << n) - 1` evaluated in int and truncated. */
  function Ones8(n: bv8): bv8
    requires n <= 8
  {
    (1 << n) - 1
  }

  /** Bits lo..hi set, all others clear (no bit when lo == hi + 1). */
  function Span8(lo: bv8, hi: bv8): bv8
    requires hi < 8 && lo <= hi + 1
  {
    Ones8(hi + 1) & !Ones8(lo)
  }

  /** The field of `length` bits whose top bit is `bitStart`, right-aligned. */
  function Field8(b: bv8, bitStart: bv8, length: bv8): bv8
    requires bitStart < 8 && length <= bitStart + 1
  {
    (b >> (bitStart + 1 - length)) & Ones8(length)
  }

  /** b with bit i forced to v: the two arms of `writeBit`. */
  function WithBit8(b: bv8, i: bv8, v: bool): bv8
    requires i < 8
  {
    if v then b | (1 << i) else b & !(1 << i)
  }

  /** Field insertion with the mask built from the field itself,
      `mask = ((1 << length) - 1) << (bitStart - length + 1)`, then
      `(b & ~mask) | ((data << (bitStart - length + 1)) & mask)`. */
  function Insert8(b: bv8, bitStart: bv8, length: bv8, data: bv8): bv8
    requires bitStart < 8 && length <= bitStart + 1
  {
    var lo := bitStart + 1 - length;
    var mask := Ones8(length) << lo;
    (b & !mask) | ((data << lo) & mask)
  }

  /** The mask of I2Cdev.cpp line 305:
      `(0xFF << (8 - length)) | (0xFF >> (bitStart + length - 1))`. */
  function MaskAsWritten8(bitStart: bv8, length: bv8): bv8
    requires bitStart < 8 && length <= 8 && 1 <= bitStart + length
  {
    Shl8(0xFF, 8 - length) | Shr8(0xFF, bitStart + length - 1)
  }

  /** The data placement of lines 306-307: `data <<= 8 - length; data >>= 7 - bitStart`. */
  function PlaceAsWritten8(data: bv8, bitStart: bv8, length: bv8): bv8
    requires bitStart < 8 && length <= 8
  {
    Shr8(Shl8(data, 8 - length), 7 - bitStart)
  }

  /** What `writeBits` writes back, lines 305-309: `(b & mask) | data`. */
  function InsertAsWritten8(b: bv8, bitStart: bv8, length: bv8, data: bv8): bv8
    requires bitStart < 8 && length <= 8 && 1 <= bitStart + length
  {
    (b & MaskAsWritten8(bitStart, length)) | PlaceAsWritten8(data, bitStart, length)
  }

  /** `readBits` is right-aligned: bit j of the result is bit
      `bitStart - length + 1 + j` of the register for j < length, and 0 above. */
  lemma Field8Bits(b: bv8, bitStart: bv8, length: bv8)
    requires bitStart < 8 && length <= bitStart + 1
    ensures forall j: bv8 :: j < 8 ==>
              (Bit8(Field8(b, bitStart, length), j) <==>
                 j < length && Bit8(b, bitStart + 1 - length + j))
  {
  }

  /** The doc comment's examples: `01101001` at bitStart 4, length 3 reads
      `010`, and `101` read from any position is 0x05. */
  lemma Field8Examples(bitStart: bv8)
    requires 2 <= bitStart < 8
    ensures Field8(0x69, 4, 3) == 0x2
    ensures Field8(0x5 << (bitStart - 2), bitStart, 3) == 0x05
  {
  }

  /** `writeBit` makes bit i equal to v and leaves the other seven bits. */
  lemma WithBit8Bits(b: bv8, i: bv8, v: bool)
    requires i < 8
    ensures forall j: bv8 :: j < 8 ==>
              (Bit8(WithBit8(b, i, v), j) <==> (if j == i then v else Bit8(b, j)))
  {
  }

  /** Bits inside the field come from data, right-aligned; every other bit stays. */
  lemma Insert8Bits(b: bv8, bitStart: bv8, length: bv8, data: bv8)
    requires bitStart < 8 && length <= bitStart + 1
    ensures forall j: bv8 :: j < 8 ==>
              (Bit8(Insert8(b, bitStart, length, data), j) <==>
                 (if bitStart + 1 - length <= j <= bitStart
                 then Bit8(data, j - (bitStart + 1 - length))
                 else Bit8(b, j)))
  {
  }

  /** Reading the field back after writing it gives `data mod 2^length`. */
  lemma Insert8Field(b: bv8, bitStart: bv8, length: bv8, data: bv8)
    requires bitStart < 8 && length <= bitStart + 1
    ensures Field8(Insert8(b, bitStart, length, data), bitStart, length) == data & Ones8(length)
  {
  }

  /** Writing back the value just read changes nothing. */
  lemma Insert8Same(b: bv8, bitStart: bv8, length: bv8)
    requires bitStart < 8 && length <= bitStart + 1
    ensures Insert8(b, bitStart, length, Field8(b, bitStart, length)) == b
  {
  }

  /** A field read is at most `length` bits wide. */
  lemma Field8Fits(b: bv8, bitStart: bv8, length: bv8)
    requires bitStart < 8 && length <= bitStart + 1
    ensures Field8(b, bitStart, length) & !Ones8(length) == 0
  {
  }

  /** One pass of the `readBits` loop: or-ing in bit i of b extends the
      collected bits i+1..hi down to bit i. */
  lemma Span8Step(b: bv8, i: bv8, hi: bv8)
    requires i <= hi < 8
    ensures (b & Span8(i + 1, hi)) | (b & (1 << i)) == b & Span8(i, hi)
  {
  }

  /** Bits lo..hi shifted down by lo are the hi + 1 - lo lowest bits. */
  lemma Span8Down(lo: bv8, hi: bv8)
    requires hi < 8 && lo <= hi + 1
    ensures Span8(lo, hi) >> lo == Ones8(hi + 1 - lo)
  {
  }

  /** The final shift of the `readBits` loop, `r >>= bitStart - length + 1`,
      right-aligns the collected bits. */
  lemma Span8Shift(b: bv8, bitStart: bv8, length: bv8)
    requires bitStart < 8 && length <= bitStart + 1
    ensures (b & Span8(bitStart + 1 - length, bitStart)) >> (bitStart + 1 - length)
            == Field8(b, bitStart, length)
  {
    Span8Down(bitStart + 1 - length, bitStart);
  }

  /** What the bit-collecting loop of `readBits` holds after n passes:
      bits hi+1-n..hi of b, in place. */
  function Collected8(b: bv8, hi: bv8, n: bv8): bv8
    requires hi < 8 && n <= hi + 1
  {
    if n == 0 then 0 else Collected8(b, hi, n - 1) | (b & (1 << (hi + 1 - n)))
  }

  /** The collected bits are exactly the span below hi. */
  lemma {:induction false} CollectedSpan8(b: bv8, hi: bv8, n: bv8)
    requires hi < 8 && n <= hi + 1
    ensures Collected8(b, hi, n) == b & Span8(hi + 1 - n, hi)
  {
    if n != 0 {
      CollectedSpan8(b, hi, n - 1);
      Span8Step(b, hi + 1 - n, hi);
      assert hi + 1 - n + 1 == hi + 1 - (n - 1);
    }
  }

  /** One more pass collects bit hi - n. */
  lemma CollectedNext8(b: bv8, hi: bv8, n: bv8)
    requires hi < 8 && n <= hi
    ensures Collected8(b, hi, n + 1) == Collected8(b, hi, n) | (b & (1 << (hi - n)))
  {
    assert n + 1 - 1 == n;
    assert hi + 1 - (n + 1) == hi - n;
  }

  /** After `length` passes, `r >>= bitStart - length + 1` yields the field. */
  lemma CollectedField8(b: bv8, bitStart: bv8, length: bv8)
    requires bitStart < 8 && length <= bitStart + 1
    ensures Shr8(Collected8(b, bitStart, length), bitStart - length + 1) == Field8(b, bitStart, length)
  {
    CollectedSpan8(b, bitStart, length);
    Span8Shift(b, bitStart, length);
  }

  /** Masking out one bit leaves either 0 or that bit in place, not a normalised 1. */
  lemma MaskedBit8(b: bv8, i: bv8)
    requires i < 8
    ensures b & (1 << i) == 0 || b & (1 << i) == 1 << i
  {
  }

  /** The bit `writeBit` forces reads back as forced. */
  lemma WithBit8Get(b: bv8, i: bv8, v: bool)
    requires i < 8
    ensures Bit8(WithBit8(b, i, v), i) == v
  {
  }

  /** The two shifts of lines 306-307 do what their comment says: the low
      `length` bits of data land at bits bitStart-length+1..bitStart and every
      other bit is 0. */
  lemma PlaceAsWritten8Bits(data: bv8, bitStart: bv8, length: bv8)
    requires bitStart < 8 && 1 <= length <= bitStart + 1
    ensures forall j: bv8 :: j < 8 ==>
              (Bit8(PlaceAsWritten8(data, bitStart, length), j) <==>
                 bitStart + 1 - length <= j <= bitStart && Bit8(data, j - (bitStart + 1 - length)))
  {
  }

  /** For the documented arguments the mask is 0xE3 and the worked
      example `10101111` with data `010` gives `10101011`; there the written
      code agrees with field insertion for every register value and datum. */
  lemma InsertAsWritten8At4And3(b: bv8, data: bv8)
    ensures MaskAsWritten8(4, 3) == 0xE3
    ensures InsertAsWritten8(0xAF, 4, 3, 0x2) == 0xAB
    ensures InsertAsWritten8(b, 4, 3, data) == Insert8(b, 4, 3, data)
  {
  }

  /** For bitStart 7, length 2 (the rate field of the L3G4200D's CTRL_REG1)
      the mask is 0xC0: the old field bits are kept and all others cleared. */
  lemma InsertAsWritten8At7And2()
    ensures MaskAsWritten8(7, 2) == 0xC0
    ensures InsertAsWritten8(0xF, 7, 2, 0x3) == 0xC0
    ensures Insert8(0xF, 7, 2, 0x3) == 0xCF
  {
  }

  /** (4, 3) is the only in-range field for which the written code is right:
      for every other one, writing 0 into a register holding 0xFF differs
      from field insertion. */
  lemma InsertAsWritten8WrongElsewhere(bitStart: bv8, length: bv8)
    requires bitStart < 8 && 1 <= length <= bitStart + 1
    requires !(bitStart == 4 && length == 3)
    ensures InsertAsWritten8(0xFF, bitStart, length, 0) != Insert8(0xFF, bitStart, length, 0)
  {
  }

  // --------------------------------------------------------------- 16 bits

  /** Bit i of w is 1. */
  predicate Bit16(w: bv16, i: bv8)
    requires i < 16
  {
    w & (1 << i) != 0
  }

  /** `(uint16_t)(x << k)` */
  function Shl16(x: bv16, k: bv8): bv16
  {
    if k >= 16 then 0 else x << k
  }

  /** `(uint16_t)(x >> k)` */
  function Shr16(x: bv16, k: bv8): bv16
  {
    if k >= 16 then 0 else x >> k
  }

  /** The n lowest bits set. */
  function Ones16(n: bv8): bv16
    requires n <= 16
  {
    (1 << n) - 1
  }

  /** Bits lo..hi set, all others clear (no bit when lo == hi + 1). */
  function Span16(lo: bv8, hi: bv8): bv16
    requires hi < 16 && lo <= hi + 1
  {
    Ones16(hi + 1) & !Ones16(lo)
  }

  /** The right-aligned field of `length` bits whose top bit is `bitStart`. */
  function Field16(w: bv16, bitStart: bv8, length: bv8): bv16
    requires bitStart < 16 && length <= bitStart + 1
  {
    (w >> (bitStart + 1 - length)) & Ones16(length)
  }

  /** w with bit i forced to v: the two arms of `writeBitW`. */
  function WithBit16(w: bv16, i: bv8, v: bool): bv16
    requires i < 16
  {
    if v then w | (1 << i) else w & !(1 << i)
  }

  /** Field insertion with the mask built from the field itself. */
  function Insert16(w: bv16, bitStart: bv8, length: bv8, data: bv16): bv16
    requires bitStart < 16 && length <= bitStart + 1
  {
    var lo := bitStart + 1 - length;
    var mask := Ones16(length) << lo;
    (w & !mask) | ((data << lo) & mask)
  }

  /** The mask of I2Cdev.cpp line 336:
      `(0xFFFF << (16 - length)) | (0xFFFF >> (bitStart + length - 1))`. */
  function MaskAsWritten16(bitStart: bv8, length: bv8): bv16
    requires bitStart < 16 && length <= 16 && 1 <= bitStart + length
  {
    Shl16(0xFFFF, 16 - length) | Shr16(0xFFFF, bitStart + length - 1)
  }

  /** The data placement of lines 337-338. */
  function PlaceAsWritten16(data: bv16, bitStart: bv8, length: bv8): bv16
    requires bitStart < 16 && length <= 16
  {
    Shr16(Shl16(data, 16 - length), 15 - bitStart)
  }

  /** What `writeBitsW` writes back, lines 336-340. */
  function InsertAsWritten16(w: bv16, bitStart: bv8, length: bv8, data: bv16): bv16
    requires bitStart < 16 && length <= 16 && 1 <= bitStart + length
  {
    (w & MaskAsWritten16(bitStart, length)) | PlaceAsWritten16(data, bitStart, length)
  }

  /** The `readBitsW` doc comment's examples.  Its worked example is wrong:
      `1101011001101001` at bitStart 12, length 3 reads `101`, not the `010`
      the comment shows.  `101` read from any position is 0x05. */
  lemma Field16Examples(bitStart: bv8)
    requires 2 <= bitStart < 16
    ensures Field16(0xD669, 12, 3) == 0x5 && Field16(0xD669, 12, 3) != 0x2
    ensures Field16(0x5 << (bitStart - 2), bitStart, 3) == 0x05
  {
  }

  /** `readBitsW` is right-aligned. */
  lemma Field16Bits(w: bv16, bitStart: bv8, length: bv8)
    requires bitStart < 16 && length <= bitStart + 1
    ensures forall j: bv8 :: j < 16 ==>
              (Bit16(Field16(w, bitStart, length), j) <==>
                 j < length && Bit16(w, bitStart + 1 - length + j))
  {
  }

  /** `writeBitW` makes bit i equal to v and leaves the other fifteen bits. */
  lemma WithBit16Bits(w: bv16, i: bv8, v: bool)
    requires i < 16
    ensures forall j: bv8 :: j < 16 ==>
              (Bit16(WithBit16(w, i, v), j) <==> (if j == i then v else Bit16(w, j)))
  {
  }

  /** Bits inside the field come from data, right-aligned; every other bit stays. */
  lemma Insert16Bits(w: bv16, bitStart: bv8, length: bv8, data: bv16)
    requires bitStart < 16 && length <= bitStart + 1
    ensures forall j: bv8 :: j < 16 ==>
              (Bit16(Insert16(w, bitStart, length, data), j) <==>
                 (if bitStart + 1 - length <= j <= bitStart
                 then Bit16(data, j - (bitStart + 1 - length))
                 else Bit16(w, j)))
  {
  }

  /** Reading the field back after writing it gives `data mod 2^length`,
      bit by bit. */
  lemma Insert16Field(w: bv16, bitStart: bv8, length: bv8, data: bv16)
    requires bitStart < 16 && length <= bitStart + 1
    ensures forall j: bv8 :: j < 16 ==>
              (Bit16(Field16(Insert16(w, bitStart, length, data), bitStart, length), j) <==>
                 j < length && Bit16(data, j))
  {
  }

  /** Writing back the value just read changes nothing. */
  lemma Insert16Same(w: bv16, bitStart: bv8, length: bv8)
    requires bitStart < 16 && length <= bitStart + 1
    ensures Insert16(w, bitStart, length, Field16(w, bitStart, length)) == w
  {
    // One case per nibble of the field's top bit: each case bounds the shift
    // distances, which keeps the bit-level search small.
    if bitStart < 4 {
    } else if bitStart < 8 {
    } else if bitStart < 12 {
    } else {
    }
  }

  /** A field read is at most `length` bits wide. */
  lemma Field16Fits(w: bv16, bitStart: bv8, length: bv8)
    requires bitStart < 16 && length <= bitStart + 1
    ensures Field16(w, bitStart, length) & !Ones16(length) == 0
  {
  }

  /** One pass of the `readBitsW` loop. */
  lemma Span16Step(w: bv16, i: bv8, hi: bv8)
    requires i <= hi < 16
    ensures (w & Span16(i + 1, hi)) | (w & (1 << i)) == w & Span16(i, hi)
  {
  }

  /** Bits lo..hi shifted down by lo are the hi + 1 - lo lowest bits. */
  lemma Span16Down(lo: bv8, hi: bv8)
    requires hi < 16 && lo <= hi + 1
    ensures Span16(lo, hi) >> lo == Ones16(hi + 1 - lo)
  {
  }

  /** The final shift of the `readBitsW` loop right-aligns the collected bits. */
  lemma Span16Shift(w: bv16, bitStart: bv8, length: bv8)
    requires bitStart < 16 && length <= bitStart + 1
    ensures (w & Span16(bitStart + 1 - length, bitStart)) >> (bitStart + 1 - length)
            == Field16(w, bitStart, length)
  {
    Span16Down(bitStart + 1 - length, bitStart);
  }

  /** What the bit-collecting loop of `readBitsW` holds after n passes:
      bits hi+1-n..hi of w, in place. */
  function Collected16(w: bv16, hi: bv8, n: bv8): bv16
    requires hi < 16 && n <= hi + 1
  {
    if n == 0 then 0 else Collected16(w, hi, n - 1) | (w & (1 << (hi + 1 - n)))
  }

  /** The collected bits are exactly the span below hi. */
  lemma {:induction false} CollectedSpan16(w: bv16, hi: bv8, n: bv8)
    requires hi < 16 && n <= hi + 1
    ensures Collected16(w, hi, n) == w & Span16(hi + 1 - n, hi)
  {
    if n != 0 {
      CollectedSpan16(w, hi, n - 1);
      Span16Step(w, hi + 1 - n, hi);
      assert hi + 1 - n + 1 == hi + 1 - (n - 1);
    }
  }

  /** One more pass collects bit hi - n. */
  lemma CollectedNext16(w: bv16, hi: bv8, n: bv8)
    requires hi < 16 && n <= hi
    ensures Collected16(w, hi, n + 1) == Collected16(w, hi, n) | (w & (1 << (hi - n)))
  {
    assert n + 1 - 1 == n;
    assert hi + 1 - (n + 1) == hi - n;
  }

  /** After `length` passes, `r >>= bitStart - length + 1` yields the field. */
  lemma CollectedField16(w: bv16, bitStart: bv8, length: bv8)
    requires bitStart < 16 && length <= bitStart + 1
    ensures Shr16(Collected16(w, bitStart, length), bitStart - length + 1) == Field16(w, bitStart, length)
  {
    CollectedSpan16(w, bitStart, length);
    Span16Shift(w, bitStart, length);
  }

  /** Masking out one bit leaves either 0 or that bit in place, not a normalised 1. */
  lemma MaskedBit16(w: bv16, i: bv8)
    requires i < 16
    ensures w & (1 << i) == 0 || w & (1 << i) == 1 << i
  {
  }

  /** The bit `writeBitW` forces reads back as forced. */
  lemma WithBit16Get(w: bv16, i: bv8, v: bool)
    requires i < 16
    ensures Bit16(WithBit16(w, i, v), i) == v
  {
  }

  /** The two shifts of lines 337-338 place the low `length` bits of data in
      the field and clear every other bit. */
  lemma PlaceAsWritten16Bits(data: bv16, bitStart: bv8, length: bv8)
    requires bitStart < 16 && 1 <= length <= bitStart + 1
    ensures forall j: bv8 :: j < 16 ==>
              (Bit16(PlaceAsWritten16(data, bitStart, length), j) <==>
                 bitStart + 1 - length <= j <= bitStart && Bit16(data, j - (bitStart + 1 - length)))
  {
  }

  /** The comment above `writeBitsW` works its example at bitStart 12,
      length 3, but the mask it gets there is 0xE003 where 0xE3FF is needed:
      bits 0-9 of the word are cleared. */
  lemma InsertAsWritten16At12And3()
    ensures MaskAsWritten16(12, 3) == 0xE003
    ensures InsertAsWritten16(0xFFFF, 12, 3, 0x2) == 0xE803
    ensures Insert16(0xFFFF, 12, 3, 0x2) == 0xEBFF
  {
  }

  /** The written 16-bit mask is right for bitStart 8, length 7 ... */
  lemma InsertAsWritten16At8And7(w: bv16, data: bv16)
    ensures MaskAsWritten16(8, 7) == 0xFE03
    ensures InsertAsWritten16(w, 8, 7, data) == Insert16(w, 8, 7, data)
  {
  }

  /** ... and for no other in-range field. */
  lemma InsertAsWritten16WrongElsewhere(bitStart: bv8, length: bv8)
    requires bitStart < 16 && 1 <= length <= bitStart + 1
    requires !(bitStart == 8 && length == 7)
    ensures InsertAsWritten16(0xFFFF, bitStart, length, 0) != Insert16(0xFFFF, bitStart, length, 0)
  {
  }
}
