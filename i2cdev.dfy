/** The I2Cdev helper class: bit and bit-field reads and read-modify-write
    updates of 8-bit and 16-bit device registers.

    The two-wire bus is replaced by a register file.  `readBytes`/`readWords`
    with length 1 become ReadByte/ReadWord and `writeBytes`/`writeWords` with
    length 1 become WriteByte/WriteWord:
      - a (device, register) pair missing from the file does not answer: a read
        returns count 0, a write is lost;
      - a pair in `unreadable` takes writes, but its reads deliver nothing and
        return count 0;
      - a pair in `stalled` answers too late: a read returns count -1 (timeout);
      - otherwise a read returns count 1 and the register's value.
    A failed byte read leaves the destination untouched, as `readBytes` only
    stores the bytes that arrived.  A failed word read may have stored a lone
    high byte, as `readWords` stores `MSB << 8` before the low byte arrives.
    A write always reports success, as `writeBytes` returns true without
    looking at the bus.

    Where the source reads into an uninitialised local (`uint8_t b;`), the
    model starts that local from an arbitrary value. */
module I2C {
  import opened Bits

  /** The guard `i > bitStart - length` of the loops at I2Cdev.cpp lines 92 and
      119: `i` is a `uint8_t` counter, the comparison happens in int. */
  predicate ReadBitsLoopGuard(i: bv8, bitStart: bv8, length: bv8)
  {
    i as int > bitStart as int - length as int
  }

  /** With length <= bitStart < 16 the 8-bit difference does not wrap. */
  lemma SubNoWrap(bitStart: bv8, length: bv8)
    requires length <= bitStart < 16
    ensures (bitStart - length) as int == bitStart as int - length as int
  {
  }

  /** While the field stays above bit 0 the guard is the 8-bit comparison
      `i > bitStart - length`. */
  lemma ReadBitsGuardAgrees(bitStart: bv8, length: bv8)
    requires length <= bitStart < 16
    ensures forall i: bv8 :: ReadBitsLoopGuard(i, bitStart, length) <==> i > bitStart - length
  {
    SubNoWrap(bitStart, length);
  }

  /** When the field reaches bit 0 (or would go below it) the guard holds for
      every value a `uint8_t` counter can take, so decrementing it (255 after
      0) never leaves the loop: the loops of `readBits`/`readBitsW` terminate
      only for `length <= bitStart`.  A read that returns 0 skips the loop, so
      the functions still return then. */
  lemma ReadBitsLoopNeverExits(bitStart: bv8, length: bv8)
    requires bitStart < length
    ensures forall i: bv8 :: ReadBitsLoopGuard(i, bitStart, length)
  {
  }

  /** With the field above bit 0, the 8-bit guard `bitStart - n > bitStart - length`
      of the as-written loop holds exactly while fewer than `length` bits are collected. */
  lemma GuardCounts(bitStart: bv8, length: bv8, n: bv8)
    requires n <= length <= bitStart < 16
    ensures bitStart - n > bitStart - length <==> n < length
  {
  }

  /** The loop of `readBits` as written: `i` runs down from bitStart while
      `i > bitStart - length`, or-ing bit i of the register into r.  The guard
      is taken on 8 bits, which ReadBitsGuardAgrees shows is the int guard of
      the source when the field stays above bit 0. */
  method CollectBitsAsWritten8(v: bv8, bitStart: bv8, length: bv8) returns (r: bv8)
    requires bitStart < 8 && length <= bitStart
    ensures r == Collected8(v, bitStart, length)
  {
    r := 0;
    var i: bv8 := bitStart;
    ghost var n: bv8 := 0;
    GuardCounts(bitStart, length, n);
    while i > bitStart - length
      invariant n <= length && i == bitStart - n
      invariant i > bitStart - length <==> n < length
      invariant r == Collected8(v, bitStart, n)
      decreases i
    {
      CollectedNext8(v, bitStart, n);
      r := r | (v & (1 << i));
      i := i - 1;
      n := n + 1;
      GuardCounts(bitStart, length, n);
    }
    assert n == length;
  }

  /** The same loop counting the collected bits instead, so that it also ends
      when the field reaches bit 0. */
  method CollectBits8(v: bv8, bitStart: bv8, length: bv8) returns (r: bv8)
    requires bitStart < 8 && length <= bitStart + 1
    ensures r == Collected8(v, bitStart, length)
  {
    r := 0;
    var n: bv8 := 0;
    while n < length
      invariant n <= length
      invariant r == Collected8(v, bitStart, n)
    {
      CollectedNext8(v, bitStart, n);
      r := r | (v & (1 << (bitStart - n)));
      n := n + 1;
    }
    assert n == length;
  }

  /** The loop of `readBitsW` as written: `i` runs down from bitStart while
      `i > bitStart - length`, or-ing bit i of the register into r. */
  method CollectBitsAsWritten16(v: bv16, bitStart: bv8, length: bv8) returns (r: bv16)
    requires bitStart < 16 && length <= bitStart
    ensures r == Collected16(v, bitStart, length)
  {
    r := 0;
    var i: bv8 := bitStart;
    ghost var n: bv8 := 0;
    GuardCounts(bitStart, length, n);
    while i > bitStart - length
      invariant n <= length && i == bitStart - n
      invariant i > bitStart - length <==> n < length
      invariant r == Collected16(v, bitStart, n)
      decreases i
    {
      CollectedNext16(v, bitStart, n);
      r := r | (v & (1 << i));
      i := i - 1;
      n := n + 1;
      GuardCounts(bitStart, length, n);
    }
    assert n == length;
  }

  /** The same loop counting the collected bits instead, so that it also ends
      when the field reaches bit 0. */
  method CollectBits16(v: bv16, bitStart: bv8, length: bv8) returns (r: bv16)
    requires bitStart < 16 && length <= bitStart + 1
    ensures r == Collected16(v, bitStart, length)
  {
    r := 0;
    var n: bv8 := 0;
    while n < length
      invariant n <= length
      invariant r == Collected16(v, bitStart, n)
    {
      CollectedNext16(v, bitStart, n);
      r := r | (v & (1 << (bitStart - n)));
      n := n + 1;
    }
    assert n == length;
  }

  /** The bit work of `readBits` as written: collect the field's bits, then
      `r >>= bitStart - length + 1`. */
  method ExtractAsWritten8(v: bv8, bitStart: bv8, length: bv8) returns (r: bv8)
    requires bitStart < 8 && length <= bitStart
    ensures r == Field8(v, bitStart, length)
    ensures r & !Ones8(length) == 0
  {
    r := CollectBitsAsWritten8(v, bitStart, length);
    CollectedField8(v, bitStart, length);
    Field8Fits(v, bitStart, length);
    r := Shr8(r, bitStart - length + 1);
  }

  /** The bit work of `readBits`: collect the field's bits, then
      `r >>= bitStart - length + 1`. */
  method Extract8(v: bv8, bitStart: bv8, length: bv8) returns (r: bv8)
    requires bitStart < 8 && length <= bitStart + 1
    ensures r == Field8(v, bitStart, length)
    ensures r & !Ones8(length) == 0
  {
    r := CollectBits8(v, bitStart, length);
    CollectedField8(v, bitStart, length);
    Field8Fits(v, bitStart, length);
    r := Shr8(r, bitStart - length + 1);
  }

  /** The bit work of `readBitsW` as written: collect the field's bits, then
      `r >>= bitStart - length + 1`. */
  method ExtractAsWritten16(v: bv16, bitStart: bv8, length: bv8) returns (r: bv16)
    requires bitStart < 16 && length <= bitStart
    ensures r == Field16(v, bitStart, length)
    ensures r & !Ones16(length) == 0
  {
    r := CollectBitsAsWritten16(v, bitStart, length);
    CollectedField16(v, bitStart, length);
    Field16Fits(v, bitStart, length);
    r := Shr16(r, bitStart - length + 1);
  }

  /** The bit work of `readBitsW`: collect the field's bits, then
      `r >>= bitStart - length + 1`. */
  method Extract16(v: bv16, bitStart: bv8, length: bv8) returns (r: bv16)
    requires bitStart < 16 && length <= bitStart + 1
    ensures r == Field16(v, bitStart, length)
    ensures r & !Ones16(length) == 0
  {
    r := CollectBits16(v, bitStart, length);
    CollectedField16(v, bitStart, length);
    Field16Fits(v, bitStart, length);
    r := Shr16(r, bitStart - length + 1);
  }

  /** The merge of `writeBits` as written: the mask of line 305 keeps part
      of the register, the two shifts place data. */
  method MergeAsWritten8(b: bv8, bitStart: bv8, length: bv8, data: bv8) returns (r: bv8)
    requires bitStart < 8 && length <= 8 && 1 <= bitStart + length
    ensures r == InsertAsWritten8(b, bitStart, length, data)
  {
    var mask := Shl8(0xFF, 8 - length) | Shr8(0xFF, bitStart + length - 1);
    var d := Shl8(data, 8 - length);
    d := Shr8(d, 7 - bitStart);
    r := b & mask;
    r := r | d;
  }


  /** The merge of `writeBitsW` as written: the mask of line 336 keeps part
      of the register, the two shifts place data. */
  method MergeAsWritten16(w: bv16, bitStart: bv8, length: bv8, data: bv16) returns (r: bv16)
    requires bitStart < 16 && length <= 16 && 1 <= bitStart + length
    ensures r == InsertAsWritten16(w, bitStart, length, data)
  {
    var mask := Shl16(0xFFFF, 16 - length) | Shr16(0xFFFF, bitStart + length - 1);
    var d := Shl16(data, 16 - length);
    d := Shr16(d, 15 - bitStart);
    r := w & mask;
    r := r | d;
  }


  class I2Cdev {
    /** 8-bit registers by (device address, register address). */
    var regs: map<(bv8, bv8), bv8>
    /** 16-bit registers by (device address, register address). */
    var words: map<(bv8, bv8), bv16>
    /** Registers that take writes but whose reads deliver no data. */
    var unreadable: set<(bv8, bv8)>
    /** Registers whose reads run past the read timeout. */
    var stalled: set<(bv8, bv8)>

    constructor (regs: map<(bv8, bv8), bv8>, words: map<(bv8, bv8), bv16>,
                 unreadable: set<(bv8, bv8)>, stalled: set<(bv8, bv8)>)
      ensures this.regs == regs && this.words == words
      ensures this.unreadable == unreadable && this.stalled == stalled
    {
      this.regs := regs;
      this.words := words;
      this.unreadable := unreadable;
      this.stalled := stalled;
    }

    /** The count a one-byte `readBytes` returns: 1, 0 (no answer) or -1 (timeout). */
    function ByteStatus(devAddr: bv8, regAddr: bv8): int
      reads this
    {
      if (devAddr, regAddr) !in regs || (devAddr, regAddr) in unreadable then 0
      else if (devAddr, regAddr) in stalled then -1
      else 1
    }

    /** The count a one-word `readWords` returns. */
    function WordStatus(devAddr: bv8, regAddr: bv8): int
      reads this
    {
      if (devAddr, regAddr) !in words || (devAddr, regAddr) in unreadable then 0
      else if (devAddr, regAddr) in stalled then -1
      else 1
    }

    // ------------------------------------------------------------ transport

    /** `readByte`: data is replaced by the register's value only when it arrived. */
    method ReadByte(devAddr: bv8, regAddr: bv8, data: bv8) returns (count: int, out: bv8)
      ensures count == ByteStatus(devAddr, regAddr)
      ensures count == 1 ==> out == regs[(devAddr, regAddr)]
      ensures count != 1 ==> out == data
    {
      count := ByteStatus(devAddr, regAddr);
      out := if count == 1 then regs[(devAddr, regAddr)] else data;
    }

    /** `readWord`: the word arrives whole only on count 1.  When the transfer
        stops after the high byte, `readWords` has already stored it shifted
        into place, with a zero low byte. */
    method ReadWord(devAddr: bv8, regAddr: bv8, data: bv16) returns (count: int, out: bv16)
      ensures count == WordStatus(devAddr, regAddr)
      ensures count == 1 ==> out == words[(devAddr, regAddr)]
      ensures count != 1 ==> out == data || out & 0x00FF == 0
    {
      count := WordStatus(devAddr, regAddr);
      var highByteOnly: bool := *;
      var msb: bv16 := *;
      out := if count == 1 then words[(devAddr, regAddr)]
             else if highByteOnly then Shl16(msb, 8)
             else data;
    }

    /** `writeByte`: reports success whether or not the device took the byte. */
    method WriteByte(devAddr: bv8, regAddr: bv8, data: bv8) returns (ok: bool)
      modifies this`regs
      ensures ok
      ensures (devAddr, regAddr) in old(regs) ==> regs == old(regs)[(devAddr, regAddr) := data]
      ensures (devAddr, regAddr) !in old(regs) ==> regs == old(regs)
    {
      if (devAddr, regAddr) in regs {
        regs := regs[(devAddr, regAddr) := data];
      }
      ok := true;
    }

    /** `writeWord`, likewise on the 16-bit registers. */
    method WriteWord(devAddr: bv8, regAddr: bv8, data: bv16) returns (ok: bool)
      modifies this`words
      ensures ok
      ensures (devAddr, regAddr) in old(words) ==> words == old(words)[(devAddr, regAddr) := data]
      ensures (devAddr, regAddr) !in old(words) ==> words == old(words)
    {
      if (devAddr, regAddr) in words {
        words := words[(devAddr, regAddr) := data];
      }
      ok := true;
    }

    // ------------------------------------------------------- 8-bit helpers

    /** `readBit` stores `b & (1 << bitNum)`: 0 when the bit is clear and
        `1 << bitNum` (not 1) when it is set.  The read's count is returned;
        on a failed read the masked value comes from the uninitialised `b`. */
    method ReadBit(devAddr: bv8, regAddr: bv8, bitNum: bv8) returns (count: int, data: bv8)
      requires bitNum < 8
      ensures count == ByteStatus(devAddr, regAddr)
      ensures data == 0 || data == 1 << bitNum
      ensures count == 1 ==> data == regs[(devAddr, regAddr)] & (1 << bitNum)
      ensures count == 1 ==> (data != 0 <==> Bit8(regs[(devAddr, regAddr)], bitNum))
    {
      var b: bv8 := *;
      count, b := ReadByte(devAddr, regAddr, b);
      MaskedBit8(b, bitNum);
      data := b & (1 << bitNum);
    }

    /** `readBits` as written.  Its loop exits only when the field stays above
        bit 0 (ReadBitsLoopNeverExits), hence the precondition. */
    method ReadBitsAsWritten(devAddr: bv8, regAddr: bv8, bitStart: bv8, length: bv8, data: bv8)
      returns (count: int, out: bv8)
      requires bitStart < 8 && length <= bitStart
      ensures count == ByteStatus(devAddr, regAddr)
      ensures count == 0 ==> out == data
      ensures count == 1 ==> out == Field8(regs[(devAddr, regAddr)], bitStart, length)
      ensures count != 0 ==> out & !Ones8(length) == 0
    {
      var b: bv8 := *;
      var r: bv8 := 0;
      count, b := ReadByte(devAddr, regAddr, b);
      out := data;
      if count != 0 {
        r := ExtractAsWritten8(b, bitStart, length);
        out := r;
      }
    }

    /** `readBits` with a loop that counts the field's bits instead, so that it
        also ends when the field reaches bit 0: the right-aligned field on a
        successful read, data untouched when nothing arrived. */
    method ReadBits(devAddr: bv8, regAddr: bv8, bitStart: bv8, length: bv8, data: bv8)
      returns (count: int, out: bv8)
      requires bitStart < 8 && length <= bitStart + 1
      ensures count == ByteStatus(devAddr, regAddr)
      ensures count == 0 ==> out == data
      ensures count == 1 ==> out == Field8(regs[(devAddr, regAddr)], bitStart, length)
      ensures count != 0 ==> out & !Ones8(length) == 0
    {
      var b: bv8 := *;
      var r: bv8 := 0;
      count, b := ReadByte(devAddr, regAddr, b);
      out := data;
      if count != 0 {
        r := Extract8(b, bitStart, length);
        out := r;
      }
    }

    /** `writeBit`: bit bitNum becomes `data != 0` and the other seven bits are
        written back as read.  The read's count is ignored, so after a failed
        read (timed out, or a register that does not deliver its value) the bit
        is still forced and the other bits come from the uninitialised `b`. */
    method WriteBit(devAddr: bv8, regAddr: bv8, bitNum: bv8, data: bv8) returns (ok: bool)
      requires bitNum < 8
      modifies this`regs
      ensures ok
      ensures old(ByteStatus(devAddr, regAddr)) == 1 ==>
                regs == old(regs)[(devAddr, regAddr) := WithBit8(old(regs)[(devAddr, regAddr)], bitNum, data != 0)]
      ensures old(ByteStatus(devAddr, regAddr)) != 1 && (devAddr, regAddr) !in old(regs) ==> regs == old(regs)
      ensures old(ByteStatus(devAddr, regAddr)) != 1 && (devAddr, regAddr) in old(regs) ==>
                (devAddr, regAddr) in regs && regs == old(regs)[(devAddr, regAddr) := regs[(devAddr, regAddr)]] &&
                Bit8(regs[(devAddr, regAddr)], bitNum) == (data != 0)
    {
      var b: bv8 := *;
      var ignored;
      ignored, b := ReadByte(devAddr, regAddr, b);
      WithBit8Get(b, bitNum, data != 0);
      b := if data != 0 then b | (1 << bitNum) else b & !(1 << bitNum);
      ok := WriteByte(devAddr, regAddr, b);
    }

    /** `writeBits` as written, with the mask of line 305.  Nothing is written
        and false is returned when the read returned 0; a timed-out read (-1)
        passes the `!= 0` test and the uninitialised `b` is merged and written. */
    method WriteBitsAsWritten(devAddr: bv8, regAddr: bv8, bitStart: bv8, length: bv8, data: bv8)
      returns (ok: bool)
      requires bitStart < 8 && length <= 8 && 1 <= bitStart + length
      modifies this`regs
      ensures ok == (old(ByteStatus(devAddr, regAddr)) != 0)
      ensures old(ByteStatus(devAddr, regAddr)) == 1 ==>
                regs == old(regs)[(devAddr, regAddr) := InsertAsWritten8(old(regs)[(devAddr, regAddr)], bitStart, length, data)]
      ensures old(ByteStatus(devAddr, regAddr)) == 0 ==> regs == old(regs)
      ensures old(ByteStatus(devAddr, regAddr)) == -1 ==>
                (devAddr, regAddr) in regs && regs == old(regs)[(devAddr, regAddr) := regs[(devAddr, regAddr)]] &&
                regs[(devAddr, regAddr)] & PlaceAsWritten8(data, bitStart, length) == PlaceAsWritten8(data, bitStart, length)
    {
      var b: bv8 := *;
      var count;
      count, b := ReadByte(devAddr, regAddr, b);
      if count != 0 {
        b := MergeAsWritten8(b, bitStart, length, data);
        ok := WriteByte(devAddr, regAddr, b);
      } else {
        ok := false;
      }
    }

    /** `writeBits` with the mask built from the field: the field takes the
        low `length` bits of data and every other bit is written back as read. */
    method WriteBits(devAddr: bv8, regAddr: bv8, bitStart: bv8, length: bv8, data: bv8)
      returns (ok: bool)
      requires bitStart < 8 && length <= bitStart + 1
      modifies this`regs
      ensures ok == (old(ByteStatus(devAddr, regAddr)) != 0)
      ensures old(ByteStatus(devAddr, regAddr)) == 1 ==>
                regs == old(regs)[(devAddr, regAddr) := Insert8(old(regs)[(devAddr, regAddr)], bitStart, length, data)]
      ensures old(ByteStatus(devAddr, regAddr)) == 0 ==> regs == old(regs)
      ensures old(ByteStatus(devAddr, regAddr)) == -1 ==>
                (devAddr, regAddr) in regs && regs == old(regs)[(devAddr, regAddr) := regs[(devAddr, regAddr)]] &&
                Field8(regs[(devAddr, regAddr)], bitStart, length) == data & Ones8(length)
    {
      var b: bv8 := *;
      var count;
      count, b := ReadByte(devAddr, regAddr, b);
      if count != 0 {
        Insert8Field(b, bitStart, length, data);
        b := Insert8(b, bitStart, length, data);
        ok := WriteByte(devAddr, regAddr, b);
      } else {
        ok := false;
      }
    }

    // ------------------------------------------------------ 16-bit helpers

    /** `readBitW`: 0 when the bit is clear and `1 << bitNum` when it is set. */
    method ReadBitW(devAddr: bv8, regAddr: bv8, bitNum: bv8) returns (count: int, data: bv16)
      requires bitNum < 16
      ensures count == WordStatus(devAddr, regAddr)
      ensures data == 0 || data == 1 << bitNum
      ensures count == 1 ==> data == words[(devAddr, regAddr)] & (1 << bitNum)
      ensures count == 1 ==> (data != 0 <==> Bit16(words[(devAddr, regAddr)], bitNum))
    {
      var w: bv16 := *;
      count, w := ReadWord(devAddr, regAddr, w);
      MaskedBit16(w, bitNum);
      data := w & (1 << bitNum);
    }

    /** `readBitsW` as written; terminates only for `length <= bitStart`. */
    method ReadBitsWAsWritten(devAddr: bv8, regAddr: bv8, bitStart: bv8, length: bv8, data: bv16)
      returns (count: int, out: bv16)
      requires bitStart < 16 && length <= bitStart
      ensures count == WordStatus(devAddr, regAddr)
      ensures count == 0 ==> out == data
      ensures count == 1 ==> out == Field16(words[(devAddr, regAddr)], bitStart, length)
      ensures count != 0 ==> out & !Ones16(length) == 0
    {
      var w: bv16 := *;
      var r: bv16 := 0;
      count, w := ReadWord(devAddr, regAddr, w);
      out := data;
      if count != 0 {
        r := ExtractAsWritten16(w, bitStart, length);
        out := r;
      }
    }

    /** `readBitsW` with a loop that counts the field's bits. */
    method ReadBitsW(devAddr: bv8, regAddr: bv8, bitStart: bv8, length: bv8, data: bv16)
      returns (count: int, out: bv16)
      requires bitStart < 16 && length <= bitStart + 1
      ensures count == WordStatus(devAddr, regAddr)
      ensures count == 0 ==> out == data
      ensures count == 1 ==> out == Field16(words[(devAddr, regAddr)], bitStart, length)
      ensures count != 0 ==> out & !Ones16(length) == 0
    {
      var w: bv16 := *;
      var r: bv16 := 0;
      count, w := ReadWord(devAddr, regAddr, w);
      out := data;
      if count != 0 {
        r := Extract16(w, bitStart, length);
        out := r;
      }
    }

    /** `writeBitW`: bit bitNum becomes `data != 0`, the other fifteen bits
        are written back as read. */
    method WriteBitW(devAddr: bv8, regAddr: bv8, bitNum: bv8, data: bv16) returns (ok: bool)
      requires bitNum < 16
      modifies this`words
      ensures ok
      ensures old(WordStatus(devAddr, regAddr)) == 1 ==>
                words == old(words)[(devAddr, regAddr) := WithBit16(old(words)[(devAddr, regAddr)], bitNum, data != 0)]
      ensures old(WordStatus(devAddr, regAddr)) != 1 && (devAddr, regAddr) !in old(words) ==> words == old(words)
      ensures old(WordStatus(devAddr, regAddr)) != 1 && (devAddr, regAddr) in old(words) ==>
                (devAddr, regAddr) in words && words == old(words)[(devAddr, regAddr) := words[(devAddr, regAddr)]] &&
                Bit16(words[(devAddr, regAddr)], bitNum) == (data != 0)
    {
      var w: bv16 := *;
      var ignored;
      ignored, w := ReadWord(devAddr, regAddr, w);
      WithBit16Get(w, bitNum, data != 0);
      w := if data != 0 then w | (1 << bitNum) else w & !(1 << bitNum);
      ok := WriteWord(devAddr, regAddr, w);
    }

    /** `writeBitsW` as written, with the mask of line 336. */
    method WriteBitsWAsWritten(devAddr: bv8, regAddr: bv8, bitStart: bv8, length: bv8, data: bv16)
      returns (ok: bool)
      requires bitStart < 16 && length <= 16 && 1 <= bitStart + length
      modifies this`words
      ensures ok == (old(WordStatus(devAddr, regAddr)) != 0)
      ensures old(WordStatus(devAddr, regAddr)) == 1 ==>
                words == old(words)[(devAddr, regAddr) := InsertAsWritten16(old(words)[(devAddr, regAddr)], bitStart, length, data)]
      ensures old(WordStatus(devAddr, regAddr)) == 0 ==> words == old(words)
      ensures old(WordStatus(devAddr, regAddr)) == -1 ==>
                (devAddr, regAddr) in words && words == old(words)[(devAddr, regAddr) := words[(devAddr, regAddr)]] &&
                words[(devAddr, regAddr)] & PlaceAsWritten16(data, bitStart, length) == PlaceAsWritten16(data, bitStart, length)
    {
      var w: bv16 := *;
      var count;
      count, w := ReadWord(devAddr, regAddr, w);
      if count != 0 {
        w := MergeAsWritten16(w, bitStart, length, data);
        ok := WriteWord(devAddr, regAddr, w);
      } else {
        ok := false;
      }
    }

    /** `writeBitsW` with the mask built from the field. */
    method WriteBitsW(devAddr: bv8, regAddr: bv8, bitStart: bv8, length: bv8, data: bv16)
      returns (ok: bool)
      requires bitStart < 16 && length <= bitStart + 1
      modifies this`words
      ensures ok == (old(WordStatus(devAddr, regAddr)) != 0)
      ensures old(WordStatus(devAddr, regAddr)) == 1 ==>
                words == old(words)[(devAddr, regAddr) := Insert16(old(words)[(devAddr, regAddr)], bitStart, length, data)]
      ensures old(WordStatus(devAddr, regAddr)) == 0 ==> words == old(words)
      ensures old(WordStatus(devAddr, regAddr)) == -1 ==>
                (devAddr, regAddr) in words && words == old(words)[(devAddr, regAddr) := words[(devAddr, regAddr)]] &&
                forall j: bv8 :: j < 16 ==>
                  (Bit16(Field16(words[(devAddr, regAddr)], bitStart, length), j) <==> j < length && Bit16(data, j))
    {
      var w: bv16 := *;
      var count;
      count, w := ReadWord(devAddr, regAddr, w);
      if count != 0 {
        Insert16Field(w, bitStart, length, data);
        w := Insert16(w, bitStart, length, data);
        ok := WriteWord(devAddr, regAddr, w);
      } else {
        ok := false;
      }
    }
  }
}
