# I2Cdev bit-field helpers and the L3G4200D CTRL_REG1 driver, in Dafny

This project models two layers of the i2cdevlib gyroscope driver:

- **I2Cdev**: the helpers that read a bit or a bit field out of an 8-bit or
  16-bit device register (`readBit`, `readBits`, `readBitW`, `readBitsW`) and
  write one back by read-modify-write (`writeBit`, `writeBits`, `writeBitW`,
  `writeBitsW`). The I2C bus is replaced by a register file, the class
  `I2C.I2Cdev`, with one-register `ReadByte`/`ReadWord`/`WriteByte`/`WriteWord`:
  - a (device, register) pair missing from the file does not answer, so a
    read returns count 0 and a write is lost;
  - a pair in `unreadable` takes writes, but its reads deliver nothing and
    return count 0;
  - a pair in `stalled` times out, so a read returns count -1;
  - any other read returns count 1 and the value.

  A byte read that does not succeed leaves its destination untouched. A word
  read that does not succeed may instead have stored a lone high byte, with a
  zero low byte, because `readWords` stores `MSB << 8` before the low byte
  arrives (I2Cdev.cpp:229-243). A write reports success whatever happened. Uninitialised C locals start from an
  arbitrary value.
- **L3G4200D**: the driver's handling of control register CTRL_REG1:
  - output data rate and bandwidth, with their encodings and the cut-off table;
  - the power-down and X/Y/Z enable bits;
  - the WHO_AM_I identity check.

  The class `Gyro.L3G4200D` holds the register file, the device address and
  the first byte of the driver's buffer.

The module `Bits` holds the bit arithmetic on `bv8`/`bv16`:
- C's promotion to `int` followed by truncation is written out as
  `Shl8`/`Shr8`/`Shl16`/`Shr16`.
- `Field8`/`Field16` is the right-aligned field a read should return.
- `Insert8`/`Insert16` is field insertion with a mask built from the field.
- `InsertAsWritten8`/`InsertAsWritten16` is what the source's `writeBits`
  computes with its own mask.

Every operation that the source gets wrong has two models:
- `...AsWritten`, which follows the code as written, with lemmas exhibiting
  the discrepancy;
- a corrected member, with the intended law proved.

The driver's header `L3G4200D.h` is not part of this model. Register addresses,
bit positions and codes follow the CTRL_REG1 layout of the STMicroelectronics
L3G4200D datasheet (rev. 3), the document the driver cites:
- fields: DR bits 7:6, BW bits 5:4, PD bit 3, Zen bit 2, Yen bit 1, Xen bit 0;
- codes: 0b00..0b11 in table order;
- addresses: WHO_AM_I at 0x0F, CTRL_REG1 at 0x20, default device address 0x69.

Cut-off frequencies are integers in tenths of a hertz.

Points where the code and its documentation disagree; the model follows the
code:
- `getDeviceID`'s comment gives the ID as "109, 0x69". `testConnection`
  compares with 0b11010011 (0xD3), and `Gyro.DEVICE_ID` is 0xD3.
- At 100 Hz the cut-off is 12.5 Hz for the lowest bandwidth code and 25 Hz
  for every other code, the medium-low one included. This also agrees with
  the datasheet.
- The free functions from `setDataOutputRate` to `getXEnabled` are written
  without the `L3G4200D::` qualifier. Line 122 writes `I2Cdec::`, and lines
  211 and 213 drop the `BW_` prefix. As written, these would not compile. They
  are modelled as the members of the driver class they are evidently meant
  to be, with the intended names.

## Model

| member | source | states |
|---|---|---|
| Bits.Field8Bits | I2Cdev.cpp:76-99 | `readBits` is right-aligned: bit j of the field is register bit bitStart-length+1+j for j < length, and 0 from bit length up |
| Bits.Field8Examples | I2Cdev.cpp:79-89 | the documented examples hold: `01101001` at (4, 3) reads `010`, and `101` read at any position is 0x05 |
| Bits.Field8Fits | I2Cdev.cpp:92-96 | a field read has no bit set at or above `length` |
| Bits.Span8Step | I2Cdev.cpp:92-94 | one loop pass that ors in bit i extends the collected span i+1..hi down to bit i |
| Bits.Span8Shift | I2Cdev.cpp:95 | shifting the collected span right by bitStart-length+1 gives the field |
| Bits.CollectedSpan8 | I2Cdev.cpp:92-94 | after n passes the loop holds exactly register bits bitStart+1-n..bitStart, in place (by induction on n) |
| Bits.CollectedNext8 | I2Cdev.cpp:93 | the next pass adds exactly bit bitStart-n |
| Bits.CollectedField8 | I2Cdev.cpp:92-96 | after `length` passes the final shift yields the right-aligned field |
| Bits.MaskedBit8 | I2Cdev.cpp:53-58 | `b & (1 << bitNum)` is either 0 or exactly `1 << bitNum` |
| Bits.WithBit8Bits | I2Cdev.cpp:264-269 | `writeBit`'s new value has bit bitNum equal to `data != 0` and the other seven bits as read |
| Bits.WithBit8Get | I2Cdev.cpp:266 | the forced bit reads back as forced |
| Bits.Insert8Bits | I2Cdev.cpp:286-314 | field insertion puts data bit j at bit bitStart-length+1+j inside the field and keeps every bit outside it |
| Bits.Insert8Field | I2Cdev.cpp:286-314 | reading back a field just inserted gives data mod 2^length |
| Bits.Insert8Same | I2Cdev.cpp:286-314 | inserting the field just read leaves the register unchanged |
| Bits.PlaceAsWritten8Bits | I2Cdev.cpp:306-307 | the two data shifts put the low `length` data bits at bitStart-length+1..bitStart and clear every other bit |
| Bits.InsertAsWritten8At4And3 | I2Cdev.cpp:294-309 | for (4, 3) the mask is 0xE3, the comment's example gives 0xAB, and the written code equals field insertion for every register value and datum |
| Bits.InsertAsWritten8At7And2 | I2Cdev.cpp:305 | for (7, 2) the mask is 0xC0: register 0x0F with data 3 becomes 0xC0 where field insertion gives 0xCF |
| Bits.InsertAsWritten8WrongElsewhere | I2Cdev.cpp:305 | for every in-range field other than (4, 3) the written code differs from field insertion (register 0xFF, data 0) |
| Bits.Field16Bits | I2Cdev.cpp:101-126 | `readBitsW` is right-aligned: bit j of the field is word bit bitStart-length+1+j for j < length, and 0 above |
| Bits.Field16Examples | I2Cdev.cpp:111-115 | `1101011001101001` at (12, 3) reads `101` (0x05), not the `010` the comment shows; `101` read at any position is 0x05 |
| Bits.Field16Fits | I2Cdev.cpp:119-123 | a 16-bit field read has no bit set at or above `length` |
| Bits.Span16Step | I2Cdev.cpp:119-121 | one pass of the `readBitsW` loop extends the collected span down by one bit |
| Bits.Span16Shift | I2Cdev.cpp:122 | the final shift of the collected span gives the field |
| Bits.CollectedSpan16 | I2Cdev.cpp:119-121 | after n passes the loop holds exactly word bits bitStart+1-n..bitStart (by induction on n) |
| Bits.CollectedNext16 | I2Cdev.cpp:120 | the next pass adds exactly bit bitStart-n |
| Bits.CollectedField16 | I2Cdev.cpp:119-123 | after `length` passes the final shift yields the right-aligned field |
| Bits.MaskedBit16 | I2Cdev.cpp:68-73 | `w & (1 << bitNum)` is either 0 or exactly `1 << bitNum` |
| Bits.WithBit16Bits | I2Cdev.cpp:278-283 | `writeBitW` sets bit bitNum to `data != 0` and keeps the other fifteen bits |
| Bits.WithBit16Get | I2Cdev.cpp:280 | the forced bit reads back as forced |
| Bits.Insert16Bits | I2Cdev.cpp:316-345 | 16-bit field insertion places data inside the field and keeps every bit outside it |
| Bits.Insert16Field | I2Cdev.cpp:316-345 | reading back a 16-bit field just inserted gives data mod 2^length, bit by bit |
| Bits.Insert16Same | I2Cdev.cpp:316-345 | inserting the 16-bit field just read leaves the word unchanged |
| Bits.PlaceAsWritten16Bits | I2Cdev.cpp:337-338 | the two data shifts place the low `length` data bits in the field and clear every other bit |
| Bits.InsertAsWritten16At12And3 | I2Cdev.cpp:325-336 | at the comment's (12, 3) the mask is 0xE003, not 0xE3FF: word 0xFFFF with data 2 becomes 0xE803 where field insertion gives 0xEBFF |
| Bits.InsertAsWritten16At8And7 | I2Cdev.cpp:336 | for (8, 7) the mask is 0xFE03 and the written code equals field insertion |
| Bits.InsertAsWritten16WrongElsewhere | I2Cdev.cpp:336 | for every in-range field other than (8, 7) the written code differs from field insertion |
| I2C.ReadBitsGuardAgrees | I2Cdev.cpp:92 | while the field stays above bit 0, the loop guard evaluated in `int` equals the 8-bit comparison `i > bitStart - length` |
| I2C.ReadBitsLoopNeverExits | I2Cdev.cpp:92 | when the field reaches bit 0 (bitStart < length) the guard holds for every `uint8_t` value of `i`, so the loop never ends |
| I2C.CollectBitsAsWritten8 | I2Cdev.cpp:92-94 | the count-down loop as written collects exactly the field's bits in place |
| I2C.CollectBits8 | I2Cdev.cpp:92-94 | a loop counting the collected bits collects the same bits and also ends when the field reaches bit 0 |
| I2C.CollectBitsAsWritten16 | I2Cdev.cpp:119-121 | the 16-bit count-down loop as written collects exactly the field's bits |
| I2C.CollectBits16 | I2Cdev.cpp:119-121 | the counting 16-bit loop collects the same bits for every field |
| I2C.ExtractAsWritten8 | I2Cdev.cpp:92-96 | loop plus shift give the right-aligned field, at most `length` bits wide |
| I2C.Extract8 | I2Cdev.cpp:92-96 | the same, for every field including those that reach bit 0 |
| I2C.ExtractAsWritten16 | I2Cdev.cpp:119-123 | loop plus shift give the right-aligned 16-bit field |
| I2C.Extract16 | I2Cdev.cpp:119-123 | the same, for every 16-bit field |
| I2C.MergeAsWritten8 | I2Cdev.cpp:305-309 | the mask, the shifts and the merge compute InsertAsWritten8 |
| I2C.MergeAsWritten16 | I2Cdev.cpp:336-340 | the 16-bit mask, shifts and merge compute InsertAsWritten16 |
| I2C.I2Cdev.constructor | I2Cdev.cpp:42-43 | the register file starts with the given registers, words, unreadable set and stalled set |
| I2C.I2Cdev.ReadByte | I2Cdev.cpp:135-137 | the count is 1, 0 or -1 by the register's state; only a successful read delivers the register's byte |
| I2C.I2Cdev.ReadWord | I2Cdev.cpp:146-148 | the count is 1, 0 or -1 by the word register's state; a successful read delivers the word; a failed one leaves the destination or stores a value whose low byte is zero |
| I2C.I2Cdev.WriteByte | I2Cdev.cpp:353-355 | reports true; an answering register takes the byte, nothing else changes |
| I2C.I2Cdev.WriteWord | I2Cdev.cpp:363-365 | the same for 16-bit registers |
| I2C.I2Cdev.ReadBit | I2Cdev.cpp:53-58 | returns the read's count; the value is 0 or `1 << bitNum` whatever the count; after a successful read it is the register masked by `1 << bitNum`, non-zero iff the bit is set |
| I2C.I2Cdev.ReadBitsAsWritten | I2Cdev.cpp:84-99 | for fields above bit 0: count returned unchanged, data untouched on count 0, the right-aligned field on success, at most `length` bits on any non-zero count |
| I2C.I2Cdev.ReadBits | I2Cdev.cpp:84-99 | the same for every field, with the counting loop |
| I2C.I2Cdev.WriteBit | I2Cdev.cpp:264-269 | always true; on a successful read only bit bitNum of that register changes, to `data != 0`; a missing register is untouched; after a failed read of an existing register (no data or timeout) the write still happens: no other register changes and the bit is forced |
| I2C.I2Cdev.WriteBitsAsWritten | I2Cdev.cpp:293-314 | false and no write when the read returns 0; on a successful read the register becomes InsertAsWritten8 of its value; on a timeout only this register changes, the other bits are unknown, and every bit the line-306/307 placement sets is set |
| I2C.I2Cdev.WriteBits | I2Cdev.cpp:293-314 | false and no write when the read returns 0; on a successful read the field takes data mod 2^length and the other bits stay; on a timeout only this register changes and its field takes data mod 2^length, the other bits unknown |
| I2C.I2Cdev.ReadBitW | I2Cdev.cpp:68-73 | the value is 0 or `1 << bitNum`; after a successful read it is the word masked by `1 << bitNum`, non-zero iff the bit is set |
| I2C.I2Cdev.ReadBitsWAsWritten | I2Cdev.cpp:110-126 | for fields above bit 0: count unchanged, data untouched on count 0, the right-aligned 16-bit field on success |
| I2C.I2Cdev.ReadBitsW | I2Cdev.cpp:110-126 | the same for every 16-bit field |
| I2C.I2Cdev.WriteBitW | I2Cdev.cpp:278-283 | always true; on a successful read only bit bitNum of the word changes, to `data != 0`; a missing word is untouched; after a failed read of an existing word the bit is still forced and no other word changes |
| I2C.I2Cdev.WriteBitsWAsWritten | I2Cdev.cpp:324-345 | false and no write when the read returns 0; on a successful read the word becomes InsertAsWritten16 of its value; on a timeout only this word changes, the other bits are unknown, and every bit the line-337/338 placement sets is set |
| I2C.I2Cdev.WriteBitsW | I2Cdev.cpp:324-345 | false and no write when the read returns 0; on a successful read the field takes data mod 2^length and the other bits stay; on a timeout only this word changes and its field takes data mod 2^length, bit by bit, the other bits unknown |
| Gyro.RateCode | Arduino/L3G4200D/L3G4200D.cpp:92-104 | the code is one of the four rate codes, and it is the 800 Hz code exactly when the rate is not 100, 200 or 400 |
| Gyro.RateOf | Arduino/L3G4200D/L3G4200D.cpp:126-135 | the rate is 100, 200, 400 or 800, and it is 800 exactly when the code is none of the other three codes |
| Gyro.RateRoundTrip | Arduino/L3G4200D/L3G4200D.cpp:92-136 | decoding an encoded rate gives back 100/200/400/800, and 800 for any other request |
| Gyro.CodeRoundTrip | Arduino/L3G4200D/L3G4200D.cpp:92-136 | encoding a decoded code gives back the code |
| Gyro.CutOffTenths | Arduino/L3G4200D/L3G4200D.cpp:183-232 | every cut-off lies between 12.5 and 110 Hz |
| Gyro.CutOffMatchesDatasheet | Arduino/L3G4200D/L3G4200D.cpp:190-231 | for every pair of rate and bandwidth codes the lookup equals the datasheet's DR/BW table |
| Gyro.CutOffFallbacks | Arduino/L3G4200D/L3G4200D.cpp:204-231 | the lookup is total: an unknown rate code reads the 800 Hz row, an unknown bandwidth code the last arm of its row |
| Gyro.CutOffAt100 | Arduino/L3G4200D/L3G4200D.cpp:191-196 | at 100 Hz: 12.5 Hz for the lowest code, 25 Hz for every other, the medium-low one included |
| Gyro.CutOffMonotoneInMode | Arduino/L3G4200D/L3G4200D.cpp:190-231 | within a rate, a higher bandwidth code never lowers the cut-off |
| Gyro.CutOffMonotoneInRate | Arduino/L3G4200D/L3G4200D.cpp:190-231 | within a bandwidth code, a faster rate never lowers the cut-off |
| Gyro.CutOffBelowNyquist | Arduino/L3G4200D/L3G4200D.cpp:183-232 | every cut-off is below half the output data rate that RateOf gives for the same code |
| Gyro.StatusByte | Arduino/L3G4200D/L3G4200D.cpp:122-123 | a read status stored in a `uint8_t` reads back as the same `int8_t` |
| Gyro.StatusReadings | Arduino/L3G4200D/L3G4200D.cpp:120-188 | taking the status for the field gives 200 Hz on success, 100 Hz on no answer, 800 Hz on timeout; mode code 1; cut-off 25 / 12.5 / 110 Hz |
| Gyro.StatusIsNotTheRate | Arduino/L3G4200D/L3G4200D.cpp:120-136 | a register at 800 Hz reads 800 Hz by its field but 200 Hz by the successful read's status |
| Gyro.SetThenGetRate | Arduino/L3G4200D/L3G4200D.cpp:92-136 | with a field mask, setting the rate and reading it back gives the requested rate (800 Hz if unsupported) and the six low bits stay |
| Gyro.SetThenGetBandwidth | Arduino/L3G4200D/L3G4200D.cpp:148-166 | with a field mask, setting the bandwidth reads back as mode mod 4, and the rate field and four low bits stay |
| Gyro.SetRateAsWrittenPowersDown | Arduino/L3G4200D/L3G4200D.cpp:106-107 | through the mask of I2Cdev.cpp:305 the new rate code is OR-ed into the old one, and the power-down bit and all axis enables are cleared |
| Gyro.SetBandwidthAsWrittenClearsPowerAndZ | Arduino/L3G4200D/L3G4200D.cpp:150-151 | through the same mask the bandwidth field is written correctly, but the power-down and Z-enable bits are cleared |
| Gyro.WroteBitOnly | Arduino/L3G4200D/L3G4200D.cpp:239-295 | a successful single-bit write sets its bit and changes no other bit of CTRL_REG1 and no other register |
| Gyro.L3G4200D.constructor | Arduino/L3G4200D/L3G4200D.cpp:40-42 | the device address is the default 0x69 |
| Gyro.L3G4200D.WithAddress | Arduino/L3G4200D/L3G4200D.cpp:49-51 | the device address is the one given |
| Gyro.L3G4200D.GetDeviceID | Arduino/L3G4200D/L3G4200D.cpp:74-78 | returns the buffer byte: the WHO_AM_I register after a successful read, the old buffer byte otherwise |
| Gyro.L3G4200D.TestConnection | Arduino/L3G4200D/L3G4200D.cpp:63-65 | true exactly when the byte read is 0xD3; the buffer holds WHO_AM_I after a successful read and its old byte otherwise, and the result is true exactly when the buffer holds 0xD3 |
| Gyro.L3G4200D.Initialize | Arduino/L3G4200D/L3G4200D.cpp:55-57 | writes the power-down bit to 1 through `writeBit` and nothing else |
| Gyro.L3G4200D.SetPowerOn | Arduino/L3G4200D/L3G4200D.cpp:239-241 | writes the PD bit through `writeBit` |
| Gyro.L3G4200D.SetZEnabled | Arduino/L3G4200D/L3G4200D.cpp:257-259 | writes the Zen bit through `writeBit` |
| Gyro.L3G4200D.SetYEnabled | Arduino/L3G4200D/L3G4200D.cpp:275-277 | writes the Yen bit through `writeBit` |
| Gyro.L3G4200D.SetXEnabled | Arduino/L3G4200D/L3G4200D.cpp:293-295 | writes the Xen bit through `writeBit` |
| Gyro.L3G4200D.SetDataOutputRateAsWritten | Arduino/L3G4200D/L3G4200D.cpp:92-108 | writes RateCode(rate) into the DR field through the `writeBits` mask as written; on a timeout only CTRL_REG1 changes and the placed code bits are set |
| Gyro.L3G4200D.SetDataOutputRate | Arduino/L3G4200D/L3G4200D.cpp:92-108 | writes RateCode(rate) into the DR field, keeping every other bit |
| Gyro.L3G4200D.SetBandwidthCutOffModeAsWritten | Arduino/L3G4200D/L3G4200D.cpp:148-152 | writes the mode into the BW field through the `writeBits` mask as written; on a timeout only CTRL_REG1 changes and the placed mode bits are set |
| Gyro.L3G4200D.SetBandwidthCutOffMode | Arduino/L3G4200D/L3G4200D.cpp:148-152 | writes the mode into the BW field, keeping every other bit |
| Gyro.L3G4200D.GetDataOutputRateAsWritten | Arduino/L3G4200D/L3G4200D.cpp:120-136 | returns the rate that RateOf gives for the read status, whatever the register holds; the buffer holds the DR field after a successful read, is unchanged when the read returned 0, and holds a two-bit value on any non-zero count |
| Gyro.L3G4200D.GetDataOutputRate | Arduino/L3G4200D/L3G4200D.cpp:120-136 | returns the rate of the DR field after a successful read, and of the old buffer byte when nothing arrived; for any count it is the rate of the byte left in the buffer; the buffer holds the DR field after a successful read, is unchanged when the read returned 0, and holds a two-bit value on any non-zero count |
| Gyro.L3G4200D.GetBandwidthCutOffModeAsWritten | Arduino/L3G4200D/L3G4200D.cpp:163-166 | returns the read status as a byte (1, 0 or 0xFF); the buffer holds the BW field after a successful read, is unchanged when the read returned 0, and holds a two-bit value on any non-zero count |
| Gyro.L3G4200D.GetBandwidthCutOffMode | Arduino/L3G4200D/L3G4200D.cpp:163-166 | returns the BW field after a successful read, and the old buffer byte when nothing arrived; for any count it is the byte left in the buffer; always a valid code when something arrived; the buffer holds the BW field after a successful read, is unchanged when the read returned 0, and holds a two-bit value on any non-zero count |
| Gyro.L3G4200D.GetBandwidthCutOffAsWritten | Arduino/L3G4200D/L3G4200D.cpp:183-232 | looks up the cut-off with the two read statuses as codes; the buffer holds the BW field of the second read after a successful read, is unchanged when the read returned 0, and holds a two-bit value on any non-zero count |
| Gyro.L3G4200D.GetBandwidthCutOff | Arduino/L3G4200D/L3G4200D.cpp:183-232 | looks up the cut-off of the DR and BW fields after a successful read; the buffer holds the BW field of the second read after a successful read, is unchanged when the read returned 0, and holds a two-bit value on any non-zero count |
| Gyro.L3G4200D.GetPowerOnAsWritten | Arduino/L3G4200D/L3G4200D.cpp:248-250 | true exactly when the read status is non-zero; the buffer is 0 or the PD mask whatever the count, and after a successful read it is CTRL_REG1 masked to the PD bit |
| Gyro.L3G4200D.GetPowerOn | Arduino/L3G4200D/L3G4200D.cpp:248-250 | after a successful read, true exactly when the PD bit is set; for any count, true exactly when the buffer is non-zero; the buffer is 0 or the PD mask whatever the count, and after a successful read it is CTRL_REG1 masked to the PD bit |
| Gyro.L3G4200D.GetZEnabledAsWritten | Arduino/L3G4200D/L3G4200D.cpp:265-268 | true exactly when the read status is non-zero; the buffer is 0 or the Zen mask whatever the count, and after a successful read it is CTRL_REG1 masked to the Zen bit |
| Gyro.L3G4200D.GetZEnabled | Arduino/L3G4200D/L3G4200D.cpp:265-268 | after a successful read, true exactly when the Zen bit is set; for any count, true exactly when the buffer is non-zero; the buffer is 0 or the Zen mask whatever the count, and after a successful read it is CTRL_REG1 masked to the Zen bit |
| Gyro.L3G4200D.GetYEnabledAsWritten | Arduino/L3G4200D/L3G4200D.cpp:283-286 | true exactly when the read status is non-zero; the buffer is 0 or the Yen mask whatever the count, and after a successful read it is CTRL_REG1 masked to the Yen bit |
| Gyro.L3G4200D.GetYEnabled | Arduino/L3G4200D/L3G4200D.cpp:283-286 | after a successful read, true exactly when the Yen bit is set; for any count, true exactly when the buffer is non-zero; the buffer is 0 or the Yen mask whatever the count, and after a successful read it is CTRL_REG1 masked to the Yen bit |
| Gyro.L3G4200D.GetXEnabledAsWritten | Arduino/L3G4200D/L3G4200D.cpp:301-304 | true exactly when the read status is non-zero; the buffer is 0 or the Xen mask whatever the count, and after a successful read it is CTRL_REG1 masked to the Xen bit |
| Gyro.L3G4200D.GetXEnabled | Arduino/L3G4200D/L3G4200D.cpp:301-304 | after a successful read, true exactly when the Xen bit is set; for any count, true exactly when the buffer is non-zero; the buffer is 0 or the Xen mask whatever the count, and after a successful read it is CTRL_REG1 masked to the Xen bit |

## Left out

- The bus transactions of `readBytes`, `readWords`, `writeBytes` and `writeWords` (I2Cdev.cpp:158-255, 374-436) are left out. They are `Wire` I/O with `millis()` timeout loops, and the register file stands in for them.
- The `timeout` parameter and the static `readTimeout` (I2Cdev.cpp:441) are left out: timing is reduced to the register file's `stalled` set.
- Apart from the lone high byte of a failed word read, the partial transfers of `readBytes` and `readWords` are not modelled, because the register file moves one register at a time.
- The `I2CDEV_SERIAL_DEBUG` tracing is left out.
- The `writeWords` loop advances `i` twice per word (I2Cdev.cpp:420-423) and overruns `data`. This is on the I/O side and is not modelled.
- Arbitration between several devices and the I2C protocol itself are not modelled.
- Floating point is not modelled. `getBandwidthCutOff` only returns literals, and these are integers in tenths of a hertz.
- Only the first byte of the driver's `buffer` is modelled, because it is the only byte this file uses. Its size is declared in `L3G4200D.h`, which is not part of this model.
- `L3G4200D.h` is not part of this model, so its constants are fixed to the datasheet layout listed above.
- Gyro.L3G4200D.GetBandwidthCutOffAsWritten: a register's read status is fixed for the whole run, so the two `readBits` calls (L3G4200D.cpp:185-188) always return the same count. The mixed outcomes of two independent bus transactions are not modelled: a DR read that succeeds followed by a BW read that times out (70 Hz, L3G4200D.cpp:206), or the reverse (35 Hz, L3G4200D.cpp:224).
- Gyro.L3G4200D.GetBandwidthCutOff: for the same reason its two reads always share one status, so a successful DR read followed by a failed BW read is not modelled.
- Gyro.StatusByte: takes only the three counts a one-byte read returns (1, 0, -1), not every `int8_t`.
- I2C.CollectBitsAsWritten8: evaluates the loop guard on 8 bits. I2C.ReadBitsGuardAgrees shows this equals the source's `int` comparison for the fields this method accepts.
- I2C.CollectBitsAsWritten16: evaluates the loop guard on 8 bits, as above.
- Bits.Insert16Field: stated bit by bit rather than as one equation of words. The meaning is the same, and the 8-bit Bits.Insert8Field is stated as an equation.

## Findings

| source | as written | input that shows it | evidently intended | confidence | as-written member | corrected member |
|---|---|---|---|---|---|---|
| I2Cdev.cpp:92 | `for (uint8_t i = bitStart; i > bitStart - length; i--)` compares in `int` | bitStart 2, length 3: `bitStart - length` is -1, so every `uint8_t` value of `i` passes the guard and the loop never ends | stop after `length` bits for every field, including one that ends at bit 0 | high; not executed | I2C.ReadBitsLoopNeverExits | I2C.CollectBits8 |
| I2Cdev.cpp:119 | the same loop in `readBitsW` | bitStart 11, length 12 | stop after `length` bits | high; not executed | I2C.ReadBitsLoopNeverExits | I2C.CollectBits16 |
| I2Cdev.cpp:305 | mask `(0xFF << (8 - length)) \| (0xFF >> (bitStart + length - 1))` | bitStart 7, length 2, register 0x0F, data 3: writes 0xC0 instead of 0xCF | clear exactly the field's bits | high; not executed | Bits.InsertAsWritten8WrongElsewhere | I2C.I2Cdev.WriteBits |
| I2Cdev.cpp:336 | mask `(0xFFFF << (16 - length)) \| (0xFFFF >> (bitStart + length - 1))` | bitStart 12, length 3 (the comment's own case), word 0xFFFF, data 2: writes 0xE803 instead of 0xEBFF | clear exactly the field's bits | high; not executed | Bits.InsertAsWritten16WrongElsewhere | I2C.I2Cdev.WriteBitsW |
| Arduino/L3G4200D/L3G4200D.cpp:106-107 | `setDataOutputRate` goes through that mask | CTRL_REG1 0x0F (powered, all axes on), rate 800: the register becomes 0xC0 and the chip powers down | only the DR field changes | high; not executed | Gyro.SetRateAsWrittenPowersDown | Gyro.SetThenGetRate |
| Arduino/L3G4200D/L3G4200D.cpp:150-151 | `setBandwidthCutOffMode` goes through that mask | CTRL_REG1 0x0F, mode 0: the register becomes 0x03, with PD and Zen cleared | only the BW field changes | high; not executed | Gyro.SetBandwidthAsWrittenClearsPowerAndZ | Gyro.SetThenGetBandwidth |
| Arduino/L3G4200D/L3G4200D.cpp:122 | the `readBits` status is decoded as the rate | CTRL_REG1 0xC0 (800 Hz) read successfully: reports 200 Hz | decode the field stored in `buffer` | high; not executed | Gyro.StatusIsNotTheRate | Gyro.L3G4200D.GetDataOutputRate |
| Arduino/L3G4200D/L3G4200D.cpp:164 | the `readBits` status is returned as the mode | any successful read: returns 1 whatever the BW field holds | return the field stored in `buffer` | high; not executed | Gyro.L3G4200D.GetBandwidthCutOffModeAsWritten | Gyro.L3G4200D.GetBandwidthCutOffMode |
| Arduino/L3G4200D/L3G4200D.cpp:185-188 | both statuses are looked up as codes | any successful read: 25 Hz whatever DR and BW hold | look up the two fields | high; not executed | Gyro.StatusReadings | Gyro.L3G4200D.GetBandwidthCutOff |
| Arduino/L3G4200D/L3G4200D.cpp:249 | `getPowerOn` returns the `readBit` status | CTRL_REG1 0x00 (powered down) read successfully: reports true | test the bit stored in `buffer` | high; not executed | Gyro.L3G4200D.GetPowerOnAsWritten | Gyro.L3G4200D.GetPowerOn |
| Arduino/L3G4200D/L3G4200D.cpp:266 | `getZEnabled` returns the status | CTRL_REG1 0x00 read successfully: reports true | test the bit | high; not executed | Gyro.L3G4200D.GetZEnabledAsWritten | Gyro.L3G4200D.GetZEnabled |
| Arduino/L3G4200D/L3G4200D.cpp:284 | `getYEnabled` returns the status | CTRL_REG1 0x00 read successfully: reports true | test the bit | high; not executed | Gyro.L3G4200D.GetYEnabledAsWritten | Gyro.L3G4200D.GetYEnabled |
| Arduino/L3G4200D/L3G4200D.cpp:302 | `getXEnabled` returns the status | CTRL_REG1 0x00 read successfully: reports true | test the bit | high; not executed | Gyro.L3G4200D.GetXEnabledAsWritten | Gyro.L3G4200D.GetXEnabled |
