/** The L3G4200D gyroscope driver: CTRL_REG1 configuration (output data rate,
    bandwidth, power-down and axis enables) and the WHO_AM_I identity check,
    on top of the I2Cdev bit-field helpers.

    The driver's header is not part of this model.  Register addresses, bit
    positions and codes are fixed to the CTRL_REG1 layout of the
    STMicroelectronics L3G4200D datasheet (rev. 3): DR bits 7:6, BW bits 5:4,
    PD bit 3, Zen bit 2, Yen bit 1, Xen bit 0, field codes 0b00..0b11 in table
    order.  Cut-off frequencies are integers in tenths of a hertz. */
module Gyro {
  import opened Bits
  import opened I2C

  const DEFAULT_ADDRESS: bv8 := 0x69
  const RA_WHO_AM_I: bv8 := 0x0F
  const RA_CTRL_REG1: bv8 := 0x20
  /** The WHO_AM_I value `testConnection` expects, 0b11010011. */
  const DEVICE_ID: bv8 := 0xD3

  const ODR_BIT: bv8 := 7
  const ODR_LENGTH: bv8 := 2
  const BW_BIT: bv8 := 5
  const BW_LENGTH: bv8 := 2
  const PD_BIT: bv8 := 3
  const ZEN_BIT: bv8 := 2
  const YEN_BIT: bv8 := 1
  const XEN_BIT: bv8 := 0

  const RATE_100: bv8 := 0
  const RATE_200: bv8 := 1
  const RATE_400: bv8 := 2
  const RATE_800: bv8 := 3

  const BW_LOW: bv8 := 0
  const BW_MED_LOW: bv8 := 1
  const BW_MED_HIGH: bv8 := 2
  const BW_HIGH: bv8 := 3

  // ------------------------------------------------------------ rate codes

  /** The code `setDataOutputRate` writes: 100, 200 and 400 Hz have their own
      codes and every other request falls back to 800 Hz. */
  function RateCode(rate: bv16): (code: bv8)
    ensures code <= RATE_800
    ensures code == RATE_800 <==> rate != 100 && rate != 200 && rate != 400
  {
    if rate == 100 then RATE_100
    else if rate == 200 then RATE_200
    else if rate == 400 then RATE_400
    else RATE_800
  }

  /** The rate `getDataOutputRate` reports for a code: every value that is not
      the 100, 200 or 400 Hz code reads as 800 Hz. */
  function RateOf(code: int): (rate: bv16)
    ensures rate == 100 || rate == 200 || rate == 400 || rate == 800
    ensures rate == 800 <==> code != RATE_100 as int && code != RATE_200 as int && code != RATE_400 as int
  {
    if code == RATE_100 as int then 100
    else if code == RATE_200 as int then 200
    else if code == RATE_400 as int then 400
    else 800
  }

  /** Decoding an encoded rate gives the rate back when it is one the chip
      supports, and 800 Hz otherwise (999 reads back as 800). */
  lemma RateRoundTrip(rate: bv16)
    ensures rate == 100 || rate == 200 || rate == 400 || rate == 800 ==>
              RateOf(RateCode(rate) as int) == rate
    ensures rate != 100 && rate != 200 && rate != 400 ==> RateOf(RateCode(rate) as int) == 800
  {
  }

  /** Encoding a decoded code gives the code back: the four codes and the four
      rates are in one-to-one correspondence. */
  lemma CodeRoundTrip(code: bv8)
    requires code <= RATE_800
    ensures RateCode(RateOf(code as int)) == code
  {
  }

  // --------------------------------------------------------- cut-off table

  /** The DR/BW table of the datasheet, in tenths of a hertz: one row per
      rate code, one column per bandwidth code. */
  const DATASHEET_CUTOFF: seq<seq<nat>> :=
    [ [125, 250, 250, 250],
      [125, 250, 500, 700],
      [200, 250, 500, 1100],
      [300, 350, 500, 1100] ]

  /** The cut-off `getBandwidthCutOff` returns for a rate code and a
      bandwidth code.  A rate code that is none of 100/200/400 uses the
      800 Hz row; a bandwidth code that is none of the listed ones takes the
      last arm of its row. */
  function CutOffTenths(rate: int, mode: int): (tenths: nat)
    ensures 125 <= tenths <= 1100
  {
    if rate == RATE_100 as int then
      if mode == BW_LOW as int then 125 else 250
    else if rate == RATE_200 as int then
      if mode == BW_LOW as int then 125
      else if mode == BW_MED_LOW as int then 250
      else if mode == BW_MED_HIGH as int then 500
      else 700
    else if rate == RATE_400 as int then
      if mode == BW_LOW as int then 200
      else if mode == BW_MED_LOW as int then 250
      else if mode == BW_MED_HIGH as int then 500
      else 1100
    else
      if mode == BW_LOW as int then 300
      else if mode == BW_MED_LOW as int then 350
      else if mode == BW_MED_HIGH as int then 500
      else 1100
  }

  /** The lookup agrees with the datasheet for every pair of codes. */
  lemma CutOffMatchesDatasheet(rate: bv8, mode: bv8)
    requires rate <= RATE_800 && mode <= BW_HIGH
    ensures CutOffTenths(rate as int, mode as int) == DATASHEET_CUTOFF[rate][mode]
  {
  }

  /** The lookup is total: an unknown rate code reads the 800 Hz row and an
      unknown bandwidth code reads as the widest bandwidth. */
  lemma CutOffFallbacks(rate: int, mode: int)
    ensures rate < 0 || rate > RATE_800 as int ==> CutOffTenths(rate, mode) == CutOffTenths(RATE_800 as int, mode)
    ensures mode < 0 || mode > BW_HIGH as int ==> CutOffTenths(rate, mode) == CutOffTenths(rate, BW_HIGH as int)
  {
  }

  /** At 100 Hz only the lowest bandwidth code gives 12.5 Hz; every other
      code, the medium-low one included, gives 25 Hz. */
  lemma CutOffAt100(mode: int)
    ensures CutOffTenths(RATE_100 as int, mode) == if mode == BW_LOW as int then 125 else 250
  {
  }

  /** Within a row a wider bandwidth code never lowers the cut-off. */
  lemma CutOffMonotoneInMode(rate: int, m1: int, m2: int)
    requires 0 <= m1 <= m2 <= BW_HIGH as int
    ensures CutOffTenths(rate, m1) <= CutOffTenths(rate, m2)
  {
  }

  /** Within a column a faster rate never lowers the cut-off. */
  lemma CutOffMonotoneInRate(r1: int, r2: int, mode: int)
    requires 0 <= r1 <= r2 <= RATE_800 as int
    ensures CutOffTenths(r1, mode) <= CutOffTenths(r2, mode)
  {
  }

  /** Every cut-off lies below half the output data rate of its row. */
  lemma CutOffBelowNyquist(rate: int, mode: int)
    ensures CutOffTenths(rate, mode) * 2 < RateOf(rate) as int * 10
  {
  }

  // ------------------------------------------------ status as a field value

  /** A byte read as an `int8_t` (two's complement). */
  function Signed(b: bv8): (i: int)
    ensures -128 <= i < 128
    ensures i < 0 <==> b >= 0x80
  {
    if b < 0x80 then b as int else b as int - 256
  }

  /** A `readBits`/`readBit` status (an `int8_t`: 1, 0 or -1, the only counts
      a one-byte read returns) stored in a `uint8_t`; reading the byte back as
      `int8_t` gives the status again. */
  function StatusByte(count: int): (b: bv8)
    requires count == -1 || count == 0 || count == 1
    ensures Signed(b) == count
  {
    if count == -1 then 0xFF else if count == 0 then 0 else 1
  }

  /** What the getters report when they take the read status for the field
      value: `getDataOutputRate` gives 200 Hz after every successful read,
      `getBandwidthCutOffMode` the medium-low code, `getBandwidthCutOff`
      25 Hz, and `getPowerOn` and the axis getters true. */
  lemma StatusReadings()
    ensures RateOf(StatusByte(1) as int) == 200
    ensures RateOf(StatusByte(0) as int) == 100
    ensures RateOf(StatusByte(-1) as int) == 800
    ensures StatusByte(1) == BW_MED_LOW && StatusByte(-1) == 0xFF
    ensures CutOffTenths(1, 1) == 250 && CutOffTenths(0, 0) == 125 && CutOffTenths(-1, -1) == 1100
  {
  }

  /** A register holding the 800 Hz code reads as 800 Hz by its field, yet as
      200 Hz by the successful read's status. */
  lemma StatusIsNotTheRate()
    ensures Field8(0xC0, ODR_BIT, ODR_LENGTH) == RATE_800
    ensures RateOf(Field8(0xC0, ODR_BIT, ODR_LENGTH) as int) == 800
    ensures RateOf(StatusByte(1) as int) != RateOf(Field8(0xC0, ODR_BIT, ODR_LENGTH) as int)
  {
  }

  // -------------------------------------------- CTRL_REG1 read-modify-write

  /** Setting the rate field and reading it back gives the rate the chip
      runs at: the requested one if supported, 800 Hz otherwise; the
      bandwidth, power-down and axis bits stay as they were. */
  lemma SetThenGetRate(b: bv8, rate: bv16)
    ensures RateOf(Field8(Insert8(b, ODR_BIT, ODR_LENGTH, RateCode(rate)), ODR_BIT, ODR_LENGTH) as int)
            == if rate == 100 || rate == 200 || rate == 400 then rate else 800
    ensures Insert8(b, ODR_BIT, ODR_LENGTH, RateCode(rate)) & 0x3F == b & 0x3F
  {
    Insert8Field(b, ODR_BIT, ODR_LENGTH, RateCode(rate));
  }

  /** Setting the bandwidth field and reading it back gives the low two bits
      of the requested mode; the rate field and the four low bits stay. */
  lemma SetThenGetBandwidth(b: bv8, mode: bv8)
    ensures Field8(Insert8(b, BW_BIT, BW_LENGTH, mode), BW_BIT, BW_LENGTH) == mode & 3
    ensures Field8(Insert8(b, BW_BIT, BW_LENGTH, mode), ODR_BIT, ODR_LENGTH) == Field8(b, ODR_BIT, ODR_LENGTH)
    ensures Insert8(b, BW_BIT, BW_LENGTH, mode) & 0x0F == b & 0x0F
  {
    Insert8Field(b, BW_BIT, BW_LENGTH, mode);
  }

  /** Through the `writeBits` mask of I2Cdev.cpp:305, setting the rate ORs the
      new code into the old one and clears the six low bits: the power-down
      bit and all three axis enables end up 0. */
  lemma SetRateAsWrittenPowersDown(b: bv8, code: bv8)
    requires code <= RATE_800
    ensures Field8(InsertAsWritten8(b, ODR_BIT, ODR_LENGTH, code), ODR_BIT, ODR_LENGTH)
            == Field8(b, ODR_BIT, ODR_LENGTH) | code
    ensures InsertAsWritten8(b, ODR_BIT, ODR_LENGTH, code) & 0x3F == 0
  {
  }

  /** Through the same mask, setting the bandwidth writes its field right but
      clears the power-down and Z-enable bits. */
  lemma SetBandwidthAsWrittenClearsPowerAndZ(b: bv8, mode: bv8)
    ensures Field8(InsertAsWritten8(b, BW_BIT, BW_LENGTH, mode), BW_BIT, BW_LENGTH) == mode & 3
    ensures InsertAsWritten8(b, BW_BIT, BW_LENGTH, mode) & 0xC3 == b & 0xC3
    ensures !Bit8(InsertAsWritten8(b, BW_BIT, BW_LENGTH, mode), PD_BIT)
    ensures !Bit8(InsertAsWritten8(b, BW_BIT, BW_LENGTH, mode), ZEN_BIT)
  {
  }

  /** What `writeBit` leaves in a register map, by the status of its read:
      bit i set to v and the rest as read; nothing when there is no such
      register; after any other failed read (the write is made regardless),
      bit i set to v and the rest unknown. */
  predicate WroteBit(before: map<(bv8, bv8), bv8>, after: map<(bv8, bv8), bv8>,
                     key: (bv8, bv8), status: int, i: bv8, v: bool)
    requires i < 8
  {
    (status == 1 ==> key in before && after == before[key := WithBit8(before[key], i, v)]) &&
    (status != 1 && key !in before ==> after == before) &&
    (status != 1 && key in before ==>
       key in after && after == before[key := after[key]] && Bit8(after[key], i) == v)
  }

  /** A successful single-bit write changes that one bit of that one register. */
  lemma WroteBitOnly(before: map<(bv8, bv8), bv8>, after: map<(bv8, bv8), bv8>,
                     key: (bv8, bv8), i: bv8, v: bool)
    requires i < 8 && WroteBit(before, after, key, 1, i, v)
    ensures key in after && Bit8(after[key], i) == v
    ensures forall j: bv8 :: j < 8 && j != i ==> Bit8(after[key], j) == Bit8(before[key], j)
    ensures forall k :: k in before && k != key ==> k in after && after[k] == before[k]
  {
    WithBit8Bits(before[key], i, v);
  }

  /** What `writeBits` with a field mask leaves in a register map. */
  predicate WroteField(before: map<(bv8, bv8), bv8>, after: map<(bv8, bv8), bv8>,
                       key: (bv8, bv8), status: int, bitStart: bv8, length: bv8, data: bv8)
    requires bitStart < 8 && length <= bitStart + 1
  {
    (status == 1 ==> key in before && after == before[key := Insert8(before[key], bitStart, length, data)]) &&
    (status == 0 ==> after == before) &&
    (status == -1 ==> key in after && after == before[key := after[key]] &&
                      Field8(after[key], bitStart, length) == data & Ones8(length))
  }

  /** What `writeBits` as written leaves in a register map. */
  predicate WroteFieldAsWritten(before: map<(bv8, bv8), bv8>, after: map<(bv8, bv8), bv8>,
                                key: (bv8, bv8), status: int, bitStart: bv8, length: bv8, data: bv8)
    requires bitStart < 8 && length <= 8 && 1 <= bitStart + length
  {
    (status == 1 ==> key in before && after == before[key := InsertAsWritten8(before[key], bitStart, length, data)]) &&
    (status == 0 ==> after == before) &&
    (status == -1 ==> key in after && after == before[key := after[key]] &&
                      after[key] & PlaceAsWritten8(data, bitStart, length) == PlaceAsWritten8(data, bitStart, length))
  }

  // ---------------------------------------------------------------- driver

  class L3G4200D {
    /** The register file standing for the I2C bus. */
    const bus: I2Cdev
    var devAddr: bv8
    /** First byte of the driver's scratch buffer, the only one used here. */
    var buffer: bv8

    /** The default-address constructor. */
    constructor (bus: I2Cdev)
      ensures this.bus == bus && devAddr == DEFAULT_ADDRESS
    {
      this.bus := bus;
      devAddr := DEFAULT_ADDRESS;
    }

    /** The constructor for a given address. */
    constructor WithAddress(bus: I2Cdev, address: bv8)
      ensures this.bus == bus && devAddr == address
    {
      this.bus := bus;
      devAddr := address;
    }

    /** The count a read of CTRL_REG1 returns. */
    function Ctrl1Status(): int
      reads this, bus
    {
      bus.ByteStatus(devAddr, RA_CTRL_REG1)
    }

    /** `getDeviceID`: the WHO_AM_I byte, read into the buffer; when the read
        fails the buffer keeps its old byte and that is returned. */
    method GetDeviceID() returns (id: bv8)
      modifies this`buffer
      ensures id == buffer
      ensures bus.ByteStatus(devAddr, RA_WHO_AM_I) == 1 ==> id == bus.regs[(devAddr, RA_WHO_AM_I)]
      ensures bus.ByteStatus(devAddr, RA_WHO_AM_I) != 1 ==> id == old(buffer)
    {
      var count;
      count, buffer := bus.ReadByte(devAddr, RA_WHO_AM_I, buffer);
      id := buffer;
    }

    /** `testConnection`: true exactly when the byte `getDeviceID` returns is
        0xD3. */
    method TestConnection() returns (ok: bool)
      modifies this`buffer
      ensures bus.ByteStatus(devAddr, RA_WHO_AM_I) == 1 ==>
                (ok <==> bus.regs[(devAddr, RA_WHO_AM_I)] == DEVICE_ID)
      ensures bus.ByteStatus(devAddr, RA_WHO_AM_I) != 1 ==> (ok <==> old(buffer) == DEVICE_ID)
      ensures bus.ByteStatus(devAddr, RA_WHO_AM_I) == 1 ==> buffer == bus.regs[(devAddr, RA_WHO_AM_I)]
      ensures bus.ByteStatus(devAddr, RA_WHO_AM_I) != 1 ==> buffer == old(buffer)
      ensures ok <==> buffer == DEVICE_ID
    {
      var id := GetDeviceID();
      ok := id == DEVICE_ID;
    }

    /** `setPowerOn`: writes the PD bit of CTRL_REG1 through `writeBit`. */
    method SetPowerOn(on: bool)
      modifies bus`regs
      ensures WroteBit(old(bus.regs), bus.regs, (devAddr, RA_CTRL_REG1), old(Ctrl1Status()), PD_BIT, on)
    {
      var _ := bus.WriteBit(devAddr, RA_CTRL_REG1, PD_BIT, if on then 1 else 0);
    }

    /** `initialize`: power on, and nothing else. */
    method Initialize()
      modifies bus`regs
      ensures WroteBit(old(bus.regs), bus.regs, (devAddr, RA_CTRL_REG1), old(Ctrl1Status()), PD_BIT, true)
    {
      SetPowerOn(true);
    }

    /** `setZEnabled`. */
    method SetZEnabled(enabled: bool)
      modifies bus`regs
      ensures WroteBit(old(bus.regs), bus.regs, (devAddr, RA_CTRL_REG1), old(Ctrl1Status()), ZEN_BIT, enabled)
    {
      var _ := bus.WriteBit(devAddr, RA_CTRL_REG1, ZEN_BIT, if enabled then 1 else 0);
    }

    /** `setYEnabled`. */
    method SetYEnabled(enabled: bool)
      modifies bus`regs
      ensures WroteBit(old(bus.regs), bus.regs, (devAddr, RA_CTRL_REG1), old(Ctrl1Status()), YEN_BIT, enabled)
    {
      var _ := bus.WriteBit(devAddr, RA_CTRL_REG1, YEN_BIT, if enabled then 1 else 0);
    }

    /** `setXEnabled`. */
    method SetXEnabled(enabled: bool)
      modifies bus`regs
      ensures WroteBit(old(bus.regs), bus.regs, (devAddr, RA_CTRL_REG1), old(Ctrl1Status()), XEN_BIT, enabled)
    {
      var _ := bus.WriteBit(devAddr, RA_CTRL_REG1, XEN_BIT, if enabled then 1 else 0);
    }

    /** `setDataOutputRate` as written: the code goes through the `writeBits`
        mask of I2Cdev.cpp:305 (see SetRateAsWrittenPowersDown). */
    method SetDataOutputRateAsWritten(rate: bv16)
      modifies bus`regs
      ensures WroteFieldAsWritten(old(bus.regs), bus.regs, (devAddr, RA_CTRL_REG1), old(Ctrl1Status()),
                                  ODR_BIT, ODR_LENGTH, RateCode(rate))
    {
      var writeVal := RateCode(rate);
      var _ := bus.WriteBitsAsWritten(devAddr, RA_CTRL_REG1, ODR_BIT, ODR_LENGTH, writeVal);
    }

    /** `setDataOutputRate` over a field-masked `writeBits`: only the rate
        field changes (see SetThenGetRate). */
    method SetDataOutputRate(rate: bv16)
      modifies bus`regs
      ensures WroteField(old(bus.regs), bus.regs, (devAddr, RA_CTRL_REG1), old(Ctrl1Status()),
                         ODR_BIT, ODR_LENGTH, RateCode(rate))
    {
      var writeVal := RateCode(rate);
      var _ := bus.WriteBits(devAddr, RA_CTRL_REG1, ODR_BIT, ODR_LENGTH, writeVal);
    }

    /** `setBandwidthCutOffMode` as written (see
        SetBandwidthAsWrittenClearsPowerAndZ). */
    method SetBandwidthCutOffModeAsWritten(mode: bv8)
      modifies bus`regs
      ensures WroteFieldAsWritten(old(bus.regs), bus.regs, (devAddr, RA_CTRL_REG1), old(Ctrl1Status()),
                                  BW_BIT, BW_LENGTH, mode)
    {
      var _ := bus.WriteBitsAsWritten(devAddr, RA_CTRL_REG1, BW_BIT, BW_LENGTH, mode);
    }

    /** `setBandwidthCutOffMode` over a field-masked `writeBits`. */
    method SetBandwidthCutOffMode(mode: bv8)
      modifies bus`regs
      ensures WroteField(old(bus.regs), bus.regs, (devAddr, RA_CTRL_REG1), old(Ctrl1Status()),
                         BW_BIT, BW_LENGTH, mode)
    {
      var _ := bus.WriteBits(devAddr, RA_CTRL_REG1, BW_BIT, BW_LENGTH, mode);
    }

    /** `getDataOutputRate` as written: the `readBits` status, not the field,
        is decoded (see StatusReadings). */
    method GetDataOutputRateAsWritten() returns (rate: bv16)
      modifies this`buffer
      ensures rate == RateOf(StatusByte(Ctrl1Status()) as int)
      ensures Ctrl1Status() == 1 ==> buffer == Field8(bus.regs[(devAddr, RA_CTRL_REG1)], ODR_BIT, ODR_LENGTH)
      ensures Ctrl1Status() == 0 ==> buffer == old(buffer)
      ensures Ctrl1Status() != 0 ==> buffer <= 3
    {
      var count;
      count, buffer := bus.ReadBitsAsWritten(devAddr, RA_CTRL_REG1, ODR_BIT, ODR_LENGTH, buffer);
      var code := StatusByte(count);
      rate := RateOf(code as int);
    }

    /** `getDataOutputRate` decoding the field read into the buffer. */
    method GetDataOutputRate() returns (rate: bv16)
      modifies this`buffer
      ensures Ctrl1Status() == 1 ==> rate == RateOf(Field8(bus.regs[(devAddr, RA_CTRL_REG1)], ODR_BIT, ODR_LENGTH) as int)
      ensures Ctrl1Status() == 0 ==> rate == RateOf(old(buffer) as int)
      ensures rate == RateOf(buffer as int)
      ensures Ctrl1Status() == 1 ==> buffer == Field8(bus.regs[(devAddr, RA_CTRL_REG1)], ODR_BIT, ODR_LENGTH)
      ensures Ctrl1Status() == 0 ==> buffer == old(buffer)
      ensures Ctrl1Status() != 0 ==> buffer <= 3
    {
      var count;
      count, buffer := bus.ReadBits(devAddr, RA_CTRL_REG1, ODR_BIT, ODR_LENGTH, buffer);
      rate := RateOf(buffer as int);
    }

    /** `getBandwidthCutOffMode` as written: returns the read status. */
    method GetBandwidthCutOffModeAsWritten() returns (mode: bv8)
      modifies this`buffer
      ensures mode == StatusByte(Ctrl1Status())
      ensures Ctrl1Status() == 1 ==> buffer == Field8(bus.regs[(devAddr, RA_CTRL_REG1)], BW_BIT, BW_LENGTH)
      ensures Ctrl1Status() == 0 ==> buffer == old(buffer)
      ensures Ctrl1Status() != 0 ==> buffer <= 3
    {
      var count;
      count, buffer := bus.ReadBitsAsWritten(devAddr, RA_CTRL_REG1, BW_BIT, BW_LENGTH, buffer);
      mode := StatusByte(count);
    }

    /** `getBandwidthCutOffMode` returning the field read into the buffer. */
    method GetBandwidthCutOffMode() returns (mode: bv8)
      modifies this`buffer
      ensures Ctrl1Status() == 1 ==> mode == Field8(bus.regs[(devAddr, RA_CTRL_REG1)], BW_BIT, BW_LENGTH)
      ensures Ctrl1Status() == 0 ==> mode == old(buffer)
      ensures mode == buffer
      ensures Ctrl1Status() != 0 ==> mode <= BW_HIGH
      ensures Ctrl1Status() == 1 ==> buffer == Field8(bus.regs[(devAddr, RA_CTRL_REG1)], BW_BIT, BW_LENGTH)
      ensures Ctrl1Status() == 0 ==> buffer == old(buffer)
      ensures Ctrl1Status() != 0 ==> buffer <= 3
    {
      var count;
      count, buffer := bus.ReadBits(devAddr, RA_CTRL_REG1, BW_BIT, BW_LENGTH, buffer);
      mode := buffer;
    }

    /** `getBandwidthCutOff` as written: both statuses, kept as `int8_t`, are
        looked up as codes. */
    method GetBandwidthCutOffAsWritten() returns (tenths: nat)
      modifies this`buffer
      ensures tenths == CutOffTenths(Ctrl1Status(), Ctrl1Status())
      ensures Ctrl1Status() == 1 ==> buffer == Field8(bus.regs[(devAddr, RA_CTRL_REG1)], BW_BIT, BW_LENGTH)
      ensures Ctrl1Status() == 0 ==> buffer == old(buffer)
      ensures Ctrl1Status() != 0 ==> buffer <= 3
    {
      var dataRate, bandwidthMode;
      dataRate, buffer := bus.ReadBitsAsWritten(devAddr, RA_CTRL_REG1, ODR_BIT, ODR_LENGTH, buffer);
      bandwidthMode, buffer := bus.ReadBitsAsWritten(devAddr, RA_CTRL_REG1, BW_BIT, BW_LENGTH, buffer);
      tenths := CutOffTenths(dataRate, bandwidthMode);
    }

    /** `getBandwidthCutOff` looking up the two fields. */
    method GetBandwidthCutOff() returns (tenths: nat)
      modifies this`buffer
      ensures Ctrl1Status() == 1 ==>
                tenths == CutOffTenths(Field8(bus.regs[(devAddr, RA_CTRL_REG1)], ODR_BIT, ODR_LENGTH) as int,
                                       Field8(bus.regs[(devAddr, RA_CTRL_REG1)], BW_BIT, BW_LENGTH) as int)
      ensures Ctrl1Status() == 1 ==> buffer == Field8(bus.regs[(devAddr, RA_CTRL_REG1)], BW_BIT, BW_LENGTH)
      ensures Ctrl1Status() == 0 ==> buffer == old(buffer)
      ensures Ctrl1Status() != 0 ==> buffer <= 3
    {
      var count;
      count, buffer := bus.ReadBits(devAddr, RA_CTRL_REG1, ODR_BIT, ODR_LENGTH, buffer);
      var dataRate := buffer;
      count, buffer := bus.ReadBits(devAddr, RA_CTRL_REG1, BW_BIT, BW_LENGTH, buffer);
      var bandwidthMode := buffer;
      tenths := CutOffTenths(dataRate as int, bandwidthMode as int);
    }

    /** `getPowerOn` as written: true whenever the read status is non-zero. */
    method GetPowerOnAsWritten() returns (on: bool)
      modifies this`buffer
      ensures on <==> Ctrl1Status() != 0
      ensures buffer == 0 || buffer == 1 << PD_BIT
      ensures Ctrl1Status() == 1 ==> buffer == bus.regs[(devAddr, RA_CTRL_REG1)] & (1 << PD_BIT)
    {
      var count;
      count, buffer := bus.ReadBit(devAddr, RA_CTRL_REG1, PD_BIT);
      on := count != 0;
    }

    /** `getPowerOn` testing the bit read into the buffer. */
    method GetPowerOn() returns (on: bool)
      modifies this`buffer
      ensures Ctrl1Status() == 1 ==> (on <==> Bit8(bus.regs[(devAddr, RA_CTRL_REG1)], PD_BIT))
      ensures on <==> buffer != 0
      ensures buffer == 0 || buffer == 1 << PD_BIT
      ensures Ctrl1Status() == 1 ==> buffer == bus.regs[(devAddr, RA_CTRL_REG1)] & (1 << PD_BIT)
    {
      var count;
      count, buffer := bus.ReadBit(devAddr, RA_CTRL_REG1, PD_BIT);
      on := buffer != 0;
    }

    /** `getZEnabled` as written. */
    method GetZEnabledAsWritten() returns (enabled: bool)
      modifies this`buffer
      ensures enabled <==> Ctrl1Status() != 0
      ensures buffer == 0 || buffer == 1 << ZEN_BIT
      ensures Ctrl1Status() == 1 ==> buffer == bus.regs[(devAddr, RA_CTRL_REG1)] & (1 << ZEN_BIT)
    {
      var count;
      count, buffer := bus.ReadBit(devAddr, RA_CTRL_REG1, ZEN_BIT);
      enabled := count != 0;
    }

    /** `getZEnabled` testing the bit. */
    method GetZEnabled() returns (enabled: bool)
      modifies this`buffer
      ensures Ctrl1Status() == 1 ==> (enabled <==> Bit8(bus.regs[(devAddr, RA_CTRL_REG1)], ZEN_BIT))
      ensures enabled <==> buffer != 0
      ensures buffer == 0 || buffer == 1 << ZEN_BIT
      ensures Ctrl1Status() == 1 ==> buffer == bus.regs[(devAddr, RA_CTRL_REG1)] & (1 << ZEN_BIT)
    {
      var count;
      count, buffer := bus.ReadBit(devAddr, RA_CTRL_REG1, ZEN_BIT);
      enabled := buffer != 0;
    }

    /** `getYEnabled` as written. */
    method GetYEnabledAsWritten() returns (enabled: bool)
      modifies this`buffer
      ensures enabled <==> Ctrl1Status() != 0
      ensures buffer == 0 || buffer == 1 << YEN_BIT
      ensures Ctrl1Status() == 1 ==> buffer == bus.regs[(devAddr, RA_CTRL_REG1)] & (1 << YEN_BIT)
    {
      var count;
      count, buffer := bus.ReadBit(devAddr, RA_CTRL_REG1, YEN_BIT);
      enabled := count != 0;
    }

    /** `getYEnabled` testing the bit. */
    method GetYEnabled() returns (enabled: bool)
      modifies this`buffer
      ensures Ctrl1Status() == 1 ==> (enabled <==> Bit8(bus.regs[(devAddr, RA_CTRL_REG1)], YEN_BIT))
      ensures enabled <==> buffer != 0
      ensures buffer == 0 || buffer == 1 << YEN_BIT
      ensures Ctrl1Status() == 1 ==> buffer == bus.regs[(devAddr, RA_CTRL_REG1)] & (1 << YEN_BIT)
    {
      var count;
      count, buffer := bus.ReadBit(devAddr, RA_CTRL_REG1, YEN_BIT);
      enabled := buffer != 0;
    }

    /** `getXEnabled` as written. */
    method GetXEnabledAsWritten() returns (enabled: bool)
      modifies this`buffer
      ensures enabled <==> Ctrl1Status() != 0
      ensures buffer == 0 || buffer == 1 << XEN_BIT
      ensures Ctrl1Status() == 1 ==> buffer == bus.regs[(devAddr, RA_CTRL_REG1)] & (1 << XEN_BIT)
    {
      var count;
      count, buffer := bus.ReadBit(devAddr, RA_CTRL_REG1, XEN_BIT);
      enabled := count != 0;
    }

    /** `getXEnabled` testing the bit. */
    method GetXEnabled() returns (enabled: bool)
      modifies this`buffer
      ensures Ctrl1Status() == 1 ==> (enabled <==> Bit8(bus.regs[(devAddr, RA_CTRL_REG1)], XEN_BIT))
      ensures enabled <==> buffer != 0
      ensures buffer == 0 || buffer == 1 << XEN_BIT
      ensures Ctrl1Status() == 1 ==> buffer == bus.regs[(devAddr, RA_CTRL_REG1)] & (1 << XEN_BIT)
    {
      var count;
      count, buffer := bus.ReadBit(devAddr, RA_CTRL_REG1, XEN_BIT);
      enabled := buffer != 0;
    }
  }
}
