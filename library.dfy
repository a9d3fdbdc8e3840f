/** The user-space library (bmp180_lib.c): register access through the
    `/dev/i2c-1` file descriptor, the calibration read, the raw temperature and
    pressure reads, and the calls into the compensation arithmetic. Every bus
    step must transfer exactly the bytes asked for; the first step that does not
    ends the operation with -1. */
module Library {
  import opened Words
  import opened Transport
  import opened CArith
  import opened Calibration
  import opened Compensation

  // Constants of bmp180.h, which is not part of this model: their values are
  // left open.
  const CmdTemp: byte
  const CmdPressure: byte
  const RegCtrlMeasure: byte
  const RegResult: byte
  const RegCalibrationData: byte

  /** `BMP180_REG_RESULT + i` passed as a `uint8_t` register address. */
  function ResultReg(i: nat): byte
  {
    ((RegResult as int + i) % 256) as byte
  }

  /** The byte a one-byte read leaves in a buffer that held `prior`. */
  function Deposited(reply: Reply, prior: byte): (b: byte)
    ensures b == if |reply.data| > 0 then reply.data[0] else prior
  {
    var got := Take(reply.data, 1);
    if |got| == 1 then got[0] else prior
  }

  function RegisterReadScript(reg: byte): seq<Transaction>
  {
    [Send([reg]), Recv(1)]
  }

  function WriteScript(reg: byte, value: byte): seq<Transaction>
  {
    [Send([reg, value])]
  }

  function CalibrationScript(): seq<Transaction>
  {
    [Send([RegCalibrationData]), Recv(BlockSize)]
  }

  /** Reads of RESULT and RESULT + 1. */
  function TempDataScript(): seq<Transaction>
  {
    RegisterReadScript(ResultReg(0)) + RegisterReadScript(ResultReg(1))
  }

  /** Reads of RESULT, RESULT + 1 and RESULT + 2. */
  function PressureDataScript(): seq<Transaction>
  {
    RegisterReadScript(ResultReg(0)) + RegisterReadScript(ResultReg(1)) + RegisterReadScript(ResultReg(2))
  }

  /** The temperature command, then the temperature result reads. */
  function RawTempScript(): seq<Transaction>
  {
    WriteScript(RegCtrlMeasure, CmdTemp) + TempDataScript()
  }

  /** The pressure command, then the pressure result reads. */
  function RawPressureScript(): seq<Transaction>
  {
    WriteScript(RegCtrlMeasure, CmdPressure) + PressureDataScript()
  }

  /** The result of bmp180_read_raw_temp started at bus position `k`: -1 if any
      step fails, otherwise the big-endian 16-bit count of the two bytes read
      (from an all-zero buffer). */
  function RawTemp(answer: nat -> Reply, k: nat): (r: int)
    ensures r == -1 || 0 <= r < 0x1_0000
    ensures r == -1 <==> !AllAccepted(answer, k, RawTempScript())
    ensures r != -1 ==> r / 256 == Deposited(answer(k + 2), 0) as int && r % 256 == Deposited(answer(k + 4), 0) as int
  {
    if AllAccepted(answer, k, RawTempScript())
    then Be16(Deposited(answer(k + 2), 0), Deposited(answer(k + 4), 0))
    else -1
  }

  /** The result of bmp180_read_raw_pressure started at bus position `k`: -1 if
      any step fails, otherwise the big-endian 24-bit value of the three bytes
      read, not shifted for oversampling. */
  function RawPressure(answer: nat -> Reply, k: nat): (r: int)
    ensures r == -1 || 0 <= r < 0x100_0000
    ensures r == -1 <==> !AllAccepted(answer, k, RawPressureScript())
    ensures r != -1 ==>
      r / 65536 == Deposited(answer(k + 2), 0) as int &&
      r % 65536 == Deposited(answer(k + 4), 0) as int * 256 + Deposited(answer(k + 6), 0) as int
  {
    if AllAccepted(answer, k, RawPressureScript())
    then Be24(Deposited(answer(k + 2), 0), Deposited(answer(k + 4), 0), Deposited(answer(k + 6), 0))
    else -1
  }

  /** `bmp180_read_register`; `prior` is what `*value` holds before the call and
      `value` what it holds after. Returns 0 exactly when the address byte was
      written and one byte read; a short address write ends the call before the
      read is attempted, and a read that was attempted deposits its bytes even
      when it comes up short. */
  method ReadRegister(fd: Bus, reg: byte, prior: byte) returns (r: int, value: byte)
    modifies fd
    ensures fd.log == Run(fd.answer, old(fd.log), RegisterReadScript(reg))
    ensures r == 0 <==> AllAccepted(fd.answer, |old(fd.log)|, RegisterReadScript(reg))
    ensures r == 0 || r == -1
    ensures value ==
      if Accepted(fd.answer, |old(fd.log)|, Send([reg])) then Deposited(fd.answer(|old(fd.log)| + 1), prior) else prior
  {
    ghost var L := fd.log;
    ghost var script := RegisterReadScript(reg);
    assert script[0] == Send([reg]) && script[1..] == [Recv(1)] && script[1..][1..] == [];
    value := prior;
    var written := fd.Transmit([reg]);
    if written != 1 {
      return -1, value;
    }
    var count, got := fd.Receive(1);
    if |got| == 1 {
      value := got[0];
    }
    assert Run(fd.answer, L + [script[0]] + [script[1..][0]], script[1..][1..]) == fd.log;
    assert AllAccepted(fd.answer, |L| + 2, script[1..][1..]);
    if count != 1 {
      return -1, value;
    }
    return 0, value;
  }

  /** `bmp180_write_register`: sends the frame `[reg, value]` and returns 0 exactly
      when both bytes were written, otherwise -1. */
  method WriteRegister(fd: Bus, reg: byte, value: byte) returns (r: int)
    modifies fd
    ensures fd.log == Run(fd.answer, old(fd.log), WriteScript(reg, value)) == old(fd.log) + WriteScript(reg, value)
    ensures r == 0 <==> AllAccepted(fd.answer, |old(fd.log)|, WriteScript(reg, value))
    ensures r == 0 || r == -1
  {
    ghost var script := WriteScript(reg, value);
    assert script[0] == Send([reg, value]) && script[1..] == [];
    var written := fd.Transmit([reg, value]);
    if written != 2 {
      return -1;
    }
    return 0;
  }

  /** The library's `BMP180_CalibrationData`, written through a pointer. */
  class CalibrationData {
    var ac1: int
    var ac2: int
    var ac3: int
    var ac4: int
    var ac5: int
    var ac6: int
    var b1: int
    var b2: int
    var mb: int
    var mc: int
    var md: int

    constructor ()
      ensures Value() == Coefficients(0, 0, 0, 0, 0, 0, 0, 0, 0, 0, 0)
      ensures Valid()
    {
      ac1, ac2, ac3, ac4, ac5, ac6 := 0, 0, 0, 0, 0, 0;
      b1, b2, mb, mc, md := 0, 0, 0, 0, 0;
    }

    function Value(): Coefficients
      reads this
    {
      Coefficients(ac1, ac2, ac3, ac4, ac5, ac6, b1, b2, mb, mc, md)
    }

    /** Every field holds a value of its C type (`int16_t` or `uint16_t`). */
    predicate Valid()
      reads this
    {
      InRange(Value())
    }

    /** Writes the eleven fields, one by one. */
    method Store(c: Coefficients)
      requires InRange(c)
      modifies this
      ensures Value() == c && Valid()
    {
      ac1, ac2, ac3 := c.ac1, c.ac2, c.ac3;
      ac4, ac5, ac6 := c.ac4, c.ac5, c.ac6;
      b1, b2 := c.b1, c.b2;
      mb, mc, md := c.mb, c.mc, c.md;
    }
  }

  /** The local `data[22]` buffer before the read, taken to be all zero. */
  function ZeroBlock(): (z: seq<byte>)
    ensures |z| == BlockSize && forall i :: 0 <= i < BlockSize ==> z[i] == 0
  {
    seq(BlockSize, _ => 0)
  }

  /** `bmp180_read_calibration_data`: writes the calibration address, reads the
      22-byte block into a buffer (taken to start all zero) and decodes it into
      `cal`. Returns -1 and leaves `cal` as it was unless the address write
      transferred exactly 1 byte and the block read exactly 22. */
  method ReadCalibrationData(fd: Bus, cal: CalibrationData) returns (r: int)
    requires cal.Valid()
    modifies fd, cal
    ensures cal.Valid()
    ensures fd.log == Run(fd.answer, old(fd.log), CalibrationScript())
    ensures r == 0 <==> AllAccepted(fd.answer, |old(fd.log)|, CalibrationScript())
    ensures r == 0 || r == -1
    ensures r == 0 ==>
      cal.Value() == Decode(Overlay(ZeroBlock(), Take(fd.answer(|old(fd.log)| + 1).data, BlockSize)))
    ensures r != 0 ==> cal.Value() == old(cal.Value())
  {
    ghost var k := |fd.log|;
    ghost var script := CalibrationScript();
    assert script[0] == Send([RegCalibrationData]) && script[1..] == [Recv(BlockSize)] && script[1..][1..] == [];
    var data := new byte[BlockSize](_ => 0);
    assert data[..] == ZeroBlock();
    var reg := RegCalibrationData;
    var written := fd.Transmit([reg]);
    if written != 1 {
      return -1;
    }
    var count, got := fd.Receive(BlockSize);
    assert AllAccepted(fd.answer, k + 2, script[1..][1..]);
    if count != BlockSize {
      return -1;
    }
    forall i | 0 <= i < |got| {
      data[i] := got[i];
    }
    var block := data[..];
    assert block == Overlay(ZeroBlock(), Take(fd.answer(k + 1).data, BlockSize));
    var decoded := Decode(block);
    cal.Store(decoded);
    return 0;
  }

  /** The `||` chain of bmp180_read_raw_temp: RESULT into `data[0]`, then
      RESULT + 1 into `data[1]`, stopping at the first read that fails. */
  method ReadTempData(fd: Bus, data: array<byte>) returns (r: int)
    requires data.Length == 2
    modifies fd, data
    ensures fd.log == Run(fd.answer, old(fd.log), TempDataScript())
    ensures r == 0 <==> AllAccepted(fd.answer, |old(fd.log)|, TempDataScript())
    ensures r == 0 || r == -1
    ensures r == 0 ==>
      data[0] == Deposited(fd.answer(|old(fd.log)| + 1), old(data[0])) &&
      data[1] == Deposited(fd.answer(|old(fd.log)| + 3), old(data[1]))
  {
    RunThen(fd.answer, fd.log, RegisterReadScript(ResultReg(0)), RegisterReadScript(ResultReg(1)));
    var status;
    status, data[0] := ReadRegister(fd, ResultReg(0), data[0]);
    if status != 0 {
      return -1;
    }
    status, data[1] := ReadRegister(fd, ResultReg(1), data[1]);
    if status != 0 {
      return -1;
    }
    return 0;
  }

  /** The `||` chain of bmp180_read_raw_pressure: RESULT, RESULT + 1 and
      RESULT + 2 into `data[0..3]`, stopping at the first read that fails. */
  method ReadPressureData(fd: Bus, data: array<byte>) returns (r: int)
    requires data.Length == 3
    modifies fd, data
    ensures fd.log == Run(fd.answer, old(fd.log), PressureDataScript())
    ensures r == 0 <==> AllAccepted(fd.answer, |old(fd.log)|, PressureDataScript())
    ensures r == 0 || r == -1
    ensures r == 0 ==>
      data[0] == Deposited(fd.answer(|old(fd.log)| + 1), old(data[0])) &&
      data[1] == Deposited(fd.answer(|old(fd.log)| + 3), old(data[1])) &&
      data[2] == Deposited(fd.answer(|old(fd.log)| + 5), old(data[2]))
  {
    ghost var L := fd.log;
    ghost var r0, r1, r2 := RegisterReadScript(ResultReg(0)), RegisterReadScript(ResultReg(1)), RegisterReadScript(ResultReg(2));
    RunThen(fd.answer, L, r0 + r1, r2);
    RunThen(fd.answer, L, r0, r1);
    var status;
    status, data[0] := ReadRegister(fd, ResultReg(0), data[0]);
    if status != 0 {
      return -1;
    }
    status, data[1] := ReadRegister(fd, ResultReg(1), data[1]);
    if status != 0 {
      return -1;
    }
    status, data[2] := ReadRegister(fd, ResultReg(2), data[2]);
    if status != 0 {
      return -1;
    }
    return 0;
  }

  /** `bmp180_read_raw_temp`: the temperature command, then the two result
      bytes, high byte first, stopping at the first failed step. */
  method ReadRawTemp(fd: Bus) returns (r: int)
    modifies fd
    ensures fd.log == Run(fd.answer, old(fd.log), RawTempScript())
    ensures r == RawTemp(fd.answer, |old(fd.log)|)
  {
    RunThen(fd.answer, fd.log, WriteScript(RegCtrlMeasure, CmdTemp), TempDataScript());
    var reg := CmdTemp;
    var status := WriteRegister(fd, RegCtrlMeasure, reg);
    if status != 0 {
      return -1;
    }
    var tempData := new byte[2](_ => 0);
    status := ReadTempData(fd, tempData);
    if status != 0 {
      return -1;
    }
    return Be16(tempData[0], tempData[1]);
  }

  /** `bmp180_read_raw_pressure`: the pressure command, then the three result
      bytes, most significant first, stopping at the first failed step. */
  method ReadRawPressure(fd: Bus) returns (r: int)
    modifies fd
    ensures fd.log == Run(fd.answer, old(fd.log), RawPressureScript())
    ensures r == RawPressure(fd.answer, |old(fd.log)|)
  {
    RunThen(fd.answer, fd.log, WriteScript(RegCtrlMeasure, CmdPressure), PressureDataScript());
    var reg := CmdPressure;
    var status := WriteRegister(fd, RegCtrlMeasure, reg);
    if status != 0 {
      return -1;
    }
    var pressureData := new byte[3](_ => 0);
    status := ReadPressureData(fd, pressureData);
    if status != 0 {
      return -1;
    }
    return Be24(pressureData[0], pressureData[1], pressureData[2]);
  }

  /** `bmp180_calculate_temp` before its conversion to `float`: reads the raw
      temperature (without checking it for the error value -1) and compensates
      it with `cal`. The result is in tenths of a degree Celsius; Undefined is a
      computation whose C evaluation is undefined. */
  method CalculateTemp(fd: Bus, cal: CalibrationData) returns (t: Eval<int>)
    requires cal.Valid()
    modifies fd
    ensures fd.log == Run(fd.answer, old(fd.log), RawTempScript())
    ensures t == Temperature(RawTemp(fd.answer, |old(fd.log)|), cal.Value())
  {
    var rawTemp := ReadRawTemp(fd);
    t := Temperature(rawTemp, cal.Value());
  }

  /** `bmp180_calculate_pressure`: reads the raw temperature again, computes the
      pressure intermediates up to B3 and returns 0 (here `Defined(0)`), or is
      undefined when one of those steps is. `rawPressure` is never used. */
  method CalculatePressure(fd: Bus, cal: CalibrationData, rawPressure: int) returns (p: Eval<int>)
    requires cal.Valid()
    modifies fd
    ensures fd.log == Run(fd.answer, old(fd.log), RawTempScript())
    ensures var ut := RawTemp(fd.answer, |old(fd.log)|);
      p == if Pressure(ut, cal.Value()).Defined? then Defined(0) else Undefined
  {
    var rawTemp := ReadRawTemp(fd);
    var terms := Pressure(rawTemp, cal.Value());
    p := if terms.Defined? then Defined(0) else Undefined;
  }
}
