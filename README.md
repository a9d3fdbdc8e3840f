# BMP180 driver and library, modelled in Dafny

This project models the two C files that hold the BMP180 pressure sensor's
protocol logic:

- `bmp180.c`, the Linux character-device driver. It frames register writes and
  reads over the I2C client, writes fixed values to the control register (reset,
  shutdown, configure), dispatches five ioctl commands, and serves a two-byte
  `read` made of one temperature byte and one pressure byte.
- `bmp180_lib.c`, the user-space library. It does register access through a
  `/dev/i2c-1` file descriptor, reads and decodes the 22-byte calibration block,
  assembles the raw 16-bit temperature and 24-bit pressure samples, and runs the
  integer compensation arithmetic (X1, X2, B5, T, B6, X1', X2', X3, B3).

The bus is a class, `Transport.Bus`. It holds the log of every transaction
issued so far: a `Send(bytes)` or a `Recv(n)`. What the device answers is an
oracle, `answer`, fixed when the bus is created and indexed by log position. The
answer gives the count the transport reports and the bytes it deposits. Each
imperative operation is a method whose `ensures` states the new log and the
return value in terms of that oracle.

The library stops at the first step that does not transfer exactly the bytes
asked for. That behaviour is the specification function `Transport.Run`, and
the lemmas about it (`RunIssued`, `RunThen`, `IssuedStopsAtFirstFailure`)
state what it means. The driver differs. Its `readRegister` fails only on a
negative count and passes that count back unchanged, so a zero-byte transfer
counts as success. Its `writeRegister` returns -EIO unless both bytes of the
frame went out.

The arithmetic follows C on a 32-bit `int` (module `CArith`):

- `/` truncates toward zero (`CDiv`).
- `>>` on a negative value is an arithmetic shift, i.e. floor division by 2^n (`Asr`).
- `<<` multiplies by 2^n.
- Signed overflow and division by zero are undefined behaviour in C. Here they
  produce the explicit outcome `Undefined`.

The calibration decoder is proved a bijection between 22-byte blocks and
in-range coefficient sets. The temperature computation is proved free of
overflow on any sensor whose coefficients fit their C types with AC5 <= 32768.
The B5 inside the pressure computation is proved to be the temperature's B5.
With |B2| <= 4096 as well, the pressure steps up to B3 are proved defined
exactly when B5 is defined and |B5 - 4000| <= 46340.

## Model

| member | source | states |
|---|---|---|
| Words.Be16 | bmp180_lib.c:108 | the shifted-and-or'd pair of bytes is a 16-bit value whose quotient by 256 is the high byte and whose remainder is the low byte |
| Words.Be24 | bmp180_lib.c:129 | the 24-bit pressure sample lies in [0, 2^24) with the first byte on top and the other two as the low 16-bit word |
| Words.ToInt16 | bmp180_lib.c:76 | the `(int16_t)` cast yields the signed 16-bit value congruent to the pattern mod 2^16, negative exactly when bit 15 is set |
| Words.FromInt16 | bmp180_lib.c:76 | a signed 16-bit value has a 16-bit pattern congruent to it mod 2^16 (the inverse of the cast) |
| Words.CastOfPattern | bmp180_lib.c:76 | the `(int16_t)` cast of a signed value's 16-bit pattern gives the value back |
| Words.PatternOfCast | bmp180_lib.c:76 | the 16-bit pattern of an `(int16_t)`-cast word is the word |
| Words.High | bmp180_lib.c:76 | the high byte of a word covers the word's value to within 256 |
| Words.Low | bmp180_lib.c:76 | the low byte is congruent to the word mod 256 |
| Words.SplitAssemble | bmp180_lib.c:76 | splitting a word into bytes and shifting them back together gives the word |
| Words.AssembleSplit | bmp180_lib.c:76 | assembling two bytes and splitting the word gives both bytes back |
| CArith.Fit | bmp180_lib.c:137-139 | an `int` result is defined exactly when it lies in the 32-bit range, and is then the mathematical value |
| CArith.Asr | bmp180_lib.c:137 | `x >> n` is the floor of x / 2^n for negative x too, and stays within 32 bits |
| CArith.CDiv | bmp180_lib.c:138 | C's `/` leaves a remainder smaller than the divisor in magnitude and never of the opposite sign to the dividend (truncation toward zero) |
| CArith.Shl | bmp180_lib.c:138 | `x << n` is defined exactly when x * 2^n fits in `int`; its value is then x * 2^n, and shifting it back right by n gives x |
| CArith.ShiftBack | bmp180_lib.c:158 | shifting any value left by n and then arithmetically right by n gives it back |
| CArith.Div | bmp180_lib.c:138 | `/` on `int` is defined exactly when the divisor is non-zero and the truncated quotient fits in 32 bits, and its value is then the truncated quotient |
| Calibration.Decode | bmp180_lib.c:76-86 | field k is `data[2k] * 256 + data[2k+1]`, cast to two's complement for AC1–AC3, B1, B2, MB, MC and MD, unsigned for AC4–AC6; every field lies in its C type's range |
| Calibration.Encode | bmp180_lib.c:76-86 | the block that holds a coefficient set: bytes 2k and 2k+1 are the high and low bytes of field k's pattern |
| Calibration.DecodeEncode | bmp180_lib.c:76-86 | decoding the block of any in-range coefficient set gives that set back |
| Calibration.EncodeDecode | bmp180_lib.c:76-86 | re-encoding the decoded coefficients gives the original block: no two blocks decode alike |
| Calibration.DatasheetSample | bmp180_lib.c:76-86 | the datasheet's sample block decodes to AC1 = 408 … MD = 2868, including the negative and unsigned fields |
| Compensation.B5 | bmp180_lib.c:137-139 | when B5 is defined, the divisor X1 + MD is non-zero and B5 - X1 is the truncated quotient of MC * 2048 by X1 + MD |
| Compensation.Temperature | bmp180_lib.c:137-140 | the temperature is defined exactly when B5 and B5 + 8 are, and is B5 / 16 rounded to the nearest tenth-degree unit |
| Compensation.X1OnSensor | bmp180_lib.c:137 | with in-range coefficients, AC5 <= 32768 and UT in [-1, 65535], `(UT - AC6) * AC5` fits in `int` and X1 lies in [-65536, 65535] |
| Compensation.X2OnSensor | bmp180_lib.c:138 | `MC << 11` fits in `int`, and its quotient by any non-zero `int` divisor is defined and within ±2^26 |
| Compensation.TemperatureDefinedOnSensor | bmp180_lib.c:137-140 | on such a sensor the temperature computation is undefined exactly when X1 + MD is zero: no overflow is possible |
| Compensation.TemperatureOverflowExample | bmp180_lib.c:137 | without the AC5 bound, an in-range calibration set with AC5 = 65535 and UT = 65535 overflows |
| Compensation.Pressure | bmp180_lib.c:149-159 | the pressure computation's own copy of the B5 steps (lines 149-151) computes the B5 of the temperature computation: the terms are undefined when that B5 is, and otherwise are the steps after B5 applied to it; when defined, B6 is B5 - 4000 and B6 * B6 fits in `int` |
| Compensation.PressureAfterB5 | bmp180_lib.c:154-159 | the steps from B5 on keep the B5 they start from, set B6 = B5 - 4000, and are defined only if B6 * B6 fits in `int` |
| Compensation.PressureTailOnSensor | bmp180_lib.c:155-156 | with in-range coefficients, B2 in [-4096, 4096] and B6 in [-46340, 46340], B6 * B6, B2 * (B6 * B6 >> 12) and AC2 * B6 fit in `int`, and the two shifted terms are bounded |
| Compensation.PressureAfterB5Defined | bmp180_lib.c:154-159 | with in-range coefficients, B2 in [-4096, 4096] and B5 - 4000 in [-46340, 46340], every step from B6 to B3 is defined |
| Compensation.PressureDefinedOnSensor | bmp180_lib.c:149-159 | with in-range coefficients, AC5 <= 32768, B2 in [-4096, 4096] and UT in [-1, 65535], the pressure terms are defined exactly when B5 is defined and B5 - 4000 in [-46340, 46340] |
| Compensation.PressureOverflowExample | bmp180_lib.c:155 | a sensor satisfying the temperature bounds can have a defined temperature while B6 * B6 overflows |
| Compensation.PressureB2OverflowExample | bmp180_lib.c:155 | with B2 = 32767 and B6 = 45152, B2 * (B6 * B6 >> 12) overflows: the B2 bound is needed |
| Compensation.PressureImpliesTemperature | bmp180_lib.c:148-159 | whenever the pressure intermediates are defined, so is the temperature of the same raw count |
| Compensation.B3ClosedForm | bmp180_lib.c:158-159 | with v = AC1 * 4 + X3, B3 is 2v for v >= 0 and 2v + 1 for v < 0 (the truncating `/ 4`) |
| Compensation.B3AgainstFloorShift | bmp180_lib.c:158-159 | the code's truncating `/ 4` agrees with a flooring shift `>> 2` exactly when v >= 0 |
| Compensation.DatasheetExample | bmp180_lib.c:137-159 | for the datasheet's sample device and UT = 27898: B5 = 2400, T = 150 (15.0 degC), B6 = -1600, X3 = 57, B3 = 3378 |
| Compensation.FailedReadBecomesTemperature | bmp180_lib.c:134-140 | the unchecked -1 of a failed raw read is compensated like a reading: -139.2 degC on the sample device |
| Transport.Take | bmp180_lib.c:42 | a read of n bytes deposits a prefix of the reply: exactly n bytes when the reply has them, the whole reply when it is shorter |
| Transport.Overlay | bmp180_lib.c:70 | after a read, the buffer holds the deposited bytes at its start and its earlier contents beyond them |
| Transport.Bus.constructor | bmp180_lib.c:14 | a freshly opened bus has an empty log and the given device behaviour |
| Transport.Bus.Transmit | bmp180_lib.c:53 | a write appends exactly one `Send` of its bytes to the log and returns the count the transport reports |
| Transport.Bus.Receive | bmp180_lib.c:42 | a read appends exactly one `Recv(n)` to the log, returns the reported count and deposits at most n reply bytes |
| Transport.Issued | bmp180_lib.c:102-106 | the number of steps a short-circuiting sequence issues is at most the script's length and at least one for a non-empty script |
| Transport.IssuedStopsAtFirstFailure | bmp180_lib.c:102-106 | every step before the last one issued was accepted, and a sequence cut short ends on a step that was not accepted |
| Transport.IssuedAllAccepted | bmp180_lib.c:102-106 | every step is accepted exactly when all steps are issued and the last one is accepted |
| Transport.AllAcceptedEvery | bmp180_lib.c:102-106 | a script is accepted throughout exactly when each step i is accepted at bus position k + i |
| Transport.AllAcceptedAppend | bmp180_lib.c:102-106 | two scripts in sequence are accepted throughout exactly when each is, the second starting where the first ends |
| Transport.Run | bmp180_lib.c:102-106 | a short-circuiting run only appends to the log, never more steps than the script has, and at least one step for a non-empty script |
| Transport.RunIssued | bmp180_lib.c:102-106 | a run appends to the log exactly the script up to and including its first failed step |
| Transport.RunAccepted | bmp180_lib.c:102-106 | a script accepted throughout is appended to the log whole |
| Transport.RunAppend | bmp180_lib.c:102-106 | running a + b is running a and then, only if all of a was accepted, b |
| Transport.RunThen | bmp180_lib.c:102-106 | the sequencing law of runs together with the acceptance of a + b, in the form sequential callers use |
| Library.Deposited | bmp180_lib.c:42 | a one-byte read leaves the first byte of the reply when there is one, and the buffer's old byte otherwise |
| Library.ReadRegister | bmp180_lib.c:36-48 | sends `[reg]`, then (only if exactly 1 byte went out) receives one byte; returns 0 exactly when both steps transferred 1 byte, else -1; `*value` changes only through an attempted read |
| Library.WriteRegister | bmp180_lib.c:51-58 | sends the single frame `[reg, value]` and returns 0 exactly when 2 bytes were written, else -1 |
| Library.CalibrationData.constructor | bmp180_lib.c:61 | a fresh calibration record holds all-zero fields, each within its C type |
| Library.CalibrationData.Store | bmp180_lib.c:76-86 | after the eleven field writes the record holds exactly the given in-range coefficients, so every field is within its C type |
| Library.ReadCalibrationData | bmp180_lib.c:61-89 | writes the calibration address, reads 22 bytes; returns 0 exactly when both steps transferred exactly, storing the decoded block; otherwise returns -1 with the record unchanged; every field stays within its C type |
| Library.ReadTempData | bmp180_lib.c:101-106 | reads RESULT and then RESULT + 1, stopping at the first failure; on success the two buffer bytes are the bytes the reads deposited |
| Library.ReadPressureData | bmp180_lib.c:121-127 | reads RESULT, RESULT + 1 and RESULT + 2 in order, stopping at the first failure; on success the three buffer bytes are the bytes deposited |
| Library.RawTemp | bmp180_lib.c:92-109 | the raw temperature is -1 exactly when some step of command write and two reads fails, otherwise the 16-bit big-endian value of the two bytes read |
| Library.RawPressure | bmp180_lib.c:112-130 | the raw pressure is -1 exactly when some step fails, otherwise the 24-bit big-endian value of the three bytes read, with no oversampling shift |
| Library.ReadRawTemp | bmp180_lib.c:92-109 | issues the temperature command and then the two result reads, stopping at the first failure, and returns RawTemp |
| Library.ReadRawPressure | bmp180_lib.c:112-130 | issues the pressure command and then the three result reads, stopping at the first failure, and returns RawPressure |
| Library.CalculateTemp | bmp180_lib.c:133-144 | performs one raw temperature read and returns the compensated temperature of whatever it returned, -1 included |
| Library.CalculatePressure | bmp180_lib.c:147-164 | performs one raw temperature read (not a pressure read), and returns 0 when the intermediates up to B3 are defined |
| Driver.WriteStatus | bmp180.c:39-43 | the write's return code is 0 exactly when 2 bytes were sent, and -EIO otherwise |
| Driver.ReadRegisterSpec | bmp180.c:47-60 | the address is sent first; the receive is attempted only if the send was not negative; success exactly when neither count is negative; a failed send returns its own code and leaves the byte as it was, a failed receive returns the receive's code; once the send succeeds the byte is the reply's first byte, or the old byte if none arrived |
| Driver.ReadByteSpec | bmp180.c:63-80 | a byte read returns a negative error exactly when a transfer failed: the send's code if the send failed, else the receive's; otherwise it returns the byte received, or 0 if none arrived |
| Driver.WriteRegister | bmp180.c:35-44 | issues exactly one send of `[reg, value]` and returns WriteStatus of its reply |
| Driver.ReadRegister | bmp180.c:47-60 | issues the transactions, returns the code and leaves the byte ReadRegisterSpec gives |
| Driver.ReadTemperature | bmp180.c:63-70 | reads register 0xF6 and returns the error or the byte, as ReadByteSpec gives |
| Driver.ReadPressure | bmp180.c:73-80 | reads register 0xF6 and returns the error or the byte, as ReadByteSpec gives |
| Driver.ResetSensor | bmp180.c:83-86 | writes 0xB6 to register 0xF4, whatever the write returns |
| Driver.ShutdownSensor | bmp180.c:89-92 | writes 0x34 to register 0xF4, whatever the write returns |
| Driver.ConfigureSensor | bmp180.c:95-100 | writes 0x2E and then 0x34 to register 0xF4; a failed first write does not stop the second |
| Driver.Device.constructor | bmp180.c:32 | the device is bound to the I2C client |
| Driver.Device.Close | bmp180.c:109-113 | release always issues the shutdown write and returns 0 |
| Driver.Device.Ioctl | bmp180.c:116-156 | codes 1–3 run configure, shutdown or reset and return 0; an unknown code returns -ENOTTY with no traffic; a faulting user copy returns -EFAULT; read-register reads the user's register and copies its value back into the same byte only on success; write-register writes 0x00 to the user's register |
| Driver.Device.Read | bmp180.c:159-189 | a buffer shorter than 2 gives -EINVAL with no traffic; otherwise reads 0xF6 for temperature and then for pressure, a failed first read skipping the second, and delivers `[temperature, pressure]` with result 2 |

## Left out

- Module init and exit, probe and remove, character-device and class registration, the `fops` table and `deviceOpen` (bmp180.c:102-106, 191 onward): operating-system registration with no protocol logic.
- `printk`, `dev_err` and `fprintf` logging: output only.
- `copy_from_user` and `copy_to_user` are not modelled. Each becomes a boolean saying whether the copy faults, which yields -EFAULT.
- `bmp180_open` and `bmp180_close` (bmp180_lib.c:13-33) are not modelled: they only open a file and select the slave address. The bus is created by `Transport.Bus.constructor` instead.
- The `usleep` delays (bmp180_lib.c:99, 119): timing is not modelled; only the order of command write before result reads is kept.
- Floating point: `temp /= 10.0` and the float results. `Library.CalculateTemp` returns the temperature in tenths of a degree as an integer. `Library.CalculatePressure` returns `Defined(0)` for the constant 0.0.
- The remaining datasheet pressure steps (B4, B7, p) and oversampling are not modelled: the code does not contain them.
- `CodeTest.c` is not part of this model; it is a command-line harness with no logic of its own.
- `bmp180.h` is not part of this model. Its constants (the two measurement commands, the control, result and calibration registers) are byte constants whose values are left open.
- Uninitialised C locals (`temperature_value`, `pressure_value`, `temp_data`, `pressure_data`, `data[22]`) are taken to hold zero. A short read therefore leaves zeros where C would leave indeterminate bytes.
- `<<` on a negative `MC` or on a negative `AC1 * 4 + X3` is undefined in C. It is modelled as multiplication by 2^n, which is what the usual compilers do.
- Compensation.PressureDefinedOnSensor: the domain of the pressure steps is stated only for |B2| <= 4096. `Compensation.PressureB2OverflowExample` shows that a 16-bit B2 above that bound can overflow.
- Compensation.TemperatureDefinedOnSensor: overflow freedom is proved only for AC5 <= 32768. `Compensation.TemperatureOverflowExample` shows that a 16-bit AC5 above that bound can overflow.
- The code is followed where it departs from the sensor's documented behaviour. The write-register ioctl writes 0x00, not a user-supplied value. `shutdownSensor` writes 0x34, which starts a pressure measurement. Pressure stops at B3. The `raw_pressure` argument of `bmp180_calculate_pressure` is never used.
- The `||` chains of the raw reads are written as the helper methods `Library.ReadTempData` and `Library.ReadPressureData`, which fill the local array, instead of being inline in `ReadRawTemp` and `ReadRawPressure`. The bus traffic and the result are the same.
