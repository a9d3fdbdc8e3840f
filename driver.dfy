/** The kernel character-device driver (bmp180.c): register framing over the
    I2C client, the fixed control-register writes, the ioctl dispatcher and the
    two-byte `read`. Every operation is an ordered series of bus transactions;
    copies to and from user memory are reduced to whether they fault. */
module Driver {
  import opened Words
  import opened Transport

  datatype Option<T> = None | Some(value: T)

  // Register addresses.
  const RegTemperature: byte := 0xF6
  const RegPressure: byte := 0xF6
  const RegControl: byte := 0xF4

  // Values written to the control register.
  const SoftReset: byte := 0xB6
  const StartTemperature: byte := 0x2E
  const StartPressure: byte := 0x34

  // Command codes of the ioctl interface.
  const IoctlConfig: nat := 1
  const IoctlShutdown: nat := 2
  const IoctlReset: nat := 3
  const IoctlReadRegister: nat := 4
  const IoctlWriteRegister: nat := 5

  // Linux error numbers; the driver returns their negations.
  const EIO: int := 5
  const EFAULT: int := 14
  const EINVAL: int := 22
  const ENOTTY: int := 25

  /** The return code of `writeRegister` once the transport answered `reply`:
      success only when both bytes of the frame went out. */
  function WriteStatus(reply: Reply): (r: int)
    ensures r == 0 <==> reply.status == 2
    ensures r != 0 ==> r == -EIO
  {
    if reply.status != 2 then -EIO else 0
  }

  /** The effect of `readRegister`: its return code, the byte left in `*value`
      and the transactions it issued. */
  datatype RegisterRead = RegisterRead(status: int, value: byte, trace: seq<Transaction>)

  /** `readRegister(reg)` started at bus position `k` with `*value == prior`. The
      address byte is sent first; the one-byte receive is attempted only if the
      send did not fail. Only a negative count is a failure, and it is passed
      back unchanged, so a transfer of zero bytes is reported as success. */
  function ReadRegisterSpec(answer: nat -> Reply, k: nat, reg: byte, prior: byte): (o: RegisterRead)
    ensures o.status <= 0
    ensures o.status == 0 <==> answer(k).status >= 0 && answer(k + 1).status >= 0
    ensures answer(k).status < 0 ==> o.status == answer(k).status
    ensures answer(k).status >= 0 && o.status < 0 ==> o.status == answer(k + 1).status
    ensures |o.trace| >= 1 && o.trace[0] == Send([reg])
    ensures o.trace == [Send([reg]), Recv(1)] <==> answer(k).status >= 0
    ensures answer(k).status < 0 ==> o.trace == [Send([reg])] && o.value == prior
    ensures answer(k).status >= 0 ==>
      o.value == if |answer(k + 1).data| > 0 then answer(k + 1).data[0] else prior
  {
    if answer(k).status < 0 then RegisterRead(answer(k).status, prior, [Send([reg])])
    else
      var got := Take(answer(k + 1).data, 1);
      var v := if |got| == 1 then got[0] else prior;
      var status := if answer(k + 1).status < 0 then answer(k + 1).status else 0;
      RegisterRead(status, v, [Send([reg]), Recv(1)])
  }

  /** What `readTemperature` / `readPressure` return: the error code, or the
      byte read, widened to `int`. */
  function ReadByteSpec(answer: nat -> Reply, k: nat, reg: byte): (r: int)
    ensures r < 0 || 0 <= r < 256
    ensures r < 0 <==> answer(k).status < 0 || answer(k + 1).status < 0
    ensures r < 0 ==> r == if answer(k).status < 0 then answer(k).status else answer(k + 1).status
    ensures r >= 0 ==> r == if |answer(k + 1).data| > 0 then answer(k + 1).data[0] as int else 0
  {
    var o := ReadRegisterSpec(answer, k, reg, 0);
    if o.status < 0 then o.status else o.value as int
  }

  method WriteRegister(client: Bus, reg: byte, value: byte) returns (r: int)
    modifies client
    ensures client.log == old(client.log) + [Send([reg, value])]
    ensures r == WriteStatus(client.answer(|old(client.log)|))
  {
    var sent := client.Transmit([reg, value]);
    if sent != 2 {
      return -EIO;
    }
    return 0;
  }

  /** `prior` is what `*value` holds before the call; `value` is what it holds after. */
  method ReadRegister(client: Bus, reg: byte, prior: byte) returns (r: int, value: byte)
    modifies client
    ensures var o := ReadRegisterSpec(client.answer, |old(client.log)|, reg, prior);
      client.log == old(client.log) + o.trace && r == o.status && value == o.value
  {
    value := prior;
    r := client.Transmit([reg]);
    if r < 0 {
      return;
    }
    var got;
    r, got := client.Receive(1);
    if |got| == 1 {
      value := got[0];
    }
    if r < 0 {
      return;
    }
    r := 0;
  }

  /** The uninitialised local `temperature_value` is taken to hold 0. */
  method ReadTemperature(client: Bus) returns (r: int)
    modifies client
    ensures client.log == old(client.log) + ReadRegisterSpec(client.answer, |old(client.log)|, RegTemperature, 0).trace
    ensures r == ReadByteSpec(client.answer, |old(client.log)|, RegTemperature)
  {
    var temperature;
    r, temperature := ReadRegister(client, RegTemperature, 0);
    if r < 0 {
      return;
    }
    r := temperature as int;
  }

  /** The uninitialised local `pressure_value` is taken to hold 0. */
  method ReadPressure(client: Bus) returns (r: int)
    modifies client
    ensures client.log == old(client.log) + ReadRegisterSpec(client.answer, |old(client.log)|, RegPressure, 0).trace
    ensures r == ReadByteSpec(client.answer, |old(client.log)|, RegPressure)
  {
    var pressure;
    r, pressure := ReadRegister(client, RegPressure, 0);
    if r < 0 {
      return;
    }
    r := pressure as int;
  }

  /** Writes the soft-reset value; a failed write is ignored. */
  method ResetSensor(client: Bus)
    modifies client
    ensures client.log == old(client.log) + [Send([RegControl, SoftReset])]
  {
    var _ := WriteRegister(client, RegControl, SoftReset);
  }

  /** Writes 0x34 to the control register; a failed write is ignored. */
  method ShutdownSensor(client: Bus)
    modifies client
    ensures client.log == old(client.log) + [Send([RegControl, StartPressure])]
  {
    var _ := WriteRegister(client, RegControl, StartPressure);
  }

  /** Writes 0x2E and then 0x34 to the control register; failed writes are ignored
      and do not stop the second write. */
  method ConfigureSensor(client: Bus)
    modifies client
    ensures client.log == old(client.log) + [Send([RegControl, StartTemperature]), Send([RegControl, StartPressure])]
  {
    var _ := WriteRegister(client, RegControl, StartTemperature);
    var _ := WriteRegister(client, RegControl, StartPressure);
  }

  /** The character device, bound to the I2C client found at probe time. */
  class Device {
    const client: Bus

    constructor (client: Bus)
      ensures this.client == client
    {
      this.client := client;
    }

    /** `release`: always powers the sensor down and succeeds. */
    method Close() returns (r: int)
      modifies client
      ensures client.log == old(client.log) + [Send([RegControl, StartPressure])]
      ensures r == 0
    {
      ShutdownSensor(client);
      return 0;
    }

    /** `unlocked_ioctl`. `arg` is the byte the user pointer refers to;
        `fromFault` / `toFault` say whether `copy_from_user` / `copy_to_user`
        would fail; `copied` is the byte copied back to the user, if any. */
    method Ioctl(cmd: nat, arg: byte, fromFault: bool, toFault: bool) returns (r: int, copied: Option<byte>)
      modifies client
      ensures cmd !in {IoctlConfig, IoctlShutdown, IoctlReset, IoctlReadRegister, IoctlWriteRegister} ==>
        r == -ENOTTY && client.log == old(client.log) && copied == None
      ensures cmd == IoctlConfig ==>
        r == 0 && copied == None &&
        client.log == old(client.log) + [Send([RegControl, StartTemperature]), Send([RegControl, StartPressure])]
      ensures cmd == IoctlShutdown ==>
        r == 0 && copied == None && client.log == old(client.log) + [Send([RegControl, StartPressure])]
      ensures cmd == IoctlReset ==>
        r == 0 && copied == None && client.log == old(client.log) + [Send([RegControl, SoftReset])]
      ensures cmd in {IoctlReadRegister, IoctlWriteRegister} && fromFault ==>
        r == -EFAULT && client.log == old(client.log) && copied == None
      ensures cmd == IoctlReadRegister && !fromFault ==>
        var o := ReadRegisterSpec(client.answer, |old(client.log)|, arg, arg);
        client.log == old(client.log) + o.trace &&
        (o.status < 0 ==> r == o.status && copied == None) &&
        (o.status == 0 && toFault ==> r == -EFAULT && copied == None) &&
        (o.status == 0 && !toFault ==> r == 0 && copied == Some(o.value))
      ensures cmd == IoctlWriteRegister && !fromFault ==>
        client.log == old(client.log) + [Send([arg, 0x00])] && copied == None &&
        r == WriteStatus(client.answer(|old(client.log)|))
    {
      copied := None;
      if cmd == IoctlConfig {
        ConfigureSensor(client);
      } else if cmd == IoctlShutdown {
        ShutdownSensor(client);
      } else if cmd == IoctlReset {
        ResetSensor(client);
      } else if cmd == IoctlReadRegister {
        if fromFault {
          return -EFAULT, None;
        }
        var reg := arg;
        var result;
        result, reg := ReadRegister(client, reg, reg);
        if result < 0 {
          return result, None;
        }
        if toFault {
          return -EFAULT, None;
        }
        copied := Some(reg);
      } else if cmd == IoctlWriteRegister {
        if fromFault {
          return -EFAULT, None;
        }
        var result := WriteRegister(client, arg, 0x00);
        if result < 0 {
          return result, None;
        }
      } else {
        return -ENOTTY, None;
      }
      return 0, copied;
    }

    /** `read` into a user buffer of `len` bytes; `toFault` says whether
        `copy_to_user` would fail; `delivered` is what reaches the user. */
    method Read(len: nat, toFault: bool) returns (r: int, delivered: seq<byte>)
      modifies client
      ensures len < 2 ==> r == -EINVAL && client.log == old(client.log) && delivered == []
      ensures len >= 2 ==>
        var k := |old(client.log)|;
        var t := ReadRegisterSpec(client.answer, k, RegTemperature, 0);
        var p := ReadRegisterSpec(client.answer, k + |t.trace|, RegPressure, 0);
        (t.status < 0 ==> r == t.status && delivered == [] && client.log == old(client.log) + t.trace) &&
        (t.status == 0 ==> client.log == old(client.log) + t.trace + p.trace) &&
        (t.status == 0 && p.status < 0 ==> r == p.status && delivered == []) &&
        (t.status == 0 && p.status == 0 && toFault ==> r == -EFAULT && delivered == []) &&
        (t.status == 0 && p.status == 0 && !toFault ==> r == 2 && delivered == [t.value, p.value])
    {
      delivered := [];
      if len < 2 {
        return -EINVAL, [];
      }
      var data := new byte[2];
      var result := ReadTemperature(client);
      if result < 0 {
        return result, [];
      }
      data[0] := result as byte;
      result := ReadPressure(client);
      if result < 0 {
        return result, [];
      }
      data[1] := result as byte;
      if toFault {
        return -EFAULT, [];
      }
      return 2, data[..];
    }
  }
}
