/** ina229.c: the INA229 power monitor on SPI0 (10 MHz, mode 1, hardware chip select per exchange).
    Register accesses are single exchanges whose first byte carries the 6-bit register address in
    bits 7:2 and the read flag in bit 0; the alert pin raises a GPIO interrupt. */
module Ina229 {
  import opened Bytes
  import opened SpiBus

  /** `MAX_REG_VALUE_SIZE`: the longest register (40 bits) plus the command byte. */
  const MAX_REG_VALUE_SIZE: nat := 40 / 8 + 1

  /** Register addresses from ina229.h. */
  const ADC_CONFIG: byte := 0x01
  const DIAG_ALRT: byte := 0x0B
  const MANUFACTURER_ID: byte := 0x3E
  const DEVICE_ID: byte := 0x3F

  /** The alert pin. */
  const GPIO_PIN_0: nat := 0

  /** Written to `ADC_CONFIG` at init: `1 << 15` (reset), then `(0x9 << 12) | (0x3 << 9)`
      (continuous bus voltage only, 280 us conversions); written to `DIAG_ALRT`: `1 << 14`
      (conversion ready on the alert pin, active low). */
  const RESET_VALUE: nat := 0x8000
  const ALERT_VALUE: nat := 0x4000
  const MODE_VALUE: nat := 0x9600

  /** `n` zero bytes. */
  function Zeros(n: nat): (z: seq<byte>)
    ensures |z| == n && forall i :: 0 <= i < n ==> z[i] == 0
  {
    seq(n, _ => 0)
  }

  /** The first byte of a read: `(addr << 2) | 0x01`, truncated to a byte. */
  function ReadHeader(addr: byte): (h: byte)
    ensures h % 2 == 1 && (h / 2) % 2 == 0
    ensures h / 4 == addr % 64
  {
    ShiftedAddress(addr);
    DivMulAdd(1, 2 * (addr % 64), 2);
    DivMulAdd(0, addr % 64, 2);
    DivMulAdd(1, addr % 64, 4);
    (addr * 4) % 256 + 1
  }

  /** `addr << 2` truncated to a byte keeps the low six address bits, in bits 7:2. */
  lemma ShiftedAddress(addr: byte)
    ensures (addr * 4) % 256 == 4 * (addr % 64)
  {
    DivMulAdd(addr % 64, addr / 64, 64);
    assert addr * 4 == 4 * (addr % 64) + 256 * (addr / 64);
    DivMulAdd(4 * (addr % 64), addr / 64, 256);
  }

  /** The number of bytes a read of a `len`-byte buffer exchanges: `len`, but never more than
      `MAX_REG_VALUE_SIZE`. */
  function ExchangeLength(len: nat): (n: nat)
    ensures n <= len && n <= MAX_REG_VALUE_SIZE
    ensures n == len || n == MAX_REG_VALUE_SIZE
  {
    if len < MAX_REG_VALUE_SIZE then len else MAX_REG_VALUE_SIZE
  }

  /** The bytes a read of `n` bytes clocks out: the read header, then zeros. */
  function ReadFrame(addr: byte, n: nat): (f: seq<byte>)
    requires n <= MAX_REG_VALUE_SIZE
    ensures |f| == n
    ensures n > 0 ==> f[0] == ReadHeader(addr)
    ensures forall i :: 1 <= i < n ==> f[i] == 0
  {
    if n == 0 then [] else [ReadHeader(addr)] + Zeros(n - 1)
  }

  /** The three bytes of a write: `addr << 2` truncated to a byte, then the 16-bit value high byte
      first. */
  function WriteFrame(addr: byte, value: nat): (f: seq<byte>)
    requires value < TWO_16
    ensures |f| == 3
  {
    [(addr * 4) % 256, value / 256, value % 256]
  }

  /** A register access as the INA229 sees it on the wire. */
  datatype Access = ReadReg(addr: nat, len: nat) | WriteReg(addr: nat, value: nat)

  /** How the INA229 reads the bytes of one exchange: a set bit 0 in the first byte makes it a read
      of the addressed register, a clear one a write of the next two bytes. */
  function DecodeFrame(tx: seq<TxByte>): Option<Access>
  {
    if |tx| == 0 || !tx[0].Sent? then None
    else if tx[0].b % 2 == 1 then Some(ReadReg(tx[0].b / 4, |tx|))
    else if |tx| == 3 && tx[1].Sent? && tx[2].Sent? then Some(WriteReg(tx[0].b / 4, tx[1].b * 256 + tx[2].b))
    else None
  }

  /** A read frame is read as a read of the register asked for, as many bytes long. */
  lemma DecodeReadFrame(addr: byte, n: nat)
    requires 1 <= n <= MAX_REG_VALUE_SIZE
    ensures DecodeFrame(SentAll(ReadFrame(addr, n))) == Some(ReadReg(addr % 64, n))
  {
  }

  /** A write frame is read as a write of the value asked for to the register asked for. */
  lemma DecodeWriteFrame(addr: byte, value: nat)
    requires value < TWO_16
    ensures DecodeFrame(SentAll(WriteFrame(addr, value))) == Some(WriteReg(addr % 64, value))
  {
    ShiftedAddress(addr);
    DivMulAdd(0, addr % 64, 4);
  }

  /** The access one bus event performs, if any. */
  function AccessOf(e: BusEvent): (a: seq<Access>)
    ensures |a| <= 1
  {
    match e
    case Xfer(tx) => (match DecodeFrame(tx) case Some(x) => [x] case None => [])
    case _ => []
  }

  /** The accesses a log of exchanges performs, in order. */
  function Accesses(log: seq<BusEvent>): seq<Access>
    decreases |log|
  {
    if log == [] then [] else AccessOf(log[0]) + Accesses(log[1..])
  }

  lemma {:induction false} AccessesAppend(a: seq<BusEvent>, b: seq<BusEvent>)
    ensures Accesses(a + b) == Accesses(a) + Accesses(b)
    decreases |a|
  {
    if a == [] {
      assert a + b == b;
    } else {
      assert (a + b)[1..] == a[1..] + b;
      AccessesAppend(a[1..], b);
    }
  }

  function ReadEvent(addr: byte, len: nat): BusEvent
  {
    Xfer(SentAll(ReadFrame(addr, ExchangeLength(len))))
  }

  function WriteEvent(addr: byte, value: nat): BusEvent
    requires value < TWO_16
  {
    Xfer(SentAll(WriteFrame(addr, value)))
  }

  /** `ina229_interface_bus_init`: the alert interrupt is disabled while the GPIOs are set up, then
      SPI0 runs at 10 MHz in mode 1 with a chip-select interval of 1. */
  function BusInitTrace(): seq<BusEvent>
  {
    [IrqDisable, SpiConfig(10, 1, 1)]
  }

  /** What `ina229_init` does on the bus. */
  function InitTrace(): seq<BusEvent>
  {
    BusInitTrace() + IdentifyTrace() + ConfigureTrace()
  }

  /** The two identification reads of `ina229_init`. */
  function IdentifyTrace(): seq<BusEvent>
  {
    [ReadEvent(MANUFACTURER_ID, 3), ReadEvent(DEVICE_ID, 3)]
  }

  /** Reset, wait, alert configuration, interrupt enable, start of measurement. */
  function ConfigureTrace(): seq<BusEvent>
  {
    [WriteEvent(ADC_CONFIG, RESET_VALUE), DelayMs(200), WriteEvent(DIAG_ALRT, ALERT_VALUE), IrqEnable,
     WriteEvent(ADC_CONFIG, MODE_VALUE)]
  }

  /** The init order: both identification registers are read, the device is reset and given 200 ms,
      the alert is configured, the interrupt is enabled, and only then is continuous measurement
      started. */
  lemma InitOrder()
    ensures Accesses(InitTrace()) ==
              [ReadReg(MANUFACTURER_ID as nat, 3), ReadReg(DEVICE_ID as nat, 3), WriteReg(ADC_CONFIG as nat, RESET_VALUE),
               WriteReg(DIAG_ALRT as nat, ALERT_VALUE), WriteReg(ADC_CONFIG as nat, MODE_VALUE)]
  {
    var r0, r1 := ReadReg(MANUFACTURER_ID as nat, 3), ReadReg(DEVICE_ID as nat, 3);
    var w0, w1, w2 := WriteReg(ADC_CONFIG as nat, RESET_VALUE), WriteReg(DIAG_ALRT as nat, ALERT_VALUE),
                      WriteReg(ADC_CONFIG as nat, MODE_VALUE);
    calc {
      Accesses(InitTrace());
      { AccessesOfThree(BusInitTrace(), IdentifyTrace(), ConfigureTrace()); }
      Accesses(BusInitTrace()) + Accesses(IdentifyTrace()) + Accesses(ConfigureTrace());
      { BusInitAccesses(); IdentifyOrder(); ConfigureOrder(); }
      [] + [r0, r1] + [w0, w1, w2];
      [r0, r1, w0, w1, w2];
    }
  }

  lemma AccessesOfThree(a: seq<BusEvent>, b: seq<BusEvent>, c: seq<BusEvent>)
    ensures Accesses(a + b + c) == Accesses(a) + Accesses(b) + Accesses(c)
  {
    AccessesAppend(a, b);
    AccessesAppend(a + b, c);
  }

  lemma BusInitAccesses()
    ensures Accesses(BusInitTrace()) == []
  {
    assert BusInitTrace()[1..][1..] == [];
  }

  lemma IdentifyOrder()
    ensures Accesses(IdentifyTrace()) == [ReadReg(MANUFACTURER_ID as nat, 3), ReadReg(DEVICE_ID as nat, 3)]
  {
    ReadEventAccess(MANUFACTURER_ID, 3);
    ReadEventAccess(DEVICE_ID, 3);
    IdentifyAccesses(ReadEvent(MANUFACTURER_ID, 3), ReadEvent(DEVICE_ID, 3),
                     [ReadReg(MANUFACTURER_ID as nat, 3)], [ReadReg(DEVICE_ID as nat, 3)]);
  }

  lemma ConfigureOrder()
    ensures Accesses(ConfigureTrace()) ==
              [WriteReg(ADC_CONFIG as nat, RESET_VALUE), WriteReg(DIAG_ALRT as nat, ALERT_VALUE), WriteReg(ADC_CONFIG as nat, MODE_VALUE)]
  {
    WriteEventAccess(ADC_CONFIG, RESET_VALUE);
    WriteEventAccess(DIAG_ALRT, ALERT_VALUE);
    WriteEventAccess(ADC_CONFIG, MODE_VALUE);
    ConfigureAccesses(WriteEvent(ADC_CONFIG, RESET_VALUE), WriteEvent(DIAG_ALRT, ALERT_VALUE), WriteEvent(ADC_CONFIG, MODE_VALUE),
                      [WriteReg(ADC_CONFIG as nat, RESET_VALUE)], [WriteReg(DIAG_ALRT as nat, ALERT_VALUE)],
                      [WriteReg(ADC_CONFIG as nat, MODE_VALUE)]);
  }

  lemma IdentifyAccesses(e0: BusEvent, e1: BusEvent, a0: seq<Access>, a1: seq<Access>)
    requires AccessOf(e0) == a0 && AccessOf(e1) == a1
    ensures Accesses([e0, e1]) == a0 + a1
  {
    calc {
      Accesses([e0, e1]);
      { assert [e0, e1] == [e0] + [e1]; AccessesCons(e0, [e1]); }
      a0 + Accesses([e1]);
      { assert [e1] == [e1] + []; AccessesCons(e1, []); }
      a0 + (a1 + []);
      a0 + a1;
    }
  }

  lemma ConfigureAccesses(e2: BusEvent, e3: BusEvent, e4: BusEvent, a2: seq<Access>, a3: seq<Access>, a4: seq<Access>)
    requires AccessOf(e2) == a2 && AccessOf(e3) == a3 && AccessOf(e4) == a4
    ensures Accesses([e2, DelayMs(200), e3, IrqEnable, e4]) == a2 + a3 + a4
  {
    calc {
      Accesses([e2, DelayMs(200), e3, IrqEnable, e4]);
      { assert [e2, DelayMs(200), e3, IrqEnable, e4] == [e2] + [DelayMs(200), e3, IrqEnable, e4];
        AccessesCons(e2, [DelayMs(200), e3, IrqEnable, e4]); }
      a2 + Accesses([DelayMs(200), e3, IrqEnable, e4]);
      { assert [DelayMs(200), e3, IrqEnable, e4] == [DelayMs(200)] + [e3, IrqEnable, e4];
        AccessesCons(DelayMs(200), [e3, IrqEnable, e4]); }
      a2 + ([] + Accesses([e3, IrqEnable, e4]));
      { ConfigureTail(e3, e4, a3, a4); }
      a2 + ([] + (a3 + a4));
      a2 + a3 + a4;
    }
  }

  lemma ConfigureTail(e3: BusEvent, e4: BusEvent, a3: seq<Access>, a4: seq<Access>)
    requires AccessOf(e3) == a3 && AccessOf(e4) == a4
    ensures Accesses([e3, IrqEnable, e4]) == a3 + a4
  {
    calc {
      Accesses([e3, IrqEnable, e4]);
      { assert [e3, IrqEnable, e4] == [e3] + [IrqEnable, e4];
        AccessesCons(e3, [IrqEnable, e4]); }
      a3 + Accesses([IrqEnable, e4]);
      { assert [IrqEnable, e4] == [IrqEnable] + [e4];
        AccessesCons(IrqEnable, [e4]);
        assert [e4] == [e4] + [];
        AccessesCons(e4, []); }
      a3 + ([] + (a4 + []));
      a3 + a4;
    }
  }

  /** The accesses of a log are those of its first event, then those of the rest. */
  lemma AccessesCons(e: BusEvent, rest: seq<BusEvent>)
    ensures Accesses([e] + rest) == AccessOf(e) + Accesses(rest)
  {
    assert ([e] + rest)[0] == e && ([e] + rest)[1..] == rest;
  }

  /** Reset is followed by the 200 ms wait, and the interrupt is enabled between the alert
      configuration and the start of measurement. */
  lemma InitSteps()
    ensures var t := InitTrace();
            && |t| == 9 && t[5] == DelayMs(200) && t[7] == IrqEnable
            && t[4] == WriteEvent(ADC_CONFIG, RESET_VALUE) && t[6] == WriteEvent(DIAG_ALRT, ALERT_VALUE)
            && t[8] == WriteEvent(ADC_CONFIG, MODE_VALUE)
  {
  }

  lemma ReadEventAccess(addr: byte, len: nat)
    requires 1 <= len <= MAX_REG_VALUE_SIZE
    ensures AccessOf(ReadEvent(addr, len)) == [ReadReg(addr % 64, len)]
  {
    DecodeReadFrame(addr, len);
  }

  lemma WriteEventAccess(addr: byte, value: nat)
    requires value < TWO_16
    ensures AccessOf(WriteEvent(addr, value)) == [WriteReg(addr % 64, value)]
  {
    DecodeWriteFrame(addr, value);
  }

  class Driver {
    /** Everything the driver has done on the bus so far, oldest first. */
    var log: seq<BusEvent>

    constructor ()
      ensures log == []
    {
      log := [];
    }

    /** `ina229_interface_bus_init`. */
    method InterfaceBusInit()
      modifies this`log
      ensures log == old(log) + BusInitTrace()
    {
      log := log + [IrqDisable];
      log := log + [SpiConfig(10, 1, 1)];
    }

    /** `ina229_enable_alert_interrupt`. */
    method EnableAlertInterrupt()
      modifies this`log
      ensures log == old(log) + [IrqEnable]
    {
      log := log + [IrqEnable];
    }

    /** `ina229_disable_alert_interrupt`. */
    method DisableAlertInterrupt()
      modifies this`log
      ensures log == old(log) + [IrqDisable]
    {
      log := log + [IrqDisable];
    }

    /** `ina229_enable_volt_measurement` and `ina229_disable_volt_measurement`. */
    method SetVoltMeasurement(on: bool)
      modifies this`log
      ensures log == old(log) + [Expander(VolMeasure, on)]
    {
      log := log + [Expander(VolMeasure, on)];
    }

    /** `ina229_reg_read(addr, value, len)`, `miso` being what the INA229 clocks back. The first
        `len` bytes of `value` are zeroed, at most `MAX_REG_VALUE_SIZE` of them are then exchanged,
        and the rest of the caller's buffer is left alone. */
    method RegRead(addr: byte, value: array<byte>, len: nat, miso: seq<byte>)
      requires len <= value.Length
      requires |miso| == ExchangeLength(len)
      modifies this`log, value
      ensures log == old(log) + [Xfer(SentAll(ReadFrame(addr, ExchangeLength(len))))]
      ensures value[..] == miso + Zeros(len - |miso|) + old(value[..])[len..]
    {
      var tx := new byte[MAX_REG_VALUE_SIZE](_ => 0);
      forall i | 0 <= i < len {
        value[i] := 0;
      }
      tx[0] := (addr * 4) % 256 + 1;
      var n: nat;
      if len < MAX_REG_VALUE_SIZE {
        n := len;
      } else {
        n := MAX_REG_VALUE_SIZE;
      }
      assert tx[..n] == ReadFrame(addr, n);
      log := log + [Xfer(SentAll(tx[..n]))];
      forall i | 0 <= i < n {
        value[i] := miso[i];
      }
      assert value[..] == miso + Zeros(len - |miso|) + old(value[..])[len..];
    }

    /** `ina229_reg_write(addr, value)`: one three-byte exchange. */
    method RegWrite(addr: byte, value: nat)
      requires value < TWO_16
      modifies this`log
      ensures log == old(log) + [WriteEvent(addr, value)]
    {
      var tx := new byte[3];
      tx[0] := (addr * 4) % 256;
      tx[1] := value / 256;
      tx[2] := value % 256;
      assert tx[..] == WriteFrame(addr, value);
      log := log + [Xfer(SentAll(tx[..]))];
    }

    /** `ina229_init`, `manReply` and `devReply` being what the two identification reads clock
        back; returns the two buffers whose bytes 1 and 2 are printed. */
    method Init(manReply: seq<byte>, devReply: seq<byte>) returns (manId: seq<byte>, deviceId: seq<byte>)
      requires |manReply| == 3 && |devReply| == 3
      modifies this`log
      ensures log == old(log) + InitTrace()
      ensures manId == manReply && deviceId == devReply
    {
      InterfaceBusInit();
      var man := new byte[3];
      var dev := new byte[3];
      RegRead(MANUFACTURER_ID, man, 3, manReply);
      RegRead(DEVICE_ID, dev, 3, devReply);
      manId, deviceId := man[..], dev[..];
      assert manId == manReply + [] + [];
      assert deviceId == devReply + [] + [];
      RegWrite(ADC_CONFIG, RESET_VALUE);
      log := log + [DelayMs(200)];
      RegWrite(DIAG_ALRT, ALERT_VALUE);
      EnableAlertInterrupt();
      RegWrite(ADC_CONFIG, MODE_VALUE);
    }

    /** `gpio0_isr(pin)`: only the alert pin triggers a 3-byte read of `DIAG_ALRT`. */
    method GpioIsr(pin: nat, miso: seq<byte>)
      requires |miso| == 3
      modifies this`log
      ensures log == old(log) + (if pin == GPIO_PIN_0 then [ReadEvent(DIAG_ALRT, 3)] else [])
    {
      if pin == GPIO_PIN_0 {
        var diagAlrt := new byte[3];
        RegRead(DIAG_ALRT, diagAlrt, 3, miso);
      }
    }
  }

  /** What the alert interrupt does on the wire: one read of the alert register for the alert pin,
      nothing for any other pin. */
  lemma IsrReadsAlertRegister(pin: nat)
    ensures var t := if pin == GPIO_PIN_0 then [ReadEvent(DIAG_ALRT, 3)] else [];
            Accesses(t) == if pin == GPIO_PIN_0 then [ReadReg(DIAG_ALRT as nat, 3)] else []
  {
    DecodeReadFrame(DIAG_ALRT, 3);
    if pin == GPIO_PIN_0 {
      assert [ReadEvent(DIAG_ALRT, 3)][1..] == [];
    }
  }
}
