/** bat_sim.c: the battery simulator is an MCP4725 12-bit DAC on I2C address 0x60. A fast-mode write
    sends the clamped output code in two bytes; reading back returns five bytes (status, DAC
    register, EEPROM) whose fields the firmware prints. */
module BatSim {
  import opened Bytes

  /** `DEVICE_ADDR` (A0 = A1 = A2 = 0). */
  const DEVICE_ADDR: nat := 0x60
  /** `DATA_MAX_4P2`: the code for 4.2 V at VCC = 4.75 V; the output is never set higher. */
  const DATA_MAX_4P2: nat := 3622

  /** An I2C message handed to `bflb_i2c_transfer`: a write of some bytes, or a read of `length`
      bytes into a receive buffer. */
  datatype I2cMsg = Write(addr: nat, bytes: seq<byte>) | Read(addr: nat, length: nat)

  /** The code actually written for a requested `data`: `min(data, DATA_MAX_4P2)`. */
  function Clamp(data: nat): (value: nat)
    ensures value <= data && value <= DATA_MAX_4P2
    ensures value == data || value == DATA_MAX_4P2
  {
    if data >= DATA_MAX_4P2 then DATA_MAX_4P2 else data
  }

  /** How the DAC reads a fast-mode write: power-down bits in bits 5:4 of the first byte, the 12-bit
      code in its low nibble and the second byte. */
  function FastModeCode(frame: seq<byte>): nat
    requires |frame| == 2
  {
    (frame[0] as int % 16) * 256 + frame[1]
  }

  /** `bat_sim_fast_mode_write(data)`: clamps, packs the code into a two-byte buffer and writes it to
      the DAC. The upper nibble of the first byte (fast-mode command and power-down bits) is always
      zero, and the DAC receives exactly the clamped code. */
  method FastModeWrite(data: nat) returns (msg: I2cMsg)
    requires data < TWO_16
    ensures msg.Write? && msg.addr == DEVICE_ADDR && |msg.bytes| == 2
    ensures msg.bytes[0] < 16
    ensures FastModeCode(msg.bytes) == Clamp(data)
  {
    var value: nat;
    if data >= DATA_MAX_4P2 {
      value := DATA_MAX_4P2;
    } else {
      value := data;
    }
    var tx := new byte[2];
    tx[0] := (value / 256) % 16;
    tx[1] := value % 256;
    msg := Write(DEVICE_ADDR, tx[..]);
  }

  /** The fields printed by `bat_sim_read_config_data_code_epprom`. */
  datatype ConfigReport = ConfigReport(rdy: nat, por: nat, pd: nat, dacH: nat, dacL: nat,
                                       eepromPd: nat, eprH: nat, eprL: nat)

  /** `EPR_H` as the firmware computes it: `p_rx[3] | 0x0F`, the byte with its four low bits set. */
  function EprHighAsWritten(b3: byte): nat
  {
    (b3 / 16) * 16 + 15
  }

  /** `EPR_H` as the MCP4725 lays out its EEPROM: bits 11:8 of the stored code are the low nibble of
      the fourth byte, so `p_rx[3] & 0x0F`. */
  function EprHigh(b3: byte): (h: nat)
    ensures h < 16
  {
    b3 % 16
  }

  /** The printed fields of five read-back bytes, with `EPR_H` corrected. */
  function DecodeConfig(rx: seq<byte>): (r: ConfigReport)
    requires |rx| == 5
    ensures r.rdy < 2 && r.por < 2 && r.pd < 4 && r.eepromPd < 4
    ensures r.dacH < 16 && r.dacL < 256 && r.eprH < 16 && r.eprL < 256
  {
    var temp := (rx[1] as int * 256 + rx[2]) / 16;
    ConfigReport(rx[0] / 128, (rx[0] / 64) % 2, (rx[0] / 2) % 4, (temp / 256) % 256, temp % 256,
                 (rx[3] / 32) % 4, EprHigh(rx[3]), rx[4])
  }

  /** The printed fields as the firmware computes them. */
  function DecodeConfigAsWritten(rx: seq<byte>): ConfigReport
    requires |rx| == 5
  {
    DecodeConfig(rx).(eprH := EprHighAsWritten(rx[3]))
  }

  /** `bat_sim_read_config_data_code_epprom`: a five-byte read from the DAC into a zeroed buffer,
      `device` being what the DAC returns, then the fields of the buffer as the firmware prints
      them, `EPR_H` included with its low nibble forced to ones. */
  method ReadConfigDataCodeEeprom(device: seq<byte>) returns (msg: I2cMsg, report: ConfigReport)
    requires |device| == 5
    ensures msg == Read(DEVICE_ADDR, 5)
    ensures report == DecodeConfigAsWritten(device)
    ensures report.eprH % 16 == 15
  {
    var rx := new byte[5](_ => 0);
    msg := Read(DEVICE_ADDR, 5);
    rx[0], rx[1], rx[2], rx[3], rx[4] := device[0], device[1], device[2], device[3], device[4];
    var temp := rx[1] as int * 256 + rx[2];
    temp := temp / 16;
    report := ConfigReport(rx[0] / 128, (rx[0] / 64) % 2, (rx[0] / 2) % 4, (temp / 256) % 256, temp % 256,
                           (rx[3] / 32) % 4, (rx[3] / 16) * 16 + 15, rx[4]);
  }

  /** The state the MCP4725 reports on a read: ready and power-on-reset flags, power-down mode and
      12-bit code of the DAC register, power-down mode and 12-bit code stored in EEPROM. */
  datatype DacState = DacState(rdy: nat, por: nat, pd: nat, dac: nat, eepromPd: nat, eeprom: nat)

  predicate ValidState(s: DacState)
  {
    s.rdy < 2 && s.por < 2 && s.pd < 4 && s.dac < 4096 && s.eepromPd < 4 && s.eeprom < 4096
  }

  /** The five bytes the MCP4725 returns for a state, unused bits zero. */
  function ReadBack(s: DacState): (rx: seq<byte>)
    requires ValidState(s)
    ensures |rx| == 5
  {
    [s.rdy * 128 + s.por * 64 + s.pd * 2, s.dac / 16, (s.dac % 16) * 16, s.eepromPd * 32 + s.eeprom / 256, s.eeprom % 256]
  }

  /** The report shows the DAC's state: each flag and mode, and both 12-bit codes split into a high
      and a low byte. */
  lemma ConfigRoundTrip(s: DacState)
    requires ValidState(s)
    ensures var r := DecodeConfig(ReadBack(s));
            && r.rdy == s.rdy && r.por == s.por && r.pd == s.pd && r.eepromPd == s.eepromPd
            && r.dacH * 256 + r.dacL == s.dac
            && r.eprH * 256 + r.eprL == s.eeprom
  {
    StatusFields(s.rdy, s.por, s.pd);
    DacFields(s.dac);
    EepromFields(s.eepromPd, s.eeprom);
  }

  lemma StatusFields(rdy: nat, por: nat, pd: nat)
    requires rdy < 2 && por < 2 && pd < 4
    ensures var b := rdy * 128 + por * 64 + pd * 2;
            b / 128 == rdy && (b / 64) % 2 == por && (b / 2) % 4 == pd
  {
    var b := rdy * 128 + por * 64 + pd * 2;
    DivMulAdd(por * 64 + pd * 2, rdy, 128);
    DivMulAdd(pd * 2, rdy * 2 + por, 64);
    DivMulAdd(por, rdy, 2);
    DivMulAdd(0, pd + 4 * (rdy * 32 + por * 16), 2);
    DivMulAdd(pd, rdy * 32 + por * 16, 4);
  }

  lemma DacFields(dac: nat)
    requires dac < 4096
    ensures var temp := ((dac / 16) * 256 + (dac % 16) * 16) / 16;
            temp == dac && ((temp / 256) % 256) * 256 + temp % 256 == dac
  {
    DivMulAdd(0, dac, 16);
    assert (dac / 16) * 256 + (dac % 16) * 16 == 0 + 16 * dac;
    DivMulAdd(dac % 256, dac / 256, 256);
    DivMulAdd(dac / 256, 0, 256);
  }

  lemma EepromFields(pd: nat, eeprom: nat)
    requires pd < 4 && eeprom < 4096
    ensures var b3 := pd * 32 + eeprom / 256;
            (b3 / 32) % 4 == pd && b3 % 16 == eeprom / 256
  {
    DivMulAdd(eeprom / 256, pd, 32);
    DivMulAdd(pd, 0, 4);
    DivMulAdd(eeprom / 256, pd * 2, 16);
  }

  /** As written, every field but `EPR_H` shows the DAC's state, and `EPR_H` is the EEPROM
      power-down bits followed by a low nibble of ones: the printed EEPROM code is the stored one
      only when its bits 11:8 are all ones and the power-down bits are zero. */
  lemma EprHighAsWrittenMisreports(s: DacState)
    requires ValidState(s)
    ensures var r := DecodeConfigAsWritten(ReadBack(s));
            && r.rdy == s.rdy && r.por == s.por && r.pd == s.pd && r.eepromPd == s.eepromPd
            && r.dacH * 256 + r.dacL == s.dac && r.eprL == s.eeprom % 256
            && r.eprH == s.eepromPd * 32 + 15
            && (r.eprH * 256 + r.eprL == s.eeprom <==> s.eepromPd == 0 && s.eeprom / 256 == 15)
  {
    ConfigRoundTrip(s);
    DivMulAdd(s.eeprom / 256, s.eepromPd * 2, 16);
  }

  /** The smallest witness: an EEPROM byte 3 of 0x00 is printed as `EPR_H = F`, while the
      stored code's bits 11:8 are 0. */
  lemma EprHighAsWrittenZero()
    ensures var rx: seq<byte> := [0, 0, 0, 0x00, 0];
            DecodeConfigAsWritten(rx).eprH == 0x0F && DecodeConfig(rx).eprH == 0
  {
  }
}
