/** The command bytes the PC applications write to the command port, and the check they apply
    to the device's reply (power_monitor.py and current_waveform.py). */
module PcCommands {
  import opened Bytes

  /** `conversion_times`: option-menu key to the INA229 conversion-time code. */
  const ConversionTimes: map<string, byte> :=
    map["280uS" := 0x3, "540uS" := 0x4, "1052uS" := 0x5, "2074uS" := 0x6, "4120uS" := 0x7]

  /** `average_num`: option-menu key to the INA229 averaging code. */
  const AverageNum: map<string, byte> :=
    map["AVG_NUM_1" := 0x00, "AVG_NUM_4" := 0x01, "AVG_NUM_16" := 0x02, "AVG_NUM_64" := 0x03,
        "AVG_NUM_128" := 0x04, "AVG_NUM_256" := 0x05, "AVG_NUM_512" := 0x06, "AVG_NUM_1024" := 0x07]

  /** `adc_range`: option-menu key to the ADCRANGE bit. */
  const AdcRange: map<string, byte> := map["RANGE_0" := 0x00, "RANGE_1" := 0x01]

  const OP_ADC_CONFIG: byte := 0x02
  const OP_CONFIGURE_INA229: byte := 0x04
  const OP_SET_VBAT: byte := 0x05
  const OP_VBAT_ENABLE: byte := 0x06
  const OP_START_MEASURING: byte := 0x07
  const OP_STOP_MEASURING: byte := 0x08
  const SUCCESS: byte := 0x01

  /** `serial.read(16)`: the reply is at most 16 bytes. */
  const MAX_REPLY: nat := 16

  /** The value of a command's 16-bit argument, sent high byte first. */
  function ArgumentOf(hi: byte, lo: byte): nat { hi as int * 256 + lo as int }

  /** `[0x05, (v >> 8) & 0xFF, v & 0xFF, 0x00]` for the battery-simulator scale value `v`.
      Python's `>>` floors and `& 0xFF` keeps the low eight bits of the two's-complement value,
      which is Dafny's `/ 256` and `% 256` for every integer, negative ones included. */
  function SetVbatCommand(v: int): (cmd: seq<byte>)
    ensures |cmd| == 4 && cmd[0] == OP_SET_VBAT && cmd[3] == 0
    ensures ArgumentOf(cmd[1], cmd[2]) == v % TWO_16
    ensures 0 <= v < TWO_16 ==> ArgumentOf(cmd[1], cmd[2]) == v
  {
    Split16(v);
    [OP_SET_VBAT, (v / 256) % 256, v % 256, 0x00]
  }

  lemma Split16(v: int)
    ensures ((v / 256) % 256) * 256 + v % 256 == v % TWO_16
  {
    var q, r := v / 256, v % 256;
    assert v == 256 * q + r;
    assert q == 256 * (q / 256) + q % 256;
    assert v == TWO_16 * (q / 256) + (256 * (q % 256) + r);
  }

  /** The 16-bit split loses nothing: two scale values in range give two different commands. */
  lemma SetVbatCommandInjective(v: int, w: int)
    requires 0 <= v < TWO_16 && 0 <= w < TWO_16 && SetVbatCommand(v) == SetVbatCommand(w)
    ensures v == w
  {
    assert ArgumentOf(SetVbatCommand(v)[1], SetVbatCommand(v)[2]) == v;
  }

  /** `[0x06, 0x01, 0, 0]` when the check button is ticked, `[0x06, 0x00, 0, 0]` otherwise. */
  function VbatEnableCommand(on: bool): (cmd: seq<byte>)
    ensures |cmd| == 4 && cmd[0] == OP_VBAT_ENABLE && cmd[2..] == [0, 0]
    ensures (cmd[1] == 1) == on && cmd[1] <= 1
  {
    [OP_VBAT_ENABLE, if on then 0x01 else 0x00, 0x00, 0x00]
  }

  /** `[0x02, 0, 0, 0, ct, avg, range, 0x01]`: eight bytes, codes from the three tables. */
  function AdcConfigCommand(ct: string, avg: string, range: string): (cmd: seq<byte>)
    requires ct in ConversionTimes && avg in AverageNum && range in AdcRange
    ensures |cmd| == 8 && cmd[0] == OP_ADC_CONFIG && cmd[1..4] == [0, 0, 0] && cmd[7] == 0x01
    ensures 3 <= cmd[4] <= 7 && cmd[5] <= 7 && cmd[6] <= 1
    ensures cmd[4] == ConversionTimes[ct] && cmd[5] == AverageNum[avg] && cmd[6] == AdcRange[range]
  {
    [OP_ADC_CONFIG, 0x00, 0x00, 0x00] + [ConversionTimes[ct]] + [AverageNum[avg]] + [AdcRange[range]] + [0x01]
  }

  /** Every selection of the three menus gives a different command. */
  lemma AdcConfigCommandInjective(ct1: string, avg1: string, r1: string, ct2: string, avg2: string, r2: string)
    requires ct1 in ConversionTimes && avg1 in AverageNum && r1 in AdcRange
    requires ct2 in ConversionTimes && avg2 in AverageNum && r2 in AdcRange
    requires AdcConfigCommand(ct1, avg1, r1) == AdcConfigCommand(ct2, avg2, r2)
    ensures ct1 == ct2 && avg1 == avg2 && r1 == r2
  {
    var c1, c2 := AdcConfigCommand(ct1, avg1, r1), AdcConfigCommand(ct2, avg2, r2);
    assert c1[4] == c2[4] && c1[5] == c2[5] && c1[6] == c2[6];
  }

  /** A command made of an opcode and three zero bytes: configure INA229, start and stop measuring. */
  function BareCommand(op: byte): (cmd: seq<byte>)
    ensures |cmd| == 4 && cmd[0] == op && cmd[1..] == [0, 0, 0]
  {
    [op, 0x00, 0x00, 0x00]
  }

  /** What evaluating `response[0] != cmd[0] or response[1] != 0x01` does. */
  datatype ReplyCheck =
    | Accepted     // both tests false: the handler goes on
    | Mismatch     // the test is true: "Device respone error" and the handler returns
    | IndexError   // an index is out of range: the exception handler shows it

  /** Python's `or` evaluates `response[1]` only when `response[0]` matched, so a one-byte reply
      with the wrong opcode is a plain mismatch, not an exception. */
  function CheckReply(op: byte, reply: seq<byte>): (r: ReplyCheck)
    ensures r == Accepted <==> |reply| >= 2 && reply[0] == op && reply[1] == SUCCESS
    ensures r == IndexError <==> |reply| == 0 || (|reply| == 1 && reply[0] == op)
  {
    if |reply| == 0 then IndexError
    else if reply[0] != op then Mismatch
    else if |reply| == 1 then IndexError
    else if reply[1] != SUCCESS then Mismatch
    else Accepted
  }

  /** Only the opcode and the status byte matter: anything after byte 1 is ignored. */
  lemma CheckReplyIgnoresTail(op: byte, reply: seq<byte>, tail: seq<byte>)
    requires |reply| >= 2
    ensures CheckReply(op, reply + tail) == CheckReply(op, reply)
  {
  }

  /** What one write-then-read exchange on the command port gives. */
  datatype Exchange =
    | Raised                 // `write` or `read` raised
    | Replied(reply: seq<byte>)  // `read(16)` returned these bytes (empty on timeout)

  predicate ValidExchange(e: Exchange) { e.Replied? ==> |e.reply| <= MAX_REPLY }

  /** What the user is told at the end of a command handler. */
  datatype Report = NotConnected | ResponseError | ExceptionShown | Completed

  /** The report of one checked exchange. */
  function ReportOf(op: byte, e: Exchange): (r: Report)
    ensures r == Completed <==> e.Replied? && CheckReply(op, e.reply) == Accepted
    ensures r == ResponseError <==> e.Replied? && CheckReply(op, e.reply) == Mismatch
    ensures r != NotConnected
  {
    match e
    case Raised => ExceptionShown
    case Replied(reply) =>
      match CheckReply(op, reply)
      case Accepted => Completed
      case Mismatch => ResponseError
      case IndexError => ExceptionShown
  }
}
