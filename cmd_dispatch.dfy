/** `cmd_process` of cmd.c: a 4-byte command (`cmd_t`) arriving over USB is answered in the shared
    write buffer `p_wr_buf` with a 4-byte `response_t` (opcode echo, result byte, two reserved
    bytes), after the device action the opcode asks for. */
module CmdDispatch {
  import opened Bytes

  /** `sizeof(cmd_t)` and `sizeof(response_t)`. */
  const CMD_SIZE: nat := 4
  const RESPONSE_SIZE: nat := 4

  /** The `cmd_code_t` values. */
  const CMD_NOP: byte := 0x00
  const CMD_RESET_INA229: byte := 0x01
  const CMD_CONVERSION_TIME: byte := 0x02
  const CMD_SET_ADCRANGE: byte := 0x03
  const CMD_SET_ALERT_COMP_AVG: byte := 0x04
  const CMD_CONFIG_INA229: byte := 0x05
  const CMD_SET_BAT_SIM_VOLT: byte := 0x06
  const CMD_BAT_SIM_OUTPUT: byte := 0x07
  const CMD_START_MESURE: byte := 0x08
  const CMD_STOP_MESURE: byte := 0x09

  /** The side effects of `cmd_process` outside the write buffer, in the order they happen:
      `ina229_reset()`, `ina229_start_measure`, `ina229_stop_measure` and
      `cdc_acm_data_send(len)`. */
  datatype Action = ResetIna229 | StartMeasure | StopMeasure | SendResponse(len: nat)

  /** The opcodes `cmd_code_t` names. */
  predicate Known(code: byte)
  {
    code in {CMD_NOP, CMD_RESET_INA229, CMD_CONVERSION_TIME, CMD_SET_ADCRANGE, CMD_SET_ALERT_COMP_AVG,
             CMD_CONFIG_INA229, CMD_SET_BAT_SIM_VOLT, CMD_BAT_SIM_OUTPUT, CMD_START_MESURE, CMD_STOP_MESURE}
  }

  /** `resp->result`: 1 for a known opcode, 0 in the `default` branch. */
  function ResultCode(code: byte): (r: byte)
    ensures r == 1 <==> code <= 9
    ensures r == 0 <==> code > 9
  {
    if Known(code) then 1 else 0
  }

  /** The device action each `case` performs before answering. */
  function DeviceActions(code: byte): (acts: seq<Action>)
    ensures |acts| <= 1
    ensures acts != [] <==> code == CMD_RESET_INA229 || code == CMD_START_MESURE || code == CMD_STOP_MESURE
  {
    if code == CMD_RESET_INA229 then [ResetIna229]
    else if code == CMD_START_MESURE then [StartMeasure]
    else if code == CMD_STOP_MESURE then [StopMeasure]
    else []
  }

  /** The number of responses sent among some actions. */
  function ResponsesSent(acts: seq<Action>): nat
    decreases |acts|
  {
    if acts == [] then 0
    else ResponsesSent(acts[..|acts| - 1]) + (if acts[|acts| - 1].SendResponse? then 1 else 0)
  }

  lemma {:induction false} ResponsesSentAppend(a: seq<Action>, b: seq<Action>)
    ensures ResponsesSent(a + b) == ResponsesSent(a) + ResponsesSent(b)
    decreases |b|
  {
    if b == [] {
      assert a + b == a;
    } else {
      ResponsesSentAppend(a, b[..|b| - 1]);
      assert (a + b)[..|a + b| - 1] == a + b[..|b| - 1];
    }
  }

  /** Every opcode, known or not, is answered exactly once, and the answer is the last thing
      `cmd_process` does (start and stop included, although the protocol table in cmd.h says they
      get no response). */
  lemma OneResponsePerCommand(code: byte)
    ensures var acts := DeviceActions(code) + [SendResponse(RESPONSE_SIZE)];
            && ResponsesSent(acts) == 1
            && acts[|acts| - 1] == SendResponse(RESPONSE_SIZE)
  {
    var d := DeviceActions(code);
    if d != [] {
      assert ResponsesSent(d) == ResponsesSent(d[..0]) + 0;
    }
    ResponsesSentAppend(d, [SendResponse(RESPONSE_SIZE)]);
    assert [SendResponse(RESPONSE_SIZE)][..0] == [];
  }

  class CommandProcessor {
    /** `p_wr_buf`: the USB write buffer the response is built in. */
    const wrBuf: array<byte>
    /** Everything `cmd_process` has triggered so far, oldest first. */
    var actions: seq<Action>

    predicate Valid()
      reads this
    {
      wrBuf.Length >= RESPONSE_SIZE
    }

    constructor (buf: array<byte>)
      requires buf.Length >= RESPONSE_SIZE
      ensures Valid() && wrBuf == buf && actions == []
    {
      wrBuf := buf;
      actions := [];
    }

    /** `cmd_process(cmd_buff, len)` with `cmd` the `len` received bytes. */
    method Process(cmd: seq<byte>)
      requires Valid()
      modifies this`actions, wrBuf
      ensures |cmd| != CMD_SIZE ==> wrBuf[..] == old(wrBuf[..]) && actions == old(actions)
      ensures |cmd| == CMD_SIZE ==>
                && wrBuf[..] == old(wrBuf[..])[0 := cmd[0]][1 := ResultCode(cmd[0])]
                && actions == old(actions) + DeviceActions(cmd[0]) + [SendResponse(RESPONSE_SIZE)]
    {
      if |cmd| != CMD_SIZE {
        return;
      }
      wrBuf[0] := cmd[0];
      match cmd[0] {
        case 0x01 =>
          actions := actions + [ResetIna229];
          wrBuf[1] := 1;
        case 0x08 =>
          actions := actions + [StartMeasure];
          wrBuf[1] := 1;
        case 0x09 =>
          actions := actions + [StopMeasure];
          wrBuf[1] := 1;
        case 0x00 => wrBuf[1] := 1;
        case 0x02 => wrBuf[1] := 1;
        case 0x03 => wrBuf[1] := 1;
        case 0x04 => wrBuf[1] := 1;
        case 0x05 => wrBuf[1] := 1;
        case 0x06 => wrBuf[1] := 1;
        case 0x07 => wrBuf[1] := 1;
        case _ => wrBuf[1] := 0;
      }
      actions := actions + [SendResponse(RESPONSE_SIZE)];
    }
  }

  /** What a 4-byte command leaves in the response: the opcode echoed, 1 exactly for the opcodes
      0x00 to 0x09, and the two reserved bytes as they were. */
  lemma ResponseLayout(before: seq<byte>, code: byte)
    requires |before| >= RESPONSE_SIZE
    ensures var after := before[0 := code][1 := ResultCode(code)];
            && |after| == |before|
            && after[0] == code
            && (after[1] == 1 <==> Known(code))
            && (after[1] == 0 <==> !Known(code))
            && after[2..] == before[2..]
  {
    var after := before[0 := code][1 := ResultCode(code)];
    assert forall i :: 2 <= i < |before| ==> after[i] == before[i];
  }
}
