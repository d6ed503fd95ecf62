/** The `UARTApp` of pc_apps/current_waveform.py: one serial port carries both the commands
    and the 2056-byte frames of 256 samples per channel, and the receiving loop appends each
    accepted frame straight to the two plotted series. Widgets, plotting and message boxes are
    not modelled; what the user is told is returned as a `Report`. */
module CurrentWaveform {
  import opened Bytes
  import Telemetry
  import Retention
  import ReceiveLoop
  import opened PcCommands
  import Markers

  /** `DATA_RPT_SAMPLE_SIZE`. */
  const SAMPLES: nat := 256
  /** `MAX_DATA_SIZE`. */
  const MAX_DATA_SIZE: nat := 100000

  class CurrentWaveformApp {
    /** Whether `serial_port` is an open port. */
    var cmdPortOpen: bool
    var isReceiving: bool
    var isMeasuring: bool
    /** The bytes waiting in `serial_port`. */
    var dataPort: seq<byte>
    var voltageData: seq<int>
    var currentData: seq<int>
    var marker1: real
    var marker2: real
    var dragging: Markers.Drag

    /** The markers stay ordered and non-negative, and the two series hold at most `MAX_DATA_SIZE`
        samples each and always the same number. */
    predicate Valid()
      reads this
    {
      && 0.0 <= marker1 <= marker2
      && |voltageData| <= MAX_DATA_SIZE && |currentData| <= MAX_DATA_SIZE
      && |voltageData| == |currentData|
    }

    constructor ()
      ensures Valid()
      ensures !cmdPortOpen && !isReceiving && !isMeasuring && dataPort == []
      ensures voltageData == [] && currentData == []
      ensures marker1 == 200.0 && marker2 == 400.0 && dragging == Markers.NoMarker
    {
      cmdPortOpen, isReceiving, isMeasuring, dataPort := false, false, false, [];
      voltageData, currentData := [], [];
      marker1, marker2, dragging := 200.0, 400.0, Markers.NoMarker;
    }

    /** `connect`: on success the port is open and the receiving loop runs. */
    method Connect(opens: bool)
      modifies this`cmdPortOpen, this`isReceiving, this`dataPort
      ensures opens ==> cmdPortOpen && isReceiving && dataPort == []
      ensures !opens ==> unchanged(this)
    {
      if opens {
        cmdPortOpen, isReceiving, dataPort := true, true, [];
      }
    }

    /** `disconnect`: stops the receiving loop and closes the port; `wasOpen` tells which message
        box is shown. */
    method Disconnect() returns (wasOpen: bool)
      modifies this`cmdPortOpen, this`isReceiving
      ensures wasOpen == old(cmdPortOpen) && !cmdPortOpen && !isReceiving
    {
      isReceiving := false;
      wasOpen := cmdPortOpen;
      cmdPortOpen := false;
    }

    /** `receive_data`, over the passes `polls` of its loop: the receive loop with 256 samples per
        channel, each accepted frame appended to both series, each then trimmed to its last
        `MAX_DATA_SIZE` samples. A frame with the wrong signature changes neither series. */
    method ReceiveData(polls: seq<ReceiveLoop.PortPoll>)
      requires Valid()
      modifies this`isReceiving, this`dataPort, this`voltageData, this`currentData
      ensures Valid()
      ensures !old(isReceiving) ==>
                !isReceiving && dataPort == old(dataPort) && voltageData == old(voltageData) && currentData == old(currentData)
      ensures old(isReceiving) ==>
                var r := ReceiveLoop.Run(SAMPLES, ReceiveLoop.Start(old(dataPort)), polls);
                && isReceiving == !r.stopped
                && dataPort == r.pending
                && currentData == Retention.KeepLast(old(currentData) + Retention.Concat(Telemetry.Currents(r.frames)), MAX_DATA_SIZE)
                && voltageData == Retention.KeepLast(old(voltageData) + Retention.Concat(Telemetry.Voltages(r.frames)), MAX_DATA_SIZE)
    {
      if !isReceiving {
        return;
      }
      ghost var start := ReceiveLoop.Start(dataPort);
      ghost var vd, cd := voltageData, currentData;
      ghost var st := start;
      var i := 0;
      while i < |polls| && isReceiving
        invariant 0 <= i <= |polls|
        invariant Valid()
        invariant st == ReceiveLoop.Run(SAMPLES, start, polls[..i])
        invariant isReceiving == !st.stopped && dataPort == st.pending
        invariant currentData == Retention.AppendAll(cd, Telemetry.Currents(st.frames), MAX_DATA_SIZE)
        invariant voltageData == Retention.AppendAll(vd, Telemetry.Voltages(st.frames), MAX_DATA_SIZE)
        decreases |polls| - i
      {
        ReceiveLoop.RunSnoc(SAMPLES, start, polls, i);
        var stop, rest, added := ReceiveLoop.Pass(SAMPLES, dataPort, polls[i], st);
        isReceiving, dataPort := !stop, rest;
        if added != [] {
          var f := added[0];
          assert added == [f];
          AppendFrame(f);
          Telemetry.FramesSnoc(st.frames, f);
          Retention.AppendAllSnoc(cd, Telemetry.Currents(st.frames), f.current, MAX_DATA_SIZE);
          Retention.AppendAllSnoc(vd, Telemetry.Voltages(st.frames), f.voltage, MAX_DATA_SIZE);
        } else {
          assert st.frames + added == st.frames;
        }
        st := ReceiveLoop.Step(SAMPLES, st, polls[i]);
        i := i + 1;
      }
      ReceiveLoop.RunPrefix(SAMPLES, start, polls, i);
      Retention.AppendAllIsLastWindow(cd, Telemetry.Currents(st.frames), MAX_DATA_SIZE);
      Retention.AppendAllIsLastWindow(vd, Telemetry.Voltages(st.frames), MAX_DATA_SIZE);
    }

    /** The two `np.append` and trim steps for an accepted frame: each series gets the frame's
        batch and keeps its last `MAX_DATA_SIZE` samples. */
    method AppendFrame(f: Telemetry.Frame)
      requires Valid() && |f.current| == |f.voltage|
      modifies this`currentData, this`voltageData
      ensures Valid()
      ensures currentData == Retention.KeepLast(old(currentData) + f.current, MAX_DATA_SIZE)
      ensures voltageData == Retention.KeepLast(old(voltageData) + f.voltage, MAX_DATA_SIZE)
    {
      currentData := Retention.KeepLast(currentData + f.current, MAX_DATA_SIZE);
      voltageData := Retention.KeepLast(voltageData + f.voltage, MAX_DATA_SIZE);
    }

    /** `execute_stop_measuring`: unlike power_monitor.py the reply is checked, and on a plain
        mismatch the handler returns with measuring unchanged; an exception (a short reply included)
        is shown and measuring is still turned off. */
    method ExecuteStopMeasuring(e: Exchange) returns (written: seq<seq<byte>>, report: Report)
      modifies this`isMeasuring
      ensures !cmdPortOpen ==> written == [] && report == NotConnected
      ensures cmdPortOpen ==> written == [BareCommand(OP_STOP_MEASURING)] && report == ReportOf(OP_STOP_MEASURING, e)
      ensures isMeasuring == if cmdPortOpen && report != ResponseError then false else old(isMeasuring)
    {
      if !cmdPortOpen {
        return [], NotConnected;
      }
      var cmd := BareCommand(OP_STOP_MEASURING);
      written := [cmd];
      report := ReportOf(cmd[0], e);
      if report == ResponseError {
        return;
      }
      isMeasuring := false;
    }

    /** `execute_start_measuring`: measuring is on afterwards unless the port is closed or the reply
        is a plain mismatch; an exception (a short reply included) is shown and still turns it on. */
    method ExecuteStartMeasuring(e: Exchange) returns (written: seq<seq<byte>>, report: Report)
      modifies this`isMeasuring
      ensures !cmdPortOpen ==> written == [] && report == NotConnected
      ensures cmdPortOpen ==> written == [BareCommand(OP_START_MEASURING)] && report == ReportOf(OP_START_MEASURING, e)
      ensures isMeasuring == if cmdPortOpen && report != ResponseError then true else old(isMeasuring)
    {
      if !cmdPortOpen {
        return [], NotConnected;
      }
      var cmd := BareCommand(OP_START_MEASURING);
      written := [cmd];
      match e {
        case Raised =>
          report := ExceptionShown;
        case Replied(reply) =>
          match CheckReply(cmd[0], reply) {
            case Mismatch =>
              return written, ResponseError;
            case IndexError =>
              report := ExceptionShown;
            case Accepted =>
              report := Completed;
          }
      }
      isMeasuring := true;
    }

    /** `execute_adc_configuration`: the 8-byte configuration command, and the 0x04
        "configure INA229" command only once the first reply has been accepted. */
    method ExecuteAdcConfiguration(ct: string, avg: string, range: string, first: Exchange, second: Exchange)
      returns (written: seq<seq<byte>>, report: Report)
      requires ct in ConversionTimes && avg in AverageNum && range in AdcRange
      ensures !cmdPortOpen ==> written == [] && report == NotConnected
      ensures cmdPortOpen ==> 1 <= |written| <= 2 && written[0] == AdcConfigCommand(ct, avg, range)
      ensures cmdPortOpen ==> (|written| == 2 <==> ReportOf(OP_ADC_CONFIG, first) == Completed)
      ensures cmdPortOpen && |written| == 1 ==> report == ReportOf(OP_ADC_CONFIG, first)
      ensures |written| == 2 ==> written[1] == BareCommand(OP_CONFIGURE_INA229)
                                 && report == ReportOf(OP_CONFIGURE_INA229, second)
    {
      var cmd := AdcConfigCommand(ct, avg, range);
      if !cmdPortOpen {
        return [], NotConnected;
      }
      written := [cmd];
      report := ReportOf(cmd[0], first);
      if report != Completed {
        return;
      }
      var configure := BareCommand(OP_CONFIGURE_INA229);
      written := written + [configure];
      report := ReportOf(configure[0], second);
    }

    /** `on_press`: while not measuring, a click in the current plot may pick a marker to drag. */
    method OnPress(inAxes: bool, x: real)
      modifies this`dragging
      ensures dragging == if isMeasuring || !inAxes then old(dragging)
                          else Markers.PressTarget(x, marker1, marker2, old(dragging))
    {
      if isMeasuring || !inAxes {
        return;
      }
      dragging := Markers.PressTarget(x, marker1, marker2, dragging);
    }

    /** `on_release`: while not measuring, the drag ends. */
    method OnRelease()
      modifies this`dragging
      ensures dragging == if isMeasuring then old(dragging) else Markers.NoMarker
    {
      if !isMeasuring {
        dragging := Markers.NoMarker;
      }
    }

    /** `on_motion`: while not measuring, the dragged marker follows the mouse, clamped so that
        marker 1 stays in `[0, marker2]` and marker 2 in `[marker1, len(current_data)]`. */
    method OnMotion(inAxes: bool, x: real)
      requires Valid()
      modifies this`marker1, this`marker2
      ensures Valid()
      ensures isMeasuring || !inAxes || dragging == Markers.NoMarker ==> unchanged(this)
      ensures !isMeasuring && inAxes && dragging == Markers.Marker1 ==>
                marker1 == Markers.DragMarker1(x, marker2) && marker2 == old(marker2)
      ensures !isMeasuring && inAxes && dragging == Markers.Marker2 ==>
                marker2 == Markers.DragMarker2(x, |currentData|, marker1) && marker1 == old(marker1)
    {
      if isMeasuring || !inAxes {
        return;
      }
      match dragging {
        case Marker1 =>
          marker1 := Markers.DragMarker1(x, marker2);
        case Marker2 =>
          marker2 := Markers.DragMarker2(x, |currentData|, marker1);
        case NoMarker =>
      }
    }
  }
}
