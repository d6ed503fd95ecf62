/** The `Power_Monitor` application of pc_apps/pygubu/power_monitor.py: a command port for
    requests and replies, a data port streaming 512-byte frames of 63 samples per channel,
    queues between the receiving thread and the plot, and two draggable markers on the
    current plot. Widgets, plotting and message boxes are not modelled; what the user is
    told is returned as a `Report`. */
module PowerMonitor {
  import opened Bytes
  import Telemetry
  import Retention
  import ReceiveLoop
  import opened PcCommands
  import Markers

  /** `DATA_RPT_SAMPLE_SIZE`. */
  const SAMPLES: nat := 63
  /** `MAX_DATA_SIZE`. */
  const MAX_DATA_SIZE: nat := 20000

  class PowerMonitorApp {
    /** Whether `serial_port_cmd` is an open port. */
    var cmdPortOpen: bool
    var isReceiving: bool
    var isMeasuring: bool
    /** The bytes waiting in `serial_port_data`. */
    var dataPort: seq<byte>
    /** `data_queue_voltage` and `data_queue_current`: batches not yet plotted, oldest first. */
    var voltageQueue: seq<seq<int>>
    var currentQueue: seq<seq<int>>
    var voltageData: seq<int>
    var currentData: seq<int>
    var marker1: real
    var marker2: real
    var dragging: Markers.Drag

    /** The markers stay ordered and non-negative, and each plotted series holds at most
        `MAX_DATA_SIZE` samples. */
    predicate Valid()
      reads this
    {
      0.0 <= marker1 <= marker2 && |voltageData| <= MAX_DATA_SIZE && |currentData| <= MAX_DATA_SIZE
    }

    constructor ()
      ensures Valid()
      ensures !cmdPortOpen && !isReceiving && !isMeasuring && dataPort == []
      ensures voltageQueue == [] && currentQueue == [] && voltageData == [] && currentData == []
      ensures marker1 == 200.0 && marker2 == 400.0 && dragging == Markers.NoMarker
    {
      cmdPortOpen, isReceiving, isMeasuring, dataPort := false, false, false, [];
      voltageQueue, currentQueue, voltageData, currentData := [], [], [], [];
      marker1, marker2, dragging := 200.0, 400.0, Markers.NoMarker;
    }

    /** `connect`: the command port is opened first; receiving starts only once the data port
        has opened too. */
    method Connect(cmdOpens: bool, dataOpens: bool)
      modifies this`cmdPortOpen, this`isReceiving, this`dataPort
      ensures cmdPortOpen == (old(cmdPortOpen) || cmdOpens)
      ensures cmdOpens && dataOpens ==> isReceiving && dataPort == []
      ensures !(cmdOpens && dataOpens) ==> isReceiving == old(isReceiving) && dataPort == old(dataPort)
    {
      if cmdOpens {
        cmdPortOpen := true;
        if dataOpens {
          dataPort := [];
          isReceiving := true;
        }
      }
    }

    /** `disconnect`: stops the receiving loop and closes both ports. */
    method Disconnect()
      modifies this`cmdPortOpen, this`isReceiving
      ensures !cmdPortOpen && !isReceiving
    {
      isReceiving := false;
      cmdPortOpen := false;
    }

    /** `receive_data`, over the passes `polls` of its loop: it is the receive loop with 63 samples
        per channel, each accepted frame's two batches going to the two queues. */
    method ReceiveData(polls: seq<ReceiveLoop.PortPoll>)
      modifies this`isReceiving, this`dataPort, this`voltageQueue, this`currentQueue
      ensures !old(isReceiving) ==>
                !isReceiving && dataPort == old(dataPort) && voltageQueue == old(voltageQueue) && currentQueue == old(currentQueue)
      ensures old(isReceiving) ==>
                var r := ReceiveLoop.Run(SAMPLES, ReceiveLoop.Start(old(dataPort)), polls);
                && isReceiving == !r.stopped
                && dataPort == r.pending
                && voltageQueue == old(voltageQueue) + Telemetry.Voltages(r.frames)
                && currentQueue == old(currentQueue) + Telemetry.Currents(r.frames)
    {
      if !isReceiving {
        return;
      }
      ghost var start := ReceiveLoop.Start(dataPort);
      ghost var vq, cq := voltageQueue, currentQueue;
      ghost var st := start;
      var i := 0;
      while i < |polls| && isReceiving
        invariant 0 <= i <= |polls|
        invariant st == ReceiveLoop.Run(SAMPLES, start, polls[..i])
        invariant isReceiving == !st.stopped && dataPort == st.pending
        invariant voltageQueue == vq + Telemetry.Voltages(st.frames)
        invariant currentQueue == cq + Telemetry.Currents(st.frames)
        decreases |polls| - i
      {
        ReceiveLoop.RunSnoc(SAMPLES, start, polls, i);
        var stop, rest, added := ReceiveLoop.Pass(SAMPLES, dataPort, polls[i], st);
        isReceiving, dataPort := !stop, rest;
        if added != [] {
          var f := added[0];
          assert added == [f];
          EnqueueFrame(f);
          Telemetry.QueuesSnoc(vq, cq, st.frames, f);
        } else {
          assert st.frames + added == st.frames;
        }
        st := ReceiveLoop.Step(SAMPLES, st, polls[i]);
        i := i + 1;
      }
      ReceiveLoop.RunPrefix(SAMPLES, start, polls, i);
    }

    /** `data_queue_voltage.put` and `data_queue_current.put` for an accepted frame. */
    method EnqueueFrame(f: Telemetry.Frame)
      modifies this`voltageQueue, this`currentQueue
      ensures voltageQueue == old(voltageQueue) + [f.voltage]
      ensures currentQueue == old(currentQueue) + [f.current]
    {
      voltageQueue := voltageQueue + [f.voltage];
      currentQueue := currentQueue + [f.current];
    }

    /** `update_waveform`: drains the voltage queue into the voltage series, then the current queue
        into the current series, each keeping only its last `MAX_DATA_SIZE` samples. */
    method UpdateWaveform()
      requires Valid()
      modifies this`voltageQueue, this`currentQueue, this`voltageData, this`currentData
      ensures Valid()
      ensures voltageQueue == [] && currentQueue == []
      ensures voltageData == Retention.KeepLast(old(voltageData) + Retention.Concat(old(voltageQueue)), MAX_DATA_SIZE)
      ensures currentData == Retention.KeepLast(old(currentData) + Retention.Concat(old(currentQueue)), MAX_DATA_SIZE)
    {
      var voltage := Retention.DrainQueue(voltageData, voltageQueue, MAX_DATA_SIZE);
      var current := Retention.DrainQueue(currentData, currentQueue, MAX_DATA_SIZE);
      voltageData, voltageQueue, currentData, currentQueue := voltage, [], current, [];
    }

    /** `execute_start_measuring`: measuring is on afterwards unless the port is closed or the reply
        is a plain mismatch; an exception (a short reply included) is shown and still turns it on. */
    method ExecuteStartMeasuring(e: Exchange) returns (written: seq<seq<byte>>, report: Report)
      modifies this`isMeasuring
      ensures !cmdPortOpen ==> written == [] && report == NotConnected
      ensures cmdPortOpen ==> written == [BareCommand(OP_START_MEASURING)] && report == ReportOf(OP_START_MEASURING, e)
      ensures isMeasuring == if cmdPortOpen && report != ResponseError then true else old(isMeasuring)
    {
      if !cmdPortOpen {
        return [], NotConnected;
      }
      var cmd := BareCommand(OP_START_MEASURING);
      written := [cmd];
      match e {
        case Raised =>
          report := ExceptionShown;
        case Replied(reply) =>
          match CheckReply(cmd[0], reply) {
            case Mismatch =>
              return written, ResponseError;
            case IndexError =>
              report := ExceptionShown;
            case Accepted =>
              report := Completed;
          }
      }
      isMeasuring := true;
    }

    /** `execute_stop_measuring`: the reply is read but not checked, so with the port open measuring
        is always off afterwards. */
    method ExecuteStopMeasuring(e: Exchange) returns (written: seq<seq<byte>>, report: Report)
      modifies this`isMeasuring
      ensures !cmdPortOpen ==> written == [] && report == NotConnected && isMeasuring == old(isMeasuring)
      ensures cmdPortOpen ==> written == [BareCommand(OP_STOP_MEASURING)] && !isMeasuring
      ensures cmdPortOpen ==> (report == ExceptionShown <==> e.Raised?) && (report == Completed <==> e.Replied?)
    {
      if !cmdPortOpen {
        return [], NotConnected;
      }
      written := [BareCommand(OP_STOP_MEASURING)];
      report := if e.Raised? then ExceptionShown else Completed;
      isMeasuring := false;
    }

    /** `execute_adc_configuration`: the 8-byte configuration command, and the 0x04
        "configure INA229" command only once the first reply has been accepted. */
    method ExecuteAdcConfiguration(ct: string, avg: string, range: string, first: Exchange, second: Exchange)
      returns (written: seq<seq<byte>>, report: Report)
      requires ct in ConversionTimes && avg in AverageNum && range in AdcRange
      ensures !cmdPortOpen ==> written == [] && report == NotConnected
      ensures cmdPortOpen ==> 1 <= |written| <= 2 && written[0] == AdcConfigCommand(ct, avg, range)
      ensures cmdPortOpen ==> (|written| == 2 <==> ReportOf(OP_ADC_CONFIG, first) == Completed)
      ensures cmdPortOpen && |written| == 1 ==> report == ReportOf(OP_ADC_CONFIG, first)
      ensures |written| == 2 ==> written[1] == BareCommand(OP_CONFIGURE_INA229)
                                 && report == ReportOf(OP_CONFIGURE_INA229, second)
    {
      var cmd := AdcConfigCommand(ct, avg, range);
      if !cmdPortOpen {
        return [], NotConnected;
      }
      written := [cmd];
      report := ReportOf(cmd[0], first);
      if report != Completed {
        return;
      }
      var configure := BareCommand(OP_CONFIGURE_INA229);
      written := written + [configure];
      report := ReportOf(configure[0], second);
    }

    /** `on_set_vbat_value`: the slider value, truncated to an integer, split into two bytes. */
    method OnSetVbatValue(scale: real, e: Exchange) returns (written: seq<seq<byte>>, report: Report)
      ensures !cmdPortOpen ==> written == [] && report == NotConnected
      ensures cmdPortOpen ==> written == [SetVbatCommand(Markers.TruncToInt(scale))] && report == ReportOf(OP_SET_VBAT, e)
    {
      var v := Markers.TruncToInt(scale);
      var cmd := SetVbatCommand(v);
      if !cmdPortOpen {
        return [], NotConnected;
      }
      return [cmd], ReportOf(cmd[0], e);
    }

    /** `on_change_vbat_enable`: the check button's state as byte 1. */
    method OnChangeVbatEnable(on: bool, e: Exchange) returns (written: seq<seq<byte>>, report: Report)
      ensures !cmdPortOpen ==> written == [] && report == NotConnected
      ensures cmdPortOpen ==> written == [VbatEnableCommand(on)] && report == ReportOf(OP_VBAT_ENABLE, e)
    {
      var cmd := VbatEnableCommand(on);
      if !cmdPortOpen {
        return [], NotConnected;
      }
      return [cmd], ReportOf(cmd[0], e);
    }

    /** `on_press`: while not measuring, a click in the current plot may pick a marker to drag. */
    method OnPress(inAxes: bool, x: real)
      modifies this`dragging
      ensures dragging == if isMeasuring || !inAxes then old(dragging)
                          else Markers.PressTarget(x, marker1, marker2, old(dragging))
    {
      if isMeasuring || !inAxes {
        return;
      }
      dragging := Markers.PressTarget(x, marker1, marker2, dragging);
    }

    /** `on_release`: while not measuring, the drag ends. */
    method OnRelease()
      modifies this`dragging
      ensures dragging == if isMeasuring then old(dragging) else Markers.NoMarker
    {
      if !isMeasuring {
        dragging := Markers.NoMarker;
      }
    }

    /** `on_motion`: while not measuring, the dragged marker follows the mouse, clamped so that
        marker 1 stays in `[0, marker2]` and marker 2 in `[marker1, len(current_data)]`. */
    method OnMotion(inAxes: bool, x: real)
      requires Valid()
      modifies this`marker1, this`marker2
      ensures Valid()
      ensures isMeasuring || !inAxes || dragging == Markers.NoMarker ==> unchanged(this)
      ensures !isMeasuring && inAxes && dragging == Markers.Marker1 ==>
                marker1 == Markers.DragMarker1(x, marker2) && marker2 == old(marker2)
      ensures !isMeasuring && inAxes && dragging == Markers.Marker2 ==>
                marker2 == Markers.DragMarker2(x, |currentData|, marker1) && marker1 == old(marker1)
    {
      if isMeasuring || !inAxes {
        return;
      }
      match dragging {
        case Marker1 =>
          marker1 := Markers.DragMarker1(x, marker2);
        case Marker2 =>
          marker2 := Markers.DragMarker2(x, |currentData|, marker1);
        case NoMarker =>
      }
    }
  }
}
