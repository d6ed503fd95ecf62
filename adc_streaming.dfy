/** The `App` of pc_apps/pyserial-asyncio/adc_streaming.py: chunks from the serial reader are
    reassembled into 512-byte packets, and each packet with the right signature replaces the
    two plotted lines with its 63 voltage and 63 current samples. */
module AdcStreaming {
  import opened Bytes
  import Telemetry
  import PacketStream

  /** `DATA_RPT_SAMPLE_SIZE`. */
  const SAMPLES: nat := 63

  /** The data of the two plotted lines. */
  datatype Plot = Plot(voltage: seq<int>, current: seq<int>)

  /** `process_packet`: a packet with the right signature is plotted, any other leaves the plot. */
  function ShowPacket(shown: Plot, packet: seq<byte>): Plot
    requires |packet| == PacketStream.PACKET_SIZE
  {
    match Telemetry.Decode(SAMPLES, packet)
    case Some(f) => Plot(f.voltage, f.current)
    case None => shown
  }

  /** The plot after processing `packets` in order. */
  function Shown(shown: Plot, packets: seq<seq<byte>>): Plot
    requires forall i :: 0 <= i < |packets| ==> |packets[i]| == PacketStream.PACKET_SIZE
    decreases |packets|
  {
    if packets == [] then shown else Shown(ShowPacket(shown, packets[0]), packets[1..])
  }

  /** Processing one more packet: a packet with a wrong signature changes nothing, a packet with
      the right one is what is shown afterwards, whatever came before. */
  lemma {:induction false} ShownSnoc(shown: Plot, packets: seq<seq<byte>>, packet: seq<byte>)
    requires forall i :: 0 <= i < |packets| ==> |packets[i]| == PacketStream.PACKET_SIZE
    requires |packet| == PacketStream.PACKET_SIZE
    ensures var after := Shown(shown, packets + [packet]);
            && (!Telemetry.HasSignature(packet) ==> after == Shown(shown, packets))
            && (Telemetry.HasSignature(packet) ==>
                  var f := Telemetry.Decode(SAMPLES, packet).value;
                  after == Plot(f.voltage, f.current) && |after.voltage| == SAMPLES && |after.current| == SAMPLES)
    decreases |packets|
  {
    if packets == [] {
      assert [] + [packet] == [packet];
      assert [packet][1..] == [];
    } else {
      ShownSnoc(ShowPacket(shown, packets[0]), packets[1..], packet);
      assert (packets + [packet])[0] == packets[0];
      assert (packets + [packet])[1..] == packets[1..] + [packet];
    }
  }

  /** The plot after the packets cut from the front of the byte stream `s`, one at a time. */
  function ShownStream(shown: Plot, s: seq<byte>): Plot
    decreases |s|
  {
    if |s| < PacketStream.PACKET_SIZE then shown
    else ShownStream(ShowPacket(shown, s[..PacketStream.PACKET_SIZE]), s[PacketStream.PACKET_SIZE..])
  }

  /** Cutting packets from the stream as they come shows the stream's packets in order. */
  lemma {:induction false} ShownStreamIsShown(shown: Plot, s: seq<byte>)
    ensures ShownStream(shown, s) == Shown(shown, PacketStream.Packets(s))
    decreases |s|
  {
    if |s| >= PacketStream.PACKET_SIZE {
      var p, t := s[..PacketStream.PACKET_SIZE], s[PacketStream.PACKET_SIZE..];
      ShownStreamIsShown(ShowPacket(shown, p), t);
      PacketStream.Cut(s);
      assert ([p] + PacketStream.Packets(t))[1..] == PacketStream.Packets(t);
    }
  }

  class App {
    /** `self.data_buffer`. */
    var dataBuffer: seq<byte>
    var plot: Plot
    /** Every packet handed to `process_packet` so far, in order. */
    ghost var processed: seq<seq<byte>>

    /** Between callbacks the buffer never holds a whole packet. */
    predicate Valid()
      reads this
    {
      |dataBuffer| < PacketStream.PACKET_SIZE
    }

    constructor ()
      ensures Valid() && dataBuffer == [] && plot == Plot([], []) && processed == []
    {
      dataBuffer := [];
      plot := Plot([], []);
      processed := [];
    }

    /** `process_packet`. */
    method ProcessPacket(packet: seq<byte>)
      requires |packet| == PacketStream.PACKET_SIZE
      modifies this`plot, this`processed
      ensures plot == ShowPacket(old(plot), packet)
      ensures processed == old(processed) + [packet]
    {
      match Telemetry.Decode(SAMPLES, packet) {
        case Some(f) =>
          plot := Plot(f.voltage, f.current);
        case None =>
      }
      processed := processed + [packet];
    }

    /** `on_data`: appends the chunk, then processes the first 512 bytes and drops them, calling
        itself again while 512 bytes or more remain. */
    method OnData(data: seq<byte>)
      modifies this`dataBuffer, this`plot, this`processed
      ensures var all := old(dataBuffer) + data;
              && dataBuffer == PacketStream.Remainder(all)
              && processed == old(processed) + PacketStream.Packets(all)
              && plot == ShownStream(old(plot), all)
      ensures Valid()
      decreases |dataBuffer| + |data|
    {
      ghost var all := dataBuffer + data;
      ghost var plot0, processed0 := plot, processed;
      dataBuffer := dataBuffer + data;
      if |dataBuffer| < PacketStream.PACKET_SIZE {
        PacketStream.Short(all);
        assert processed == processed0 + [];
        return;
      }
      var packet := dataBuffer[..PacketStream.PACKET_SIZE];
      ghost var rest := dataBuffer[PacketStream.PACKET_SIZE..];
      PacketStream.Cut(all);
      ProcessPacket(packet);
      dataBuffer := dataBuffer[PacketStream.PACKET_SIZE..];
      if |dataBuffer| >= PacketStream.PACKET_SIZE {
        OnData([]);
        assert rest + [] == rest;
        assert processed == processed0 + ([packet] + PacketStream.Packets(rest));
      } else {
        PacketStream.Short(rest);
      }
    }
  }
}
