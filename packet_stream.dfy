/** The packet reassembly of `on_data` in adc_streaming.py and serial_receive_gui_update.py:
    the serial reader thread hands over chunks of any size, the chunks are appended to a byte
    buffer, and 512-byte packets are cut from its front for as long as there are enough bytes. */
module PacketStream {
  import opened Bytes

  /** The packet size: `8 + 8 * 63` bytes, one telemetry frame of 63 samples per channel. */
  const PACKET_SIZE: nat := 512

  /** The packets cut from the front of `s`, in order. */
  function Packets(s: seq<byte>): (ps: seq<seq<byte>>)
    ensures forall i :: 0 <= i < |ps| ==> |ps[i]| == PACKET_SIZE
    ensures |ps| == |s| / PACKET_SIZE
    decreases |s|
  {
    if |s| < PACKET_SIZE then [] else [s[..PACKET_SIZE]] + Packets(s[PACKET_SIZE..])
  }

  /** What stays buffered once no whole packet is left. */
  function Remainder(s: seq<byte>): (r: seq<byte>)
    ensures |r| < PACKET_SIZE && |r| == |s| % PACKET_SIZE
    decreases |s|
  {
    if |s| < PACKET_SIZE then s else Remainder(s[PACKET_SIZE..])
  }

  /** A buffer holding a whole packet gives up its first 512 bytes as the next packet. */
  lemma Cut(s: seq<byte>)
    requires |s| >= PACKET_SIZE
    ensures Packets(s) == [s[..PACKET_SIZE]] + Packets(s[PACKET_SIZE..])
    ensures Remainder(s) == Remainder(s[PACKET_SIZE..])
  {
  }

  /** A buffer short of a packet is all remainder. */
  lemma Short(s: seq<byte>)
    requires |s| < PACKET_SIZE
    ensures Packets(s) == [] && Remainder(s) == s
  {
  }

  /** Nothing is lost or duplicated: the packets, back to back, then the remainder, are the input. */
  lemma {:induction false} PacketsCover(s: seq<byte>)
    ensures Flatten(Packets(s)) + Remainder(s) == s
    decreases |s|
  {
    if |s| >= PACKET_SIZE {
      var p, t := s[..PACKET_SIZE], s[PACKET_SIZE..];
      PacketsCover(t);
      FlattenCons(p, Packets(t));
      assert Packets(s) == [p] + Packets(t);
      assert Remainder(s) == Remainder(t);
      assert Flatten(Packets(s)) + Remainder(s) == p + (Flatten(Packets(t)) + Remainder(t));
      assert s == p + t;
    } else {
      assert Flatten([]) == [];
    }
  }

  /** Packet `i` is bytes `512 i` up to `512 (i + 1)` of the input. */
  lemma {:induction false} PacketAt(s: seq<byte>, i: nat)
    requires i < |s| / PACKET_SIZE
    ensures Packets(s)[i] == s[PACKET_SIZE * i .. PACKET_SIZE * (i + 1)]
    decreases i
  {
    if i > 0 {
      var t := s[PACKET_SIZE..];
      PacketAt(t, i - 1);
      assert t[PACKET_SIZE * (i - 1) .. PACKET_SIZE * i] == s[PACKET_SIZE * i .. PACKET_SIZE * (i + 1)];
    }
  }

  /** Cutting a stream in two: the packets of the whole are those of the first part, then those of
      what the first part left over followed by the second part. */
  lemma {:induction false} PacketsSplit(a: seq<byte>, b: seq<byte>)
    ensures Packets(a + b) == Packets(a) + Packets(Remainder(a) + b)
    ensures Remainder(a + b) == Remainder(Remainder(a) + b)
    decreases |a|
  {
    if |a| >= PACKET_SIZE {
      var p, t := a[..PACKET_SIZE], a[PACKET_SIZE..];
      PacketsSplit(t, b);
      assert (a + b)[..PACKET_SIZE] == p;
      assert (a + b)[PACKET_SIZE..] == t + b;
      Cut(a);
      Cut(a + b);
      RegroupPackets([p], Packets(t), Packets(Remainder(t) + b));
    } else {
      Short(a);
      assert [] + Packets(a + b) == Packets(a + b);
    }
  }

  lemma RegroupPackets(a: seq<seq<byte>>, b: seq<seq<byte>>, c: seq<seq<byte>>)
    ensures a + (b + c) == (a + b) + c
  {
  }

  /** The buffer and the packets after handing over `chunks` one at a time, starting from `buffer`. */
  function FeedAll(buffer: seq<byte>, chunks: seq<seq<byte>>): (seq<seq<byte>>, seq<byte>)
    decreases |chunks|
  {
    if chunks == [] then ([], buffer)
    else
      var (ps, rest) := FeedAll(buffer, chunks[..|chunks| - 1]);
      var last := rest + chunks[|chunks| - 1];
      (ps + Packets(last), Remainder(last))
  }

  /** However the stream is chunked, the same packets come out, in the same order, and the same
      bytes stay buffered. */
  lemma {:induction false} ChunkingDoesNotMatter(buffer: seq<byte>, chunks: seq<seq<byte>>)
    requires |buffer| < PACKET_SIZE
    ensures FeedAll(buffer, chunks) == (Packets(buffer + Flatten(chunks)), Remainder(buffer + Flatten(chunks)))
    decreases |chunks|
  {
    if chunks == [] {
      assert buffer + [] == buffer;
    } else {
      var init, last := chunks[..|chunks| - 1], chunks[|chunks| - 1];
      var before := buffer + Flatten(init);
      ChunkingDoesNotMatter(buffer, init);
      PacketsSplit(before, last);
      assert buffer + Flatten(chunks) == before + last;
      assert FeedAll(buffer, chunks) == (Packets(before) + Packets(Remainder(before) + last), Remainder(Remainder(before) + last));
    }
  }
}
