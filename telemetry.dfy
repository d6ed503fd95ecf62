/** The telemetry frame the PC applications read from the data port:
    a u32 little-endian signature, a u32 little-endian package id, then
    `n` voltage samples and `n` current samples, each an i32 little-endian.
    `n` is 63 in power_monitor.py and the pyserial-asyncio apps, 256 in
    current_waveform.py. */
module Telemetry {
  import opened Bytes

  const SIGNATURE: int := 0x8765_4321

  /** `4 + 4 + 4 * n * 2`: the byte length of a frame with `n` samples per channel. */
  function FrameLength(n: nat): nat { 8 + 8 * n }

  datatype Frame = Frame(packageId: int, voltage: seq<int>, current: seq<int>)

  /** A frame that fits the wire format with `n` samples per channel. */
  predicate WellFormed(f: Frame, n: nat)
  {
    IsU32(f.packageId) && |f.voltage| == n && |f.current| == n && AllI32(f.voltage) && AllI32(f.current)
  }

  /** The signature test the receivers apply to the first four bytes. */
  predicate HasSignature(data: seq<byte>)
    requires |data| >= 4
  {
    U32Le(data[..4]) == SIGNATURE
  }

  /** Unpacks one frame of exactly `FrameLength(n)` bytes, or nothing when the
      signature does not match (the frame is then dropped whole). */
  function Decode(n: nat, data: seq<byte>): (r: Option<Frame>)
    requires |data| == FrameLength(n)
    ensures r.Some? <==> HasSignature(data)
    ensures r.Some? ==> WellFormed(r.value, n)
    ensures r.Some? ==> r.value.packageId == U32Le(data[4..8])
  {
    if !HasSignature(data) then None
    else
      var voltage := I32SeqLe(data[8 .. 8 + 4 * n]);
      var current := I32SeqLe(data[8 + 4 * n ..]);
      SamplesAt(n, data);
      Some(Frame(U32Le(data[4..8]), voltage, current))
  }

  /** In an accepted frame, sample `k` of each channel is the little-endian i32 at its offset:
      voltages from byte 8, currents from byte `8 + 4 * n`. */
  lemma DecodeSamples(n: nat, data: seq<byte>)
    requires |data| == FrameLength(n) && Decode(n, data).Some?
    ensures var f := Decode(n, data).value;
            forall k :: 0 <= k < n ==>
              f.voltage[k] == I32Le(data[8 + 4 * k .. 12 + 4 * k]) &&
              f.current[k] == I32Le(data[8 + 4 * n + 4 * k .. 12 + 4 * n + 4 * k])
  {
    SamplesAt(n, data);
  }

  /** The `n` i32 samples starting at `lo`: sample `k` is the i32 at `lo + 4 * k`. */
  lemma ChannelAt(data: seq<byte>, lo: nat, n: nat)
    requires lo + 4 * n <= |data|
    ensures var xs := I32SeqLe(data[lo .. lo + 4 * n]);
            && |xs| == n && AllI32(xs)
            && forall k :: 0 <= k < n ==> xs[k] == I32Le(data[lo + 4 * k .. lo + 4 * k + 4])
  {
    var xs := I32SeqLe(data[lo .. lo + 4 * n]);
    EncodeOfI32SeqLe(data[lo .. lo + 4 * n]);
    forall k | 0 <= k < n
      ensures xs[k] == I32Le(data[lo + 4 * k .. lo + 4 * k + 4])
    {
      I32SeqLeAt(data[lo .. lo + 4 * n], k);
      SliceOfSlice(data, lo, lo + 4 * n, 4 * k, 4 * k + 4);
    }
  }

  /** Sample `k` of each channel is the i32 at its offset in the frame. */
  lemma SamplesAt(n: nat, data: seq<byte>)
    requires |data| == FrameLength(n)
    ensures var voltage := I32SeqLe(data[8 .. 8 + 4 * n]);
            var current := I32SeqLe(data[8 + 4 * n ..]);
            && |voltage| == n && |current| == n && AllI32(voltage) && AllI32(current)
            && forall k :: 0 <= k < n ==>
                 voltage[k] == I32Le(data[8 + 4 * k .. 12 + 4 * k]) &&
                 current[k] == I32Le(data[8 + 4 * n + 4 * k .. 12 + 4 * n + 4 * k])
  {
    ChannelAt(data, 8, n);
    ChannelAt(data, 8 + 4 * n, n);
    assert data[8 + 4 * n ..] == data[8 + 4 * n .. 8 + 4 * n + 4 * n];
  }

  lemma Quarters<T>(s: seq<T>, i: nat, j: nat, k: nat)
    requires i <= j <= k <= |s|
    ensures s == s[..i] + s[i..j] + s[j..k] + s[k..]
  {
    assert s[..j] == s[..i] + s[i..j];
    assert s[..k] == s[..j] + s[j..k];
    assert s == s[..k] + s[k..];
  }

  lemma SliceOfSlice<T>(s: seq<T>, a: nat, b: nat, c: nat, d: nat)
    requires a <= b <= |s| && c <= d <= b - a
    ensures s[a..b][c..d] == s[a + c .. a + d]
  {
    var l, r := s[a..b][c..d], s[a + c .. a + d];
    assert |l| == |r|;
    forall i | 0 <= i < |l| ensures l[i] == r[i] {
      assert l[i] == s[a..b][c + i] == s[a + c + i];
    }
  }

  /** The bytes the firmware would have to send for frame `f`. */
  function Encode(f: Frame, n: nat): (data: seq<byte>)
    requires WellFormed(f, n)
    ensures |data| == FrameLength(n)
  {
    EncodeU32Le(SIGNATURE) + EncodeU32Le(f.packageId) + EncodeI32Seq(f.voltage) + EncodeI32Seq(f.current)
  }

  /** Decoding inverts encoding: a well-formed frame survives the wire unchanged. */
  lemma DecodeOfEncode(f: Frame, n: nat)
    requires WellFormed(f, n)
    ensures Decode(n, Encode(f, n)) == Some(f)
  {
    var data := Encode(f, n);
    assert data[..4] == EncodeU32Le(SIGNATURE);
    assert data[4..8] == EncodeU32Le(f.packageId);
    assert data[8 .. 8 + 4 * n] == EncodeI32Seq(f.voltage);
    assert data[8 + 4 * n ..] == EncodeI32Seq(f.current);
    U32LeOfEncode(SIGNATURE);
    U32LeOfEncode(f.packageId);
    I32SeqLeOfEncode(f.voltage);
    I32SeqLeOfEncode(f.current);
  }

  /** Encoding inverts decoding: an accepted frame's bytes are exactly the encoding of what was decoded,
      so no two different byte strings decode to the same frame. */
  lemma EncodeOfDecode(n: nat, data: seq<byte>)
    requires |data| == FrameLength(n)
    requires Decode(n, data).Some?
    ensures Encode(Decode(n, data).value, n) == data
  {
    var f := Decode(n, data).value;
    var sig, id, vs, cs := data[..4], data[4..8], data[8 .. 8 + 4 * n], data[8 + 4 * n ..];
    EncodeOfU32Le(sig);
    EncodeOfU32Le(id);
    EncodeOfI32SeqLe(vs);
    EncodeOfI32SeqLe(cs);
    assert f.packageId == U32Le(id) && f.voltage == I32SeqLe(vs) && f.current == I32SeqLe(cs);
    assert Encode(f, n) == sig + id + vs + cs;
    Quarters(data, 4, 8, 8 + 4 * n);
  }

  /** Frames with the wrong signature are dropped; accepted frames carry exactly `n` samples per channel. */
  lemma DecodeRejectsBadSignature(n: nat, data: seq<byte>)
    requires |data| == FrameLength(n)
    requires U32Le(data[..4]) != SIGNATURE
    ensures Decode(n, data) == None
  {
  }

  /** The voltage batches of some frames, in order. */
  function Voltages(fs: seq<Frame>): seq<seq<int>>
  {
    seq(|fs|, i requires 0 <= i < |fs| => fs[i].voltage)
  }

  /** The current batches of some frames, in order. */
  function Currents(fs: seq<Frame>): seq<seq<int>>
  {
    seq(|fs|, i requires 0 <= i < |fs| => fs[i].current)
  }

  /** Appending one frame appends its batch to each projection. */
  lemma FramesSnoc(fs: seq<Frame>, f: Frame)
    ensures Currents(fs + [f]) == Currents(fs) + [f.current]
    ensures Voltages(fs + [f]) == Voltages(fs) + [f.voltage]
    ensures Currents(fs + [f])[..|fs|] == Currents(fs)
    ensures Voltages(fs + [f])[..|fs|] == Voltages(fs)
  {
  }

  /** A queue of batches behind `q` grows by the new frame's batch. */
  lemma QueuesSnoc(vq: seq<seq<int>>, cq: seq<seq<int>>, fs: seq<Frame>, f: Frame)
    ensures vq + Voltages(fs + [f]) == vq + Voltages(fs) + [f.voltage]
    ensures cq + Currents(fs + [f]) == cq + Currents(fs) + [f.current]
  {
    FramesSnoc(fs, f);
  }
}
