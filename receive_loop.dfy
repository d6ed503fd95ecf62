/** The `receive_data` loop of power_monitor.py and current_waveform.py as a function of what the
    data port delivers: each pass reads one whole frame when at least a frame's worth of bytes is
    waiting, drops it when its signature is wrong, and stops for good on the first exception. */
module ReceiveLoop {
  import opened Bytes
  import Telemetry

  /** What one pass of the loop observes on the data port: the bytes that arrived since the
      previous pass (possibly none), or an exception from the port. */
  datatype PortPoll = Arrived(bytes: seq<byte>) | PortFailure

  /** The loop's state: bytes waiting in the port, the frame-sized reads made so far, the frames
      accepted so far, and whether the loop has left on an exception. */
  datatype RxState = RxState(pending: seq<byte>, taken: seq<seq<byte>>, frames: seq<Telemetry.Frame>, stopped: bool)

  /** One pass of `while self.is_receiving:`. */
  function Step(n: nat, st: RxState, p: PortPoll): RxState
  {
    if st.stopped then st
    else match p
      case PortFailure => st.(stopped := true)
      case Arrived(b) =>
        var waiting := st.pending + b;
        var len := Telemetry.FrameLength(n);
        if |waiting| >= len then
          var data := waiting[..len];
          RxState(waiting[len..], st.taken + [data], st.frames + Admit(n, data), false)
        else st.(pending := waiting)
  }

  /** The frame a read contributes: its decoding, or nothing when the signature is wrong. */
  function Admit(n: nat, data: seq<byte>): seq<Telemetry.Frame>
    requires |data| == Telemetry.FrameLength(n)
  {
    match Telemetry.Decode(n, data)
    case Some(f) => [f]
    case None => []
  }

  /** The state after the passes `polls`, in order. */
  function Run(n: nat, st: RxState, polls: seq<PortPoll>): RxState
    decreases |polls|
  {
    if polls == [] then st else Step(n, Run(n, st, polls[..|polls| - 1]), polls[|polls| - 1])
  }

  /** The state the loop starts from on connect. */
  function Start(pending: seq<byte>): RxState { RxState(pending, [], [], false) }

  /** The bytes the port delivered before the loop's first exception. */
  function Delivered(polls: seq<PortPoll>): seq<byte>
    decreases |polls|
  {
    if polls == [] then []
    else
      var init, last := polls[..|polls| - 1], polls[|polls| - 1];
      if PortFailure in init || last.PortFailure? then Delivered(init) else Delivered(init) + last.bytes
  }

  /** The body of `while self.is_receiving:` on the bytes `pending` waiting in the port: read one
      frame when a whole one is waiting and decode it when its signature matches, or stop on an
      exception. It is exactly one `Step` of the loop's state. */
  method Pass(n: nat, pending: seq<byte>, p: PortPoll, ghost st: RxState)
    returns (stop: bool, rest: seq<byte>, accepted: seq<Telemetry.Frame>)
    requires !st.stopped && st.pending == pending
    ensures var r := Step(n, st, p);
            && stop == r.stopped && rest == r.pending && r.frames == st.frames + accepted
    ensures |accepted| <= 1 && (|accepted| == 1 ==> Telemetry.WellFormed(accepted[0], n))
  {
    match p {
      case PortFailure =>
        return true, pending, [];
      case Arrived(bytes) =>
        rest := pending + bytes;
        stop, accepted := false, [];
        var len := Telemetry.FrameLength(n);
        if |rest| >= len {
          var data := rest[..len];
          rest := rest[len..];
          match Telemetry.Decode(n, data) {
            case Some(f) =>
              accepted := [f];
            case None =>
          }
        }
    }
  }

  /** One more pass of the loop. */
  lemma RunSnoc(n: nat, st: RxState, polls: seq<PortPoll>, i: nat)
    requires i < |polls|
    ensures Run(n, st, polls[..i + 1]) == Step(n, Run(n, st, polls[..i]), polls[i])
  {
    assert polls[..i + 1][..i] == polls[..i];
  }

  /** A loop that has run out of passes, or has stopped, is in its final state. */
  lemma RunPrefix(n: nat, st: RxState, polls: seq<PortPoll>, i: nat)
    requires i <= |polls|
    requires i == |polls| || Run(n, st, polls[..i]).stopped
    ensures Run(n, st, polls) == Run(n, st, polls[..i])
  {
    if i < |polls| {
      RunAfterStop(n, st, polls[..i], polls[i..]);
      assert polls[..i] + polls[i..] == polls;
    } else {
      assert polls[..i] == polls;
    }
  }

  /** The frames accepted among some frame-sized reads: those with the right signature, decoded. */
  function Accepted(n: nat, taken: seq<seq<byte>>): seq<Telemetry.Frame>
    requires forall i :: 0 <= i < |taken| ==> |taken[i]| == Telemetry.FrameLength(n)
    decreases |taken|
  {
    if taken == [] then []
    else
      var init, last := taken[..|taken| - 1], taken[|taken| - 1];
      Accepted(n, init) + Admit(n, last)
  }

  /** The loop leaves exactly when the port has raised. */
  lemma {:induction false} RunStopsOnFailure(n: nat, pending: seq<byte>, polls: seq<PortPoll>)
    ensures Run(n, Start(pending), polls).stopped <==> PortFailure in polls
    decreases |polls|
  {
    if polls != [] {
      var init := polls[..|polls| - 1];
      RunStopsOnFailure(n, pending, init);
      assert polls == init + [polls[|polls| - 1]];
    }
  }

  /** Nothing the port delivers after the exception is read. */
  lemma {:induction false} RunAfterStop(n: nat, st: RxState, polls: seq<PortPoll>, more: seq<PortPoll>)
    requires Run(n, st, polls).stopped
    ensures Run(n, st, polls + more) == Run(n, st, polls)
    decreases |more|
  {
    if more != [] {
      var init := more[..|more| - 1];
      RunAfterStop(n, st, polls, init);
      assert (polls + more)[..|polls + more| - 1] == polls + init;
      assert Run(n, st, polls + more) == Step(n, Run(n, st, polls + init), more[|more| - 1]);
    } else {
      assert polls + more == polls;
    }
  }

  /** Every read is exactly one frame, there is at most one read per pass, and the accepted frames are
      exactly the reads whose signature matches, decoded in the order they were read. */
  lemma {:induction false} RunReadsWholeFrames(n: nat, pending: seq<byte>, polls: seq<PortPoll>)
    ensures var r := Run(n, Start(pending), polls);
            && |r.taken| <= |polls|
            && (forall i :: 0 <= i < |r.taken| ==> |r.taken[i]| == Telemetry.FrameLength(n))
            && r.frames == Accepted(n, r.taken)
    decreases |polls|
  {
    if polls != [] {
      var init := polls[..|polls| - 1];
      RunReadsWholeFrames(n, pending, init);
      var before := Run(n, Start(pending), init);
      var r := Run(n, Start(pending), polls);
      if r.taken != before.taken {
        assert r.taken[..|r.taken| - 1] == before.taken;
      }
    }
  }

  /** The bytes one pass adds to the port, when the loop is still running. */
  function Fresh(st: RxState, p: PortPoll): seq<byte>
  {
    if st.stopped || p.PortFailure? then [] else p.bytes
  }

  lemma StepAccounts(n: nat, st: RxState, p: PortPoll)
    ensures var r := Step(n, st, p);
            Flatten(r.taken) + r.pending == Flatten(st.taken) + st.pending + Fresh(st, p)
  {
    var r := Step(n, st, p);
    if !st.stopped && p.Arrived? {
      var waiting := st.pending + p.bytes;
      var len := Telemetry.FrameLength(n);
      if |waiting| >= len {
        var data, left := waiting[..len], waiting[len..];
        var taken := st.taken + [data];
        assert r.taken == taken && r.pending == left;
        assert taken[..|st.taken|] == st.taken;
        assert Flatten(taken) == Flatten(st.taken) + data;
        assert waiting == data + left;
        assert Flatten(taken) + left == Flatten(st.taken) + waiting;
      } else {
        assert r.taken == st.taken && r.pending == waiting;
      }
    } else {
      assert r.taken == st.taken && r.pending == st.pending && Fresh(st, p) == [];
      assert st.pending + [] == st.pending;
    }
  }

  /** No byte is lost or read twice: the reads, back to back, followed by the bytes still waiting,
      are the bytes that were waiting at the start followed by everything delivered. */
  lemma {:induction false} RunAccountsForEveryByte(n: nat, pending: seq<byte>, polls: seq<PortPoll>)
    ensures var r := Run(n, Start(pending), polls);
            Flatten(r.taken) + r.pending == pending + Delivered(polls)
    decreases |polls|
  {
    if polls != [] {
      var init, last := polls[..|polls| - 1], polls[|polls| - 1];
      var before := Run(n, Start(pending), init);
      RunAccountsForEveryByte(n, pending, init);
      RunStopsOnFailure(n, pending, init);
      StepAccounts(n, before, last);
      assert Delivered(polls) == Delivered(init) + Fresh(before, last);
    }
  }
}
