/** The read-outs beside the current plot (`calculate_and_update_average` in power_monitor.py and
    current_waveform.py): the mean, minimum and maximum of the samples in the marker window. */
module WindowStats {

  function Sum(s: seq<int>): int
    decreases |s|
  {
    if s == [] then 0 else Sum(s[..|s| - 1]) + s[|s| - 1]
  }

  /** `np.min`: a sample of the window no larger than any other. */
  function MinOf(s: seq<int>): (m: int)
    requires |s| > 0
    ensures m in s && forall i :: 0 <= i < |s| ==> m <= s[i]
    decreases |s|
  {
    if |s| == 1 then s[0]
    else
      var rest := MinOf(s[..|s| - 1]);
      if s[|s| - 1] < rest then s[|s| - 1] else rest
  }

  /** `np.max`: a sample of the window no smaller than any other. */
  function MaxOf(s: seq<int>): (m: int)
    requires |s| > 0
    ensures m in s && forall i :: 0 <= i < |s| ==> s[i] <= m
    decreases |s|
  {
    if |s| == 1 then s[0]
    else
      var rest := MaxOf(s[..|s| - 1]);
      if s[|s| - 1] > rest then s[|s| - 1] else rest
  }

  lemma {:induction false} SumAtLeast(s: seq<int>, m: int)
    requires forall i :: 0 <= i < |s| ==> m <= s[i]
    ensures |s| as real * m as real <= Sum(s) as real
    decreases |s|
  {
    if s != [] {
      SumAtLeast(s[..|s| - 1], m);
      var k := (|s| - 1) as real;
      assert |s| as real * m as real == k * m as real + m as real;
    }
  }

  lemma {:induction false} SumAtMost(s: seq<int>, m: int)
    requires forall i :: 0 <= i < |s| ==> s[i] <= m
    ensures Sum(s) as real <= |s| as real * m as real
    decreases |s|
  {
    if s != [] {
      SumAtMost(s[..|s| - 1], m);
      var k := (|s| - 1) as real;
      assert |s| as real * m as real == k * m as real + m as real;
    }
  }

  /** The three read-outs beside the current plot. */
  datatype Readout = Readout(average: real, minimum: int, maximum: int)

  /** `calculate_and_update_average`: mean, min and max of the window, or all zero for an empty window
      (every sample is an i32, so `np.isfinite` removes nothing). */
  function WindowReadout(w: seq<int>): (r: Readout)
    ensures w == [] ==> r == Readout(0.0, 0, 0)
    ensures w != [] ==> r.minimum in w && r.maximum in w
    ensures w != [] ==> forall i :: 0 <= i < |w| ==> r.minimum <= w[i] <= r.maximum
    ensures w != [] ==> r.average == Mean(w) && r.minimum as real <= r.average <= r.maximum as real
  {
    if w == [] then Readout(0.0, 0, 0)
    else
      MeanOfWindow(w);
      Readout(Mean(w), MinOf(w), MaxOf(w))
  }

  /** `np.mean`: the sum over the count. */
  function Mean(w: seq<int>): real
    requires w != []
  {
    Sum(w) as real / |w| as real
  }

  /** The mean of a non-empty window lies between its minimum and its maximum. */
  lemma MeanOfWindow(w: seq<int>)
    requires w != []
    ensures MinOf(w) as real <= Mean(w) <= MaxOf(w) as real
  {
    var lo, hi := MinOf(w), MaxOf(w);
    SumAtLeast(w, lo);
    SumAtMost(w, hi);
    MeanAtLeast(lo as real, Sum(w) as real, |w| as real);
    MeanAtMost(hi as real, Sum(w) as real, |w| as real);
  }

  lemma MeanAtLeast(lo: real, sum: real, n: real)
    requires n > 0.0 && n * lo <= sum
    ensures lo <= sum / n
  {
    var avg := sum / n;
    assert avg * n == sum;
    if avg < lo {
      assert lo * n - avg * n == (lo - avg) * n;
    }
  }

  lemma MeanAtMost(hi: real, sum: real, n: real)
    requires n > 0.0 && sum <= n * hi
    ensures sum / n <= hi
  {
    var avg := sum / n;
    assert avg * n == sum;
    if hi < avg {
      assert avg * n - hi * n == (avg - hi) * n;
    }
  }
}
