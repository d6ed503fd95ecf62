/** The two measurement markers of the current plot and the sample window between them
    (`on_press`, `on_motion`, `update_marker_values`, `calculate_and_update_average`
    in power_monitor.py and current_waveform.py). Positions are Python floats. */
module Markers {
  import opened Bytes

  /** Python `int(x)` on a float: truncation toward zero. */
  function TruncToInt(x: real): (i: int)
    ensures x >= 0.0 ==> i as real <= x < i as real + 1.0
    ensures x < 0.0 ==> i as real - 1.0 < x <= i as real
  {
    if x >= 0.0 then x.Floor else -((-x).Floor)
  }

  function Min(a: real, b: real): real { if a <= b then a else b }
  function Max(a: real, b: real): real { if a >= b then a else b }

  /** Which marker the mouse is dragging (`self.dragging_marker`). */
  datatype Drag = NoMarker | Marker1 | Marker2

  function Abs(x: real): real { if x < 0.0 then -x else x }

  /** `on_press`: grab marker 1 when the click is at or left of it and within the centre
      distance, else marker 2 when at or right of it and within that distance, else keep
      the current choice. */
  function PressTarget(x: real, m1: real, m2: real, current: Drag): (d: Drag)
    ensures d == Marker1 ==> x <= m1 || current == Marker1
    ensures d == Marker2 ==> x >= m2 || current == Marker2
  {
    var center := (m1 + m2) / 2.0;
    if x <= m1 && Abs(x - m1) < center then Marker1
    else if x >= m2 && Abs(x - m2) < center then Marker2
    else current
  }

  /** `min(max(x, 0), marker2_pos)`: the new position of marker 1. */
  function DragMarker1(x: real, m2: real): (m: real)
    ensures m <= m2
    ensures m2 >= 0.0 ==> 0.0 <= m
    ensures 0.0 <= x <= m2 ==> m == x
    ensures x < 0.0 && m2 >= 0.0 ==> m == 0.0
    ensures x > m2 ==> m == m2
  {
    Min(Max(x, 0.0), m2)
  }

  /** `max(min(x, len(current_data)), marker1_pos)`: the new position of marker 2. */
  function DragMarker2(x: real, len: nat, m1: real): (m: real)
    ensures m1 <= m
    ensures m1 <= len as real ==> m <= len as real
    ensures m1 <= x <= len as real ==> m == x
    ensures x > len as real && len as real >= m1 ==> m == len as real
    ensures x < m1 ==> m == m1
  {
    Max(Min(x, len as real), m1)
  }

  /** `data[i] if 0 <= i < len(data) else 'N/A'` with `i = int(pos)`. */
  function MarkerValue(data: seq<int>, pos: real): (v: Option<int>)
    ensures v.Some? <==> 0 <= TruncToInt(pos) < |data|
    ensures v.Some? ==> v.value == data[TruncToInt(pos)]
  {
    var i := TruncToInt(pos);
    if 0 <= i < |data| then Some(data[i]) else None
  }

  /** Python `s[start:stop]` for `start >= 0`: a negative `stop` counts from the end. */
  function PySlice(s: seq<int>, start: nat, stop: int): (r: seq<int>)
    ensures |r| <= |s|
  {
    var hi := if stop < 0 then (if |s| + stop < 0 then 0 else |s| + stop)
              else if stop > |s| then |s| else stop;
    if start < hi then s[start..hi] else []
  }

  /** `[max(0, int(m1)), min(int(m2), len))` as the averaging code computes it. */
  function WindowBounds(m1: real, m2: real, len: nat): (nat, int)
  {
    var lo := TruncToInt(m1);
    var hi := TruncToInt(m2);
    (if lo < 0 then 0 else lo, if hi > len then len else hi)
  }

  /** `current_data[x_min:x_max]`: the samples the average (and min and max) are taken over. */
  function WindowSamples(data: seq<int>, m1: real, m2: real): seq<int>
  {
    var (lo, hi) := WindowBounds(m1, m2, |data|);
    PySlice(data, lo, hi)
  }

  /** With the markers ordered and non-negative, as the GUI keeps them, the window is exactly the
      samples from `int(m1)` up to but excluding `min(int(m2), len)`, and nothing when that is empty. */
  lemma WindowOfOrderedMarkers(data: seq<int>, m1: real, m2: real)
    requires 0.0 <= m1 <= m2
    ensures var lo, hi := m1.Floor, if m2.Floor > |data| then |data| else m2.Floor;
            var w := WindowSamples(data, m1, m2);
            (lo < hi ==> w == data[lo..hi]) && (lo >= hi ==> w == [])
  {
  }

  /** Every window sample is a sample whose index lies between the two markers. */
  lemma WindowSamplesBetweenMarkers(data: seq<int>, m1: real, m2: real, k: nat)
    requires 0.0 <= m1 <= m2
    requires k < |WindowSamples(data, m1, m2)|
    ensures var i := m1.Floor + k;
            i < |data| && m1.Floor <= i < m2.Floor && WindowSamples(data, m1, m2)[k] == data[i]
  {
  }
}
