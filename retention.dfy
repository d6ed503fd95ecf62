/** Bounded sample history: `data = np.append(data, batch)` followed by
    `if len(data) > MAX_DATA_SIZE: data = data[-MAX_DATA_SIZE:]`. */
module Retention {

  /** `s[-max:]` when `len(s) > max`, else `s`: the most recent `max` samples. */
  function KeepLast(s: seq<int>, max: nat): (r: seq<int>)
    ensures |r| == if |s| > max then max else |s|
  {
    if |s| > max then s[|s| - max ..] else s
  }

  /** What is kept is the end of the input: nothing reordered, nothing skipped at the end. */
  lemma KeepLastIsSuffix(s: seq<int>, max: nat)
    ensures var r := KeepLast(s, max); r == s[|s| - |r| ..]
  {
  }

  /** One append-then-trim step of the GUI's sample history. */
  function AppendBounded(history: seq<int>, batch: seq<int>, max: nat): seq<int>
  {
    KeepLast(history + batch, max)
  }

  /** All batches, oldest first, back to back. */
  function Concat(batches: seq<seq<int>>): (s: seq<int>)
  {
    if batches == [] then [] else Concat(batches[..|batches| - 1]) + batches[|batches| - 1]
  }

  /** Dropping the front of `a` commutes with appending `b`. */
  lemma TailOfAppend(a: seq<int>, b: seq<int>, k: nat)
    requires k <= |a|
    ensures a[k..] + b == (a + b)[k..]
  {
  }

  /** Dropping `k` and then `m` more is dropping `k + m`. */
  lemma DropMore(s: seq<int>, k: nat, m: nat)
    requires k + m <= |s|
    ensures s[k..][m..] == s[k + m ..]
  {
  }

  /** Trimming after every batch keeps the same samples as trimming once at the end:
      the retained history is the last `max` samples of the whole arrival sequence. */
  lemma KeepLastAbsorbs(a: seq<int>, b: seq<int>, max: nat)
    ensures KeepLast(KeepLast(a, max) + b, max) == KeepLast(a + b, max)
  {
    if |a| > max {
      var k := |a| - max;
      var ab := a + b;
      TailOfAppend(a, b, k);
      DropMore(ab, k, |b|);
      assert KeepLast(a, max) == a[k..];
      assert KeepLast(ab[k..], max) == ab[k..][|b|..];
      assert KeepLast(ab, max) == ab[k + |b| ..];
    }
  }

  /** Appending the batches one at a time with a trim after each equals appending all and trimming once. */
  function AppendAll(history: seq<int>, batches: seq<seq<int>>, max: nat): seq<int>
    decreases |batches|
  {
    if batches == [] then history
    else AppendBounded(AppendAll(history, batches[..|batches| - 1], max), batches[|batches| - 1], max)
  }

  /** One more batch is one more append-then-trim. */
  lemma AppendAllSnoc(history: seq<int>, batches: seq<seq<int>>, batch: seq<int>, max: nat)
    ensures AppendAll(history, batches + [batch], max) == KeepLast(AppendAll(history, batches, max) + batch, max)
  {
    assert (batches + [batch])[..|batches|] == batches;
  }

  lemma {:induction false} AppendAllIsLastWindow(history: seq<int>, batches: seq<seq<int>>, max: nat)
    requires |history| <= max
    ensures AppendAll(history, batches, max) == KeepLast(history + Concat(batches), max)
    decreases |batches|
  {
    if batches != [] {
      var init, last := batches[..|batches| - 1], batches[|batches| - 1];
      AppendAllIsLastWindow(history, init, max);
      KeepLastAbsorbs(history + Concat(init), last, max);
      assert history + Concat(batches) == (history + Concat(init)) + last;
    }
  }

  /** The history after any number of batches is bounded, and every retained sample
      is one of the arrivals, in arrival order, with none skipped at the end. */
  lemma RetainedIsSuffix(history: seq<int>, batches: seq<seq<int>>, max: nat)
    requires |history| <= max
    ensures var r := AppendAll(history, batches, max);
            var all := history + Concat(batches);
            |r| == (if |all| > max then max else |all|) && r == all[|all| - |r| ..]
  {
    AppendAllIsLastWindow(history, batches, max);
    KeepLastIsSuffix(history + Concat(batches), max);
  }

  /** `while True: batch = q.get_nowait(); data = np.append(data, batch); trim` until `queue.Empty`:
      drains the queued batches, oldest first, into the history. */
  method DrainQueue(history: seq<int>, queue: seq<seq<int>>, max: nat) returns (data: seq<int>)
    requires |history| <= max
    ensures data == KeepLast(history + Concat(queue), max)
  {
    data := history;
    var pending := queue;
    ghost var taken := 0;
    while pending != []
      invariant 0 <= taken <= |queue| && pending == queue[taken..]
      invariant data == AppendAll(history, queue[..taken], max)
      decreases |pending|
    {
      var batch := pending[0];
      pending := pending[1..];
      data := KeepLast(data + batch, max);
      assert queue[..taken + 1][..taken] == queue[..taken];
      taken := taken + 1;
    }
    assert queue[..taken] == queue;
    AppendAllIsLastWindow(history, queue, max);
  }
}
