/** The verdict of the memory check (`_check_mem`): per-round diffs, the
    stability test, and what the whole retry loop concludes from a sequence
    of rounds. */
module Stability {
  import opened Dicts
  import opened RunReport
  import opened Errors

  /** One reading of the memory metrics (`_get_mem`); metrics a platform
      lacks read as 0. */
  datatype MemInfo = MemInfo(heap: int, mmap: int, uss: int, rss: int, vms: int)

  /** The reading as the dict `_get_mem` returns, in its key order. */
  function MemDict(m: MemInfo): Dict {
    [Entry("heap", m.heap), Entry("mmap", m.mmap), Entry("uss", m.uss),
     Entry("rss", m.rss), Entry("vms", m.vms)]
  }

  /** `{k: after[k] - before[k] for k in before}`: the growth of every
      metric of the first reading, in its order. */
  function DictDiffs(before: Dict, after: Dict): Dict {
    if before == [] then []
    else [Entry(before[0].key, Get(after, before[0].key, 0) - before[0].value)] + DictDiffs(before[1..], after)
  }

  /** The diffs have the first reading's keys, in its order, each the
      second reading's value less the first's. */
  lemma {:induction false} DictDiffsMeaning(before: Dict, after: Dict)
    ensures var d := DictDiffs(before, after);
      |d| == |before| &&
      forall i :: 0 <= i < |d| ==>
        d[i].key == before[i].key && d[i].value == Get(after, before[i].key, 0) - before[i].value
  {
    if before != [] {
      DictDiffsMeaning(before[1..], after);
    }
  }

  /** Two readings with the same keys, as `_get_mem` always returns, give
      the position-by-position difference of their values. */
  lemma DictDiffsSameKeys(before: Dict, after: Dict)
    requires |before| == |after| && DistinctKeys(after)
    requires forall i :: 0 <= i < |before| ==> before[i].key == after[i].key
    ensures var d := DictDiffs(before, after);
      |d| == |before| &&
      forall i :: 0 <= i < |d| ==> d[i] == Entry(before[i].key, after[i].value - before[i].value)
  {
    DictDiffsMeaning(before, after);
    forall i | 0 <= i < |before|
      ensures Get(after, before[i].key, 0) == after[i].value
    {
      GetAt(after, i);
    }
  }

  /** Diffs of two readings taken by `_get_mem`: one entry per metric, in
      its order, each the second reading less the first. */
  lemma MemDiffsMeaning(mem1: MemInfo, mem2: MemInfo)
    ensures DictDiffs(MemDict(mem1), MemDict(mem2)) ==
      [Entry("heap", mem2.heap - mem1.heap), Entry("mmap", mem2.mmap - mem1.mmap),
       Entry("uss", mem2.uss - mem1.uss), Entry("rss", mem2.rss - mem1.rss),
       Entry("vms", mem2.vms - mem1.vms)]
  {
    DictDiffsSameKeys(MemDict(mem1), MemDict(mem2));
  }

  /** One metric has settled: its growth is within tolerance or no larger
      than in the previous round. */
  predicate Settled(diff: int, prevDiff: int, tolerance: int) {
    diff <= tolerance || diff <= prevDiff
  }

  /** `all(diffs.get(k, 0) <= tolerance or diffs.get(k, 0) <= prev.get(k, 0)
      for k in diffs)`, evaluated left to right; for a key `k` of `diffs`,
      `diffs.get(k, 0)` is that entry's own value. */
  predicate Stable(diffs: Dict, prev: Dict, tolerance: int) {
    diffs == [] ||
    (Settled(diffs[0].value, Get(prev, diffs[0].key, 0), tolerance) && Stable(diffs[1..], prev, tolerance))
  }

  /** A round is stable exactly when every metric has settled. */
  lemma {:induction false} StableIff(diffs: Dict, prev: Dict, tolerance: int)
    ensures Stable(diffs, prev, tolerance) <==>
      forall i :: 0 <= i < |diffs| ==> Settled(diffs[i].value, Get(prev, diffs[i].key, 0), tolerance)
  {
    if diffs != [] {
      StableIff(diffs[1..], prev, tolerance);
      assert forall i :: 1 <= i < |diffs| ==> diffs[i] == diffs[1..][i - 1];
    }
  }

  /** Raising the tolerance never turns a stable round unstable. */
  lemma StableToleranceMonotone(diffs: Dict, prev: Dict, tol1: int, tol2: int)
    requires tol1 <= tol2 && Stable(diffs, prev, tol1)
    ensures Stable(diffs, prev, tol2)
  {
    StableIff(diffs, prev, tol1);
    StableIff(diffs, prev, tol2);
  }

  /** In the first round there is no previous diff, so the round is stable
      exactly when no metric grew by more than `max(tolerance, 0)`. */
  lemma FirstRoundStable(diffs: Dict, tolerance: int)
    ensures Stable(diffs, [], tolerance) <==>
      forall i :: 0 <= i < |diffs| ==> diffs[i].value <= (if tolerance > 0 then tolerance else 0)
  {
    StableIff(diffs, [], tolerance);
  }

  /** With a non-negative tolerance an unstable round always grew somewhere,
      so it always contributes a line to the transcript. */
  lemma UnstableHasGrowth(diffs: Dict, prev: Dict, tolerance: int)
    requires tolerance >= 0 && !Stable(diffs, prev, tolerance)
    ensures Positive(diffs) != []
  {
    StableIff(diffs, prev, tolerance);
    var i :| 0 <= i < |diffs| && !Settled(diffs[i].value, Get(prev, diffs[i].key, 0), tolerance);
    PositiveMembers(diffs);
    assert diffs[i] in Positive(diffs);
  }

  // --- the retry loop, as a function of the rounds it measures

  /** The previous round's diffs as seen by round `k` (0-based); `{}` in the first. */
  function PrevOf(ds: seq<Dict>, k: nat): Dict
    requires k < |ds|
  {
    if k == 0 then [] else ds[k - 1]
  }

  predicate StableAt(ds: seq<Dict>, k: nat, tolerance: int)
    requires k < |ds|
  {
    Stable(ds[k], PrevOf(ds, k), tolerance)
  }

  /** The first stable round (0-based), or `|ds|` when none is. */
  function FirstStable(ds: seq<Dict>, tolerance: int): (r: nat)
    ensures r <= |ds|
    ensures forall k :: 0 <= k < r ==> !StableAt(ds, k, tolerance)
    ensures r < |ds| ==> StableAt(ds, r, tolerance)
  {
    FirstStableFrom(ds, tolerance, 0)
  }

  function FirstStableFrom(ds: seq<Dict>, tolerance: int, from: nat): (r: nat)
    requires from <= |ds|
    requires forall k :: 0 <= k < from ==> !StableAt(ds, k, tolerance)
    ensures from <= r <= |ds|
    ensures forall k :: 0 <= k < r ==> !StableAt(ds, k, tolerance)
    ensures r < |ds| ==> StableAt(ds, r, tolerance)
    decreases |ds| - from
  {
    if from == |ds| then from
    else if StableAt(ds, from, tolerance) then from
    else FirstStableFrom(ds, tolerance, from + 1)
  }

  /** How many rounds the loop measures: up to and including the first
      stable one, or all of them. */
  function RoundsRun(ds: seq<Dict>, tolerance: int): (n: nat)
    ensures n <= |ds|
  {
    var f := FirstStable(ds, tolerance);
    if f < |ds| then f + 1 else |ds|
  }

  function Pow2(n: nat): (p: nat)
    ensures p >= 1
  {
    if n == 0 then 1 else 2 * Pow2(n - 1)
  }

  /** The batch size of round `k` (0-based): `times` doubled once per
      earlier round. */
  function Batch(times: int, k: nat): (b: int)
    ensures times >= 1 ==> b >= times
  {
    if k == 0 then times else 2 * Batch(times, k - 1)
  }

  /** Round `k` calls the target `times * 2^k` times. */
  lemma {:induction false} BatchIsPow2(times: int, k: nat)
    ensures Batch(times, k) == times * Pow2(k)
  {
    if k > 0 {
      BatchIsPow2(times, k - 1);
      assert times * (2 * Pow2(k - 1)) == 2 * (times * Pow2(k - 1));
    }
  }

  /** Calls made by the first `rounds` rounds. */
  function TotalCalls(times: int, rounds: nat): int {
    if rounds == 0 then 0 else TotalCalls(times, rounds - 1) + Batch(times, rounds - 1)
  }

  /** The first `rounds` batches add up to the next batch less the first. */
  lemma {:induction false} TotalCallsNextBatch(times: int, rounds: nat)
    ensures TotalCalls(times, rounds) == Batch(times, rounds) - times
  {
    if rounds > 0 {
      TotalCallsNextBatch(times, rounds - 1);
    }
  }

  /** Doubling batches add up to `times * (2^rounds - 1)` calls. */
  lemma TotalCallsClosedForm(times: int, rounds: nat)
    ensures TotalCalls(times, rounds) == times * (Pow2(rounds) - 1)
  {
    TotalCallsNextBatch(times, rounds);
    BatchIsPow2(times, rounds);
  }

  /** The transcript: one line for every round in which some metric grew,
      in round order, for round `k` (1-based) with its batch size. */
  function RunLines(ds: seq<Dict>, times: int): seq<RunLine>
    requires times >= 1
  {
    if ds == [] then []
    else
      var k := |ds| - 1;
      var leaks := Positive(ds[k]);
      RunLines(ds[..k], times) + (if leaks != [] then [FormatRunLine(k + 1, leaks, Batch(times, k))] else [])
  }

  /** The verdict of `_check_mem` over the `retries` rounds the oracle
      would measure: success at the first stable round, else a
      MemoryLeakError carrying every round's line. */
  function MemCheckOutcome(ds: seq<Dict>, times: int, retries: int, tolerance: int): Outcome
    requires times >= 1
  {
    if FirstStable(ds, tolerance) < |ds| then Ok else MemoryLeak(retries, RunLines(ds, times))
  }

  /** Measuring one more round extends the transcript by that round's line,
      if it grew. */
  lemma RunLinesSnoc(ds: seq<Dict>, d: Dict, times: int)
    requires times >= 1
    ensures RunLines(ds + [d], times) ==
      RunLines(ds, times) +
      (if Positive(d) != [] then [FormatRunLine(|ds| + 1, Positive(d), Batch(times, |ds|))] else [])
  {
    assert (ds + [d])[..|ds|] == ds;
  }

  /** Every round of `ds` is unstable. */
  predicate AllUnstable(ds: seq<Dict>, tolerance: int) {
    ds == [] || (AllUnstable(ds[..|ds| - 1], tolerance) && !StableAt(ds, |ds| - 1, tolerance))
  }

  lemma {:induction false} AllUnstableIff(ds: seq<Dict>, tolerance: int)
    ensures AllUnstable(ds, tolerance) <==> forall k :: 0 <= k < |ds| ==> !StableAt(ds, k, tolerance)
  {
    if ds != [] {
      var pre := ds[..|ds| - 1];
      AllUnstableIff(pre, tolerance);
      forall k | 0 <= k < |pre|
        ensures StableAt(pre, k, tolerance) == StableAt(ds, k, tolerance)
      {
        assert pre[k] == ds[k];
        assert k > 0 ==> pre[k - 1] == ds[k - 1];
      }
    }
  }

  /** An unstable round measured after unstable rounds keeps every round
      unstable. */
  lemma AllUnstableSnoc(ds: seq<Dict>, d: Dict, tolerance: int)
    requires AllUnstable(ds, tolerance)
    requires !Stable(d, if ds == [] then [] else ds[|ds| - 1], tolerance)
    ensures AllUnstable(ds + [d], tolerance)
  {
    assert (ds + [d])[..|ds|] == ds;
    assert (ds + [d])[|ds|] == d;
    assert ds != [] ==> (ds + [d])[|ds| - 1] == ds[|ds| - 1];
  }

  /** When the rounds measured so far, `pre + [d]`, begin `ds`, all of
      `pre` was unstable and `d` is stable, the loop stops after them with
      success, whatever the later rounds would have been. */
  lemma StopsAfter(ds: seq<Dict>, pre: seq<Dict>, d: Dict, times: int, retries: int, tolerance: int)
    requires times >= 1
    requires |pre| < |ds| && ds[..|pre| + 1] == pre + [d]
    requires AllUnstable(pre, tolerance)
    requires Stable(d, if pre == [] then [] else pre[|pre| - 1], tolerance)
    ensures FirstStable(ds, tolerance) == |pre| && RoundsRun(ds, tolerance) == |pre| + 1
    ensures MemCheckOutcome(ds, times, retries, tolerance) == Ok
  {
    AllUnstableIff(pre, tolerance);
    forall k | 0 <= k < |pre|
      ensures !StableAt(ds, k, tolerance)
    {
      assert ds[k] == ds[..|pre| + 1][k] == pre[k];
      assert k > 0 ==> ds[k - 1] == ds[..|pre| + 1][k - 1] == pre[k - 1];
      assert PrevOf(ds, k) == PrevOf(pre, k);
      assert StableAt(ds, k, tolerance) == StableAt(pre, k, tolerance);
    }
    assert ds[|pre|] == ds[..|pre| + 1][|pre|] == d;
    assert |pre| > 0 ==> ds[|pre| - 1] == ds[..|pre| + 1][|pre| - 1] == pre[|pre| - 1];
    assert StableAt(ds, |pre|, tolerance);
  }

  /** When no round is stable, all of them run and the check fails with
      the whole transcript. */
  lemma NeverStable(ds: seq<Dict>, times: int, retries: int, tolerance: int)
    requires times >= 1
    requires AllUnstable(ds, tolerance)
    ensures RoundsRun(ds, tolerance) == |ds|
    ensures MemCheckOutcome(ds, times, retries, tolerance) == MemoryLeak(retries, RunLines(ds, times))
  {
    AllUnstableIff(ds, tolerance);
  }

  /** The check succeeds exactly when some round is stable; with no round
      at all (`retries <= 0`) it always reports a leak. */
  lemma MemCheckOkIff(ds: seq<Dict>, times: int, retries: int, tolerance: int)
    requires times >= 1
    ensures MemCheckOutcome(ds, times, retries, tolerance) == Ok <==>
      exists k :: 0 <= k < |ds| && StableAt(ds, k, tolerance)
    ensures ds == [] ==> MemCheckOutcome(ds, times, retries, tolerance) == MemoryLeak(retries, [])
  {
    if exists k :: 0 <= k < |ds| && StableAt(ds, k, tolerance) {
      var k :| 0 <= k < |ds| && StableAt(ds, k, tolerance);
      assert FirstStable(ds, tolerance) <= k;
    }
  }

  /** `line` is the one `format_run_line` makes for round `line.idx` of `ds`
      (1-based), a round in which some metric grew. */
  predicate IsRoundLine(ds: seq<Dict>, times: int, line: RunLine)
    requires times >= 1
  {
    1 <= line.idx <= |ds| && Positive(ds[line.idx - 1]) != [] &&
    line == FormatRunLine(line.idx, Positive(ds[line.idx - 1]), Batch(times, line.idx - 1))
  }

  /** Each transcript line is its round's line, with that round's batch
      size. */
  lemma {:induction false} RunLinesRounds(ds: seq<Dict>, times: int)
    requires times >= 1
    ensures forall j :: 0 <= j < |RunLines(ds, times)| ==> IsRoundLine(ds, times, RunLines(ds, times)[j])
  {
    if ds != [] {
      var k := |ds| - 1;
      var pre := ds[..k];
      RunLinesRounds(pre, times);
      var lines := RunLines(pre, times);
      var leaks := Positive(ds[k]);
      var tail := if leaks != [] then [FormatRunLine(k + 1, leaks, Batch(times, k))] else [];
      var all := RunLines(ds, times);
      assert all == lines + tail;
      forall j | 0 <= j < |all| ensures IsRoundLine(ds, times, all[j]) {
        if j < |lines| {
          assert all[j] == lines[j] && IsRoundLine(pre, times, lines[j]);
          assert pre[lines[j].idx - 1] == ds[lines[j].idx - 1];
        } else {
          assert all[j] == tail[0];
        }
      }
    }
  }

  /** Each transcript line's average per call is the first grown metric of
      its round, floor-divided by that round's batch size. */
  lemma RunLineAverage(ds: seq<Dict>, times: int, j: nat)
    requires times >= 1 && j < |RunLines(ds, times)|
    ensures var line := RunLines(ds, times)[j];
      1 <= line.idx <= |ds| &&
      var d := ds[line.idx - 1];
      FirstPositive(d) < |d| &&
      line.avgPerCall == Some(FloorDiv(d[FirstPositive(d)].value, Batch(times, line.idx - 1)))
  {
    RunLinesRounds(ds, times);
    var line := RunLines(ds, times)[j];
    assert IsRoundLine(ds, times, line);
    var leaks := Positive(ds[line.idx - 1]);
    PositiveHead(ds[line.idx - 1]);
    assert IndexOf(leaks, leaks[0].key) == 0;
  }

  /** The transcript lists rounds in increasing order. */
  lemma {:induction false} RunLinesOrdered(ds: seq<Dict>, times: int)
    requires times >= 1
    ensures forall j :: 0 <= j < |RunLines(ds, times)| ==> RunLines(ds, times)[j].idx <= |ds|
    ensures forall j, j' :: 0 <= j < j' < |RunLines(ds, times)| ==>
      RunLines(ds, times)[j].idx < RunLines(ds, times)[j'].idx
  {
    if ds != [] {
      var k := |ds| - 1;
      var pre := ds[..k];
      RunLinesOrdered(pre, times);
      var lines := RunLines(pre, times);
      var leaks := Positive(ds[k]);
      var tail := if leaks != [] then [FormatRunLine(k + 1, leaks, Batch(times, k))] else [];
      var all := RunLines(ds, times);
      assert all == lines + tail;
      assert forall j :: 0 <= j < |lines| ==> all[j] == lines[j];
      assert tail != [] ==> all[|lines|] == tail[0] && tail[0].idx == k + 1;
    }
  }

  /** With a non-negative tolerance a failed check has exactly one line per
      round, the first starting on a new line of the error message. */
  lemma {:induction false} LeakTranscriptComplete(ds: seq<Dict>, times: int, retries: int, tolerance: int)
    requires times >= 1 && tolerance >= 0
    requires forall k :: 0 <= k < |ds| ==> !StableAt(ds, k, tolerance)
    ensures |RunLines(ds, times)| == |ds|
    ensures forall k :: 0 <= k < |ds| ==> RunLines(ds, times)[k].idx == k + 1
    ensures ds != [] ==> RunLines(ds, times)[0].leadingNewline
  {
    if ds != [] {
      var k := |ds| - 1;
      var pre := ds[..k];
      forall i | 0 <= i < k ensures !StableAt(pre, i, tolerance) {
        assert !StableAt(ds, i, tolerance);
        assert pre[i] == ds[i];
        assert i > 0 ==> pre[i - 1] == ds[i - 1];
        assert PrevOf(pre, i) == PrevOf(ds, i);
      }
      LeakTranscriptComplete(pre, times, retries, tolerance);
      assert !StableAt(ds, k, tolerance);
      UnstableHasGrowth(ds[k], PrevOf(ds, k), tolerance);
      assert RunLines(ds, times)[k].idx == k + 1;
    }
  }
}
