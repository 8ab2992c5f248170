/** `MemoryLeakTestCase`: its class attributes, the checks it runs and
    `execute`, which validates the parameters and runs the checks in order.
    The process is seen only through its measurements: the k-th reading of
    the memory metrics is `memOracle(k)` and the k-th reading of the
    counters is `counterOracle(k)`, so the model covers every sequence of
    readings a run can produce. Calling the target only counts the call. */
module LeakTestCase {
  import opened Dicts
  import opened RunReport
  import opened Errors
  import opened Stability
  import opened Oneshot

  /** The growth between memory readings number `r` and `r + 1`. */
  function ReadingDiffs(mem: nat -> MemInfo, r: nat): Dict {
    DictDiffs(MemDict(mem(r)), MemDict(mem(r + 1)))
  }

  /** The diffs of the `retries` rounds `_check_mem` may measure when the
      next memory reading is number `start`: round k (0-based) reads
      `start + 2k` before its batch and `start + 2k + 1` after it. */
  function Rounds(mem: nat -> MemInfo, start: nat, retries: int): (ds: seq<Dict>)
    ensures |ds| == if retries > 0 then retries else 0
  {
    if retries <= 0 then [] else Rounds(mem, start, retries - 1) + [ReadingDiffs(mem, start + 2 * (retries - 1))]
  }

  /** The first `j` rounds of a longer run are the rounds of a run of `j`. */
  lemma {:induction false} RoundsPrefix(mem: nat -> MemInfo, start: nat, retries: int, j: nat)
    requires j <= retries
    ensures Rounds(mem, start, retries)[..j] == Rounds(mem, start, j)
  {
    if j < retries {
      RoundsPrefix(mem, start, retries - 1, j);
      assert Rounds(mem, start, retries)[..j] == Rounds(mem, start, retries - 1)[..j];
    }
  }

  /** Round `k` (0-based) compares memory readings `start + 2k` and
      `start + 2k + 1`. */
  lemma {:induction false} RoundAt(mem: nat -> MemInfo, start: nat, n: int, k: nat)
    requires k < n
    ensures Rounds(mem, start, n)[k] == ReadingDiffs(mem, start + 2 * k)
  {
    if k < n - 1 {
      RoundAt(mem, start, n - 1, k);
    }
  }

  /** Measuring round `n` after the first `n` extends the rounds by it. */
  lemma RoundsNext(mem: nat -> MemInfo, start: nat, n: nat, ds: seq<Dict>, r: nat)
    requires ds == Rounds(mem, start, n) && r == start + 2 * n
    ensures ds + [ReadingDiffs(mem, r)] == Rounds(mem, start, n + 1)
  {
  }

  /** Every round measures the five metrics of `_get_mem`, each once, so
      `diffs[first_key]` in its run line is the first grown metric's value. */
  lemma {:induction false} RoundsDistinctKeys(mem: nat -> MemInfo, start: nat, retries: int)
    ensures forall k :: 0 <= k < |Rounds(mem, start, retries)| ==>
      |Rounds(mem, start, retries)[k]| == 5 && DistinctKeys(Rounds(mem, start, retries)[k])
  {
    if retries > 0 {
      RoundsDistinctKeys(mem, start, retries - 1);
      var r := start + 2 * (retries - 1);
      MemDiffsMeaning(mem(r), mem(r + 1));
      var pre, ds := Rounds(mem, start, retries - 1), Rounds(mem, start, retries);
      var d := ReadingDiffs(mem, r);
      assert ds == pre + [d];
      forall k | 0 <= k < |ds| ensures |ds[k]| == 5 && DistinctKeys(ds[k]) {
        if k < |pre| {
          assert ds[k] == pre[k];
        } else {
          assert ds[k] == d;
        }
      }
    }
  }

  /** A stable round `idx` (1-based) after unstable ones ends the check
      with success after `idx` rounds, whatever later rounds would have
      measured. */
  lemma StableRoundEnds(mem: nat -> MemInfo, start: nat, retries: int, measured: seq<Dict>, d: Dict,
                        times: int, tolerance: int)
    requires times >= 1 && |measured| < retries
    requires measured + [d] == Rounds(mem, start, |measured| + 1)
    requires AllUnstable(measured, tolerance)
    requires Stable(d, if measured == [] then [] else measured[|measured| - 1], tolerance)
    ensures var ds := Rounds(mem, start, retries);
      RoundsRun(ds, tolerance) == |measured| + 1 && MemCheckOutcome(ds, times, retries, tolerance) == Ok
  {
    RoundsPrefix(mem, start, retries, |measured| + 1);
    StopsAfter(Rounds(mem, start, retries), measured, d, times, retries, tolerance);
  }

  /** When all `retries` rounds were unstable the check fails with the
      transcript of all of them. */
  lemma AllRoundsUnstable(mem: nat -> MemInfo, start: nat, retries: int, measured: seq<Dict>,
                          times: int, tolerance: int)
    requires times >= 1 && |measured| == (if retries > 0 then retries else 0)
    requires measured == Rounds(mem, start, |measured|)
    requires AllUnstable(measured, tolerance)
    ensures var ds := Rounds(mem, start, retries);
      ds == measured && RoundsRun(ds, tolerance) == |measured| &&
      MemCheckOutcome(ds, times, retries, tolerance) == MemoryLeak(retries, RunLines(measured, times))
  {
    NeverStable(measured, times, retries, tolerance);
  }

  /** The range checks of `execute`, in the order it makes them: the first
      parameter out of range is reported. */
  function ValidateParams(times: int, warmupTimes: int, retries: int, tolerance: int): (r: Outcome)
    ensures r == Ok <==> times >= 1 && warmupTimes >= 0 && retries >= 0 && tolerance >= 0
    ensures r == InvalidArgument("times", times) <==> times < 1
    ensures r == InvalidArgument("warmup_times", warmupTimes) <==> times >= 1 && warmupTimes < 0
    ensures r == InvalidArgument("retries", retries) <==> times >= 1 && warmupTimes >= 0 && retries < 0
    ensures r == InvalidArgument("tolerance", tolerance) <==>
      times >= 1 && warmupTimes >= 0 && retries >= 0 && tolerance < 0
  {
    if times < 1 then InvalidArgument("times", times)
    else if warmupTimes < 0 then InvalidArgument("warmup_times", warmupTimes)
    else if retries < 0 then InvalidArgument("retries", retries)
    else if tolerance < 0 then InvalidArgument("tolerance", tolerance)
    else Ok
  }

  /** `x if x is not None else default`. */
  function OrDefault(x: Option<int>, default: int): int {
    if x.Some? then x.value else default
  }

  class MemoryLeakTestCase {
    // class attributes; a subclass may override them
    var times: int
    var retries: int
    var warmupTimes: int
    var tolerance: int

    // the process under test
    const memOracle: nat -> MemInfo
    const counterOracle: nat -> Dict
    var memReads: nat
    var counterReads: nat
    var calls: nat

    constructor (memOracle: nat -> MemInfo, counterOracle: nat -> Dict)
      ensures this.memOracle == memOracle && this.counterOracle == counterOracle
      ensures times == 200 && retries == 5 && warmupTimes == 10 && tolerance == 0
      ensures memReads == 0 && counterReads == 0 && calls == 0
    {
      this.memOracle := memOracle;
      this.counterOracle := counterOracle;
      times, retries, warmupTimes, tolerance := 200, 5, 10, 0;
      memReads, counterReads, calls := 0, 0, 0;
    }

    /** `call(fun)`: one call of the target. */
    method Call()
      modifies this`calls
      ensures calls == old(calls) + 1
    {
      calls := calls + 1;
    }

    /** `_get_mem()`: the next memory reading. */
    method GetMem() returns (m: Dict)
      modifies this`memReads
      ensures m == MemDict(memOracle(old(memReads))) && memReads == old(memReads) + 1
    {
      m := MemDict(memOracle(memReads));
      memReads := memReads + 1;
    }

    /** `_get_oneshot()`: the next counter reading. */
    method GetOneshot() returns (d: Dict)
      modifies this`counterReads
      ensures d == counterOracle(old(counterReads)) && counterReads == old(counterReads) + 1
    {
      d := counterOracle(counterReads);
      counterReads := counterReads + 1;
    }

    /** `_warmup(fun, n)`: `n` calls outside any measurement. */
    method Warmup(n: int)
      modifies this`calls
      ensures calls == old(calls) + (if n > 0 then n else 0)
    {
      var i := 0;
      while i < n
        invariant 0 <= i <= (if n > 0 then n else 0)
        invariant calls == old(calls) + i
      {
        Call();
        i := i + 1;
      }
    }

    /** `_call_ntimes(fun, n)`: one reading, `n` calls, another reading,
        and the per-metric growth between the readings. `_trim_mem` before
        each reading has no effect in the model. */
    method CallNTimes(n: int) returns (diffs: Dict)
      modifies this`calls, this`memReads
      ensures diffs == ReadingDiffs(memOracle, old(memReads))
      ensures memReads == old(memReads) + 2
      ensures calls == old(calls) + (if n > 0 then n else 0)
    {
      var mem1 := GetMem();
      var i := 0;
      while i < n
        invariant 0 <= i <= (if n > 0 then n else 0)
        invariant calls == old(calls) + i
        invariant memReads == old(memReads) + 1
      {
        Call();
        i := i + 1;
      }
      var mem2 := GetMem();
      diffs := DictDiffs(mem1, mem2);
    }

    /** `_check_oneshot(fun)`: counters before and after one call; the
        first counter, in the first snapshot's order, that grew raises its
        error (a decrease is only logged). */
    method CheckOneshot(funName: string) returns (outcome: Outcome)
      modifies this`calls, this`counterReads
      ensures outcome == OneshotOutcome(counterOracle(old(counterReads)), counterOracle(old(counterReads) + 1), funName)
      ensures counterReads == old(counterReads) + 2 && calls == old(calls) + 1
    {
      var before := GetOneshot();
      Call();
      var after := GetOneshot();
      var i := 0;
      while i < |before|
        invariant 0 <= i <= |before|
        invariant OneshotOutcome(before[i..], after, funName) == OneshotOutcome(before, after, funName)
      {
        assert before[i..][0] == before[i] && before[i..][1..] == before[i + 1..];
        var what := before[i].key;
        if !HasKey(after, what) {
          return MissingCounter(what);
        }
        var diff := Get(after, what, 0) - before[i].value;
        if diff > 0 {
          var kind := ErrorKindFor(what);
          if kind.None? {
            return UnknownCounter(what);
          }
          return Unclosed(NewUnclosedResourceError(kind.value, diff, funName));
        }
        i := i + 1;
      }
      return Ok;
    }

    /** `_check_mem(fun, times, retries, tolerance)`: up to `retries`
        rounds, the batch doubling after every unstable one; success at the
        first stable round, otherwise MemoryLeakError with the line of every
        round that grew. Its one caller has checked `times >= 1`. */
    method CheckMem(times: int, retries: int, tolerance: int) returns (outcome: Outcome)
      requires times >= 1
      modifies this`calls, this`memReads
      ensures var ds := Rounds(memOracle, old(memReads), retries);
        var n := RoundsRun(ds, tolerance);
        && outcome == MemCheckOutcome(ds, times, retries, tolerance)
        && memReads == old(memReads) + 2 * n
        && calls == old(calls) + Batch(times, n) - times
    {
      ghost var start := memReads;
      ghost var measured: seq<Dict> := [];  // the diffs of the rounds run so far
      var prev: Dict := [];
      var messages: seq<RunLine> := [];
      var batch := times;  // the source's `times`, doubled after each round
      var idx := 1;
      while idx <= retries
        invariant 1 <= idx && |measured| == idx - 1
        invariant idx == 1 || idx <= retries + 1
        invariant measured == Rounds(memOracle, start, idx - 1)
        invariant memReads == start + 2 * (idx - 1)
        invariant batch >= 1 && batch == Batch(times, idx - 1)
        invariant calls == old(calls) + batch - times
        invariant prev == if measured == [] then [] else measured[|measured| - 1]
        invariant messages == RunLines(measured, times)
        invariant AllUnstable(measured, tolerance)
      {
        ghost var before := memReads;
        var diffs := CallNTimes(batch);
        RoundsNext(memOracle, start, idx - 1, measured, before);
        var leaks := Positive(diffs);
        RunLinesSnoc(measured, diffs, times);
        if leaks != [] {
          messages := messages + [FormatRunLine(idx, leaks, batch)];
        }
        if Stable(diffs, prev, tolerance) {
          StableRoundEnds(memOracle, start, retries, measured, diffs, times, tolerance);
          return Ok;
        }
        AllUnstableSnoc(measured, diffs, tolerance);
        measured := measured + [diffs];
        prev := diffs;
        batch := batch * 2;
        idx := idx + 1;
      }
      assert |measured| == (if retries > 0 then retries else 0);
      AllRoundsUnstable(memOracle, start, retries, measured, times, tolerance);
      outcome := MemoryLeak(retries, messages);
      assert outcome == MemCheckOutcome(Rounds(memOracle, start, retries), times, retries, tolerance);
    }

    /** `execute(fun, times=, warmup_times=, retries=, tolerance=)`:
        parameters left as None take the class attributes; the range checks
        run before the target is first called; then the one-shot check, the
        warm-up and the memory check, each only if the previous one passed. */
    method Execute(funName: string, times: Option<int>, warmupTimes: Option<int>,
                   retries: Option<int>, tolerance: Option<int>) returns (outcome: Outcome)
      modifies this`calls, this`memReads, this`counterReads
      ensures var t, w := OrDefault(times, old(this.times)), OrDefault(warmupTimes, old(this.warmupTimes));
        var r, tol := OrDefault(retries, old(this.retries)), OrDefault(tolerance, old(this.tolerance));
        var v := ValidateParams(t, w, r, tol);
        v != Ok ==>
          outcome == v && calls == old(calls) && memReads == old(memReads) && counterReads == old(counterReads)
      ensures var t, w := OrDefault(times, old(this.times)), OrDefault(warmupTimes, old(this.warmupTimes));
        var r, tol := OrDefault(retries, old(this.retries)), OrDefault(tolerance, old(this.tolerance));
        var one := OneshotOutcome(counterOracle(old(counterReads)), counterOracle(old(counterReads) + 1), funName);
        ValidateParams(t, w, r, tol) == Ok && one != Ok ==>
          outcome == one && calls == old(calls) + 1 && counterReads == old(counterReads) + 2 && memReads == old(memReads)
      ensures var t, w := OrDefault(times, old(this.times)), OrDefault(warmupTimes, old(this.warmupTimes));
        var r, tol := OrDefault(retries, old(this.retries)), OrDefault(tolerance, old(this.tolerance));
        var one := OneshotOutcome(counterOracle(old(counterReads)), counterOracle(old(counterReads) + 1), funName);
        var ds := Rounds(memOracle, old(memReads), r);
        var n := RoundsRun(ds, tol);
        ValidateParams(t, w, r, tol) == Ok && one == Ok ==>
          && outcome == MemCheckOutcome(ds, t, r, tol)
          && calls == old(calls) + 1 + w + Batch(t, n) - t
          && counterReads == old(counterReads) + 2
          && memReads == old(memReads) + 2 * n
    {
      var t, w := OrDefault(times, this.times), OrDefault(warmupTimes, this.warmupTimes);
      var r, tol := OrDefault(retries, this.retries), OrDefault(tolerance, this.tolerance);

      if t < 1 {
        return InvalidArgument("times", t);
      }
      if w < 0 {
        return InvalidArgument("warmup_times", w);
      }
      if r < 0 {
        return InvalidArgument("retries", r);
      }
      if tol < 0 {
        return InvalidArgument("tolerance", tol);
      }

      outcome := CheckOneshot(funName);
      if outcome != Ok {
        return;
      }
      Warmup(w);
      outcome := CheckMem(t, r, tol);
    }
  }
}
