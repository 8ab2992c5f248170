# psleak leak verdict, modelled in Dafny

psleak's `MemoryLeakTestCase.execute(fun, ...)` decides whether calling
`fun` leaks. It does so in three steps:

1. **Parameter validation.** Arguments left as `None` take the class
   attributes: `times = 200`, `warmup_times = 10`, `retries = 5`,
   `tolerance = 0`. It then rejects `times < 1`, `warmup_times < 0`,
   `retries < 0` and `tolerance < 0`, in that order, with `ValueError`,
   before `fun` is ever called.
2. **One-shot counter check** (`_check_oneshot`). Five process counters
   are read around one call of `fun`: file descriptors, handles, Python
   threads, native threads and heap count. The first counter, in snapshot
   order, that grew raises its `UnclosedResourceError` subclass, with the
   growth as the count. A counter that went down is only logged.
3. **Warm-up and memory check** (`_check_mem`). After `warmup_times`
   extra calls, memory is measured in up to `retries` rounds. Each round
   reads the five memory metrics, calls `fun` a batch of times, and reads
   them again. Round 1 calls `fun` `times` times, and the batch doubles
   after every unstable round. A round is *stable* when every metric grew
   by at most `tolerance`, or by no more than it did in the previous round.
   The check succeeds at the first stable round. If no round is stable, it
   raises `MemoryLeakError`, whose message has one line
   (`format_run_line`) per round that grew.

The model keeps this logic and these outcomes exactly. The process is
seen only through its readings: the class holds two oracles,
`memOracle(k)` and `counterOracle(k)`, which give the k-th memory reading
and the k-th counter reading. It also counts the reads it has made and
the calls of `fun`. A memory reading is always the five-key dict that
`_get_mem` builds. A counter reading may be any dict: `_get_oneshot`
itself always returns the same five keys, but the wider type also covers
a subclass that overrides it, and this is what makes a missing counter
(`KeyError`) or an unmapped one (`ValueError`) reachable through
`execute`. The contracts therefore hold for every sequence of
readings a real process could produce.

Files and modules:

- `dicts.dfy` (`Dicts`): ordered `dict[str, int]` values, represented as
  association lists, with `get`.
- `run_report.dfy` (`RunReport`): the filter `{k: v ... if v > 0}`,
  Python's `//`, and `format_run_line` as a structured line.
- `errors.dfy` (`Errors`): the error classes and the outcome of a check.
- `stability.dfy` (`Stability`): the per-round diffs and the stability
  test. It also defines the whole retry loop as a function of the
  rounds it measures: which round stops it, how many calls it makes, and
  its transcript.
- `oneshot.dfy` (`Oneshot`): the one-shot verdict and its properties.
- `leak_test_case.dfy` (`LeakTestCase`): the `MemoryLeakTestCase` class.
  Its methods are imperative (`execute`, `_check_mem`, `_check_oneshot`,
  `_call_ntimes`, `_warmup`, the getters), each proved against the
  functions above.

The code doubles the batch after each unstable round (`times *= 2`,
psleak.py:366).

Some consequences the lemmas make explicit:

- With `retries = 0`, `_check_mem` always raises `MemoryLeakError`
  without taking a memory reading, so `execute` does whenever validation
  and the one-shot check pass (`MemCheckOkIff`).
- A larger `tolerance` never turns a stable round unstable
  (`StableToleranceMonotone`).
- Round `idx` (counted from 1, as in `Run #idx`) makes
  `times * 2^(idx-1)` calls, and `n` rounds make
  `times * (2^n - 1)` calls in total (`BatchIsPow2`, `TotalCallsClosedForm`).
- When validation passes, a failed memory check lists every round, the
  first one on a new line after the header (`LeakTranscriptComplete`),
  and each line's average is its round's first grown metric
  floor-divided by its batch (`RunLineAverage`).

## Model

| member | source | states |
|---|---|---|
| Dicts.GetMeaning | psleak.py:353-357 | `d.get(k, default)` is `default` when `k` is absent, and otherwise the value of the entry for `k` |
| RunReport.Positive | psleak.py:346 | the comprehension `{k: v for k, v in diffs.items() if v > 0}`; never longer than `diffs`, characterised by PositiveMembers, PositiveAppend and PositiveHead |
| RunReport.PositiveMembers | psleak.py:346 | `leaks` holds exactly the entries of `diffs` whose value is positive |
| RunReport.PositiveAppend | psleak.py:346 | the filter distributes over concatenation, so it keeps the dict's order |
| RunReport.PositiveHead | psleak.py:188-194 | `leaks` is empty iff no entry grew; otherwise its first key is the first grown key, and `diffs[first_key]` is that entry's value |
| RunReport.FloorDiv | psleak.py:194 | `a // b` rounds towards minus infinity, for either sign of the divisor |
| RunReport.FormatRunLine | psleak.py:188-198 | `format_run_line(idx, diffs, times)` as the data it shows: the grown metrics, run index, batch size, leading newline and average per call; characterised by FormatRunLineMeaning |
| RunReport.FormatRunLineMeaning | psleak.py:188-198 | the line shows exactly the grown metrics, in order (they are `Positive(diffs)`), the run index and the batch size; only run 1 starts on a new line; the average is absent ("0B") iff nothing grew, and is otherwise the first grown value floor-divided by the batch |
| Errors.NewUnclosedResourceError | psleak.py:122-131 | the error stores the count and the function name; its noun is the class's resource name, pluralised exactly when count > 1 |
| Stability.DictDiffs | psleak.py:337 | the comprehension `{k: mem2[k] - mem1[k] for k in mem1}`; characterised by DictDiffsMeaning and DictDiffsSameKeys |
| Stability.DictDiffsMeaning | psleak.py:337 | the diffs have the first reading's keys in its order; each value is the second reading's value minus the first's |
| Stability.DictDiffsSameKeys | psleak.py:337 | for two readings with the same distinct keys, each diff is the position-by-position difference |
| Stability.MemDiffsMeaning | psleak.py:278-293 | two `_get_mem` readings give one diff per metric (heap, mmap, uss, rss, vms), in that order |
| Stability.Stable | psleak.py:353-357 | the `all(...)` stability test, evaluated over the diffs in order; characterised by StableIff |
| Stability.StableIff | psleak.py:353-357 | a round is stable iff every metric grew by at most the tolerance or by at most its growth in the previous round |
| Stability.StableToleranceMonotone | psleak.py:353-357 | raising the tolerance keeps a stable round stable |
| Stability.FirstRoundStable | psleak.py:341-357 | with `prev = {}`, round 1 is stable iff no metric grew by more than `max(tolerance, 0)` |
| Stability.UnstableHasGrowth | psleak.py:346-357 | with tolerance >= 0, an unstable round has some positive growth, so it contributes a line |
| Stability.FirstStable | psleak.py:344-363 | the result is the least stable round; every earlier round is unstable |
| Stability.Batch | psleak.py:366 | the batch size of round `k`: `times` doubled once per earlier round, never below `times`; characterised by BatchIsPow2 |
| Stability.BatchIsPow2 | psleak.py:366 | round `k` (0-based) calls the target `times * 2^k` times |
| Stability.TotalCallsNextBatch | psleak.py:344-366 | the first `n` rounds make the next round's batch minus `times` calls |
| Stability.TotalCallsClosedForm | psleak.py:344-366 | `n` rounds make `times * (2^n - 1)` calls |
| Stability.RunLines | psleak.py:346-350 | the `messages` list: one `format_run_line` per round that grew, in round order; characterised by RunLinesSnoc, RunLinesRounds, RunLinesOrdered and RunLineAverage |
| Stability.RunLinesSnoc | psleak.py:346-350 | one more round appends its own line to the transcript iff it grew |
| Stability.AllUnstableSnoc | psleak.py:353-366 | an unstable round after unstable rounds keeps every round unstable |
| Stability.MemCheckOutcome | psleak.py:344-371 | the verdict of `_check_mem` over the rounds it would measure: success at the first stable round, else MemoryLeakError with the transcript; characterised by StopsAfter, NeverStable and MemCheckOkIff |
| Stability.StopsAfter | psleak.py:353-363 | the first stable round ends the check with success after exactly that many rounds, whatever later rounds would measure |
| Stability.NeverStable | psleak.py:344-371 | when no round is stable, all rounds run and MemoryLeakError carries the whole transcript |
| Stability.MemCheckOkIff | psleak.py:344-371 | the memory check succeeds iff some round is stable; with no rounds it always fails |
| Stability.RunLinesRounds | psleak.py:346-350 | every transcript line is `format_run_line` of a round that grew, with that round's batch size |
| Stability.RunLineAverage | psleak.py:190-194 | each transcript line's average per call is the first grown metric of its round floor-divided by that round's batch |
| Stability.RunLinesOrdered | psleak.py:344-350 | the transcript lists rounds in strictly increasing order, all within the rounds run |
| Stability.LeakTranscriptComplete | psleak.py:346-371 | with tolerance >= 0 and no stable round, the transcript has one line per round in order, the first starting on a new line |
| Oneshot.ErrorKindFor | psleak.py:312-321 | a key has an error class iff it is one of the five counters, and never the base class |
| Oneshot.CounterSnapshot | psleak.py:269-276 | a snapshot has the five counter keys, distinct and in this order |
| Oneshot.OneshotOutcome | psleak.py:300-322 | the loop over the first snapshot: the first counter that is missing afterwards or grew decides the error; characterised by OneshotFirstStop, OneshotOkIff, OneshotUnclosed and OneshotUnknown |
| Oneshot.OneshotFirstStop | psleak.py:300-322 | the verdict is decided by the first counter, in snapshot order, that is missing afterwards or grew |
| Oneshot.OneshotOkIff | psleak.py:300-322 | the check passes iff every counter is still present and none grew; decreases never fail it |
| Oneshot.OneshotUnclosed | psleak.py:311-322 | an unclosed-resource error names the first grown counter's class, with count = its growth and the function's name |
| Oneshot.OneshotUnknown | psleak.py:319-321 | ValueError is raised only for a grown counter with no error class when every earlier counter was fine |
| Oneshot.OneshotMappedOnly | psleak.py:312-322 | when all counters are present and mapped, the only possible error is an unclosed-resource error |
| Oneshot.GetterSnapshotsOnlyUnclosed | psleak.py:269-276 | with `_get_oneshot`-shaped snapshots, the check either passes or raises an unclosed-resource error |
| Oneshot.PythonThreadReportedFirst | psleak.py:269-276 | a leaked Python thread is reported as a Python thread, not a native thread, when no descriptor or handle leaked |
| LeakTestCase.Rounds | psleak.py:344-345 | there is one round of diffs per retry, none when retries <= 0 |
| LeakTestCase.RoundsPrefix | psleak.py:344-345 | the first `j` rounds of a longer run are the rounds of a run of `j` |
| LeakTestCase.RoundAt | psleak.py:344-345 | round `k` (0-based) compares memory readings `start + 2k` and `start + 2k + 1` |
| LeakTestCase.RoundsDistinctKeys | psleak.py:278-293 | every round's diffs have exactly the five `_get_mem` metrics, each once, so `diffs[first_key]` is well defined |
| LeakTestCase.StableRoundEnds | psleak.py:358-363 | a stable round after unstable ones ends the check with success after that round |
| LeakTestCase.AllRoundsUnstable | psleak.py:368-371 | when all `retries` rounds are unstable, the check fails with all their lines |
| LeakTestCase.ValidateParams | psleak.py:398-409 | validation passes iff all four ranges hold; otherwise it reports the first out-of-range parameter, in the order times, warmup_times, retries, tolerance |
| LeakTestCase.OrDefault | psleak.py:391-396 | `x if x is not None else default`; its use in Execute is stated by Execute's contract |
| LeakTestCase.MemoryLeakTestCase.constructor | psleak.py:213-219 | the defaults are times 200, retries 5, warmup_times 10 and tolerance 0; nothing has been read or called yet |
| LeakTestCase.MemoryLeakTestCase.Call | psleak.py:375-376 | one call of the target |
| LeakTestCase.MemoryLeakTestCase.GetMem | psleak.py:278-293 | returns the next memory reading as the five-key dict heap, mmap, uss, rss, vms |
| LeakTestCase.MemoryLeakTestCase.GetOneshot | psleak.py:269-276 | returns the next counter reading |
| LeakTestCase.MemoryLeakTestCase.Warmup | psleak.py:263-265 | makes `max(n, 0)` calls and nothing else |
| LeakTestCase.MemoryLeakTestCase.CallNTimes | psleak.py:324-338 | reads memory, makes `max(n, 0)` calls, reads again, and returns the diffs of those two readings |
| LeakTestCase.MemoryLeakTestCase.CheckOneshot | psleak.py:295-322 | one call between two counter readings; the outcome is the one-shot verdict of those readings |
| LeakTestCase.MemoryLeakTestCase.CheckMem | psleak.py:340-371 | the outcome is the verdict over the rounds the oracle yields; it takes two readings per round run, and makes `Batch(times, n) - times` calls for `n` rounds run |
| LeakTestCase.MemoryLeakTestCase.Execute | psleak.py:378-416 | `None` takes the class attribute. A failed range check returns its error before any call or reading. Otherwise the one-shot verdict decides if it fails, and if it passes, the memory check's verdict does, after `1 + warmup_times` calls |

## Left out

- The process itself (`psutil`, `threading`) is left out. Readings come from the two oracles, and `fun` is only counted, not run; its return value and its exceptions are not modelled.
- `_trim_mem` (garbage collection, `heap_trim`, and its assertion that `gc.garbage` is empty) is a no-op in the model.
- Logging is left out: `_log`, verbosity, the "decreased" warning, the "Memory stabilized" note and console colours produce no output in the model.
- Messages are not rendered as text. `b2h` byte formatting, column padding and the exception message templates are left out; a run line is kept as its integers and keys, and an error as its class, count, function name and noun.
- `qualname(fun)` is left out: the function name is a parameter.
- The `*args` / `functools.partial` binding in `execute` is left out.
- `setUpClass` / `tearDownClass` and the unittest machinery are left out.
- The tests exercise dict-valued tolerances, `only`/`exclude` checker selection, `trim_callback` and `execute_w_exc`. None of these is in psleak.py as modelled here, so they are not part of this model.
- Stability.DictDiffs: a second reading that lacks a key of the first would raise `KeyError` in the source; the function reads it as 0. Memory readings in the model are always the five-key dict of `_get_mem` (`MemDict`), so this case does not arise in the checks.
- RunReport.FloorDiv and RunReport.FormatRunLine require a non-zero divisor (`ZeroDivisionError` is not modelled). Every caller passes a batch size of at least 1.
- LeakTestCase.MemoryLeakTestCase.CheckMem: requires `times >= 1`, which its only caller, `execute`, checks first.
- Integers are unbounded, as in Python. Floating-point or non-integer tolerances are not modelled.
