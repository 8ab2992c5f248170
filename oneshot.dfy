/** The verdict of the one-shot counter check (`_check_oneshot`): two
    counter snapshots taken around a single call, compared key by key in
    the first snapshot's order. */
module Oneshot {
  import opened Dicts
  import opened Errors

  /** The counter-to-error mapping; `None` where `mapping.get(what)` is None. */
  function ErrorKindFor(what: string): (r: Option<ErrorKind>)
    ensures r.Some? <==> what in CounterKeys
    ensures r.Some? ==> r.value != UnclosedResource
  {
    if what == "num_fds" then Some(UnclosedFd)
    else if what == "num_handles" then Some(UnclosedHandle)
    else if what == "heap_count" then Some(UnclosedHeapCreate)
    else if what == "py_threads" then Some(UnclosedPythonThread)
    else if what == "c_threads" then Some(UnclosedNativeThread)
    else None
  }

  /** The keys of `_get_oneshot`'s dict, in its order ("order matters":
      Python threads are looked at before native threads). */
  const CounterKeys: seq<string> := ["num_fds", "num_handles", "py_threads", "c_threads", "heap_count"]

  /** A snapshot shaped as `_get_oneshot` returns it. */
  function CounterSnapshot(numFds: int, numHandles: int, pyThreads: int, cThreads: int, heapCount: int): (d: Dict)
    ensures |d| == 5 && DistinctKeys(d)
    ensures forall i :: 0 <= i < 5 ==> d[i].key == CounterKeys[i]
  {
    [Entry("num_fds", numFds), Entry("num_handles", numHandles), Entry("py_threads", pyThreads),
     Entry("c_threads", cThreads), Entry("heap_count", heapCount)]
  }

  /** `after[what] - value_before` for one entry of the first snapshot. */
  function CounterDiff(e: Entry, after: Dict): int {
    Get(after, e.key, 0) - e.value
  }

  /** The entry makes the scan stop: its key is missing afterwards, or its
      count went up. A decrease is only logged and does not stop it. */
  predicate Stops(e: Entry, after: Dict) {
    !HasKey(after, e.key) || CounterDiff(e, after) > 0
  }

  /** What stopping at `e` raises. */
  function StopOutcome(e: Entry, after: Dict, funName: string): Outcome
    requires Stops(e, after)
  {
    if !HasKey(after, e.key) then MissingCounter(e.key)
    else match ErrorKindFor(e.key)
      case None => UnknownCounter(e.key)
      case Some(kind) => Unclosed(NewUnclosedResourceError(kind, CounterDiff(e, after), funName))
  }

  /** The loop over `before.items()`: the first entry that stops decides. */
  function OneshotOutcome(before: Dict, after: Dict, funName: string): Outcome {
    if before == [] then Ok
    else if Stops(before[0], after) then StopOutcome(before[0], after, funName)
    else OneshotOutcome(before[1..], after, funName)
  }

  /** Position of the first entry that stops the scan, or `|before|`. */
  function FirstStop(before: Dict, after: Dict): (r: nat)
    ensures r <= |before|
    ensures forall j :: 0 <= j < r ==> !Stops(before[j], after)
    ensures r < |before| ==> Stops(before[r], after)
  {
    if before == [] then 0
    else if Stops(before[0], after) then 0
    else 1 + FirstStop(before[1..], after)
  }

  /** The scan's verdict is the one of its first stopping entry. */
  lemma {:induction false} OneshotFirstStop(before: Dict, after: Dict, funName: string)
    ensures var i := FirstStop(before, after);
      OneshotOutcome(before, after, funName) ==
        if i == |before| then Ok else StopOutcome(before[i], after, funName)
  {
    if before != [] && !Stops(before[0], after) {
      OneshotFirstStop(before[1..], after, funName);
    }
  }

  /** No error exactly when every counter is still present and none grew;
      counters that went down never cause an error. */
  lemma OneshotOkIff(before: Dict, after: Dict, funName: string)
    ensures OneshotOutcome(before, after, funName) == Ok <==>
      forall i :: 0 <= i < |before| ==> HasKey(after, before[i].key) && CounterDiff(before[i], after) <= 0
  {
    OneshotFirstStop(before, after, funName);
  }

  /** An unclosed-resource error comes from the first counter, in snapshot
      order, that grew; it is that counter's error class and its count is
      the growth. */
  lemma OneshotUnclosed(before: Dict, after: Dict, funName: string)
    requires OneshotOutcome(before, after, funName).Unclosed?
    ensures var e := OneshotOutcome(before, after, funName).error;
      exists i :: 0 <= i < |before| &&
        (forall j :: 0 <= j < i ==> HasKey(after, before[j].key) && CounterDiff(before[j], after) <= 0) &&
        HasKey(after, before[i].key) && CounterDiff(before[i], after) > 0 &&
        ErrorKindFor(before[i].key) == Some(e.kind) &&
        e.count == CounterDiff(before[i], after) && e.funName == funName
  {
    OneshotFirstStop(before, after, funName);
    var i := FirstStop(before, after);
    assert i < |before|;
  }

  /** A counter with no error class raises ValueError only when it grew
      and every earlier counter was fine. */
  lemma OneshotUnknown(before: Dict, after: Dict, funName: string)
    requires OneshotOutcome(before, after, funName).UnknownCounter?
    ensures exists i :: 0 <= i < |before| &&
             (forall j :: 0 <= j < i ==> !Stops(before[j], after)) &&
             before[i].key == OneshotOutcome(before, after, funName).key &&
             ErrorKindFor(before[i].key) == None && HasKey(after, before[i].key) && CounterDiff(before[i], after) > 0
  {
    OneshotFirstStop(before, after, funName);
    var i := FirstStop(before, after);
    assert i < |before|;
  }

  /** When every counter is still present and has an error class, the
      only error the scan can raise is an unclosed-resource error. */
  lemma OneshotMappedOnly(before: Dict, after: Dict, funName: string)
    requires forall i :: 0 <= i < |before| ==> HasKey(after, before[i].key) && before[i].key in CounterKeys
    ensures OneshotOutcome(before, after, funName).Ok? || OneshotOutcome(before, after, funName).Unclosed?
  {
    OneshotFirstStop(before, after, funName);
    var i := FirstStop(before, after);
    if i < |before| {
      assert ErrorKindFor(before[i].key).Some?;
    }
  }

  /** With snapshots shaped as `_get_oneshot` returns them, the only
      error the check can raise is an unclosed-resource error. */
  lemma GetterSnapshotsOnlyUnclosed(b: seq<int>, a: seq<int>, funName: string)
    requires |b| == 5 && |a| == 5
    ensures var r := OneshotOutcome(CounterSnapshot(b[0], b[1], b[2], b[3], b[4]),
                                    CounterSnapshot(a[0], a[1], a[2], a[3], a[4]), funName);
      r.Ok? || r.Unclosed?
  {
    var before := CounterSnapshot(b[0], b[1], b[2], b[3], b[4]);
    var after := CounterSnapshot(a[0], a[1], a[2], a[3], a[4]);
    forall i | 0 <= i < 5
      ensures HasKey(after, before[i].key)
    {
      assert after[i].key == before[i].key;
    }
    OneshotMappedOnly(before, after, funName);
  }

  /** A leaked Python thread also shows as a native thread; because the
      Python count is looked at first, it is reported as a Python thread
      whenever no descriptor or handle leaked. */
  lemma PythonThreadReportedFirst(b: seq<int>, a: seq<int>, funName: string)
    requires |b| == 5 && |a| == 5
    requires a[0] <= b[0] && a[1] <= b[1] && a[2] > b[2]
    ensures OneshotOutcome(CounterSnapshot(b[0], b[1], b[2], b[3], b[4]),
                           CounterSnapshot(a[0], a[1], a[2], a[3], a[4]), funName) ==
      Unclosed(NewUnclosedResourceError(UnclosedPythonThread, a[2] - b[2], funName))
  {
    var before := CounterSnapshot(b[0], b[1], b[2], b[3], b[4]);
    var after := CounterSnapshot(a[0], a[1], a[2], a[3], a[4]);
    GetAt(after, 0);
    GetAt(after, 1);
    GetAt(after, 2);
    assert !Stops(before[0], after) && !Stops(before[1], after) && Stops(before[2], after);
    OneshotFirstStop(before, after, funName);
    assert FirstStop(before, after) == 2;
  }
}
