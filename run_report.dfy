/** The per-round diagnostic line of the memory check (`format_run_line`),
    kept as the integers and keys it shows; the rendering of byte counts as
    text (`b2h`) and the column padding are not modelled. */
module RunReport {
  import opened Dicts

  /** `{k: v for k, v in d.items() if v > 0}`: the entries that grew, in order. */
  function Positive(d: Dict): (r: Dict)
    ensures |r| <= |d|
  {
    if d == [] then []
    else if d[0].value > 0 then [d[0]] + Positive(d[1..])
    else Positive(d[1..])
  }

  /** `Positive` keeps exactly the entries that grew. */
  lemma {:induction false} PositiveMembers(d: Dict)
    ensures forall e :: e in Positive(d) <==> e in d && e.value > 0
  {
    if d != [] {
      PositiveMembers(d[1..]);
      assert forall e :: e in d <==> e == d[0] || e in d[1..];
    }
  }

  /** Filtering distributes over concatenation, so `Positive` keeps the
      dict's order: together with the one-entry case this pins it down. */
  lemma {:induction false} PositiveAppend(a: Dict, b: Dict)
    ensures Positive(a + b) == Positive(a) + Positive(b)
  {
    if a == [] {
      assert a + b == b;
    } else {
      assert (a + b)[0] == a[0] && (a + b)[1..] == a[1..] + b;
      PositiveAppend(a[1..], b);
      if a[0].value > 0 {
        calc {
          Positive(a + b);
          [a[0]] + Positive(a[1..] + b);
          [a[0]] + (Positive(a[1..]) + Positive(b));
          ([a[0]] + Positive(a[1..])) + Positive(b);
        }
      }
    }
  }

  /** Position of the first entry that grew, or `|d|` when none did. */
  function FirstPositive(d: Dict): (r: nat)
    ensures r <= |d|
    ensures forall j :: 0 <= j < r ==> d[j].value <= 0
    ensures r < |d| ==> d[r].value > 0
  {
    if d == [] then 0
    else if d[0].value > 0 then 0
    else 1 + FirstPositive(d[1..])
  }

  /** The first entry `Positive` keeps is the first entry of `d` that grew;
      there is one exactly when some entry grew. */
  lemma {:induction false} PositiveHead(d: Dict)
    ensures Positive(d) == [] <==> FirstPositive(d) == |d|
    ensures Positive(d) != [] ==> Positive(d)[0] == d[FirstPositive(d)]
    ensures DistinctKeys(d) && Positive(d) != [] ==>
      Get(d, Positive(d)[0].key, 0) == d[FirstPositive(d)].value
  {
    if d != [] && d[0].value <= 0 {
      PositiveHead(d[1..]);
    }
    if DistinctKeys(d) && FirstPositive(d) < |d| {
      GetAt(d, FirstPositive(d));
    }
  }

  /** Python's `a // b`: the quotient rounded towards minus infinity. */
  function FloorDiv(a: int, b: int): (q: int)
    requires b != 0
    ensures b > 0 ==> q * b <= a < q * b + b
    ensures b < 0 ==> q * b >= a > q * b + b
  {
    if b > 0 then a / b else (-a) / (-b)
  }

  /** What `format_run_line(idx, diffs, times)` shows. `avgPerCall` is
      `None` where the source prints the literal "0B". */
  datatype RunLine = RunLine(
    leadingNewline: bool,
    idx: int,
    metrics: Dict,
    calls: int,
    avgPerCall: Option<int>)

  function FormatRunLine(idx: int, diffs: Dict, times: int): RunLine
    requires times != 0
  {
    var parts := Positive(diffs);
    var avg := if parts == [] then None else Some(FloorDiv(Get(diffs, parts[0].key, 0), times));
    RunLine(idx == 1, idx, parts, times, avg)
  }

  /** The line lists exactly the metrics that grew, in order; its average
      is the first of them divided by the batch size, rounded down, and is
      absent ("0B") when nothing grew; only run 1 starts a new line. */
  lemma FormatRunLineMeaning(idx: int, diffs: Dict, times: int)
    requires times != 0
    ensures var r := FormatRunLine(idx, diffs, times);
      && r.metrics == Positive(diffs)
      && (forall e :: e in r.metrics <==> e in diffs && e.value > 0)
      && r.idx == idx && r.calls == times
      && (r.leadingNewline <==> idx == 1)
      && (r.avgPerCall.None? <==> forall i :: 0 <= i < |diffs| ==> diffs[i].value <= 0)
      && (DistinctKeys(diffs) && times > 0 && r.avgPerCall.Some? ==>
           var first := diffs[FirstPositive(diffs)].value;
           r.avgPerCall.value * times <= first < r.avgPerCall.value * times + times)
  {
    PositiveMembers(diffs);
    PositiveHead(diffs);
  }
}
