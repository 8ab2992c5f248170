/** Python's insertion-ordered `dict[str, int]`, as the leak checks use it:
    an association list whose order is the dict's iteration order. */
module Dicts {

  datatype Option<T> = None | Some(value: T)

  datatype Entry = Entry(key: string, value: int)

  type Dict = seq<Entry>

  /** A Python dict never holds the same key twice. */
  predicate DistinctKeys(d: Dict) {
    forall i, j :: 0 <= i < j < |d| ==> d[i].key != d[j].key
  }

  predicate HasKey(d: Dict, k: string) {
    exists i :: 0 <= i < |d| && d[i].key == k
  }

  /** Position of the first entry for `k`, or `|d|` when there is none. */
  function IndexOf(d: Dict, k: string): (r: nat)
    ensures r <= |d|
    ensures forall j :: 0 <= j < r ==> d[j].key != k
    ensures r < |d| ==> d[r].key == k
  {
    if d == [] then 0
    else if d[0].key == k then 0
    else 1 + IndexOf(d[1..], k)
  }

  /** `d.get(k, default)`. */
  function Get(d: Dict, k: string, default: int): int {
    var i := IndexOf(d, k);
    if i < |d| then d[i].value else default
  }

  /** `get` yields the default for a missing key, and otherwise the value
      of the first entry with that key. */
  lemma GetMeaning(d: Dict, k: string, default: int)
    ensures !HasKey(d, k) ==> Get(d, k, default) == default
    ensures forall i :: 0 <= i < |d| && d[i].key == k && (forall j :: 0 <= j < i ==> d[j].key != k) ==>
      Get(d, k, default) == d[i].value
  {
  }

  /** In a dict, the entry at position `i` is what `d[d[i].key]` returns. */
  lemma GetAt(d: Dict, i: nat)
    requires DistinctKeys(d) && i < |d|
    ensures HasKey(d, d[i].key) && Get(d, d[i].key, 0) == d[i].value
  {
    GetMeaning(d, d[i].key, 0);
  }
}
