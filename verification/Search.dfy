/** `binary_search` and `binary_search_by_key` of the standard library, on the column of keys. */
module Search {
  import opened Prelude

  ghost predicate StrictlyAscending(keys: seq<int>) {
    forall i, j :: 0 <= i < j < |keys| ==> keys[i] < keys[j]
  }

  /** The answers a search may give: `Ok` names a position holding the key (any one of them when
      there are several), `Err` the only position where the key could be inserted. */
  ghost predicate SearchAnswer(keys: seq<int>, key: int, r: Result<nat, nat>) {
    match r
    case Ok(i) => i < |keys| && keys[i] == key
    case Err(i) =>
      && i <= |keys|
      && (forall k :: 0 <= k < i ==> keys[k] < key)
      && (forall k :: i <= k < |keys| ==> key < keys[k])
  }

  /** Bisection of `low..high`. A match in the middle ends it, wherever further matches are. */
  function Bisect(keys: seq<int>, key: int, low: nat, high: nat): Result<nat, nat>
    requires low <= high <= |keys|
    decreases high - low
  {
    if low == high then Err(low)
    else
      var mid := low + (high - low) / 2;
      if keys[mid] == key then Ok(mid)
      else if keys[mid] < key then Bisect(keys, key, mid + 1, high)
      else Bisect(keys, key, low, mid)
  }

  method BinarySearch(keys: seq<int>, key: int) returns (r: Result<nat, nat>)
    ensures r == Bisect(keys, key, 0, |keys|)
    ensures Ascending(keys) ==> SearchAnswer(keys, key, r)
    ensures r.Ok? ==> r.value < |keys| && keys[r.value] == key
    ensures r.Err? ==> r.error <= |keys| && (r.error > 0 ==> keys[r.error - 1] < key)
  {
    var low, high := 0, |keys|;
    while low < high
      invariant 0 <= low <= high <= |keys|
      invariant Bisect(keys, key, low, high) == Bisect(keys, key, 0, |keys|)
      invariant low > 0 ==> keys[low - 1] < key
      invariant Ascending(keys) ==> forall k :: 0 <= k < low ==> keys[k] < key
      invariant Ascending(keys) ==> forall k :: high <= k < |keys| ==> key < keys[k]
    {
      var mid := low + (high - low) / 2;
      if keys[mid] == key {
        return Ok(mid);
      } else if keys[mid] < key {
        low := mid + 1;
      } else {
        high := mid;
      }
    }
    return Err(low);
  }

  /** The position of the last key not above `key`, found by walking back from the end; -1 if every key is above. */
  function LastAtOrBefore(keys: seq<int>, key: int): (i: int)
    ensures -1 <= i < |keys|
    ensures i >= 0 ==> keys[i] <= key
    ensures forall k :: i < k < |keys| ==> key < keys[k]
  {
    if keys == [] then -1
    else if keys[|keys| - 1] <= key then |keys| - 1
    else LastAtOrBefore(keys[..|keys| - 1], key)
  }

  /** On distinct sorted keys every answer of the search leads to the same row, the one the scan finds. */
  lemma AnswerIsLastAtOrBefore(keys: seq<int>, key: int, r: Result<nat, nat>)
    requires StrictlyAscending(keys) && SearchAnswer(keys, key, r)
    ensures LastAtOrBefore(keys, key) == (match r case Ok(i) => i case Err(i) => i - 1)
  {
  }
}
