/** What every interning table keeps: an append-only column of keys and a map giving each key its row. */
module Interning {

  /** The map and the column describe the same one-to-one numbering. */
  ghost predicate Numbered<K>(rows: seq<K>, index: map<K, nat>) {
    && (forall k :: k in index ==> index[k] < |rows| && rows[index[k]] == k)
    && (forall i :: 0 <= i < |rows| ==> rows[i] in index && index[rows[i]] == i)
  }

  lemma AppendNumbered<K>(rows: seq<K>, index: map<K, nat>, key: K)
    requires Numbered(rows, index) && key !in index
    ensures Numbered(rows + [key], index[key := |rows|])
  {
    var rows' := rows + [key];
    forall i | 0 <= i < |rows'|
      ensures rows'[i] in index[key := |rows|] && index[key := |rows|][rows'[i]] == i
    {
      if i < |rows| {
        assert rows'[i] == rows[i];
      }
    }
  }

  /** Two rows of a numbered column are equal only if they are the same row. */
  lemma RowsDiffer<K>(rows: seq<K>, index: map<K, nat>, i: nat, j: nat)
    requires Numbered(rows, index) && i < |rows| && j < |rows| && rows[i] == rows[j]
    ensures i == j
  {
    assert index[rows[i]] == i && index[rows[j]] == j;
  }
}
