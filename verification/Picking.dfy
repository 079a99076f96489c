/** Walking over a set, one element at a time, in no particular order. */
module Picking {

  method Listed<K>(m: set<K>) returns (ids: seq<K>)
    ensures forall id :: id in ids <==> id in m
    ensures forall i, j | 0 <= i < j < |ids| :: ids[i] != ids[j]
  {
    ids := [];
    var left := m;
    while left != {}
      invariant left <= m
      invariant forall id :: id in ids <==> id in m && id !in left
      invariant forall i, j | 0 <= i < j < |ids| :: ids[i] != ids[j]
      decreases |left|
    {
      var id :| id in left;
      ids := ids + [id];
      left := left - {id};
    }
  }

  method AnyOf<K>(m: set<K>) returns (k: K)
    requires m != {}
    ensures k in m
  {
    k :| k in m;
  }
}
