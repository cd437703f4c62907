// Walking a hash map: every key once, in an order the map chooses.

module Walks {

  ghost predicate IsOrder<V>(order: seq<string>, m: map<string, V>) {
    && (forall k :: k in order <==> k in m)
    && (forall i, j | 0 <= i < j < |order| :: order[i] != order[j])
  }

  // One such order, chosen arbitrarily.
  method WalkOrder<V>(m: map<string, V>) returns (order: seq<string>)
    ensures IsOrder(order, m)
  {
    order := [];
    var left := m.Keys;
    while left != {}
      invariant left <= m.Keys
      invariant forall k :: k in order <==> k in m && k !in left
      invariant forall i, j | 0 <= i < j < |order| :: order[i] != order[j]
      decreases |left|
    {
      var k :| k in left;
      order := order + [k];
      left := left - {k};
    }
  }
}
