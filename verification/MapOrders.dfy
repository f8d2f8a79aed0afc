/** The order in which a Go map is visited: its keys, each once, in some order. */
module MapOrders {

  ghost predicate ListsKeys(order: seq<string>, keys: set<string>) {
    (forall k :: k in order <==> k in keys) && forall i, j | 0 <= i < j < |order| :: order[i] != order[j]
  }

  lemma {:induction false} SomeOrder(keys: set<string>) returns (order: seq<string>)
    ensures ListsKeys(order, keys)
    decreases keys
  {
    if keys == {} {
      order := [];
    } else {
      var first :| first in keys;
      var rest := SomeOrder(keys - {first});
      order := [first] + rest;
    }
  }

  /** As many places as keys. */
  lemma {:induction false} OrderLength(order: seq<string>, keys: set<string>)
    requires ListsKeys(order, keys)
    ensures |order| == |keys|
  {
    if order == [] {
      assert keys == {};
    } else {
      assert order[0] in keys;
      assert ListsKeys(order[1..], keys - {order[0]});
      OrderLength(order[1..], keys - {order[0]});
    }
  }

  lemma VisitOne(order: seq<string>, keys: set<string>, todo: set<string>, key: string)
    requires todo <= keys && key in todo && ListsKeys(order, keys - todo)
    ensures ListsKeys(order + [key], keys - (todo - {key}))
  {
  }

  lemma Concatenation(a: seq<string>, b: seq<string>, keys: set<string>, rest: set<string>)
    requires ListsKeys(a, keys) && ListsKeys(b, rest) && keys !! rest
    ensures ListsKeys(a + b, keys + rest)
  {
    forall i, j | 0 <= i < j < |a + b| ensures (a + b)[i] != (a + b)[j] {
      assert i < |a| ==> a[i] in keys;
      assert j >= |a| ==> b[j - |a|] in rest;
    }
  }
}
