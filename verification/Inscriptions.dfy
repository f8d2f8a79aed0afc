/**
 courts/arcadia/prize_handler.go, the innermost loop: the inscriptions of an artifact are compared one by one, in the
 order of a Go map, up to the first that is not as expected; five right ones make the artifact count.
 */
module Inscriptions {
  import opened Wrappers
  import opened TreeData
  import opened ChainTrees
  import opened MapOrders

  const FORGED_BY := "forged by"

  function Keys(): set<string> {
    {"type", "material", "age", "weight", FORGED_BY}
  }

  type Entries = map<string, Node<Val>>

  datatype ArtifactConfig = ArtifactConfig(originAuth: Address, typ: string, material: string, age: string,
                                           weight: string, forgedBy: string)

  function Expected(cfg: ArtifactConfig, key: string): Option<string> {
    if key == "type" then Some(cfg.typ)
    else if key == "material" then Some(cfg.material)
    else if key == "age" then Some(cfg.age)
    else if key == "weight" then Some(cfg.weight)
    else if key == FORGED_BY then Some(cfg.forgedBy)
    else None
  }

  function TextAt(entries: Entries, key: string): Option<string> {
    if key in entries && entries[key].Leaf? && entries[key].value.Str? then Some(entries[key].value.text) else None
  }

  /** The maker's name has to be the one the artifact had before its transfer, too. */
  predicate Right(cfg: ArtifactConfig, origin: Entries, current: Entries, key: string) {
    Expected(cfg, key).Some? && TextAt(current, key) == Expected(cfg, key) &&
    (key == FORGED_BY ==> TextAt(origin, key) == Expected(cfg, key))
  }

  predicate AllRight(cfg: ArtifactConfig, origin: Entries, current: Entries) {
    forall key | key in Keys() :: Right(cfg, origin, current, key)
  }

  /** All five, one by one. */
  lemma AllRightIff(cfg: ArtifactConfig, origin: Entries, current: Entries)
    ensures AllRight(cfg, origin, current) <==>
            TextAt(current, "type") == Some(cfg.typ) && TextAt(current, "material") == Some(cfg.material) &&
            TextAt(current, "age") == Some(cfg.age) && TextAt(current, "weight") == Some(cfg.weight) &&
            TextAt(current, "forged by") == Some(cfg.forgedBy) && TextAt(origin, "forged by") == Some(cfg.forgedBy)
  {
    assert "type" in Keys() && "material" in Keys() && "age" in Keys() && "weight" in Keys() && FORGED_BY in Keys();
    assert "type" != "material" && "type" != "age" && "type" != "weight" && "type"[0] != FORGED_BY[0];
  }

  /** How many are counted when the map is visited in this order. */
  function CountInOrder(cfg: ArtifactConfig, origin: Entries, current: Entries, order: seq<string>): nat {
    if order == [] || !Right(cfg, origin, current, order[0]) then 0
    else 1 + CountInOrder(cfg, origin, current, order[1..])
  }

  lemma {:induction false} CountedAreRight(cfg: ArtifactConfig, origin: Entries, current: Entries, order: seq<string>)
    ensures var n := CountInOrder(cfg, origin, current, order);
            && n <= |order|
            && (forall i | 0 <= i < n :: Right(cfg, origin, current, order[i]))
            && (n < |order| ==> !Right(cfg, origin, current, order[n]))
  {
    if order != [] && Right(cfg, origin, current, order[0]) {
      CountedAreRight(cfg, origin, current, order[1..]);
    }
  }

  /** Right ones are counted up to the first that is not. */
  lemma {:induction false} CountsUpToWrong(cfg: ArtifactConfig, origin: Entries, current: Entries, right: seq<string>,
                                           rest: seq<string>)
    requires forall i | 0 <= i < |right| :: Right(cfg, origin, current, right[i])
    requires rest != [] ==> !Right(cfg, origin, current, rest[0])
    ensures CountInOrder(cfg, origin, current, right + rest) == |right|
  {
    if right == [] {
      assert right + rest == rest;
    } else {
      assert (right + rest)[1..] == right[1..] + rest;
      CountsUpToWrong(cfg, origin, current, right[1..], rest);
    }
  }

  lemma RightIsExpected(cfg: ArtifactConfig, origin: Entries, current: Entries, key: string)
    ensures Right(cfg, origin, current, key) ==> key in Keys() && key in current
  {
  }

  lemma FiveKeys()
    ensures |Keys()| == 5
  {
    assert "type" != "material" && "type"[0] != "age"[0] && "material" != "weight" && |FORGED_BY| == 9;
  }

  lemma RightKeysAreThere(cfg: ArtifactConfig, origin: Entries, current: Entries)
    requires AllRight(cfg, origin, current)
    ensures Keys() <= current.Keys
    ensures |current.Keys| <= 5 ==> current.Keys == Keys()
  {
    FiveKeys();
    forall key | key in Keys() ensures key in current.Keys {
      RightIsExpected(cfg, origin, current, key);
    }
    hide Right, Keys;
    assert current.Keys == Keys() + (current.Keys - Keys());
    assert |current.Keys| == |Keys()| + |current.Keys - Keys()|;
  }

  /** In one order, five are counted only if the five expected inscriptions are all right. */
  lemma FiveOnlyIfAllRight(cfg: ArtifactConfig, origin: Entries, current: Entries, order: seq<string>)
    requires ListsKeys(order, current.Keys) && CountInOrder(cfg, origin, current, order) == 5
    ensures AllRight(cfg, origin, current)
  {
    FiveKeys();
    hide Right, Keys, CountInOrder;
    CountedAreRight(cfg, origin, current, order);
    var counted := order[..5];
    var rights := set k | k in counted;
    OrderLength(counted, rights);
    forall k | k in rights ensures k in Keys() {
      RightIsExpected(cfg, origin, current, k);
    }
    SameSize(rights, Keys());
  }

  lemma SameSize(part: set<string>, whole: set<string>)
    requires part <= whole && |part| == |whole|
    ensures part == whole
  {
    assert whole == part + (whole - part);
    assert |whole| == |part| + |whole - part|;
  }

  /** Without further inscriptions the order does not matter. */
  lemma FiveInEveryOrder(cfg: ArtifactConfig, origin: Entries, current: Entries, order: seq<string>)
    requires ListsKeys(order, current.Keys) && AllRight(cfg, origin, current) && |current.Keys| <= 5
    ensures CountInOrder(cfg, origin, current, order) == 5
  {
    FiveKeys();
    RightKeysAreThere(cfg, origin, current);
    assert forall i | 0 <= i < |order| :: order[i] in Keys();
    CountsUpToWrong(cfg, origin, current, order, []);
    assert order + [] == order;
    OrderLength(order, Keys());
  }

  /** Visited first, an inscription that is not expected ends the count. */
  lemma UnluckyOrder(cfg: ArtifactConfig, origin: Entries, current: Entries, extra: string) returns (order: seq<string>)
    requires extra in current && extra !in Keys()
    ensures ListsKeys(order, current.Keys) && CountInOrder(cfg, origin, current, order) == 0
  {
    RightIsExpected(cfg, origin, current, extra);
    var rest := SomeOrder(current.Keys - {extra});
    order := [extra] + rest;
    hide Keys, Right;
  }

  lemma ExpectedAreRight(cfg: ArtifactConfig, origin: Entries, current: Entries, five: seq<string>, others: seq<string>)
    requires AllRight(cfg, origin, current)
    requires ListsKeys(five, Keys()) && ListsKeys(others, current.Keys - Keys())
    ensures |five| == 5 && forall i | 0 <= i < 5 :: Right(cfg, origin, current, five[i])
    ensures others != [] ==> !Right(cfg, origin, current, others[0])
  {
    FiveKeys();
    OrderLength(five, Keys());
    ListedOnly(five, Keys());
    ListedOnly(others, current.Keys - Keys());
    if others != [] {
      RightIsExpected(cfg, origin, current, others[0]);
    }
    hide Keys, Right, ListsKeys;
  }

  /** Visited after the expected ones, it does no harm. */
  lemma LuckyOrder(cfg: ArtifactConfig, origin: Entries, current: Entries) returns (order: seq<string>)
    requires AllRight(cfg, origin, current)
    ensures ListsKeys(order, current.Keys) && CountInOrder(cfg, origin, current, order) == 5
  {
    RightKeysAreThere(cfg, origin, current);
    var five := SomeOrder(Keys());
    var others := SomeOrder(current.Keys - Keys());
    ExpectedAreRight(cfg, origin, current, five, others);
    hide *;
    CountsUpToWrong(cfg, origin, current, five, others);
    Concatenation(five, others, Keys(), current.Keys - Keys());
    assert Keys() + (current.Keys - Keys()) == current.Keys;
    order := five + others;
  }

  lemma ListedOnly(order: seq<string>, keys: set<string>)
    requires ListsKeys(order, keys)
    ensures forall i | 0 <= i < |order| :: order[i] in keys
    ensures keys != {} ==> order != []
  {
    if keys != {} {
      var k :| k in keys;
      assert k in order;
    }
  }

  /**
   An artifact counts whatever the order exactly if its inscriptions are the five right ones; it can count if they are
   among them.
   */
  lemma CountsIff(cfg: ArtifactConfig, origin: Entries, current: Entries)
    ensures (forall order | ListsKeys(order, current.Keys) :: CountInOrder(cfg, origin, current, order) == 5) <==>
            AllRight(cfg, origin, current) && current.Keys == Keys()
    ensures (exists order | ListsKeys(order, current.Keys) :: CountInOrder(cfg, origin, current, order) == 5) <==>
            AllRight(cfg, origin, current)
  {
    FiveKeys();
    var order := SomeOrder(current.Keys);
    if AllRight(cfg, origin, current) {
      RightKeysAreThere(cfg, origin, current);
      var lucky := LuckyOrder(cfg, origin, current);
      if current.Keys == Keys() {
        forall any | ListsKeys(any, current.Keys) ensures CountInOrder(cfg, origin, current, any) == 5 {
          FiveInEveryOrder(cfg, origin, current, any);
        }
      } else {
        var extra :| extra in current.Keys && extra !in Keys();
        var unlucky := UnluckyOrder(cfg, origin, current, extra);
      }
    }
    forall any | ListsKeys(any, current.Keys) && CountInOrder(cfg, origin, current, any) == 5
      ensures AllRight(cfg, origin, current)
    {
      FiveOnlyIfAllRight(cfg, origin, current, any);
    }
  }

  /** The loop itself. */
  method CountCorrect(cfg: ArtifactConfig, origin: Entries, current: Entries) returns (correctInscriptions: nat)
    ensures exists order ::
              ListsKeys(order, current.Keys) && correctInscriptions == CountInOrder(cfg, origin, current, order)
  {
    hide Right, ListsKeys, CountInOrder;
    correctInscriptions := 0;
    var todo := current.Keys;
    ghost var visited: seq<string> := [];
    NothingVisited();
    assert current.Keys - todo == {};
    while todo != {}
      invariant todo <= current.Keys
      invariant ListsKeys(visited, current.Keys - todo)
      invariant correctInscriptions == |visited|
      invariant forall i | 0 <= i < |visited| :: Right(cfg, origin, current, visited[i])
      decreases todo
    {
      var key :| key in todo;
      VisitOne(visited, current.Keys, todo, key);
      todo := todo - {key};
      if !Right(cfg, origin, current, key) {
        ghost var rest := SomeOrder(todo);
        Concatenation(visited + [key], rest, current.Keys - todo, todo);
        assert visited + ([key] + rest) == (visited + [key]) + rest;
        assert (current.Keys - todo) + todo == current.Keys;
        CountsUpToWrong(cfg, origin, current, visited, [key] + rest);
        return;
      }
      visited := visited + [key];
      correctInscriptions := correctInscriptions + 1;
    }
    assert current.Keys - todo == current.Keys;
    CountsUpToWrong(cfg, origin, current, visited, []);
    assert visited + [] == visited;
  }

  lemma NothingVisited()
    ensures ListsKeys([], {})
  {
  }
}
