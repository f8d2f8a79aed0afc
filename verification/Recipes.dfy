/**
 courts/autumn/element_combiner_handler.go: what a bowl of elements is worth, whatever the order they are listed in.
 */
module Recipes {
  import opened Wrappers
  import opened Text
  import opened Elements
  import opened MapOrders

  datatype Verdict = TooFew(required: nat) | NoCombination | Blocked | Issue(element: Element)

  /** The court's elements by id, its recipes in order, and the size of the smallest recipe. */
  datatype Book = Book(elements: map<int, Element>, combinations: seq<ElementCombination>, minRequired: nat)

  ghost predicate BookOk(book: Book) {
    (forall id | id in book.elements :: book.elements[id].id == id) &&
    (forall c | c in book.combinations :: book.minRequired <= |c.from|)
  }

  function Ids(names: seq<string>): (ids: seq<int>)
    ensures |ids| == |names|
    ensures forall k | 0 <= k < |names| :: ids[k] == ElementNameToId(names[k])
  {
    if names == [] then [] else [ElementNameToId(names[0])] + Ids(names[1..])
  }

  function FindCombinedElement(book: Book, ids: seq<int>): Option<Element> {
    match LastMatch(book.combinations, ids)
    case Some(id) => if id in book.elements then Some(book.elements[id]) else None
    case None => None
  }

  /** The answer to a list of ids, as the handler works it out. */
  function VerdictOn(book: Book, ids: seq<int>): Verdict {
    if |ids| < book.minRequired then TooFew(book.minRequired)
    else
      match FindCombinedElement(book, ids)
      case None => NoCombination
      case Some(element) => if element.id == -1 then Blocked else Issue(element)
  }

  ghost function NamesFor(keys: set<string>, id: int): set<string> {
    set k | k in keys && ElementNameToId(k) == id
  }

  /** How often an id occurs is a matter of the set. */
  lemma {:induction false} CountIds(order: seq<string>, keys: set<string>, id: int)
    requires ListsKeys(order, keys)
    ensures multiset(Ids(order))[id] == |NamesFor(keys, id)|
    decreases |order|
  {
    hide ElementNameToId;
    if order == [] {
      assert NamesFor(keys, id) == {};
    } else {
      var first, rest := order[0], keys - {order[0]};
      assert order == [first] + order[1..];
      assert ListsKeys(order[1..], rest);
      CountIds(order[1..], rest, id);
      if ElementNameToId(first) == id {
        assert NamesFor(keys, id) == NamesFor(rest, id) + {first};
      } else {
        assert NamesFor(keys, id) == NamesFor(rest, id);
      }
    }
  }

  lemma IdsOrderFree(keys: set<string>, a: seq<string>, b: seq<string>)
    requires ListsKeys(a, keys) && ListsKeys(b, keys)
    ensures multiset(Ids(a)) == multiset(Ids(b))
  {
    hide *;
    forall id ensures multiset(Ids(a))[id] == multiset(Ids(b))[id] {
      CountIds(a, keys, id);
      CountIds(b, keys, id);
    }
  }

  /** The verdict on a bowl depends on the set of names in it only, not on the order a map lists them in. */
  lemma VerdictOrderFree(book: Book, keys: set<string>, a: seq<string>, b: seq<string>)
    requires ListsKeys(a, keys) && ListsKeys(b, keys)
    ensures VerdictOn(book, Ids(a)) == VerdictOn(book, Ids(b))
  {
    hide LastMatch, ListsKeys, Ids;
    IdsOrderFree(keys, a, b);
    assert |Ids(a)| == |multiset(Ids(a))| == |multiset(Ids(b))| == |Ids(b)|;
    LastMatchOrderFree(book.combinations, Ids(a), Ids(b));
  }

  /** The key an element's name gets in the bowl: a slash would nest what follows it. */
  function KeyFor(name: string): string {
    Split(name, '/')[0]
  }

  /** What is in the bowl after these offerings. */
  function KeysAfter(names: seq<string>): (keys: set<string>)
    ensures forall k :: k in keys <==> exists i :: 0 <= i < |names| && KeyFor(names[i]) == k
  {
    if names == [] then {} else KeysAfter(names[..|names| - 1]) + {KeyFor(names[|names| - 1])}
  }

  /** Offerings of the same names, in whatever order and however often, come to the same verdict. */
  lemma OffersOrderFree(book: Book, a: seq<string>, b: seq<string>, listedA: seq<string>, listedB: seq<string>)
    requires forall name :: name in a <==> name in b
    requires ListsKeys(listedA, KeysAfter(a)) && ListsKeys(listedB, KeysAfter(b))
    ensures VerdictOn(book, Ids(listedA)) == VerdictOn(book, Ids(listedB))
  {
    hide KeyFor, Ids, ListsKeys, VerdictOn;
    forall k ensures k in KeysAfter(a) <==> k in KeysAfter(b) {
      if k in KeysAfter(a) {
        var i :| 0 <= i < |a| && KeyFor(a[i]) == k;
        assert a[i] in b;
      }
      if k in KeysAfter(b) {
        var i :| 0 <= i < |b| && KeyFor(b[i]) == k;
        assert b[i] in a;
      }
    }
    assert KeysAfter(a) == KeysAfter(b);
    VerdictOrderFree(book, KeysAfter(a), listedA, listedB);
  }

  function NamesOf(elements: seq<Element>): (names: seq<string>)
    ensures |names| == |elements|
    ensures forall k | 0 <= k < |elements| :: names[k] == elements[k].Name()
  {
    if elements == [] then [] else [elements[0].Name()] + NamesOf(elements[1..])
  }

  /** An element's own name is its key, and stands for its id. */
  lemma ElementKey(element: Element)
    requires IsInt64(element.id)
    ensures KeyFor(element.Name()) == element.Name() && ElementNameToId(element.Name()) == element.id
    ensures "" !in Split(element.Name(), '/')
  {
    NameRoundTrip(element);
    assert '/' !in element.Name();
    SplitWhole(element.Name(), '/');
  }

  lemma OwnKeys(names: seq<string>)
    requires forall k | 0 <= k < |names| :: KeyFor(names[k]) == names[k]
    requires forall i, j | 0 <= i < j < |names| :: names[i] != names[j]
    ensures ListsKeys(names, KeysAfter(names))
  {
    hide KeyFor;
    forall k ensures k in names <==> k in KeysAfter(names) {
      if k in names {
        var i :| 0 <= i < |names| && names[i] == k;
        assert KeyFor(names[i]) == k;
      }
    }
  }

  lemma DistinctNames(elements: seq<Element>)
    requires forall k | 0 <= k < |elements| :: IsInt64(elements[k].id)
    requires forall i, j | 0 <= i < j < |elements| :: elements[i].id != elements[j].id
    ensures forall k | 0 <= k < |elements| :: Ids(NamesOf(elements))[k] == elements[k].id
    ensures ListsKeys(NamesOf(elements), KeysAfter(NamesOf(elements)))
  {
    var names := NamesOf(elements);
    forall k | 0 <= k < |elements| ensures KeyFor(names[k]) == names[k] && ElementNameToId(names[k]) == elements[k].id {
      ElementKey(elements[k]);
    }
    hide KeyFor, ElementNameToId, Element.Name, KeysAfter, ListsKeys, NamesOf, Ids;
    forall i, j | 0 <= i < j < |names| ensures names[i] != names[j] {
      assert ElementNameToId(names[i]) != ElementNameToId(names[j]);
    }
    OwnKeys(names);
  }

  /** Different elements offered one after another are judged by exactly their ids, negative ones included. */
  lemma OfferedElements(book: Book, elements: seq<Element>, listed: seq<string>)
    requires forall k | 0 <= k < |elements| :: IsInt64(elements[k].id)
    requires forall i, j | 0 <= i < j < |elements| :: elements[i].id != elements[j].id
    requires ListsKeys(listed, KeysAfter(NamesOf(elements)))
    ensures VerdictOn(book, Ids(listed)) == VerdictOn(book, Ids(NamesOf(elements)))
    ensures forall k | 0 <= k < |elements| :: Ids(NamesOf(elements))[k] == elements[k].id
  {
    DistinctNames(elements);
    hide *;
    VerdictOrderFree(book, KeysAfter(NamesOf(elements)), listed, NamesOf(elements));
  }

  /** The size check only chooses the words: what it turns away matches no recipe. */
  lemma {:induction false} TooFewMatchNothing(combinations: seq<ElementCombination>, minRequired: nat, ids: seq<int>)
    requires forall c | c in combinations :: minRequired <= |c.from|
    requires |ids| < minRequired
    ensures LastMatch(combinations, ids).None?
  {
    if combinations != [] {
      var last := combinations[|combinations| - 1];
      assert last in combinations;
      assert |multiset(last.from)| == |last.from| && |multiset(ids)| == |ids|;
      TooFewMatchNothing(combinations[..|combinations| - 1], minRequired, ids);
    }
  }

  /** A verdict in terms of the recipes: an element is issued exactly when the last recipe for these ids makes it. */
  lemma IssueIff(book: Book, ids: seq<int>, element: Element)
    requires BookOk(book)
    ensures VerdictOn(book, ids) == Issue(element) <==>
            element.id != -1 && LastMatch(book.combinations, ids) == Some(element.id) &&
            element.id in book.elements && book.elements[element.id] == element
  {
    if |ids| < book.minRequired {
      TooFewMatchNothing(book.combinations, book.minRequired, ids);
    }
  }

  /**
   Each verdict in terms of the bowl's size, the last recipe for its ids and the known elements. TooFew is the one that
   keeps the bowl, so it must not be taken for a failed combination.
   */
  lemma VerdictIff(book: Book, ids: seq<int>)
    ensures var match_ := LastMatch(book.combinations, ids);
            && (VerdictOn(book, ids).TooFew? <==> |ids| < book.minRequired)
            && (|ids| < book.minRequired ==> VerdictOn(book, ids) == TooFew(book.minRequired))
            && (VerdictOn(book, ids).NoCombination? <==>
                  |ids| >= book.minRequired && (match_.None? || match_.value !in book.elements))
            && (VerdictOn(book, ids).Blocked? <==>
                  |ids| >= book.minRequired && match_.Some? && match_.value in book.elements &&
                  book.elements[match_.value].id == -1)
  {
  }

  /** The smallest recipe, as the constructor's loop finds it. */
  method SmallestRecipe(combinations: seq<ElementCombination>) returns (minRequired: nat)
    requires combinations != []
    ensures forall c | c in combinations :: minRequired <= |c.from|
    ensures exists c :: c in combinations && minRequired == |c.from|
  {
    minRequired := |combinations[0].from|;
    ghost var k := 0;
    for i := 0 to |combinations|
      invariant 0 <= k < |combinations| && minRequired == |combinations[k].from|
      invariant forall j | 0 <= j < i :: minRequired <= |combinations[j].from|
    {
      if |combinations[i].from| < minRequired {
        minRequired := |combinations[i].from|;
        k := i;
      }
    }
  }

  predicate IsLastWithId(elements: seq<Element>, k: int) {
    0 <= k < |elements| && forall j | k < j < |elements| :: elements[j].id != elements[k].id
  }

  /** The elements by id; of two with the same id the later one stays. */
  method ElementsById(elements: seq<Element>) returns (byId: map<int, Element>)
    ensures forall id :: id in byId <==> exists k :: 0 <= k < |elements| && elements[k].id == id
    ensures forall id | id in byId :: byId[id].id == id && byId[id] in elements
    ensures forall k | IsLastWithId(elements, k) :: elements[k].id in byId && byId[elements[k].id] == elements[k]
  {
    byId := map[];
    for i := 0 to |elements|
      invariant forall id :: id in byId <==> exists k :: 0 <= k < i && elements[k].id == id
      invariant forall id | id in byId :: byId[id].id == id && byId[id] in elements
      invariant forall k | 0 <= k < i && (forall j | k < j < i :: elements[j].id != elements[k].id) ::
                  byId[elements[k].id] == elements[k]
    {
      byId := byId[elements[i].id := elements[i]];
    }
  }
}
