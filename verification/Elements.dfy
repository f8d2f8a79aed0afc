/** courts/autumn/element.go: element names, the check of an element's origin, and the recipe index. */
module Elements {
  import opened Wrappers
  import opened Text
  import opened TreeData
  import opened Sorting
  import opened StringSlice
  import opened ChainTrees
  import opened History

  const ELEMENT_NAME_PREFIX := "element-"

  datatype Element = Element(id: int, description: string, skipOriginValidation: bool) {
    function Name(): string {
      ELEMENT_NAME_PREFIX + FormatInt(id, Sixteen)
    }
  }

  /** Anything that does not parse as hexadecimal counts as element zero. */
  function ElementNameToId(name: string): (id: int)
    ensures IsInt64(id)
  {
    var digits := if ELEMENT_NAME_PREFIX <= name then name[|ELEMENT_NAME_PREFIX|..] else name;
    match ParseInt(digits, Sixteen)
    case Some(id) => id
    case None => 0
  }

  /** The pair round-trips on every 64-bit id, negatives included, and on no other. */
  lemma NameRoundTrip(element: Element)
    ensures ElementNameToId(element.Name()) == element.id <==> IsInt64(element.id)
  {
    IntRoundTrip(element.id, Sixteen);
    assert element.Name()[|ELEMENT_NAME_PREFIX|..] == FormatInt(element.id, Sixteen);
  }

  /** A name that is no number in base sixteen stands for zero, with the prefix or without it. */
  lemma UnreadableNameIsZero(name: string, k: nat)
    requires k < |name| && (DigitValue(name[k]).None? || DigitValue(name[k]).value >= 16)
    requires k > 0 || (name[0] != '+' && name[0] != '-')
    ensures !(ELEMENT_NAME_PREFIX <= name) ==> ElementNameToId(name) == 0
    ensures ElementNameToId(ELEMENT_NAME_PREFIX + name) == 0
  {
    assert (ELEMENT_NAME_PREFIX + name)[|ELEMENT_NAME_PREFIX|..] == name;
    var unsigned := Unsigned(name);
    UnreadableDigit(unsigned, Sixteen, if unsigned == name then k else k - 1);
  }

  /** GetName: an error unless a text is stored at jasons-game/name. */
  function ObjectName(s: State): (name: Result<string>)
    ensures name.Ok? || name.Err?
  {
    if s.data.None? then Err("error casting name to string")
    else
      var leaf: Option<Val> := LeafAt(s.data.value, [ROOT, "name"]);
      match leaf
      case Some(Str(name)) => Ok(name)
      case _ => Err("error casting name to string")
  }

  /** What validateElementOrigin decides, in terms of the chain's history. */
  ghost function OriginVerdict(nodes: Nodes, tip: Tip, auths: seq<Address>): Result<bool>
    requires StoreOk(nodes) && tip in nodes
  {
    if ObjectName(nodes[tip].state).Err? then Err("error checking origin of element")
    else if !HasBlock(nodes, tip) then Err("error checking origin of element")
    else
      var changes := Changes(nodes, tip);
      if |changes| < 2 then Ok(false)
      else OriginOfChange(nodes, changes[|changes| - 2].tip, nodes[tip], auths)
  }

  /** The verdict given the block of the second-oldest ownership change. */
  ghost function OriginOfChange(nodes: Nodes, origin: Tip, current: TreeAt, auths: seq<Address>): Result<bool>
    requires StoreOk(nodes)
  {
    if !HasBlock(nodes, origin) then Err("error checking origin of element")
    else if !(forall a :: a in auths ==> a in nodes[Ancestor(nodes, origin, 0)].state.auths) then Ok(false)
    else
      match ObjectName(nodes[origin].state)
      case Ok(name) => Ok(ObjectName(current.state) == Ok(name))
      case _ => Err("error checking origin of element")
  }

  method VerifyOwnership(nodes: Nodes, tip: Tip, expectedAuths: seq<Address>) returns (valid: bool)
    requires tip in nodes
    ensures valid <==> forall a :: a in expectedAuths ==> a in nodes[tip].state.auths
  {
    valid := AllIncluded(expectedAuths, nodes[tip].state.auths);
  }

  method VerifyOwnershipAt(nodes: Nodes, tip: Tip, height: nat, expectedAuths: seq<Address>) returns (r: Result<bool>)
    requires StoreOk(nodes) && HasBlock(nodes, tip)
    ensures r.Ok? <==> height <= nodes[tip].Height()
    ensures r.Ok? ==>
              (r.value <==> forall a :: a in expectedAuths ==> a in nodes[Ancestor(nodes, tip, height)].state.auths)
    ensures !r.Ok? ==> r.Err?
  {
    var treeAt, _ := AtHeight(nodes, tip, height);
    if treeAt.Err? {
      return Err(treeAt.error);
    }
    var valid := VerifyOwnership(nodes, treeAt.value, expectedAuths);
    r := Ok(valid);
  }

  method ValidateElementOrigin(nodes: Nodes, tip: Tip, auths: seq<Address>) returns (r: Result<bool>)
    requires StoreOk(nodes) && tip in nodes
    ensures r == OriginVerdict(nodes, tip, auths)
  {
    hide Changes, Ancestor, Walk, ObjectName, ChangeAt, StoreOk;
    var elementName := ObjectName(nodes[tip].state);
    if elementName.Err? {
      return Err("error checking origin of element");
    }
    var changes := OwnershipChanges(nodes, tip);
    if changes.Err? {
      return Err("error checking origin of element");
    }
    if |changes.value| < 2 {
      return Ok(false);
    }
    var beforeTransfer := changes.value[|changes.value| - 2];
    ChangesExact(nodes, tip, beforeTransfer);
    var validOrigin := VerifyOwnershipAt(nodes, beforeTransfer.tip, 0, auths);
    if !validOrigin.value {
      return Ok(false);
    }
    var originName := ObjectName(nodes[beforeTransfer.tip].state);
    if originName.Err? {
      return Err("error checking origin of element");
    }
    r := Ok(elementName.value == originName.value);
  }

  /** The object had this name, or none, when it was handed over. */
  ghost predicate HandedOverAs(nodes: Nodes, tip: Tip, name: string)
    requires StoreOk(nodes) && HasBlock(nodes, tip)
  {
    exists t :: IsSecondChange(nodes, tip, t) && ObjectName(nodes[t].state) == Ok(name)
  }

  ghost predicate HandedOverNameless(nodes: Nodes, tip: Tip)
    requires StoreOk(nodes) && HasBlock(nodes, tip)
  {
    exists t :: IsSecondChange(nodes, tip, t) && ObjectName(nodes[t].state).Err?
  }

  /**
   What makes an origin valid, in terms of the chain itself: its block 0 is the expected owners', a second change of
   ownership was made, and the name is the one the object had then.
   */
  lemma OriginIff(nodes: Nodes, tip: Tip, auths: seq<Address>)
    requires StoreOk(nodes) && tip in nodes
    ensures OriginVerdict(nodes, tip, auths) == Ok(true) <==>
            HasBlock(nodes, tip) && BegunBy(nodes, tip, auths) && ObjectName(nodes[tip].state).Ok? &&
            HandedOverAs(nodes, tip, ObjectName(nodes[tip].state).value)
    ensures OriginVerdict(nodes, tip, auths) in {Ok(true), Ok(false)} || OriginVerdict(nodes, tip, auths).Err?
    ensures OriginVerdict(nodes, tip, auths).Err? <==>
            ObjectName(nodes[tip].state).Err? || !HasBlock(nodes, tip) ||
            (BegunBy(nodes, tip, auths) && HandedOverNameless(nodes, tip))
  {
    hide Changes, Walk, Ancestor, ObjectName, StoreOk, ChangeAt, IsSecondChange;
    if HasBlock(nodes, tip) {
      var changes := Changes(nodes, tip);
      if |changes| >= 2 {
        var origin := changes[|changes| - 2].tip;
        ChangesExact(nodes, tip, changes[|changes| - 2]);
        SameWayBack(nodes, tip, origin, 0);
        SecondOldestIsSecond(nodes, tip, origin);
      }
      forall t ensures IsSecondChange(nodes, tip, t) ==> |changes| >= 2 && t == changes[|changes| - 2].tip {
        SecondOldestIsSecond(nodes, tip, t);
      }
    }
  }

  /** Later blocks put changes in front of the list; its second-oldest entry stays. */
  lemma SecondOldestIsFixed(before: Nodes, after: Nodes, tip: Tip, later: Tip)
    requires StoreOk(before) && StoreOk(after) && Extends(before, after)
    requires HasBlock(before, tip) && HasBlock(after, later) && tip in Walk(after, later)
    requires |Changes(before, tip)| >= 2
    ensures |Changes(after, later)| >= 2
    ensures Changes(after, later)[|Changes(after, later)| - 2] == Changes(before, tip)[|Changes(before, tip)| - 2]
  {
    hide *;
    HistoryIsStable(before, after, tip);
    var newer := DescendantChanges(after, later, tip);
    var older := Changes(before, tip);
    assert (newer + older)[|newer + older| - 2] == older[|older| - 2];
  }

  /** The verdict on an origin block reads nothing that an extension of the store could change. */
  lemma OriginIsStable(before: Nodes, after: Nodes, origin: Tip, current: TreeAt, auths: seq<Address>)
    requires StoreOk(before) && StoreOk(after) && Extends(before, after) && HasBlock(before, origin)
    ensures OriginOfChange(after, origin, current, auths) == OriginOfChange(before, origin, current, auths)
  {
    HistoryIsStable(before, after, origin);
    var first := Ancestor(before, origin, 0);
    assert after[first] == before[first] && after[origin] == before[origin];
  }

  /**
   A valid origin is a fact about the two oldest ownership changes, so no later block can add or remove one:
   from then on the verdict is exactly whether the name is still the one at the transfer.
   */
  lemma ProvenanceIsFixed(before: Nodes, after: Nodes, tip: Tip, later: Tip, auths: seq<Address>)
    requires StoreOk(before) && StoreOk(after) && Extends(before, after)
    requires HasBlock(before, tip) && HasBlock(after, later) && tip in Walk(after, later)
    requires OriginVerdict(before, tip, auths) == Ok(true)
    requires ObjectName(after[later].state).Ok?
    ensures OriginVerdict(after, later, auths) ==
            Ok(ObjectName(after[later].state) == ObjectName(before[tip].state))
  {
    hide Changes, Ancestor, Walk, ObjectName, ChangeAt;
    SecondOldestIsFixed(before, after, tip, later);
    var older := Changes(before, tip);
    var origin := older[|older| - 2].tip;
    ChangesExact(before, tip, older[|older| - 2]);
    OriginIsStable(before, after, origin, after[later], auths);
  }

  datatype ElementCombination = ElementCombination(from: seq<int>, to: int)

  /** `fmt.Sprint` of a slice of integers. */
  function SprintInts(ints: seq<int>): string {
    "[" + Join(ItoaAll(ints), ' ') + "]"
  }

  /** The printed key loses nothing. */
  lemma SprintInjective(a: seq<int>, b: seq<int>)
    requires SprintInts(a) == SprintInts(b)
    ensures a == b
  {
    var p, q := ItoaAll(a), ItoaAll(b);
    assert SprintInts(a)[1..|SprintInts(a)| - 1] == Join(p, ' ');
    assert SprintInts(b)[1..|SprintInts(b)| - 1] == Join(q, ' ');
    assert forall text :: text in p ==> ' ' !in text;
    assert forall text :: text in q ==> ' ' !in text;
    if a != [] && b != [] {
      SplitJoin(p, ' ');
      SplitJoin(q, ' ');
      assert p == q;
      forall k | 0 <= k < |a| ensures a[k] == b[k] {
        FormatIntInjective(a[k], b[k], Ten);
      }
    } else {
      JoinEmpty(p);
      JoinEmpty(q);
    }
  }

  lemma JoinEmpty(parts: seq<string>)
    requires forall k | 0 <= k < |parts| :: parts[k] != ""
    ensures Join(parts, ' ') == "" <==> parts == []
  {
  }

  /** keyFromSlice: a copy is sorted in place and printed. */
  function KeyFromSlice(ints: seq<int>): string {
    SprintInts(SortInts(ints))
  }

  /** Two lists get the same key exactly when they are the same multiset. */
  lemma KeyIsMultiset(a: seq<int>, b: seq<int>)
    ensures KeyFromSlice(a) == KeyFromSlice(b) <==> multiset(a) == multiset(b)
  {
    SortIntsIffSameMultiset(a, b);
    if KeyFromSlice(a) == KeyFromSlice(b) {
      SprintInjective(SortInts(a), SortInts(b));
    }
  }

  /** The recipe meant: the last listed combination of exactly these ingredients. */
  function LastMatch(combinations: seq<ElementCombination>, ints: seq<int>): Option<int> {
    if combinations == [] then None
    else
      var last := combinations[|combinations| - 1];
      if multiset(last.from) == multiset(ints) then Some(last.to)
      else LastMatch(combinations[..|combinations| - 1], ints)
  }

  ghost predicate IsLastMatch(combinations: seq<ElementCombination>, ints: seq<int>, k: nat)
    requires k < |combinations|
  {
    multiset(combinations[k].from) == multiset(ints) &&
    forall j | k < j < |combinations| :: multiset(combinations[j].from) != multiset(ints)
  }

  /** It is found exactly when some combination has these ingredients, and it is then the last such one. */
  lemma {:induction false} LastMatchIsListed(combinations: seq<ElementCombination>, ints: seq<int>)
    ensures LastMatch(combinations, ints).None? ==>
              forall j | 0 <= j < |combinations| :: multiset(combinations[j].from) != multiset(ints)
    ensures forall k | 0 <= k < |combinations| ::
              IsLastMatch(combinations, ints, k) ==> LastMatch(combinations, ints) == Some(combinations[k].to)
  {
    if combinations != [] {
      var n := |combinations| - 1;
      LastMatchIsListed(combinations[..n], ints);
      forall k | 0 <= k < n && IsLastMatch(combinations, ints, k)
        ensures LastMatch(combinations, ints) == Some(combinations[k].to)
      {
        assert IsLastMatch(combinations[..n], ints, k);
      }
      forall j | 0 <= j < n && LastMatch(combinations, ints).None?
        ensures multiset(combinations[j].from) != multiset(ints)
      {
        assert combinations[..n][j] == combinations[j];
      }
    }
  }

  /** The string-keyed index of recipes. */
  class ElementCombinationMap {
    var index: map<string, int>

    /** The index answers like the combinations it was filled with, in their order. */
    ghost predicate Represents(combinations: seq<ElementCombination>)
      reads this
    {
      forall ints: seq<int> ::
        LastMatch(combinations, ints) ==
        if KeyFromSlice(ints) in index then Some(index[KeyFromSlice(ints)]) else None
    }

    constructor ()
      ensures index == map[] && Represents([])
    {
      index := map[];
    }

    method Fill(combinations: seq<ElementCombination>)
      requires Represents([])
      modifies this
      ensures Represents(combinations)
    {
      for i := 0 to |combinations|
        invariant Represents(combinations[..i])
      {
        var key := KeyFromSlice(combinations[i].from);
        index := index[key := combinations[i].to];
        forall ints: seq<int>
          ensures LastMatch(combinations[..i + 1], ints) ==
                  if KeyFromSlice(ints) in index then Some(index[KeyFromSlice(ints)]) else None
        {
          KeyIsMultiset(combinations[i].from, ints);
          assert combinations[..i + 1][..i] == combinations[..i];
        }
      }
      assert combinations[..|combinations|] == combinations;
    }

    method Find(ints: seq<int>, ghost combinations: seq<ElementCombination>) returns (found: Option<int>)
      requires Represents(combinations)
      ensures found == LastMatch(combinations, ints)
    {
      var key := KeyFromSlice(ints);
      found := if key in index then Some(index[key]) else None;
    }
  }

  /** The answer does not depend on the order of the ingredients. */
  lemma {:induction false} LastMatchOrderFree(combinations: seq<ElementCombination>, a: seq<int>, b: seq<int>)
    requires multiset(a) == multiset(b)
    ensures LastMatch(combinations, a) == LastMatch(combinations, b)
  {
    if combinations != [] {
      LastMatchOrderFree(combinations[..|combinations| - 1], a, b);
    }
  }
}
