/** Backward walks over a chain tree's blocks: the tree at a height, and its ownership changes. */
module History {
  import opened Wrappers
  import opened Sorting
  import opened ChainTrees

  datatype OwnershipChange = OwnershipChange(tip: Tip, authentications: seq<Address>, height: nat)

  predicate HasBlock(nodes: Nodes, tip: Tip) {
    tip in nodes && nodes[tip].end.Some?
  }

  function EndBlock(nodes: Nodes, tip: Tip): Block
    requires HasBlock(nodes, tip)
  {
    nodes[tip].end.value
  }

  lemma PreviousIsBelow(nodes: Nodes, tip: Tip)
    requires StoreOk(nodes) && HasBlock(nodes, tip)
    ensures match EndBlock(nodes, tip).previousTip
            case None => nodes[tip].Height() == 0
            case Some(p) =>
              HasBlock(nodes, p) && nodes[p].did == nodes[tip].did && nodes[tip].Height() == nodes[p].Height() + 1
  {
    assert NodeOk(nodes, tip);
  }

  /** All blocks of the chain, newest first. */
  ghost function Walk(nodes: Nodes, tip: Tip): (walk: seq<Tip>)
    requires StoreOk(nodes) && HasBlock(nodes, tip)
    ensures forall t :: t in walk ==> HasBlock(nodes, t)
    decreases nodes[tip].Height()
  {
    PreviousIsBelow(nodes, tip);
    var previous := EndBlock(nodes, tip).previousTip;
    [tip] + if previous.None? then [] else Walk(nodes, previous.value)
  }

  /** The block of a given height: heights fall by one at each step back. */
  ghost function Ancestor(nodes: Nodes, tip: Tip, height: nat): (t: Tip)
    requires StoreOk(nodes) && HasBlock(nodes, tip) && height <= nodes[tip].Height()
    ensures HasBlock(nodes, t) && nodes[t].Height() == height
    decreases nodes[tip].Height()
  {
    PreviousIsBelow(nodes, tip);
    if nodes[tip].Height() == height then tip else Ancestor(nodes, EndBlock(nodes, tip).previousTip.value, height)
  }

  /** It is on the chain, and the only block of the chain at that height. */
  lemma {:induction false} AncestorUnique(nodes: Nodes, tip: Tip, t: Tip)
    requires StoreOk(nodes) && HasBlock(nodes, tip)
    ensures t in Walk(nodes, tip) <==>
            HasBlock(nodes, t) && nodes[t].Height() <= nodes[tip].Height() &&
            t == Ancestor(nodes, tip, nodes[t].Height())
    decreases nodes[tip].Height()
  {
    PreviousIsBelow(nodes, tip);
    var previous := EndBlock(nodes, tip).previousTip;
    if previous.Some? {
      AncestorUnique(nodes, previous.value, t);
      assert t in Walk(nodes, tip) <==> t == tip || t in Walk(nodes, previous.value);
    }
  }

  /** The loop of AtHeight. rounds counts its iterations. */
  method AtHeight(nodes: Nodes, tip: Tip, height: nat) returns (r: Result<Tip>, rounds: nat)
    requires StoreOk(nodes)
    ensures r.Ok? <==> tip in nodes && height <= nodes[tip].Height()
    ensures r.Ok? ==> r.value == if HasBlock(nodes, tip) then Ancestor(nodes, tip, height) else tip
    ensures !r.Ok? ==> r.Err? && rounds <= 1
    ensures r.Ok? ==> rounds == nodes[tip].Height() - height + 1
  {
    rounds := 0;
    if tip !in nodes {
      return Err("node not found"), rounds;
    }
    var current := Some(tip);
    while current.Some?
      invariant rounds > 0 ==> HasBlock(nodes, tip) && height < nodes[tip].Height()
      invariant rounds == 0 ==> current == Some(tip)
      invariant rounds > 0 ==>
                  current.Some? && HasBlock(nodes, current.value) && height <= nodes[current.value].Height() &&
                  nodes[current.value].Height() + rounds == nodes[tip].Height() &&
                  Ancestor(nodes, tip, height) == Ancestor(nodes, current.value, height)
      decreases nodes[tip].Height() - rounds
    {
      var at := nodes[current.value];
      rounds := rounds + 1;
      if height == at.Height() {
        return Ok(current.value), rounds;
      }
      if height > at.Height() {
        return Err("height is out of range"), rounds;
      }
      PreviousIsBelow(nodes, current.value);
      if at.end.None? || at.end.value.previousTip.None? {
        break;
      }
      current := at.end.value.previousTip;
    }
    assert false;
    r := Err("height not found");
  }

  function ChangeAt(nodes: Nodes, tip: Tip): OwnershipChange
    requires HasBlock(nodes, tip)
  {
    OwnershipChange(tip, SortStrings(nodes[tip].state.auths), nodes[tip].Height())
  }

  /** What OwnershipChanges lists, newest to oldest. */
  ghost function Changes(nodes: Nodes, tip: Tip): seq<OwnershipChange>
    requires StoreOk(nodes) && HasBlock(nodes, tip)
    decreases nodes[tip].Height()
  {
    PreviousIsBelow(nodes, tip);
    var block := EndBlock(nodes, tip);
    OwnChange(nodes, tip) + if block.previousTip.None? then [] else Changes(nodes, block.previousTip.value)
  }

  /** The change a block makes, if it holds an ownership transaction. */
  function OwnChange(nodes: Nodes, tip: Tip): seq<OwnershipChange>
    requires HasBlock(nodes, tip)
  {
    if HasSetOwnership(EndBlock(nodes, tip).transactions) then [ChangeAt(nodes, tip)] else []
  }

  ghost function ChangesFrom(nodes: Nodes, current: Option<Tip>): seq<OwnershipChange>
    requires StoreOk(nodes) && (current.Some? ==> HasBlock(nodes, current.value))
  {
    if current.None? then [] else Changes(nodes, current.value)
  }

  lemma ChangesStep(nodes: Nodes, tip: Tip)
    requires StoreOk(nodes) && HasBlock(nodes, tip)
    ensures var previous := EndBlock(nodes, tip).previousTip;
            (previous.Some? ==>
                HasBlock(nodes, previous.value) && nodes[previous.value].Height() < nodes[tip].Height()) &&
            Changes(nodes, tip) == OwnChange(nodes, tip) + ChangesFrom(nodes, previous)
  {
    PreviousIsBelow(nodes, tip);
  }

  lemma Regroup<T>(a: seq<T>, b: seq<T>, c: seq<T>)
    ensures a + (b + c) == (a + b) + c
  {
  }

  /** The inner loop of OwnershipChanges. */
  method ScanForSetOwnership(txs: seq<Transaction>) returns (found: bool)
    ensures found <==> HasSetOwnership(txs)
  {
    found := false;
    for i := 0 to |txs|
      invariant found <==> exists k | 0 <= k < i :: txs[k].SetOwnership?
    {
      if txs[i].SetOwnership? {
        found := true;
      }
    }
  }

  /** The outer loop of OwnershipChanges. A tree without blocks has no transaction array to read. */
  method OwnershipChanges(nodes: Nodes, tip: Tip) returns (r: Result<seq<OwnershipChange>>)
    requires StoreOk(nodes)
    ensures r.Ok? <==> HasBlock(nodes, tip)
    ensures !r.Ok? ==> r.Err?
    ensures r.Ok? ==> r.value == Changes(nodes, tip)
  {
    if tip !in nodes {
      return Err("node not found");
    }
    if nodes[tip].end.None? {
      return Err("block transactions is not an array");
    }
    var changes := [];
    var current := Some(tip);
    while current.Some?
      invariant current.Some? ==> HasBlock(nodes, current.value)
      invariant Changes(nodes, tip) == changes + ChangesFrom(nodes, current)
      decreases if current.Some? then nodes[current.value].Height() + 1 else 0
    {
      var here := current.value;
      var at := nodes[here];
      var hasSetOwnership := ScanForSetOwnership(at.end.value.transactions);
      ghost var own := OwnChange(nodes, current.value);
      ChangesStep(nodes, current.value);
      current := at.end.value.previousTip;
      Regroup(changes, own, ChangesFrom(nodes, current));
      if hasSetOwnership {
        changes := changes + [OwnershipChange(here, SortStrings(at.state.auths), at.Height())];
      } else {
        assert changes + own == changes;
      }
    }
    r := Ok(changes);
  }

  /** The list holds exactly the blocks of the chain with an ownership transaction, with the owners after them. */
  lemma {:induction false} ChangesExact(nodes: Nodes, tip: Tip, c: OwnershipChange)
    requires StoreOk(nodes) && HasBlock(nodes, tip)
    ensures c in Changes(nodes, tip) <==>
            c.tip in Walk(nodes, tip) && HasSetOwnership(EndBlock(nodes, c.tip).transactions) &&
            c == ChangeAt(nodes, c.tip)
    decreases nodes[tip].Height()
  {
    PreviousIsBelow(nodes, tip);
    var previous := EndBlock(nodes, tip).previousTip;
    if previous.Some? {
      ChangesExact(nodes, previous.value, c);
      assert c.tip in Walk(nodes, tip) <==> c.tip == tip || c.tip in Walk(nodes, previous.value);
    }
    assert c in OwnChange(nodes, tip) ==> c.tip == tip;
  }

  /** Each height is below the one before it, and the first is at most the given one. */
  predicate DescendsFrom(changes: seq<OwnershipChange>, height: int) {
    changes == [] || (changes[0].height <= height && DescendsFrom(changes[1..], changes[0].height - 1))
  }

  /** Newest first: heights strictly decrease along the list. */
  lemma {:induction false} ChangesDescend(nodes: Nodes, tip: Tip)
    requires StoreOk(nodes) && HasBlock(nodes, tip)
    ensures DescendsFrom(Changes(nodes, tip), nodes[tip].Height())
    decreases nodes[tip].Height()
  {
    hide Walk, HasSetOwnership, NodeOk;
    PreviousIsBelow(nodes, tip);
    ChangesStep(nodes, tip);
    var previous := EndBlock(nodes, tip).previousTip;
    var rest := ChangesFrom(nodes, previous);
    if previous.Some? {
      ChangesDescend(nodes, previous.value);
    }
    if HasSetOwnership(EndBlock(nodes, tip).transactions) {
      assert Changes(nodes, tip)[1..] == rest;
    } else {
      assert Changes(nodes, tip) == rest;
    }
  }

  /** The newest listed change at a height or below it. */
  function NewestUpTo(changes: seq<OwnershipChange>, height: nat): Option<OwnershipChange> {
    if changes == [] then None
    else if changes[0].height <= height then Some(changes[0])
    else NewestUpTo(changes[1..], height)
  }

  /**
   The two walks agree: the owners at any height are those of the newest change up to it,
   and the tree's own key where no change has happened yet.
   */
  lemma {:induction false} OwnersAtHeight(nodes: Nodes, tip: Tip, height: nat)
    requires StoreOk(nodes) && HasBlock(nodes, tip) && height <= nodes[tip].Height()
    ensures multiset(nodes[Ancestor(nodes, tip, height)].state.auths) ==
            match NewestUpTo(Changes(nodes, tip), height)
            case Some(change) => multiset(change.authentications)
            case None => multiset(GenesisState(nodes[tip].did).auths)
    decreases nodes[tip].Height()
  {
    PreviousIsBelow(nodes, tip);
    ChangesStep(nodes, tip);
    var block := EndBlock(nodes, tip);
    var changes := Changes(nodes, tip);
    if HasSetOwnership(block.transactions) {
      assert changes[0] == ChangeAt(nodes, tip);
      assert changes[1..] == ChangesFrom(nodes, block.previousTip);
    } else {
      assert NodeOk(nodes, tip);
      DataBlockKeepsAuths(StateBefore(nodes, nodes[tip].did, block), block.transactions);
      assert changes == ChangesFrom(nodes, block.previousTip);
    }
    if block.previousTip.Some? {
      var below := block.previousTip.value;
      if height < nodes[tip].Height() {
        OwnersAtHeight(nodes, below, height);
      } else if !HasSetOwnership(block.transactions) {
        OwnersAtHeight(nodes, below, height - 1);
        AllBelow(nodes, below, height);
      }
    }
  }

  /** Raising the height over the chain's own height selects nothing new. */
  lemma AllBelow(nodes: Nodes, tip: Tip, height: nat)
    requires StoreOk(nodes) && HasBlock(nodes, tip) && nodes[tip].Height() <= height
    ensures NewestUpTo(Changes(nodes, tip), height) == NewestUpTo(Changes(nodes, tip), nodes[tip].Height())
  {
    ChangesDescend(nodes, tip);
  }

  /** From every block of a chain the way back leads to the same blocks. */
  lemma {:induction false} SameWayBack(nodes: Nodes, tip: Tip, t: Tip, height: nat)
    requires StoreOk(nodes) && HasBlock(nodes, tip) && t in Walk(nodes, tip) && height <= nodes[t].Height()
    ensures height <= nodes[tip].Height() && Ancestor(nodes, t, height) == Ancestor(nodes, tip, height)
    decreases nodes[tip].Height()
  {
    PreviousIsBelow(nodes, tip);
    AncestorUnique(nodes, tip, t);
    var previous := EndBlock(nodes, tip).previousTip;
    if t != tip {
      assert t in Walk(nodes, previous.value);
      SameWayBack(nodes, previous.value, t, height);
    }
  }

  /** Old chains read the same in an extended store. */
  lemma {:induction false} HistoryIsStable(before: Nodes, after: Nodes, tip: Tip)
    requires StoreOk(before) && StoreOk(after) && Extends(before, after) && HasBlock(before, tip)
    ensures HasBlock(after, tip)
    ensures Walk(after, tip) == Walk(before, tip) && Changes(after, tip) == Changes(before, tip)
    ensures forall h | 0 <= h <= before[tip].Height() :: Ancestor(after, tip, h) == Ancestor(before, tip, h)
    decreases before[tip].Height()
  {
    PreviousIsBelow(before, tip);
    var previous := EndBlock(before, tip).previousTip;
    if previous.Some? {
      HistoryIsStable(before, after, previous.value);
    }
  }

  /** A chain's list of changes only ever grows at its newest end. */
  lemma {:induction false} DescendantChanges(nodes: Nodes, tip: Tip, ancestor: Tip)
    returns (newer: seq<OwnershipChange>)
    requires StoreOk(nodes) && HasBlock(nodes, tip) && ancestor in Walk(nodes, tip)
    ensures Changes(nodes, tip) == newer + Changes(nodes, ancestor)
    decreases nodes[tip].Height()
  {
    if tip == ancestor {
      newer := [];
    } else {
      ChangesStep(nodes, tip);
      var previous := EndBlock(nodes, tip).previousTip;
      var rest := DescendantChanges(nodes, previous.value, ancestor);
      newer := OwnChange(nodes, tip) + rest;
      Regroup(OwnChange(nodes, tip), rest, Changes(nodes, ancestor));
    }
  }

  /** A block of the chain that changes ownership. */
  ghost predicate IsChange(nodes: Nodes, tip: Tip, t: Tip)
    requires StoreOk(nodes) && HasBlock(nodes, tip)
  {
    t in Walk(nodes, tip) && HasSetOwnership(EndBlock(nodes, t).transactions)
  }

  /** The block changes ownership and exactly one block below it has done so: that is the tree as it was handed over. */
  ghost predicate IsSecondChange(nodes: Nodes, tip: Tip, t: Tip)
    requires StoreOk(nodes) && HasBlock(nodes, tip)
  {
    IsChange(nodes, tip, t) &&
    exists first ::
      IsChange(nodes, tip, first) && nodes[first].Height() < nodes[t].Height() &&
      forall u | IsChange(nodes, tip, u) && nodes[u].Height() < nodes[t].Height() :: u == first
  }

  /** Block 0 of the chain belongs to all of these. */
  ghost predicate BegunBy(nodes: Nodes, tip: Tip, auths: seq<Address>)
    requires StoreOk(nodes) && HasBlock(nodes, tip)
  {
    forall a :: a in auths ==> a in nodes[Ancestor(nodes, tip, 0)].state.auths
  }

  ghost function ChangeTips(nodes: Nodes, tip: Tip): (tips: seq<Tip>)
    requires StoreOk(nodes) && HasBlock(nodes, tip)
    ensures |tips| == |Changes(nodes, tip)| && forall k | 0 <= k < |tips| :: tips[k] == Changes(nodes, tip)[k].tip
  {
    seq(|Changes(nodes, tip)|, k requires 0 <= k < |Changes(nodes, tip)| => Changes(nodes, tip)[k].tip)
  }

  /** The listed blocks are the changes of the chain, the newest first. */
  lemma ListedChanges(nodes: Nodes, tip: Tip)
    requires StoreOk(nodes) && HasBlock(nodes, tip)
    ensures forall t :: t in ChangeTips(nodes, tip) <==> IsChange(nodes, tip, t)
    ensures NewestFirst(nodes, ChangeTips(nodes, tip))
  {
    hide Changes, ChangeTips, Walk, StoreOk, ChangeAt, IsChange, DescendsFrom, NewestFirst;
    var changes, tips := Changes(nodes, tip), ChangeTips(nodes, tip);
    ChangesDescend(nodes, tip);
    forall k | 0 <= k < |tips|
      ensures HasBlock(nodes, tips[k]) && IsChange(nodes, tip, tips[k]) && changes[k] == ChangeAt(nodes, tips[k])
    {
      ListedIsChange(nodes, tip, changes[k]);
    }
    forall t ensures t in tips <==> IsChange(nodes, tip, t) {
      if IsChange(nodes, tip, t) {
        ChangeIsListed(nodes, tip, t);
        var k :| 0 <= k < |changes| && changes[k] == ChangeAt(nodes, t);
        ChangeTip(nodes, t);
        assert tips[k] == t;
      }
    }
    forall j, k | 0 <= j < k < |changes| ensures changes[k].height < changes[j].height {
      Descending(changes, nodes[tip].Height(), j, k);
    }
    AreNewestFirst(nodes, changes, tips);
  }

  lemma ListedIsChange(nodes: Nodes, tip: Tip, c: OwnershipChange)
    requires StoreOk(nodes) && HasBlock(nodes, tip) && c in Changes(nodes, tip)
    ensures HasBlock(nodes, c.tip) && IsChange(nodes, tip, c.tip) && c == ChangeAt(nodes, c.tip)
  {
    hide Changes, StoreOk;
    ChangesExact(nodes, tip, c);
  }

  lemma ChangeIsListed(nodes: Nodes, tip: Tip, t: Tip)
    requires StoreOk(nodes) && HasBlock(nodes, tip) && IsChange(nodes, tip, t)
    ensures HasBlock(nodes, t) && ChangeAt(nodes, t) in Changes(nodes, tip)
  {
    hide Changes, StoreOk;
    ChangesExact(nodes, tip, ChangeAt(nodes, t));
  }

  lemma ChangeTip(nodes: Nodes, t: Tip)
    requires HasBlock(nodes, t)
    ensures ChangeAt(nodes, t).tip == t
  {
  }

  lemma AreNewestFirst(nodes: Nodes, changes: seq<OwnershipChange>, tips: seq<Tip>)
    requires |tips| == |changes|
    requires forall k | 0 <= k < |tips| :: HasBlock(nodes, tips[k]) && changes[k] == ChangeAt(nodes, tips[k])
    requires forall j, k | 0 <= j < k < |changes| :: changes[k].height < changes[j].height
    ensures NewestFirst(nodes, tips)
  {
  }

  ghost predicate NewestFirst(nodes: Nodes, tips: seq<Tip>) {
    (forall t :: t in tips ==> t in nodes) &&
    forall j, k | 0 <= j < k < |tips| :: nodes[tips[k]].Height() < nodes[tips[j]].Height()
  }

  lemma {:induction false} Descending(changes: seq<OwnershipChange>, height: int, j: nat, k: nat)
    requires DescendsFrom(changes, height) && j < k < |changes|
    ensures changes[k].height < changes[j].height && changes[j].height <= height
  {
    if j > 0 {
      Descending(changes[1..], changes[0].height - 1, j - 1, k - 1);
    } else if k == 1 {
      assert changes[1..][0].height <= changes[0].height - 1;
    } else {
      Descending(changes[1..], changes[0].height - 1, 0, k - 1);
    }
  }

  /** The second-oldest entry of the list is that block, and there is one exactly if the list has two. */
  lemma SecondOldestIsSecond(nodes: Nodes, tip: Tip, t: Tip)
    requires StoreOk(nodes) && HasBlock(nodes, tip)
    ensures IsSecondChange(nodes, tip, t) <==>
            |Changes(nodes, tip)| >= 2 && t == Changes(nodes, tip)[|Changes(nodes, tip)| - 2].tip
  {
    hide Changes, ChangeTips, StoreOk, IsChange;
    ListedChanges(nodes, tip);
    var tips := ChangeTips(nodes, tip);
    var n := |tips|;
    if n >= 2 && t == tips[n - 2] {
      assert tips[n - 1] in tips && t in tips;
      forall u | IsChange(nodes, tip, u) && nodes[u].Height() < nodes[t].Height() ensures u == tips[n - 1] {
        var k :| 0 <= k < n && tips[k] == u;
      }
    }
    if IsSecondChange(nodes, tip, t) {
      OneBelow(nodes, tip, tips, t);
    }
  }

  lemma OneBelow(nodes: Nodes, tip: Tip, tips: seq<Tip>, t: Tip)
    requires StoreOk(nodes) && HasBlock(nodes, tip) && IsSecondChange(nodes, tip, t) && NewestFirst(nodes, tips)
    requires forall u :: u in tips <==> IsChange(nodes, tip, u)
    ensures |tips| >= 2 && t == tips[|tips| - 2]
  {
    hide StoreOk, IsChange;
    var first :| IsChange(nodes, tip, first) && nodes[first].Height() < nodes[t].Height() &&
                 forall u | IsChange(nodes, tip, u) && nodes[u].Height() < nodes[t].Height() :: u == first;
    var k :| 0 <= k < |tips| && tips[k] == t;
    var m :| 0 <= m < |tips| && tips[m] == first;
    assert k < m;
    forall i | k < i < |tips| ensures tips[i] == first {
      assert tips[i] in tips;
    }
    assert forall i, j | k < i < j < |tips| :: tips[i] != tips[j];
  }

  /** The change below all others: the tree's creation. */
  ghost predicate IsFirstChange(nodes: Nodes, tip: Tip, t: Tip)
    requires StoreOk(nodes) && HasBlock(nodes, tip)
  {
    IsChange(nodes, tip, t) && forall u | IsChange(nodes, tip, u) && u != t :: nodes[t].Height() < nodes[u].Height()
  }

  lemma OldestIsFirst(nodes: Nodes, tip: Tip, t: Tip)
    requires StoreOk(nodes) && HasBlock(nodes, tip)
    ensures IsFirstChange(nodes, tip, t) <==>
            Changes(nodes, tip) != [] && t == Changes(nodes, tip)[|Changes(nodes, tip)| - 1].tip
  {
    hide Changes, ChangeTips, StoreOk, IsChange;
    ListedChanges(nodes, tip);
    var tips := ChangeTips(nodes, tip);
    if tips != [] && t == tips[|tips| - 1] {
      assert t in tips;
      forall u | IsChange(nodes, tip, u) && u != t ensures nodes[t].Height() < nodes[u].Height() {
        var k :| 0 <= k < |tips| && tips[k] == u;
      }
    }
    if IsFirstChange(nodes, tip, t) {
      var k :| 0 <= k < |tips| && tips[k] == t;
      assert tips[|tips| - 1] in tips;
    }
  }
}
