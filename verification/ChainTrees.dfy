/**
 Chain trees: append-only chains of blocks, each block pointing back at the tip it extends.
 A node of the store is what a tip resolves to: the last block, and the data and owners after it.
 */
module ChainTrees {
  import opened Wrappers
  import opened TreeData

  type Address = string
  type Did = string
  /** A content address. Every block gets a tip no other block has. */
  type Tip = nat

  datatype Val = Str(text: string) | Num(number: int) | Items(items: seq<string>)

  datatype Transaction =
    | SetData(path: Path, value: Node<Val>)
    | SetOwnership(auths: seq<Address>)

  datatype Block = Block(height: nat, previousTip: Option<Tip>, transactions: seq<Transaction>)

  /** data is None until the first SetData: resolving tree/data then gives nil. */
  datatype State = State(data: Option<Node<Val>>, auths: seq<Address>)

  /** end is None for a tree that was created but has no block yet. */
  datatype TreeAt = TreeAt(did: Did, end: Option<Block>, state: State) {
    function Height(): nat {
      if end.Some? then end.value.height else 0
    }
  }

  type Nodes = map<Tip, TreeAt>

  const DID_PREFIX := "did:tupelo:"

  /** A tree without ownership changes belongs to the key its did is made of. */
  function GenesisState(did: Did): State {
    State(None, [if DID_PREFIX <= did then did[|DID_PREFIX|..] else did])
  }

  function Apply(s: State, tx: Transaction): State {
    match tx
    case SetData(path, value) =>
      s.(data := Some(SetPath(if s.data.Some? then s.data.value else Dir(map[]), path, value)))
    case SetOwnership(auths) => s.(auths := auths)
  }

  function ApplyAll(s: State, txs: seq<Transaction>): State
    decreases |txs|
  {
    if txs == [] then s else ApplyAll(Apply(s, txs[0]), txs[1..])
  }

  /** Transactions take effect in their order: those of a block's front part first, the rest on what they leave. */
  lemma {:induction false} ApplyInOrder(s: State, first: seq<Transaction>, rest: seq<Transaction>)
    ensures ApplyAll(s, first + rest) == ApplyAll(ApplyAll(s, first), rest)
    ensures rest != [] && rest[|rest| - 1].SetOwnership? ==>
              ApplyAll(s, first + rest).auths == rest[|rest| - 1].auths
    decreases |first|
  {
    if first == [] {
      assert first + rest == rest;
      if rest != [] && rest[|rest| - 1].SetOwnership? {
        LastOwnersWin(s, rest);
      }
    } else {
      assert (first + rest)[1..] == first[1..] + rest;
      ApplyInOrder(Apply(s, first[0]), first[1..], rest);
    }
  }

  lemma {:induction false} LastOwnersWin(s: State, txs: seq<Transaction>)
    requires txs != [] && txs[|txs| - 1].SetOwnership?
    ensures ApplyAll(s, txs).auths == txs[|txs| - 1].auths
    decreases |txs|
  {
    if |txs| > 1 {
      LastOwnersWin(Apply(s, txs[0]), txs[1..]);
    } else {
      assert txs[1..] == [];
    }
  }

  predicate HasSetOwnership(txs: seq<Transaction>) {
    exists tx :: tx in txs && tx.SetOwnership?
  }

  /** A block without an ownership transaction leaves the owners as they were. */
  lemma {:induction false} DataBlockKeepsAuths(s: State, txs: seq<Transaction>)
    requires !HasSetOwnership(txs)
    ensures ApplyAll(s, txs).auths == s.auths
    decreases |txs|
  {
    if txs != [] {
      assert txs[0] in txs;
      assert forall tx :: tx in txs[1..] ==> tx in txs;
      DataBlockKeepsAuths(Apply(s, txs[0]), txs[1..]);
    }
  }

  function StateBefore(nodes: Nodes, did: Did, block: Block): State
    requires block.previousTip.Some? ==> block.previousTip.value in nodes
  {
    if block.previousTip.Some? then nodes[block.previousTip.value].state else GenesisState(did)
  }

  ghost predicate BlockOk(nodes: Nodes, did: Did, block: Block) {
    match block.previousTip
    case None => block.height == 0
    case Some(previous) =>
      previous in nodes && nodes[previous].did == did && nodes[previous].end.Some? &&
      block.height == nodes[previous].Height() + 1
  }

  ghost predicate NodeOk(nodes: Nodes, tip: Tip)
    requires tip in nodes
  {
    var at := nodes[tip];
    match at.end
    case None => at.state == GenesisState(at.did)
    case Some(block) =>
      BlockOk(nodes, at.did, block) && at.state == ApplyAll(StateBefore(nodes, at.did, block), block.transactions)
  }

  /** What forward steps keep: every node is its predecessor's state after its own transactions. */
  ghost predicate StoreOk(nodes: Nodes) {
    forall tip {:trigger NodeOk(nodes, tip)} | tip in nodes :: NodeOk(nodes, tip)
  }

  ghost predicate Extends(before: Nodes, after: Nodes) {
    forall tip | tip in before :: tip in after && after[tip] == before[tip]
  }

  /** The node a block of transactions makes on top of a tip: height and previous tip only start at the second block. */
  function NextNode(nodes: Nodes, tree: Tip, txs: seq<Transaction>): TreeAt
    requires tree in nodes
  {
    var at := nodes[tree];
    var block := if at.end.Some? then Block(at.Height() + 1, Some(tree), txs) else Block(0, None, txs);
    TreeAt(at.did, Some(block), ApplyAll(at.state, txs))
  }

  lemma NextNodeKeepsStoreOk(nodes: Nodes, tip: Tip, tree: Tip, txs: seq<Transaction>)
    requires StoreOk(nodes) && tip !in nodes && tree in nodes
    ensures StoreOk(nodes[tip := NextNode(nodes, tree, txs)])
  {
    assert NodeOk(nodes, tree);
    ExtendKeepsStoreOk(nodes, tip, NextNode(nodes, tree, txs));
  }

  /** A tree handle: the tip its holder last saw, which may be stale. */
  class Network {
    var nodes: Nodes
    var heads: map<Did, Tip>
    var nextTip: Tip

    ghost predicate Valid()
      reads this
    {
      StoreOk(nodes) &&
      (forall tip | tip in nodes :: tip < nextTip) &&
      (forall did | did in heads :: heads[did] in nodes && nodes[heads[did]].did == did)
    }

    constructor ()
      ensures Valid() && nodes == map[] && heads == map[]
    {
      nodes, heads, nextTip := map[], map[], 0;
    }

    /** A new tree without blocks; an existing tree is returned as it is. */
    method FindOrCreate(did: Did) returns (tip: Tip)
      requires Valid()
      modifies this
      ensures Valid() && Extends(old(nodes), nodes)
      ensures did in heads && tip == heads[did]
      ensures did in old(heads) ==> nodes == old(nodes) && heads == old(heads)
      ensures did !in old(heads) ==>
                tip !in old(nodes) && heads == old(heads)[did := tip] &&
                nodes == old(nodes)[tip := TreeAt(did, None, GenesisState(did))]
    {
      if did in heads {
        return heads[did];
      }
      tip := nextTip;
      nodes := nodes[tip := TreeAt(did, None, GenesisState(did))];
      heads := heads[did := tip];
      nextTip := nextTip + 1;
      ExtendKeepsStoreOk(old(nodes), tip, nodes[tip]);
    }

    /** Accepted iff the handle is the current tip and the signer owns the tree; a refused block changes nothing. */
    method PlayTransactions(tree: Tip, signer: Address, txs: seq<Transaction>) returns (r: Result<Tip>)
      requires Valid()
      modifies this
      ensures Valid() && Extends(old(nodes), nodes)
      ensures r.Ok? <==> tree in old(nodes) && old(nodes)[tree].did in old(heads) &&
                         old(heads)[old(nodes)[tree].did] == tree && signer in old(nodes)[tree].state.auths
      ensures !r.Ok? ==> r.Err? && nodes == old(nodes) && heads == old(heads)
      ensures r.Ok? ==>
                r.value !in old(nodes) &&
                heads == old(heads)[old(nodes)[tree].did := r.value] &&
                nodes == old(nodes)[r.value := NextNode(old(nodes), tree, txs)]
    {
      if tree !in nodes {
        return Err("error missing root");
      }
      var at := nodes[tree];
      if at.did !in heads || heads[at.did] != tree || signer !in at.state.auths {
        return Err("error invalid transaction");
      }
      var height, previous := 0, None;
      if at.end.Some? {
        height := at.end.value.height + 1;
        previous := Some(tree);
      }
      var next := TreeAt(at.did, Some(Block(height, previous, txs)), ApplyAll(at.state, txs));
      NextNodeKeepsStoreOk(nodes, nextTip, tree, txs);
      r := Ok(nextTip);
      nodes := nodes[nextTip := next];
      heads := heads[at.did := nextTip];
      nextTip := nextTip + 1;
    }
  }

  lemma ExtendKeepsStoreOk(nodes: Nodes, tip: Tip, at: TreeAt)
    requires StoreOk(nodes) && tip !in nodes
    requires at.end.None? ==> at.state == GenesisState(at.did)
    requires at.end.Some? ==> BlockOk(nodes, at.did, at.end.value) &&
                              at.state == ApplyAll(StateBefore(nodes, at.did, at.end.value), at.end.value.transactions)
    ensures StoreOk(nodes[tip := at])
  {
    var after := nodes[tip := at];
    forall t | t in after ensures NodeOk(after, t) {
      if t != tip {
        assert NodeOk(nodes, t);
      }
    }
  }
}
