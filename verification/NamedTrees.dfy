/**
 network/network.go, FindOrCreatePassphraseTree: a tree whose key is made from a name, so that everybody with the
 court's key finds the same tree. Here the name is the tip of an inventory.
 */
module NamedTrees {
  import opened Wrappers
  import opened Text
  import opened ChainTrees
  import opened History
  import opened BowlChains
  import opened ObjectTrees

  function TreeKey(name: nat): Address {
    "key-" + Itoa(name)
  }

  function NamedDid(name: nat): Did {
    DID_PREFIX + TreeKey(name)
  }

  lemma NamedDidInjective(a: nat, b: nat)
    ensures NamedDid(a) == NamedDid(b) <==> a == b
  {
    assert NamedDid(a)[|DID_PREFIX|..] == TreeKey(a) && NamedDid(b)[|DID_PREFIX|..] == TreeKey(b);
    assert TreeKey(a)[4..] == Itoa(a) && TreeKey(b)[4..] == Itoa(b);
    if NamedDid(a) == NamedDid(b) {
      FormatIntInjective(a, b, Ten);
    }
  }

  /** The tree was created, but the block that gives it to the court did not get through. */
  ghost predicate Unowned(nodes: Nodes, heads: map<Did, Tip>, name: nat) {
    NamedDid(name) in heads && heads[NamedDid(name)] in nodes && nodes[heads[NamedDid(name)]].end.None?
  }

  /** It belongs to its own key alone, so the court's blocks on it are refused. */
  lemma UnownedBelongsToItsKey(nodes: Nodes, heads: map<Did, Tip>, name: nat)
    requires StoreOk(nodes) && Unowned(nodes, heads, name) && nodes[heads[NamedDid(name)]].did == NamedDid(name)
    ensures nodes[heads[NamedDid(name)]].state.auths == [TreeKey(name)]
  {
    assert NodeOk(nodes, heads[NamedDid(name)]);
    assert DID_PREFIX <= NamedDid(name) && NamedDid(name)[|DID_PREFIX|..] == TreeKey(name);
  }

  /**
   A tree without blocks is known to nobody but the cache of the node that created it: remembered says whether that
   cache still has it. While it has, the tree is returned as it is; once it has not, creation starts again.
   */
  method FindOrCreatePassphraseTree(net: Network, court: Address, name: nat, remembered: bool, chowned: bool)
    returns (r: Result<Tip>)
    requires net.Valid()
    modifies net
    ensures net.Valid() && OnlyHeads(old(net.nodes), old(net.heads), net.nodes, net.heads, {NamedDid(name)})
    ensures NamedDid(name) in net.heads
    ensures r.Ok? || r.Err?
    ensures r.Ok? ==> r.value == net.heads[NamedDid(name)]
    ensures NamedDid(name) in old(net.heads) && (!old(Unowned(net.nodes, net.heads, name)) || remembered) ==>
              r.Ok? && net.nodes == old(net.nodes) && net.heads == old(net.heads)
    ensures NamedDid(name) !in old(net.heads) || (old(Unowned(net.nodes, net.heads, name)) && !remembered) ==>
              (r.Ok? <==> chowned) &&
              if chowned then
                IsHead(net.nodes, net.heads, court, NamedDid(name), BLANK) &&
                net.nodes[net.heads[NamedDid(name)]].Height() == 0
              else Unowned(net.nodes, net.heads, name)
  {
    var did := NamedDid(name);
    assert DID_PREFIX <= did && did[|DID_PREFIX|..] == TreeKey(name);
    if did in net.heads && (net.nodes[net.heads[did]].end.Some? || remembered) {
      return Ok(net.heads[did]);
    }
    if did in net.heads {
      UnownedBelongsToItsKey(net.nodes, net.heads, name);
    }
    var tree := net.FindOrCreate(did);
    if !chowned {
      return Err("chowning passphrase chaintree");
    }
    ghost var nodes := net.nodes;
    r := net.PlayTransactions(tree, TreeKey(name), [SetOwnership([court])]);
    CreationIsCourtMade(nodes, tree, r.value, court);
    OwnershipState(nodes[tree].state, [court]);
    CreatedIsBlank(nodes, tree, court);
  }

  lemma CreatedIsBlank(nodes: Nodes, tree: Tip, court: Address)
    requires StoreOk(nodes) && tree in nodes && nodes[tree].end.None?
    ensures Summarize(NextNode(nodes, tree, [SetOwnership([court])]).state) == BLANK
  {
    assert NodeOk(nodes, tree);
    OwnershipState(nodes[tree].state, [court]);
  }
}
