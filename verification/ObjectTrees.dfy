/** game/object_tree.go: a handle on one object, here on an object the court made and writes to. */
module ObjectTrees {
  import opened Wrappers
  import opened TreeData
  import opened ChainTrees
  import opened History
  import opened Elements
  import opened BowlChains

  /** Blocks were added, and no heads but those of these trees have changed or appeared. */
  ghost predicate OnlyHeads(nodes: Nodes, heads: map<Did, Tip>, nodes': Nodes, heads': map<Did, Tip>, dids: set<Did>) {
    Extends(nodes, nodes') && heads.Keys <= heads'.Keys <= heads.Keys + dids &&
    forall d | d in heads && d !in dids :: heads'[d] == heads[d]
  }

  lemma OnlyHeadsTwice(n0: Nodes, h0: map<Did, Tip>, n1: Nodes, h1: map<Did, Tip>, n2: Nodes, h2: map<Did, Tip>,
                       dids: set<Did>)
    requires OnlyHeads(n0, h0, n1, h1, dids) && OnlyHeads(n1, h1, n2, h2, dids)
    ensures OnlyHeads(n0, h0, n2, h2, dids)
  {
  }

  lemma OnlyHeadsAmong(n: Nodes, h: map<Did, Tip>, n': Nodes, h': map<Did, Tip>, dids: set<Did>, more: set<Did>)
    requires OnlyHeads(n, h, n', h', dids) && dids <= more
    ensures OnlyHeads(n, h, n', h', more)
  {
  }

  /** The current end of a tree the court made, with these contents. */
  ghost predicate IsHead(nodes: Nodes, heads: map<Did, Tip>, court: Address, did: Did, summary: Summary) {
    did in heads && CourtMade(nodes, heads[did], court) && nodes[heads[did]].did == did &&
    Summarize(nodes[heads[did]].state) == summary
  }

  /** Blocks on another tree do not touch it. */
  lemma HeadFrame(nodes: Nodes, heads: map<Did, Tip>, nodes': Nodes, heads': map<Did, Tip>, dids: set<Did>,
                  court: Address, did: Did, summary: Summary)
    requires OnlyHeads(nodes, heads, nodes', heads', dids) && StoreOk(nodes') && did !in dids
    requires IsHead(nodes, heads, court, did, summary)
    ensures IsHead(nodes', heads', court, did, summary)
  {
    CourtMadeIsStable(nodes, nodes', heads[did], court);
  }

  lemma OneData(s: State, path: Path, value: Node<Val>)
    ensures ApplyAll(s, [SetData(path, value)]) == Apply(s, SetData(path, value))
  {
    var txs := [SetData(path, value)];
    assert ApplyAll(s, txs) == ApplyAll(Apply(s, txs[0]), txs[1..]);
    assert txs[1..] == [];
  }

  class ObjectTree {
    const net: Network
    const court: Address
    const did: Did
    /** Whether every block gets through. */
    const reliable: bool
    var tip: Tip
    ghost var summary: Summary
    ghost var height: nat

    ghost predicate Valid()
      reads this, net
    {
      net.Valid() && IsHead(net.nodes, net.heads, court, did, summary) && net.heads[did] == tip &&
      net.nodes[tip].Height() == height
    }

    constructor (net: Network, court: Address, did: Did, reliable: bool, ghost summary: Summary)
      requires net.Valid() && IsHead(net.nodes, net.heads, court, did, summary)
      ensures Valid() && this.net == net && this.court == court && this.did == did
      ensures this.reliable == reliable && this.summary == summary && tip == net.heads[did]
    {
      this.net, this.court, this.did, this.reliable, this.summary := net, court, did, reliable, summary;
      tip := net.heads[did];
      height := net.nodes[net.heads[did]].Height();
    }

    /** A block by the court. */
    method UpdatePath(path: Path, value: Node<Val>, ghost after: Summary) returns (ok: bool)
      requires Valid() && Summarize(Apply(net.nodes[tip].state, SetData(path, value))) == after
      modifies this, net
      ensures Valid() && OnlyHeads(old(net.nodes), old(net.heads), net.nodes, net.heads, {did})
      ensures summary == if ok then after else old(summary)
      ensures height == if ok then old(height) + 1 else old(height)
      ensures reliable ==> ok
    {
      var lost: bool := *;
      if !reliable && lost {
        return false;
      }
      ghost var nodes, before := net.nodes, tip;
      var r := net.PlayTransactions(tip, court, [SetData(path, value)]);
      if r.Ok? {
        DataBlockKeepsCourtMade(nodes, before, r.value, court, path, value);
        OneData(nodes[before].state, path, value);
        tip, summary, height := r.value, after, height + 1;
      }
      ok := r.Ok?;
    }

    method SetField(field: Field, value: Val) returns (ok: bool)
      requires Valid()
      modifies this, net
      ensures Valid() && OnlyHeads(old(net.nodes), old(net.heads), net.nodes, net.heads, {did})
      ensures summary == if ok then Updated(old(summary), field, value) else old(summary)
      ensures height == if ok then old(height) + 1 else old(height)
      ensures reliable ==> ok
    {
      hide CourtMade, Summarize, StoreOk, Apply, PathOf;
      WriteField(net.nodes[tip].state, field, value);
      ok := UpdatePath(PathOf(field), Leaf(value), Updated(summary, field, value));
    }

    method Reset(path: Path) returns (ok: bool)
      requires Valid() && (path == [] || path == [ROOT])
      modifies this, net
      ensures Valid() && OnlyHeads(old(net.nodes), old(net.heads), net.nodes, net.heads, {did})
      ensures summary == if ok then BLANK else old(summary)
      ensures height == if ok then old(height) + 1 else old(height)
      ensures reliable ==> ok
    {
      hide CourtMade, Summarize, StoreOk, Apply;
      ResetIsBlank(net.nodes[tip].state, path);
      ok := UpdatePath(path, Dir(map[]), BLANK);
    }

    /** A command that is there already is refused. */
    method AddInteraction(command: string, interaction: Val) returns (ok: bool)
      requires Valid()
      modifies this, net
      ensures Valid() && OnlyHeads(old(net.nodes), old(net.heads), net.nodes, net.heads, {did})
      ensures summary == if ok then Updated(old(summary), CommandField(command), interaction) else old(summary)
      ensures height == if ok then old(height) + 1 else old(height)
      ensures command in old(summary).commands ==> !ok
      ensures reliable && command !in old(summary).commands ==> ok
    {
      if command in Summarize(net.nodes[tip].state).commands {
        return false;
      }
      hide Valid, OnlyHeads, Updated;
      ok := SetField(CommandField(command), interaction);
    }

    /** CreateObjectOnTree: the name, and the three interactions every object has. */
    method CreateObject(name: string) returns (ok: bool)
      requires Valid() && summary == BLANK
      modifies this, net
      ensures Valid() && OnlyHeads(old(net.nodes), old(net.heads), net.nodes, net.heads, {did})
      ensures ok ==> summary == BLANK.(name := Some(Str(name)), commands := ObjectCommands(name, did))
      ensures reliable ==> ok
    {
      ghost var n0, h0 := net.nodes, net.heads;
      ObjectSummaries(name, did);
      hide *;
      ok := SetField(NameField, Str(name));
      if !ok {
        return;
      }
      ghost var n1, h1 := net.nodes, net.heads;
      ok := AddInteraction("drop " + name, DropCommand(did));
      OnlyHeadsTwice(n0, h0, n1, h1, net.nodes, net.heads, {did});
      if !ok {
        return;
      }
      n1, h1 := net.nodes, net.heads;
      ok := AddInteraction("pick up " + name, PickUpCommand(did));
      OnlyHeadsTwice(n0, h0, n1, h1, net.nodes, net.heads, {did});
      if !ok {
        return;
      }
      n1, h1 := net.nodes, net.heads;
      ok := AddInteraction("look at " + name, LookCommand(did));
      OnlyHeadsTwice(n0, h0, n1, h1, net.nodes, net.heads, {did});
    }

    /** The last block the court can write. */
    method HandOver(name: string, auths: seq<Address>) returns (ok: bool)
      requires Valid() && summary.name == Some(Str(name))
      modifies this, net
      ensures net.Valid() && OnlyHeads(old(net.nodes), old(net.heads), net.nodes, net.heads, {did})
      ensures ok ==>
                Issued(net.nodes, net.heads, court, did, name, auths) &&
                did in net.heads && net.heads[did] in net.nodes &&
                Summarize(net.nodes[net.heads[did]].state) == old(summary)
      ensures reliable ==> ok
    {
      var lost: bool := *;
      if !reliable && lost {
        return false;
      }
      ghost var nodes, before := net.nodes, tip;
      SummaryName(nodes[before].state);
      hide Changes, Ancestor, Summarize, StoreOk, OriginVerdict, ObjectName;
      var r := net.PlayTransactions(tip, court, [SetOwnership(auths)]);
      if r.Ok? {
        HandedOverIsProven(nodes, before, r.value, court, auths);
        SameSummary(nodes[before].state, auths);
        tip := r.value;
      }
      ok := r.Ok?;
    }
  }

  /** The object carries this name, belongs to these owners, and passes the check of its origin. */
  ghost predicate Issued(nodes: Nodes, heads: map<Did, Tip>, court: Address, did: Did, name: string,
                         auths: seq<Address>) {
    StoreOk(nodes) && did in heads && heads[did] in nodes && nodes[heads[did]].state.auths == auths &&
    ObjectName(nodes[heads[did]].state) == Ok(name) && OriginVerdict(nodes, heads[did], [court]) == Ok(true)
  }

  /** The object carries exactly this name, this description and the three standard commands. */
  ghost predicate IsObject(nodes: Nodes, heads: map<Did, Tip>, did: Did, name: string, description: string) {
    did in heads && heads[did] in nodes &&
    Summarize(nodes[heads[did]].state) ==
    Summary(Some(Str(name)), None, Some(Str(description)), ObjectCommands(name, did), map[])
  }

  lemma SameSummary(s: State, auths: seq<Address>)
    ensures Summarize(ApplyAll(s, [SetOwnership(auths)])) == Summarize(s)
  {
    OwnershipState(s, auths);
  }

  function DropCommand(did: Did): Val {
    Items(["DropObjectInteraction", did])
  }

  function PickUpCommand(did: Did): Val {
    Items(["PickUpObjectInteraction", did])
  }

  function LookCommand(did: Did): Val {
    Items(["GetTreeValueInteraction", did, "description"])
  }

  function ObjectCommands(name: string, did: Did): map<string, Node<Val>> {
    map["drop " + name := Leaf(DropCommand(did)), "pick up " + name := Leaf(PickUpCommand(did)),
        "look at " + name := Leaf(LookCommand(did))]
  }

  /** The writes that make a blank tree an object. */
  lemma ObjectSummaries(name: string, did: Did)
    ensures var s0 := Updated(BLANK, NameField, Str(name));
            var s1 := Updated(s0, CommandField("drop " + name), DropCommand(did));
            var s2 := Updated(s1, CommandField("pick up " + name), PickUpCommand(did));
            && "drop " + name !in s0.commands && "pick up " + name !in s1.commands && "look at " + name !in s2.commands
            && Updated(s2, CommandField("look at " + name), LookCommand(did)) ==
               BLANK.(name := Some(Str(name)), commands := ObjectCommands(name, did))
  {
    CommandsDiffer(name);
  }

  lemma CommandsDiffer(name: string)
    ensures "drop " + name != "pick up " + name && "drop " + name != "look at " + name
    ensures "pick up " + name != "look at " + name
  {
    assert ("drop " + name)[0] == 'd' && ("pick up " + name)[0] == 'p' && ("look at " + name)[0] == 'l';
  }
}
