/**
 The chain of a combination object: created by the court, written to by the court alone, and handed to a player once,
 as a new element. Its history is what a later check of the element's origin looks at.
 */
module BowlChains {
  import opened Wrappers
  import opened TreeData
  import opened ChainTrees
  import opened History
  import opened Elements

  const BOWL := "bowl"
  /** A chain the court created and has owned ever since: its creation is its only change of ownership. */
  ghost predicate CourtMade(nodes: Nodes, tip: Tip, court: Address) {
    StoreOk(nodes) && HasBlock(nodes, tip) && nodes[tip].state.auths == [court] &&
    |Changes(nodes, tip)| == 1 && nodes[Ancestor(nodes, tip, 0)].state.auths == [court]
  }

  lemma CourtMadeIsStable(before: Nodes, after: Nodes, tip: Tip, court: Address)
    requires CourtMade(before, tip, court) && StoreOk(after) && Extends(before, after)
    ensures CourtMade(after, tip, court)
  {
    HistoryIsStable(before, after, tip);
  }

  /** The first block of a new tree gives it to the court. */
  lemma CreationIsCourtMade(nodes: Nodes, tree: Tip, next: Tip, court: Address)
    requires StoreOk(nodes) && next !in nodes && tree in nodes && nodes[tree].end.None?
    ensures var after := nodes[next := NextNode(nodes, tree, [SetOwnership([court])])];
            StoreOk(after) && CourtMade(after, next, court)
  {
    var txs := [SetOwnership([court])];
    NextNodeKeepsStoreOk(nodes, next, tree, txs);
    assert txs[0] in txs;
    assert txs[1..] == [];
    assert ApplyAll(nodes[tree].state, txs).auths == [court];
  }

  lemma DataBlockKeepsCourtMade(nodes: Nodes, tip: Tip, next: Tip, court: Address, path: Path, value: Node<Val>)
    requires CourtMade(nodes, tip, court) && next !in nodes
    ensures var after := nodes[next := NextNode(nodes, tip, [SetData(path, value)])];
            StoreOk(after) && CourtMade(after, next, court)
  {
    var txs := [SetData(path, value)];
    var after := nodes[next := NextNode(nodes, tip, txs)];
    NextNodeKeepsStoreOk(nodes, next, tip, txs);
    HistoryIsStable(nodes, after, tip);
    assert !HasSetOwnership(txs);
    DataBlockKeepsAuths(nodes[tip].state, txs);
    ChangesStep(after, next);
    assert OwnChange(after, next) == [];
    assert Changes(after, next) == Changes(after, tip);
  }

  lemma OwnershipState(s: State, auths: seq<Address>)
    ensures ApplyAll(s, [SetOwnership(auths)]) == s.(auths := auths)
    ensures ObjectName(s.(auths := auths)) == ObjectName(s)
  {
    var txs := [SetOwnership(auths)];
    assert ApplyAll(s, txs) == ApplyAll(Apply(s, txs[0]), txs[1..]);
    assert txs[1..] == [];
  }

  lemma OwnershipBlockHistory(nodes: Nodes, tip: Tip, next: Tip, auths: seq<Address>)
    requires StoreOk(nodes) && HasBlock(nodes, tip) && next !in nodes
    ensures var after := nodes[next := NextNode(nodes, tip, [SetOwnership(auths)])];
            && StoreOk(after) && HasBlock(after, next)
            && Changes(after, next) == [ChangeAt(after, next)] + Changes(nodes, tip)
            && Ancestor(after, next, 0) == Ancestor(nodes, tip, 0)
  {
    var txs := [SetOwnership(auths)];
    var after := nodes[next := NextNode(nodes, tip, txs)];
    NextNodeKeepsStoreOk(nodes, next, tip, txs);
    HistoryIsStable(nodes, after, tip);
    ChangesStep(after, next);
    assert txs[0] in txs;
  }

  /** Handed over under its name, the chain passes the check of an element's origin. */
  lemma HandedOverIsProven(nodes: Nodes, tip: Tip, next: Tip, court: Address, auths: seq<Address>)
    requires CourtMade(nodes, tip, court) && next !in nodes
    requires ObjectName(nodes[tip].state).Ok?
    ensures var after := nodes[next := NextNode(nodes, tip, [SetOwnership(auths)])];
            && StoreOk(after) && HasBlock(after, next)
            && ObjectName(after[next].state) == ObjectName(nodes[tip].state)
            && after[next].state.auths == auths
            && OriginVerdict(after, next, [court]) == Ok(true)
  {
    OwnershipState(nodes[tip].state, auths);
    OwnershipBlockHistory(nodes, tip, next, auths);
    hide ObjectName, StoreOk, ChangeAt, Changes, Ancestor, OriginOfChange;
    var after := nodes[next := NextNode(nodes, tip, [SetOwnership(auths)])];
    assert Changes(after, next)[0] == ChangeAt(after, next);
    HandedOverOrigin(after, next, court);
  }

  lemma HandedOverOrigin(nodes: Nodes, tip: Tip, court: Address)
    requires StoreOk(nodes) && HasBlock(nodes, tip) && ObjectName(nodes[tip].state).Ok?
    requires nodes[Ancestor(nodes, tip, 0)].state.auths == [court]
    ensures OriginOfChange(nodes, ChangeAt(nodes, tip).tip, nodes[tip], [court]) == Ok(true)
  {
  }

  /**
   Every element issued this way is proven for ever: whatever blocks follow, transfers included, its origin stays
   valid as long as its name is the one it was issued under.
   */
  lemma IssuedStaysProven(nodes: Nodes, tip: Tip, next: Tip, court: Address, auths: seq<Address>, later: Nodes,
                          end: Tip)
    requires CourtMade(nodes, tip, court) && next !in nodes && ObjectName(nodes[tip].state).Ok?
    requires StoreOk(later) && Extends(nodes[next := NextNode(nodes, tip, [SetOwnership(auths)])], later)
    requires HasBlock(later, end) && next in Walk(later, end)
    requires ObjectName(later[end].state).Ok?
    ensures OriginVerdict(later, end, [court]) == Ok(ObjectName(later[end].state) == ObjectName(nodes[tip].state))
  {
    hide OriginVerdict, Changes, Walk, Ancestor;
    HandedOverIsProven(nodes, tip, next, court, auths);
    ProvenanceIsFixed(nodes[next := NextNode(nodes, tip, [SetOwnership(auths)])], later, next, end, [court]);
  }

  function DataOf(s: State): Node<Val> {
    if s.data.Some? then s.data.value else Dir(map[])
  }

  /**
   The fields the handler writes. A slash in an element's name nests its entry: rest is what follows the first part.
   */
  datatype Field =
    | NameField
    | PlayerField
    | DescriptionField
    | CommandField(command: string)
    | ElementField(key: string, rest: Path)

  function Section(field: Field): string {
    match field
    case NameField => "name"
    case PlayerField => "player"
    case DescriptionField => "description"
    case CommandField(_) => "interactions"
    case ElementField(_, _) => "elements"
  }

  function PathOf(field: Field): Path {
    match field
    case CommandField(command) => [ROOT, "interactions"] + [command] + []
    case ElementField(key, rest) => [ROOT, "elements"] + [key] + rest
    case _ => [ROOT, Section(field)]
  }

  /** What the handler reads of an object. */
  datatype Summary = Summary(name: Option<Val>, player: Option<Val>, description: Option<Val>,
                             commands: map<string, Node<Val>>, elements: map<string, Node<Val>>)

  const BLANK := Summary(None, None, None, map[], map[])

  function Summarize(s: State): Summary {
    var data := DataOf(s);
    Summary(LeafAt(data, [ROOT, "name"]), LeafAt(data, [ROOT, "player"]), LeafAt(data, [ROOT, "description"]),
            MapAt(data, [ROOT, "interactions"]), MapAt(data, [ROOT, "elements"]))
  }

  function Entered(entries: map<string, Node<Val>>, key: string, rest: Path, value: Val): map<string, Node<Val>> {
    entries[key := SetPath(if key in entries then entries[key] else Dir(map[]), rest, Leaf(value))]
  }

  function Updated(summary: Summary, field: Field, value: Val): Summary {
    match field
    case NameField => summary.(name := Some(value))
    case PlayerField => summary.(player := Some(value))
    case DescriptionField => summary.(description := Some(value))
    case CommandField(command) => summary.(commands := Entered(summary.commands, command, [], value))
    case ElementField(key, rest) => summary.(elements := Entered(summary.elements, key, rest, value))
  }

  lemma OtherSection(data: Node<Val>, field: Field, value: Val, section: string)
    requires section != Section(field)
    ensures Resolve(SetPath(data, PathOf(field), Leaf(value)), [ROOT, section]) == Resolve(data, [ROOT, section])
  {
    var path, q := PathOf(field), [ROOT, section];
    assert path[1] == Section(field) && q[1] == section;
    assert !Comparable(path, q);
    ResolveAfterSet(data, path, Leaf(value), q);
  }

  lemma SameLeaf(data: Node<Val>, field: Field, value: Val)
    requires !field.CommandField? && !field.ElementField?
    ensures LeafAt(SetPath(data, PathOf(field), Leaf(value)), [ROOT, Section(field)]) == Some(value)
  {
    LeafAfterSet(data, PathOf(field), value, PathOf(field));
  }

  lemma SameMap(data: Node<Val>, field: Field, value: Val)
    requires field.CommandField? || field.ElementField?
    ensures MapAt(SetPath(data, PathOf(field), Leaf(value)), [ROOT, Section(field)]) ==
            Entered(MapAt(data, [ROOT, Section(field)]), if field.CommandField? then field.command else field.key,
                    if field.CommandField? then [] else field.rest, value)
  {
    MapAfterSetBelow(data, [ROOT, Section(field)], if field.CommandField? then field.command else field.key,
                     if field.CommandField? then [] else field.rest, Leaf(value));
  }

  /** Each write shows in its own field and in no other. */
  lemma WriteField(s: State, field: Field, value: Val)
    ensures Summarize(Apply(s, SetData(PathOf(field), Leaf(value)))) == Updated(Summarize(s), field, value)
  {
    hide Resolve, SetPath, PathOf;
    var data := DataOf(s);
    forall section: string | section != Section(field)
      ensures Resolve(SetPath(data, PathOf(field), Leaf(value)), [ROOT, section]) == Resolve(data, [ROOT, section])
    {
      OtherSection(data, field, value, section);
    }
    if field.CommandField? || field.ElementField? {
      SameMap(data, field, value);
    } else {
      SameLeaf(data, field, value);
    }
  }

  /** Emptying the whole tree, or the game's part of it, leaves a blank object. */
  lemma ResetIsBlank(s: State, path: Path)
    requires path == [] || path == [ROOT]
    ensures Summarize(Apply(s, SetData(path, Dir(map[])))) == BLANK
  {
    forall section: string
      ensures Resolve(SetPath(DataOf(s), path, Dir(map[])), [ROOT, section]).None?
    {
      var q := [ROOT, section];
      assert path <= q;
      ResolveAfterSet(DataOf(s), path, Dir(map[]), q);
    }
  }

  lemma SummaryName(s: State)
    ensures ObjectName(s) == NameFrom(Summarize(s).name)
  {
  }

  function NameFrom(leaf: Option<Val>): Result<string> {
    match leaf
    case Some(Str(name)) => Ok(name)
    case _ => Err("error casting name to string")
  }
}
