/**
 importer/importer.go, updateTreeIfChanged: one tree is brought in line with its payload. Every write is a block
 that may fail to get through, and a crash is a failure nobody handles: in both cases the tree stays as it is and
 the next import starts from there.
 */
module Importer {
  import opened Wrappers
  import opened Text
  import opened TreeData
  import opened Sorting
  import opened Flatmap
  import opened ImportData
  import opened InteractionImport
  import opened Inventory
  import ChainTrees
  import Interactions

  type Did = ChainTrees.Did

  const INTERACTIONS_PATH := [ROOT, "interactions"]
  const INVENTORY_PATH := [ROOT, "inventory"]
  const HASH_PATH := ["import-hash"]

  function HashOf(tree: Node<Cell>): Option<Cell> {
    LeafAt(tree, HASH_PATH)
  }

  function StoredInteractions(tree: Node<Cell>): map<string, Node<Cell>> {
    MapAt(tree, INTERACTIONS_PATH)
  }

  /** A stored interaction: its type, and its encoding. */
  function StoredForm(i: Interactions.Interaction): Node<Cell> {
    Dir(map["typeUrl" := Leaf(Scalar(Interactions.TypeUrl(i))),
            "value" := Leaf(Encoded(Interactions.InteractionToCbor(i)))])
  }

  /** What is read back from there is the interaction. */
  lemma StoredFormReadsBack(i: Interactions.Interaction)
    ensures LeafAt(StoredForm(i), ["typeUrl"]) == Some(Scalar(Interactions.TypeUrl(i)))
    ensures LeafAt(StoredForm(i), ["value"]) == Some(Encoded(Interactions.InteractionToCbor(i)))
    ensures Interactions.InteractionFromCbor(Interactions.InteractionToCbor(i)) == Ok(i)
  {
    var node: Node<Cell> := StoredForm(i);
    assert Resolve(node.entries["typeUrl"], ["typeUrl"][1..]) == Some(Leaf(Scalar(Interactions.TypeUrl(i))));
    assert Resolve(node.entries["value"], ["value"][1..]) == Some(Leaf(Encoded(Interactions.InteractionToCbor(i))));
  }

  /** A listing that is stored is the listing read back. */
  lemma ListingReadsBack(tree: Node<Cell>, names: Listing)
    ensures ListingOf(SetPath(tree, INVENTORY_PATH, StoredListing(names))) == names
  {
    InventoryWriteFrame(map[], tree, names);
  }

  /** A listing as it is stored, and read back. */
  function StoredListing(names: Listing): Node<Cell> {
    Dir(map n | n in names :: Leaf(Scalar(names[n])))
  }

  function ListingOf(tree: Node<Cell>): Listing {
    var entries := MapAt(tree, INVENTORY_PATH);
    map n | n in entries && entries[n].Leaf? && entries[n].value.Scalar? :: entries[n].value.text
  }

  function CommandOf(attrs: Interactions.ImportInteraction): string {
    var command := TextField(attrs, None, "command");
    if command.Some? then command.value else ""
  }

  lemma CompiledCommand(attrs: Interactions.ImportInteraction, i: Interactions.Interaction)
    requires Compiles(attrs, None, i)
    ensures Interactions.GetCommand(i) == CommandOf(attrs)
  {
  }

  /** The tree below the game's root, apart from interactions and inventory, is the data. */
  ghost predicate DataImage(data: map<string, Value>, tree: Node<Cell>) {
    forall path: Path | path != [] && path[0] == ROOT && !(INTERACTIONS_PATH <= path) && !(INVENTORY_PATH <= path) ::
      LeafAt(tree, path) ==
      if LeafIn(VMap(data), path[1..]).Some? then Some(Scalar(LeafIn(VMap(data), path[1..]).value)) else None
  }

  /** Exactly these interactions are stored, each compiled, under its command. */
  ghost predicate InteractionsImage(interactions: seq<Interactions.ImportInteraction>,
                                    stored: map<string, Node<Cell>>) {
    && (forall c | c in stored :: exists k :: 0 <= k < |interactions| && CommandOf(interactions[k]) == c)
    && (forall k | 0 <= k < |interactions| ::
          CommandOf(interactions[k]) in stored && IsCompiled(interactions[k], stored[CommandOf(interactions[k])]))
  }

  ghost predicate IsCompiled(attrs: Interactions.ImportInteraction, node: Node<Cell>) {
    exists i :: Compiles(attrs, None, i) && node == StoredForm(i)
  }

  /** Exactly these objects are listed, each under its own name. */
  ghost predicate InventoryImage(inventory: seq<Did>, objectNames: map<Did, string>, names: Listing) {
    && (forall n | n in names :: names[n] in inventory && names[n] in objectNames && objectNames[names[n]] == n)
    && (forall did | did in inventory ::
        did in objectNames && objectNames[did] in names && names[objectNames[did]] == did)
  }

  /** The tree holds the complete payload. */
  ghost predicate Image(objectNames: map<Did, string>, d: Payload, tree: Node<Cell>) {
    && DataImage(d.data, tree)
    && InteractionsImage(d.interactions, StoredInteractions(tree))
    && InventoryImage(d.inventory, objectNames, ListingOf(tree))
  }

  predicate CleanCommand(command: string) {
    command != "" && '/' !in command
  }

  ghost predicate CleanCommands(interactions: seq<Interactions.ImportInteraction>) {
    forall k | 0 <= k < |interactions| :: CleanCommand(CommandOf(interactions[k]))
  }

  /** Every object has a name of its own. */
  ghost predicate CleanInventory(inventory: seq<Did>, objectNames: map<Did, string>) {
    && (forall did | did in inventory :: did in objectNames)
    && (forall d, e | d in inventory && e in inventory && objectNames[d] == objectNames[e] :: d == e)
  }

  ghost predicate Clean(objectNames: map<Did, string>, d: Payload) {
    Loadable(d.data) && CleanCommands(d.interactions) && CleanInventory(d.inventory, objectNames)
  }

  ghost predicate Importable(d: Payload) {
    Convertible(d.interactions) && DistinctCommands(d.interactions)
  }

  ghost predicate DistinctCommands(interactions: seq<Interactions.ImportInteraction>) {
    forall j, k | 0 <= j < k < |interactions| :: CommandOf(interactions[j]) != CommandOf(interactions[k])
  }

  /** Below this path lies a part of the game's data that the others are kept apart from. */
  lemma WriteBelowRoot(tree: Node<Cell>, path: Path, sub: Node<Cell>)
    requires path != [] && path[0] == ROOT
    ensures HashOf(SetPath(tree, path, sub)) == HashOf(tree)
  {
    ResolveAfterSet(tree, path, sub, HASH_PATH);
  }

  lemma LongPrefix(path: Path, q: Path)
    requires INTERACTIONS_PATH <= path && q <= path && |q| >= 2
    ensures INTERACTIONS_PATH <= q
  {
    assert q[..2] == path[..2];
  }

  lemma InteractionWriteFrame(data: map<string, Value>, tree: Node<Cell>, path: Path, sub: Node<Cell>)
    requires INTERACTIONS_PATH <= path && sub.Dir?
    ensures DataImage(data, tree) ==> DataImage(data, SetPath(tree, path, sub))
    ensures ListingOf(SetPath(tree, path, sub)) == ListingOf(tree)
  {
    hide SetPath, Resolve;
    var after := SetPath(tree, path, sub);
    ResolveAfterSet(tree, path, sub, INVENTORY_PATH);
    assert path[1] == "interactions";
    if DataImage(data, tree) {
      forall q: Path | q != [] && q[0] == ROOT && !(INTERACTIONS_PATH <= q) && !(INVENTORY_PATH <= q)
        ensures LeafAt(after, q) ==
                if LeafIn(VMap(data), q[1..]).Some? then Some(Scalar(LeafIn(VMap(data), q[1..]).value)) else None
      {
        LeafAfterSetDir(tree, path, sub, q);
        if q <= path && |q| >= 2 {
          LongPrefix(path, q);
        }
      }
    }
  }

  lemma InventoryWriteFrame(data: map<string, Value>, tree: Node<Cell>, names: Listing)
    ensures var after := SetPath(tree, INVENTORY_PATH, StoredListing(names));
            && (DataImage(data, tree) ==> DataImage(data, after))
            && StoredInteractions(after) == StoredInteractions(tree)
            && ListingOf(after) == names
            && HashOf(after) == HashOf(tree)
  {
    hide SetPath, Resolve;
    var after := SetPath(tree, INVENTORY_PATH, StoredListing(names));
    ResolveAfterSet(tree, INVENTORY_PATH, StoredListing(names), INTERACTIONS_PATH);
    MapAfterSet(tree, INVENTORY_PATH, StoredListing(names).entries);
    WriteBelowRoot(tree, INVENTORY_PATH, StoredListing(names));
    assert INVENTORY_PATH[1] != INTERACTIONS_PATH[1];
    assert !Comparable(INVENTORY_PATH, INTERACTIONS_PATH);
    if DataImage(data, tree) {
      forall q: Path | q != [] && q[0] == ROOT && !(INTERACTIONS_PATH <= q) && !(INVENTORY_PATH <= q)
        ensures LeafAt(after, q) ==
                if LeafIn(VMap(data), q[1..]).Some? then Some(Scalar(LeafIn(VMap(data), q[1..]).value)) else None
      {
        LeafAfterSetDir(tree, INVENTORY_PATH, StoredListing(names), q);
        if q <= INVENTORY_PATH {
          assert q == [ROOT];
        }
      }
    }
  }

  lemma HashWriteFrame(objectNames: map<Did, string>, d: Payload, tree: Node<Cell>)
    ensures var after := SetPath(tree, HASH_PATH, Leaf(ImportHash(d)));
            HashOf(after) == Some(ImportHash(d)) && (Image(objectNames, d, tree) ==> Image(objectNames, d, after))
  {
    hide SetPath, Resolve, InteractionsImage, InventoryImage;
    var after := SetPath(tree, HASH_PATH, Leaf(ImportHash(d)));
    LeafAfterSet(tree, HASH_PATH, ImportHash(d), HASH_PATH);
    forall q: Path | q != [] && q[0] == ROOT ensures Resolve(after, q) == Resolve(tree, q) {
      assert !Comparable(HASH_PATH, q);
      ResolveAfterSet(tree, HASH_PATH, Leaf(ImportHash(d)), q);
    }
  }

  function InteractionKey(command: string): string {
    DataPath("interactions" + "/" + command)
  }

  lemma InteractionSplit(command: string)
    ensures Split("interactions" + "/" + command, '/') == ["interactions"] + Split(command, '/')
    ensures "" in Split("interactions" + "/" + command, '/') <==> "" in Split(command, '/')
  {
    SplitPrefix("interactions", command, '/');
    hide Split;
    assert "interactions" != "";
  }

  lemma InteractionPath(command: string)
    ensures DecodePath(InteractionKey(command)) ==
            if "" in Split(command, '/') then None else Some(INTERACTIONS_PATH + Split(command, '/'))
  {
    hide Split, DecodePath;
    InteractionSplit(command);
    DecodeDataPath("interactions" + "/" + command);
    var parts := Split(command, '/');
    assert [ROOT] + (["interactions"] + parts) == INTERACTIONS_PATH + parts;
  }

  /** Loading clean data leaves the places of interactions and inventory free. */
  lemma LoadedBare(data: map<string, Value>, updates: seq<Update<Cell>>)
    requires Replays(data, updates) && (forall key :: key in RESERVED_KEYS ==> key !in data)
    ensures var tree := SetAll(Dir(map[]), updates);
            StoredInteractions(tree) == map[] && ListingOf(tree) == map[]
  {
    forall k, q | 0 <= k < |updates| && q in {INTERACTIONS_PATH, INVENTORY_PATH} ensures !Comparable(updates[k].0, q) {
      var path := updates[k].0;
      assert LeafIn(VMap(data), path[1..]).Some?;
      assert path[1..][0] in data && path[1] == path[1..][0];
      assert q[1] in RESERVED_KEYS;
    }
    hide SetAll;
    UnrelatedPathUnchanged(Dir(map[]), updates, INTERACTIONS_PATH);
    UnrelatedPathUnchanged(Dir(map[]), updates, INVENTORY_PATH);
  }

  const ALREADY_EXISTS := "interaction already exists"
  const NOT_DELIVERED := "error updating chaintree"

  class TreeUpdate {
    const objectNames: map<Did, string>
    /** Whether every block gets through. */
    const reliable: bool
    var tree: Node<Cell>
    var blocks: nat

    /** A stored hash vouches for the whole payload. */
    ghost predicate Valid()
      reads this
    {
      match HashOf(tree)
      case Some(ImportHash(d)) => Clean(objectNames, d) ==> Image(objectNames, d, tree)
      case _ => true
    }

    constructor (objectNames: map<Did, string>, reliable: bool)
      ensures Valid() && this.objectNames == objectNames && this.reliable == reliable
    {
      this.objectNames, this.reliable := objectNames, reliable;
      tree, blocks := Dir(map[]), 0;
    }

    method Write(path: Path, sub: Node<Cell>) returns (delivered: bool)
      modifies this
      ensures reliable ==> delivered
      ensures tree == if delivered then SetPath(old(tree), path, sub) else old(tree)
      ensures blocks == if delivered then old(blocks) + 1 else old(blocks)
    {
      var lost: bool := *;
      delivered := reliable || !lost;
      if delivered {
        tree, blocks := SetPath(tree, path, sub), blocks + 1;
      }
    }

    method LoadBasicData(data: map<string, Value>) returns (r: Result<Unit>)
      requires tree == Dir(map[])
      modifies this
      ensures HashOf(tree).None?
      ensures (exists key :: key in RESERVED_KEYS && key in data) ==>
                r.Err? && tree == old(tree) && blocks == old(blocks)
      ensures r.Panicked? <==> (forall key :: key in RESERVED_KEYS ==> key !in data) && !Printable(VMap(data))
      ensures r.Ok? ==> (Rebuilds(data, tree) <==> Loadable(data))
      ensures Loadable(data) && r.Ok? ==> StoredInteractions(tree) == map[] && ListingOf(tree) == map[]
      ensures Loadable(data) && reliable ==> r.Ok?
      ensures r != Err(ALREADY_EXISTS)
    {
      hide FlattenedInto, Printable, Split, LeafIn, SetPath, LeafAt, CleanLeaves, Rebuilds;
      assert HashOf(tree).None? by { NoHash(); }
      if data == map[] {
        EmptyData();
        return Ok(Unit);
      }
      for i := 0 to |RESERVED_KEYS|
        invariant forall k | 0 <= k < i :: RESERVED_KEYS[k] !in data
      {
        if RESERVED_KEYS[i] in data {
          return Err("error reserved key");
        }
      }
      var flattener := new Flattener();
      var ok := flattener.Flatten(data);
      if !ok {
        return Panicked;
      }
      var keys := Keys(flattener.result);
      var sortedKeys := SortStrings(keys);
      SameDistinct(keys, sortedKeys);
      LoadedIff(data, flattener.result, sortedKeys);
      r := ReplayKeys(flattener.result, sortedKeys);
      if Loadable(data) {
        CleanReplays(data, flattener.result, sortedKeys);
        LoadedBare(data, Replay(flattener.result, sortedKeys));
      }
    }

    method ReplayKeys(flatPaths: map<string, string>, sortedKeys: seq<string>) returns (r: Result<Unit>)
      modifies this
      ensures HashOf(tree) == HashOf(old(tree))
      ensures r.Ok? || (r.Err? && r.error != ALREADY_EXISTS)
      ensures r.Ok? ==> tree == SetAll(old(tree), Replay(flatPaths, sortedKeys))
      ensures r.Ok? ==> forall k | 0 <= k < |sortedKeys| :: "" !in Split(sortedKeys[k], '/')
      ensures reliable && (forall k | 0 <= k < |sortedKeys| :: "" !in Split(sortedKeys[k], '/')) ==> r.Ok?
    {
      hide SetPath, SetAll, Split, Replay, DecodePath, HashOf;
      NoReplay(tree, flatPaths);
      for i := 0 to |sortedKeys|
        invariant HashOf(tree) == HashOf(old(tree))
        invariant forall k | 0 <= k < i :: "" !in Split(sortedKeys[k], '/')
        invariant tree == SetAll(old(tree), Replay(flatPaths, sortedKeys[..i]))
      {
        var path := DecodePath(DataPath(sortedKeys[i]));
        DecodeDataPath(sortedKeys[i]);
        if path.None? {
          return Err("updating location data");
        }
        ReplayOne(old(tree), flatPaths, sortedKeys, i);
        var val := ValueOf(flatPaths, sortedKeys[i]);
        WriteBelowRoot(tree, path.value, Leaf(Scalar(val)));
        var delivered := Write(path.value, Leaf(Scalar(val)));
        if !delivered {
          return Err(NOT_DELIVERED);
        }
      }
      assert sortedKeys[..|sortedKeys|] == sortedKeys;
      r := Ok(Unit);
    }

    method AddInteraction(interaction: Interactions.Interaction) returns (r: Result<Unit>)
      modifies this
      ensures HashOf(tree) == HashOf(old(tree)) && ListingOf(tree) == ListingOf(old(tree))
      ensures !r.Ok? ==> tree == old(tree)
      ensures r.Ok? ==>
                exists path | INTERACTIONS_PATH <= path :: tree == SetPath(old(tree), path, StoredForm(interaction))
      ensures var command, stored := Interactions.GetCommand(interaction), StoredInteractions(old(tree));
              CleanCommand(command) ==>
                && (reliable && command !in stored ==> r.Ok?)
                && (r == Err(ALREADY_EXISTS) ==> command in stored)
                && (r.Ok? ==>
                    command !in stored && StoredInteractions(tree) == stored[command := StoredForm(interaction)])
    {
      hide SetPath, Resolve, DecodePath, Split, HashOf, ListingOf, StoredForm;
      var command := Interactions.GetCommand(interaction);
      ResolveChild(tree, INTERACTIONS_PATH, command);
      var present := Resolve(tree, INTERACTIONS_PATH + [command]);
      if present.Some? {
        return if present.value.Leaf? then Panicked else Err(ALREADY_EXISTS);
      }
      var path := DecodePath(InteractionKey(command));
      InteractionPath(command);
      if CleanCommand(command) {
        SplitWhole(command, '/');
      }
      if path.None? {
        return Err("error updating path");
      }
      StoredFormIsDir(interaction);
      InteractionWriteFrame(map[], tree, path.value, StoredForm(interaction));
      WriteBelowRoot(tree, path.value, StoredForm(interaction));
      var delivered := Write(path.value, StoredForm(interaction));
      if !delivered {
        return Err(NOT_DELIVERED);
      }
      r := Ok(Unit);
      if CleanCommand(command) {
        StoredAtCommand(old(tree), command, StoredForm(interaction));
      }
    }

    method LoadInteraction(attrs: Interactions.ImportInteraction, ghost data: map<string, Value>)
      returns (r: Result<Unit>)
      modifies this
      ensures HashOf(tree) == HashOf(old(tree)) && ListingOf(tree) == ListingOf(old(tree))
      ensures DataImage(data, old(tree)) ==> DataImage(data, tree)
      ensures !r.Ok? ==> tree == old(tree)
      ensures var command, stored := CommandOf(attrs), StoredInteractions(old(tree));
              CleanCommand(command) ==>
                && (reliable && ConvertOutcome(attrs, None).Fine? && command !in stored ==> r.Ok?)
                && (r == Err(ALREADY_EXISTS) ==> command in stored)
                && (r.Ok? ==> ConvertOutcome(attrs, None).Fine? && OneMore(attrs, stored, StoredInteractions(tree)))
    {
      hide HashOf, ListingOf, StoredInteractions, DataImage, Compiles, StoredForm, ConvertOutcome;
      var interaction := ConvertImportInteraction(attrs, None);
      if !interaction.Ok? {
        return if interaction.Panicked? then Panicked else Err("error casting interaction");
      }
      CompiledCommand(attrs, interaction.value);
      hide Interactions.GetCommand, CommandOf;
      r := AddInteraction(interaction.value);
      if r.Ok? {
        AddedFrame(data, old(tree), tree, interaction.value);
      }
    }

    method LoadInteractions(interactions: seq<Interactions.ImportInteraction>, ghost data: map<string, Value>)
      returns (r: Result<Unit>)
      modifies this
      ensures HashOf(tree) == HashOf(old(tree)) && ListingOf(tree) == ListingOf(old(tree))
      ensures DataImage(data, old(tree)) ==> DataImage(data, tree)
      ensures CleanCommands(interactions) && StoredInteractions(old(tree)) == map[] ==>
                && (r.Ok? ==> InteractionsImage(interactions, StoredInteractions(tree)) && Convertible(interactions))
                && (r == Err(ALREADY_EXISTS) ==> !DistinctCommands(interactions))
                && (r.Ok? ==> DistinctCommands(interactions))
                && (reliable && Convertible(interactions) && DistinctCommands(interactions) ==> r.Ok?)
    {
      hide HashOf, ListingOf, StoredInteractions, DataImage, ConvertOutcome, OneMore, CommandOf, IsCompiled,
           CleanCommand;
      ghost var fits := CleanCommands(interactions) && StoredInteractions(old(tree)) == map[];
      for k := 0 to |interactions|
        invariant HashOf(tree) == HashOf(old(tree)) && ListingOf(tree) == ListingOf(old(tree))
        invariant DataImage(data, old(tree)) ==> DataImage(data, tree)
        invariant fits ==> InteractionsImage(interactions[..k], StoredInteractions(tree))
        invariant fits ==> Convertible(interactions[..k]) && DistinctCommands(interactions[..k])
      {
        hide InteractionsImage, DistinctCommands;
        ghost var stored := StoredInteractions(tree);
        if fits {
          AlreadyStored(interactions, k, stored);
        }
        r := LoadInteraction(interactions[k], data);
        if !r.Ok? {
          return;
        }
        if fits {
          OneMoreInteraction(interactions, k, stored, StoredInteractions(tree));
        }
      }
      assert interactions[..|interactions|] == interactions;
      r := Ok(Unit);
    }

    method AddObject(did: Did, ghost data: map<string, Value>) returns (r: Result<Unit>)
      modifies this
      ensures HashOf(tree) == HashOf(old(tree)) && StoredInteractions(tree) == StoredInteractions(old(tree))
      ensures DataImage(data, old(tree)) ==> DataImage(data, tree)
      ensures r.Ok? || (r.Err? && r.error != ALREADY_EXISTS)
      ensures reliable && did in objectNames ==> r.Ok?
      ensures r.Ok? && Injective(ListingOf(old(tree))) ==>
                if Lists(ListingOf(old(tree)), did) then ListingOf(tree) == ListingOf(old(tree))
                else did in objectNames && AddedTo(ListingOf(old(tree)), did, objectNames[did], ListingOf(tree))
    {
      hide HashOf, ListingOf, StoredInteractions, DataImage, SetPath, StoredListing, AddedTo, Lists, Injective;
      var inventory := new InventoryTree();
      inventory.names := ListingOf(tree);
      var listed := inventory.Exists(did);
      var name := if did in objectNames then Some(objectNames[did]) else None;
      var lost: bool := *;
      r := inventory.Add(did, name, reliable || !lost);
      if r.Ok? && !listed {
        InventoryWriteFrame(data, tree, inventory.names);
        tree, blocks := SetPath(tree, INVENTORY_PATH, StoredListing(inventory.names)), blocks + 1;
      }
      if r.Err? {
        r := Err("error updating objects in inventory");
      }
    }

    method LoadInventory(inventory: seq<Did>, ghost data: map<string, Value>) returns (r: Result<Unit>)
      modifies this
      ensures HashOf(tree) == HashOf(old(tree)) && StoredInteractions(tree) == StoredInteractions(old(tree))
      ensures DataImage(data, old(tree)) ==> DataImage(data, tree)
      ensures r.Ok? || (r.Err? && r.error != ALREADY_EXISTS)
      ensures CleanInventory(inventory, objectNames) && ListingOf(old(tree)) == map[] ==>
                && (r.Ok? ==> InventoryImage(inventory, objectNames, ListingOf(tree)))
                && (reliable ==> r.Ok?)
    {
      hide HashOf, ListingOf, StoredInteractions, DataImage, AddedTo, Lists, Injective, InventoryImage;
      ghost var fits := CleanInventory(inventory, objectNames) && ListingOf(old(tree)) == map[];
      NothingListed(objectNames);
      for k := 0 to |inventory|
        invariant HashOf(tree) == HashOf(old(tree)) && StoredInteractions(tree) == StoredInteractions(old(tree))
        invariant DataImage(data, old(tree)) ==> DataImage(data, tree)
        invariant fits ==> InventoryImage(inventory[..k], objectNames, ListingOf(tree))
      {
        ghost var names := ListingOf(tree);
        if fits {
          assert inventory[k] in inventory && inventory[k] in objectNames;
          ImageIsInjective(inventory[..k], objectNames, names);
        }
        r := AddObject(inventory[k], data);
        if !r.Ok? {
          return;
        }
        if fits {
          OneMoreObject(inventory, objectNames, k, names, ListingOf(tree));
        }
      }
      assert inventory[..|inventory|] == inventory;
      r := Ok(Unit);
    }

    /**
     Nothing is written when the payload is the one last imported. Otherwise the tree is emptied and loaded anew,
     and its hash is written last; so a run that breaks off anywhere leaves a tree without a hash.
     */
    method UpdateTreeIfChanged(d: Payload) returns (r: Result<Unit>)
      modifies this
      ensures old(Valid()) || (r.Ok? && HashOf(old(tree)) != Some(ImportHash(d))) ==> Valid()
      ensures HashOf(old(tree)) == Some(ImportHash(d)) ==> r.Ok? && tree == old(tree) && blocks == old(blocks)
      ensures r.Ok? ==> HashOf(tree) == Some(ImportHash(d))
      ensures !r.Ok? ==> HashOf(tree).None? || tree == old(tree)
      ensures Clean(objectNames, d) && DistinctCommands(d.interactions) ==> r != Err(ALREADY_EXISTS)
      ensures Clean(objectNames, d) && HashOf(old(tree)) != Some(ImportHash(d)) ==>
                (r.Ok? ==> Importable(d)) && (reliable && Importable(d) ==> r.Ok?)
    {
      hide HashOf, ListingOf, StoredInteractions, DataImage, InteractionsImage, InventoryImage, SetPath, Convertible,
        DistinctCommands, CleanCommands, CleanInventory, Loadable;
      if HashOf(tree) == Some(ImportHash(d)) {
        return Ok(Unit);
      }
      var delivered := Write([], Dir(map[]));
      if !delivered {
        return Err(NOT_DELIVERED);
      }
      assert tree == Dir(map[]) by { Emptied(old(tree)); }
      r := LoadAll(d);
      if !r.Ok? {
        return;
      }
      HashWriteFrame(objectNames, d, tree);
      delivered := Write(HASH_PATH, Leaf(ImportHash(d)));
      if !delivered {
        return Err(NOT_DELIVERED);
      }
    }

    /** The update function of a location; an object has no inventory. */
    method LoadAll(d: Payload) returns (r: Result<Unit>)
      requires tree == Dir(map[])
      modifies this
      ensures HashOf(tree).None?
      ensures Clean(objectNames, d) ==>
                && (r.Ok? ==> Image(objectNames, d, tree) && Importable(d))
                && (DistinctCommands(d.interactions) ==> r != Err(ALREADY_EXISTS))
                && (reliable && Importable(d) ==> r.Ok?)
    {
      hide HashOf, ListingOf, StoredInteractions, DataImage, InteractionsImage, InventoryImage, SetPath, Convertible,
        DistinctCommands, CleanCommands, CleanInventory, Loadable, Rebuilds;
      r := LoadBasicData(d.data);
      if !r.Ok? {
        return;
      }
      if Rebuilds(d.data, tree) {
        RebuiltData(d.data, tree);
      }
      r := LoadInteractions(d.interactions, d.data);
      if !r.Ok? {
        return;
      }
      r := LoadInventory(d.inventory, d.data);
    }

    /**
     How the prize handler turns an object that was imported as spawn into a prize: the game's data is emptied, then
     the prize is imported. The emptying leaves the hash, so a prize with the very payload of the spawn stays empty.
     */
    method MakePrize(prize: Payload) returns (r: Result<Unit>)
      modifies this
      ensures r.Ok? && HashOf(old(tree)) != Some(ImportHash(prize)) ==>
                Valid() && HashOf(tree) == Some(ImportHash(prize))
      ensures r.Ok? && HashOf(old(tree)) != Some(ImportHash(prize)) && Clean(objectNames, prize) ==>
                Image(objectNames, prize, tree)
      ensures r.Ok? && HashOf(old(tree)) == Some(ImportHash(prize)) ==> MapAt(tree, [ROOT]) == map[]
      ensures reliable && HashOf(old(tree)) == Some(ImportHash(prize)) ==> r.Ok?
      ensures reliable && Clean(objectNames, prize) && Importable(prize) ==> r.Ok?
    {
      hide SetPath, Image, Clean;
      WriteBelowRoot(tree, [ROOT], Dir(map[]));
      MapAfterSet(tree, [ROOT], map[]);
      var delivered := Write([ROOT], Dir(map[]));
      if !delivered {
        return Err(NOT_DELIVERED);
      }
      r := UpdateTreeIfChanged(prize);
    }
  }

  /** A command with a slash is stored where no lookup finds it, so a second one like it is not noticed either. */
  lemma SlashCommandIsLost(tree: Node<Cell>, command: string, form: Node<Cell>)
    requires '/' in command && DecodePath(InteractionKey(command)).Some?
    requires command !in StoredInteractions(tree)
    ensures command !in StoredInteractions(SetPath(tree, DecodePath(InteractionKey(command)).value, form))
  {
    InteractionPath(command);
    var parts := Split(command, '/');
    assert parts[0] in parts;
    MapAfterSetBelow(tree, INTERACTIONS_PATH, parts[0], parts[1..], form);
    assert INTERACTIONS_PATH + [parts[0]] + parts[1..] == INTERACTIONS_PATH + parts;
  }

  lemma Emptied(tree: Node<Cell>)
    ensures SetPath(tree, [], Dir(map[])) == Dir(map[])
  {
  }

  lemma RebuiltData(data: map<string, Value>, tree: Node<Cell>)
    requires Rebuilds(data, tree)
    ensures DataImage(data, tree)
  {
  }

  lemma NothingListed(objectNames: map<Did, string>)
    ensures InventoryImage([], objectNames, map[])
  {
  }

  lemma ImageIsInjective(inventory: seq<Did>, objectNames: map<Did, string>, names: Listing)
    requires InventoryImage(inventory, objectNames, names)
    ensures Injective(names)
  {
  }

  lemma OneMoreObject(inventory: seq<Did>, objectNames: map<Did, string>, k: nat, names: Listing, after: Listing)
    requires k < |inventory| && CleanInventory(inventory, objectNames)
    requires InventoryImage(inventory[..k], objectNames, names)
    requires if Lists(names, inventory[k]) then after == names
             else AddedTo(names, inventory[k], objectNames[inventory[k]], after)
    ensures InventoryImage(inventory[..k + 1], objectNames, after)
  {
    var did := inventory[k];
    var prefix, longer := inventory[..k], inventory[..k + 1];
    assert longer == prefix + [did];
    assert forall d | d in prefix :: d in inventory;
    if objectNames[did] in names {
      assert names[objectNames[did]] in inventory;
      assert names[objectNames[did]] == did;
      assert Lists(names, did);
    }
  }

  /** One more interaction is stored, compiled, under a command that was free. */
  ghost predicate OneMore(attrs: Interactions.ImportInteraction, before: map<string, Node<Cell>>,
                          after: map<string, Node<Cell>>) {
    CommandOf(attrs) !in before &&
    exists i :: Compiles(attrs, None, i) && after == before[CommandOf(attrs) := StoredForm(i)]
  }

  ghost predicate Convertible(interactions: seq<Interactions.ImportInteraction>) {
    forall k | 0 <= k < |interactions| :: ConvertOutcome(interactions[k], None).Fine?
  }

  lemma AlreadyStored(interactions: seq<Interactions.ImportInteraction>, k: nat, stored: map<string, Node<Cell>>)
    requires k < |interactions| && InteractionsImage(interactions[..k], stored)
    ensures CommandOf(interactions[k]) in stored ==> !DistinctCommands(interactions)
  {
    hide CommandOf;
    var prefix := interactions[..k];
    if CommandOf(interactions[k]) in stored {
      var j :| 0 <= j < |prefix| && CommandOf(prefix[j]) == CommandOf(interactions[k]);
      assert CommandOf(interactions[j]) == CommandOf(interactions[k]);
    }
  }

  lemma AddedFrame(data: map<string, Value>, before: Node<Cell>, after: Node<Cell>, i: Interactions.Interaction)
    requires exists path | INTERACTIONS_PATH <= path :: after == SetPath(before, path, StoredForm(i))
    ensures DataImage(data, before) ==> DataImage(data, after)
  {
    var path :| INTERACTIONS_PATH <= path && after == SetPath(before, path, StoredForm(i));
    InteractionWriteFrame(data, before, path, StoredForm(i));
  }

  lemma OneMoreInteraction(interactions: seq<Interactions.ImportInteraction>, k: nat, stored: map<string, Node<Cell>>,
                           after: map<string, Node<Cell>>)
    requires k < |interactions| && InteractionsImage(interactions[..k], stored)
    requires DistinctCommands(interactions[..k]) && OneMore(interactions[k], stored, after)
    ensures InteractionsImage(interactions[..k + 1], after)
    ensures DistinctCommands(interactions[..k + 1])
  {
    hide Compiles, CommandOf, StoredForm;
    var prefix, next := interactions[..k], interactions[k];
    var i :| Compiles(next, None, i) && after == stored[CommandOf(next) := StoredForm(i)];
    assert IsCompiled(next, StoredForm(i));
    assert interactions[..k + 1] == prefix + [next];
    hide IsCompiled, OneMore;
    ImageSnoc(prefix, next, stored, StoredForm(i));
  }

  lemma ImageSnoc(prefix: seq<Interactions.ImportInteraction>, next: Interactions.ImportInteraction,
                  stored: map<string, Node<Cell>>, form: Node<Cell>)
    requires InteractionsImage(prefix, stored) && DistinctCommands(prefix)
    requires CommandOf(next) !in stored && IsCompiled(next, form)
    ensures InteractionsImage(prefix + [next], stored[CommandOf(next) := form])
    ensures DistinctCommands(prefix + [next])
  {
    hide IsCompiled, CommandOf;
    var longer := prefix + [next];
    var after := stored[CommandOf(next) := form];
    assert longer[|prefix|] == next;
    forall c | c in after ensures exists j :: 0 <= j < |longer| && CommandOf(longer[j]) == c {
      if c != CommandOf(next) {
        var j :| 0 <= j < |prefix| && CommandOf(prefix[j]) == c;
        assert CommandOf(longer[j]) == c;
      }
    }
  }

  lemma StoredFormIsDir(i: Interactions.Interaction)
    ensures StoredForm(i).Dir?
  {
  }

  lemma StoredAtCommand(tree: Node<Cell>, command: string, form: Node<Cell>)
    ensures StoredInteractions(SetPath(tree, INTERACTIONS_PATH + [command], form)) ==
            StoredInteractions(tree)[command := form]
  {
    MapAfterSetBelow(tree, INTERACTIONS_PATH, command, [], form);
    assert INTERACTIONS_PATH + [command] + [] == INTERACTIONS_PATH + [command];
  }

  lemma NoHash()
    ensures HashOf(Dir(map[])).None?
  {
  }
}
