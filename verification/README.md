# A model of the game's chain trees, transfers, courts and imports

The game keeps everything it knows in chain trees: append-only chains of blocks, each signed by an owner and pointing
back at the tip it extends. Around them run several protocols, and this project models those with the hardest promises
and proves what they keep in every run.

* `ChainTrees`, `TreeData` and `History` are the store: the forward step of a block, the data it leaves, and the walks
  back over a chain that ask for a height or for the changes of ownership.
* `Inventory`, `Transfer`, `TransferHandlers`, `InventoryActor` and `PlayerInventory` are objects and how they change
  hands. `Transfer` is a state machine of both parties, the network and other writers; `TransferHandlers` holds the two
  handlers as they are written, with everybody else running between any two calls, proved to be runs of that machine.
* `Elements`, `Recipes`, `BowlChains`, `ObjectTrees`, `NamedTrees` and `Combiner` are the element combiner: names and
  ids, the recipe index, the check of an element's origin, the bowl a player's offerings are collected in, and whole
  sessions of offers and a pickup.
* `Flatmap`, `ImportData`, `Importer`, `Interactions`, `InteractionImport` and `GameInterpreter` are the import pipeline,
  from nested data and nested interactions to the tree, and the interpreter that runs what was stored.
* `PrizeSpawning`, `PrizeLedger` and `Winners` are the prize handler, its record of awards, and the program that reads
  the record back.
* `Inscriptions` and `EndGame` are the check of the five altars.
* `TipStore` and `NodeCache` are the lookup of tips over a stale remote and the export of nodes.
* `Text`, `Sorting`, `StringSlice`, `MapOrders` and `Wrappers` are the library calls all of them rest on.

Classes stand for the objects the program updates in place. Their methods are proved against functions on values or
against state machines, and the lemmas are about those. A Go map is visited by picking any key that is left, so what is
proved holds for every iteration order. `reliable` fields and `delivered`, `accepted` or `ok` arguments say whether the
network takes a block; a claim that does not mention them holds whatever the network does.

Where the code does not do what its comments or tests suggest, the model follows the code, with a concrete run that
shows the failure and, where there is one, the exact condition:

* Exclusive transfers need exactly a receiver who shares no key with the source (`Transfer.ExclusiveIff`), a late
  receiver leaves a second listing behind whenever it can write the target (`PhantomIff`, `PhantomAfterRunIff`), a name
  that is taken at the target can cost the only listing, and only such a name can (`ListedIff`), and another writer can
  strand the object whenever the sender can write it (`StrandedIff`).
* Imported data survives exactly if no path component is empty or holds a slash or a dot (`ImportData.LoadedIff`); the
  function that lists the keys of a flat map still cuts at the dot that used to be the separator.
* A command with a slash is stored where it is not found (`Importer.SlashCommandIsLost`).
* The prize handler empties an object's data but not its import hash, so a prize with the payload of the spawned object
  stays empty (`Importer.TreeUpdate.MakePrize`). A prize whose preparation or hand-over fails
  after it was taken off the location is lost (`PrizeSpawning.RequestLosesIff`, `LostForEver`).
* A refused block in the award record leaves the prize handler without a tree, and the next award panics
  (`PrizeLedger.PrizeTree.TrackPrizeDistribution`).
* An artifact with a sixth inscription is accepted or refused by chance (`Inscriptions.CountsIff`); the first one with
  fewer than two changes of ownership, if those before it have the right history, ends the check without an error and
  keeps its place on the altar (`EndGame.EndGamePrizeHandler.ValidatorFunc`).
* The tip cache counts lookups as uses, so fewer than a hundred recorded dids are not enough to keep a tip
  (`TipStore.LookupsFlushTheCache`), and a lost write leaves store and cache with different tips.
* `StringSlice.Equal` is equality up to order exactly where the first slice has no repeats (`StringSlice.DistinctIff`),
  and answers the same both ways round only for a first slice of at most one element (`SymmetricIff`).
* A tree that was created but never given to the court blocks every retry of the respawn, and of the first offer, as long
  as it is remembered (`PrizeSpawning.StuckWhileRemembered`, `Combiner.ElementCombinerHandler.FindBowl`).
* Loading a cache panics on a length prefix beyond the largest slice (`NodeCache.PanicsIff`).

## Model

| member | source | states |
|---|---|---|
| `ChainTrees.Network.PlayTransactions` | network/localonlynetwork.go:274-330 | A block is accepted iff its handle is the current tip and the signer an owner; then the one new node follows from the old tip's state, and a refused block changes nothing |
| `ChainTrees.Network.FindOrCreate` | network/network.go:268-284 | An existing tree is returned unchanged, a new one starts without a block and belongs to the key in its did |
| `ChainTrees.NextNodeKeepsStoreOk` | network/localonlynetwork.go:287-303 | A forward step keeps every node the result of its predecessor's state and its own transactions, with heights that grow by one |
| `ChainTrees.DataBlockKeepsAuths` | network/localonlynetwork.go:287-303 | Blocks without an ownership transaction leave the owners as they are |
| `ChainTrees.ApplyInOrder` | network/localonlynetwork.go:287-303 | A block's transactions take effect in their order, so the last change of owners counts |
| `TreeData.ResolveAfterSet` | network/localonlynetwork.go:213-219 | What every path resolves to after a SetData at any path: the written node at and below it, a map above it, no change elsewhere |
| `History.AtHeight` | game/trees/height.go:34-81 | Returns the block of that height on the chain for every height up to the tip's, in exactly tip height minus height plus one rounds, and an error above it |
| `History.AncestorUnique` | game/trees/height.go:34-81 | The block found is on the chain and is the only one there of its height |
| `History.OwnershipChanges` | game/trees/ownership.go:45-121 | The loop lists the ownership changes of the chain newest first; it fails exactly on a missing tip or a tree without blocks |
| `History.ChangesExact` | game/trees/ownership.go:45-121 | A change is listed iff its block is on the chain and holds an ownership transaction, with the owners after that block, sorted |
| `History.ChangesDescend` | game/trees/ownership.go:45-121 | Listed heights strictly decrease from the tip's height down |
| `History.SecondOldestIsSecond` | game/trees/ownership.go:45-121 | The second-oldest entry is the one block of the chain that changes ownership above exactly one other |
| `Sorting.SortStringsInOrder` | game/trees/ownership.go:45-121 | The owners listed with a change are in byte-wise order, each as often as it was |
| `History.OwnersAtHeight` | game/trees/ownership.go:30-121 | The two walks agree: the owners at any height are those of the newest listed change up to it, or the tree's own key before any |
| `History.HistoryIsStable` | network/localonlynetwork.go:274-330 | Extending the store changes no old chain's walk, ancestors or changes |
| `History.DescendantChanges` | game/trees/ownership.go:45-121 | Extending a chain only prepends to its list of changes |
| `StringSlice.Index` | utils/stringslice/stringslice.go:4-11 | The first position of the text, -1 iff it is absent |
| `StringSlice.Equal` | utils/stringslice/stringslice.go:19-28 | Same length and every element of the first in the second |
| `StringSlice.EqualIsPermutation` | utils/stringslice/stringslice.go:19-28 | On a first slice without repeats Equal is equality up to order |
| `StringSlice.DistinctIff` | utils/stringslice/stringslice.go:19-28 | The exact condition: Equal is equality up to order against every second slice iff the first has no repeats |
| `StringSlice.EqualCarriesOverIff` | utils/stringslice/stringslice.go:19-28 | A positive answer implies the positive answer the other way round, whatever the second slice, iff the first has no repeats |
| `StringSlice.SymmetricIff` | utils/stringslice/stringslice.go:19-28 | Equal gives the same answer both ways round, whatever the second slice, iff the first has at most one element |
| `StringSlice.EqualIsNotSymmetric` | utils/stringslice/stringslice.go:19-28 | A pair of slices that is equal one way round and not the other |
| `StringSlice.EqualToSingleton` | utils/stringslice/stringslice.go:19-28 | Against one expected element it is plain equality |
| `Text.IntRoundTrip` | courts/autumn/element.go:22-24 | Printing then parsing gives back exactly the 64-bit integers, negatives included, in bases ten and sixteen |
| `Text.PrintedDigits` | courts/autumn/element.go:22-24 | Printed numbers are the usual digits, most significant first |
| `Elements.NameRoundTrip` | courts/autumn/element.go:73-80 | elementNameToId(Name(id)) == id exactly for the 64-bit ids |
| `Elements.UnreadableNameIsZero` | courts/autumn/element.go:73-80 | A name with a character that base sixteen does not have stands for id 0, with or without the prefix |
| `Elements.VerifyOwnershipAt` | game/trees/ownership.go:30-43 | True iff every expected key owned the tree at that height; an error iff the height is above the tip |
| `Elements.ValidateElementOrigin` | courts/autumn/element.go:26-71 | Decides the origin as the history defines it: second-oldest change, owners at block 0, unchanged name, with the error cases |
| `Elements.OriginIff` | courts/autumn/element.go:26-71 | The verdict from the chain alone: valid iff block 0 is the expected owners', a second change of ownership was made, and the name is the one of that moment; an error iff there is no name, no block, or no name at a hand-over by the right owners |
| `Elements.SecondOldestIsFixed` | game/trees/ownership.go:45-121 | No later block moves the second-oldest ownership change |
| `Elements.ProvenanceIsFixed` | courts/autumn/element.go:26-71 | Once an origin is valid, after any later blocks the verdict is exactly whether the name is still the same |
| `Elements.KeyIsMultiset` | courts/autumn/element.go:89-94 | Two ingredient lists have the same printed key iff they are the same multiset |
| `Elements.ElementCombinationMap.Fill` | courts/autumn/element.go:102-107 | After filling, the string-keyed index answers for every list like the recipes it was filled with, the last one winning |
| `Elements.ElementCombinationMap.Find` | courts/autumn/element.go:96-100 | Returns the result of the last recipe with the same multiset of ingredients, and nothing iff there is none |
| `Elements.LastMatchIsListed` | courts/autumn/element.go:87-107 | The match meant: absent only if no recipe has these ingredients, else that of the last such recipe |
| `Elements.LastMatchOrderFree` | courts/autumn/element.go:89-100 | The answer does not depend on the order of the ingredients |
| `Inventory.InventoryTree.All` | game/trees/inventory_tree.go:84-103 | Each did is mapped to a name that lists it, and on a one-to-one listing the result is its inverse |
| `Inventory.InventoryTree.Exists` | game/trees/inventory_tree.go:51-60 | True iff some name resolves to the did |
| `Inventory.InventoryTree.UpdateObjects` | game/trees/inventory_tree.go:190-203 | The stored listing is one-to-one and holds only pairs of the map, one for each name; of objects with one name one is kept |
| `Inventory.InventoryTree.Add` | game/trees/inventory_tree.go:121-153 | No change when the object is there; else it is added under its name, a taken name keeping either of the two; errors change nothing |
| `Inventory.InventoryTree.ForceAdd` | game/trees/inventory_tree.go:155-180 | The object's old name goes and its present one is listed, with the same freedom on a taken name |
| `Inventory.InventoryTree.Remove` | game/trees/inventory_tree.go:105-119 | Exactly the entries of the object go; without any the call succeeds and writes nothing |
| `Inventory.InverseUnique` | game/trees/inventory_tree.go:84-103 | All and updateObjects are mutual inverses: a listing has at most one inverse and is determined by it, and only one-to-one listings have one |
| `Inventory.AddedUnderFreshName` | game/trees/inventory_tree.go:121-153 | Under a free name only the named entry changes, and removing the object again restores the inventory |
| `Inventory.AddedUnderTakenName` | game/trees/inventory_tree.go:190-203 | Under a taken name exactly one of the two objects ends up listed |
| `Inventory.AddedToInjective` | game/trees/inventory_tree.go:190-203 | Listings stay one-to-one whichever object keeps a contested name |
| `Inventory.RemoveThenAdd` | handlers/inventory/unrestricted_remove.go:109-111 | Removing an object and adding it back under its name restores the inventory |
| `Transfer.StepKeepsInv` | handlers/inventory/unrestricted_remove.go:94-137 | Every step of sender, receiver, network and other writers keeps the protocol's invariant |
| `Transfer.ExclusiveOutcome` | handlers/inventory/unrestricted_remove.go:37-46 | In every run at most one of the sender's change back and the receiver's change of owner is accepted, the owners are the source's, the target's or both, and the source never lists what the receiver has taken |
| `Transfer.ExclusiveIff` | handlers/inventory/unrestricted_remove.go:37-46 | The exact condition: in all runs at most one of the two changes of owner is accepted iff the receiver shares no key with the source |
| `Transfer.NothingIsLost` | handlers/inventory/unrestricted_remove.go:94-137 | Without other writers or a lost rollback, whatever else fails, when the sender is done either owners and source listing are as before, or the target owns the object and lists it unless its name was there at the start; a target that listed nothing is unchanged |
| `Transfer.OnlyOwnersList` | handlers/inventory/unrestricted_add.go:61-66 | In every run the receiver goes on only after it has read itself among the object's owners, and lists no object it never was an owner of |
| `Transfer.OthersStay` | game/trees/inventory_tree.go:105-153 | No step of the two handlers costs another object its entry in either inventory, however stale the inventory written back was |
| `Transfer.FreshNameIsListed` | handlers/inventory/unrestricted_add.go:55-74 | With a name that is free at the target at the start, the receiver's change of owner comes with the listing at every moment of every run without other writers |
| `Transfer.ListedIff` | handlers/inventory/unrestricted_add.go:66-74 | The exact condition: in all runs without other writers the receiver's change of owner implies the listing iff no other object has the name at the target at the start |
| `Transfer.InsiderTakesAfterRollback` | handlers/inventory/unrestricted_add.go:55-74 | A receiver who shares a key with the source breaks exclusivity: both changes of owner can be accepted |
| `Transfer.LateReceiverLeavesPhantom` | handlers/inventory/unrestricted_add.go:66-74 | A receiver that loses the race leaves the object listed in both inventories |
| `Transfer.PhantomIff` | handlers/inventory/unrestricted_add.go:66-74 | The exact condition: no run whatever lists the object in both inventories iff the receiver cannot write the target's |
| `Transfer.PhantomAfterRunIff` | handlers/inventory/unrestricted_add.go:66-74 | Of one run without other writers that is over: the object is in both inventories iff the sender gave up and the receiver had listed it, under a name that was free |
| `Transfer.TakenNameCanHideObject` | handlers/inventory/unrestricted_add.go:66-74 | With the name taken at the target, the object can end up listed nowhere though the target owns it |
| `Transfer.OtherWriterStrandsObject` | handlers/inventory/unrestricted_remove.go:94-101 | Another block on the object makes the rollback fail and leaves the object between the two, listed nowhere |
| `Transfer.StrandedIff` | handlers/inventory/unrestricted_remove.go:94-101 | The exact condition: no run strands the object between the two iff the sender cannot write it |
| `Transfer.UndisturbedIsNotStranded` | handlers/inventory/unrestricted_remove.go:37-46 | Without other writers no run strands it under a name that is free at the target |
| `TransferHandlers.Exchange.HandleRequestObjectTransfer` | handlers/inventory/unrestricted_remove.go:94-140 | Whoever the receiver is, the sender as written makes the first of its five calls in order, then the rollbacks of those that succeeded, all or up to one that fails; on a network without loss or other writers it makes all five, and it succeeds iff the wait ends in time with a new block of the object; with an outside receiver and no other writers the object is then the target's or everything is restored |
| `TransferHandlers.Exchange.HandleRollbacks` | handlers/inventory/unrestricted_remove.go:37-46 | The rollbacks called are a prefix of those added, in that order: all of them, or up to the one that fails |
| `TransferHandlers.Exchange.HandleTransferredObject` | handlers/inventory/unrestricted_add.go:29-77 | The receiver as written makes the first of its four calls: one iff the object is listed, two iff it reads no ownership, three for a refused listing, all four else, with success on the first and last only and nothing written before the third; alone on a network without loss, a receiver that owns both ends up with the target as owner |
| `InventoryActor.HandleTransferObject` | game/inventory.go:233-328 | Whoever the receiver is, the handler is called iff the lookups succeed, the source lists the object and the destination does not, which is the protocol's start; on a network without loss the target is then told; a failed handler leaves the asker without a response |
| `PlayerInventory.ExpectationBound` | game/player_inventory_handler.go:43-115 | Over any inputs an object is added at most as often as it was expected, an open expectation counting as not yet used |
| `PlayerInventory.AdditionsExact` | game/player_inventory_handler.go:77-99 | Over any inputs exactly the objects are added whose message is addressed to the player, expected, free of an error and listed, one for each such message, in order |
| `PlayerInventory.OneEventEach` | game/player_inventory_handler.go:54-74 | The add events are exactly the transferred-object messages, one each, in order |
| `PlayerInventory.EventSays` | game/player_inventory_handler.go:57-74 | A message's event has no error iff the message succeeds, only then its text, and else the reason it was turned away |
| `PlayerInventory.RemovalSays` | game/player_inventory_handler.go:45-53 | A request to hand over publishes one remove event iff the object was removed, and changes nothing else |
| `PlayerInventory.ExpectedIff` | game/player_inventory_handler.go:57-115 | An object is expected iff its last concerning input was an expectation, so never right after a message about it |
| `PlayerInventory.PlayerInventoryHandler.Handle` | game/player_inventory_handler.go:43-103 | The handler with its deferred part makes the specified step: sets, events and additions |
| `PlayerInventory.PlayerInventoryHandler.HandleAll` | game/player_inventory_handler.go:43-115 | A whole sequence of inputs leads to the state of the specification, which the bounds are proved about |
| `Recipes.VerdictOrderFree` | courts/autumn/element_combiner_handler.go:246-281 | The verdict on a bowl depends on its set of names only, not on the map's iteration order |
| `Recipes.OffersOrderFree` | courts/autumn/element_combiner_handler.go:246-281 | Lists of the same names, in any order and with any repeats, fill a bowl that comes to the same verdict |
| `Recipes.OfferedElements` | courts/autumn/element_combiner_handler.go:246-281 | Different elements offered are judged by exactly their ids, negative ones included |
| `Recipes.TooFewMatchNothing` | courts/autumn/element_combiner_handler.go:65-70 | What the size check turns away matches no recipe, so the check only chooses the words |
| `Recipes.IssueIff` | courts/autumn/element_combiner_handler.go:179-189 | An element is issued iff the last recipe for the ids makes it, it is a known element, and it is not the blocked one |
| `Recipes.VerdictIff` | courts/autumn/element_combiner_handler.go:253-281 | Too few iff fewer ids than the smallest recipe has; no combination iff enough and no recipe or an unknown element; blocked iff the recipe's element is the blocked one |
| `Recipes.SmallestRecipe` | courts/autumn/element_combiner_handler.go:65-70 | The constructor's loop finds the size of the smallest recipe |
| `Recipes.ElementsById` | courts/autumn/element_combiner_handler.go:72-74 | Exactly the given ids are known, each with an element of that id, the last one given |
| `Combiner.NewElementCombinerHandler` | courts/autumn/element_combiner_handler.go:54-82 | The handler starts with an index that answers like its recipes, elements by their ids with the last of each, and the smallest recipe's size |
| `Combiner.ElementCombinerHandler.IsValidElement` | courts/autumn/element_combiner_handler.go:315-334 | Known element, and valid origin unless it is exempt, with the error cases |
| `Combiner.ValidityIff` | courts/autumn/element_combiner_handler.go:315-334 | Valid iff the name stands for a known element that is exempt or whose chain the court began and handed over under this name; invalid without an error only for a forgery |
| `Combiner.ElementCombinerHandler.FindBowl` | courts/autumn/element_combiner_handler.go:374-449 | The listed tree iff its first block is the court's, else the tree of the location's tip, found or created in the call and prepared as an empty bowl of this player; only that tree is written; a tree that never became the court's fails it as long as it is remembered |
| `Combiner.ElementCombinerHandler.HandleReceiveElement` | courts/autumn/element_combiner_handler.go:336-484 | A true element, begun by the court, handed over and named as it was then, or exempt, becomes the court's and adds exactly its name to the player's bowl, which is listed, and nothing else is ever collected; a forgery loses all owners and the bowl is untouched; on a failure the bowl has at most this one name more; only the offering, the bowl and the tree of the tip are written |
| `Combiner.ElementCombinerHandler.AddToBowl` | courts/autumn/element_combiner_handler.go:452-470 | The offering's did is entered under its name and its name added to the description, and nothing else of the bowl changes |
| `Combiner.ElementCombinerHandler.OfferAll` | courts/autumn/element_combiner_handler.go:336-484 | From a location without a bowl, any run of offers that all got a receipt leaves a bowl with exactly the names of those that were kept; valid offers on a network without loss are all kept |
| `Combiner.ElementCombinerHandler.HandlePickupElement` | courts/autumn/element_combiner_handler.go:191-313 | For every order of the bowl's names: with too few, or an element the player has, the bowl stays; with no recipe or the blocked one it is taken away; else the element is the player's, with its name, description and commands and a valid origin, and the bowl is gone |
| `Combiner.ElementCombinerHandler.Session` | courts/autumn/element_combiner_handler.go:191-484 | Offers and pickup in one run: the answer is the verdict on the names that were kept, for every order the map lists them in |
| `Combiner.TwoSessions` | courts/autumn/element_combiner_handler.go:191-484 | Two whole runs that kept the same names, in whatever order and however often, get the same answer, unless a lost block made one fail; on networks without loss valid offers of the same names always do |
| `Combiner.ElementCombinerHandler.MakeElement` | courts/autumn/element_combiner_handler.go:292-310 | The emptied bowl becomes the element with exactly its name, description and standard commands, belongs to the player and passes the check of its origin |
| `BowlChains.CreationIsCourtMade` | network/network.go:280-292 | A tree created for the court is one whose only change of ownership is its creation |
| `NamedTrees.FindOrCreatePassphraseTree` | network/network.go:268-294 | An existing tree comes back unchanged, a new one is the court's and blank iff its first block gets through; one whose first block did not is returned as it is while it is remembered |
| `NamedTrees.UnownedBelongsToItsKey` | network/network.go:281-291 | A tree whose first block failed has its own key as its only owner, so the court's blocks are refused |
| `NamedTrees.NamedDidInjective` | network/network.go:268-275 | Different names lead to different trees |
| `BowlChains.DataBlockKeepsCourtMade` | courts/autumn/element_combiner_handler.go:398-449 | Data blocks of the court keep it so |
| `BowlChains.HandedOverIsProven` | courts/autumn/element_combiner_handler.go:292-310 | Handing such a tree over under its name makes its origin valid |
| `BowlChains.IssuedStaysProven` | courts/autumn/element_combiner_handler.go:288-312 | Every issued element keeps a valid origin through any later blocks, transfers included, as long as its name stays |
| `BowlChains.WriteField` | game/object_tree.go:193-204 | Each write to an object shows in its own field and in no other |
| `ObjectTrees.ObjectTree.AddInteraction` | game/interactions.go:161-175 | A command that is there already is refused, a new one is stored and nothing else changes |
| `ObjectTrees.ObjectTree.CreateObject` | game/object_tree.go:55-89 | On an emptied object: its name and exactly the three standard commands, each for this object |
| `Flatmap.Flattener.Flatten` | importer/flatmap/flatten.go:17-25 | Panics iff a value of another kind occurs; else every key is a leaf's joined path with that leaf's printed value, and every leaf's path is a key |
| `Flatmap.Flattener.FlattenValue` | importer/flatmap/flatten.go:27-50 | The leaves of the value, prefixed, are written over what was in the shared map, whatever the order of the maps |
| `Flatmap.PrintedScalars` | importer/flatmap/flatten.go:27-50 | Scalars are leaves printed as Go prints them, maps and lists are not leaves |
| `Flatmap.LeafBelow` | importer/flatmap/flatten.go:27-50 | A path goes through a map's keys and a list's printed positions and through nothing else |
| `Flatmap.LeavesPrefixFree` | importer/flatmap/flatten.go:27-73 | No leaf's path is a proper prefix of another's |
| `Flatmap.Keys` | importer/flatmap/map.go:47-64 | Each key once, cut at its first dot |
| `ImportData.ReplayRebuilds` | importer/importer.go:105-136 | Written one by one in any order, the leaves give back the data at every path and nothing else |
| `ImportData.LoadedIff` | importer/importer.go:105-136 | Flatten, cut, sort and replay give back the data iff no path component is empty or holds a slash or a dot |
| `Importer.TreeUpdate.LoadBasicData` | importer/importer.go:105-136 | A reserved key is an error before any write, an unprintable value a panic; the loaded tree holds exactly the data iff the data is clean |
| `Interactions.NewChainedInteraction` | game/interactions.go:262-277 | Decoding the chain gives back its interactions in order |
| `Interactions.ChainedInteractions` | game/interactions.go:279-292 | All interactions in order, or an error if one does not decode |
| `Interactions.UnsealsOnSecretOnly` | game/interactions.go:294-359 | The sealed interaction comes back on exactly the secret, under every nonce, the failure interaction on all else |
| `InteractionImport.ConvertImportInteraction` | importer/importer.go:181-296 | Succeeds, fails or panics exactly as the nested attributes determine, texts that hold YAML included, and a success is a compilation of them; items and failure branches inherit the command, success branches do not |
| `InteractionImport.FineIffWellFormed` | importer/importer.go:181-296 | A conversion succeeds iff every chain has a command and at least one item, every cipher a command, a secret and both branches, and every leaf a known type |
| `InteractionImport.FirstBadPart` | importer/importer.go:253-269 | The first part that cannot be converted decides: a nil one panics, one that holds no interaction is an error |
| `InteractionImport.PartsInherit` | importer/importer.go:204-266 | Items and failure branches without a command are stored under that of the interaction they belong to, success branches under none |
| `GameInterpreter.CompiledMeansTheSame` | importer/importer.go:181-296 | For every nesting and all arguments, running the stored interaction carries out exactly the leaf actions of the imported one in order and stops with the first that fails |
| `GameInterpreter.RunsUpToFailure` | game/game.go:599-625 | Actions are carried out one after another up to and including the first that fails |
| `GameInterpreter.HarmlessRunsSucceed` | game/game.go:571-629 | Answers and changes of place never fail |
| `GameInterpreter.Game.HandleInteractionInput` | game/game.go:571-629 | The recursive interpreter with its loops does what the specification of running an interaction says |
| `GameInterpreter.NestedRunsAreUnattached` | game/game.go:599-625 | Every action of a nested interaction runs with the empty attached did |
| `GameInterpreter.NestedDropFails` | game/game.go:732-735 | So a nested drop of a real object always stops with an error |
| `Importer.TreeUpdate.AddInteraction` | game/interactions.go:161-175 | Refused iff the command is stored already, else stored under it; data and inventory stay |
| `Importer.StoredFormReadsBack` | game/interactions.go:161-175 | What is read back from a stored interaction's type and encoding is the interaction |
| `Importer.ListingReadsBack` | importer/importer.go:138-156 | A stored inventory is the inventory read back |
| `Importer.TreeUpdate.LoadInteractions` | importer/importer.go:298-321 | From a tree without interactions: success means exactly these are stored, compiled, under their commands; already exists is reported only for a repeated command |
| `Importer.TreeUpdate.LoadInventory` | importer/importer.go:138-156 | From an empty listing: success means exactly these objects are listed under their names |
| `Importer.TreeUpdate.UpdateTreeIfChanged` | importer/importer.go:392-441 | A stored hash always vouches for the complete clean payload, however many earlier imports broke off; an unchanged payload writes no block; a rerun of distinct commands never meets one that already exists; with a reliable network it succeeds iff the payload can be imported |
| `Importer.TreeUpdate.MakePrize` | courts/court/prize_handler.go:358-375 | On a reliable network a prize that can be imported is, and the object then holds its complete payload, unless prize and spawned object have the same payload: then the call succeeds and the object stays empty |
| `Importer.SlashCommandIsLost` | game/interactions.go:174-179 | A command with a slash is stored where its lookup does not find it |
| `PrizeLedger.PrizeTree.TrackPrizeDistribution` | courts/court/prize_handler.go:265-294 | One block adds the award under the next number in its bucket and counts it; a refused block leaves no tree |
| `PrizeLedger.LedgerExact` | courts/court/prize_handler.go:265-294 | After N awards the ledger holds exactly the entries 1 to N, entry n in bucket 100*ceil(n/100) |
| `PrizeLedger.RecordAddsEntry` | courts/court/prize_handler.go:265-294 | Recording an award changes the one new entry and no other |
| `Winners.SortNumericKeys` | service/cmd/winners/winners.go:98-122 | The keys as numbers in ascending order; panics iff some key is no number |
| `Winners.ExportWinners` | service/cmd/winners/winners.go:53-92 | For a recorded history whose trees can be fetched, the nested loops emit the awards 1 to N once each, in order, with the dids behind the tips and the player's first owner |
| `Winners.RowsHold` | service/cmd/winners/winners.go:72-90 | Row i holds the number, the player's did, the prize's did and the player's first owner, and exists iff all of them can be looked up |
| `PrizeSpawning.StepKeepsInv` | courts/court/prize_handler.go:155-201 | Every step of transfer, respawn and other writers keeps the invariant, and a location tip stands for one location state |
| `PrizeSpawning.AwardedAtMostOnce` | courts/court/prize_handler.go:296-404 | In every run no object is awarded twice, an awarded one is no longer listed, and at most one spawned object is listed |
| `PrizeSpawning.OthersStay` | game/trees/inventory_tree.go:105-153 | Neither a respawn nor a transfer costs anything else at the location its entry |
| `PrizeSpawning.RetryReusesObject` | courts/court/prize_handler.go:170-198 | As long as the location has no new block, every respawn works on the same object |
| `PrizeSpawning.RespawnIff` | courts/court/prize_handler.go:155-201 | A respawn that nobody interrupts lists the object of the present tip iff import and listing get through and its tree is the court's or becomes it, which a tree that never became the court's does only once it is forgotten |
| `PrizeSpawning.StuckWhileRemembered` | network/network.go:268-294 | An object whose tree never became the court's is not listed or awarded in any run as long as the tree is remembered |
| `PrizeSpawning.LostForEver` | courts/court/prize_handler.go:341-388 | An object removed by a transfer that then failed is never listed or awarded again |
| `PrizeSpawning.FailedPreparationLosesObject` | courts/court/prize_handler.go:358-375 | Such a loss is reached from every start |
| `PrizeSpawning.RequestLosesIff` | courts/court/prize_handler.go:296-389 | The exact condition: an undisturbed request for the listed object loses it iff it takes it off the location and then fails to prepare it or to give it away; all four calls make one award, and any earlier failure leaves it listed |
| `PrizeSpawning.LedgerIsAwards` | courts/court/prize_handler.go:265-394 | In every run the handler's ledger is the ledger of its awards in order, but for one about to be entered, and it exists iff no block on it was refused |
| `PrizeSpawning.PrizeHandler.HandleTransfer` | courts/court/prize_handler.go:296-394 | One request, interleaved with respawns, makes the first of its seven calls up to one that fails; giving the object away is exactly one award, of the object asked for, and its entry in the ledger is the answer: an error when refused, a panic when an earlier refusal left no ledger; a failure between removal and award loses the object, and undisturbed an earlier one changes nothing |
| `PrizeSpawning.PrizeHandler.SpawnObject` | courts/court/prize_handler.go:155-201 | One respawn under the mutex makes its calls in order, up to an object that is there or a call that fails; undisturbed it lists the object of the present tip iff it can, and changes nothing else |
| `TipStore.IPLDTreeStore.GetTipOf` | network/ipldstore.go:62-117 | The answer over store, cache and remote, with the height comparison and each error |
| `TipStore.AnswerIsNewest` | network/ipldstore.go:87-115 | For a did that is not stored the cached tip is answered iff the remote has none or a readable lower one: a newer remote tip is never held back |
| `TipStore.IPLDTreeStore.SaveTreeMetadata` | network/ipldstore.go:160-173 | Both store and cache get the tip, the cache alone when the store's write fails, neither when the signatures' fails |
| `TipStore.IPLDTreeStore.UpdateTreeMetadata` | network/ipldstore.go:175-195 | A did in the store is saved, any other goes to the cache only |
| `TipStore.StoredIsAnswered` | network/ipldstore.go:160-195 | A did that was saved, or updated while stored, is answered from the store whatever happens to others and whatever the remote says |
| `TipStore.OnlySavedAreStored` | network/ipldstore.go:175-195 | Updates and lookups never add a did to the store |
| `TipStore.NextKeepsAgreement` | network/ipldstore.go:160-195 | A did in both store and cache keeps the same tip in each unless a write to the store was lost |
| `TipStore.LostPutBreaksAgreement` | network/ipldstore.go:171-172 | A lost write to the store leaves two different tips |
| `TipStore.CachedIffFewUsed` | network/ipldstore.go:44-60 | A recorded tip is still cached iff fewer than 100 other dids were recorded or looked up in the cache since |
| `TipStore.ReadYourWrites` | network/ipldstore.go:62-117 | No answer has a lower height than the did's last recorded tip, whatever the remote says, while the did is stored or fewer than 100 others were used since |
| `TipStore.ForgottenAfterHundred` | network/ipldstore.go:62-117 | After 100 others the answer is whatever the remote says, however old |
| `TipStore.LookupsFlushTheCache` | network/ipldstore.go:84-91 | Counting recorded dids alone is not enough: lookups move others in front, so one further record can drop a tip |
| `NodeCache.LittleEndianRoundTrip` | cache/cache.go:134-137 | A length comes back from its prefix iff it fits in it |
| `NodeCache.ByteAt` | cache/cache.go:134-137 | Byte i of the prefix is the length's digit of weight 256 to the i |
| `NodeCache.Export` | cache/cache.go:114-148 | The frames of all nodes of the trees up to the first that cannot be fetched |
| `NodeCache.FetchedUpToFailure` | cache/cache.go:114-148 | Exactly the nodes of the trees before the first that fails, in order |
| `NodeCache.Load` | cache/cache.go:46-80 | On every stream it adds exactly the nodes of the whole frames, in order, up to a prefix longer than any slice, where it panics; without one it ends normally |
| `NodeCache.PanicsIff` | cache/cache.go:59-60 | The panic happens iff the stream is some whole frames followed by such a prefix |
| `NodeCache.LoadOfTruncatedExport` | cache/cache.go:46-80 | Of any cut of an export exactly the longest prefix of whole frames comes back, of all of it every node, and none panics |
| `Inscriptions.CountsIff` | courts/arcadia/prize_handler.go:251-286 | An artifact counts in every order of its inscriptions iff they are exactly the five right ones, and in some order iff the five are among them |
| `Inscriptions.AllRightIff` | courts/arcadia/prize_handler.go:251-281 | The five, one by one, the maker's mark also as it was at the hand-over |
| `Inscriptions.CountCorrect` | courts/arcadia/prize_handler.go:251-286 | The loop with its breaks counts as some order of the map gives it |
| `EndGame.CheckArtifact` | courts/arcadia/prize_handler.go:177-286 | What the artifact makes of the loop: it goes on iff creation by the owner, empty creation and owner before the transfer are right, ends without an error iff there are fewer than two changes, with an error on a tree without blocks, with a panic on an unknown one, and breaks else; counted only if the five inscriptions are right, and conversely for at most five |
| `EndGame.CourseIff` | courts/arcadia/prize_handler.go:177-246 | From the chain: an artifact that was never handed over ends the validation silently, one without a block with an error, an unknown one with a panic, and the right history goes on to the next altar |
| `EndGame.HistoryIff` | courts/arcadia/prize_handler.go:177-246 | The right history from the chain: the first change gave the empty tree to the expected owner alone, the second found that owner and inscriptions, and there are inscriptions now |
| `EndGame.ArtifactIff` | courts/arcadia/prize_handler.go:177-286 | A right artifact has that history and the five expected inscriptions, the maker's mark unchanged since the hand-over |
| `EndGame.EndGamePrizeHandler.CollectArtifacts` | courts/arcadia/prize_handler.go:131-165 | Each altar's artifacts by name prefix; an error only if some altar has no inventory, a panic only if one is unknown |
| `EndGame.EndGamePrizeHandler.ValidatorFunc` | courts/arcadia/prize_handler.go:102-319 | True iff the altars are distinct and each holds exactly one artifact, the right one, when inscriptions are at most five each; with distinct altars and an inventory at each it ends silently, with an error or with a panic iff the first altar that does not let the loop go on does, and else with the final rejection, which alone changes inventories: it takes away artifacts on the altars only, and all of them if its blocks get through |

## Left out

- Consensus, signatures, content addressing, storage of nodes, peer-to-peer delivery and actors: a block is accepted iff its handle is the current tip and its signer an owner, tips are numbers no two blocks share, and messages may be lost, late or repeated.
- Cryptography and encodings (secretbox, scrypt, CBOR, protobuf, gzip, YAML, SHA-256): a sealed value opens with its key alone, decoding gives back what was encoded, and hashes and printed payloads are equal for equal payloads only.
- The path decoder of the chain-tree library is not part of this repository; the model drops one leading slash and refuses an empty component.
- Timers and futures: they are steps that may happen at any moment.
- TransferHandlers.Exchange.HandleRequestObjectTransfer: starts where all lookups have succeeded, because the ones before it only return; what the actor checks first is in `InventoryActor.HandleTransferObject`, and that the object's owners are the source's is assumed there as in the source.
- Transfer.NothingIsLost: is about runs in which no other writer touches the three chains and the rollbacks that are sent get through; a block that was accepted although its sender was told it failed is not modelled.
- PlayerInventory.PlayerInventoryHandler.Handle: messages of one player are handled one after another, as its actor does; two at once could share one expectation.
- Combiner.ElementCombinerHandler.FindBowl: a listed tree whose first block is the court's is taken to be a bowl of its making, and a listed did without a tree, on which the program panics, is left out.
- Combiner.ElementCombinerHandler.HandleReceiveElement: the player, who owns the inventory too, lists no tree of another origin as the bowl; FindBowl says what happens then, the rest of the call is left out. Offering the bowl itself or the tree it is made of is covered only where the id their name stands for is not a known element, because entering the bowl in itself would change its origin; the trees a location's later tips stand for do not exist yet; the messages sent back to the player are reduced to the kind of answer.
- Combiner.ElementCombinerHandler.OfferAll: one handler serves the location, and nobody but it writes the offers, the bowl and the inventory during the run.
- Combiner.NewElementCombinerHandler: the constructor's last step, which fetches trees and registers the handler at its location, and its errors are left out.
- NamedTrees.FindOrCreatePassphraseTree: the key derived from a passphrase is an ideal one, different for different names and from the court's; an error of the lookup itself is left out.
- InteractionImport.ConvertImportInteraction: the cast of a leaf's fields to its protobuf type belongs to another repository and always succeeds here; the inherited command is an argument instead of a write into the attributes, which is why items that share their attributes are not modelled.
- GameInterpreter.Game.HandleInteractionInput: a leaf action's effect on the rest of the system is an arbitrary answer to the history so far; interactions that are never stored (portals, looking around) are left out.
- Importer.TreeUpdate.UpdateTreeIfChanged: one import writes a tree at a time and nobody else writes it between two imports; trees are created and variables replaced before, which is left out with the walk over files.
- PrizeSpawning.LedgerIsAwards: what follows a panic is left out but for the ledger that stays lost.
- PrizeSpawning.AwardedAtMostOnce: the handler serves one transfer at a time, one court process runs, and other writers of the location keep the spawn name and list no spawned object; the error variable shared by a transfer and its respawn is not modelled.
- PrizeLedger.PrizeTree.TrackPrizeDistribution: the ceiling of a floating-point quotient is an integer ceiling.
- Winners.ExportWinners: the joining of a row's columns to a line of text is left out, and what the network knows of the other trees is an argument.
- EndGame.EndGamePrizeHandler.ValidatorFunc: the player's own tree is given; artifact trees do not change while they are checked, and the clean-up after an award, which removes the same artifacts once more, is left out.
- NodeCache.Load: a reader that keeps failing without reaching its end, a decoder that keeps its first error, and memory that runs out below the largest slice are left out; the stream is a plain sequence of bytes.
- Integers are unbounded except where 64 bits matter: element ids, prize numbers and frame lengths.
- flatmap's `Delete`, `Merge` and `Contains`, the slice helpers `Any` and `Reverse`, multiple values of a set-value interaction, portals, command lookup, ink, invites, the other courts, the server, the user interface and the command-line programs: they would only add easy members.
