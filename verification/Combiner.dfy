/**
 courts/autumn/element_combiner_handler.go: elements a player drops at the combiner's location are collected in a
 bowl, and the bowl, picked up, becomes the element its contents combine to.
 */
module Combiner {
  import opened Wrappers
  import opened Text
  import opened TreeData
  import opened ChainTrees
  import opened History
  import opened Elements
  import opened Inventory
  import opened MapOrders
  import opened Recipes
  import opened BowlChains
  import opened ObjectTrees
  import opened NamedTrees

  const BOWL_DESCRIPTION := "inside the bowl you have prepared:"

  datatype Receipt = Destroyed | Collected

  datatype Answer = Given(element: Element) | Declined(verdict: Verdict) | AlreadyOwned | Failed

  /** The answer a verdict leads to when no block is lost. */
  function AnswerFor(verdict: Verdict, playerNames: Listing): Answer {
    match verdict
    case Issue(element) => if element.Name() in playerNames then AlreadyOwned else Given(element)
    case _ => Declined(verdict)
  }

  function NamedBowl(): Summary {
    BLANK.(name := Some(Str(BOWL)))
  }

  function NewBowl(from: Did, bowl: Did): Summary {
    Summary(Some(Str(BOWL)), Some(Str(from)), Some(Str(BOWL_DESCRIPTION)),
            map["submit offering" := Leaf(PickUpCommand(bowl)), "look at bowl" := Leaf(LookCommand(bowl))], map[])
  }

  ghost predicate IsBowl(summary: Summary, player: Did, keys: set<string>) {
    summary.name == Some(Str(BOWL)) && summary.player == Some(Str(player)) && summary.elements.Keys == keys &&
    summary.description.Some? && summary.description.value.Str?
  }

  /** What an attempt at a new bowl can leave behind: at most a name before its third block. */
  predicate Early(height: nat, summary: Summary) {
    (summary.name == None || summary.name == Some(Str(BOWL))) && (height == 0 ==> summary == BLANK) &&
    (height == 1 ==> summary == BLANK || summary == NamedBowl())
  }

  /** The tree is a bowl of the court's. */
  ghost predicate BowlAt(nodes: Nodes, heads: map<Did, Tip>, court: Address, did: Did, player: Did, keys: set<string>) {
    did in heads && heads[did] in nodes && IsHead(nodes, heads, court, did, Summarize(nodes[heads[did]].state)) &&
    nodes[heads[did]].Height() > 1 && IsBowl(Summarize(nodes[heads[did]].state), player, keys)
  }

  /** The tree a tip of the inventory stands for: not there yet, not the court's yet, or a bowl in the making. */
  ghost predicate Startable(nodes: Nodes, heads: map<Did, Tip>, court: Address, name: nat) {
    NamedDid(name) in heads ==>
      heads[NamedDid(name)] in nodes && (Unowned(nodes, heads, name) || Started(nodes, heads, court, NamedDid(name)))
  }

  ghost predicate Started(nodes: Nodes, heads: map<Did, Tip>, court: Address, did: Did)
    requires did in heads && heads[did] in nodes
  {
    IsHead(nodes, heads, court, did, Summarize(nodes[heads[did]].state)) &&
    Early(nodes[heads[did]].Height(), Summarize(nodes[heads[did]].state))
  }

  /** A bowl stands for the tip the inventory had when it was made. */
  ghost predicate Earlier(did: Did, tip: nat) {
    exists t: nat :: t < tip && did == NamedDid(t)
  }

  /** The tree of the present tip can become a bowl, and trees for later tips do not exist. */
  ghost predicate TipOk(nodes: Nodes, heads: map<Did, Tip>, court: Address, tip: nat) {
    (forall t: nat :: TreeKey(t) != court) && Startable(nodes, heads, court, tip) &&
    forall t: nat | t > tip :: NamedDid(t) !in heads
  }

  /** The location's inventory lists the player's bowl with these names, or none. */
  ghost predicate LocationOk(nodes: Nodes, heads: map<Did, Tip>, court: Address, tip: nat, names: Listing, player: Did,
                             keys: set<string>) {
    Injective(names) && TipOk(nodes, heads, court, tip) &&
    if BOWL in names then
      keys != {} && Earlier(names[BOWL], tip) && BowlAt(nodes, heads, court, names[BOWL], player, keys)
    else keys == {}
  }

  /** A tree that is neither the listed bowl nor the one the next bowl is made of. */
  predicate Separate(did: Did, tip: nat, names: Listing) {
    did != NamedDid(tip) && (BOWL in names ==> did != names[BOWL])
  }

  lemma BowlFrame(nodes: Nodes, heads: map<Did, Tip>, nodes': Nodes, heads': map<Did, Tip>, dids: set<Did>,
                  court: Address, did: Did, player: Did, keys: set<string>)
    requires OnlyHeads(nodes, heads, nodes', heads', dids) && StoreOk(nodes') && did !in dids
    requires BowlAt(nodes, heads, court, did, player, keys)
    ensures BowlAt(nodes', heads', court, did, player, keys)
  {
    HeadFrame(nodes, heads, nodes', heads', dids, court, did, Summarize(nodes[heads[did]].state));
    hide Summarize, CourtMade;
  }

  lemma StartableFrame(nodes: Nodes, heads: map<Did, Tip>, nodes': Nodes, heads': map<Did, Tip>, dids: set<Did>,
                       court: Address, name: nat)
    requires OnlyHeads(nodes, heads, nodes', heads', dids) && StoreOk(nodes') && NamedDid(name) !in dids
    requires Startable(nodes, heads, court, name)
    ensures Startable(nodes', heads', court, name)
  {
    var did := NamedDid(name);
    if did in heads && !Unowned(nodes, heads, name) {
      HeadFrame(nodes, heads, nodes', heads', dids, court, did, Summarize(nodes[heads[did]].state));
    }
    hide Summarize, CourtMade, Early;
  }

  /** Blocks on separate trees leave the location as it is. */
  lemma LocationFrame(nodes: Nodes, heads: map<Did, Tip>, nodes': Nodes, heads': map<Did, Tip>, did: Did,
                      court: Address, tip: nat, names: Listing, player: Did, keys: set<string>)
    requires OnlyHeads(nodes, heads, nodes', heads', {did}) && StoreOk(nodes') && did in heads
    requires LocationOk(nodes, heads, court, tip, names, player, keys) && Separate(did, tip, names)
    ensures LocationOk(nodes', heads', court, tip, names, player, keys)
  {
    hide Injective, Startable, BowlAt, Earlier;
    StartableFrame(nodes, heads, nodes', heads', {did}, court, tip);
    if BOWL in names {
      BowlFrame(nodes, heads, nodes', heads', {did}, court, names[BOWL], player, keys);
    }
  }

  /** A bowl in the making changes nothing else. */
  lemma TipChanged(nodes: Nodes, heads: map<Did, Tip>, nodes': Nodes, heads': map<Did, Tip>, court: Address, tip: nat)
    requires OnlyHeads(nodes, heads, nodes', heads', {NamedDid(tip)})
    requires TipOk(nodes, heads, court, tip) && Startable(nodes', heads', court, tip)
    ensures TipOk(nodes', heads', court, tip)
  {
    hide Startable;
    forall t: nat | t > tip ensures NamedDid(t) !in heads' {
      NamedDidInjective(t, tip);
    }
    hide NamedDid;
  }

  lemma BowlStarted(nodes: Nodes, heads: map<Did, Tip>, nodes': Nodes, heads': map<Did, Tip>, court: Address, tip: nat,
                    names: Listing, player: Did, keys: set<string>)
    requires LocationOk(nodes, heads, court, tip, names, player, keys) && TipOk(nodes', heads', court, tip)
    requires BOWL in names ==> nodes' == nodes && heads' == heads
    ensures LocationOk(nodes', heads', court, tip, names, player, keys)
  {
  }

  /** The first block of the tree is one of the court's. */
  ghost predicate Genuine(nodes: Nodes, heads: map<Did, Tip>, court: Address, did: Did) {
    StoreOk(nodes) && did in heads && HasBlock(nodes, heads[did]) &&
    court in nodes[Ancestor(nodes, heads[did], 0)].state.auths
  }

  lemma BowlIsGenuine(nodes: Nodes, heads: map<Did, Tip>, court: Address, did: Did, player: Did, keys: set<string>)
    requires BowlAt(nodes, heads, court, did, player, keys)
    ensures Genuine(nodes, heads, court, did)
  {
  }

  lemma StartedAgain(nodes: Nodes, heads: map<Did, Tip>, court: Address, name: nat, summary: Summary, height: nat)
    requires IsHead(nodes, heads, court, NamedDid(name), summary) && Early(height, summary)
    requires heads[NamedDid(name)] in nodes && nodes[heads[NamedDid(name)]].Height() == height
    ensures Startable(nodes, heads, court, name)
  {
    hide Summarize, CourtMade;
  }

  /** The listed bowl got other contents. */
  lemma ListedChanged(nodes: Nodes, heads: map<Did, Tip>, nodes': Nodes, heads': map<Did, Tip>,
                      court: Address, tip: nat, names: Listing, player: Did, keys: set<string>, keys': set<string>)
    requires BOWL in names && OnlyHeads(nodes, heads, nodes', heads', {names[BOWL]}) && StoreOk(nodes')
    requires LocationOk(nodes, heads, court, tip, names, player, keys)
    requires BowlAt(nodes', heads', court, names[BOWL], player, keys') && keys' != {}
    ensures LocationOk(nodes', heads', court, tip, names, player, keys')
    ensures names[BOWL] != NamedDid(tip)
  {
    hide Startable, Injective, BowlAt;
    EarlierIsOther(names[BOWL], tip);
    StartableFrame(nodes, heads, nodes', heads', {names[BOWL]}, court, tip);
  }

  lemma EarlierIsOther(did: Did, tip: nat)
    requires Earlier(did, tip)
    ensures forall t: nat | t >= tip :: NamedDid(t) != did
  {
    var made: nat :| made < tip && did == NamedDid(made);
    forall t: nat | t >= tip ensures NamedDid(t) != did {
      NamedDidInjective(made, t);
    }
  }

  /** The bowl is listed, for the first time or again. */
  lemma Relisted(nodes: Nodes, heads: map<Did, Tip>, court: Address, tip: nat, names: Listing, names': Listing,
                 player: Did, keys: set<string>, did: Did, keys': set<string>)
    requires LocationOk(nodes, heads, court, tip, names, player, keys)
    requires did == if BOWL in names then names[BOWL] else NamedDid(tip)
    requires BowlAt(nodes, heads, court, did, player, keys') && keys' != {}
    requires AddedTo(Without(names, did), did, BOWL, names') && Injective(names')
    ensures LocationOk(nodes, heads, court, tip + 1, names', player, keys')
    ensures BOWL in names' && names'[BOWL] == did
  {
    hide BowlAt, Startable;
    assert BOWL !in Without(names, did);
    assert names'[BOWL] == did;
    assert Earlier(did, tip + 1);
    hide NamedDid, Unowned, Started;
    assert Startable(nodes, heads, court, tip + 1) by {
      NotThereIsStartable(nodes, heads, court, tip + 1);
    }
  }

  /** The bowl is taken off the list. */
  lemma Delisted(nodes: Nodes, heads: map<Did, Tip>, court: Address, tip: nat, names: Listing, names': Listing,
                 player: Did, keys: set<string>)
    requires LocationOk(nodes, heads, court, tip, names, player, keys) && BOWL in names
    requires names' == Without(names, names[BOWL])
    ensures LocationOk(nodes, heads, court, tip + 1, names', player, {}) && Separate(names[BOWL], tip + 1, names')
  {
    EarlierIsOther(names[BOWL], tip);
    hide BowlAt, Startable, NamedDid;
    assert Startable(nodes, heads, court, tip + 1) by {
      NotThereIsStartable(nodes, heads, court, tip + 1);
    }
  }

  lemma NotThereIsStartable(nodes: Nodes, heads: map<Did, Tip>, court: Address, name: nat)
    requires NamedDid(name) !in heads
    ensures Startable(nodes, heads, court, name)
  {
  }

  /** What isValidElement decides. */
  ghost function ElementValidity(nodes: Nodes, tip: Tip, court: Address, book: Book): Result<bool>
    requires StoreOk(nodes) && tip in nodes
  {
    match ObjectName(nodes[tip].state)
    case Ok(name) =>
      if ElementNameToId(name) !in book.elements then Err("element not found")
      else if book.elements[ElementNameToId(name)].skipOriginValidation then Ok(true)
      else OriginVerdict(nodes, tip, [court])
    case Err(error) => Err(error)
    case Panicked => Panicked
  }

  /**
   What makes an object an element, from its chain: its name stands for a known one, and, unless that one is exempt, its
   block 0 is the court's, it was handed over by a second change of ownership, and it has the name it had then.
   */
  ghost predicate TrueElement(nodes: Nodes, tip: Tip, court: Address, book: Book)
    requires StoreOk(nodes) && tip in nodes
  {
    ObjectName(nodes[tip].state).Ok? &&
    var id := ElementNameToId(ObjectName(nodes[tip].state).value);
    id in book.elements && (book.elements[id].skipOriginValidation || FromCourt(nodes, tip, court))
  }

  ghost predicate FromCourt(nodes: Nodes, tip: Tip, court: Address)
    requires StoreOk(nodes) && tip in nodes
  {
    HasBlock(nodes, tip) && BegunBy(nodes, tip, [court]) && ObjectName(nodes[tip].state).Ok? &&
    HandedOverAs(nodes, tip, ObjectName(nodes[tip].state).value)
  }

  /** A forgery names a known element that is not exempt, and its chain is not one the court began and handed over. */
  ghost predicate Forgery(nodes: Nodes, tip: Tip, court: Address, book: Book)
    requires StoreOk(nodes) && tip in nodes
  {
    ObjectName(nodes[tip].state).Ok? && HasBlock(nodes, tip) &&
    var id := ElementNameToId(ObjectName(nodes[tip].state).value);
    id in book.elements && !book.elements[id].skipOriginValidation && !FromCourt(nodes, tip, court)
  }

  lemma ValidityIff(nodes: Nodes, tip: Tip, court: Address, book: Book)
    requires StoreOk(nodes) && tip in nodes
    ensures ElementValidity(nodes, tip, court, book) == Ok(true) <==> TrueElement(nodes, tip, court, book)
    ensures ElementValidity(nodes, tip, court, book) == Ok(false) <==>
            Forgery(nodes, tip, court, book) && !(BegunBy(nodes, tip, [court]) && HandedOverNameless(nodes, tip))
  {
    hide OriginVerdict, ObjectName, ElementNameToId, BegunBy, HandedOverAs, HandedOverNameless, StoreOk;
    OriginIff(nodes, tip, [court]);
  }

  /** The present name of an object. */
  ghost predicate HasName(nodes: Nodes, heads: map<Did, Tip>, did: Did, name: string) {
    did in heads && heads[did] in nodes && nodes[heads[did]].did == did &&
    ObjectName(nodes[heads[did]].state) == Ok(name)
  }

  /** A valid element the court can take over, whose name fits in a path. */
  ghost predicate Offerable(nodes: Nodes, heads: map<Did, Tip>, court: Address, book: Book, did: Did, name: string)
    requires StoreOk(nodes)
  {
    HasName(nodes, heads, did, name) && court in nodes[heads[did]].state.auths && "" !in Split(name, '/') &&
    ElementValidity(nodes, heads[did], court, book) == Ok(true)
  }

  /** The tree has one block more, which gives it to these owners. */
  ghost predicate GivenOver(nodes: Nodes, tip: Tip, nodes': Nodes, tip': Tip, auths: seq<Address>)
    requires StoreOk(nodes')
  {
    tip in nodes && tip' in nodes' && nodes'[tip'].did == nodes[tip].did &&
    nodes'[tip'].state == nodes[tip].state.(auths := auths) &&
    (HasBlock(nodes, tip) ==> HasBlock(nodes', tip') && tip in Walk(nodes', tip'))
  }

  lemma OtherHeadStays(nodes: Nodes, heads: map<Did, Tip>, nodes': Nodes, heads': map<Did, Tip>, did: Did, other: Did)
    requires OnlyHeads(nodes, heads, nodes', heads', {did}) && other in heads && heads[other] in nodes && other != did
    ensures other in heads' && heads'[other] == heads[other] && heads[other] in nodes'
    ensures nodes'[heads[other]] == nodes[heads[other]]
  {
  }

  lemma NextIsGivenOver(nodes: Nodes, tip: Tip, next: Tip, auths: seq<Address>)
    requires StoreOk(nodes) && tip in nodes && next !in nodes
    ensures var after := nodes[next := NextNode(nodes, tip, [SetOwnership(auths)])];
            StoreOk(after) && GivenOver(nodes, tip, after, next, auths)
  {
    var after := nodes[next := NextNode(nodes, tip, [SetOwnership(auths)])];
    NextNodeKeepsStoreOk(nodes, next, tip, [SetOwnership(auths)]);
    OwnershipState(nodes[tip].state, auths);
    if HasBlock(nodes, tip) {
      assert Walk(after, tip)[0] == tip;
      assert Walk(after, next) == [next] + Walk(after, tip);
    }
  }

  lemma NameNeedsBlock(nodes: Nodes, tip: Tip)
    requires StoreOk(nodes) && tip in nodes && ObjectName(nodes[tip].state).Ok?
    ensures HasBlock(nodes, tip)
  {
    assert NodeOk(nodes, tip);
  }

  /** A valid element stays one while its tree stays, and when the court takes it over. */
  lemma ValidityIsKept(nodes: Nodes, tip: Tip, nodes': Nodes, tip': Tip, court: Address, book: Book)
    requires StoreOk(nodes) && StoreOk(nodes') && Extends(nodes, nodes') && tip in nodes && tip' in nodes'
    requires ElementValidity(nodes, tip, court, book) == Ok(true)
    requires ObjectName(nodes'[tip'].state) == ObjectName(nodes[tip].state)
    requires HasBlock(nodes', tip') && tip in Walk(nodes', tip')
    ensures ElementValidity(nodes', tip', court, book) == Ok(true)
  {
    hide OriginVerdict, Walk, ObjectName, ElementNameToId;
    NameNeedsBlock(nodes, tip);
    if OriginVerdict(nodes, tip, [court]) == Ok(true) {
      ProvenanceIsFixed(nodes, nodes', tip, tip', [court]);
    }
  }

  lemma OfferingFrame(nodes: Nodes, heads: map<Did, Tip>, nodes': Nodes, heads': map<Did, Tip>, dids: set<Did>,
                      court: Address, book: Book, did: Did, name: string)
    requires StoreOk(nodes) && StoreOk(nodes') && OnlyHeads(nodes, heads, nodes', heads', dids) && did !in dids
    ensures HasName(nodes, heads, did, name) ==> HasName(nodes', heads', did, name)
    ensures Offerable(nodes, heads, court, book, did, name) ==> Offerable(nodes', heads', court, book, did, name)
  {
    if Offerable(nodes, heads, court, book, did, name) {
      var tip := heads[did];
      NameNeedsBlock(nodes, tip);
      assert Walk(nodes', tip)[0] == tip;
      hide Walk, ElementValidity, ObjectName;
      ValidityIsKept(nodes, tip, nodes', tip, court, book);
    }
  }

  lemma OfferingTaken(nodes: Nodes, heads: map<Did, Tip>, nodes': Nodes, heads': map<Did, Tip>,
                      court: Address, book: Book, did: Did, name: string)
    requires StoreOk(nodes) && StoreOk(nodes') && Extends(nodes, nodes') && did in heads && did in heads'
    requires GivenOver(nodes, heads[did], nodes', heads'[did], [court])
    ensures HasName(nodes, heads, did, name) ==> HasName(nodes', heads', did, name)
    ensures Offerable(nodes, heads, court, book, did, name) ==> Offerable(nodes', heads', court, book, did, name)
  {
    var tip := heads[did];
    OwnershipState(nodes[tip].state, [court]);
    if Offerable(nodes, heads, court, book, did, name) {
      NameNeedsBlock(nodes, tip);
      hide Walk, ElementValidity, ObjectName;
      ValidityIsKept(nodes, tip, nodes', heads'[did], court, book);
    }
  }

  /** The objects to be offered carry these names, and none is a tree that a bowl is made of from this tip on. */
  ghost predicate OffersOk(nodes: Nodes, heads: map<Did, Tip>, start: nat, offers: seq<Did>, names: seq<string>) {
    |offers| == |names| &&
    forall k | 0 <= k < |offers| :: HasName(nodes, heads, offers[k], names[k]) && NoBowlFrom(offers[k], start)
  }

  ghost predicate NoBowlFrom(did: Did, start: nat) {
    forall t: nat | t >= start :: did != NamedDid(t)
  }

  ghost predicate AllOfferable(nodes: Nodes, heads: map<Did, Tip>, court: Address, book: Book, offers: seq<Did>,
                               names: seq<string>)
    requires StoreOk(nodes) && |offers| == |names|
  {
    forall k | 0 <= k < |offers| :: Offerable(nodes, heads, court, book, offers[k], names[k])
  }

  /** The names of the offers that were kept. */
  function Taken(names: seq<string>, receipts: seq<Receipt>): (taken: seq<string>)
    requires |receipts| <= |names|
    ensures (forall k | 0 <= k < |receipts| :: receipts[k].Collected?) ==> taken == names[..|receipts|]
  {
    if receipts == [] then []
    else
      var last := |receipts| - 1;
      Taken(names, receipts[..last]) + if receipts[last].Collected? then [names[last]] else []
  }

  lemma TakenNext(names: seq<string>, receipts: seq<Receipt>, next: Receipt)
    requires |receipts| < |names|
    ensures var taken := Taken(names, receipts);
            KeysAfter(Taken(names, receipts + [next])) ==
            if next.Collected? then KeysAfter(taken) + {KeyFor(names[|receipts|])} else KeysAfter(taken)
  {
    hide *;
    TakenOne(names, receipts, next);
    var taken := Taken(names, receipts);
    KeysAfterOne(taken, names[|receipts|]);
    assert taken + [] == taken;
  }

  lemma TakenOne(names: seq<string>, receipts: seq<Receipt>, next: Receipt)
    requires |receipts| < |names|
    ensures Taken(names, receipts + [next]) ==
            Taken(names, receipts) + if next.Collected? then [names[|receipts|]] else []
  {
    var more := receipts + [next];
    assert more[..|more| - 1] == receipts;
  }

  lemma KeysAfterOne(names: seq<string>, name: string)
    ensures KeysAfter(names + [name]) == KeysAfter(names) + {KeyFor(name)}
  {
    var more := names + [name];
    assert more[..|more| - 1] == names;
    hide KeyFor;
  }

  /** One offer is handled: the others keep their names, and what can still be offered can be offered again. */
  lemma OffersAfter(nodes: Nodes, heads: map<Did, Tip>, nodes': Nodes, heads': map<Did, Tip>, dids: set<Did>,
                    court: Address, book: Book, start: nat, offers: seq<Did>, names: seq<string>, k: nat,
                    auths: seq<Address>)
    requires StoreOk(nodes) && StoreOk(nodes') && OnlyHeads(nodes, heads, nodes', heads', dids) && k < |offers|
    requires forall d | d in dids :: d == offers[k] || !NoBowlFrom(d, start)
    requires OffersOk(nodes, heads, start, offers, names) && offers[k] in heads && offers[k] in heads'
    requires GivenOver(nodes, heads[offers[k]], nodes', heads'[offers[k]], auths)
    ensures OffersOk(nodes', heads', start, offers, names)
    ensures auths == [court] && AllOfferable(nodes, heads, court, book, offers, names) ==>
              AllOfferable(nodes', heads', court, book, offers, names)
  {
    hide NoBowlFrom, HasName, Offerable;
    forall i | 0 <= i < |offers|
      ensures HasName(nodes', heads', offers[i], names[i])
      ensures auths == [court] && Offerable(nodes, heads, court, book, offers[i], names[i]) ==>
                Offerable(nodes', heads', court, book, offers[i], names[i])
    {
      if offers[i] != offers[k] {
        OfferingFrame(nodes, heads, nodes', heads', dids, court, book, offers[i], names[i]);
      } else {
        HasNameTaken(nodes, heads, nodes', heads', offers[k], names[i], auths);
        if auths == [court] {
          OfferingTaken(nodes, heads, nodes', heads', court, book, offers[k], names[i]);
        }
      }
    }
  }

  lemma OfferName(nodes: Nodes, heads: map<Did, Tip>, start: nat, offers: seq<Did>, names: seq<string>, k: nat)
    requires OffersOk(nodes, heads, start, offers, names) && k < |offers|
    ensures |offers| == |names| && offers[k] in heads && heads[offers[k]] in nodes
    ensures ObjectName(nodes[heads[offers[k]]].state) == Ok(names[k])
  {
  }

  lemma HasNameTaken(nodes: Nodes, heads: map<Did, Tip>, nodes': Nodes, heads': map<Did, Tip>, did: Did, name: string,
                     auths: seq<Address>)
    requires StoreOk(nodes') && did in heads && did in heads'
    requires GivenOver(nodes, heads[did], nodes', heads'[did], auths)
    requires HasName(nodes, heads, did, name)
    ensures HasName(nodes', heads', did, name)
  {
    OwnershipState(nodes[heads[did]].state, auths);
  }

  /** The bowl that is listed was made from this tip on. */
  ghost predicate BowlFrom(names: Listing, start: nat) {
    BOWL in names ==> !NoBowlFrom(names[BOWL], start)
  }

  /** A bowl, listed or in the making, is no element unless the id its name stands for is a known one. */
  lemma NotSeparateIsNoElement(nodes: Nodes, heads: map<Did, Tip>, court: Address, book: Book, tip: nat, names: Listing,
                               did: Did, player: Did, keys: set<string>)
    requires StoreOk(nodes) && LocationOk(nodes, heads, court, tip, names, player, keys) && did in heads
    requires heads[did] in nodes
    ensures !Separate(did, tip, names) && ElementNameToId(BOWL) !in book.elements ==>
              !ElementValidity(nodes, heads[did], court, book).Ok?
  {
    hide Summarize, OriginVerdict, ElementNameToId, NamedDid;
    if !Separate(did, tip, names) {
      if nodes[heads[did]].end.None? {
        assert NodeOk(nodes, heads[did]);
      } else {
        SummaryName(nodes[heads[did]].state);
      }
    }
  }

  /** The writes that make a named tree a bowl. */
  lemma BowlSummaries(from: Did, bowl: Did)
    ensures "submit offering" !in NamedBowl().commands
    ensures var s1 := Updated(NamedBowl(), CommandField("submit offering"), PickUpCommand(bowl));
            var s2 := Updated(s1, CommandField("look at bowl"), LookCommand(bowl));
            var s3 := Updated(s2, DescriptionField, Str(BOWL_DESCRIPTION));
            "look at bowl" !in s1.commands && s1.name == s2.name == s3.name == Some(Str(BOWL)) &&
            Updated(s3, PlayerField, Str(from)) == NewBowl(from, bowl)
  {
    assert "submit offering"[0] != "look at bowl"[0];
  }

  lemma NamedObject(element: Element, did: Did)
    ensures var s := BLANK.(name := Some(Str(element.Name())), commands := ObjectCommands(element.Name(), did));
            var after := Updated(s, DescriptionField, Str(element.description));
            after.name == Some(Str(element.Name())) &&
            forall nodes: Nodes, heads: map<Did, Tip> |
                did in heads && heads[did] in nodes && Summarize(nodes[heads[did]].state) == after ::
              IsObject(nodes, heads, did, element.Name(), element.description)
  {
  }

  /** The bowl's description grows by a line for each offering. */
  function Described(bowl: Summary, name: string): Summary
    requires bowl.description.Some? && bowl.description.value.Str?
  {
    bowl.(description := Some(Str(bowl.description.value.text + "\n  > " + name)))
  }

  /** The bowl with an offering more: its did under its name, and its name in the description. */
  function Offered(bowl: Summary, name: string, offering: Did): Summary
    requires bowl.description.Some? && bowl.description.value.Str?
  {
    var key, rest := Split(name, '/')[0], Split(name, '/')[1..];
    var entry := if key in bowl.elements then bowl.elements[key] else Dir(map[]);
    Described(bowl.(elements := bowl.elements[key := SetPath(entry, rest, Leaf(Str(offering)))]), name)
  }

  lemma IdsSnoc(order: seq<string>, name: string)
    ensures Ids(order + [name]) == Ids(order) + [ElementNameToId(name)]
  {
  }

  /** inventory is the location's inventory for one player. */
  class ElementCombinerHandler {
    const net: Network
    const inventory: InventoryTree
    const court: Address
    const book: Book
    const recipes: ElementCombinationMap
    /** Whether every block gets through. */
    const reliable: bool

    constructor (net: Network, inventory: InventoryTree, court: Address, book: Book, recipes: ElementCombinationMap,
                 reliable: bool)
      ensures this.net == net && this.inventory == inventory && this.court == court && this.book == book &&
              this.recipes == recipes && this.reliable == reliable
    {
      this.net, this.inventory, this.court := net, inventory, court;
      this.book, this.recipes, this.reliable := book, recipes, reliable;
    }

    /** The player's bowl holds these names; without a bowl there are none. */
    ghost predicate Ready(player: Did, keys: set<string>)
      reads net, inventory
    {
      net.Valid() && LocationOk(net.nodes, net.heads, court, inventory.tip, inventory.names, player, keys)
    }

    ghost predicate HoldsBowl(bowl: ObjectTree, player: Did, keys: set<string>)
      reads bowl, net
    {
      bowl.net == net && bowl.court == court && bowl.reliable == reliable && bowl.Valid() && bowl.height > 1 &&
      IsBowl(bowl.summary, player, keys)
    }

    method IsValidElement(element: Tip) returns (r: Result<bool>)
      requires net.Valid() && element in net.nodes
      ensures r == ElementValidity(net.nodes, element, court, book)
      ensures r.Ok? ==> ObjectName(net.nodes[element].state).Ok?
    {
      var name := ObjectName(net.nodes[element].state);
      if !name.Ok? {
        return Err(name.error);
      }
      var id := ElementNameToId(name.value);
      if id !in book.elements {
        return Err("element not found");
      }
      if book.elements[id].skipOriginValidation {
        return Ok(true);
      }
      r := ValidateElementOrigin(net.nodes, element, [court]);
    }

    /** A tree with more than its first two blocks is emptied before it becomes the bowl. */
    method PrepareBowl(bowl: ObjectTree, from: Did) returns (ok: bool)
      requires bowl.Valid() && bowl.net == net && bowl.court == court && bowl.reliable == reliable
      requires Early(bowl.height, bowl.summary)
      modifies bowl, net
      ensures bowl.Valid() && OnlyHeads(old(net.nodes), old(net.heads), net.nodes, net.heads, {bowl.did})
      ensures Early(bowl.height, bowl.summary)
      ensures ok ==> bowl.summary == NewBowl(from, bowl.did) && bowl.height > 1
      ensures reliable ==> ok
    {
      ghost var n0, h0, did := net.nodes, net.heads, bowl.did;
      assert OnlyHeads(n0, h0, net.nodes, net.heads, {did});
      var height := net.nodes[bowl.tip].Height();
      assert height == bowl.height;
      hide ObjectTree.Valid, OnlyHeads;
      ghost var n1, h1 := net.nodes, net.heads;
      if height > 1 {
        ok := bowl.Reset([]);
        if !ok {
          return;
        }
        n1, h1 := net.nodes, net.heads;
      }
      ok := bowl.SetField(NameField, Str(BOWL));
      OnlyHeadsTwice(n0, h0, n1, h1, net.nodes, net.heads, {did});
      if !ok {
        return;
      }
      n1, h1 := net.nodes, net.heads;
      ok := DescribeBowl(bowl, from);
      OnlyHeadsTwice(n0, h0, n1, h1, net.nodes, net.heads, {did});
    }

    method DescribeBowl(bowl: ObjectTree, from: Did) returns (ok: bool)
      requires bowl.Valid() && bowl.net == net && bowl.reliable == reliable && bowl.summary == NamedBowl()
      requires bowl.height > 0
      modifies bowl, net
      ensures bowl.Valid() && OnlyHeads(old(net.nodes), old(net.heads), net.nodes, net.heads, {bowl.did})
      ensures bowl.summary.name == Some(Str(BOWL))
      ensures bowl.height > 1 || (bowl.height == old(bowl.height) && bowl.summary == NamedBowl())
      ensures ok ==> bowl.summary == NewBowl(from, bowl.did) && bowl.height > 1
      ensures reliable ==> ok
    {
      ghost var n0, h0, did := net.nodes, net.heads, bowl.did;
      BowlSummaries(from, bowl.did);
      assert NamedBowl().name == Some(Str(BOWL));
      hide *;
      ok := bowl.AddInteraction("submit offering", PickUpCommand(bowl.did));
      if !ok {
        return;
      }
      ghost var n1, h1 := net.nodes, net.heads;
      ok := bowl.AddInteraction("look at bowl", LookCommand(bowl.did));
      OnlyHeadsTwice(n0, h0, n1, h1, net.nodes, net.heads, {did});
      if !ok {
        return;
      }
      n1, h1 := net.nodes, net.heads;
      ok := bowl.SetField(DescriptionField, Str(BOWL_DESCRIPTION));
      OnlyHeadsTwice(n0, h0, n1, h1, net.nodes, net.heads, {did});
      if !ok {
        return;
      }
      n1, h1 := net.nodes, net.heads;
      ok := bowl.SetField(PlayerField, Str(from));
      OnlyHeadsTwice(n0, h0, n1, h1, net.nodes, net.heads, {did});
    }

    /** The listed tree is a bowl of the court's, if its first block is the court's at all. */
    ghost predicate ListedOk(player: Did, keys: set<string>)
      reads net, inventory
    {
      if BOWL in inventory.names && Genuine(net.nodes, net.heads, court, inventory.names[BOWL]) then
        BowlAt(net.nodes, net.heads, court, inventory.names[BOWL], player, keys)
      else keys == {} && (BOWL in inventory.names ==> inventory.names[BOWL] in net.heads)
    }

    /** Whether the handler will use the listed tree: in an inventory that nobody else writes, whenever there is one. */
    ghost predicate UsesListed()
      reads net, inventory
    {
      BOWL in inventory.names && Genuine(net.nodes, net.heads, court, inventory.names[BOWL])
    }

    lemma ReadyIsListedOk(player: Did, keys: set<string>)
      requires Ready(player, keys)
      ensures ListedOk(player, keys) && (UsesListed() <==> BOWL in inventory.names)
      ensures net.Valid() && TipOk(net.nodes, net.heads, court, inventory.tip)
    {
      if BOWL in inventory.names {
        BowlIsGenuine(net.nodes, net.heads, court, inventory.names[BOWL], player, keys);
      }
    }

    lemma ListedHasBlock(player: Did, keys: set<string>)
      requires Ready(player, keys) && BOWL in inventory.names
      ensures inventory.names[BOWL] in net.heads && HasBlock(net.nodes, net.heads[inventory.names[BOWL]])
    {
    }

    /**
     The listed bowl if its first block is the court's, else the tree the inventory's tip stands for, made into a bowl:
     so a tree of another origin that a player has listed under that name is passed over. A tree that was created but
     never became the court's blocks every attempt as long as it is remembered.
     */
    method FindBowl(from: Did, remembered: bool, ghost keys: set<string>) returns (bowl: ObjectTree?)
      requires net.Valid() && TipOk(net.nodes, net.heads, court, inventory.tip) && ListedOk(from, keys)
      modifies net
      ensures bowl != null ==> fresh(bowl)
      ensures net.Valid() && TipOk(net.nodes, net.heads, court, inventory.tip)
      ensures OnlyHeads(old(net.nodes), old(net.heads), net.nodes, net.heads, {NamedDid(inventory.tip)})
      ensures bowl != null ==>
                HoldsBowl(bowl, from, keys) &&
                bowl.did == if old(UsesListed()) then inventory.names[BOWL] else NamedDid(inventory.tip)
      ensures old(UsesListed()) ==> bowl != null && net.nodes == old(net.nodes) && net.heads == old(net.heads)
      ensures !old(UsesListed()) && old(Unowned(net.nodes, net.heads, inventory.tip)) && remembered ==>
                bowl == null && net.nodes == old(net.nodes) && net.heads == old(net.heads)
      ensures reliable && (BOWL in inventory.names ==> old(HasBlock(net.nodes, net.heads[inventory.names[BOWL]]))) &&
              !(old(Unowned(net.nodes, net.heads, inventory.tip)) && remembered) ==>
                bowl != null
    {
      hide Summarize, StoreOk, Changes, Ancestor;
      var existing := inventory.DidForName(BOWL);
      var useExisting := false;
      if BOWL in inventory.names {
        if net.nodes[net.heads[existing]].end.None? {
          return null;
        }
        var validOrigin := VerifyOwnershipAt(net.nodes, net.heads[existing], 0, [court]);
        assert court in [court];
        useExisting := validOrigin.value;
      }
      if useExisting {
        bowl := new ObjectTree(net, court, existing, reliable, Summarize(net.nodes[net.heads[existing]].state));
        return;
      }
      bowl := MakeBowl(from, remembered);
    }

    /** There is no bowl, and the tree for one was created but never became the court's and is remembered. */
    ghost predicate HeldUp(remembered: bool)
      reads net, inventory
    {
      BOWL !in inventory.names && Unowned(net.nodes, net.heads, inventory.tip) && remembered
    }

    /** The bowl of a location whose inventory lists none but the court's. */
    method OwnBowl(from: Did, remembered: bool, ghost keys: set<string>) returns (bowl: ObjectTree?)
      requires Ready(from, keys)
      modifies net
      ensures bowl != null ==> fresh(bowl)
      ensures net.Valid() && Ready(from, keys)
      ensures OnlyHeads(old(net.nodes), old(net.heads), net.nodes, net.heads, {NamedDid(inventory.tip)})
      ensures bowl != null ==>
                HoldsBowl(bowl, from, keys) &&
                bowl.did == if BOWL in inventory.names then inventory.names[BOWL] else NamedDid(inventory.tip)
      ensures old(HeldUp(remembered)) ==>
                bowl == null && net.nodes == old(net.nodes) && net.heads == old(net.heads)
      ensures reliable && !old(HeldUp(remembered)) ==> bowl != null
    {
      ReadyIsListedOk(from, keys);
      if BOWL in inventory.names {
        ListedHasBlock(from, keys);
      }
      hide LocationOk, StoreOk, NamedDid, Unowned, BowlAt, HoldsBowl, OnlyHeads, TipOk, ListedOk, UsesListed;
      ghost var n0, h0 := net.nodes, net.heads;
      bowl := FindBowl(from, remembered, keys);
      BowlStarted(n0, h0, net.nodes, net.heads, court, inventory.tip, inventory.names, from, keys);
    }

    /** court.FindOrCreateNamedTree, and the new bowl on the tree it returns. */
    method MakeBowl(from: Did, remembered: bool) returns (bowl: ObjectTree?)
      requires net.Valid() && TipOk(net.nodes, net.heads, court, inventory.tip)
      modifies net
      ensures bowl != null ==> fresh(bowl)
      ensures net.Valid() && TipOk(net.nodes, net.heads, court, inventory.tip)
      ensures OnlyHeads(old(net.nodes), old(net.heads), net.nodes, net.heads, {NamedDid(inventory.tip)})
      ensures bowl != null ==> HoldsBowl(bowl, from, {}) && bowl.did == NamedDid(inventory.tip)
      ensures old(Unowned(net.nodes, net.heads, inventory.tip)) && remembered ==>
                bowl == null && net.nodes == old(net.nodes) && net.heads == old(net.heads)
      ensures reliable && !(old(Unowned(net.nodes, net.heads, inventory.tip)) && remembered) ==> bowl != null
    {
      hide Summarize, StoreOk, CourtMade;
      var did := NamedDid(inventory.tip);
      ghost var n0, h0 := net.nodes, net.heads;
      var tree := FindNamedTree(remembered);
      if !tree.Ok? {
        return null;
      }
      if net.nodes[tree.value].end.None? {
        UnownedBelongsToItsKey(net.nodes, net.heads, inventory.tip);
        assert TreeKey(inventory.tip) != court;
        var refused := net.PlayTransactions(tree.value, court, [SetData([ROOT, "name"], Leaf(Str(BOWL)))]);
        return null;
      }
      ghost var n1, h1 := net.nodes, net.heads;
      var made := new ObjectTree(net, court, did, reliable, Summarize(net.nodes[tree.value].state));
      var ok := PrepareBowl(made, from);
      OnlyHeadsTwice(n0, h0, n1, h1, net.nodes, net.heads, {did});
      StartedAgain(net.nodes, net.heads, court, inventory.tip, made.summary, made.height);
      TipChanged(n1, h1, net.nodes, net.heads, court, inventory.tip);
      bowl := if ok then made else null;
    }

    method FindNamedTree(remembered: bool) returns (tree: Result<Tip>)
      requires net.Valid() && TipOk(net.nodes, net.heads, court, inventory.tip)
      modifies net
      ensures net.Valid() && TipOk(net.nodes, net.heads, court, inventory.tip)
      ensures OnlyHeads(old(net.nodes), old(net.heads), net.nodes, net.heads, {NamedDid(inventory.tip)})
      ensures tree.Ok? ==> NamedDid(inventory.tip) in net.heads && tree.value == net.heads[NamedDid(inventory.tip)]
      ensures old(Unowned(net.nodes, net.heads, inventory.tip)) && remembered ==>
                tree.Ok? && net.nodes == old(net.nodes) && net.heads == old(net.heads)
      ensures tree.Ok? && Unowned(net.nodes, net.heads, inventory.tip) ==>
                old(Unowned(net.nodes, net.heads, inventory.tip)) && remembered
      ensures reliable ==> tree.Ok?
    {
      hide Summarize, StoreOk, NamedDid, Changes, Ancestor;
      ghost var n0, h0 := net.nodes, net.heads;
      var lost: bool := *;
      tree := FindOrCreatePassphraseTree(net, court, inventory.tip, remembered, reliable || !lost);
      if IsHead(net.nodes, net.heads, court, NamedDid(inventory.tip), BLANK) &&
         net.nodes[net.heads[NamedDid(inventory.tip)]].Height() == 0 {
        StartedAgain(net.nodes, net.heads, court, inventory.tip, BLANK, 0);
      }
      TipChanged(n0, h0, net.nodes, net.heads, court, inventory.tip);
    }

    /** The offering is entered under its name, then described; a failure can come between the two. */
    method AddToBowl(bowl: ObjectTree, name: string, offering: Did, ghost player: Did, ghost keys: set<string>)
      returns (ok: bool)
      requires HoldsBowl(bowl, player, keys)
      modifies bowl, net
      ensures OnlyHeads(old(net.nodes), old(net.heads), net.nodes, net.heads, {bowl.did})
      ensures HoldsBowl(bowl, player, keys + {KeyFor(name)}) || (!ok && HoldsBowl(bowl, player, keys))
      ensures ok ==> bowl.summary == Offered(old(bowl.summary), name, offering)
      ensures reliable && "" !in Split(name, '/') ==> ok
    {
      ghost var n0, h0 := net.nodes, net.heads;
      assert OnlyHeads(n0, h0, n0, h0, {bowl.did});
      hide IsHead, OnlyHeads, Split;
      var parts := Split(name, '/');
      if "" in parts {
        return false;
      }
      ok := bowl.SetField(ElementField(parts[0], parts[1..]), Str(offering));
      if !ok {
        return;
      }
      ghost var n1, h1 := net.nodes, net.heads;
      ok := DescribeOffering(bowl, name, player, keys + {KeyFor(name)});
      OnlyHeadsTwice(n0, h0, n1, h1, net.nodes, net.heads, {bowl.did});
    }

    method DescribeOffering(bowl: ObjectTree, name: string, ghost player: Did, ghost keys: set<string>)
      returns (ok: bool)
      requires HoldsBowl(bowl, player, keys)
      modifies bowl, net
      ensures OnlyHeads(old(net.nodes), old(net.heads), net.nodes, net.heads, {bowl.did})
      ensures HoldsBowl(bowl, player, keys)
      ensures ok ==> bowl.summary == Described(old(bowl.summary), name)
      ensures reliable ==> ok
    {
      hide IsHead, OnlyHeads;
      var description := Summarized(bowl).description;
      ok := bowl.SetField(DescriptionField, Str(description.value.text + "\n  > " + name));
    }

    function Summarized(bowl: ObjectTree): (s: Summary)
      requires bowl.Valid()
      reads bowl, bowl.net
      ensures s == bowl.summary
    {
      Summarize(bowl.net.nodes[bowl.tip].state)
    }

    /** A block that gives an object the court can write to new owners. */
    method ChangeOwner(did: Did, auths: seq<Address>) returns (ok: bool)
      requires net.Valid() && did in net.heads
      modifies net
      ensures net.Valid() && OnlyHeads(old(net.nodes), old(net.heads), net.nodes, net.heads, {did}) && did in net.heads
      ensures if ok then GivenOver(old(net.nodes), old(net.heads[did]), net.nodes, net.heads[did], auths)
              else net.nodes == old(net.nodes) && net.heads == old(net.heads)
      ensures reliable && court in old(net.nodes[net.heads[did]].state.auths) ==> ok
    {
      hide StoreOk;
      var lost: bool := *;
      if !reliable && lost {
        return false;
      }
      ghost var nodes, tip := net.nodes, net.heads[did];
      var r := net.PlayTransactions(net.heads[did], court, [SetOwnership(auths)]);
      if r.Ok? {
        NextIsGivenOver(nodes, tip, r.value, auths);
      }
      ok := r.Ok?;
    }

    /**
     One offering: destroyed if it is not a valid element, else entered in the bowl and kept by the court. For an
     unknown did there is no tree and no error, so reading its name panics. The bowl itself, or one in the making, can
     be offered too, and is no element unless a known one has the id that its name stands for.
     */
    method HandleReceiveElement(from: Did, incoming: Did, remembered: bool, ghost keys: set<string>)
      returns (r: Result<Receipt>)
      requires Ready(from, keys)
      requires Separate(incoming, inventory.tip, inventory.names) || ElementNameToId(BOWL) !in book.elements
      modifies net, inventory
      ensures r.Panicked? <==> incoming !in old(net.heads)
      ensures net.Valid()
      ensures OnlyHeads(old(net.nodes), old(net.heads), net.nodes, net.heads,
                        Touched(incoming, old(inventory.tip), old(inventory.names)))
      ensures inventory.tip == if r == Ok(Collected) then old(inventory.tip) + 1 else old(inventory.tip)
      ensures r != Ok(Collected) ==> inventory.names == old(inventory.names)
      ensures incoming !in old(net.heads) ==> Ready(from, keys) && net.heads == old(net.heads)
      ensures !Separate(incoming, old(inventory.tip), old(inventory.names)) ==> !r.Ok? && Ready(from, keys)
      ensures incoming in old(net.heads) ==>
                incoming in net.heads && Handled(r, old(net.nodes), old(net.heads), incoming, from, keys)
      ensures r == Ok(Collected) ==>
                BOWL in inventory.names &&
                inventory.names[BOWL] ==
                if BOWL in old(inventory.names) then old(inventory.names)[BOWL] else NamedDid(old(inventory.tip))
      ensures old(HeldUp(remembered)) ==> r != Ok(Collected)
      ensures reliable && incoming in old(net.heads) && Separate(incoming, old(inventory.tip), old(inventory.names)) &&
              old(ElementValidity(net.nodes, net.heads[incoming], court, book)) == Ok(false) &&
              court in old(net.nodes[net.heads[incoming]].state.auths)
              ==> r == Ok(Destroyed)
      ensures incoming in old(net.heads) && !old(TrueElement(net.nodes, net.heads[incoming], court, book)) ==>
                r != Ok(Collected)
      ensures reliable && incoming in old(net.heads) && Separate(incoming, old(inventory.tip), old(inventory.names)) &&
              old(exists name :: Offerable(net.nodes, net.heads, court, book, incoming, name)) &&
              !old(HeldUp(remembered))
              ==> r == Ok(Collected)
    {
      hide Summarize, StoreOk, CourtMade, Split, ElementNameToId, ElementValidity, LocationOk, GivenOver, Unowned,
           NamedDid, Walk, TrueElement, Forgery, BegunBy, IsSecondChange;
      ghost var n0, h0, all := net.nodes, net.heads, Touched(incoming, inventory.tip, inventory.names);
      if incoming !in net.heads {
        return Panicked;
      }
      var isValid := IsValidElement(net.heads[incoming]);
      NotSeparateIsNoElement(n0, h0, court, book, inventory.tip, inventory.names, incoming, from, keys);
      ValidityIff(n0, h0[incoming], court, book);
      if !isValid.Ok? {
        return Err("error checking element");
      }
      var name := ObjectName(net.nodes[net.heads[incoming]].state);
      if !isValid.value {
        var destroyed := ChangeOwner(incoming, []);
        LocationFrame(n0, h0, net.nodes, net.heads, incoming, court, inventory.tip, inventory.names, from, keys);
        OnlyHeadsAmong(n0, h0, net.nodes, net.heads, {incoming}, all);
        return if destroyed then Ok(Destroyed) else Err("error destroying object");
      }
      r := Keep(from, incoming, name.value, remembered, keys);
    }

    lemma Apart(from: Did, incoming: Did, keys: set<string>)
      requires Ready(from, keys) && incoming in net.heads && Separate(incoming, inventory.tip, inventory.names)
      ensures incoming != NamedDid(inventory.tip) && net.heads[incoming] in net.nodes
      ensures var all := Touched(incoming, inventory.tip, inventory.names);
              incoming in all && NamedDid(inventory.tip) in all &&
              (BOWL in inventory.names ==> inventory.names[BOWL] in all)
    {
    }

    /** The bowl is found or made, and the valid offering goes into it. */
    method Keep(from: Did, incoming: Did, name: string, remembered: bool, ghost keys: set<string>)
      returns (r: Result<Receipt>)
      requires Ready(from, keys) && incoming in net.heads && Separate(incoming, inventory.tip, inventory.names)
      modifies net, inventory
      ensures r.Err? || r == Ok(Collected)
      ensures net.Valid() && incoming in net.heads
      ensures OnlyHeads(old(net.nodes), old(net.heads), net.nodes, net.heads,
                        Touched(incoming, old(inventory.tip), old(inventory.names)))
      ensures inventory.tip == if r.Ok? then old(inventory.tip) + 1 else old(inventory.tip)
      ensures !r.Ok? ==> inventory.names == old(inventory.names)
      ensures r.Ok? ==>
                GivenOver(old(net.nodes), old(net.heads[incoming]), net.nodes, net.heads[incoming], [court]) &&
                Ready(from, keys + {KeyFor(name)}) && BOWL in inventory.names &&
                inventory.names[BOWL] ==
                if BOWL in old(inventory.names) then old(inventory.names)[BOWL] else NamedDid(old(inventory.tip))
      ensures r.Err? ==> Ready(from, keys) || Ready(from, keys + {KeyFor(name)})
      ensures old(HeldUp(remembered)) ==> r.Err?
      ensures reliable && "" !in Split(name, '/') && court in old(net.nodes[net.heads[incoming]].state.auths) &&
              !old(HeldUp(remembered))
              ==> r.Ok?
    {
      hide *;
      ghost var n0, h0, all := net.nodes, net.heads, Touched(incoming, inventory.tip, inventory.names);
      Apart(from, incoming, keys);
      var bowl := OwnBowl(from, remembered, keys);
      OnlyHeadsAmong(n0, h0, net.nodes, net.heads, {NamedDid(inventory.tip)}, all);
      OtherHeadStays(n0, h0, net.nodes, net.heads, NamedDid(inventory.tip), incoming);
      if bowl == null {
        return Err("error creating new object key");
      }
      ghost var n1, h1 := net.nodes, net.heads;
      r := Collect(from, incoming, name, bowl, keys);
      OnlyHeadsAmong(n1, h1, net.nodes, net.heads, {incoming, bowl.did}, all);
      OnlyHeadsTwice(n0, h0, n1, h1, net.nodes, net.heads, all);
      if r.Ok? {
        GivenOverFromBefore(n0, n1, h0[incoming], net.heads[incoming], [court]);
      }
    }

    /** The trees one offering can write to. */
    ghost function Touched(incoming: Did, tip: nat, names: Listing): set<Did> {
      {incoming, NamedDid(tip)} + if BOWL in names then {names[BOWL]} else {}
    }

    /** What an offering comes to. */
    ghost predicate Handled(r: Result<Receipt>, nodes: Nodes, heads: map<Did, Tip>, incoming: Did, from: Did,
                            keys: set<string>)
      requires StoreOk(nodes) && StoreOk(net.nodes) && incoming in heads && heads[incoming] in nodes
      requires incoming in net.heads
      reads net, inventory
    {
      var valid := ElementValidity(nodes, heads[incoming], court, book);
      var name := ObjectName(nodes[heads[incoming]].state);
      && (r == Ok(Collected) ==> TrueElement(nodes, heads[incoming], court, book))
      && (r == Ok(Destroyed) ==> Forgery(nodes, heads[incoming], court, book))
      && (r == Ok(Destroyed) ==>
            valid == Ok(false) && Ready(from, keys) &&
            GivenOver(nodes, heads[incoming], net.nodes, net.heads[incoming], []))
      && (r == Ok(Collected) ==>
            valid == Ok(true) && name.Ok? && Ready(from, keys + {KeyFor(name.value)}) &&
            GivenOver(nodes, heads[incoming], net.nodes, net.heads[incoming], [court]))
      && (!r.Ok? ==> Ready(from, keys) || (name.Ok? && Ready(from, keys + {KeyFor(name.value)})))
      && (valid == Ok(false) ==> r != Ok(Collected))
    }

    /** The valid offering goes into the bowl, becomes the court's, and the bowl is listed. */
    method Collect(from: Did, incoming: Did, name: string, bowl: ObjectTree, ghost keys: set<string>)
      returns (r: Result<Receipt>)
      requires Ready(from, keys) && HoldsBowl(bowl, from, keys)
      requires bowl.did == if BOWL in inventory.names then inventory.names[BOWL] else NamedDid(inventory.tip)
      requires incoming in net.heads && Separate(incoming, inventory.tip, inventory.names)
      modifies net, inventory, bowl
      ensures r.Err? || r == Ok(Collected)
      ensures net.Valid() && incoming in net.heads
      ensures OnlyHeads(old(net.nodes), old(net.heads), net.nodes, net.heads, {incoming, bowl.did})
      ensures inventory.tip == if r.Ok? then old(inventory.tip) + 1 else old(inventory.tip)
      ensures !r.Ok? ==> inventory.names == old(inventory.names)
      ensures r.Ok? ==>
                GivenOver(old(net.nodes), old(net.heads[incoming]), net.nodes, net.heads[incoming], [court]) &&
                Ready(from, keys + {KeyFor(name)}) && BOWL in inventory.names && inventory.names[BOWL] == bowl.did
      ensures r.Err? ==> Ready(from, keys) || Ready(from, keys + {KeyFor(name)})
      ensures reliable && "" !in Split(name, '/') && court in old(net.nodes[net.heads[incoming]].state.auths) ==> r.Ok?
    {
      assert BOWL !in inventory.names ==> keys == {};
      assert incoming != bowl.did && net.heads[incoming] in net.nodes;
      hide *;
      ghost var n0, h0, both := net.nodes, net.heads, {incoming, bowl.did};
      ghost var keys';
      var added;
      added, keys' := EnterOffering(bowl, name, incoming, from, keys);
      OnlyHeadsAmong(n0, h0, net.nodes, net.heads, {bowl.did}, both);
      OtherHeadStays(n0, h0, net.nodes, net.heads, bowl.did, incoming);
      if !added {
        return Err("error updating path");
      }
      ghost var n1, h1 := net.nodes, net.heads;
      r := TakeAndList(from, incoming, bowl, keys');
      OnlyHeadsAmong(n1, h1, net.nodes, net.heads, {incoming}, both);
      OnlyHeadsTwice(n0, h0, n1, h1, net.nodes, net.heads, both);
      if r.Ok? {
        GivenOverFromBefore(n0, n1, h0[incoming], net.heads[incoming], [court]);
      }
    }

    lemma GivenOverFromBefore(n0: Nodes, n1: Nodes, tip: Tip, tip': Tip, auths: seq<Address>)
      requires net.Valid() && GivenOver(n1, tip, net.nodes, tip', auths) && tip in n0 && n1[tip] == n0[tip]
      ensures GivenOver(n0, tip, net.nodes, tip', auths)
    {
    }

    /** AddToBowl, and what it means for the location. */
    method EnterOffering(bowl: ObjectTree, name: string, offering: Did, ghost player: Did, ghost keys: set<string>)
      returns (ok: bool, ghost keys': set<string>)
      requires Ready(player, keys) && HoldsBowl(bowl, player, keys)
      requires bowl.did == if BOWL in inventory.names then inventory.names[BOWL] else NamedDid(inventory.tip)
      modifies net, bowl
      ensures net.Valid() && OnlyHeads(old(net.nodes), old(net.heads), net.nodes, net.heads, {bowl.did})
      ensures HoldsBowl(bowl, player, keys') && (keys' == keys + {KeyFor(name)} || (!ok && keys' == keys))
      ensures BowlAt(net.nodes, net.heads, court, bowl.did, player, keys')
      ensures Ready(player, if BOWL in inventory.names then keys' else {})
      ensures reliable && "" !in Split(name, '/') ==> ok
    {
      hide Summarize, StoreOk, CourtMade, Split, LocationOk, NamedDid;
      ghost var n0, h0 := net.nodes, net.heads;
      ok := AddToBowl(bowl, name, offering, player, keys);
      keys' := if HoldsBowl(bowl, player, keys + {KeyFor(name)}) then keys + {KeyFor(name)} else keys;
      BowlWritten(n0, h0, bowl, player, keys, keys');
    }

    /** The offering becomes the court's, and the bowl is listed. */
    method TakeAndList(from: Did, incoming: Did, bowl: ObjectTree, ghost keys: set<string>) returns (r: Result<Receipt>)
      requires HoldsBowl(bowl, from, keys) && BowlAt(net.nodes, net.heads, court, bowl.did, from, keys) && keys != {}
      requires Ready(from, if BOWL in inventory.names then keys else {})
      requires bowl.did == if BOWL in inventory.names then inventory.names[BOWL] else NamedDid(inventory.tip)
      requires incoming in net.heads && Separate(incoming, inventory.tip, inventory.names)
      modifies net, inventory
      ensures r.Err? || r == Ok(Collected)
      ensures net.Valid() && incoming in net.heads
      ensures OnlyHeads(old(net.nodes), old(net.heads), net.nodes, net.heads, {incoming})
      ensures inventory.tip == if r.Ok? then old(inventory.tip) + 1 else old(inventory.tip)
      ensures !r.Ok? ==>
                inventory.names == old(inventory.names) && Ready(from, if BOWL in inventory.names then keys else {})
      ensures r.Ok? ==>
                GivenOver(old(net.nodes), old(net.heads[incoming]), net.nodes, net.heads[incoming], [court]) &&
                Ready(from, keys) && BOWL in inventory.names && inventory.names[BOWL] == bowl.did
      ensures reliable && court in old(net.nodes[net.heads[incoming]].state.auths) ==> r.Ok?
    {
      assert incoming != bowl.did && bowl.did in net.heads;
      hide LocationOk, BowlAt, OnlyHeads, GivenOver, Separate, HoldsBowl, NamedDid, StoreOk, ObjectTree.Valid;
      ghost var n1, h1, shown := net.nodes, net.heads, if BOWL in inventory.names then keys else {};
      var taken := ChangeOwner(incoming, [court]);
      LocationFrame(n1, h1, net.nodes, net.heads, incoming, court, inventory.tip, inventory.names, from, shown);
      BowlFrame(n1, h1, net.nodes, net.heads, {incoming}, court, bowl.did, from, keys);
      if !taken {
        return Err("error changing object owner");
      }
      var listed := ListBowl(from, bowl.did, shown, keys);
      r := if listed then Ok(Collected) else Err("error updating objects in inventory");
    }

    method ListBowl(from: Did, bowl: Did, ghost shown: set<string>, ghost keys: set<string>) returns (ok: bool)
      requires Ready(from, shown) && BowlAt(net.nodes, net.heads, court, bowl, from, keys) && keys != {}
      requires bowl == if BOWL in inventory.names then inventory.names[BOWL] else NamedDid(inventory.tip)
      modifies inventory
      ensures inventory.tip == if ok then old(inventory.tip) + 1 else old(inventory.tip)
      ensures !ok ==> inventory.names == old(inventory.names) && Ready(from, shown)
      ensures ok ==> Ready(from, keys) && BOWL in inventory.names && inventory.names[BOWL] == bowl
      ensures reliable ==> ok
    {
      assert Injective(inventory.names);
      hide Startable, BowlAt, NamedDid, Injective, AddedTo, Without, Summarize;
      ghost var names := inventory.names;
      var lost: bool := *;
      var listed := inventory.ForceAdd(bowl, Some(BOWL), reliable || !lost);
      ok := listed.Ok?;
      if ok {
        Relisted(net.nodes, net.heads, court, inventory.tip - 1, names, inventory.names, from, shown, bowl, keys);
      }
    }

    /** A run of offers at a location; its end, and that of the runs below, is that every offer got a receipt. */
    ghost predicate Running(from: Did, start: nat, offers: seq<Did>, names: seq<string>, receipts: seq<Receipt>)
      reads net, inventory
    {
      |receipts| <= |names| && Ready(from, KeysAfter(Taken(names, receipts))) && start <= inventory.tip &&
      BowlFrom(inventory.names, start) && OffersOk(net.nodes, net.heads, start, offers, names)
    }

    /** What is still needed for the next offer to be collected whatever happens. */
    ghost predicate Smooth(offers: seq<Did>, names: seq<string>, remembered: seq<bool>, k: nat)
      requires net.Valid() && |offers| == |names| == |remembered|
      reads net, inventory
    {
      AllOfferable(net.nodes, net.heads, court, book, offers, names) &&
      (BOWL !in inventory.names && k < |remembered| && Unowned(net.nodes, net.heads, inventory.tip) ==> !remembered[k])
    }

    lemma TouchedFrom(offer: Did, start: nat)
      requires NoBowlFrom(offer, start) && start <= inventory.tip && BowlFrom(inventory.names, start)
      ensures Separate(offer, inventory.tip, inventory.names)
      ensures forall d | d in Touched(offer, inventory.tip, inventory.names) :: d == offer || !NoBowlFrom(d, start)
      ensures !NoBowlFrom(NamedDid(inventory.tip), start)
    {
    }

    lemma Receipted(receipt: Receipt, nodes: Nodes, heads: map<Did, Tip>, incoming: Did, name: string, from: Did,
                    keys: set<string>)
      requires StoreOk(nodes) && StoreOk(net.nodes) && incoming in heads && heads[incoming] in nodes
      requires incoming in net.heads
      requires Handled(Ok(receipt), nodes, heads, incoming, from, keys)
      requires ObjectName(nodes[heads[incoming]].state) == Ok(name)
      ensures Ready(from, keys + if receipt.Collected? then {KeyFor(name)} else {})
      ensures GivenOver(nodes, heads[incoming], net.nodes, net.heads[incoming],
                        if receipt.Collected? then [court] else [])
    {
      assert keys + {} == keys;
    }

    lemma TakenNone(names: seq<string>)
      ensures KeysAfter(Taken(names, [])) == {}
    {
    }

    lemma StillRunning(receipt: Receipt, nodes: Nodes, heads: map<Did, Tip>, dids: set<Did>, from: Did, start: nat,
                       offers: seq<Did>, names: seq<string>, receipts: seq<Receipt>, auths: seq<Address>)
      requires |receipts| < |offers| == |names| && start <= inventory.tip && net.Valid()
      requires BowlFrom(inventory.names, start)
      requires StoreOk(nodes) && OffersOk(nodes, heads, start, offers, names)
      requires OnlyHeads(nodes, heads, net.nodes, net.heads, dids)
      requires forall d | d in dids :: d == offers[|receipts|] || !NoBowlFrom(d, start)
      requires offers[|receipts|] in net.heads && offers[|receipts|] in heads
      requires GivenOver(nodes, heads[offers[|receipts|]], net.nodes, net.heads[offers[|receipts|]], auths)
      requires Ready(from, KeysAfter(Taken(names, receipts)) +
                           if receipt.Collected? then {KeyFor(names[|receipts|])} else {})
      ensures Running(from, start, offers, names, receipts + [receipt])
      ensures auths == [court] && AllOfferable(nodes, heads, court, book, offers, names) ==>
                AllOfferable(net.nodes, net.heads, court, book, offers, names)
    {
      hide LocationOk, GivenOver, NoBowlFrom, HasName, KeyFor, AllOfferable, Taken, KeysAfter, OnlyHeads, BowlFrom,
           NodeOk, StoreOk;
      TakenNext(names, receipts, receipt);
      OffersAfter(nodes, heads, net.nodes, net.heads, dids, court, book, start, offers, names, |receipts|, auths);
      hide OffersOk;
      assert KeysAfter(Taken(names, receipts)) + {} == KeysAfter(Taken(names, receipts));
    }

    method OfferNext(from: Did, offers: seq<Did>, remembered: seq<bool>, receipts: seq<Receipt>, ghost start: nat,
                     ghost names: seq<string>)
      returns (r: Result<Receipt>)
      requires |receipts| < |offers| == |remembered| && Running(from, start, offers, names, receipts)
      modifies net, inventory
      ensures r.Ok? || r.Err?
      ensures r.Ok? ==> Running(from, start, offers, names, receipts + [r.value])
      ensures reliable && old(Smooth(offers, names, remembered, |receipts|)) ==>
                r == Ok(Collected) && Smooth(offers, names, remembered, |receipts| + 1)
    {
      var k := |receipts|;
      ghost var smooth := Smooth(offers, names, remembered, k);
      assert smooth ==> Offerable(net.nodes, net.heads, court, book, offers[k], names[k]);
      OfferName(net.nodes, net.heads, start, offers, names, k);
      hide KeyFor, ObjectName, GivenOver, OffersOk, LocationOk, StoreOk, Offerable, AllOfferable, NoBowlFrom, HasName,
           Separate, Unowned, NamedDid, OnlyHeads,
           Taken, KeysAfter, Handled, Touched;
      ghost var n0, h0 := net.nodes, net.heads;
      ghost var dids, keys := Touched(offers[k], inventory.tip, inventory.names), KeysAfter(Taken(names, receipts));
      TouchedFrom(offers[k], start);
      r := HandleReceiveElement(from, offers[k], remembered[k], keys);
      if r.Ok? {
        Receipted(r.value, n0, h0, offers[k], names[k], from, keys);
        StillRunning(r.value, n0, h0, dids, from, start, offers, names, receipts,
                     if r.value.Collected? then [court] else []);
      }
    }

    /** The offers are handled one after another, up to the first error. */
    method OfferAll(from: Did, offers: seq<Did>, remembered: seq<bool>, ghost names: seq<string>)
      returns (ok: bool, receipts: seq<Receipt>)
      requires |offers| == |remembered| && Running(from, inventory.tip, offers, names, []) && BOWL !in inventory.names
      modifies net, inventory
      ensures |receipts| <= |offers|
      ensures (ok ==> |receipts| == |offers| && Ready(from, KeysAfter(Taken(names, receipts))))
      ensures reliable && old(Smooth(offers, names, remembered, 0)) ==>
                ok && forall k | 0 <= k < |receipts| :: receipts[k].Collected?
    {
      TakenNone(names);
      hide LocationOk, StoreOk, HasName, NoBowlFrom, Smooth, BowlFrom, Taken, KeysAfter;
      ghost var start, smooth := inventory.tip, Smooth(offers, names, remembered, 0);
      receipts := [];
      for k := 0 to |offers|
        invariant |receipts| == k
        invariant Running(from, start, offers, names, receipts)
        invariant reliable && smooth ==>
                  Smooth(offers, names, remembered, k) && forall j | 0 <= j < k :: receipts[j].Collected?
      {
        var r := OfferNext(from, offers, remembered, receipts, start, names);
        if !r.Ok? {
          return false, receipts;
        }
        receipts := receipts + [r.value];
      }
      ok := true;
    }

    /** A player comes with these offers to a location that has no bowl. */
    ghost predicate AtStart(player: Did, offers: seq<Did>, remembered: seq<bool>, names: seq<string>)
      reads net, inventory, recipes
    {
      |offers| == |remembered| == |names| && Ready(player, {}) && BOWL !in inventory.names &&
      OffersOk(net.nodes, net.heads, inventory.tip, offers, names) && recipes.Represents(book.combinations)
    }

    /** The offers, and then the bowl is picked up: the answer is the verdict on the names of what was kept. */
    method Session(player: Did, offers: seq<Did>, remembered: seq<bool>, auths: seq<Address>, playerNames: Listing,
                   ghost names: seq<string>)
      returns (ok: bool, receipts: seq<Receipt>, bowl: Did, answer: Answer)
      requires AtStart(player, offers, remembered, names)
      requires forall n | n in playerNames :: playerNames[n] != ""
      modifies net, inventory
      ensures |receipts| <= |offers| && (ok ==> |receipts| == |offers|)
      ensures reliable && old(Smooth(offers, names, remembered, 0)) ==> ok && Taken(names, receipts) == names
      ensures ok && Taken(names, receipts) == [] ==> answer == Failed
      ensures ok && Taken(names, receipts) != [] ==>
                forall order | ListsKeys(order, KeysAfter(Taken(names, receipts))) ::
                  AnswerTo(VerdictOn(book, Ids(order)), answer, player, KeysAfter(Taken(names, receipts)), playerNames,
                           bowl, auths)
      ensures ok && Taken(names, receipts) != [] && (reliable || answer != Failed) ==>
                answer != Failed && Answers(book, playerNames, Taken(names, receipts), answer)
    {
      hide *;
      StartsRunning(player, offers, remembered, names);
      ok, receipts := OfferAll(player, offers, remembered, names);
      if !ok {
        return false, receipts, "", Failed;
      }
      ghost var taken := Taken(names, receipts);
      bowl := inventory.DidForName(BOWL);
      BowlIffKeys(player, taken);
      answer := HandlePickupElement(player, bowl, auths, playerNames, player, KeysAfter(taken));
      if taken != [] {
        AnswersFollow(answer, player, taken, playerNames, bowl, auths);
      }
    }

    lemma StartsRunning(player: Did, offers: seq<Did>, remembered: seq<bool>, names: seq<string>)
      requires AtStart(player, offers, remembered, names)
      ensures |offers| == |remembered| == |names| && Running(player, inventory.tip, offers, names, [])
      ensures BOWL !in inventory.names
      ensures recipes.Represents(book.combinations)
    {
      TakenNone(names);
    }

    lemma BowlIffKeys(player: Did, taken: seq<string>)
      requires Ready(player, KeysAfter(taken))
      ensures BOWL in inventory.names <==> taken != []
    {
      if taken != [] {
        assert KeyFor(taken[0]) in KeysAfter(taken);
      }
    }

    lemma AnswersFollow(answer: Answer, player: Did, taken: seq<string>, playerNames: Listing, bowl: Did,
                        auths: seq<Address>)
      requires forall order | ListsKeys(order, KeysAfter(taken)) ::
                 AnswerTo(VerdictOn(book, Ids(order)), answer, player, KeysAfter(taken), playerNames, bowl, auths)
      ensures reliable || answer != Failed ==> answer != Failed && Answers(book, playerNames, taken, answer)
    {
      var order := SomeOrder(KeysAfter(taken));
      hide ListsKeys, VerdictOn, Ids, Ready, Issued, KeysAfter;
      assert AnswerTo(VerdictOn(book, Ids(order)), answer, player, KeysAfter(taken), playerNames, bowl, auths);
    }

    /** The location after a write to its bowl, listed or not. */
    lemma BowlWritten(nodes: Nodes, heads: map<Did, Tip>, bowl: ObjectTree, player: Did, keys: set<string>,
                      keys': set<string>)
      requires LocationOk(nodes, heads, court, inventory.tip, inventory.names, player, keys)
      requires bowl.did == if BOWL in inventory.names then inventory.names[BOWL] else NamedDid(inventory.tip)
      requires HoldsBowl(bowl, player, keys') && OnlyHeads(nodes, heads, net.nodes, net.heads, {bowl.did})
      requires keys' == keys || keys' != {}
      ensures Ready(player, if BOWL in inventory.names then keys' else {})
      ensures BowlAt(net.nodes, net.heads, court, bowl.did, player, keys')
    {
      hide Summarize, StoreOk, CourtMade;
      assert BowlAt(net.nodes, net.heads, court, bowl.did, player, keys');
      if BOWL in inventory.names {
        ListedChanged(nodes, heads, net.nodes, net.heads, court, inventory.tip, inventory.names, player, keys, keys');
      } else {
        StartedAgain(net.nodes, net.heads, court, inventory.tip, bowl.summary, bowl.height);
        TipChanged(nodes, heads, net.nodes, net.heads, court, inventory.tip);
      }
    }

    /** The ids of the names in the bowl, in the order of a Go map. */
    method ElementIds(names: set<string>) returns (ids: seq<int>)
      ensures exists order :: ListsKeys(order, names) && ids == Ids(order)
    {
      ids := [];
      ghost var order: seq<string> := [];
      var todo := names;
      while todo != {}
        invariant todo <= names
        invariant ListsKeys(order, names - todo)
        invariant ids == Ids(order)
        decreases todo
      {
        var name :| name in todo;
        todo := todo - {name};
        IdsSnoc(order, name);
        ids := ids + [ElementNameToId(name)];
        order := order + [name];
      }
      assert names - todo == names;
    }

    method FindVerdict(ids: seq<int>) returns (verdict: Verdict)
      requires recipes.Represents(book.combinations)
      ensures verdict == VerdictOn(book, ids)
    {
      if |ids| < book.minRequired {
        return TooFew(book.minRequired);
      }
      var found := recipes.Find(ids, book.combinations);
      if found.None? || found.value !in book.elements {
        return NoCombination;
      }
      var element := book.elements[found.value];
      verdict := if element.id == -1 then Blocked else Issue(element);
    }

    /** The bowl is emptied, becomes the element, and goes to the player. */
    method MakeElement(bowl: ObjectTree, element: Element, auths: seq<Address>) returns (ok: bool)
      requires bowl.Valid() && bowl.net == net && bowl.court == court && bowl.reliable == reliable
      modifies bowl, net
      ensures net.Valid() && OnlyHeads(old(net.nodes), old(net.heads), net.nodes, net.heads, {bowl.did})
      ensures ok ==> Issued(net.nodes, net.heads, court, bowl.did, element.Name(), auths)
      ensures ok ==> IsObject(net.nodes, net.heads, bowl.did, element.Name(), element.description)
      ensures reliable ==> ok
    {
      ghost var n0, h0, dids := net.nodes, net.heads, {bowl.did};
      NamedObject(element, bowl.did);
      hide *;
      ok := bowl.Reset([ROOT]);
      if !ok {
        return;
      }
      ghost var n1, h1 := net.nodes, net.heads;
      ok := bowl.CreateObject(element.Name());
      OnlyHeadsTwice(n0, h0, n1, h1, net.nodes, net.heads, dids);
      if !ok {
        return;
      }
      n1, h1 := net.nodes, net.heads;
      ok := bowl.SetField(DescriptionField, Str(element.description));
      OnlyHeadsTwice(n0, h0, n1, h1, net.nodes, net.heads, dids);
      if !ok {
        return;
      }
      n1, h1 := net.nodes, net.heads;
      ok := bowl.HandOver(element.Name(), auths);
      OnlyHeadsTwice(n0, h0, n1, h1, net.nodes, net.heads, dids);
    }

    /** The answer to a pickup, and the location after it, as the verdict on the bowl's names decides them. */
    ghost predicate AnswerTo(verdict: Verdict, answer: Answer, player: Did, keys: set<string>, playerNames: Listing,
                             bowl: Did, auths: seq<Address>)
      reads net, inventory
    {
      if answer == Failed then
        !reliable && verdict.Issue? && verdict.element.Name() !in playerNames &&
        (Ready(player, keys) || Ready(player, {}))
      else
        answer == AnswerFor(verdict, playerNames) &&
        match answer
        case Given(element) =>
          Issued(net.nodes, net.heads, court, bowl, element.Name(), auths) &&
          IsObject(net.nodes, net.heads, bowl, element.Name(), element.description) && Ready(player, {})
        case Declined(TooFew(_)) => Ready(player, keys)
        case Declined(_) => Ready(player, {}) || (!reliable && Ready(player, keys))
        case _ => Ready(player, keys)
    }

    /**
     A pickup of the player's own bowl. The answer is the verdict on the set of names in it: how they came there and
     in which order the map lists them makes no difference.
     */
    method HandlePickupElement(to: Did, wanted: Did, auths: seq<Address>, playerNames: Listing, ghost player: Did,
                               ghost keys: set<string>)
      returns (answer: Answer)
      requires Ready(player, keys) && recipes.Represents(book.combinations)
      requires forall n | n in playerNames :: playerNames[n] != ""
      modifies net, inventory
      ensures to != player || BOWL !in old(inventory.names) || wanted != old(inventory.names)[BOWL] ==>
                answer == Failed && Ready(player, keys)
      ensures to == player && BOWL in old(inventory.names) && wanted == old(inventory.names)[BOWL] ==>
                forall order | ListsKeys(order, keys) ::
                  AnswerTo(VerdictOn(book, Ids(order)), answer, to, keys, playerNames, wanted, auths) &&
                  PickedUp(order, answer, playerNames, old(inventory.names))
    {
      hide Summarize, StoreOk, Changes, Ancestor, CourtMade, ListsKeys, VerdictOn, OriginVerdict,
           ElementCombinationMap.Represents;
      var comboDid := inventory.DidForName(BOWL);
      if BOWL !in inventory.names || comboDid != wanted {
        return Failed;
      }
      var summary := Summarize(net.nodes[net.heads[comboDid]].state);
      if summary.player != Some(Str(to)) || summary.elements == map[] {
        return Failed;
      }
      var ids := ElementIds(summary.elements.Keys);
      ghost var order :| ListsKeys(order, summary.elements.Keys) && ids == Ids(order);
      var verdict := FindVerdict(ids);
      answer := Respond(verdict, to, wanted, auths, playerNames, keys);
      forall other | ListsKeys(other, keys)
        ensures VerdictOn(book, Ids(other)) == verdict && PickedUp(other, answer, playerNames, old(inventory.names))
      {
        VerdictOrderFree(book, keys, other, order);
        PickedUpByVerdict(verdict, other, answer, to, keys, playerNames, wanted, auths, old(inventory.names));
      }
    }

    /**
     The source's branches, from the bowl's ids: with too few of them, or an element the player has already, the bowl
     stays; a bowl without a recipe, with one for an unknown element, or with one for the blocked element, is taken
     away.
     */
    ghost predicate PickedUp(order: seq<string>, answer: Answer, playerNames: Listing, before: Listing)
      reads inventory
    {
      var match_ := LastMatch(book.combinations, Ids(order));
      if |order| < book.minRequired then
        answer == Declined(TooFew(book.minRequired)) && inventory.names == before
      else if match_.None? || match_.value !in book.elements then
        answer == Declined(NoCombination) && (reliable ==> BOWL !in inventory.names)
      else
        var element := book.elements[match_.value];
        if element.id == -1 then
          answer == Declined(Blocked) && (reliable ==> BOWL !in inventory.names)
        else if element.Name() in playerNames then
          answer == AlreadyOwned && inventory.names == before
        else
          (answer == Given(element) && BOWL !in inventory.names) || (answer == Failed && !reliable)
    }

    lemma PickedUpByVerdict(verdict: Verdict, order: seq<string>, answer: Answer, player: Did, keys: set<string>,
                            playerNames: Listing, bowl: Did, auths: seq<Address>, before: Listing)
      requires verdict == VerdictOn(book, Ids(order)) && keys != {}
      requires AnswerTo(verdict, answer, player, keys, playerNames, bowl, auths)
      requires LeavesBowl(answer) ==> inventory.names == before
      ensures PickedUp(order, answer, playerNames, before)
    {
      hide LastMatch, Issued, Element.Name, Startable, BowlAt, Ids;
    }

    predicate LeavesBowl(answer: Answer) {
      answer == AlreadyOwned || (answer.Declined? && answer.verdict.TooFew?)
    }

    method Respond(verdict: Verdict, to: Did, bowl: Did, auths: seq<Address>, playerNames: Listing,
                   ghost keys: set<string>)
      returns (answer: Answer)
      requires Ready(to, keys) && BOWL in inventory.names && bowl == inventory.names[BOWL]
      modifies net, inventory
      ensures AnswerTo(verdict, answer, to, keys, playerNames, bowl, auths)
      ensures LeavesBowl(answer) ==> inventory.names == old(inventory.names) && net.heads == old(net.heads)
    {
      hide Summarize, StoreOk, Changes, Ancestor, CourtMade, OriginVerdict;
      if verdict.TooFew? || (verdict.Issue? && verdict.element.Name() in playerNames) {
        return if verdict.TooFew? then Declined(verdict) else AlreadyOwned;
      }
      var removed := Unlist(bowl, to, keys);
      if !verdict.Issue? {
        return Declined(verdict);
      }
      if !removed {
        return Failed;
      }
      var made := IssueTo(verdict.element, to, bowl, auths);
      answer := if made then Given(verdict.element) else Failed;
    }

    method Unlist(bowl: Did, player: Did, ghost keys: set<string>) returns (ok: bool)
      requires Ready(player, keys) && BOWL in inventory.names && bowl == inventory.names[BOWL]
      modifies inventory
      ensures ok ==> Ready(player, {}) && Separate(bowl, inventory.tip, inventory.names)
      ensures !ok ==> Ready(player, keys)
      ensures reliable ==> ok
    {
      hide BowlAt, Startable, StoreOk, Separate;
      assert Injective(inventory.names) && Lists(inventory.names, bowl);
      hide Injective;
      ghost var names := inventory.names;
      var lost: bool := *;
      var removed := inventory.Remove(bowl, reliable || !lost);
      ok := removed.Ok?;
      if ok {
        Delisted(net.nodes, net.heads, court, inventory.tip - 1, names, inventory.names, player, keys);
      }
    }

    method IssueTo(element: Element, player: Did, bowl: Did, auths: seq<Address>) returns (ok: bool)
      requires Ready(player, {}) && Separate(bowl, inventory.tip, inventory.names)
      requires exists s :: IsHead(net.nodes, net.heads, court, bowl, s)
      modifies net
      ensures Ready(player, {})
      ensures ok ==> Issued(net.nodes, net.heads, court, bowl, element.Name(), auths)
      ensures ok ==> IsObject(net.nodes, net.heads, bowl, element.Name(), element.description)
      ensures reliable ==> ok
    {
      hide LocationOk, Separate, Issued, IsObject, CourtMade, Summarize;
      ghost var n0, h0 := net.nodes, net.heads;
      var tree := new ObjectTree(net, court, bowl, reliable, Summarize(net.nodes[net.heads[bowl]].state));
      ok := MakeElement(tree, element, auths);
      LocationFrame(n0, h0, net.nodes, net.heads, bowl, court, inventory.tip, inventory.names, player, {});
    }
  }

  /**
   Two sessions at two places: when the same names were kept, in whatever order and however often, the answers are the
   same, unless a lost block made one of them fail.
   */
  method TwoSessions(a: ElementCombinerHandler, b: ElementCombinerHandler, player: Did, offersA: seq<Did>,
                     offersB: seq<Did>,
                     rememberedA: seq<bool>, rememberedB: seq<bool>, auths: seq<Address>, playerNames: Listing,
                     ghost namesA: seq<string>, ghost namesB: seq<string>)
    returns (okA: bool, okB: bool, receiptsA: seq<Receipt>, receiptsB: seq<Receipt>, answerA: Answer, answerB: Answer)
    requires a.net != b.net && a.inventory != b.inventory && a.book == b.book
    requires a.AtStart(player, offersA, rememberedA, namesA) && b.AtStart(player, offersB, rememberedB, namesB)
    requires forall n | n in playerNames :: playerNames[n] != ""
    modifies a.net, a.inventory, b.net, b.inventory
    ensures |receiptsA| <= |namesA| && |receiptsB| <= |namesB|
    ensures okA && okB && answerA != Failed && answerB != Failed &&
            SameNames(Taken(namesA, receiptsA), Taken(namesB, receiptsB)) ==>
              answerA == answerB
    ensures a.reliable && b.reliable && namesA != [] && SameNames(namesA, namesB) &&
            old(a.Smooth(offersA, namesA, rememberedA, 0)) && old(b.Smooth(offersB, namesB, rememberedB, 0)) ==>
              okA && okB && answerA == answerB != Failed
  {
    assert |offersA| == |namesA| && |offersB| == |namesB|;
    assert SameNames(namesA, namesB) && namesA != [] ==> namesA[0] in namesB;
    hide *;
    var bowlA, bowlB;
    okA, receiptsA, bowlA, answerA := a.Session(player, offersA, rememberedA, auths, playerNames, namesA);
    okB, receiptsB, bowlB, answerB := b.Session(player, offersB, rememberedB, auths, playerNames, namesB);
    ghost var takenA, takenB := Taken(namesA, receiptsA), Taken(namesB, receiptsB);
    if okA && okB && answerA != Failed && answerB != Failed && SameNames(takenA, takenB) {
      SameAnswer(a.book, playerNames, takenA, takenB, answerA, answerB);
    }
  }

  ghost predicate SameNames(a: seq<string>, b: seq<string>) {
    forall name :: name in a <==> name in b
  }

  ghost predicate Answers(book: Book, playerNames: Listing, taken: seq<string>, answer: Answer) {
    forall order | ListsKeys(order, KeysAfter(taken)) :: answer == AnswerFor(VerdictOn(book, Ids(order)), playerNames)
  }

  lemma SameAnswer(book: Book, playerNames: Listing, a: seq<string>, b: seq<string>, answerA: Answer, answerB: Answer)
    requires SameNames(a, b)
    requires Answers(book, playerNames, a, answerA) && Answers(book, playerNames, b, answerB)
    ensures answerA == answerB
  {
    var orderA := SomeOrder(KeysAfter(a));
    var orderB := SomeOrder(KeysAfter(b));
    hide VerdictOn, Ids, AnswerFor, ListsKeys, KeysAfter;
    OffersOrderFree(book, a, b, orderA, orderB);
  }

  method NewElementCombinerHandler(net: Network, inventory: InventoryTree, court: Address, elements: seq<Element>,
                                   combinations: seq<ElementCombination>, reliable: bool)
    returns (h: ElementCombinerHandler)
    requires combinations != []
    ensures fresh(h) && fresh(h.recipes) && h.net == net && h.inventory == inventory && h.court == court
    ensures h.reliable == reliable
    ensures BookOk(h.book) && h.book.combinations == combinations && h.recipes.Represents(combinations)
    ensures forall id :: id in h.book.elements <==> exists k :: 0 <= k < |elements| && elements[k].id == id
    ensures forall k | IsLastWithId(elements, k) ::
              elements[k].id in h.book.elements && h.book.elements[elements[k].id] == elements[k]
    ensures exists c :: c in combinations && h.book.minRequired == |c.from|
  {
    var recipes := new ElementCombinationMap();
    recipes.Fill(combinations);
    var minRequired := SmallestRecipe(combinations);
    var byId := ElementsById(elements);
    h := new ElementCombinerHandler(net, inventory, court, Book(byId, combinations, minRequired), recipes, reliable);
  }
}
