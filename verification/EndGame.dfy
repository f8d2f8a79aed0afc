/**
 courts/arcadia/prize_handler.go, validatorFunc: whether a player has laid the right artifact on each altar. The
 loops over the inventories and inscriptions visit Go maps in any order.
 */
module EndGame {
  import opened Wrappers
  import opened TreeData
  import opened Sorting
  import opened StringSlice
  import opened ChainTrees
  import opened History
  import opened Inventory
  import opened MapOrders
  import opened Inscriptions

  const ARTIFACT_PREFIX := "artifact-"

  /**
   Winner is `true`; Silent is `false` without an error; only Rejected takes the artifacts away. Panicked is the nil
   dereference that follows a lookup of an unknown did, which returns no tree and no error.
   */
  datatype Outcome = Winner | Silent | Rejected | Failed | Panicked

  /** What one altar's artifact comes to: Stop is a break out of the loop over the altars. */
  datatype Check = Counted | NotCounted | Stop | NoHistory | LookupFailed | Unknown

  /** How the loop over the altars goes on after one: to the next, to what follows the loop, or out with an outcome. */
  datatype Course = GoesOn | Breaks | EndsWith(outcome: Outcome)

  function CourseAfter(check: Check): Course {
    match check
    case Counted => GoesOn
    case NotCounted => GoesOn
    case Stop => Breaks
    case NoHistory => EndsWith(Silent)
    case LookupFailed => EndsWith(Failed)
    case Unknown => EndsWith(Outcome.Panicked)
  }

  function ArtifactsIn(names: Listing): set<Did> {
    set n | n in names && ARTIFACT_PREFIX <= n :: names[n]
  }

  function InscriptionsAt(s: State): Option<Entries> {
    if s.data.None? then None
    else
      var node: Option<Node<Val>> := Resolve(s.data.value, [ROOT, "inscriptions"]);
      match node
      case Some(Dir(entries)) => Some(entries)
      case _ => None
  }

  /** Created by the expected owner, empty, handed on by it, and inscribed both then and now. */
  ghost predicate HistoryRight(nodes: Nodes, tip: Tip, cfg: ArtifactConfig)
    requires StoreOk(nodes)
  {
    HasBlock(nodes, tip) &&
    var changes := Changes(nodes, tip);
    |changes| >= 2 &&
    var created, transferred := changes[|changes| - 1], changes[|changes| - 2];
    && created.authentications == [cfg.originAuth]
    && HasBlock(nodes, created.tip) && nodes[created.tip].state.data.None?
    && HasBlock(nodes, transferred.tip) && cfg.originAuth in nodes[transferred.tip].state.auths
    && InscriptionsAt(nodes[transferred.tip].state).Some?
    && InscriptionsAt(nodes[tip].state).Some?
  }

  ghost function OriginInscriptions(nodes: Nodes, tip: Tip): Entries
    requires StoreOk(nodes) && HasBlock(nodes, tip)
  {
    var changes := Changes(nodes, tip);
    if |changes| >= 2 && HasBlock(nodes, changes[|changes| - 2].tip) &&
       InscriptionsAt(nodes[changes[|changes| - 2].tip].state).Some? then
      InscriptionsAt(nodes[changes[|changes| - 2].tip].state).value
    else map[]
  }

  /** The artifact's present inscriptions hold the five expected ones. */
  ghost predicate ArtifactRight(nodes: Nodes, tip: Tip, cfg: ArtifactConfig)
    requires StoreOk(nodes)
  {
    HistoryRight(nodes, tip, cfg) &&
    AllRight(cfg, OriginInscriptions(nodes, tip), InscriptionsAt(nodes[tip].state).value)
  }

  /** At most five inscriptions, or none to read. */
  ghost predicate FewInscriptions(nodes: Nodes, tip: Tip) {
    tip in nodes ==> InscriptionsAt(nodes[tip].state).Some? ==> |InscriptionsAt(nodes[tip].state).value.Keys| <= 5
  }

  /**
   The same from the chain: its first change of ownership gave the empty tree to the expected owner alone, its second
   found that owner among the new ones and inscriptions on the object, and there are inscriptions now.
   */
  ghost predicate MadeAndHandedOver(nodes: Nodes, tip: Tip, cfg: ArtifactConfig)
    requires StoreOk(nodes) && HasBlock(nodes, tip)
  {
    exists first, second ::
      && IsFirstChange(nodes, tip, first) && IsSecondChange(nodes, tip, second)
      && nodes[first].state.auths == [cfg.originAuth] && nodes[first].state.data.None?
      && cfg.originAuth in nodes[second].state.auths && InscriptionsAt(nodes[second].state).Some?
      && InscriptionsAt(nodes[tip].state).Some?
  }

  lemma HistoryIff(nodes: Nodes, tip: Tip, cfg: ArtifactConfig)
    requires StoreOk(nodes)
    ensures HistoryRight(nodes, tip, cfg) <==> HasBlock(nodes, tip) && MadeAndHandedOver(nodes, tip, cfg)
  {
    hide Changes, StoreOk, InscriptionsAt, IsFirstChange, IsSecondChange, HasBlock;
    if HasBlock(nodes, tip) {
      forall t ensures IsFirstChange(nodes, tip, t) <==>
                       Changes(nodes, tip) != [] && t == Changes(nodes, tip)[|Changes(nodes, tip)| - 1].tip {
        OldestIsFirst(nodes, tip, t);
      }
      forall t ensures IsSecondChange(nodes, tip, t) <==>
                       |Changes(nodes, tip)| >= 2 && t == Changes(nodes, tip)[|Changes(nodes, tip)| - 2].tip {
        SecondOldestIsSecond(nodes, tip, t);
      }
      var changes := Changes(nodes, tip);
      if |changes| >= 2 {
        var created, transferred := changes[|changes| - 1], changes[|changes| - 2];
        ChangeHasBlock(nodes, tip, |changes| - 1);
        ChangeHasBlock(nodes, tip, |changes| - 2);
        ListedOwners(nodes, tip, created);
        SingleOwner(nodes[created.tip].state.auths, cfg.originAuth);
      }
    }
  }

  /** An artifact of that history with the five expected inscriptions, the maker's mark as it was at the hand-over. */
  ghost predicate TrueArtifact(nodes: Nodes, tip: Tip, cfg: ArtifactConfig)
    requires StoreOk(nodes) && HasBlock(nodes, tip)
  {
    MadeAndHandedOver(nodes, tip, cfg) &&
    forall second | IsSecondChange(nodes, tip, second) && InscriptionsAt(nodes[second].state).Some? ::
      InscriptionsAt(nodes[tip].state).Some? &&
      AllRight(cfg, InscriptionsAt(nodes[second].state).value, InscriptionsAt(nodes[tip].state).value)
  }

  lemma ArtifactIff(nodes: Nodes, tip: Tip, cfg: ArtifactConfig)
    requires StoreOk(nodes)
    ensures ArtifactRight(nodes, tip, cfg) <==> HasBlock(nodes, tip) && TrueArtifact(nodes, tip, cfg)
  {
    hide Changes, StoreOk, InscriptionsAt, IsSecondChange, IsFirstChange, HasBlock, MadeAndHandedOver, AllRight;
    HistoryIff(nodes, tip, cfg);
    if HistoryRight(nodes, tip, cfg) {
      HandedOverInscriptions(nodes, tip, cfg);
    }
  }

  lemma HandedOverInscriptions(nodes: Nodes, tip: Tip, cfg: ArtifactConfig)
    requires StoreOk(nodes) && HasBlock(nodes, tip) && HistoryRight(nodes, tip, cfg)
    ensures exists t :: IsSecondChange(nodes, tip, t)
    ensures forall t | IsSecondChange(nodes, tip, t) ::
              InscriptionsAt(nodes[t].state).Some? &&
              OriginInscriptions(nodes, tip) == InscriptionsAt(nodes[t].state).value
  {
    hide StoreOk, InscriptionsAt, IsSecondChange, HasBlock, Changes;
    var changes := Changes(nodes, tip);
    SecondOldestIsSecond(nodes, tip, changes[|changes| - 2].tip);
    forall t | IsSecondChange(nodes, tip, t) ensures t == changes[|changes| - 2].tip {
      SecondOldestIsSecond(nodes, tip, t);
    }
  }

  lemma ListedOwners(nodes: Nodes, tip: Tip, c: OwnershipChange)
    requires StoreOk(nodes) && HasBlock(nodes, tip) && c in Changes(nodes, tip) && HasBlock(nodes, c.tip)
    ensures c.authentications == SortStrings(nodes[c.tip].state.auths)
  {
    ChangesExact(nodes, tip, c);
  }

  lemma SingleOwner(auths: seq<Address>, owner: Address)
    ensures SortStrings(auths) == [owner] <==> auths == [owner]
  {
    if SortStrings(auths) == [owner] {
      assert |auths| == 1 && auths[0] in SortStrings(auths);
    }
  }

  lemma ChangeHasBlock(nodes: Nodes, tip: Tip, k: nat)
    requires StoreOk(nodes) && HasBlock(nodes, tip) && k < |Changes(nodes, tip)|
    ensures HasBlock(nodes, Changes(nodes, tip)[k].tip)
  {
    ChangesExact(nodes, tip, Changes(nodes, tip)[k]);
  }

  /** What the history of an artifact makes of the loop, whatever its inscriptions are worth. */
  ghost function ArtifactCourse(nodes: Nodes, heads: map<Did, Tip>, artifact: Did, cfg: ArtifactConfig): Course
    requires StoreOk(nodes)
  {
    if artifact !in heads then EndsWith(Outcome.Panicked)
    else if !HasBlock(nodes, heads[artifact]) then EndsWith(Failed)
    else if |Changes(nodes, heads[artifact])| < 2 then EndsWith(Silent)
    else if HistoryRight(nodes, heads[artifact], cfg) then GoesOn
    else Breaks
  }

  /**
   What each history makes of the loop, from the chain: an artifact that was never handed over ends it silently, one
   without a block with an error, an unknown one with a panic; the right history lets it go on and any other breaks it.
   */
  lemma CourseIff(nodes: Nodes, heads: map<Did, Tip>, artifact: Did, cfg: ArtifactConfig)
    requires StoreOk(nodes)
    ensures ArtifactCourse(nodes, heads, artifact, cfg) == EndsWith(Silent) <==>
            artifact in heads && HasBlock(nodes, heads[artifact]) &&
            forall t :: !IsSecondChange(nodes, heads[artifact], t)
    ensures ArtifactCourse(nodes, heads, artifact, cfg) == EndsWith(Failed) <==>
            artifact in heads && !HasBlock(nodes, heads[artifact])
    ensures ArtifactCourse(nodes, heads, artifact, cfg) == EndsWith(Outcome.Panicked) <==> artifact !in heads
    ensures ArtifactCourse(nodes, heads, artifact, cfg) == GoesOn <==>
            artifact in heads && HasBlock(nodes, heads[artifact]) && MadeAndHandedOver(nodes, heads[artifact], cfg)
  {
    hide Changes, StoreOk, HasBlock, HistoryRight, MadeAndHandedOver, IsSecondChange;
    if artifact in heads && HasBlock(nodes, heads[artifact]) {
      var tip := heads[artifact];
      HistoryIff(nodes, tip, cfg);
      forall t ensures IsSecondChange(nodes, tip, t) <==>
                       |Changes(nodes, tip)| >= 2 && t == Changes(nodes, tip)[|Changes(nodes, tip)| - 2].tip {
        SecondOldestIsSecond(nodes, tip, t);
      }
      if |Changes(nodes, tip)| < 2 {
        ShortHistory(nodes, tip, cfg);
      } else {
        assert IsSecondChange(nodes, tip, Changes(nodes, tip)[|Changes(nodes, tip)| - 2].tip);
      }
    }
  }

  lemma ShortHistory(nodes: Nodes, tip: Tip, cfg: ArtifactConfig)
    requires StoreOk(nodes) && HasBlock(nodes, tip) && |Changes(nodes, tip)| < 2
    ensures !HistoryRight(nodes, tip, cfg)
  {
  }

  method CheckArtifact(nodes: Nodes, heads: map<Did, Tip>, artifact: Did, cfg: ArtifactConfig) returns (check: Check)
    requires StoreOk(nodes)
    ensures CourseAfter(check) == ArtifactCourse(nodes, heads, artifact, cfg)
    ensures check.Unknown? <==> artifact !in heads
    ensures check.LookupFailed? <==> artifact in heads && !HasBlock(nodes, heads[artifact])
    ensures check.NoHistory? <==>
              artifact in heads && HasBlock(nodes, heads[artifact]) && |Changes(nodes, heads[artifact])| < 2
    ensures check.Counted? ==> artifact in heads && ArtifactRight(nodes, heads[artifact], cfg)
    ensures artifact in heads && ArtifactRight(nodes, heads[artifact], cfg) &&
            FewInscriptions(nodes, heads[artifact]) ==>
              check.Counted?
  {
    hide Changes, ChangeAt, StoreOk, AllRight, InscriptionsAt;
    if artifact !in heads {
      return Unknown;
    }
    if heads[artifact] !in nodes {
      return LookupFailed;
    }
    var tip := heads[artifact];
    var changes := OwnershipChanges(nodes, tip);
    if !changes.Ok? {
      return LookupFailed;
    }
    if |changes.value| < 2 {
      return NoHistory;
    }
    var created, transferred := changes.value[|changes.value| - 1], changes.value[|changes.value| - 2];
    ChangeHasBlock(nodes, tip, |changes.value| - 1);
    ChangeHasBlock(nodes, tip, |changes.value| - 2);
    EqualToSingleton(created.authentications, cfg.originAuth);
    var sameOwner := Equal(created.authentications, [cfg.originAuth]);
    if !sameOwner || nodes[created.tip].state.data.Some? {
      return Stop;
    }
    var validOrigin := Include(nodes[transferred.tip].state.auths, cfg.originAuth);
    if !validOrigin {
      return Stop;
    }
    var origin := InscriptionsAt(nodes[transferred.tip].state);
    var current := InscriptionsAt(nodes[tip].state);
    if origin.None? || current.None? {
      return Stop;
    }
    var correctInscriptions := CountCorrect(cfg, origin.value, current.value);
    CountDecides(cfg, origin.value, current.value, correctInscriptions);
    check := if correctInscriptions == 5 then Counted else NotCounted;
  }

  lemma CountDecides(cfg: ArtifactConfig, origin: Entries, current: Entries, count: nat)
    requires exists order :: ListsKeys(order, current.Keys) && count == CountInOrder(cfg, origin, current, order)
    ensures count == 5 ==> AllRight(cfg, origin, current)
    ensures AllRight(cfg, origin, current) && |current.Keys| <= 5 ==> count == 5
  {
    var order :| ListsKeys(order, current.Keys) && count == CountInOrder(cfg, origin, current, order);
    if count == 5 {
      FiveOnlyIfAllRight(cfg, origin, current, order);
    }
    if AllRight(cfg, origin, current) && |current.Keys| <= 5 {
      FiveInEveryOrder(cfg, origin, current, order);
    }
  }

  /** The names taken away between two listings: artifacts only, and all of them if every block got through. */
  ghost predicate Cleared(before: Listing, after: Listing, complete: bool) {
    Injective(after) &&
    (forall n | n in after :: n in before && after[n] == before[n]) &&
    (forall n | n in before && !(ARTIFACT_PREFIX <= n) :: n in after) &&
    (complete ==> forall n | n in after :: !(ARTIFACT_PREFIX <= n))
  }

  lemma DistinctCons(altars: seq<Did>)
    requires altars != []
    ensures Distinct(altars) <==> altars[0] !in altars[1..] && Distinct(altars[1..])
  {
    if altars[0] in altars[1..] {
      var k :| 0 <= k < |altars[1..]| && altars[1..][k] == altars[0];
      assert altars[k + 1] == altars[0];
    }
    assert forall i, j | 0 <= i < j < |altars[1..]| ::
        altars[1..][i] == altars[i + 1] && altars[1..][j] == altars[j + 1];
  }

  /** No altar is listed twice exactly if the altars are as many as their set. */
  lemma {:induction false} CountAltars(altars: seq<Did>)
    ensures |(set a | a in altars)| <= |altars|
    ensures |(set a | a in altars)| == |altars| <==> Distinct(altars)
  {
    var all := set a | a in altars;
    if altars == [] {
      assert all == {};
    } else {
      DistinctCons(altars);
      hide Distinct;
      var rest := set a | a in altars[1..];
      assert altars == [altars[0]] + altars[1..];
      assert all == rest + {altars[0]};
      CountAltars(altars[1..]);
    }
  }

  class EndGamePrizeHandler {
    const altarDids: seq<Did>
    const artifactsCfg: seq<ArtifactConfig>
    const nodes: Nodes
    const heads: map<Did, Tip>
    /** Whether every block gets through. */
    const reliable: bool
    var inventories: map<Did, Listing>

    constructor (altarDids: seq<Did>, artifactsCfg: seq<ArtifactConfig>, nodes: Nodes, heads: map<Did, Tip>,
                 reliable: bool)
      ensures this.altarDids == altarDids && this.artifactsCfg == artifactsCfg && this.nodes == nodes
      ensures this.heads == heads
      ensures this.reliable == reliable && inventories == map[]
    {
      this.altarDids, this.artifactsCfg, this.nodes, this.heads := altarDids, artifactsCfg, nodes, heads;
      this.reliable, inventories := reliable, map[];
    }

    ghost predicate Fixed() {
      StoreOk(nodes) && |altarDids| <= |artifactsCfg|
    }

    ghost predicate Valid()
      reads this
    {
      Fixed() && forall inv | inv in inventories :: Injective(inventories[inv])
    }

    /** The altar has exactly one artifact, and it is the right one. */
    ghost predicate AltarRight(listings: map<Did, Listing>, i: nat, playerInventories: map<Did, Did>)
      requires Fixed() && i < |altarDids|
    {
      altarDids[i] in playerInventories && playerInventories[altarDids[i]] != "" &&
      playerInventories[altarDids[i]] in listings &&
      exists artifact ::
        ArtifactsIn(listings[playerInventories[altarDids[i]]]) == {artifact} &&
        artifact in heads && ArtifactRight(nodes, heads[artifact], artifactsCfg[i])
    }

    /** The plain statement of what wins the game. */
    ghost predicate Wins(listings: map<Did, Listing>, playerInventories: map<Did, Did>)
      requires Fixed()
    {
      Distinct(altarDids) && forall i | 0 <= i < |altarDids| :: AltarRight(listings, i, playerInventories)
    }

    /** The artifact can be fetched and has been handed on, so that there is a history to check. */
    ghost predicate Known(artifact: Did)
      requires StoreOk(nodes)
    {
      artifact in heads && HasBlock(nodes, heads[artifact]) && |Changes(nodes, heads[artifact])| >= 2
    }

    /** The player has an inventory at each altar. */
    ghost predicate Laid(listings: map<Did, Listing>, playerInventories: map<Did, Did>)
    {
      forall altar | altar in altarDids ::
        altar in playerInventories && playerInventories[altar] != "" && playerInventories[altar] in listings
    }

    /** Whatever artifacts lie there have a history. */
    ghost predicate AllKnown(listings: map<Did, Listing>, playerInventories: map<Did, Did>)
      requires StoreOk(nodes) && Laid(listings, playerInventories)
    {
      forall altar, artifact | altar in altarDids && artifact in ArtifactsIn(listings[playerInventories[altar]]) ::
        Known(artifact)
    }

    /** The player's inventory at each altar, empty where there is none. */
    method AltarInventories(playerInventories: map<Did, Did>) returns (byAltar: map<Did, Did>)
      ensures forall altar :: altar in byAltar <==> altar in altarDids
      ensures forall altar | altar in byAltar ::
                byAltar[altar] == if altar in playerInventories then playerInventories[altar] else ""
    {
      byAltar := map[];
      for i := 0 to |altarDids|
        invariant forall altar :: altar in byAltar <==> altar in altarDids[..i]
        invariant forall altar | altar in byAltar :: byAltar[altar] == ""
      {
        byAltar := byAltar[altarDids[i] := ""];
      }
      var todo := playerInventories.Keys;
      while todo != {}
        invariant todo <= playerInventories.Keys
        invariant forall altar :: altar in byAltar <==> altar in altarDids
        invariant forall altar | altar in byAltar ::
                    byAltar[altar] ==
                    if altar in playerInventories && altar !in todo then playerInventories[altar] else ""
        decreases todo
      {
        var location :| location in todo;
        todo := todo - {location};
        if location in byAltar {
          byAltar := byAltar[location := playerInventories[location]];
        }
      }
    }

    method ArtifactsOn(names: Listing) returns (artifacts: seq<Did>)
      requires Injective(names)
      ensures ListsKeys(artifacts, ArtifactsIn(names))
    {
      var inventory := new InventoryTree();
      inventory.names := names;
      var all := inventory.All();
      artifacts := [];
      var todo := all.Keys;
      while todo != {}
        invariant todo <= all.Keys
        invariant forall did :: did in artifacts <==> did in all && did !in todo && ARTIFACT_PREFIX <= all[did]
        invariant forall i, j | 0 <= i < j < |artifacts| :: artifacts[i] != artifacts[j]
        decreases todo
      {
        var did :| did in todo;
        todo := todo - {did};
        if ARTIFACT_PREFIX <= all[did] {
          artifacts := artifacts + [did];
        }
      }
      forall did ensures did in artifacts <==> did in ArtifactsIn(names) {
        if did in artifacts {
          assert all[did] in names && names[all[did]] == did;
        }
      }
    }

    method CollectArtifacts(byAltar: map<Did, Did>) returns (r: Result<map<Did, seq<Did>>>)
      requires Valid()
      ensures r.Ok? <==> forall altar | altar in byAltar :: byAltar[altar] != "" && byAltar[altar] in inventories
      ensures r.Err? ==> exists altar :: altar in byAltar && byAltar[altar] == ""
      ensures r.Panicked? ==> exists altar :: altar in byAltar && byAltar[altar] != "" && byAltar[altar] !in inventories
      ensures r.Ok? ==> r.value.Keys == byAltar.Keys
      ensures r.Ok? ==>
                forall altar | altar in byAltar :: ListsKeys(r.value[altar], ArtifactsIn(inventories[byAltar[altar]]))
    {
      hide ArtifactsIn, ListsKeys, StoreOk;
      var altarsToArtifacts: map<Did, seq<Did>> := map[];
      var todo := byAltar.Keys;
      while todo != {}
        invariant todo <= byAltar.Keys
        invariant altarsToArtifacts.Keys == byAltar.Keys - todo
        invariant forall altar | altar in altarsToArtifacts ::
                    byAltar[altar] != "" && byAltar[altar] in inventories &&
                    ListsKeys(altarsToArtifacts[altar], ArtifactsIn(inventories[byAltar[altar]]))
        decreases todo
      {
        var altar :| altar in todo;
        todo := todo - {altar};
        if byAltar[altar] == "" {
          return Err("you must place one artifact on each altar");
        }
        if byAltar[altar] !in inventories {
          return Result.Panicked;
        }
        var artifacts := ArtifactsOn(inventories[byAltar[altar]]);
        altarsToArtifacts := altarsToArtifacts[altar := artifacts];
      }
      r := Ok(altarsToArtifacts);
    }

    ghost predicate OneRight(artifacts: seq<Did>, cfg: ArtifactConfig)
      requires StoreOk(nodes)
    {
      |artifacts| == 1 && artifacts[0] in heads && ArtifactRight(nodes, heads[artifacts[0]], cfg)
    }

    /** Right, and without inscriptions whose order could matter. */
    ghost predicate SurelyRight(artifacts: seq<Did>, cfg: ArtifactConfig)
      requires StoreOk(nodes)
    {
      OneRight(artifacts, cfg) && FewInscriptions(nodes, heads[artifacts[0]])
    }

    ghost function AltarCourse(artifacts: seq<Did>, cfg: ArtifactConfig): Course
      requires StoreOk(nodes)
    {
      if |artifacts| == 1 then ArtifactCourse(nodes, heads, artifacts[0], cfg) else Breaks
    }

    method CheckAltar(artifacts: seq<Did>, cfg: ArtifactConfig) returns (check: Check)
      requires Valid()
      ensures CourseAfter(check) == AltarCourse(artifacts, cfg)
      ensures check.Counted? ==> OneRight(artifacts, cfg)
      ensures SurelyRight(artifacts, cfg) ==> check.Counted?
    {
      hide ArtifactRight, FewInscriptions, ArtifactCourse, Changes, HasBlock;
      if |artifacts| != 1 {
        return Stop;
      }
      check := CheckArtifact(nodes, heads, artifacts[0], cfg);
    }

    /** The first altar that does not let the loop go on ends it with this outcome. */
    ghost predicate EndsEarly(altarsToArtifacts: map<Did, seq<Did>>, outcome: Outcome)
      requires StoreOk(nodes) && |altarDids| <= |artifactsCfg|
      requires forall altar :: altar in altarDids ==> altar in altarsToArtifacts
    {
      exists i :: 0 <= i < |altarDids| && FirstNotPassed(altarsToArtifacts, i, EndsWith(outcome))
    }

    ghost predicate FirstNotPassed(altarsToArtifacts: map<Did, seq<Did>>, i: nat, course: Course)
      requires StoreOk(nodes) && |altarDids| <= |artifactsCfg|
      requires forall altar :: altar in altarDids ==> altar in altarsToArtifacts
      requires i < |altarDids|
    {
      AltarCourse(altarsToArtifacts[altarDids[i]], artifactsCfg[i]) == course &&
      forall j | 0 <= j < i :: AltarCourse(altarsToArtifacts[altarDids[j]], artifactsCfg[j]) == GoesOn
    }

    /** The loop over the altars; count is their number only if it never left early and every artifact counted. */
    method CountAltarsRight(altarsToArtifacts: map<Did, seq<Did>>) returns (validCount: nat, early: Option<Outcome>)
      requires Valid() && forall altar :: altar in altarDids ==> altar in altarsToArtifacts
      ensures forall outcome :: early == Some(outcome) <==> EndsEarly(altarsToArtifacts, outcome)
      ensures early.Some? ==> early.value.Silent? || early.value.Failed? || early.value.Panicked?
      ensures validCount <= |altarDids|
      ensures early.None? && validCount == |altarDids| ==>
                forall i | 0 <= i < |altarDids| :: OneRight(altarsToArtifacts[altarDids[i]], artifactsCfg[i])
      ensures (forall i | 0 <= i < |altarDids| :: SurelyRight(altarsToArtifacts[altarDids[i]], artifactsCfg[i])) ==>
                early.None? && validCount == |altarDids|
    {
      hide StoreOk, OneRight, SurelyRight, AltarCourse;
      ghost var surely := forall i | 0 <= i < |altarDids| ::
        SurelyRight(altarsToArtifacts[altarDids[i]], artifactsCfg[i]);
      validCount := 0;
      early := None;
      for i := 0 to |altarDids|
        invariant early.None? && validCount <= i && (surely ==> validCount == i)
        invariant validCount == i ==>
                  forall j | 0 <= j < i :: OneRight(altarsToArtifacts[altarDids[j]], artifactsCfg[j])
        invariant forall j | 0 <= j < i :: AltarCourse(altarsToArtifacts[altarDids[j]], artifactsCfg[j]) == GoesOn
      {
        var check := CheckAltar(altarsToArtifacts[altarDids[i]], artifactsCfg[i]);
        if check.LookupFailed? || check.NoHistory? || check.Unknown? {
          assert FirstNotPassed(altarsToArtifacts, i, CourseAfter(check));
          return validCount, Some(CourseAfter(check).outcome);
        }
        if check.Stop? {
          assert FirstNotPassed(altarsToArtifacts, i, Breaks);
          break;
        }
        if check.Counted? {
          validCount := validCount + 1;
        }
      }
    }

    /** before is the inventory as it was searched; another altar's removals may have come in between. */
    method RemoveArtifacts(inv: Did, artifacts: seq<Did>, ghost before: Listing)
      requires Valid() && inv in inventories && Injective(before) && Cleared(before, inventories[inv], false)
      requires ListsKeys(artifacts, ArtifactsIn(before))
      modifies this
      ensures Valid() && inv in inventories && inventories == old(inventories)[inv := inventories[inv]]
      ensures Cleared(before, inventories[inv], reliable)
    {
      hide StoreOk, ArtifactsIn, Without;
      var inventory := new InventoryTree();
      inventory.names := inventories[inv];
      ClearedInjective(before, inventory.names);
      for i := 0 to |artifacts|
        invariant inventories == old(inventories)
        invariant Injective(inventory.names) && Cleared(before, inventory.names, false)
        invariant reliable ==> forall n | n in inventory.names :: inventory.names[n] !in artifacts[..i]
      {
        hide Cleared, Injective, ListsKeys;
        ListedArtifact(artifacts, before, i);
        ghost var names := inventory.names;
        var lost: bool := *;
        var removed := inventory.Remove(artifacts[i], reliable || !lost);
        ArtifactGone(before, names, inventory.names, artifacts[i]);
        GoneFrom(names, inventory.names, artifacts, i, reliable);
      }
      assert artifacts[..|artifacts|] == artifacts;
      if reliable {
        AllGone(before, inventory.names, artifacts);
      }
      inventories := inventories[inv := inventory.names];
    }

    /** With the altars' artifacts at hand, the loop's condition is the plain one. */
    lemma WinsIff(playerInventories: map<Did, Did>, byAltar: map<Did, Did>, altarsToArtifacts: map<Did, seq<Did>>)
      requires Valid() && Distinct(altarDids)
      requires forall altar :: altar in byAltar <==> altar in altarDids
      requires forall altar | altar in byAltar ::
                byAltar[altar] == if altar in playerInventories then playerInventories[altar] else ""
      requires forall altar | altar in byAltar :: byAltar[altar] != "" && byAltar[altar] in inventories
      requires altarsToArtifacts.Keys == byAltar.Keys
      requires forall altar | altar in byAltar ::
                 ListsKeys(altarsToArtifacts[altar], ArtifactsIn(inventories[byAltar[altar]]))
      ensures Wins(inventories, playerInventories) <==>
              forall i | 0 <= i < |altarDids| :: OneRight(altarsToArtifacts[altarDids[i]], artifactsCfg[i])
    {
      hide StoreOk, ArtifactsIn, ArtifactRight;
      forall i | 0 <= i < |altarDids|
        ensures AltarRight(inventories, i, playerInventories) <==>
                  OneRight(altarsToArtifacts[altarDids[i]], artifactsCfg[i])
      {
        assert altarDids[i] in byAltar;
        OneListed(altarsToArtifacts[altarDids[i]], ArtifactsIn(inventories[byAltar[altarDids[i]]]));
      }
    }

    /** What the loop makes of the altar, from the player's inventory there. */
    ghost function CourseAt(listings: map<Did, Listing>, i: nat, playerInventories: map<Did, Did>): Course
      requires Fixed() && Laid(listings, playerInventories) && i < |altarDids|
    {
      var here := ArtifactsIn(listings[playerInventories[altarDids[i]]]);
      if exists artifact :: here == {artifact} then
        var artifact :| here == {artifact};
        ArtifactCourse(nodes, heads, artifact, artifactsCfg[i])
      else Breaks
    }

    /** The first altar whose artifact does not let the loop go on ends it with this outcome. */
    ghost predicate EndsEarlyAt(listings: map<Did, Listing>, playerInventories: map<Did, Did>, outcome: Outcome)
      requires Fixed() && Laid(listings, playerInventories)
    {
      exists i :: 0 <= i < |altarDids| && CourseAt(listings, i, playerInventories) == EndsWith(outcome) &&
                  forall j | 0 <= j < i :: CourseAt(listings, j, playerInventories) == GoesOn
    }

    lemma CoursesAgree(playerInventories: map<Did, Did>, altarsToArtifacts: map<Did, seq<Did>>)
      requires Valid() && Laid(inventories, playerInventories)
      requires forall altar :: altar in altarsToArtifacts <==> altar in altarDids
      requires forall altar | altar in altarDids ::
                 ListsKeys(altarsToArtifacts[altar], ArtifactsIn(inventories[playerInventories[altar]]))
      ensures forall outcome ::
                EndsEarlyAt(inventories, playerInventories, outcome) <==> EndsEarly(altarsToArtifacts, outcome)
    {
      hide StoreOk, ArtifactsIn, ArtifactCourse;
      forall i | 0 <= i < |altarDids|
        ensures CourseAt(inventories, i, playerInventories) ==
                AltarCourse(altarsToArtifacts[altarDids[i]], artifactsCfg[i])
      {
        OneListed(altarsToArtifacts[altarDids[i]], ArtifactsIn(inventories[playerInventories[altarDids[i]]]));
      }
      hide CourseAt, AltarCourse;
      forall outcome
        ensures EndsEarlyAt(inventories, playerInventories, outcome) <==> EndsEarly(altarsToArtifacts, outcome)
      {
        if EndsEarlyAt(inventories, playerInventories, outcome) {
          var i :| 0 <= i < |altarDids| && CourseAt(inventories, i, playerInventories) == EndsWith(outcome) &&
                   forall j | 0 <= j < i :: CourseAt(inventories, j, playerInventories) == GoesOn;
          assert FirstNotPassed(altarsToArtifacts, i, EndsWith(outcome));
        }
        if EndsEarly(altarsToArtifacts, outcome) {
          var i :| 0 <= i < |altarDids| && FirstNotPassed(altarsToArtifacts, i, EndsWith(outcome));
          assert CourseAt(inventories, i, playerInventories) == EndsWith(outcome);
        }
      }
    }

    lemma KnownGoesOn(playerInventories: map<Did, Did>)
      requires Valid() && Laid(inventories, playerInventories) && AllKnown(inventories, playerInventories)
      ensures forall outcome :: !EndsEarlyAt(inventories, playerInventories, outcome)
    {
      hide StoreOk, ArtifactsIn, HistoryRight;
      forall i, outcome | 0 <= i < |altarDids|
        ensures CourseAt(inventories, i, playerInventories) != EndsWith(outcome)
      {
        var here := ArtifactsIn(inventories[playerInventories[altarDids[i]]]);
        if exists artifact :: here == {artifact} {
          forall artifact | here == {artifact} ensures Known(artifact) {
            assert artifact in here && altarDids[i] in altarDids;
          }
        }
      }
    }

    /** Some altar has no inventory of the player's, or one that cannot be found. */
    ghost predicate MissesOne(playerInventories: map<Did, Did>)
    {
      exists altar :: altar in altarDids && (altar !in playerInventories || playerInventories[altar] == "")
    }

    ghost predicate FindsNone(listings: map<Did, Listing>, playerInventories: map<Did, Did>)
    {
      exists altar :: altar in altarDids && altar in playerInventories && playerInventories[altar] != "" &&
                      playerInventories[altar] !in listings
    }

    method RemoveAll(byAltar: map<Did, Did>, altarsToArtifacts: map<Did, seq<Did>>)
      requires Valid() && altarsToArtifacts.Keys == byAltar.Keys
      requires forall altar | altar in byAltar :: byAltar[altar] in inventories
      requires forall altar | altar in byAltar ::
                 ListsKeys(altarsToArtifacts[altar], ArtifactsIn(inventories[byAltar[altar]]))
      modifies this
      ensures Valid() && inventories.Keys == old(inventories).Keys
      ensures forall altar | altar in byAltar ::
                Cleared(old(inventories)[byAltar[altar]], inventories[byAltar[altar]], reliable)
      ensures forall inv | inv in inventories && inv !in byAltar.Values :: inventories[inv] == old(inventories)[inv]
    {
      hide StoreOk, ArtifactsIn, ListsKeys;
      ghost var before := inventories;
      var todo := byAltar.Keys;
      assert forall inv | inv in before :: Cleared(before[inv], before[inv], false);
      while todo != {}
        invariant Valid() && todo <= byAltar.Keys && inventories.Keys == before.Keys
        invariant forall inv | inv in before :: Cleared(before[inv], inventories[inv], false)
        invariant forall altar | altar in byAltar && altar !in todo ::
                    Cleared(before[byAltar[altar]], inventories[byAltar[altar]], reliable)
        invariant forall inv | inv in inventories && inv !in byAltar.Values :: inventories[inv] == before[inv]
        decreases todo
      {
        var altar :| altar in todo;
        todo := todo - {altar};
        var inv := byAltar[altar];
        assert inv in byAltar.Values;
        RemoveArtifacts(inv, altarsToArtifacts[altar], before[inv]);
        ClearedWeakens(before[inv], inventories[inv], reliable);
      }
    }

    /** The artifacts are gone from the player's inventories at the altars, and nothing else is. */
    ghost predicate Collected(before: map<Did, Listing>, playerInventories: map<Did, Did>)
      reads this
    {
      inventories.Keys == before.Keys &&
      (forall altar | altar in altarDids ::
         altar in playerInventories && playerInventories[altar] in inventories &&
         Cleared(before[playerInventories[altar]], inventories[playerInventories[altar]], reliable)) &&
      (forall inv | inv in inventories &&
                    (forall altar :: altar in altarDids && altar in playerInventories ==>
                         playerInventories[altar] != inv) ::
         inventories[inv] == before[inv])
    }

    lemma CollectedByAltar(before: map<Did, Listing>, playerInventories: map<Did, Did>, byAltar: map<Did, Did>)
      requires inventories.Keys == before.Keys
      requires forall altar :: altar in byAltar <==> altar in altarDids
      requires forall altar | altar in byAltar ::
                byAltar[altar] == (if altar in playerInventories then playerInventories[altar] else "") &&
                byAltar[altar] != ""
      requires forall altar | altar in byAltar ::
                byAltar[altar] in inventories && Cleared(before[byAltar[altar]], inventories[byAltar[altar]], reliable)
      requires forall inv | inv in inventories && inv !in byAltar.Values :: inventories[inv] == before[inv]
      ensures Collected(before, playerInventories)
    {
      hide Cleared;
      forall inv | inv in inventories &&
                   (forall altar :: altar in altarDids && altar in playerInventories ==>
                       playerInventories[altar] != inv)
        ensures inventories[inv] == before[inv]
      {
        forall altar | altar in byAltar ensures byAltar[altar] != inv {
          assert altar in altarDids;
        }
      }
    }

    /** playerInventories is None when the player has no location inventories. */
    method ValidatorFunc(playerInventories: Option<map<Did, Did>>) returns (outcome: Outcome)
      requires Valid()
      modifies this
      ensures Valid()
      ensures outcome.Winner? ==> playerInventories.Some? && Wins(old(inventories), playerInventories.value)
      ensures (forall did | did in heads :: FewInscriptions(nodes, heads[did])) ==>
                (playerInventories.Some? && Wins(old(inventories), playerInventories.value) ==> outcome.Winner?)
      ensures playerInventories.None? ==> outcome.Failed?
      ensures playerInventories.Some? && !Laid(old(inventories), playerInventories.value) ==>
                (outcome.Failed? && MissesOne(playerInventories.value)) ||
                (outcome.Panicked? && FindsNone(old(inventories), playerInventories.value))
      ensures playerInventories.Some? && Laid(old(inventories), playerInventories.value) && !Distinct(altarDids) ==>
                outcome.Failed?
      ensures playerInventories.Some? && Distinct(altarDids) && Laid(old(inventories), playerInventories.value) ==>
                forall early | early in {Silent, Failed, Outcome.Panicked} ::
                  outcome == early <==> EndsEarlyAt(old(inventories), playerInventories.value, early)
      ensures playerInventories.Some? && Distinct(altarDids) &&
              Laid(old(inventories), playerInventories.value) && AllKnown(old(inventories), playerInventories.value) ==>
                outcome.Winner? || outcome.Rejected?
      ensures !outcome.Rejected? ==> inventories == old(inventories)
      ensures outcome.Rejected? ==> playerInventories.Some? && Collected(old(inventories), playerInventories.value)
    {
      if playerInventories.None? {
        return Failed;
      }
      WinsOnlyIfLaid(playerInventories.value);
      hide *;
      var byAltar := AltarInventories(playerInventories.value);
      var altarsToArtifacts := CollectArtifacts(byAltar);
      NotLaid(playerInventories.value, byAltar);
      if !altarsToArtifacts.Ok? {
        return if altarsToArtifacts.Err? then Failed else Outcome.Panicked;
      }
      CountAltars(altarDids);
      assert byAltar.Keys == (set a | a in altarDids);
      if |altarsToArtifacts.value| < |altarDids| {
        return Failed;
      }
      outcome := Judge(playerInventories.value, byAltar, altarsToArtifacts.value);
    }

    lemma WinsOnlyIfLaid(playerInventories: map<Did, Did>)
      requires Valid()
      ensures Wins(inventories, playerInventories) ==> Distinct(altarDids) && Laid(inventories, playerInventories)
    {
      if Wins(inventories, playerInventories) {
        forall altar | altar in altarDids
          ensures altar in playerInventories && playerInventories[altar] != ""
          ensures playerInventories[altar] in inventories
        {
          var i :| 0 <= i < |altarDids| && altarDids[i] == altar;
          assert AltarRight(inventories, i, playerInventories);
        }
      }
    }

    lemma NotLaid(playerInventories: map<Did, Did>, byAltar: map<Did, Did>)
      requires Valid()
      requires forall altar :: altar in byAltar <==> altar in altarDids
      requires forall altar | altar in byAltar ::
                byAltar[altar] == if altar in playerInventories then playerInventories[altar] else ""
      ensures Laid(inventories, playerInventories) <==>
                forall altar | altar in byAltar :: byAltar[altar] != "" && byAltar[altar] in inventories
      ensures (exists altar :: altar in byAltar && byAltar[altar] == "") ==> MissesOne(playerInventories)
      ensures (exists altar :: altar in byAltar && byAltar[altar] != "" && byAltar[altar] !in inventories) ==>
                FindsNone(inventories, playerInventories)
    {
    }

    /** The loop over the altars, and what follows it. */
    method Judge(playerInventories: map<Did, Did>, byAltar: map<Did, Did>, altarsToArtifacts: map<Did, seq<Did>>)
      returns (outcome: Outcome)
      requires Valid() && Distinct(altarDids) && Laid(inventories, playerInventories)
      requires forall altar :: altar in byAltar <==> altar in altarDids
      requires forall altar | altar in byAltar ::
                byAltar[altar] == if altar in playerInventories then playerInventories[altar] else ""
      requires altarsToArtifacts.Keys == byAltar.Keys
      requires forall altar | altar in byAltar :: byAltar[altar] != "" && byAltar[altar] in inventories
      requires forall altar | altar in byAltar ::
                 ListsKeys(altarsToArtifacts[altar], ArtifactsIn(inventories[byAltar[altar]]))
      modifies this
      ensures Valid()
      ensures outcome.Winner? ==> Wins(old(inventories), playerInventories)
      ensures (forall did | did in heads :: FewInscriptions(nodes, heads[did])) ==>
                (Wins(old(inventories), playerInventories) ==> outcome.Winner?)
      ensures forall early | early in {Silent, Failed, Outcome.Panicked} ::
                outcome == early <==> EndsEarlyAt(old(inventories), playerInventories, early)
      ensures AllKnown(old(inventories), playerInventories) ==> outcome.Winner? || outcome.Rejected?
      ensures !outcome.Rejected? ==> inventories == old(inventories)
      ensures outcome.Rejected? ==> Collected(old(inventories), playerInventories)
    {
      WinsIff(playerInventories, byAltar, altarsToArtifacts);
      CoursesAgree(playerInventories, altarsToArtifacts);
      if AllKnown(inventories, playerInventories) {
        KnownGoesOn(playerInventories);
      }
      hide StoreOk, ArtifactsIn, ArtifactRight, FewInscriptions, Cleared, Known, AllKnown, Collected, EndsEarly,
           EndsEarlyAt, Wins, Laid, Distinct, ListsKeys;
      var validCount, early := CountAltarsRight(altarsToArtifacts);
      if early.Some? {
        return early.value;
      }
      if validCount == |altarDids| {
        return Winner;
      }
      ghost var before := inventories;
      RemoveAll(byAltar, altarsToArtifacts);
      CollectedByAltar(before, playerInventories, byAltar);
      outcome := Rejected;
    }
  }

  lemma OneListed(order: seq<Did>, keys: set<Did>)
    requires ListsKeys(order, keys)
    ensures |order| == 1 ==> keys == {order[0]}
    ensures forall did :: keys == {did} ==> |order| == 1 && order[0] == did
  {
    OrderLength(order, keys);
    if |order| == 1 {
      assert forall k :: k in order <==> k == order[0];
      assert keys == {order[0]};
    }
    forall did | keys == {did} ensures |order| == 1 && order[0] == did {
      assert order[0] in order;
    }
  }

  lemma ListedArtifact(artifacts: seq<Did>, before: Listing, i: nat)
    requires ListsKeys(artifacts, ArtifactsIn(before)) && i < |artifacts|
    ensures artifacts[i] in ArtifactsIn(before)
  {
    assert artifacts[i] in artifacts;
  }

  lemma ClearedInjective(before: Listing, after: Listing)
    requires Cleared(before, after, false)
    ensures Injective(after)
  {
  }

  lemma ClearedWeakens(before: Listing, after: Listing, complete: bool)
    requires Cleared(before, after, complete)
    ensures Cleared(before, after, false)
  {
  }

  lemma ArtifactGone(before: Listing, names: Listing, after: Listing, artifact: Did)
    requires Injective(before) && artifact in ArtifactsIn(before) && Cleared(before, names, false)
    requires after == Without(names, artifact) || after == names
    ensures Cleared(before, after, false)
  {
    var m :| m in before && ARTIFACT_PREFIX <= m && before[m] == artifact;
  }

  lemma GoneFrom(names: Listing, after: Listing, artifacts: seq<Did>, i: nat, removed: bool)
    requires i < |artifacts| && (removed ==> after == Without(names, artifacts[i]))
    requires removed ==> forall n | n in names :: names[n] !in artifacts[..i]
    ensures removed ==> forall n | n in after :: after[n] !in artifacts[..i + 1]
  {
    assert artifacts[..i + 1] == artifacts[..i] + [artifacts[i]];
  }

  lemma AllGone(before: Listing, after: Listing, artifacts: seq<Did>)
    requires ListsKeys(artifacts, ArtifactsIn(before)) && Cleared(before, after, false)
    requires forall n | n in after :: after[n] !in artifacts
    ensures Cleared(before, after, true)
  {
    forall n | n in after ensures !(ARTIFACT_PREFIX <= n) {
      assert before[n] !in ArtifactsIn(before);
    }
  }
}
