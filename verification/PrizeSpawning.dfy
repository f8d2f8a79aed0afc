/**
 courts/court/prize_handler.go: one object at a time waits at a location, a transfer request takes it and turns
 it into a prize, and a new one is spawned. Transfers are handled one after another; the respawn runs beside
 them, started by each transfer and by a timer, one at a time under its mutex.
 */
module PrizeSpawning {
  import opened Wrappers
  import opened TreeData
  import PrizeLedger

  /** A spawned object's key is derived from the location's tip; FindOrCreate of the same tip is the same tree. */
  datatype Did = Spawned(tip: nat) | Foreign(id: string)

  type Player = string

  datatype Location = Location(tip: nat, names: map<string, Did>)

  datatype Spawner = Free | Locked | Absent | Read(seen: Location) | Created(seen: Location) | Imported(seen: Location)

  datatype Transfer =
    | Idle
    | Checked(did: Option<Did>, to: Player)
    | Validated(did: Option<Did>, to: Player)
    | Fetched(did: Option<Did>, to: Player, seen: Location)
    | Removed(did: Option<Did>, to: Player)
    | Prepared(prize: Did, to: Player, record: Record)
    | Given(record: Record)

  /** The tips of the prize and of the player, as they are entered in the ledger. */
  type Record = PrizeLedger.Award

  datatype Award = Award(did: Did, to: Player, record: Record)

  /**
   removed records the dids a transfer has taken off the location. owned and unowned are the tips whose trees have been
   created: those that are the court's, and those whose first block, which makes them the court's, did not get through.
   ledger is the handler's own tree, None once a block on it was refused.
   */
  datatype State = State(location: Location, spawner: Spawner, transfer: Transfer, awards: seq<Award>,
                         removed: set<Did>, owned: set<nat>, unowned: set<nat>, ledger: Option<Node<PrizeLedger.Cell>>)

  /**
   A request for None is one for the empty did. delivered and chowned are false when a block is lost; remembered says
   that the network's cache still has a tree that was created without a block.
   */
  datatype Step =
    | Lock | CheckAbsent | ReadLocation | Create(chowned: bool, remembered: bool) | Import(ok: bool)
    | List(delivered: bool)
    | Request(did: Option<Did>, to: Player) | Validate(ok: bool) | Fetch | Remove(delivered: bool)
    | Prepare(ok: bool, record: Record) | Chown(delivered: bool) | Track(delivered: bool)
    | OtherBlock(names: map<string, Did>)

  function DidForName(location: Location, name: string): Option<Did> {
    if name in location.names then Some(location.names[name]) else None
  }

  predicate ListsDid(names: map<string, Did>, did: Did) {
    exists n :: n in names && names[n] == did
  }

  function WithoutDid(names: map<string, Did>, did: Did): map<string, Did> {
    map n | n in names && names[n] != did :: names[n]
  }

  /** Other writers of the location leave the spawn name alone and do not list spawned objects. */
  predicate Enabled(spawnName: string, s: State, step: Step) {
    match step
    case Lock => s.spawner.Free?
    case CheckAbsent => s.spawner.Locked?
    case ReadLocation => s.spawner.Absent?
    case Create(_, _) => s.spawner.Read?
    case Import(_) => s.spawner.Created?
    case List(_) => s.spawner.Imported?
    case Request(_, _) => s.transfer.Idle?
    case Validate(_) => s.transfer.Checked?
    case Fetch => s.transfer.Validated?
    case Remove(_) => s.transfer.Fetched?
    case Prepare(_, _) => s.transfer.Removed?
    case Chown(_) => s.transfer.Prepared?
    case Track(_) => s.transfer.Given?
    case OtherBlock(names) =>
      (spawnName in names <==> spawnName in s.location.names) &&
      (spawnName in names ==> names[spawnName] == s.location.names[spawnName]) &&
      (forall n | n in names && n != spawnName :: !names[n].Spawned?)
  }

  function NextSpawner(spawnName: string, s: State, step: Step): State {
    match step
    case Lock => s.(spawner := Locked)
    case CheckAbsent => s.(spawner := if DidForName(s.location, spawnName).Some? then Free else Absent)
    case ReadLocation => s.(spawner := Read(s.location))
    case Create(chowned, remembered) =>
      if !s.spawner.Read? then s
      else
        var tip := s.spawner.seen.tip;
        if tip in s.owned || (tip in s.unowned && remembered) then s.(spawner := Created(s.spawner.seen))
        else if chowned then
          s.(spawner := Created(s.spawner.seen), owned := s.owned + {tip}, unowned := s.unowned - {tip})
        else s.(spawner := Free, unowned := s.unowned + {tip})
    case Import(ok) =>
      if ok && s.spawner.Created? && s.spawner.seen.tip in s.owned then s.(spawner := Imported(s.spawner.seen))
      else s.(spawner := Free)
    case List(delivered) =>
      if delivered && s.spawner.Imported? && s.spawner.seen.tip == s.location.tip then
        s.(location := Location(s.location.tip + 1, s.spawner.seen.names[spawnName := Spawned(s.spawner.seen.tip)]),
           spawner := Free)
      else s.(spawner := Free)
    case _ => s
  }

  /** One block on the ledger; a refused one, or one on a tree that is gone, leaves none. */
  function Tracked(ledger: Option<Node<PrizeLedger.Cell>>, record: Record,
                   delivered: bool): Option<Node<PrizeLedger.Cell>> {
    if ledger.Some? && delivered && PrizeLedger.PrizeNumber(ledger.value) >= 0 then
      Some(PrizeLedger.Record(ledger.value, record))
    else None
  }

  function NextTransfer(spawnName: string, s: State, step: Step): State {
    match step
    case Request(did, to) => if did == DidForName(s.location, spawnName) then s.(transfer := Checked(did, to)) else s
    case Validate(ok) =>
      if ok && s.transfer.Checked? then s.(transfer := Validated(s.transfer.did, s.transfer.to))
      else s.(transfer := Idle)
    case Fetch =>
      if s.transfer.Validated? then s.(transfer := Fetched(s.transfer.did, s.transfer.to, s.location)) else s
    case Remove(delivered) =>
      if !s.transfer.Fetched? then s
      else if s.transfer.did.None? || !ListsDid(s.transfer.seen.names, s.transfer.did.value) then
        s.(transfer := Removed(s.transfer.did, s.transfer.to))
      else if delivered && s.transfer.seen.tip == s.location.tip then
        s.(location := Location(s.location.tip + 1, WithoutDid(s.transfer.seen.names, s.transfer.did.value)),
           removed := s.removed + {s.transfer.did.value},
           transfer := Removed(s.transfer.did, s.transfer.to))
      else s.(transfer := Idle)
    case Prepare(ok, record) =>
      if ok && s.transfer.Removed? && s.transfer.did.Some? then
        s.(transfer := Prepared(s.transfer.did.value, s.transfer.to, record))
      else s.(transfer := Idle)
    case Chown(delivered) =>
      if delivered && s.transfer.Prepared? then
        s.(awards := s.awards + [Award(s.transfer.prize, s.transfer.to, s.transfer.record)],
           transfer := Given(s.transfer.record))
      else s.(transfer := Idle)
    case Track(delivered) =>
      if s.transfer.Given? then s.(ledger := Tracked(s.ledger, s.transfer.record, delivered), transfer := Idle) else s
    case _ => s
  }

  function Next(spawnName: string, s: State, step: Step): State {
    match step
    case OtherBlock(names) => s.(location := Location(s.location.tip + 1, names))
    case Request(_, _) => NextTransfer(spawnName, s, step)
    case Validate(_) => NextTransfer(spawnName, s, step)
    case Fetch => NextTransfer(spawnName, s, step)
    case Remove(_) => NextTransfer(spawnName, s, step)
    case Prepare(_, _) => NextTransfer(spawnName, s, step)
    case Chown(_) => NextTransfer(spawnName, s, step)
    case Track(_) => NextTransfer(spawnName, s, step)
    case _ => NextSpawner(spawnName, s, step)
  }

  ghost predicate Init(spawnName: string, s: State) {
    s.spawner.Free? && s.transfer.Idle? && s.awards == [] && s.removed == {} && s.owned == {} && s.unowned == {} &&
    spawnName !in s.location.names && forall n | n in s.location.names :: !s.location.names[n].Spawned?
  }

  /** At most the spawn name lists a spawned object, one of an earlier tip that no transfer has removed. */
  ghost predicate LocationOk(spawnName: string, location: Location, removed: set<Did>) {
    (forall n | n in location.names && n != spawnName :: !location.names[n].Spawned?) &&
    (spawnName in location.names ==>
       location.names[spawnName].Spawned? && location.names[spawnName].tip < location.tip &&
       location.names[spawnName] !in removed) &&
    (forall d | d in removed :: d.Spawned? && d.tip < location.tip)
  }

  /** A tree is the court's or not, and only objects that are the court's are ever listed. */
  ghost predicate TreesOk(spawnName: string, s: State) {
    s.owned !! s.unowned &&
    (forall d | d in s.removed && d.Spawned? :: d.tip in s.owned) &&
    (spawnName in s.location.names && s.location.names[spawnName].Spawned? ==>
        s.location.names[spawnName].tip in s.owned) &&
    (s.spawner.Imported? ==> s.spawner.seen.tip in s.owned)
  }

  ghost predicate ReadBefore(spawnName: string, s: State, seen: Location) {
    seen.tip <= s.location.tip && spawnName !in s.location.names && (seen.tip == s.location.tip ==> seen == s.location)
  }

  /** The spawner's reading is not ahead of the location, and equal to it at the same tip. */
  ghost predicate SpawnerOk(spawnName: string, s: State) {
    match s.spawner
    case Absent => spawnName !in s.location.names
    case Read(seen) => ReadBefore(spawnName, s, seen)
    case Created(seen) => ReadBefore(spawnName, s, seen)
    case Imported(seen) => ReadBefore(spawnName, s, seen)
    case _ => true
  }

  ghost predicate TransferOk(spawnName: string, s: State) {
    match s.transfer
    case Idle => true
    case Checked(did, _) => did.Some? ==> DidForName(s.location, spawnName) == did
    case Validated(did, _) => did.Some? ==> DidForName(s.location, spawnName) == did
    case Fetched(did, _, seen) =>
      seen.tip <= s.location.tip && (seen.tip == s.location.tip ==> seen == s.location) &&
      (did.Some? ==> DidForName(s.location, spawnName) == did && DidForName(seen, spawnName) == did)
    case Removed(did, _) => did.Some? ==> did.value in s.removed && NotAwarded(s, did.value)
    case Prepared(did, _, _) => did in s.removed && NotAwarded(s, did)
    case Given(_) => true
  }

  ghost predicate NotAwarded(s: State, did: Did) {
    forall i | 0 <= i < |s.awards| :: s.awards[i].did != did
  }

  ghost predicate AwardsOk(s: State) {
    (forall i | 0 <= i < |s.awards| :: s.awards[i].did in s.removed) &&
    (forall i, j | 0 <= i < j < |s.awards| :: s.awards[i].did != s.awards[j].did)
  }

  ghost predicate Inv(spawnName: string, s: State) {
    LocationOk(spawnName, s.location, s.removed) && SpawnerOk(spawnName, s) && TransferOk(spawnName, s) &&
    AwardsOk(s) &&
    TreesOk(spawnName, s)
  }

  lemma SpawnerStep(spawnName: string, s: State, step: Step)
    requires Inv(spawnName, s) && Enabled(spawnName, s, step)
    requires step.Lock? || step.CheckAbsent? || step.ReadLocation? || step.Create? || step.Import? || step.List?
    ensures Inv(spawnName, Next(spawnName, s, step))
  {
  }

  lemma TransferStep(spawnName: string, s: State, step: Step)
    requires Inv(spawnName, s) && Enabled(spawnName, s, step)
    requires step.Request? || step.Validate? || step.Fetch? || step.Prepare? || step.Chown? || step.Track?
    ensures Inv(spawnName, Next(spawnName, s, step))
  {
    hide LocationOk;
  }

  lemma RemoveStep(spawnName: string, s: State, delivered: bool)
    requires Inv(spawnName, s) && Enabled(spawnName, s, Remove(delivered))
    ensures Inv(spawnName, Next(spawnName, s, Remove(delivered)))
  {
    var t := s.transfer;
    if t.did.Some? {
      assert spawnName in t.seen.names && t.seen.names[spawnName] == t.did.value;
    }
  }

  lemma OtherStep(spawnName: string, s: State, names: map<string, Did>)
    requires Inv(spawnName, s) && Enabled(spawnName, s, OtherBlock(names))
    ensures Inv(spawnName, Next(spawnName, s, OtherBlock(names)))
  {
  }

  lemma StepKeepsInv(spawnName: string, s: State, step: Step)
    requires Inv(spawnName, s) && Enabled(spawnName, s, step)
    ensures Inv(spawnName, Next(spawnName, s, step))
    ensures s.location.tip <= Next(spawnName, s, step).location.tip
    ensures s.location.tip == Next(spawnName, s, step).location.tip ==> s.location == Next(spawnName, s, step).location
  {
    if step.OtherBlock? {
      OtherStep(spawnName, s, step.names);
    } else if step.Remove? {
      RemoveStep(spawnName, s, step.delivered);
      hide Inv, Enabled;
    } else if step.Request? || step.Validate? || step.Fetch? || step.Prepare? || step.Chown? || step.Track? {
      TransferStep(spawnName, s, step);
      hide Inv, Enabled;
    } else {
      SpawnerStep(spawnName, s, step);
      hide Inv, Enabled;
    }
  }

  /** Neither a respawn nor a transfer costs anything else at the location its entry, however stale its reading. */
  lemma OthersStay(spawnName: string, s: State, step: Step)
    requires Inv(spawnName, s) && Enabled(spawnName, s, step) && !step.OtherBlock?
    ensures var before, after := s.location.names, Next(spawnName, s, step).location.names;
            forall n | n != spawnName :: (n in after <==> n in before) && (n in before ==> after[n] == before[n])
  {
    if step.Remove? {
      OthersStayRemove(spawnName, s, step.delivered);
    } else {
      hide LocationOk, TransferOk, AwardsOk, TreesOk, ListsDid, WithoutDid, DidForName, Tracked;
    }
  }

  lemma OthersStayRemove(spawnName: string, s: State, delivered: bool)
    requires Inv(spawnName, s) && Enabled(spawnName, s, Remove(delivered))
    ensures var before, after := s.location.names, Next(spawnName, s, Remove(delivered)).location.names;
            forall n | n != spawnName :: (n in after <==> n in before) && (n in before ==> after[n] == before[n])
  {
    hide SpawnerOk, AwardsOk, TreesOk;
  }

  ghost predicate IsRun(spawnName: string, s: State, steps: seq<Step>)
    decreases |steps|
  {
    steps == [] ||
    (Enabled(spawnName, s, steps[0]) && IsRun(spawnName, Next(spawnName, s, steps[0]), steps[1..]))
  }

  function After(spawnName: string, s: State, steps: seq<Step>): State
    decreases |steps|
  {
    if steps == [] then s else After(spawnName, Next(spawnName, s, steps[0]), steps[1..])
  }

  /** Along a run the location's tip never goes back, and while it stays the location stays. */
  lemma {:induction false} RunKeepsInv(spawnName: string, s: State, steps: seq<Step>)
    requires Inv(spawnName, s) && IsRun(spawnName, s, steps)
    ensures Inv(spawnName, After(spawnName, s, steps))
    ensures s.location.tip <= After(spawnName, s, steps).location.tip
    ensures s.location.tip == After(spawnName, s, steps).location.tip ==>
              s.location == After(spawnName, s, steps).location
    decreases |steps|
  {
    hide Inv, Next, Enabled;
    if steps != [] {
      StepKeepsInv(spawnName, s, steps[0]);
      RunKeepsInv(spawnName, Next(spawnName, s, steps[0]), steps[1..]);
    }
  }

  /**
   In every run of transfers, respawns and other writers, with any failure anywhere: no object is awarded twice,
   an awarded object is a spawned one that is no longer listed, and at most one spawned object is listed.
   */
  lemma AwardedAtMostOnce(spawnName: string, s0: State, steps: seq<Step>)
    requires Init(spawnName, s0) && IsRun(spawnName, s0, steps)
    ensures var s := After(spawnName, s0, steps);
            && (forall i, j | 0 <= i < j < |s.awards| :: s.awards[i].did != s.awards[j].did)
            && (forall i | 0 <= i < |s.awards| ::
                s.awards[i].did.Spawned? && !ListsDid(s.location.names, s.awards[i].did))
            && (forall m, n | m in s.location.names && n in s.location.names &&
                              s.location.names[m].Spawned? && s.location.names[n].Spawned? :: m == n)
  {
    RunKeepsInv(spawnName, s0, steps);
    var s := After(spawnName, s0, steps);
    forall i | 0 <= i < |s.awards| ensures s.awards[i].did.Spawned? && !ListsDid(s.location.names, s.awards[i].did) {
      assert s.awards[i].did in s.removed;
    }
  }

  /** What the respawn has read, if anything, is the location's present state. */
  ghost predicate ReadsPresent(s: State) {
    s.spawner.Read? || s.spawner.Created? || s.spawner.Imported? ==> s.spawner.seen == s.location
  }

  lemma ReadingAfterStep(spawnName: string, s: State, step: Step)
    requires ReadsPresent(s) && Next(spawnName, s, step).location == s.location && Enabled(spawnName, s, step)
    ensures ReadsPresent(Next(spawnName, s, step))
  {
    hide ListsDid, WithoutDid, DidForName, Tracked;
  }

  lemma {:induction false} ReadingStaysPresent(spawnName: string, s: State, steps: seq<Step>)
    requires Inv(spawnName, s) && IsRun(spawnName, s, steps) && ReadsPresent(s)
    requires After(spawnName, s, steps).location.tip == s.location.tip
    ensures ReadsPresent(After(spawnName, s, steps))
    decreases |steps|
  {
    if steps != [] {
      hide ListsDid, WithoutDid, TransferOk, AwardsOk, TreesOk, LocationOk, NextTransfer;
      var next := Next(spawnName, s, steps[0]);
      StepKeepsInv(spawnName, s, steps[0]);
      RunKeepsInv(spawnName, next, steps[1..]);
      assert next.location == s.location;
      ReadingAfterStep(spawnName, s, steps[0]);
      hide Inv, Next, Enabled, ReadsPresent;
      ReadingStaysPresent(spawnName, next, steps[1..]);
    }
  }

  /**
   A respawn that failed before it listed its object, and any number of later ones: as long as the location has no
   new block, they all work on the same object.
   */
  lemma RetryReusesObject(spawnName: string, s: State, steps: seq<Step>)
    requires Inv(spawnName, s) && IsRun(spawnName, s, steps)
    requires (s.spawner.Read? || s.spawner.Created? || s.spawner.Imported?) && s.spawner.seen.tip == s.location.tip
    requires var s' := After(spawnName, s, steps);
             (s'.spawner.Read? || s'.spawner.Created? || s'.spawner.Imported?) && s'.location.tip == s.location.tip
    ensures var s' := After(spawnName, s, steps);
            s'.spawner.seen == s.spawner.seen && Spawned(s'.spawner.seen.tip) == Spawned(s.spawner.seen.tip)
  {
    RunKeepsInv(spawnName, s, steps);
    assert ReadsPresent(s);
    ReadingStaysPresent(spawnName, s, steps);
  }

  /** One more step at the end of a run. */
  lemma {:induction false} RunThenStep(spawnName: string, s: State, steps: seq<Step>, step: Step)
    requires IsRun(spawnName, s, steps) && Enabled(spawnName, After(spawnName, s, steps), step)
    ensures IsRun(spawnName, s, steps + [step])
    ensures After(spawnName, s, steps + [step]) == Next(spawnName, After(spawnName, s, steps), step)
    decreases |steps|
  {
    hide Next, Enabled;
    var all := steps + [step];
    if steps == [] {
      assert all[1..] == [];
      assert IsRun(spawnName, Next(spawnName, s, step), []);
    } else {
      RunThenStep(spawnName, Next(spawnName, s, steps[0]), steps[1..], step);
      assert all[1..] == steps[1..] + [step];
    }
  }

  /** A run and the state it leads to, one step further. */
  lemma Extend(spawnName: string, s0: State, steps: seq<Step>, s: State, step: Step)
    returns (steps': seq<Step>, s': State)
    requires IsRun(spawnName, s0, steps) && s == After(spawnName, s0, steps) && Enabled(spawnName, s, step)
    ensures steps' == steps + [step] && s' == Next(spawnName, s, step)
    ensures IsRun(spawnName, s0, steps') && s' == After(spawnName, s0, steps')
  {
    RunThenStep(spawnName, s0, steps, step);
    steps', s' := steps + [step], Next(spawnName, s, step);
  }

  /** What a respawn goes through, and what the network lets it do. */
  datatype Luck = Luck(chowned: bool, remembered: bool, imported: bool, delivered: bool)

  function SpawnPlan(luck: Luck): seq<Step> {
    [Lock, CheckAbsent, ReadLocation, Create(luck.chowned, luck.remembered), Import(luck.imported),
     List(luck.delivered)]
  }

  /**
   When a respawn that nobody interrupts can succeed: not on a tree that is not the court's and not forgotten either.
   */
  predicate CanSpawn(s: State, luck: Luck) {
    luck.imported && luck.delivered &&
    (s.location.tip in s.owned || (luck.chowned && !(s.location.tip in s.unowned && luck.remembered)))
  }

  /** How many calls a respawn makes before it fails, or all of them. */
  function RespawnCalls(s: State, luck: Luck): nat {
    var tip := s.location.tip;
    if tip !in s.owned && !luck.chowned && !(tip in s.unowned && luck.remembered) then 4
    else if !luck.imported || (tip !in s.owned && tip in s.unowned && luck.remembered) then 5
    else 6
  }

  /** A respawn at a location without the object lists the object of the present tip exactly if it can. */
  lemma RespawnIff(spawnName: string, s: State, luck: Luck)
    requires s.spawner.Free? && spawnName !in s.location.names
    ensures var steps := SpawnPlan(luck)[..RespawnCalls(s, luck)];
            IsRun(spawnName, s, steps) && After(spawnName, s, steps).spawner.Free? &&
            After(spawnName, s, steps).location ==
            if CanSpawn(s, luck) then
              Location(s.location.tip + 1, s.location.names[spawnName := Spawned(s.location.tip)])
            else s.location
  {
    var t;
    var steps: seq<Step>;
    var n := RespawnCalls(s, luck);
    assert IsRun(spawnName, s, []);
    steps, t := Extend(spawnName, s, [], s, Lock);
    steps, t := Extend(spawnName, s, steps, t, CheckAbsent);
    steps, t := Extend(spawnName, s, steps, t, ReadLocation);
    steps, t := Extend(spawnName, s, steps, t, Create(luck.chowned, luck.remembered));
    if n > 4 {
      steps, t := Extend(spawnName, s, steps, t, Import(luck.imported));
    }
    if n > 5 {
      steps, t := Extend(spawnName, s, steps, t, List(luck.delivered));
    }
    assert steps == SpawnPlan(luck)[..n];
  }

  ghost predicate AllRemembered(steps: seq<Step>) {
    forall i | 0 <= i < |steps| && steps[i].Create? :: steps[i].remembered
  }

  /** The object of this tip waits for a tree that is not the court's. */
  ghost predicate Stranded(spawnName: string, s: State, tip: nat) {
    Inv(spawnName, s) && tip in s.unowned
  }

  lemma StrandedIsAbsent(spawnName: string, s: State, tip: nat)
    requires Stranded(spawnName, s, tip)
    ensures !ListsDid(s.location.names, Spawned(tip)) && Spawned(tip) !in s.removed && NotAwarded(s, Spawned(tip))
  {
  }

  /** However often the respawn is tried, the object stays away as long as its tree is remembered. */
  lemma {:induction false} StuckWhileRemembered(spawnName: string, s: State, tip: nat, steps: seq<Step>)
    requires Stranded(spawnName, s, tip) && IsRun(spawnName, s, steps) && AllRemembered(steps)
    ensures var s' := After(spawnName, s, steps);
            Stranded(spawnName, s', tip) && !ListsDid(s'.location.names, Spawned(tip)) && NotAwarded(s', Spawned(tip))
    decreases |steps|
  {
    if steps == [] {
      StrandedIsAbsent(spawnName, s, tip);
    } else {
      StepKeepsInv(spawnName, s, steps[0]);
      StepKeepsUnowned(spawnName, s, tip, steps[0]);
      hide Inv, Next, Enabled;
      StuckWhileRemembered(spawnName, Next(spawnName, s, steps[0]), tip, steps[1..]);
    }
  }

  lemma StepKeepsUnowned(spawnName: string, s: State, tip: nat, step: Step)
    requires tip in s.unowned && (step.Create? ==> step.remembered)
    ensures tip in Next(spawnName, s, step).unowned
  {
    hide ListsDid, WithoutDid, DidForName;
  }

  /** An object taken off the location whose transfer is over without an award. */
  ghost predicate Lost(spawnName: string, s: State, did: Did) {
    Inv(spawnName, s) && did in s.removed && NotAwarded(s, did) &&
    (s.transfer.Removed? ==> s.transfer.did != Some(did)) && (s.transfer.Prepared? ==> s.transfer.prize != did)
  }

  lemma StepKeepsLost(spawnName: string, s: State, did: Did, step: Step)
    requires Lost(spawnName, s, did) && Enabled(spawnName, s, step)
    ensures Lost(spawnName, Next(spawnName, s, step), did)
  {
    StepKeepsInv(spawnName, s, step);
    assert DidForName(s.location, spawnName) != Some(did);
    hide Inv, Enabled;
  }

  /** There is no way back: no later transfer can award it, and it is never listed again. */
  lemma {:induction false} LostForEver(spawnName: string, s: State, did: Did, steps: seq<Step>)
    requires Lost(spawnName, s, did) && IsRun(spawnName, s, steps)
    ensures var s' := After(spawnName, s, steps);
            Lost(spawnName, s', did) && NotAwarded(s', did) && !ListsDid(s'.location.names, did)
    decreases |steps|
  {
    if steps == [] {
      assert did.Spawned?;
    } else {
      hide Lost, Next, Enabled;
      StepKeepsLost(spawnName, s, did, steps[0]);
      LostForEver(spawnName, Next(spawnName, s, steps[0]), did, steps[1..]);
    }
  }

  /** What the network makes of a transfer's calls. */
  datatype Fortune = Fortune(valid: bool, removed: bool, prepared: bool, chowned: bool, tracked: bool)

  function TransferPlan(did: Option<Did>, to: Player, fortune: Fortune, record: Record): seq<Step> {
    [Request(did, to), Validate(fortune.valid), Fetch, Remove(fortune.removed), Prepare(fortune.prepared, record),
     Chown(fortune.chowned), Track(fortune.tracked)]
  }

  /** How many calls a request for the listed object makes when nobody disturbs it. */
  function TransferLength(fortune: Fortune): nat {
    if !fortune.valid then 2 else if !fortune.removed then 4 else if !fortune.prepared then 5
    else if !fortune.chowned then 6 else 7
  }

  /**
   Which requests lose the object: exactly those that take it off the location and then fail to prepare it or to give it
   away. It is awarded exactly if none of the four calls fails, and otherwise stays listed.
   */
  lemma RequestLosesIff(spawnName: string, s: State, did: Did, to: Player, fortune: Fortune, record: Record)
    requires Inv(spawnName, s) && s.transfer.Idle? && DidForName(s.location, spawnName) == Some(did)
    ensures var steps := TransferPlan(Some(did), to, fortune, record)[..TransferLength(fortune)];
            var s' := After(spawnName, s, steps);
            IsRun(spawnName, s, steps) && s'.transfer.Idle? &&
            (Lost(spawnName, s', did) <==>
                fortune.valid && fortune.removed && !(fortune.prepared && fortune.chowned)) &&
            (ListsDid(s'.location.names, did) <==> !(fortune.valid && fortune.removed)) &&
            s'.awards == if fortune.valid && fortune.removed && fortune.prepared && fortune.chowned then
                           s.awards + [Award(did, to, record)]
                         else s.awards
  {
    var plan := TransferPlan(Some(did), to, fortune, record);
    ListedNow(spawnName, s, did);
    if !fortune.valid || !fortune.removed {
      TurnedDown(spawnName, s, did, to, fortune, record);
    } else {
      var steps, t := RunToRemoved(spawnName, s, did, to);
      hide Inv, Lost, ListsDid, WithoutDid, DidForName;
      steps, t := Extend(spawnName, s, steps, t, Prepare(fortune.prepared, record));
      if fortune.prepared {
        steps, t := Extend(spawnName, s, steps, t, Chown(fortune.chowned));
        if fortune.chowned {
          steps, t := Extend(spawnName, s, steps, t, Track(fortune.tracked));
        }
      }
      assert steps == plan[..TransferLength(fortune)];
      RunKeepsInv(spawnName, s, steps);
      RemovedIsLostIff(spawnName, s, did, t);
    }
  }

  lemma RemovedIsLostIff(spawnName: string, s: State, did: Did, t: State)
    requires Inv(spawnName, t) && t.transfer.Idle? && did in t.removed && NotAwarded(s, did)
    requires t.awards == s.awards || (|t.awards| == |s.awards| + 1 && t.awards[|s.awards|].did == did)
    ensures Lost(spawnName, t, did) <==> t.awards == s.awards
    ensures !ListsDid(t.location.names, did)
  {
    hide TreesOk, SpawnerOk, AwardsOk;
  }

  lemma TurnedDown(spawnName: string, s: State, did: Did, to: Player, fortune: Fortune, record: Record)
    requires s.transfer.Idle? && DidForName(s.location, spawnName) == Some(did) && (!fortune.valid || !fortune.removed)
    requires ListsDid(s.location.names, did)
    ensures var steps := TransferPlan(Some(did), to, fortune, record)[..TransferLength(fortune)];
            IsRun(spawnName, s, steps) && After(spawnName, s, steps) == s
  {
    hide ListsDid, WithoutDid;
    assert IsRun(spawnName, s, []);
    var steps, t := Extend(spawnName, s, [], s, Request(Some(did), to));
    steps, t := Extend(spawnName, s, steps, t, Validate(fortune.valid));
    if fortune.valid {
      steps, t := Extend(spawnName, s, steps, t, Fetch);
      steps, t := Extend(spawnName, s, steps, t, Remove(fortune.removed));
    }
    assert steps == TransferPlan(Some(did), to, fortune, record)[..TransferLength(fortune)];
  }

  lemma RunToRemoved(spawnName: string, s: State, did: Did, to: Player) returns (steps: seq<Step>, t: State)
    requires s.transfer.Idle? && DidForName(s.location, spawnName) == Some(did) && ListsDid(s.location.names, did)
    ensures steps == [Request(Some(did), to), Validate(true), Fetch, Remove(true)]
    ensures IsRun(spawnName, s, steps) && t == After(spawnName, s, steps)
    ensures t == s.(location := Location(s.location.tip + 1, WithoutDid(s.location.names, did)),
                    removed := s.removed + {did}, transfer := Removed(Some(did), to))
  {
    hide ListsDid, WithoutDid;
    assert IsRun(spawnName, s, []);
    steps, t := Extend(spawnName, s, [], s, Request(Some(did), to));
    steps, t := Extend(spawnName, s, steps, t, Validate(true));
    steps, t := Extend(spawnName, s, steps, t, Fetch);
    steps, t := Extend(spawnName, s, steps, t, Remove(true));
  }

  lemma ListedNow(spawnName: string, s: State, did: Did)
    requires Inv(spawnName, s) && DidForName(s.location, spawnName) == Some(did)
    ensures ListsDid(s.location.names, did) && did !in s.removed && NotAwarded(s, did)
  {
    assert s.location.names[spawnName] == did;
  }

  /** It does happen: an object is spawned and asked for, and making the prize of it fails. */
  lemma FailedPreparationLosesObject(spawnName: string, s0: State, to: Player) returns (steps: seq<Step>)
    requires Init(spawnName, s0)
    ensures IsRun(spawnName, s0, steps) && Lost(spawnName, After(spawnName, s0, steps), Spawned(s0.location.tip))
  {
    var s;
    assert IsRun(spawnName, s0, []);
    steps, s := Extend(spawnName, s0, [], s0, Lock);
    steps, s := Extend(spawnName, s0, steps, s, CheckAbsent);
    steps, s := Extend(spawnName, s0, steps, s, ReadLocation);
    steps, s := Extend(spawnName, s0, steps, s, Create(true, false));
    steps, s := Extend(spawnName, s0, steps, s, Import(true));
    steps, s := Extend(spawnName, s0, steps, s, List(true));
    var did := Spawned(s0.location.tip);
    assert spawnName in s.location.names && s.location.names[spawnName] == did;
    steps, s := Extend(spawnName, s0, steps, s, Request(Some(did), to));
    steps, s := Extend(spawnName, s0, steps, s, Validate(true));
    steps, s := Extend(spawnName, s0, steps, s, Fetch);
    steps, s := Extend(spawnName, s0, steps, s, Remove(true));
    steps, s := Extend(spawnName, s0, steps, s, Prepare(false, PrizeLedger.Award("", "")));
    RunKeepsInv(spawnName, s0, steps);
  }

  /** What the awards are entered as, oldest first. */
  function Records(awards: seq<Award>): (records: seq<Record>)
    ensures |records| == |awards| && forall i | 0 <= i < |awards| :: records[i] == awards[i].record
  {
    if awards == [] then [] else Records(awards[..|awards| - 1]) + [awards[|awards| - 1].record]
  }

  /** How many awards have been given and not yet tracked. */
  function Untracked(s: State): nat {
    if s.transfer.Given? then 1 else 0
  }

  /** As long as there is a ledger it is that of all awards, but for one that is about to be entered. */
  ghost predicate LedgerOk(past: seq<Record>, s: State) {
    Untracked(s) <= |s.awards| &&
    (s.transfer.Given? ==> s.awards[|s.awards| - 1].record == s.transfer.record) &&
    (s.ledger.Some? ==> s.ledger.value == PrizeLedger.Ledger(past + Records(s.awards[..|s.awards| - Untracked(s)])))
  }

  lemma TrackKeepsLedger(spawnName: string, past: seq<Record>, s: State, delivered: bool)
    requires LedgerOk(past, s) && s.transfer.Given?
    ensures LedgerOk(past, Next(spawnName, s, Track(delivered)))
  {
    var n := |s.awards| - 1;
    hide PrizeLedger.Ledger, PrizeLedger.Record, PrizeLedger.PrizeNumber;
    assert past + Records(s.awards) == past + Records(s.awards[..n]) + [s.transfer.record];
    LedgerNext(past + Records(s.awards[..n]), s.transfer.record);
    assert s.awards[..|s.awards|] == s.awards;
  }

  lemma LedgerNext(records: seq<Record>, next: Record)
    ensures PrizeLedger.PrizeNumber(PrizeLedger.Ledger(records)) >= 0
    ensures PrizeLedger.Ledger(records + [next]) == PrizeLedger.Record(PrizeLedger.Ledger(records), next)
  {
    assert (records + [next])[..|records|] == records;
  }

  /** Every other step leaves the ledger alone, and only a change of owner adds an award. */
  lemma LedgerUntouched(spawnName: string, s: State, step: Step)
    requires Enabled(spawnName, s, step) && !step.Track?
    ensures var s' := Next(spawnName, s, step);
            s'.ledger == s.ledger &&
            if s'.awards == s.awards then
              Untracked(s') == Untracked(s) && (s.transfer.Given? ==> s'.transfer == s.transfer)
            else
              Untracked(s) == 0 && s'.transfer.Given? &&
              s'.awards == s.awards + [s'.awards[|s.awards|]] && s'.awards[|s.awards|].record == s'.transfer.record
  {
    hide ListsDid, WithoutDid, DidForName, Tracked;
  }

  lemma StepKeepsLedger(spawnName: string, past: seq<Record>, s: State, step: Step)
    requires LedgerOk(past, s) && Enabled(spawnName, s, step)
    ensures LedgerOk(past, Next(spawnName, s, step))
    ensures Next(spawnName, s, step).ledger.Some? <==> s.ledger.Some? && (step.Track? ==> step.delivered)
  {
    if step.Track? {
      TrackKeepsLedger(spawnName, past, s, step.delivered);
    } else {
      LedgerUntouched(spawnName, s, step);
      hide Next, Enabled, Records, PrizeLedger.Ledger;
      var after := Next(spawnName, s, step);
      assert after.awards[..|after.awards| - Untracked(after)] == s.awards[..|s.awards| - Untracked(s)];
    }
  }

  ghost predicate AllTracked(steps: seq<Step>) {
    forall i | 0 <= i < |steps| && steps[i].Track? :: steps[i].delivered
  }

  /**
   The handler's ledger is the ledger of its awards: in every run it holds exactly one entry for each award, in order,
   the last of them perhaps still to come, for as long as there is a ledger; and there is one exactly if no block on it
   was refused.
   */
  lemma {:induction false} LedgerIsAwards(spawnName: string, past: seq<Record>, s: State, steps: seq<Step>)
    requires LedgerOk(past, s) && IsRun(spawnName, s, steps)
    ensures var s' := After(spawnName, s, steps);
            && LedgerOk(past, s')
            && (s'.ledger.Some? <==> s.ledger.Some? && AllTracked(steps))
            && (s.ledger.Some? && AllTracked(steps) && s'.transfer.Idle? ==>
                  s'.ledger == Some(PrizeLedger.Ledger(past + Records(s'.awards))))
    decreases |steps|
  {
    if steps == [] {
      assert s.awards[..|s.awards|] == s.awards;
    } else {
      StepKeepsLedger(spawnName, past, s, steps[0]);
      assert AllTracked(steps) <==> (steps[0].Track? ==> steps[0].delivered) && AllTracked(steps[1..]) by {
        hide Next, Enabled, LedgerOk;
        assert steps == [steps[0]] + steps[1..];
      }
      hide Next, Enabled, LedgerOk, AllTracked;
      LedgerIsAwards(spawnName, past, Next(spawnName, s, steps[0]), steps[1..]);
    }
  }

  predicate IsSpawnerStep(step: Step) {
    step.Lock? || step.CheckAbsent? || step.ReadLocation? || step.Create? || step.Import? || step.List?
  }

  predicate IsTransferStep(step: Step) {
    !IsSpawnerStep(step) && !step.OtherBlock?
  }

  function SpawnerSteps(steps: seq<Step>): seq<Step> {
    if steps == [] then [] else
      var last := steps[|steps| - 1];
      SpawnerSteps(steps[..|steps| - 1]) + if IsSpawnerStep(last) then [last] else []
  }

  function TransferSteps(steps: seq<Step>): seq<Step> {
    if steps == [] then [] else
      var last := steps[|steps| - 1];
      TransferSteps(steps[..|steps| - 1]) + if IsTransferStep(last) then [last] else []
  }

  lemma OneStepMore(steps: seq<Step>, step: Step)
    ensures SpawnerSteps(steps + [step]) == SpawnerSteps(steps) + if IsSpawnerStep(step) then [step] else []
    ensures TransferSteps(steps + [step]) == TransferSteps(steps) + if IsTransferStep(step) then [step] else []
  {
    assert (steps + [step])[..|steps|] == steps;
  }

  /** So many of the planned steps have been taken. */
  ghost predicate Made(before: seq<Step>, now: seq<Step>, plan: seq<Step>, calls: nat) {
    calls <= |plan| && now == before + plan[..calls]
  }

  lemma NoneMade(before: seq<Step>, plan: seq<Step>)
    ensures Made(before, before, plan, 0)
  {
  }

  lemma OneMoreMade(before: seq<Step>, now: seq<Step>, plan: seq<Step>, calls: nat)
    requires Made(before, now, plan, calls) && calls < |plan|
    ensures Made(before, now + [plan[calls]], plan, calls + 1)
  {
  }

  lemma AfterRequest(spawnName: string, s: State, did: Option<Did>, to: Player)
    requires s.transfer.Idle?
    ensures Next(spawnName, s, Request(did, to)) ==
            if did == DidForName(s.location, spawnName) then s.(transfer := Checked(did, to)) else s
  {
  }

  lemma AfterValidate(spawnName: string, s: State, ok: bool)
    requires s.transfer.Checked?
    ensures Next(spawnName, s, Validate(ok)) ==
            s.(transfer := if ok then Validated(s.transfer.did, s.transfer.to) else Idle)
  {
  }

  lemma AfterFetch(spawnName: string, s: State)
    requires s.transfer.Validated?
    ensures Next(spawnName, s, Fetch) == s.(transfer := Fetched(s.transfer.did, s.transfer.to, s.location))
  {
  }

  /** Undisturbed, the removal of a listed object fails only if its block is lost. */
  lemma AfterRemove(spawnName: string, s: State, delivered: bool)
    requires s.transfer.Fetched?
    ensures var s' := Next(spawnName, s, Remove(delivered));
            && s'.awards == s.awards && s'.ledger == s.ledger
            && (s'.transfer == Removed(s.transfer.did, s.transfer.to) || s' == s.(transfer := Idle))
            && (s'.transfer.Idle? ==> !delivered || s.transfer.seen.tip != s.location.tip)
            && (!delivered && s.transfer.did.Some? && ListsDid(s.transfer.seen.names, s.transfer.did.value) ==>
                s'.transfer.Idle?)
  {
  }

  lemma AfterPrepare(spawnName: string, s: State, ok: bool, record: Record)
    requires s.transfer.Removed?
    ensures Next(spawnName, s, Prepare(ok, record)) ==
            s.(transfer :=
               if ok && s.transfer.did.Some? then Prepared(s.transfer.did.value, s.transfer.to, record) else Idle)
  {
  }

  lemma AfterChown(spawnName: string, s: State, delivered: bool)
    requires s.transfer.Prepared?
    ensures Next(spawnName, s, Chown(delivered)) ==
            if delivered then
              s.(awards := s.awards + [Award(s.transfer.prize, s.transfer.to, s.transfer.record)],
                 transfer := Given(s.transfer.record))
            else s.(transfer := Idle)
  {
  }

  lemma AfterTrack(spawnName: string, s: State, delivered: bool)
    requires s.transfer.Given?
    ensures var s' := Next(spawnName, s, Track(delivered));
            s' == s.(ledger := s'.ledger, transfer := Idle)
  {
  }

  /** The respawn and the transfer touch each other only through the location. */
  lemma StepFrame(spawnName: string, s: State, step: Step)
    ensures var s' := Next(spawnName, s, step);
            && (!IsSpawnerStep(step) ==> s'.spawner == s.spawner && s'.owned == s.owned && s'.unowned == s.unowned)
            && (!IsTransferStep(step) ==>
                s'.transfer == s.transfer && s'.awards == s.awards && s'.removed == s.removed && s'.ledger == s.ledger)
  {
    hide ListsDid, WithoutDid, DidForName, Tracked;
  }

  /** The handler as the source writes it, one network call after another, with the others running in between. */
  class PrizeHandler {
    const spawnName: string
    var s: State
    ghost const start: State
    /** What the ledger held before. */
    ghost const past: seq<Record>
    ghost var steps: seq<Step>
    ghost var spawning: seq<Step>
    ghost var transferring: seq<Step>

    ghost predicate Valid()
      reads this
    {
      Init(spawnName, start) && IsRun(spawnName, start, steps) && s == After(spawnName, start, steps) &&
      Inv(spawnName, s) &&
      LedgerOk(past, s) && spawning == SpawnerSteps(steps) && transferring == TransferSteps(steps)
    }

    constructor (spawnName: string, s: State, ghost past: seq<Record>)
      requires Init(spawnName, s) && s.ledger == Some(PrizeLedger.Ledger(past))
      ensures Valid() && this.spawnName == spawnName && this.s == s && this.past == past && spawning == []
      ensures transferring == []
    {
      assert past + Records(s.awards) == past;
      this.spawnName, this.s, this.past, start, steps, spawning, transferring := spawnName, s, past, s, [], [], [];
    }

    method Take(step: Step)
      requires Valid() && Enabled(spawnName, s, step)
      modifies this
      ensures Valid() && s == Next(spawnName, old(s), step)
      ensures spawning == old(spawning) + if IsSpawnerStep(step) then [step] else []
      ensures transferring == old(transferring) + if IsTransferStep(step) then [step] else []
      ensures s.ledger.Some? <==> old(s.ledger).Some? && (step.Track? ==> step.delivered)
    {
      hide Next, Enabled, Inv, Init, LedgerOk;
      RunThenStep(spawnName, start, steps, step);
      StepKeepsLedger(spawnName, past, s, step);
      StepKeepsInv(spawnName, s, step);
      OneStepMore(steps, step);
      spawning := spawning + if IsSpawnerStep(step) then [step] else [];
      transferring := transferring + if IsTransferStep(step) then [step] else [];
      s := Next(spawnName, s, step);
      steps := steps + [step];
    }

    ghost predicate Undisturbed(before: State)
      reads this
    {
      s.transfer == before.transfer && s.awards == before.awards && s.removed == before.removed &&
      s.ledger == before.ledger
    }

    /** Any number of steps of the others: transfers while a respawn holds the lock, respawns during a transfer. */
    method Interfere(respawn: bool)
      requires Valid()
      modifies this
      ensures Valid()
      ensures respawn ==>
                s.spawner == old(s.spawner) && s.owned == old(s.owned) && s.unowned == old(s.unowned) &&
                spawning == old(spawning)
      ensures !respawn ==> Undisturbed(old(s)) && transferring == old(transferring)
    {
      hide Inv, IsRun, After, Init, Next, Enabled, LedgerOk, SpawnerSteps, TransferSteps;
      var rounds: nat := *;
      while rounds > 0
        invariant Valid()
        invariant respawn ==> s.spawner == old(s.spawner) && spawning == old(spawning)
        invariant respawn ==> s.owned == old(s.owned) && s.unowned == old(s.unowned)
        invariant !respawn ==> Undisturbed(old(s)) && transferring == old(transferring)
      {
        var step: Step := *;
        if Enabled(spawnName, s, step) && !(if respawn then IsSpawnerStep(step) else IsTransferStep(step)) {
          StepFrame(spawnName, s, step);
          Take(step);
        }
        rounds := rounds - 1;
      }
    }

    /** A step of the respawn, in the state that the others leave; alone, nobody else acts before it. */
    method Respawn(step: Step, alone: bool, ghost before: seq<Step>, ghost plan: seq<Step>, ghost calls: nat)
      returns (t: State)
      requires Valid() && IsSpawnerStep(step) && Enabled(spawnName, s, step)
      requires Made(before, spawning, plan, calls) && calls < |plan| && plan[calls] == step
      modifies this
      ensures Valid() && Made(before, spawning, plan, calls + 1)
      ensures s == Next(spawnName, t, step) && (alone ==> t == old(s))
      ensures t.spawner == old(s.spawner) && t.owned == old(s.owned) && t.unowned == old(s.unowned)
    {
      hide Valid, Next, Made;
      if !alone {
        Interfere(true);
      }
      OneMoreMade(before, spawning, plan, calls);
      t := s;
      Take(step);
    }

    /**
     One respawn, from taking the mutex to giving it back. Alone, nobody else acts meanwhile. The calls made are the
     first of the plan: it stops at an object that is there, and at the first call that fails.
     */
    method SpawnObject(luck: Luck, alone: bool) returns (ok: bool, ghost calls: nat)
      requires Valid() && s.spawner.Free?
      modifies this
      ensures Valid() && s.spawner.Free?
      ensures Made(old(spawning), spawning, SpawnPlan(luck), calls)
      ensures calls == 2 || calls == 4 || calls == 5 || calls == 6
      ensures calls == 2 ==> ok && DidForName(s.location, spawnName).Some?
      ensures calls == 4 ==> !ok && !luck.chowned
      ensures calls == 5 ==> !ok && (!luck.imported || luck.remembered)
      ensures calls == 6 && ok ==>
                luck.delivered && spawnName in s.location.names && s.location.tip > 0 &&
                s.location.names[spawnName] == Spawned(s.location.tip - 1)
      ensures calls == 6 && !ok ==> !luck.delivered || !alone
      ensures alone && spawnName in old(s.location.names) ==> calls == 2 && s == old(s)
      ensures alone && spawnName !in old(s.location.names) ==>
                calls == RespawnCalls(old(s), luck) && (ok <==> CanSpawn(old(s), luck)) &&
                s.location ==
                if ok then
                  Location(old(s.location.tip) + 1, old(s.location.names)[spawnName := Spawned(old(s.location.tip))])
                else old(s.location)
    {
      hide Valid, Made, SpawnPlan, IsTransferStep, ListsDid, WithoutDid, NextTransfer;
      ghost var before, plan := spawning, SpawnPlan(luck);
      NoneMade(before, plan);
      SpawnCalls(luck);
      var t := Respawn(Lock, true, before, plan, 0);
      t := Respawn(CheckAbsent, alone, before, plan, 1);
      if s.spawner.Free? {
        return true, 2;
      }
      t := Respawn(ReadLocation, alone, before, plan, 2);
      ok, calls := MakeAndList(luck, alone, before);
    }

    /** The tree of the tip that was read is found or created, imported into, and listed. */
    method MakeAndList(luck: Luck, alone: bool, ghost before: seq<Step>) returns (ok: bool, ghost calls: nat)
      requires Valid() && s.spawner.Read? && Made(before, spawning, SpawnPlan(luck), 3)
      modifies this
      ensures Valid() && s.spawner.Free? && Made(before, spawning, SpawnPlan(luck), calls)
      ensures calls == 4 || calls == 5 || calls == 6
      ensures calls == 4 ==> !ok && !luck.chowned
      ensures calls == 5 ==> !ok && (!luck.imported || luck.remembered)
      ensures calls == 6 && ok ==>
                luck.delivered && spawnName in s.location.names && s.location.tip > 0 &&
                s.location.names[spawnName] == Spawned(s.location.tip - 1)
      ensures calls == 6 && !ok ==> !luck.delivered || !alone || old(s.spawner.seen != s.location)
      ensures alone && old(s.spawner.seen == s.location) ==>
                calls == RespawnCalls(old(s), luck) && (ok <==> CanSpawn(old(s), luck)) &&
                s.location ==
                if ok then
                  Location(old(s.location.tip) + 1, old(s.location.names)[spawnName := Spawned(old(s.location.tip))])
                else old(s.location)
    {
      hide Valid, Made, SpawnPlan, IsTransferStep, ListsDid, WithoutDid, NextTransfer;
      ghost var plan := SpawnPlan(luck);
      SpawnCalls(luck);
      var t := Respawn(Create(luck.chowned, luck.remembered), alone, before, plan, 3);
      if s.spawner.Free? {
        return false, 4;
      }
      t := Respawn(Import(luck.imported), alone, before, plan, 4);
      if s.spawner.Free? {
        return false, 5;
      }
      t := Respawn(List(luck.delivered), alone, before, plan, 5);
      ok, calls := s.location.tip != t.location.tip, 6;
    }

    lemma SpawnCalls(luck: Luck)
      ensures var plan := SpawnPlan(luck);
              |plan| == 6 && plan[0] == Lock && plan[1] == CheckAbsent && plan[2] == ReadLocation &&
              plan[3] == Create(luck.chowned, luck.remembered) && plan[4] == Import(luck.imported) &&
              plan[5] == List(luck.delivered)
    {
    }

    /** A step of the transfer, in the state that the others leave; alone, nobody else acts before it. */
    method Transfer(step: Step, alone: bool, ghost before: seq<Step>, ghost plan: seq<Step>, ghost calls: nat)
      returns (t: State)
      requires Valid() && IsTransferStep(step) && Enabled(spawnName, s, step)
      requires Made(before, transferring, plan, calls) && calls < |plan| && plan[calls] == step
      modifies this
      ensures Valid() && Made(before, transferring, plan, calls + 1)
      ensures s == Next(spawnName, t, step) && (alone ==> t == old(s))
      ensures t.transfer == old(s.transfer) && t.awards == old(s.awards) && t.removed == old(s.removed)
      ensures t.ledger == old(s.ledger)
      ensures s.ledger.Some? <==> t.ledger.Some? && (step.Track? ==> step.delivered)
    {
      hide Valid, Next, Made;
      if !alone {
        Interfere(false);
      }
      OneMoreMade(before, transferring, plan, calls);
      t := s;
      Take(step);
    }

    lemma TransferCalls(did: Option<Did>, to: Player, fortune: Fortune, record: Record)
      ensures var plan := TransferPlan(did, to, fortune, record);
              |plan| == 7 && plan[0] == Request(did, to) && plan[1] == Validate(fortune.valid) && plan[2] == Fetch &&
              plan[3] == Remove(fortune.removed) && plan[4] == Prepare(fortune.prepared, record) &&
              plan[5] == Chown(fortune.chowned) && plan[6] == Track(fortune.tracked)
    {
    }

    /**
     One transfer request. The calls made are the first of the plan, up to one that fails. Six and the entry in the
     ledger are exactly one award, of the object asked for, and as long as there is a ledger it is that of all awards.
     A failure after the object was taken off the location loses it for ever; undisturbed, every other failure changes
     nothing.
     */
    method HandleTransfer(did: Option<Did>, to: Player, fortune: Fortune, record: Record, alone: bool)
      returns (r: Result<Unit>, ghost calls: nat)
      requires Valid() && s.transfer.Idle?
      modifies this
      ensures Valid() && s.transfer.Idle?
      ensures Made(old(transferring), transferring, TransferPlan(did, to, fortune, record), calls)
      ensures calls == 1 || calls == 2 || 4 <= calls <= 7
      ensures calls < 7 ==> r.Err? && s.awards == old(s.awards) && (s.ledger.Some? <==> old(s.ledger).Some?)
      ensures calls == 1 ==> did != DidForName(s.location, spawnName)
      ensures calls == 2 ==> !fortune.valid
      ensures calls == 4 ==> fortune.valid && (!fortune.removed || !alone)
      ensures calls == 5 ==> fortune.valid && (!fortune.prepared || did.None?)
      ensures calls == 6 ==> fortune.valid && fortune.prepared && !fortune.chowned
      ensures calls == 7 ==> Awarded(old(s), did, to, fortune, record, r) && fortune.valid
      ensures s.ledger.Some? ==> s.ledger.value == PrizeLedger.Ledger(past + Records(s.awards))
      ensures did.Some? && (calls == 5 || calls == 6) ==> Lost(spawnName, s, did.value)
      ensures alone ==> (calls == 1 <==> did != DidForName(old(s.location), spawnName)) && (calls < 5 ==> s == old(s))
      ensures alone && did.Some? && did == DidForName(old(s.location), spawnName) ==>
                calls == TransferLength(fortune) &&
                (Lost(spawnName, s, did.value) <==>
                    fortune.valid && fortune.removed && !(fortune.prepared && fortune.chowned))
    {
      hide Valid, Made, TransferPlan, ListsDid, DidForName, Lost, PrizeLedger.Ledger, Records, Inv;
      IsNotLost(did);
      ghost var before := transferring;
      calls := TakeOff(did, to, fortune, record, alone);
      if s.transfer.Idle? {
        r := Err("could not remove object from location");
      } else {
        r, calls := GivePrize(did, to, fortune, record, before);
      }
      LedgerNow();
    }

    /** The request is checked, and the object taken off the location. */
    method TakeOff(did: Option<Did>, to: Player, fortune: Fortune, record: Record, alone: bool)
      returns (ghost calls: nat)
      requires Valid() && s.transfer.Idle?
      modifies this
      ensures Valid() && Made(old(transferring), transferring, TransferPlan(did, to, fortune, record), calls)
      ensures s.transfer.Idle? || s.transfer == Removed(did, to)
      ensures s.awards == old(s.awards) && (s.ledger.Some? <==> old(s.ledger).Some?)
      ensures calls == 1 || calls == 2 || calls == 4
      ensures calls == 1 ==> s.transfer.Idle? && did != DidForName(s.location, spawnName)
      ensures calls == 2 ==> s.transfer.Idle? && !fortune.valid
      ensures calls == 4 ==> fortune.valid && (s.transfer.Idle? ==> !fortune.removed || !alone)
      ensures alone ==> (calls == 1 <==> did != DidForName(old(s.location), spawnName))
      ensures alone && s.transfer.Idle? ==> s == old(s)
      ensures alone && calls == 4 && did.Some? && !fortune.removed ==> s.transfer.Idle?
    {
      hide Valid, Made, TransferPlan, ListsDid, DidForName, Next;
      ghost var before, plan := transferring, TransferPlan(did, to, fortune, record);
      NoneMade(before, plan);
      TransferCalls(did, to, fortune, record);
      ListedIsListed(s, did);
      var t := Transfer(Request(did, to), alone, before, plan, 0);
      AfterRequest(spawnName, t, did, to);
      if s.transfer.Idle? {
        return 1;
      }
      t := Transfer(Validate(fortune.valid), alone, before, plan, 1);
      AfterValidate(spawnName, t, fortune.valid);
      if s.transfer.Idle? {
        return 2;
      }
      t := Transfer(Fetch, alone, before, plan, 2);
      AfterFetch(spawnName, t);
      t := Transfer(Remove(fortune.removed), alone, before, plan, 3);
      AfterRemove(spawnName, t, fortune.removed);
      calls := 4;
    }

    lemma ListedIsListed(t: State, did: Option<Did>)
      ensures did.Some? && did == DidForName(t.location, spawnName) ==> ListsDid(t.location.names, did.value)
    {
    }

    /**
     One award more, of an object that is no longer listed and had not been awarded; the answer is about its entry.
     */
    ghost predicate Awarded(before: State, did: Option<Did>, to: Player, fortune: Fortune, record: Record,
                            r: Result<Unit>)
      reads this
    {
      did.Some? && did.value.Spawned? && fortune.prepared && fortune.chowned &&
      s.awards == before.awards + [Award(did.value, to, record)] &&
      !ListsDid(s.location.names, did.value) && NotAwarded(before, did.value) &&
      (s.ledger.Some? <==> before.ledger.Some? && fortune.tracked) &&
      if before.ledger.None? then r.Panicked? else if fortune.tracked then r.Ok? else r.Err?
    }

    /** The object becomes the prize and the player's, and the award is entered. */
    method GivePrize(did: Option<Did>, to: Player, fortune: Fortune, record: Record, ghost before: seq<Step>)
      returns (r: Result<Unit>, ghost calls: nat)
      requires Valid() && s.transfer == Removed(did, to)
      requires Made(before, transferring, TransferPlan(did, to, fortune, record), 4)
      modifies this
      ensures Valid() && s.transfer.Idle? && Made(before, transferring, TransferPlan(did, to, fortune, record), calls)
      ensures 5 <= calls <= 7
      ensures calls < 7 ==> r.Err? && s.awards == old(s.awards) && (s.ledger.Some? <==> old(s.ledger).Some?)
      ensures calls < 7 && did.Some? ==> Lost(spawnName, s, did.value)
      ensures calls == 5 ==> !fortune.prepared || did.None?
      ensures calls == 6 ==> fortune.prepared && !fortune.chowned
      ensures calls == 7 ==> Awarded(old(s), did, to, fortune, record, r) && !Lost(spawnName, s, did.value)
    {
      hide Valid, Made, TransferPlan, ListsDid, Next, NotAwarded, Lost, Inv, Awarded;
      ghost var plan, s0 := TransferPlan(did, to, fortune, record), s;
      TransferCalls(did, to, fortune, record);
      ToBeAwarded();
      var t := Transfer(Prepare(fortune.prepared, record), false, before, plan, 4);
      AfterPrepare(spawnName, t, fortune.prepared, record);
      if s.transfer.Idle? {
        FailedIsLost(s0, did);
        return Err("generating prize chaintree failed"), 5;
      }
      t := Transfer(Chown(fortune.chowned), false, before, plan, 5);
      AfterChown(spawnName, t, fortune.chowned);
      if s.transfer.Idle? {
        FailedIsLost(s0, did);
        return Err("could not update object ownership"), 6;
      }
      r := EnterAward(did.value, to, fortune, record, before, s0);
      calls := 7;
    }

    method EnterAward(did: Did, to: Player, fortune: Fortune, record: Record, ghost before: seq<Step>, ghost s0: State)
      returns (r: Result<Unit>)
      requires Valid() && s.transfer == Given(record)
      requires Made(before, transferring, TransferPlan(Some(did), to, fortune, record), 6)
      requires s.awards == s0.awards + [Award(did, to, record)] && (s.ledger.Some? <==> s0.ledger.Some?)
      requires did.Spawned? && NotAwarded(s0, did) && fortune.prepared && fortune.chowned
      modifies this
      ensures Valid() && s.transfer.Idle? && Made(before, transferring, TransferPlan(Some(did), to, fortune, record), 7)
      ensures Awarded(s0, Some(did), to, fortune, record, r) && !Lost(spawnName, s, did)
    {
      hide Valid, Made, TransferPlan, ListsDid, Next, NotAwarded, Lost, Inv;
      ghost var plan := TransferPlan(Some(did), to, fortune, record);
      TransferCalls(Some(did), to, fortune, record);
      var t := Transfer(Track(fortune.tracked), false, before, plan, 6);
      AfterTrack(spawnName, t, fortune.tracked);
      AwardedIsGone();
      r := if t.ledger.None? then Panicked else if s.ledger.None? then Err("could not distribute prize") else Ok(Unit);
    }

    lemma ToBeAwarded()
      requires Valid() && s.transfer.Removed?
      ensures s.transfer.did.Some? ==>
                s.transfer.did.value.Spawned? && NotAwarded(s, s.transfer.did.value) &&
                s.transfer.did.value in s.removed
    {
      hide IsRun, After, Init, SpawnerSteps, TransferSteps, LedgerOk;
    }

    lemma FailedIsLost(before: State, did: Option<Did>)
      requires Valid() && s.transfer.Idle? && s.awards == before.awards && s.removed == before.removed
      requires did.Some? ==> did.value in before.removed && NotAwarded(before, did.value)
      ensures did.Some? ==> Lost(spawnName, s, did.value)
    {
      hide Inv, IsRun, After, Init, SpawnerSteps, TransferSteps, LedgerOk;
    }

    lemma AwardedIsGone()
      requires Valid() && s.awards != []
      ensures var did := s.awards[|s.awards| - 1].did;
              !ListsDid(s.location.names, did) && !Lost(spawnName, s, did)
    {
      hide IsRun, After, Init, SpawnerSteps, TransferSteps, LedgerOk;
      assert s.awards[|s.awards| - 1].did in s.removed;
    }

    lemma IsNotLost(did: Option<Did>)
      requires Valid()
      ensures did.Some? && did == DidForName(s.location, spawnName) ==> !Lost(spawnName, s, did.value)
    {
      hide IsRun, After, Init, SpawnerSteps, TransferSteps, LedgerOk;
      if did.Some? && did == DidForName(s.location, spawnName) {
        ListedNow(spawnName, s, did.value);
      }
    }

    lemma LedgerNow()
      requires Valid() && s.transfer.Idle?
      ensures s.ledger.Some? ==> s.ledger.value == PrizeLedger.Ledger(past + Records(s.awards))
    {
      hide IsRun, After, Init, SpawnerSteps, TransferSteps, Inv;
      assert s.awards[..|s.awards|] == s.awards;
    }
  }
}
