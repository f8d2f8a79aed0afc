/**
 The transfer of one object between two inventories, as the two handlers run it side by side:
 handlers/inventory/unrestricted_remove.go is the sender, unrestricted_add.go the receiver.
 Their steps interleave freely with each other, with other writers of the three chains, with
 network failures and with messages that are late, repeated or never arrive.
 */
module Transfer {
  import opened ChainTrees
  import opened Inventory

  /** name is the name the object's own tree gives; the key sets are what the two inventories answer. */
  datatype Config = Config(
    did: Did, name: string,
    sourceAuths: set<Address>, targetAuths: set<Address>,
    senderKey: Address, receiverKey: Address)

  /** An inventory's chain: how many blocks it has, and its present listing. */
  datatype InventoryChain = InventoryChain(tip: nat, names: Listing)

  datatype Rollback = ChownBack | Relist

  datatype Sender =
    | Ready | Widened | Unlisted | Listening | Waiting
    | RollingBack(todo: seq<Rollback>)
    | Finished(success: bool)
    | Stuck

  /** seen is the object's tip as the receiver read it. */
  datatype Receiver =
    | Idle
    | Fetched(target: InventoryChain)
    | Checked(target: InventoryChain, seen: nat)
    | Added(seen: nat)

  /**
   owners holds the object's owners after each of its blocks. The last five fields only record
   what has happened: accepted changes of owner, a listing under a taken name, interference by other writers or a lost
   rollback.
   */
  datatype State = State(
    owners: seq<set<Address>>, source: InventoryChain, target: InventoryChain,
    sender: Sender, rollbacks: seq<Rollback>, objectHandle: nat, sourceHandle: InventoryChain, listenFrom: nat,
    notified: bool,
    receiver: Receiver,
    chownBacks: nat, chowns: nat, listings: nat, collided: bool, disturbed: bool)
  {
    function Tip(): int {
      |owners| - 1
    }

    /** The current owners. */
    function Owners(): set<Address>
      requires owners != []
    {
      owners[|owners| - 1]
    }
  }

  /** delivered is false when the network loses a block that would have been accepted. */
  datatype Step =
    | Widen(delivered: bool) | Unlist(delivered: bool) | Subscribe(ready: bool) | Notify(sent: bool) | Confirm | TimeOut
    | RollBack(delivered: bool, names: Listing)
    | Fetch | Check(seen: nat) | List(delivered: bool, names: Listing) | Chown(delivered: bool)
    | ObjectBlock | SourceBlock(names: Listing) | TargetBlock(names: Listing)

  predicate IsSenderStep(step: Step) {
    step.Widen? || step.Unlist? || step.Subscribe? || step.Notify? || step.Confirm? || step.TimeOut? || step.RollBack?
  }

  predicate IsReceiverStep(step: Step) {
    step.Fetch? || step.Check? || step.List? || step.Chown?
  }

  /** A block on the object is taken iff its handle is current and its signer an owner. */
  predicate ObjectAccepts(s: State, handle: int, signer: Address) {
    s.owners != [] && handle == s.Tip() && signer in s.Owners()
  }

  predicate SourceAccepts(c: Config, s: State) {
    s.sourceHandle.tip == s.source.tip && c.senderKey in c.sourceAuths
  }

  predicate TargetAccepts(c: Config, s: State, handle: InventoryChain) {
    handle.tip == s.target.tip && c.receiverKey in c.targetAuths
  }

  /** Other writers and the receiver leave the sender's own progress alone. */
  lemma SenderFrame(c: Config, s: State, step: Step)
    requires !IsSenderStep(step)
    ensures var s' := Next(c, s, step);
            s'.sender == s.sender && s'.rollbacks == s.rollbacks && s'.notified == s.notified
  {
    hide Lists, AddedTo, Without, ObjectAccepts, TargetAccepts, SourceAccepts;
  }

  /** Other writers and the sender leave the receiver's. */
  lemma ReceiverFrame(c: Config, s: State, step: Step)
    requires !IsReceiverStep(step)
    ensures Next(c, s, step).receiver == s.receiver && (s.notified ==> Next(c, s, step).notified)
  {
    hide Lists, AddedTo, Without, ObjectAccepts, TargetAccepts, SourceAccepts;
  }

  /** Which steps can be taken. Inventories change only as their operations allow, others never touch the object. */
  predicate Enabled(c: Config, s: State, step: Step) {
    match step
    case Widen(_) => s.sender.Ready?
    case Unlist(_) => s.sender.Widened?
    case Subscribe(_) => s.sender.Unlisted?
    case Notify(_) => s.sender.Listening?
    case Confirm => s.sender.Waiting? && s.Tip() > s.listenFrom
    case TimeOut => s.sender.Waiting?
    case RollBack(_, names) =>
      s.sender.RollingBack? &&
      (s.sender.todo != [] && s.sender.todo[0].Relist? ==> AddedTo(s.sourceHandle.names, c.did, c.name, names))
    case Fetch => s.receiver.Idle? && s.notified
    case Check(seen) => s.receiver.Fetched? && seen < |s.owners|
    case List(_, names) => s.receiver.Checked? && AddedTo(s.receiver.target.names, c.did, c.name, names)
    case Chown(_) => s.receiver.Added?
    case ObjectBlock => s.owners != [] && s.Owners() != {}
    case SourceBlock(names) => Injective(names) && (Lists(names, c.did) <==> Lists(s.source.names, c.did))
    case TargetBlock(names) => Injective(names) && (Lists(names, c.did) <==> Lists(s.target.names, c.did))
  }

  function Next(c: Config, s: State, step: Step): State {
    match step
    case Widen(delivered) =>
      if delivered && ObjectAccepts(s, s.objectHandle, c.senderKey) then
        s.(owners := s.owners + [c.sourceAuths + c.targetAuths], objectHandle := |s.owners|,
           rollbacks := [ChownBack], sender := Widened)
      else s.(sender := Finished(false))
    case Unlist(delivered) =>
      if !Lists(s.sourceHandle.names, c.did) then s.(rollbacks := s.rollbacks + [Relist], sender := Unlisted)
      else if delivered && SourceAccepts(c, s) then
        var chain := InventoryChain(s.source.tip + 1, Without(s.sourceHandle.names, c.did));
        s.(source := chain, sourceHandle := chain, rollbacks := s.rollbacks + [Relist], sender := Unlisted)
      else s.(sender := RollingBack(s.rollbacks))
    case Subscribe(ready) =>
      if ready then s.(sender := Listening, listenFrom := if s.Tip() < 0 then 0 else s.Tip())
      else s.(sender := RollingBack(s.rollbacks))
    case Notify(sent) => s.(notified := true, sender := if sent then Waiting else RollingBack(s.rollbacks))
    case Confirm => s.(sender := Finished(true))
    case TimeOut => s.(sender := RollingBack(s.rollbacks))
    case RollBack(delivered, names) =>
      if !s.sender.RollingBack? then s
      else if s.sender.todo == [] then s.(sender := Finished(false))
      else if s.sender.todo[0].ChownBack? then
        if delivered && ObjectAccepts(s, s.objectHandle, c.senderKey) then
          s.(owners := s.owners + [c.sourceAuths], chownBacks := s.chownBacks + 1,
             sender := RollingBack(s.sender.todo[1..]))
        else s.(sender := Stuck, disturbed := s.disturbed || !delivered)
      else if Lists(s.sourceHandle.names, c.did) then s.(sender := RollingBack(s.sender.todo[1..]))
      else if delivered && SourceAccepts(c, s) then
        var chain := InventoryChain(s.source.tip + 1, names);
        s.(source := chain, sourceHandle := chain, sender := RollingBack(s.sender.todo[1..]))
      else s.(sender := Stuck, disturbed := s.disturbed || !delivered)
    case Fetch => if Lists(s.target.names, c.did) then s else s.(receiver := Fetched(s.target))
    case Check(seen) =>
      if s.receiver.Fetched? && seen < |s.owners| && c.receiverKey in s.owners[seen] then
        s.(receiver := Checked(s.receiver.target, seen))
      else s.(receiver := Idle)
    case List(delivered, names) =>
      if s.receiver.Checked? && delivered && TargetAccepts(c, s, s.receiver.target) then
        s.(target := InventoryChain(s.target.tip + 1, names), receiver := Added(s.receiver.seen),
           listings := s.listings + 1, collided := s.collided || c.name in s.receiver.target.names)
      else s.(receiver := Idle)
    case Chown(delivered) =>
      if s.receiver.Added? && delivered && ObjectAccepts(s, s.receiver.seen, c.receiverKey) then
        s.(owners := s.owners + [c.targetAuths], chowns := s.chowns + 1, receiver := Idle)
      else s.(receiver := Idle)
    case ObjectBlock => if s.owners == [] then s else s.(owners := s.owners + [s.Owners()], disturbed := true)
    case SourceBlock(names) => s.(source := InventoryChain(s.source.tip + 1, names), disturbed := true)
    case TargetBlock(names) => s.(target := InventoryChain(s.target.tip + 1, names), disturbed := true)
  }

  /** All handles fetched, nothing sent; the object owned by the source and listed there, as the actor has checked. */
  ghost predicate Init(c: Config, s: State) {
    && s.owners != [] && s.Owners() == c.sourceAuths && s.objectHandle == s.Tip()
    && Injective(s.source.names) && s.source.names == s.sourceHandle.names && s.source.tip == s.sourceHandle.tip
    && Lists(s.source.names, c.did)
    && Injective(s.target.names) && !Lists(s.target.names, c.did)
    && s.sender.Ready? && s.rollbacks == [] && s.receiver.Idle? && !s.notified
    && s.chownBacks == 0 && s.chowns == 0 && s.listings == 0 && !s.collided && !s.disturbed
  }

  ghost predicate IsRun(c: Config, s: State, steps: seq<Step>)
    decreases |steps|
  {
    steps == [] || (Enabled(c, s, steps[0]) && IsRun(c, Next(c, s, steps[0]), steps[1..]))
  }

  function After(c: Config, s: State, steps: seq<Step>): State
    decreases |steps|
  {
    if steps == [] then s else After(c, Next(c, s, steps[0]), steps[1..])
  }

  /** A receiver that does not already own the object through the source. */
  predicate Outsider(c: Config) {
    c.receiverKey !in c.sourceAuths
  }

  /** Who owns the object is settled by which of the two changes of owner was accepted, if any. */
  ghost predicate OwnersInv(c: Config, s: State) {
    && s.owners != [] && s.objectHandle <= s.Tip()
    && (s.chowns > 0 ==> s.chownBacks == 0 && s.objectHandle < s.Tip() && s.notified && s.Owners() == c.targetAuths)
    && (s.chownBacks > 0 ==> s.chowns == 0 && s.chownBacks == 1 && s.objectHandle < s.Tip() && s.rollbacks != [] &&
                             s.Owners() == c.sourceAuths)
    && (s.chowns == 0 && s.chownBacks == 0 ==>
          s.Owners() == if s.rollbacks == [] then c.sourceAuths else c.sourceAuths + c.targetAuths)
  }

  /** The rollbacks in hand once the object's ownership is widened; the receiver hears of it only with both. */
  predicate Started(rollbacks: seq<Rollback>, notified: bool) {
    if notified then rollbacks == [ChownBack, Relist] else rollbacks == [ChownBack] || rollbacks == [ChownBack, Relist]
  }

  /** How far the sender has come, from its list of rollbacks; handle and tip are the object's. */
  predicate PhaseOk(sender: Sender, rollbacks: seq<Rollback>, notified: bool, chownBacks: nat, listenFrom: int,
                    handle: int, tip: int) {
    match sender
    case Ready => rollbacks == [] && chownBacks == 0 && !notified
    case Widened => rollbacks == [ChownBack] && chownBacks == 0 && !notified
    case Unlisted => rollbacks == [ChownBack, Relist] && chownBacks == 0 && !notified
    case Listening => rollbacks == [ChownBack, Relist] && chownBacks == 0 && !notified && listenFrom >= handle
    case Waiting => rollbacks == [ChownBack, Relist] && chownBacks == 0 && notified && listenFrom >= handle
    case RollingBack(todo) =>
      Started(rollbacks, notified) &&
      if chownBacks == 0 then todo == rollbacks
      else todo == [] || (todo == [Relist] && rollbacks == [ChownBack, Relist])
    case Finished(success) =>
      if success then rollbacks == [ChownBack, Relist] && chownBacks == 0 && listenFrom >= handle && tip > listenFrom
      else if rollbacks == [] then chownBacks == 0 && !notified
      else Started(rollbacks, notified) && chownBacks == 1
    case Stuck => Started(rollbacks, notified) && (rollbacks == [ChownBack] ==> chownBacks == 0)
  }

  predicate PhaseInv(s: State) {
    PhaseOk(s.sender, s.rollbacks, s.notified, s.chownBacks, s.listenFrom, s.objectHandle, s.Tip())
  }

  /** The sender has taken the object off its list and not put it back. */
  predicate IsUnlisted(sender: Sender, rollbacks: seq<Rollback>) {
    |rollbacks| == 2 &&
    match sender
    case RollingBack(todo) => todo != []
    case Finished(success) => success
    case _ => true
  }

  ghost predicate SourceOk(did: Did, source: InventoryChain, handle: InventoryChain, unlisted: bool, untouched: bool) {
    && Injective(source.names) && Injective(handle.names)
    && handle.tip <= source.tip && (handle.tip == source.tip ==> handle.names == source.names)
    && (unlisted ==> !Lists(source.names, did) && !Lists(handle.names, did))
    && (untouched ==> Lists(source.names, did) && Lists(handle.names, did))
  }

  ghost predicate SourceInv(c: Config, s: State) {
    SourceOk(c.did, s.source, s.sourceHandle, IsUnlisted(s.sender, s.rollbacks), |s.rollbacks| < 2)
  }

  ghost predicate TargetInv(c: Config, s: State) {
    && Injective(s.target.names)
    && (Lists(s.target.names, c.did) ==> s.listings > 0)
    && (s.listings > 0 && !s.collided ==> Lists(s.target.names, c.did))
    && (s.chowns > 0 || s.receiver.Added? ==> s.listings > 0)
    && (s.listings > 0 ==> c.receiverKey in c.targetAuths)
    && (s.receiver.Fetched? || s.receiver.Checked? ==>
          Injective(s.receiver.target.names) && !Lists(s.receiver.target.names, c.did) &&
          s.receiver.target.tip <= s.target.tip &&
          (s.receiver.target.tip == s.target.tip ==> s.receiver.target.names == s.target.names))
    && (!s.receiver.Idle? ==> s.notified)
  }

  /** A receiver past its check has read itself among the owners, and nothing is listed without such a reading. */
  ghost predicate SawInv(c: Config, s: State) {
    (s.receiver.Checked? || s.receiver.Added? ==>
       s.receiver.seen < |s.owners| && c.receiverKey in s.owners[s.receiver.seen]) &&
    (s.listings > 0 ==> exists k :: 0 <= k < |s.owners| && c.receiverKey in s.owners[k])
  }

  /** Owners are only added, at the end; the receiver's own steps add them when it changes the owner. */
  lemma OwnersGrow(c: Config, s: State, step: Step)
    ensures var s' := Next(c, s, step);
            |s.owners| <= |s'.owners| && forall k | 0 <= k < |s.owners| :: s'.owners[k] == s.owners[k]
  {
    hide Lists, AddedTo, Without, ObjectAccepts, TargetAccepts, SourceAccepts;
    if !IsSenderStep(step) {
      OwnersGrowByOthers(c, s, step);
      hide Next;
    }
  }

  lemma OwnersGrowByOthers(c: Config, s: State, step: Step)
    requires !IsSenderStep(step)
    ensures s.owners <= Next(c, s, step).owners
  {
    hide Lists, AddedTo, Without, ObjectAccepts, TargetAccepts, SourceAccepts;
  }

  lemma ReceiverProgress(c: Config, s: State, step: Step)
    ensures var s' := Next(c, s, step);
            && (s'.receiver.Checked? ==>
                  (s.receiver.Checked? && s'.receiver.seen == s.receiver.seen) ||
                  (s'.receiver.seen < |s.owners| && c.receiverKey in s.owners[s'.receiver.seen]))
            && (s'.receiver.Added? ==>
                  (s.receiver.Checked? || s.receiver.Added?) && s'.receiver.seen == s.receiver.seen)
            && (s'.listings > s.listings ==> s.receiver.Checked?)
  {
    hide Lists, AddedTo, Without, ObjectAccepts, TargetAccepts, SourceAccepts;
    if !IsReceiverStep(step) {
      ReceiverFrame(c, s, step);
      ListingsFrame(c, s, step);
      hide Next;
    }
  }

  lemma ListingsFrame(c: Config, s: State, step: Step)
    requires !IsReceiverStep(step)
    ensures Next(c, s, step).listings == s.listings
  {
    hide Lists, AddedTo, Without, ObjectAccepts, TargetAccepts, SourceAccepts;
  }

  lemma StepKeepsSaw(c: Config, s: State, step: Step)
    requires SawInv(c, s)
    ensures SawInv(c, Next(c, s, step))
  {
    OwnersGrow(c, s, step);
    ReceiverProgress(c, s, step);
    hide Next;
    var s' := Next(c, s, step);
    if s'.listings > 0 {
      var k := if s.listings > 0 then
                 var k: nat :| k < |s.owners| && c.receiverKey in s.owners[k]; k
               else s.receiver.seen;
      assert c.receiverKey in s'.owners[k];
    }
  }

  lemma {:induction false} RunKeepsSaw(c: Config, s: State, steps: seq<Step>)
    requires SawInv(c, s)
    ensures SawInv(c, After(c, s, steps))
    decreases |steps|
  {
    hide Next, SawInv;
    if steps != [] {
      StepKeepsSaw(c, s, steps[0]);
      RunKeepsSaw(c, Next(c, s, steps[0]), steps[1..]);
    }
  }

  /** In every run: the receiver lists an object only if it has been an owner of it at some block. */
  lemma OnlyOwnersList(c: Config, s0: State, steps: seq<Step>)
    requires Init(c, s0) && IsRun(c, s0, steps)
    ensures var s := After(c, s0, steps);
            SawInv(c, s) && ((forall k | 0 <= k < |s.owners| :: c.receiverKey !in s.owners[k]) ==> s.listings == 0)
  {
    RunKeepsSaw(c, s0, steps);
  }

  ghost predicate Inv(c: Config, s: State) {
    OwnersInv(c, s) && PhaseInv(s) && SourceInv(c, s) && TargetInv(c, s)
  }

  lemma InitInv(c: Config, s: State)
    requires Init(c, s)
    ensures Inv(c, s)
  {
  }

  lemma WidenKeepsInv(c: Config, s: State, delivered: bool)
    requires Outsider(c) && Inv(c, s) && Enabled(c, s, Widen(delivered))
    ensures Inv(c, Next(c, s, Widen(delivered)))
  {
    hide Injective, Lists, AddedTo, Without;
  }

  lemma UnlistKeepsInv(c: Config, s: State, delivered: bool)
    requires Outsider(c) && Inv(c, s) && Enabled(c, s, Unlist(delivered))
    ensures Inv(c, Next(c, s, Unlist(delivered)))
  {
  }

  lemma SubscribeKeepsInv(c: Config, s: State, ready: bool)
    requires Outsider(c) && Inv(c, s) && Enabled(c, s, Subscribe(ready))
    ensures Inv(c, Next(c, s, Subscribe(ready)))
  {
    hide Injective, Lists, AddedTo, Without;
  }

  lemma NotifyKeepsInv(c: Config, s: State, sent: bool)
    requires Outsider(c) && Inv(c, s) && Enabled(c, s, Notify(sent))
    ensures Inv(c, Next(c, s, Notify(sent)))
  {
    hide Injective, Lists, AddedTo, Without;
  }

  lemma ConfirmKeepsInv(c: Config, s: State)
    requires Outsider(c) && Inv(c, s) && Enabled(c, s, Confirm)
    ensures Inv(c, Next(c, s, Confirm))
  {
    hide Injective, Lists, AddedTo, Without;
  }

  lemma TimeOutKeepsInv(c: Config, s: State)
    requires Outsider(c) && Inv(c, s) && Enabled(c, s, TimeOut)
    ensures Inv(c, Next(c, s, TimeOut))
  {
    hide Injective, Lists, AddedTo, Without;
  }

  lemma ChownBackKeepsInv(c: Config, s: State, delivered: bool, names: Listing)
    requires Outsider(c) && Inv(c, s) && Enabled(c, s, RollBack(delivered, names))
    requires s.sender.todo != [] && s.sender.todo[0].ChownBack?
    ensures Inv(c, Next(c, s, RollBack(delivered, names)))
  {
    hide Injective, Lists, AddedTo, Without, SourceOk;
    assert s.sender.todo == s.rollbacks && s.chownBacks == 0;
  }

  lemma RelistKeepsInv(c: Config, s: State, delivered: bool, names: Listing)
    requires Outsider(c) && Inv(c, s) && Enabled(c, s, RollBack(delivered, names))
    requires s.sender.todo != [] && s.sender.todo[0].Relist?
    ensures Inv(c, Next(c, s, RollBack(delivered, names)))
  {
    hide Injective, Lists, AddedTo, Without;
    assert s.sender.todo == [Relist] && s.rollbacks == [ChownBack, Relist] && s.chownBacks == 1;
    AddedToInjective(s.sourceHandle.names, c.did, c.name, names);
  }

  lemma RolledBackKeepsInv(c: Config, s: State, delivered: bool, names: Listing)
    requires Outsider(c) && Inv(c, s) && Enabled(c, s, RollBack(delivered, names))
    requires s.sender.todo == []
    ensures Inv(c, Next(c, s, RollBack(delivered, names)))
  {
    hide Injective, Lists, AddedTo, Without;
  }

  lemma FetchKeepsInv(c: Config, s: State)
    requires Outsider(c) && Inv(c, s) && Enabled(c, s, Fetch)
    ensures Inv(c, Next(c, s, Fetch))
  {
    hide Injective, Lists, AddedTo, Without, PhaseOk, SourceOk, IsUnlisted;
  }

  lemma CheckKeepsInv(c: Config, s: State, seen: nat)
    requires Outsider(c) && Inv(c, s) && Enabled(c, s, Check(seen))
    ensures Inv(c, Next(c, s, Check(seen)))
  {
    hide Injective, Lists, AddedTo, Without, PhaseOk, SourceOk, IsUnlisted;
  }

  lemma ListKeepsInv(c: Config, s: State, delivered: bool, names: Listing)
    requires Outsider(c) && Inv(c, s) && Enabled(c, s, List(delivered, names))
    ensures Inv(c, Next(c, s, List(delivered, names)))
  {
    hide Injective, Lists, AddedTo, Without, PhaseOk, SourceOk, IsUnlisted;
    AddedToInjective(s.receiver.target.names, c.did, c.name, names);
  }

  lemma ChownKeepsInv(c: Config, s: State, delivered: bool)
    requires Outsider(c) && Inv(c, s) && Enabled(c, s, Chown(delivered))
    ensures Inv(c, Next(c, s, Chown(delivered)))
  {
    hide Injective, Lists, AddedTo, Without, SourceOk;
  }

  lemma ObjectBlockKeepsInv(c: Config, s: State)
    requires Outsider(c) && Inv(c, s) && Enabled(c, s, ObjectBlock)
    ensures Inv(c, Next(c, s, ObjectBlock))
  {
    hide Injective, Lists, AddedTo, Without, SourceOk;
  }

  lemma SourceBlockKeepsInv(c: Config, s: State, names: Listing)
    requires Outsider(c) && Inv(c, s) && Enabled(c, s, SourceBlock(names))
    ensures Inv(c, Next(c, s, SourceBlock(names)))
  {
    hide Injective, Lists, AddedTo, Without, PhaseOk, IsUnlisted;
  }

  lemma TargetBlockKeepsInv(c: Config, s: State, names: Listing)
    requires Outsider(c) && Inv(c, s) && Enabled(c, s, TargetBlock(names))
    ensures Inv(c, Next(c, s, TargetBlock(names)))
  {
    hide Injective, Lists, AddedTo, Without, SourceOk, PhaseOk, IsUnlisted;
  }

  lemma StepKeepsInv(c: Config, s: State, step: Step)
    requires Outsider(c) && Inv(c, s) && Enabled(c, s, step)
    ensures Inv(c, Next(c, s, step))
  {
    hide Inv, Next, AddedTo;
    match step
    case Widen(delivered) => WidenKeepsInv(c, s, delivered);
    case Unlist(delivered) => UnlistKeepsInv(c, s, delivered);
    case Subscribe(ready) => SubscribeKeepsInv(c, s, ready);
    case Notify(sent) => NotifyKeepsInv(c, s, sent);
    case Confirm => ConfirmKeepsInv(c, s);
    case TimeOut => TimeOutKeepsInv(c, s);
    case RollBack(delivered, names) =>
      if s.sender.todo == [] {
        RolledBackKeepsInv(c, s, delivered, names);
      } else if s.sender.todo[0].ChownBack? {
        ChownBackKeepsInv(c, s, delivered, names);
      } else {
        RelistKeepsInv(c, s, delivered, names);
      }
    case Fetch => FetchKeepsInv(c, s);
    case Check(seen) => CheckKeepsInv(c, s, seen);
    case List(delivered, names) => ListKeepsInv(c, s, delivered, names);
    case Chown(delivered) => ChownKeepsInv(c, s, delivered);
    case ObjectBlock => ObjectBlockKeepsInv(c, s);
    case SourceBlock(names) => SourceBlockKeepsInv(c, s, names);
    case TargetBlock(names) => TargetBlockKeepsInv(c, s, names);
  }

  /** All entries but those of the object and those under its name are as before. */
  ghost predicate OthersKept(c: Config, before: Listing, after: Listing) {
    (forall n | n in before && n != c.name && before[n] != c.did :: n in after && after[n] == before[n]) &&
    (forall n | n in after && n != c.name :: n in before && after[n] == before[n])
  }

  /** No step of the two handlers costs another object its entry, however stale the inventory it writes back was. */
  lemma OthersStay(c: Config, s: State, step: Step)
    requires SourceInv(c, s) && TargetInv(c, s) && Enabled(c, s, step) && (IsSenderStep(step) || IsReceiverStep(step))
    ensures OthersKept(c, s.source.names, Next(c, s, step).source.names)
    ensures OthersKept(c, s.target.names, Next(c, s, step).target.names)
  {
    if step.Unlist? {
      OthersStayUnlist(c, s, step.delivered);
    } else if step.RollBack? {
      OthersStayRelist(c, s, step.delivered, step.names);
    } else if step.List? {
      OthersStayList(c, s, step.delivered, step.names);
    } else {
      OthersUntouched(c, s, step);
    }
  }

  lemma OthersUntouched(c: Config, s: State, step: Step)
    requires (IsSenderStep(step) || IsReceiverStep(step)) && !step.Unlist? && !step.RollBack? && !step.List?
    ensures Next(c, s, step).source == s.source && Next(c, s, step).target == s.target
  {
    hide Lists, AddedTo, Without, ObjectAccepts, TargetAccepts, SourceAccepts;
  }

  lemma OthersStayUnlist(c: Config, s: State, delivered: bool)
    requires SourceInv(c, s)
    ensures var s' := Next(c, s, Unlist(delivered));
            OthersKept(c, s.source.names, s'.source.names) && s'.target == s.target
  {
    hide Injective, IsUnlisted;
  }

  lemma OthersStayRelist(c: Config, s: State, delivered: bool, names: Listing)
    requires SourceInv(c, s) && Enabled(c, s, RollBack(delivered, names))
    ensures var s' := Next(c, s, RollBack(delivered, names));
            OthersKept(c, s.source.names, s'.source.names) && s'.target == s.target
  {
    hide Injective, IsUnlisted, Lists, ObjectAccepts;
  }

  lemma OthersStayList(c: Config, s: State, delivered: bool, names: Listing)
    requires TargetInv(c, s) && Enabled(c, s, List(delivered, names))
    ensures var s' := Next(c, s, List(delivered, names));
            OthersKept(c, s.target.names, s'.target.names) && s'.source == s.source
  {
    hide Injective, Lists;
  }

  lemma {:induction false} RunKeepsInv(c: Config, s: State, steps: seq<Step>)
    requires Outsider(c) && Inv(c, s) && IsRun(c, s, steps)
    ensures Inv(c, After(c, s, steps))
    decreases |steps|
  {
    hide Inv, Next, Enabled;
    if steps != [] {
      StepKeepsInv(c, s, steps[0]);
      RunKeepsInv(c, Next(c, s, steps[0]), steps[1..]);
    }
  }

  /**
   In every run, whatever fails or interferes: the sender's change back and the receiver's change of owner are
   never both accepted, the owners are always the source's, the target's or both, and the source does not list
   an object the receiver has taken.
   */
  lemma ExclusiveOutcome(c: Config, s0: State, steps: seq<Step>)
    requires Outsider(c) && Init(c, s0) && IsRun(c, s0, steps)
    ensures var s := After(c, s0, steps);
            && !(s.chowns > 0 && s.chownBacks > 0) && s.chownBacks <= 1
            && s.owners != []
            && s.Owners() in {c.sourceAuths, c.sourceAuths + c.targetAuths, c.targetAuths}
            && (c.sourceAuths != {} ==> s.Owners() != {})
            && (s.chowns > 0 ==> s.Owners() == c.targetAuths && !Lists(s.source.names, c.did))
            && (s.chowns > 0 && !s.collided ==> Lists(s.target.names, c.did))
  {
    InitInv(c, s0);
    RunKeepsInv(c, s0, steps);
    var s := After(c, s0, steps);
    if s.chowns > 0 {
      assert c.receiverKey in c.targetAuths;
      assert s.notified;
      assert |s.rollbacks| == 2;
    }
  }

  /** Nobody else writes to the three chains and no rollback is lost: the listings are then known exactly. */
  ghost predicate UndisturbedInv(c: Config, s0: State, s: State) {
    !s.disturbed ==>
      && s.source == s.sourceHandle
      && s.source.names ==
         (if IsUnlisted(s.sender, s.rollbacks) then Without(s0.source.names, c.did) else s0.source.names)
      && (s.listings == 0 ==> s.target == s0.target)
      && (s.chowns == 0 && s.chownBacks == 0 ==> s.Tip() == s.objectHandle)
      && (s.sender.Stuck? ==> s.chowns > 0 && s.chownBacks == 0)
      && (c.name !in s0.target.names ==> NameIsFree(c, s))
  }

  /** No listing met a taken name, and none that is under way will. */
  ghost predicate NameIsFree(c: Config, s: State) {
    !s.collided && (s.receiver.Fetched? || s.receiver.Checked? ==> c.name !in s.receiver.target.names)
  }

  /** The sender can write its own inventory, which lists the object under the object's present name. */
  ghost predicate Proper(c: Config, s0: State) {
    c.senderKey in c.sourceAuths && c.name in s0.source.names && s0.source.names[c.name] == c.did
  }

  lemma UndisturbedUnlist(c: Config, s0: State, s: State, delivered: bool)
    requires Outsider(c) && Proper(c, s0) && Inv(c, s) && s.sender.Widened?
    requires UndisturbedInv(c, s0, s)
    ensures UndisturbedInv(c, s0, Next(c, s, Unlist(delivered)))
  {
    hide Injective, Lists, AddedTo, Without;
  }

  lemma UndisturbedChownBack(c: Config, s0: State, s: State, delivered: bool, names: Listing)
    requires Outsider(c) && Proper(c, s0) && Inv(c, s) && s.sender.RollingBack?
    requires s.sender.todo == [] || s.sender.todo[0].ChownBack?
    requires UndisturbedInv(c, s0, s)
    ensures UndisturbedInv(c, s0, Next(c, s, RollBack(delivered, names)))
  {
    hide Injective, Lists, AddedTo, Without;
    assert s.sender.todo == [] || s.sender.todo == s.rollbacks;
  }

  lemma UndisturbedRelist(c: Config, s0: State, s: State, delivered: bool, names: Listing)
    requires Outsider(c) && Proper(c, s0) && Injective(s0.source.names) && Inv(c, s)
    requires s.sender.RollingBack? && s.sender.todo != [] && s.sender.todo[0].Relist?
    requires AddedTo(s.sourceHandle.names, c.did, c.name, names)
    requires UndisturbedInv(c, s0, s)
    ensures UndisturbedInv(c, s0, Next(c, s, RollBack(delivered, names)))
  {
    assert s.sender.todo == [Relist] && s.rollbacks == [ChownBack, Relist] && s.chownBacks == 1;
    hide Injective, Lists, Without, AddedTo, OwnersInv, TargetInv, PhaseOk;
    if !s.disturbed {
      RemoveThenAdd(s0.source.names, c.name, names);
    }
  }

  lemma UndisturbedStep(c: Config, s0: State, s: State, step: Step)
    requires Outsider(c) && Proper(c, s0) && Injective(s0.source.names) && Inv(c, s) && Enabled(c, s, step)
    requires UndisturbedInv(c, s0, s)
    ensures UndisturbedInv(c, s0, Next(c, s, step))
  {
    if step.Unlist? {
      UndisturbedUnlist(c, s0, s, step.delivered);
    } else if step.RollBack? {
      if s.sender.todo == [] || s.sender.todo[0].ChownBack? {
        UndisturbedChownBack(c, s0, s, step.delivered, step.names);
      } else {
        UndisturbedRelist(c, s0, s, step.delivered, step.names);
      }
    } else if IsSenderStep(step) {
      UndisturbedSender(c, s0, s, step);
    } else {
      UndisturbedReceiver(c, s0, s, step);
    }
  }

  lemma UndisturbedSender(c: Config, s0: State, s: State, step: Step)
    requires Outsider(c) && Proper(c, s0) && Inv(c, s) && Enabled(c, s, step)
    requires IsSenderStep(step) && !step.Unlist? && !step.RollBack?
    requires UndisturbedInv(c, s0, s)
    ensures UndisturbedInv(c, s0, Next(c, s, step))
  {
    hide Injective, Lists, AddedTo, Without, SourceOk, TargetInv;
  }

  lemma UndisturbedReceiver(c: Config, s0: State, s: State, step: Step)
    requires Inv(c, s) && Enabled(c, s, step) && !IsSenderStep(step)
    requires UndisturbedInv(c, s0, s)
    ensures UndisturbedInv(c, s0, Next(c, s, step))
  {
    hide Injective, Lists, AddedTo, Without, SourceInv, IsUnlisted, PhaseInv, OwnersInv, ObjectAccepts, TargetAccepts,
         SourceAccepts;
  }

  lemma {:induction false} RunKeepsUndisturbed(c: Config, s0: State, s: State, steps: seq<Step>)
    requires Outsider(c) && Proper(c, s0) && Injective(s0.source.names) && Inv(c, s) && IsRun(c, s, steps)
    requires UndisturbedInv(c, s0, s)
    ensures Inv(c, After(c, s, steps)) && UndisturbedInv(c, s0, After(c, s, steps))
    decreases |steps|
  {
    hide Inv, Next, Enabled, UndisturbedInv;
    if steps != [] {
      StepKeepsInv(c, s, steps[0]);
      UndisturbedStep(c, s0, s, steps[0]);
      RunKeepsUndisturbed(c, s0, Next(c, s, steps[0]), steps[1..]);
    }
  }

  /** The source has the object as before. */
  ghost predicate Restored(c: Config, s0: State, s: State) {
    s.owners != [] && s.Owners() == c.sourceAuths && s.source.names == s0.source.names
  }

  /** The target has the object and lists it, unless another object had the name there from the start. */
  ghost predicate Taken(c: Config, s0: State, s: State) {
    s.owners != [] && s.Owners() == c.targetAuths && !Lists(s.source.names, c.did) &&
    (c.name in s0.target.names || Lists(s.target.names, c.did))
  }

  /**
   Compensation: with no other writer and no lost rollback, when the sender is done the object is either back where
   it was or with the target, whichever step failed, however late the receiver acts, and never between the two.
   A target whose receiver has listed nothing is as it was.
   */
  lemma NothingIsLost(c: Config, s0: State, steps: seq<Step>)
    requires Outsider(c) && Proper(c, s0) && Init(c, s0) && IsRun(c, s0, steps)
    requires !After(c, s0, steps).disturbed
    requires After(c, s0, steps).sender.Finished? || After(c, s0, steps).sender.Stuck?
    ensures var s := After(c, s0, steps);
            && (s.sender == Finished(false) ==> Restored(c, s0, s) && s.chowns == 0)
            && (s.sender != Finished(false) ==> Taken(c, s0, s) && s.chowns > 0)
            && (s.listings == 0 ==> s.target == s0.target)
            && (s.listings > 0 && c.name !in s0.target.names ==> Lists(s.target.names, c.did))
  {
    InitInv(c, s0);
    RunKeepsUndisturbed(c, s0, s0, steps);
    var s := After(c, s0, steps);
    if s.sender.Finished? && s.sender.success {
      assert s.Tip() > s.listenFrom >= s.objectHandle;
    }
  }

  /** With a name that is free at the target, the receiver's change of owner comes with the listing, at every moment. */
  lemma FreshNameIsListed(c: Config, s0: State, steps: seq<Step>)
    requires Outsider(c) && Proper(c, s0) && Init(c, s0) && IsRun(c, s0, steps)
    requires !After(c, s0, steps).disturbed && c.name !in s0.target.names
    ensures var s := After(c, s0, steps); s.chowns > 0 ==> Lists(s.target.names, c.did)
  {
    InitInv(c, s0);
    RunKeepsUndisturbed(c, s0, s0, steps);
  }

  /** One more step at the end of a run. */
  lemma {:induction false} RunThenStep(c: Config, s0: State, steps: seq<Step>, step: Step)
    requires IsRun(c, s0, steps) && Enabled(c, After(c, s0, steps), step)
    ensures IsRun(c, s0, steps + [step])
    ensures After(c, s0, steps + [step]) == Next(c, After(c, s0, steps), step)
    decreases |steps|
  {
    hide Next, Enabled;
    var all := steps + [step];
    if steps == [] {
      assert all[1..] == [];
      assert IsRun(c, Next(c, s0, step), []);
    } else {
      RunThenStep(c, Next(c, s0, steps[0]), steps[1..], step);
      assert all[1..] == steps[1..] + [step];
    }
  }

  lemma Extend(c: Config, s0: State, steps: seq<Step>, s: State, step: Step) returns (steps': seq<Step>, s': State)
    requires IsRun(c, s0, steps) && s == After(c, s0, steps) && Enabled(c, s, step)
    ensures steps' == steps + [step] && s' == Next(c, s, step)
    ensures IsRun(c, s0, steps') && s' == After(c, s0, steps')
  {
    RunThenStep(c, s0, steps, step);
    steps', s' := steps + [step], Next(c, s, step);
  }

  /** A run of the sender up to the point where it waits for the receiver. */
  lemma RunToWaiting(c: Config, s0: State) returns (steps: seq<Step>, s: State)
    requires Init(c, s0) && c.senderKey in c.sourceAuths
    ensures IsRun(c, s0, steps) && s == After(c, s0, steps)
    ensures s == s0.(owners := s0.owners + [c.sourceAuths + c.targetAuths], objectHandle := |s0.owners|,
                     source := InventoryChain(s0.source.tip + 1, Without(s0.source.names, c.did)),
                     sourceHandle := InventoryChain(s0.source.tip + 1, Without(s0.source.names, c.did)),
                     rollbacks := [ChownBack, Relist], sender := Waiting, listenFrom := |s0.owners|, notified := true)
  {
    assert IsRun(c, s0, []);
    steps, s := Extend(c, s0, [], s0, Widen(true));
    steps, s := Extend(c, s0, steps, s, Unlist(true));
    assert s.rollbacks == [ChownBack, Relist];
    steps, s := Extend(c, s0, steps, s, Subscribe(true));
    steps, s := Extend(c, s0, steps, s, Notify(true));
  }

  /**
   The condition on the receiver is needed: one who shares a key with the source can take the object
   after the sender has taken it back, so both changes of owner are accepted.
   */
  lemma InsiderTakesAfterRollback(c: Config, s0: State) returns (steps: seq<Step>)
    requires !Outsider(c) && Init(c, s0) && c.senderKey in c.sourceAuths && c.receiverKey in c.targetAuths
    ensures IsRun(c, s0, steps)
    ensures After(c, s0, steps).chowns > 0 && After(c, s0, steps).chownBacks > 0
  {
    var s;
    steps, s := RunToWaiting(c, s0);
    steps, s := Extend(c, s0, steps, s, TimeOut);
    steps, s := Extend(c, s0, steps, s, RollBack(true, map[]));
    steps, s := Extend(c, s0, steps, s, Fetch);
    steps, s := Extend(c, s0, steps, s, Check(|s.owners| - 1));
    var names := s.target.names[c.name := c.did];
    steps, s := Extend(c, s0, steps, s, List(true, names));
    steps, s := Extend(c, s0, steps, s, Chown(true));
  }

  /** A run in which the receiver has listed the object and the sender still waits. */
  lemma RunToListed(c: Config, s0: State) returns (steps: seq<Step>, s: State)
    requires Init(c, s0) && c.senderKey in c.sourceAuths && c.receiverKey in c.targetAuths
    ensures IsRun(c, s0, steps) && s == After(c, s0, steps)
    ensures s.sender.Waiting? && s.rollbacks == [ChownBack, Relist] && s.chownBacks == 0 && !s.disturbed
    ensures s.owners != [] && s.Owners() == c.sourceAuths + c.targetAuths && s.objectHandle == s.Tip()
    ensures s.source == s.sourceHandle && s.source.names == Without(s0.source.names, c.did)
    ensures s.receiver == Added(s.Tip()) && Lists(s.target.names, c.did)
  {
    steps, s := RunToWaiting(c, s0);
    steps, s := Extend(c, s0, steps, s, Fetch);
    steps, s := Extend(c, s0, steps, s, Check(|s.owners| - 1));
    var names := s.target.names[c.name := c.did];
    assert names[c.name] == c.did;
    steps, s := Extend(c, s0, steps, s, List(true, names));
  }

  /** The receiver never unlists: one that loses the race leaves the object listed in both inventories. */
  lemma LateReceiverLeavesPhantom(c: Config, s0: State) returns (steps: seq<Step>)
    requires Outsider(c) && Proper(c, s0) && Init(c, s0) && c.receiverKey in c.targetAuths
    ensures IsRun(c, s0, steps)
    ensures var s := After(c, s0, steps);
            !s.disturbed && s.sender == Finished(false) && s.receiver.Idle? &&
            Lists(s.source.names, c.did) && Lists(s.target.names, c.did) && s.owners != [] &&
            s.Owners() == c.sourceAuths
  {
    var s;
    steps, s := RunToListed(c, s0);
    steps, s := Extend(c, s0, steps, s, TimeOut);
    steps, s := Extend(c, s0, steps, s, RollBack(true, map[]));
    var back := s.sourceHandle.names[c.name := c.did];
    assert back[c.name] == c.did;
    steps, s := Extend(c, s0, steps, s, RollBack(true, back));
    steps, s := Extend(c, s0, steps, s, RollBack(true, map[]));
    steps, s := Extend(c, s0, steps, s, Chown(true));
  }

  ghost predicate InOneInventory(c: Config, s: State) {
    !(Lists(s.source.names, c.did) && Lists(s.target.names, c.did))
  }

  /**
   No run at all, whatever fails or interferes, ever lists the object twice exactly if the receiver cannot write the
   target.
   */
  lemma PhantomIff(c: Config, s0: State)
    requires Outsider(c) && Proper(c, s0) && Init(c, s0)
    ensures (forall steps | IsRun(c, s0, steps) :: InOneInventory(c, After(c, s0, steps))) <==>
              c.receiverKey !in c.targetAuths
  {
    if c.receiverKey in c.targetAuths {
      var steps := LateReceiverLeavesPhantom(c, s0);
      assert IsRun(c, s0, steps) && !InOneInventory(c, After(c, s0, steps));
    } else {
      forall steps | IsRun(c, s0, steps) ensures InOneInventory(c, After(c, s0, steps)) {
        InitInv(c, s0);
        RunKeepsInv(c, s0, steps);
      }
    }
  }

  /**
   Of one run: when the sender is done, the object is listed twice exactly if the sender gave up and the receiver had
   listed it.
   */
  lemma PhantomAfterRunIff(c: Config, s0: State, steps: seq<Step>)
    requires Outsider(c) && Proper(c, s0) && Init(c, s0) && IsRun(c, s0, steps) && c.name !in s0.target.names
    requires !After(c, s0, steps).disturbed
    requires After(c, s0, steps).sender.Finished? || After(c, s0, steps).sender.Stuck?
    ensures var s := After(c, s0, steps);
            !InOneInventory(c, s) <==> s.sender == Finished(false) && s.listings > 0
  {
    NothingIsLost(c, s0, steps);
  }

  ghost predicate OneChange(s: State) {
    !(s.chowns > 0 && s.chownBacks > 0)
  }

  /**
   In all runs at most one of the two changes of owner is accepted, exactly if the receiver shares no key with the
   source.
   */
  lemma ExclusiveIff(c: Config, s0: State)
    requires Init(c, s0) && c.senderKey in c.sourceAuths && c.receiverKey in c.targetAuths
    ensures (forall steps | IsRun(c, s0, steps) :: OneChange(After(c, s0, steps))) <==> Outsider(c)
  {
    if Outsider(c) {
      forall steps | IsRun(c, s0, steps) ensures OneChange(After(c, s0, steps)) {
        ExclusiveOutcome(c, s0, steps);
      }
    } else {
      var steps := InsiderTakesAfterRollback(c, s0);
      assert IsRun(c, s0, steps) && !OneChange(After(c, s0, steps));
    }
  }

  /** A taken name can cost the listing: the receiver's change of owner is accepted all the same. */
  lemma TakenNameCanHideObject(c: Config, s0: State) returns (steps: seq<Step>)
    requires Outsider(c) && Init(c, s0) && c.senderKey in c.sourceAuths && c.receiverKey in c.targetAuths
    requires c.name in s0.target.names
    ensures IsRun(c, s0, steps)
    ensures var s := After(c, s0, steps);
            !s.disturbed && s.chowns > 0 && !Lists(s.target.names, c.did) && !Lists(s.source.names, c.did)
  {
    var s;
    steps, s := RunToWaiting(c, s0);
    steps, s := Extend(c, s0, steps, s, Fetch);
    steps, s := Extend(c, s0, steps, s, Check(|s.owners| - 1));
    steps, s := Extend(c, s0, steps, s, List(true, s.target.names));
    steps, s := Extend(c, s0, steps, s, Chown(true));
  }

  /**
   When the change of owner and the listing go together, exactly: in all runs without other writers an object that the
   target owns is listed there if and only if no other object had its name there at the start.
   */
  lemma ListedIff(c: Config, s0: State)
    requires Outsider(c) && Proper(c, s0) && Init(c, s0) && c.receiverKey in c.targetAuths
    ensures (forall steps | IsRun(c, s0, steps) :: ListedWhenOwned(c, After(c, s0, steps))) <==>
              c.name !in s0.target.names
  {
    if c.name in s0.target.names {
      var steps := TakenNameCanHideObject(c, s0);
      assert IsRun(c, s0, steps) && !ListedWhenOwned(c, After(c, s0, steps));
    } else {
      forall steps | IsRun(c, s0, steps) ensures ListedWhenOwned(c, After(c, s0, steps)) {
        if !After(c, s0, steps).disturbed {
          FreshNameIsListed(c, s0, steps);
        }
      }
    }
  }

  ghost predicate ListedWhenOwned(c: Config, s: State) {
    !s.disturbed && s.chowns > 0 ==> Lists(s.target.names, c.did)
  }

  /** Another block on the object during the wait makes the rollback fail, and the object stays between the two. */
  lemma OtherWriterStrandsObject(c: Config, s0: State) returns (steps: seq<Step>)
    requires Outsider(c) && Init(c, s0) && c.senderKey in c.sourceAuths
    ensures IsRun(c, s0, steps)
    ensures var s := After(c, s0, steps);
            s.sender.Stuck? && s.owners != [] && s.Owners() == c.sourceAuths + c.targetAuths &&
            !Lists(s.source.names, c.did) && !Lists(s.target.names, c.did)
  {
    var s;
    steps, s := RunToWaiting(c, s0);
    assert c.senderKey in s.Owners();
    steps, s := Extend(c, s0, steps, s, ObjectBlock);
    steps, s := Extend(c, s0, steps, s, TimeOut);
    steps, s := Extend(c, s0, steps, s, RollBack(true, map[]));
  }

  /** The sender has given up for good, and the object belongs to both sides and is listed on neither. */
  ghost predicate Stranded(c: Config, s: State) {
    s.sender.Stuck? && s.owners != [] && s.Owners() == c.sourceAuths + c.targetAuths &&
    !Lists(s.source.names, c.did) && !Lists(s.target.names, c.did)
  }

  /** A sender that cannot even widen the owners ends there. */
  ghost predicate Powerless(c: Config, s: State) {
    s.owners != [] && s.Owners() == c.sourceAuths && (s.sender.Ready? || s.sender == Finished(false)) &&
    s.receiver.Idle? && !s.notified
  }

  lemma {:induction false} PowerlessStays(c: Config, s: State, steps: seq<Step>)
    requires c.senderKey !in c.sourceAuths && Powerless(c, s) && IsRun(c, s, steps)
    ensures Powerless(c, After(c, s, steps))
    decreases |steps|
  {
    hide Lists, AddedTo, Without, Injective;
    if steps != [] {
      PowerlessStays(c, Next(c, s, steps[0]), steps[1..]);
    }
  }

  /**
   Some run strands the object exactly if the sender can write it; without other writers none does, by NothingIsLost.
   */
  lemma StrandedIff(c: Config, s0: State)
    requires Outsider(c) && Init(c, s0)
    ensures (forall steps | IsRun(c, s0, steps) :: !Stranded(c, After(c, s0, steps))) <==> c.senderKey !in c.sourceAuths
  {
    if c.senderKey in c.sourceAuths {
      var steps := OtherWriterStrandsObject(c, s0);
      assert IsRun(c, s0, steps) && Stranded(c, After(c, s0, steps));
    } else {
      forall steps | IsRun(c, s0, steps) ensures !Stranded(c, After(c, s0, steps)) {
        PowerlessStays(c, s0, steps);
      }
    }
  }

  lemma UndisturbedIsNotStranded(c: Config, s0: State, steps: seq<Step>)
    requires Outsider(c) && Proper(c, s0) && Init(c, s0) && IsRun(c, s0, steps) && !After(c, s0, steps).disturbed
    requires c.name !in s0.target.names
    ensures !Stranded(c, After(c, s0, steps))
  {
    if After(c, s0, steps).sender.Stuck? {
      NothingIsLost(c, s0, steps);
    }
  }
}
