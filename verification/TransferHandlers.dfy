/**
 The two handlers as the source writes them, one network call after another, with everybody else running in
 between. Their runs are runs of the protocol in module Transfer, so all that is proved there holds of them.
 */
module TransferHandlers {
  import opened Inventory
  import opened Transfer

  /** What a handler has called on the network. */
  datatype Call =
    | WidenOwners | RemoveFromInventory | SubscribeToTree | TellTarget | Await | Undo(what: Rollback)
    | FetchInventory | ReadOwners | AddToInventory | ChangeOwner

  /** The sender's calls when nothing fails on the way. */
  const FORWARD := [WidenOwners, RemoveFromInventory, SubscribeToTree, TellTarget, Await]

  const RECEIVE := [FetchInventory, ReadOwners, AddToInventory, ChangeOwner]

  /** What is undone after a failure in this many calls: nothing of a call that failed, all of those before it. */
  function UndoneAfter(calls: nat): seq<Rollback> {
    if calls <= 1 then [] else if calls == 2 then [ChownBack] else [ChownBack, Relist]
  }

  function Undos(rollbacks: seq<Rollback>): (calls: seq<Call>)
    ensures |calls| == |rollbacks|
  {
    seq(|rollbacks|, i requires 0 <= i < |rollbacks| => Undo(rollbacks[i]))
  }

  function SenderCall(s: State, step: Step): seq<Call> {
    match step
    case Widen(_) => [WidenOwners]
    case Unlist(_) => [RemoveFromInventory]
    case Subscribe(_) => [SubscribeToTree]
    case Notify(_) => [TellTarget]
    case Confirm => [Await]
    case TimeOut => [Await]
    case RollBack(_, _) => if s.sender.RollingBack? && s.sender.todo != [] then [Undo(s.sender.todo[0])] else []
    case _ => []
  }

  function ReceiverCall(step: Step): seq<Call> {
    match step
    case Fetch => [FetchInventory]
    case Check(_) => [ReadOwners]
    case List(_, _) => [AddToInventory]
    case Chown(_) => [ChangeOwner]
    case _ => []
  }

  /** The calls that a run holds, in order: the sender's, and the receiver's. */
  function SenderCalls(c: Config, s: State, steps: seq<Step>): seq<Call>
    decreases |steps|
  {
    if steps == [] then [] else SenderCall(s, steps[0]) + SenderCalls(c, Next(c, s, steps[0]), steps[1..])
  }

  function ReceiverCalls(steps: seq<Step>): seq<Call> {
    if steps == [] then [] else ReceiverCalls(steps[..|steps| - 1]) + ReceiverCall(steps[|steps| - 1])
  }

  lemma {:induction false} SenderCallsThenStep(c: Config, s: State, steps: seq<Step>, step: Step)
    ensures SenderCalls(c, s, steps + [step]) == SenderCalls(c, s, steps) + SenderCall(After(c, s, steps), step)
    decreases |steps|
  {
    hide Next, SenderCall;
    var all := steps + [step];
    if steps == [] {
      assert all[1..] == [];
      assert SenderCalls(c, s, all) == SenderCall(s, step) + [];
    } else {
      var next := Next(c, s, steps[0]);
      SenderCallsThenStep(c, next, steps[1..], step);
      assert all[1..] == steps[1..] + [step];
      assert SenderCalls(c, s, all) == SenderCall(s, steps[0]) + SenderCalls(c, next, all[1..]);
    }
  }

  lemma ReceiverCallsThenStep(steps: seq<Step>, step: Step)
    ensures ReceiverCalls(steps + [step]) == ReceiverCalls(steps) + ReceiverCall(step)
  {
    assert (steps + [step])[..|steps|] == steps;
  }

  /** So many of the sender's calls were made, in their order, and then so many of the rollbacks, in theirs. */
  ghost predicate SentAll(before: seq<Call>, sent: seq<Call>, calls: nat, undone: nat) {
    calls <= 5 && undone <= |UndoneAfter(calls)| &&
    sent == before + FORWARD[..calls] + Undos(UndoneAfter(calls)[..undone])
  }

  lemma FirstSent(before: seq<Call>)
    ensures SentAll(before, before + [WidenOwners], 1, 0)
  {
  }

  lemma OneMoreSent(before: seq<Call>, sent: seq<Call>, calls: nat)
    requires SentAll(before, sent, calls, 0) && calls < 5
    ensures SentAll(before, sent + [FORWARD[calls]], calls + 1, 0)
  {
  }

  lemma BothUndone()
    ensures UndoneAfter(3) == UndoneAfter(4) == UndoneAfter(5)
  {
  }

  lemma UndosSent(before: seq<Call>, sent: seq<Call>, calls: nat, undone: nat)
    requires SentAll(before, sent, calls, 0) && undone <= |UndoneAfter(calls)|
    ensures SentAll(before, sent + Undos(UndoneAfter(calls)[..undone]), calls, undone)
  {
  }

  /** After this many steps of the run the object has a block that is newer than the sender's subscription. */
  ghost predicate HasNewBlock(c: Config, start: State, steps: seq<Step>, at: nat) {
    at <= |steps| && After(c, start, steps[..at]).Tip() > After(c, start, steps[..at]).listenFrom
  }

  lemma MoreSteps(c: Config, start: State, steps: seq<Step>, more: seq<Step>, at: nat)
    requires steps <= more && at <= |steps|
    ensures HasNewBlock(c, start, steps, at) == HasNewBlock(c, start, more, at)
  {
    assert more[..at] == steps[..at];
  }

  /**
   Until the target is told of the object, nobody but the sender and other writers has touched anything, so a block of
   the sender's that gets through is taken unless another writer came first. This needs nothing of the receiver's keys.
   */
  ghost predicate Unshared(c: Config, s: State) {
    s.owners != [] &&
    (s.sender.Ready? || s.sender.Widened? ==>
       !s.notified && s.receiver.Idle? && (!s.disturbed ==> s.sourceHandle.tip == s.source.tip)) &&
    (s.sender.Ready? && !s.disturbed ==> s.objectHandle == s.Tip() && s.Owners() == c.sourceAuths)
  }

  lemma StepKeepsUnshared(c: Config, s: State, step: Step)
    requires Unshared(c, s) && Enabled(c, s, step)
    ensures Unshared(c, Next(c, s, step))
  {
    hide Injective, Lists, AddedTo, Without, TargetAccepts, SourceAccepts;
  }

  /** Others neither change what the receiver has done nor, unless they write the target's inventory, that inventory. */
  lemma TargetFrame(c: Config, s: State, step: Step)
    requires !IsReceiverStep(step)
    ensures var s' := Next(c, s, step);
            s'.chowns == s.chowns && s'.listings == s.listings &&
            (!s'.disturbed ==> s'.target == s.target && !s.disturbed)
  {
    hide Lists, AddedTo, Without, ObjectAccepts, TargetAccepts, SourceAccepts;
  }

  lemma DisturbedStays(c: Config, s: State, step: Step)
    ensures s.disturbed ==> Next(c, s, step).disturbed
  {
    hide Lists, AddedTo, Without, ObjectAccepts, TargetAccepts, SourceAccepts;
  }

  class Exchange {
    const c: Config
    /** Whether no message and no block of the two handlers is lost. */
    const reliable: bool
    var s: State
    ghost const start: State
    ghost var steps: seq<Step>
    ghost var sent: seq<Call>
    ghost var received: seq<Call>

    ghost predicate Valid()
      reads this
    {
      Init(c, start) && IsRun(c, start, steps) && s == After(c, start, steps) && Unshared(c, s) &&
      sent == SenderCalls(c, start, steps) && received == ReceiverCalls(steps)
    }

    constructor (c: Config, s: State, reliable: bool)
      requires Init(c, s)
      ensures Valid() && this.c == c && this.s == s && start == s && this.reliable == reliable
      ensures steps == [] && sent == [] && received == []
    {
      this.c, this.s, this.reliable, start, steps, sent, received := c, s, reliable, s, [], [], [];
    }

    ghost predicate Grown(before: seq<Step>)
      reads this
    {
      before <= steps
    }

    method Take(step: Step)
      requires Valid() && Enabled(c, s, step)
      modifies this
      ensures Valid() && s == Next(c, old(s), step) && steps == old(steps) + [step]
      ensures sent == old(sent) + SenderCall(old(s), step) && received == old(received) + ReceiverCall(step)
    {
      hide Next, Enabled, Unshared, Init;
      RunThenStep(c, start, steps, step);
      StepKeepsUnshared(c, s, step);
      SenderCallsThenStep(c, start, steps, step);
      ReceiverCallsThenStep(steps, step);
      sent, received := sent + SenderCall(s, step), received + ReceiverCall(step);
      s := Next(c, s, step);
      steps := steps + [step];
    }

    /** The sender's turn: its call takes one step of the protocol after the others have run. */
    ghost predicate SenderUnchanged(before: State, callsBefore: seq<Call>)
      reads this
    {
      s.sender == before.sender && s.rollbacks == before.rollbacks && s.notified == before.notified &&
      sent == callsBefore &&
      (before.disturbed ==> s.disturbed)
    }

    ghost predicate ReceiverUnchanged(before: State, callsBefore: seq<Call>)
      reads this
    {
      s.receiver == before.receiver && (before.notified ==> s.notified) && received == callsBefore &&
      s.chowns == before.chowns && s.listings == before.listings &&
      (!s.disturbed ==> s.target == before.target && !before.disturbed)
    }

    /** Any number of steps of the others: the receiver if it is the sender's turn, and the reverse. */
    method Interfere(senderTurn: bool)
      requires Valid()
      modifies this
      ensures Valid() && Grown(old(steps))
      ensures senderTurn ==> SenderUnchanged(old(s), old(sent))
      ensures !senderTurn ==> ReceiverUnchanged(old(s), old(received))
    {
      hide IsRun, After, Init, Next, Enabled, Unshared, SenderCalls, ReceiverCalls;
      var rounds: nat := *;
      while rounds > 0
        invariant Valid() && Grown(old(steps))
        invariant senderTurn ==> SenderUnchanged(old(s), old(sent))
        invariant !senderTurn ==> ReceiverUnchanged(old(s), old(received))
      {
        var step: Step := *;
        if Enabled(c, s, step) && !(if senderTurn then IsSenderStep(step) else IsReceiverStep(step)) {
          if senderTurn {
            SenderFrame(c, s, step);
            DisturbedStays(c, s, step);
          } else {
            ReceiverFrame(c, s, step);
            TargetFrame(c, s, step);
          }
          Take(step);
        }
        rounds := rounds - 1;
      }
    }

    ghost predicate SenderDone()
      reads this
    {
      s.sender.Finished? || s.sender.Stuck?
    }

    /** Nothing of the sender's own fails and nobody else writes. */
    ghost predicate Smooth()
      reads this
    {
      reliable && c.senderKey in c.sourceAuths && !s.disturbed
    }

    /** Widening the object's ownership. Every call first lets the others run, and may fail on its own account. */
    method WidenOwnership() returns (ok: bool)
      requires Valid() && s.sender.Ready?
      modifies this
      ensures Valid() && Grown(old(steps)) && sent == old(sent) + [WidenOwners]
      ensures if ok then s.sender.Widened? && s.rollbacks == [ChownBack] else s.sender == Finished(false)
      ensures Smooth() ==> ok
    {
      hide IsRun, After, Init, Lists, AddedTo, SenderCalls, ReceiverCalls;
      Interfere(true);
      assert Smooth() ==> ObjectAccepts(s, s.objectHandle, c.senderKey);
      var lost: bool := *;
      Take(Widen(reliable || !lost));
      ok := s.sender.Widened?;
    }

    method RemoveFromSource() returns (ok: bool)
      requires Valid() && s.sender.Widened? && s.rollbacks == [ChownBack]
      modifies this
      ensures Valid() && Grown(old(steps)) && sent == old(sent) + [RemoveFromInventory]
      ensures if ok then s.sender.Unlisted? && s.rollbacks == [ChownBack] + [Relist]
              else s.sender == RollingBack([ChownBack])
      ensures Smooth() ==> ok
      ensures old(s.disturbed) ==> s.disturbed
    {
      hide IsRun, After, Init, Lists, AddedTo, SenderCalls, ReceiverCalls;
      Interfere(true);
      assert Smooth() ==> SourceAccepts(c, s);
      var lost: bool := *;
      Take(Unlist(reliable || !lost));
      ok := s.sender.Unlisted?;
    }

    method SubscribeToObject() returns (ok: bool)
      requires Valid() && s.sender.Unlisted?
      modifies this
      ensures Valid() && Grown(old(steps)) && s.rollbacks == old(s.rollbacks) && sent == old(sent) + [SubscribeToTree]
      ensures if ok then s.sender.Listening? else s.sender == RollingBack(s.rollbacks)
      ensures reliable ==> ok
      ensures old(s.disturbed) ==> s.disturbed
    {
      hide IsRun, After, Init, Unshared, Lists, AddedTo, SenderCalls, ReceiverCalls;
      Interfere(true);
      var lost: bool := *;
      ok := reliable || !lost;
      Take(Subscribe(ok));
    }

    method NotifyTarget() returns (ok: bool)
      requires Valid() && s.sender.Listening?
      modifies this
      ensures Valid() && Grown(old(steps)) && s.rollbacks == old(s.rollbacks) && sent == old(sent) + [TellTarget]
      ensures if ok then s.sender.Waiting? else s.sender == RollingBack(s.rollbacks)
      ensures reliable ==> ok
      ensures s.notified && (old(s.disturbed) ==> s.disturbed)
    {
      hide IsRun, After, Init, Unshared, Lists, AddedTo, SenderCalls, ReceiverCalls;
      Interfere(true);
      var lost: bool := *;
      ok := reliable || !lost;
      Take(Notify(ok));
    }

    /**
     The future completes on any block of the object after the subscription, or times out; inTime says that it does
     not time out first. The answer is about the moment in which the wait ends.
     */
    method AwaitObjectChange(inTime: bool) returns (ok: bool, ghost at: nat)
      requires Valid() && s.sender.Waiting?
      modifies this
      ensures Valid() && Grown(old(steps)) && s.rollbacks == old(s.rollbacks) && sent == old(sent) + [Await]
      ensures s.sender == if ok then Finished(true) else RollingBack(s.rollbacks)
      ensures |old(steps)| <= at < |steps| && (ok <==> inTime && HasNewBlock(c, start, steps, at))
      ensures (old(s.disturbed) ==> s.disturbed) && (old(s.notified) ==> s.notified)
    {
      hide IsRun, After, Init, Unshared, Lists, AddedTo, SenderCalls, ReceiverCalls;
      Interfere(true);
      ok, at := inTime && s.Tip() > s.listenFrom, |steps|;
      ghost var before := steps;
      if ok {
        Take(Confirm);
      } else {
        Take(TimeOut);
      }
      assert steps[..at] == before;
    }

    method RunRollback() returns (ok: bool)
      requires Valid() && s.sender.RollingBack? && s.sender.todo != []
      modifies this
      ensures Valid() && Grown(old(steps)) && sent == old(sent) + [Undo(old(s.sender.todo[0]))]
      ensures s.sender == if ok then RollingBack(old(s.sender.todo[1..])) else Stuck
      ensures (old(s.disturbed) ==> s.disturbed) && (old(s.notified) ==> s.notified)
    {
      hide IsRun, After, Init, Unshared, Lists, SenderCalls, ReceiverCalls;
      Interfere(true);
      var lost: bool := *;
      var otherKeepsName: bool := *;
      Take(RollBack(reliable || !lost, Listed(s.sourceHandle.names, otherKeepsName)));
      ok := s.sender.RollingBack?;
    }

    /** A listing with the object added, where a contested name may stay with the other object. */
    function Listed(names: Listing, otherKeepsName: bool): (r: Listing)
      ensures AddedTo(names, c.did, c.name, r)
    {
      if otherKeepsName && c.name in names then names else names[c.name := c.did]
    }

    /** handleRollbacks: in the order they were added, stopping at the first that fails; done counts those called. */
    method HandleRollbacks(rollbackFuncs: seq<Rollback>) returns (done: nat)
      requires Valid() && s.sender == RollingBack(rollbackFuncs)
      modifies this
      ensures Valid() && Grown(old(steps)) && (s.sender == Finished(false) || s.sender.Stuck?)
      ensures done <= |rollbackFuncs| && sent == old(sent) + Undos(rollbackFuncs[..done])
      ensures if s.sender.Stuck? then done > 0 else done == |rollbackFuncs|
      ensures (old(s.disturbed) ==> s.disturbed) && (old(s.notified) ==> s.notified)
    {
      hide IsRun, After, Init, Unshared, Lists, SenderCalls, ReceiverCalls;
      done := 0;
      while done < |rollbackFuncs|
        invariant done <= |rollbackFuncs| && Valid() && Grown(old(steps))
        invariant s.sender == RollingBack(rollbackFuncs[done..])
        invariant sent == old(sent) + Undos(rollbackFuncs[..done])
        invariant (old(s.disturbed) ==> s.disturbed) && (old(s.notified) ==> s.notified)
      {
        assert rollbackFuncs[done..][1..] == rollbackFuncs[done + 1..];
        assert Undos(rollbackFuncs[..done + 1]) == Undos(rollbackFuncs[..done]) + [Undo(rollbackFuncs[done])];
        var ok := RunRollback();
        done := done + 1;
        if !ok {
          return;
        }
      }
      Take(RollBack(true, s.sourceHandle.names));
    }

    /** UnrestrictedRemoveHandler.Handle, once all its lookups have succeeded. */
    method HandleRequestObjectTransfer(inTime: bool)
      returns (success: bool, ghost calls: nat, ghost undone: nat, ghost at: nat)
      requires Valid() && s.sender.Ready?
      modifies this
      ensures Valid() && Grown(old(steps)) && SenderDone()
      ensures success <==> s.sender == Finished(true)
      ensures calls > 0 && SentAll(old(sent), sent, calls, undone) && (success ==> calls == 5 && undone == 0)
      ensures !success ==> if s.sender.Stuck? then undone > 0 else undone == |UndoneAfter(calls)|
      ensures calls == 5 ==> |old(steps)| <= at <= |steps| && (success <==> inTime && HasNewBlock(c, start, steps, at))
      ensures (Smooth() ==> calls == 5) && (calls > 3 ==> s.notified)
      ensures Outsider(c) && Proper(c, start) && !s.disturbed ==>
                if s.chowns > 0 then Taken(c, start, s) else Restored(c, start, s) && s.sender == Finished(false)
    {
      success, calls, undone, at := RunSender(inTime);
      if !s.disturbed {
        hide IsRun, After, Init, Unshared, Lists;
        Settled();
      }
    }

    lemma Settled()
      requires Valid() && SenderDone() && !s.disturbed
      ensures Outsider(c) && Proper(c, start) ==>
                if s.chowns > 0 then Taken(c, start, s) else Restored(c, start, s) && s.sender == Finished(false)
    {
      hide IsRun, Init, Taken, Restored;
      if Outsider(c) && Proper(c, start) {
        NothingIsLost(c, start, steps);
      }
    }

    method Fail(rollbacks: seq<Rollback>, ghost before: seq<Call>, ghost calls: nat) returns (undone: nat)
      requires Valid() && s.sender == RollingBack(rollbacks) && SentAll(before, sent, calls, 0)
      requires rollbacks == UndoneAfter(calls)
      modifies this
      ensures Valid() && Grown(old(steps)) && (s.sender == Finished(false) || s.sender.Stuck?)
      ensures SentAll(before, sent, calls, undone)
      ensures if s.sender.Stuck? then undone > 0 else undone == |UndoneAfter(calls)|
      ensures (old(s.disturbed) ==> s.disturbed) && (old(s.notified) ==> s.notified)
    {
      hide Valid, SentAll, Undos, UndoneAfter;
      ghost var sentBefore := sent;
      undone := HandleRollbacks(rollbacks);
      UndosSent(before, sentBefore, calls, undone);
    }

    method RunSender(inTime: bool) returns (success: bool, ghost calls: nat, ghost undone: nat, ghost at: nat)
      requires Valid() && s.sender.Ready?
      modifies this
      ensures Valid() && Grown(old(steps)) && SenderDone()
      ensures success <==> s.sender == Finished(true)
      ensures calls > 0 && SentAll(old(sent), sent, calls, undone) && (success ==> calls == 5 && undone == 0)
      ensures !success ==> if s.sender.Stuck? then undone > 0 else undone == |UndoneAfter(calls)|
      ensures calls == 5 ==> |old(steps)| <= at <= |steps| && (success <==> inTime && HasNewBlock(c, start, steps, at))
      ensures (Smooth() ==> calls == 5) && (calls > 3 ==> s.notified)
    {
      ghost var before := sent;
      FirstSent(before);
      hide Valid, SentAll, HasNewBlock, After;
      var rollbacks: seq<Rollback> := [];
      calls, undone, at := 1, 0, |steps|;
      success := WidenOwnership();
      if !success {
        return;
      }
      rollbacks, calls := rollbacks + [ChownBack], 2;
      assert rollbacks == UndoneAfter(2);
      OneMoreSent(before, sent, 1);
      success := RemoveFromSource();
      if !success {
        undone := Fail(rollbacks, before, calls);
        return;
      }
      rollbacks := rollbacks + [Relist];
      success, calls, undone, at := TellAndAwait(rollbacks, inTime, before);
    }

    /** The part after which the target knows of the object. */
    method TellAndAwait(rollbacks: seq<Rollback>, inTime: bool, ghost before: seq<Call>)
      returns (success: bool, ghost calls: nat, ghost undone: nat, ghost at: nat)
      requires Valid() && s.sender.Unlisted? && rollbacks == UndoneAfter(3) == s.rollbacks
      requires SentAll(before, sent, 2, 0)
      modifies this
      ensures Valid() && Grown(old(steps)) && SenderDone()
      ensures success <==> s.sender == Finished(true)
      ensures calls > 2 && SentAll(before, sent, calls, undone) && (success ==> calls == 5 && undone == 0)
      ensures !success ==> if s.sender.Stuck? then undone > 0 else undone == |UndoneAfter(calls)|
      ensures calls == 5 ==> |old(steps)| <= at <= |steps| && (success <==> inTime && HasNewBlock(c, start, steps, at))
      ensures reliable ==> calls == 5
      ensures (old(s.disturbed) ==> s.disturbed) && (calls > 3 ==> s.notified)
    {
      BothUndone();
      hide Valid, SentAll, HasNewBlock, After, UndoneAfter;
      calls, undone, at := 3, 0, |steps|;
      OneMoreSent(before, sent, 2);
      success := SubscribeToObject();
      if !success {
        undone := Fail(rollbacks, before, calls);
        return;
      }
      calls := 4;
      OneMoreSent(before, sent, 3);
      success := NotifyTarget();
      if !success {
        undone := Fail(rollbacks, before, calls);
        return;
      }
      OneMoreSent(before, sent, 4);
      calls := 5;
      success, undone, at := AwaitOrUndo(rollbacks, inTime, before);
    }

    method AwaitOrUndo(rollbacks: seq<Rollback>, inTime: bool, ghost before: seq<Call>)
      returns (success: bool, ghost undone: nat, ghost at: nat)
      requires Valid() && s.sender.Waiting? && rollbacks == UndoneAfter(5) == s.rollbacks
      requires SentAll(before, sent + [Await], 5, 0)
      modifies this
      ensures Valid() && Grown(old(steps)) && SenderDone()
      ensures success <==> s.sender == Finished(true)
      ensures SentAll(before, sent, 5, undone) && (success ==> undone == 0)
      ensures !success ==> if s.sender.Stuck? then undone > 0 else undone == |UndoneAfter(5)|
      ensures |old(steps)| <= at <= |steps| && (success <==> inTime && HasNewBlock(c, start, steps, at))
      ensures (old(s.disturbed) ==> s.disturbed) && (old(s.notified) ==> s.notified)
    {
      hide Valid, SentAll, HasNewBlock, After, UndoneAfter;
      undone := 0;
      success, at := AwaitObjectChange(inTime);
      if !success {
        ghost var past := steps;
        undone := Fail(rollbacks, before, 5);
        MoreSteps(c, start, past, steps, at);
      }
    }

    /**
     UnrestrictedAddHandler.Handle, once its lookups have succeeded. Alone, nobody else writes meanwhile; lag says how
     far behind the object is read.
     */
    method HandleTransferredObject(alone: bool, lag: nat) returns (ok: bool, ghost calls: nat)
      requires Valid() && s.receiver.Idle? && s.notified
      modifies this
      ensures Valid() && Grown(old(steps)) && s.receiver.Idle?
      ensures 1 <= calls <= 4 && received == old(received) + RECEIVE[..calls]
      ensures s.listings == old(s.listings) + (if calls == 4 then 1 else 0)
      ensures s.chowns == old(s.chowns) + (if calls == 4 && ok then 1 else 0)
      ensures calls == 1 ==> ok && Lists(s.target.names, c.did)
      ensures calls == 2 ==> !ok && exists seen :: 0 <= seen < |s.owners| && c.receiverKey !in s.owners[seen]
      ensures calls == 4 ==> exists seen :: 0 <= seen < |s.owners| && c.receiverKey in s.owners[seen]
      ensures calls <= 2 ==> alone ==> s.target == old(s.target) && s.owners == old(s.owners)
      ensures alone && lag == 0 && !Lists(old(s.target.names), c.did) ==>
                (calls == 2 <==> c.receiverKey !in old(s.Owners()))
      ensures alone ==> (calls == 1 <==> Lists(old(s.target.names), c.did))
      ensures calls == 3 ==> !ok && (!reliable || c.receiverKey !in c.targetAuths || s.disturbed)
      ensures reliable && alone && !Lists(old(s.target.names), c.did) && lag == 0 &&
              c.receiverKey in old(s.Owners()) && c.receiverKey in c.targetAuths
              ==> calls == 4 && ok && s.Owners() == c.targetAuths
    {
      hide IsRun, After, Init, Unshared, Lists, SenderCalls, ReceiverCalls;
      if !alone {
        Interfere(false);
      }
      Take(Fetch);
      calls := 1;
      if s.receiver.Idle? {
        return true, calls;
      }
      var isOwner := CheckOwner(alone, lag);
      calls := 2;
      if !isOwner {
        return false, calls;
      }
      var listed := AddToTarget(alone);
      calls := 3;
      if !listed {
        return false, calls;
      }
      ok := ChangeOwnerToTarget(alone);
      calls := 4;
      OwnerListed();
    }

    lemma OwnerListed()
      requires Valid()
      ensures s.listings > 0 ==> exists seen :: 0 <= seen < |s.owners| && c.receiverKey in s.owners[seen]
    {
      hide Next, Unshared;
      OnlyOwnersList(c, start, steps);
    }

    /** Reads the object's owners, perhaps from an old tip. */
    method CheckOwner(alone: bool, lag: nat) returns (isOwner: bool)
      requires Valid() && s.receiver.Fetched?
      modifies this
      ensures Valid() && Grown(old(steps)) && received == old(received) + [ReadOwners]
      ensures s.chowns == old(s.chowns) && s.listings == old(s.listings)
      ensures !s.disturbed ==> s.target == old(s.target) && !old(s.disturbed)
      ensures if isOwner then s.receiver.Checked? && s.receiver.target == old(s.receiver.target) else s.receiver.Idle?
      ensures !isOwner ==> exists seen :: 0 <= seen < |s.owners| && c.receiverKey !in s.owners[seen]
      ensures isOwner ==> s.receiver.seen < |s.owners| && c.receiverKey in s.owners[s.receiver.seen]
      ensures alone && lag == 0 ==> (isOwner <==> c.receiverKey in old(s.Owners()))
      ensures alone ==> s.owners == old(s.owners) && s.target == old(s.target)
      ensures alone && lag == 0 && c.receiverKey in old(s.Owners()) ==> isOwner && s.receiver.seen == s.Tip()
    {
      hide IsRun, After, Init, Lists, SenderCalls, ReceiverCalls;
      if !alone {
        Interfere(false);
      }
      var seen := if lag < |s.owners| then |s.owners| - 1 - lag else 0;
      Take(Check(seen));
      isOwner := s.receiver.Checked?;
    }

    method AddToTarget(alone: bool) returns (ok: bool)
      requires Valid() && s.receiver.Checked?
      modifies this
      ensures Valid() && Grown(old(steps)) && received == old(received) + [AddToInventory]
      ensures s.chowns == old(s.chowns) && s.listings == old(s.listings) + (if ok then 1 else 0)
      ensures if ok then s.receiver == Added(old(s.receiver.seen)) else s.receiver.Idle?
      ensures alone ==> s.owners == old(s.owners)
      ensures old(s.disturbed) ==> s.disturbed
      ensures reliable && c.receiverKey in c.targetAuths && old(s.receiver.target == s.target) ==>
                (alone || !s.disturbed ==> ok)
    {
      hide IsRun, After, Init, Unshared, Lists, SenderCalls, ReceiverCalls;
      if !alone {
        Interfere(false);
      }
      var lost: bool := *;
      var otherKeepsName: bool := *;
      Take(List(reliable || !lost, Listed(s.receiver.target.names, otherKeepsName)));
      ok := s.receiver.Added?;
    }

    method ChangeOwnerToTarget(alone: bool) returns (ok: bool)
      requires Valid() && s.receiver.Added?
      modifies this
      ensures Valid() && Grown(old(steps)) && received == old(received) + [ChangeOwner] && s.receiver.Idle?
      ensures s.listings == old(s.listings) && s.chowns == old(s.chowns) + (if ok then 1 else 0)
      ensures reliable && alone && old(s.receiver.seen == s.Tip()) && c.receiverKey in old(s.Owners()) ==>
                ok && s.Owners() == c.targetAuths
    {
      hide IsRun, After, Init, Unshared, Lists, SenderCalls, ReceiverCalls;
      if !alone {
        Interfere(false);
      }
      var lost: bool := *;
      ghost var before := s.chowns;
      ok := (reliable || !lost) && ObjectAccepts(s, s.receiver.seen, c.receiverKey);
      Take(Chown(reliable || !lost));
    }
  }
}
