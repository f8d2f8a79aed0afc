/**
 game/inventory.go, handleTransferObject: the checks an inventory makes before it asks its handler to hand an object
 over. They are what the transfer protocol starts from.
 */
module InventoryActor {
  import opened Inventory
  import opened Transfer
  import opened TransferHandlers

  /** NoResponse leaves the asker to its timeout. */
  datatype Response = Done | AlreadyThere | Refused(reason: string) | NoResponse

  /** What the lookups on the way give: the trees, and whether both handlers support the messages. */
  datatype Lookups = Lookups(destination: bool, objectTree: bool, remove: bool, targetHandler: bool, add: bool)

  /** The state the sender's handler is called in, apart from what the checks establish. */
  ghost predicate Fetched(c: Config, s: State) {
    && s.owners != [] && s.Owners() == c.sourceAuths && s.objectHandle == s.Tip()
    && Injective(s.source.names) && s.source.names == s.sourceHandle.names && s.source.tip == s.sourceHandle.tip
    && Injective(s.target.names)
    && s.sender.Ready? && s.rollbacks == [] && s.receiver.Idle? && !s.notified
    && s.chownBacks == 0 && s.chowns == 0 && s.listings == 0 && !s.collided && !s.disturbed
  }

  /** All the lookups succeed and both handlers support the messages. */
  predicate AllFound(l: Lookups) {
    l.destination && l.objectTree && l.remove && l.targetHandler && l.add
  }

  /**
   The handler runs exactly on an object the source lists and the destination does not, and answers Done exactly when
   it succeeds. On a network that loses nothing, and with no other writer, it gets as far as waiting for the target.
   */
  method HandleTransferObject(c: Config, s: State, did: string, to: string, lookups: Lookups, reliable: bool,
                              inTime: bool)
    returns (response: Response, after: State)
    requires Fetched(c, s) && c.did == did
    ensures response.Done? || response.NoResponse? <==>
              did != "" && to != "" && AllFound(lookups) && Lists(s.source.names, did) && !Lists(s.target.names, did)
    ensures response.AlreadyThere? <==> did != "" && to != "" && lookups.destination && Lists(s.target.names, did)
    ensures response.Refused? || response.AlreadyThere? ==> after == s
    ensures response.Done? || response.NoResponse? ==>
              Init(c, s) && (response.Done? <==> after.sender == Finished(true)) &&
              (after.sender.Finished? || after.sender.Stuck?)
    ensures (response.Done? || response.NoResponse?) && reliable && c.senderKey in c.sourceAuths && !after.disturbed ==>
              after.notified
    ensures (response.Done? || response.NoResponse?) && Outsider(c) && Proper(c, s) && !after.disturbed ==>
              if after.chowns > 0 then Taken(c, s, after) else Restored(c, s, after) && response.NoResponse?
  {
    after := s;
    if did == "" {
      return Refused("Did is required to transfer an object"), s;
    }
    if to == "" {
      return Refused("To is required to transfer an object"), s;
    }
    if !lookups.destination {
      return Refused("error retrieving object tree for destination"), s;
    }
    if Lists(s.target.names, did) {
      return AlreadyThere, s;
    }
    if !Lists(s.source.names, did) {
      return Refused("object does not exist in inventory"), s;
    }
    if !lookups.objectTree {
      return Refused("error fetching object chaintree"), s;
    }
    if !lookups.remove {
      return Refused("transfer from inventory is not supported"), s;
    }
    if !lookups.targetHandler {
      return Refused("error fetching handler"), s;
    }
    if !lookups.add {
      return Refused("transfer to inventory is not supported"), s;
    }
    var exchange := new Exchange(c, s, reliable);
    var success := Run(exchange, inTime);
    response := if success then Done else NoResponse;
    after := exchange.s;
  }

  method Run(exchange: Exchange, inTime: bool) returns (success: bool)
    requires exchange.Valid() && exchange.s == exchange.start
    modifies exchange
    ensures exchange.Valid() && exchange.SenderDone() && (success <==> exchange.s.sender == Finished(true))
    ensures exchange.Smooth() ==> exchange.s.notified
    ensures Outsider(exchange.c) && Proper(exchange.c, exchange.start) && !exchange.s.disturbed ==>
              if exchange.s.chowns > 0 then Taken(exchange.c, exchange.start, exchange.s)
              else Restored(exchange.c, exchange.start, exchange.s) && exchange.s.sender == Finished(false)
  {
    ghost var calls, undone, at;
    success, calls, undone, at := exchange.HandleRequestObjectTransfer(inTime);
  }
}
