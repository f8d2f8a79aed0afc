/**
 game/player_inventory_handler.go: a player's inventory takes only objects the player expects, one for each time it
 was expected, and tells its subscribers of every outcome.
 */
module PlayerInventory {
  import ChainTrees

  type Did = ChainTrees.Did

  datatype Event = Event(did: Did, action: string, message: string, error: string)

  /** What the add handler does with an object it is given: listing it comes before taking it over. */
  datatype AddResult = AlreadyListed | Refused(reason: string) | Listed(ownerError: string)

  datatype Message =
    | TransferredObject(to: Did, transferred: Did, message: string, error: string, add: AddResult)
    | RequestObjectTransfer(requested: Did, removed: bool)

  datatype Input = Expect(did: Did) | Receive(msg: Message)

  /** additions holds the objects listed in the inventory, in order. */
  datatype State = State(expected: set<Did>, events: seq<Event>, additions: seq<Did>)

  const ADD := "add"
  const REMOVE := "remove"

  function AddError(add: AddResult): string {
    match add
    case AlreadyListed => ""
    case Refused(reason) => reason
    case Listed(ownerError) => ownerError
  }

  /** The error of a transferred object, empty for none. */
  function ReceiveError(player: Did, expected: set<Did>, msg: Message): string
    requires msg.TransferredObject?
  {
    if msg.to != player then "Message not intended for this player"
    else if msg.transferred !in expected then "Receive was rejected by player"
    else if msg.error != "" then msg.error
    else AddError(msg.add)
  }

  predicate ListsObject(player: Did, expected: set<Did>, msg: Message)
    requires msg.TransferredObject?
  {
    msg.to == player && msg.transferred in expected && msg.error == "" && msg.add.Listed?
  }

  function Next(player: Did, s: State, input: Input): State {
    match input
    case Expect(did) => s.(expected := s.expected + {did})
    case Receive(RequestObjectTransfer(did, removed)) =>
      if removed then s.(events := s.events + [Event(did, REMOVE, "", "")]) else s
    case Receive(TransferredObject(to, did, message, error, add)) =>
      var failure := ReceiveError(player, s.expected, input.msg);
      State(s.expected - {did},
            s.events + [Event(did, ADD, if failure == "" then message else "", failure)],
            if ListsObject(player, s.expected, input.msg) then s.additions + [did] else s.additions)
  }

  function After(player: Did, s: State, inputs: seq<Input>): State {
    if inputs == [] then s
    else Next(player, After(player, s, inputs[..|inputs| - 1]), inputs[|inputs| - 1])
  }

  function Times(did: Did, dids: seq<Did>): nat {
    multiset(dids)[did]
  }

  function Expectations(did: Did, inputs: seq<Input>): nat {
    if inputs == [] then 0
    else Expectations(did, inputs[..|inputs| - 1]) + if inputs[|inputs| - 1] == Expect(did) then 1 else 0
  }

  function Once(b: bool): nat {
    if b then 1 else 0
  }

  /**
   Over any sequence of inputs, an object is added at most as often as it was expected; one expectation is used up by
   each.
   */
  lemma {:induction false} ExpectationBound(player: Did, s: State, inputs: seq<Input>, did: Did)
    ensures var s' := After(player, s, inputs);
            Times(did, s'.additions) + Once(did in s'.expected) <=
            Times(did, s.additions) + Once(did in s.expected) + Expectations(did, inputs)
  {
    if inputs != [] {
      var n := |inputs| - 1;
      ExpectationBound(player, s, inputs[..n], did);
      var before := After(player, s, inputs[..n]);
      var after := Next(player, before, inputs[n]);
      if inputs[n].Receive? && inputs[n].msg.TransferredObject? {
        assert Times(did, before.additions + [inputs[n].msg.transferred]) ==
               Times(did, before.additions) + Once(did == inputs[n].msg.transferred);
      }
    }
  }

  /** The objects of the "add" events, in order. */
  function Added(events: seq<Event>): seq<Did> {
    if events == [] then []
    else
      var last := events[|events| - 1];
      if last.action == ADD then Added(events[..|events| - 1]) + [last.did] else Added(events[..|events| - 1])
  }

  /** The objects of the transferred-object messages, in order. */
  function Arrived(inputs: seq<Input>): seq<Did> {
    if inputs == [] then []
    else
      var last := inputs[|inputs| - 1];
      if last.Receive? && last.msg.TransferredObject? then Arrived(inputs[..|inputs| - 1]) + [last.msg.transferred]
      else Arrived(inputs[..|inputs| - 1])
  }

  lemma AddedSnoc(events: seq<Event>, event: Event)
    ensures Added(events + [event]) == if event.action == ADD then Added(events) + [event.did] else Added(events)
  {
    assert (events + [event])[..|events|] == events;
  }

  function ArrivedNow(input: Input): seq<Did> {
    if input.Receive? && input.msg.TransferredObject? then [input.msg.transferred] else []
  }

  lemma OneEvent(player: Did, s: State, input: Input)
    ensures Added(Next(player, s, input).events) == Added(s.events) + ArrivedNow(input)
  {
    hide ReceiveError, ListsObject;
    assert ADD[0] != REMOVE[0];
    var after := Next(player, s, input).events;
    if after != s.events {
      AddedSnoc(s.events, after[|s.events|]);
    }
  }

  /** Every such message publishes exactly one "add" event, of its object, in the order of the messages. */
  lemma {:induction false} OneEventEach(player: Did, s: State, inputs: seq<Input>)
    ensures Added(After(player, s, inputs).events) == Added(s.events) + Arrived(inputs)
  {
    hide Next, Added;
    if inputs != [] {
      var n := |inputs| - 1;
      OneEventEach(player, s, inputs[..n]);
      OneEvent(player, After(player, s, inputs[..n]), inputs[n]);
      assert Arrived(inputs) == Arrived(inputs[..n]) + ArrivedNow(inputs[n]);
    }
  }

  /** The last input that concerns the object is an expectation. */
  predicate ExpectedLast(did: Did, inputs: seq<Input>, initially: bool) {
    if inputs == [] then initially
    else
      match inputs[|inputs| - 1]
      case Expect(d) => d == did || ExpectedLast(did, inputs[..|inputs| - 1], initially)
      case Receive(TransferredObject(_, d, _, _, _)) => d != did && ExpectedLast(did, inputs[..|inputs| - 1], initially)
      case Receive(RequestObjectTransfer(_, _)) => ExpectedLast(did, inputs[..|inputs| - 1], initially)
  }

  /** Whatever came of it, a message leaves its object unexpected until it is expected again. */
  lemma {:induction false} ExpectedIff(player: Did, s: State, inputs: seq<Input>, did: Did)
    ensures did in After(player, s, inputs).expected <==> ExpectedLast(did, inputs, did in s.expected)
  {
    if inputs != [] {
      ExpectedIff(player, s, inputs[..|inputs| - 1], did);
    }
  }

  /** The message at this place lists its object: addressed to the player, expected, without an error, and listed. */
  predicate Admitted(player: Did, inputs: seq<Input>, i: nat, initially: set<Did>)
    requires i < |inputs|
  {
    inputs[i].Receive? && inputs[i].msg.TransferredObject? &&
    var msg := inputs[i].msg;
    msg.to == player && ExpectedLast(msg.transferred, inputs[..i], msg.transferred in initially) && msg.error == "" &&
    msg.add.Listed?
  }

  /** The objects of the admitted messages, in order. */
  function AdmittedDids(player: Did, inputs: seq<Input>, initially: set<Did>): seq<Did> {
    if inputs == [] then []
    else
      var n := |inputs| - 1;
      AdmittedDids(player, inputs[..n], initially) +
      if Admitted(player, inputs, n, initially) then [inputs[n].msg.transferred] else []
  }

  /** Over any inputs exactly the admitted objects are added, one for each such message, in their order. */
  lemma {:induction false} AdditionsExact(player: Did, s: State, inputs: seq<Input>)
    ensures After(player, s, inputs).additions == s.additions + AdmittedDids(player, inputs, s.expected)
  {
    if inputs != [] {
      var n := |inputs| - 1;
      AdditionsExact(player, s, inputs[..n]);
      if inputs[n].Receive? && inputs[n].msg.TransferredObject? {
        ExpectedIff(player, s, inputs[..n], inputs[n].msg.transferred);
      }
    }
  }

  /** The message succeeds: nothing is wrong with it, and neither listing its object nor taking it over fails. */
  predicate Succeeds(player: Did, inputs: seq<Input>, i: nat, initially: set<Did>)
    requires i < |inputs| && inputs[i].Receive? && inputs[i].msg.TransferredObject?
  {
    var msg := inputs[i].msg;
    msg.to == player && ExpectedLast(msg.transferred, inputs[..i], msg.transferred in initially) && msg.error == "" &&
    match msg.add
    case AlreadyListed => true
    case Refused(reason) => reason == ""
    case Listed(ownerError) => ownerError == ""
  }

  /** What a message's event says: no error exactly if it succeeds, and only then the text that came with it. */
  lemma EventSays(player: Did, s: State, inputs: seq<Input>, i: nat)
    requires i < |inputs| && inputs[i].Receive? && inputs[i].msg.TransferredObject?
    ensures var msg, before, after := inputs[i].msg, After(player, s, inputs[..i]), After(player, s, inputs[..i + 1]);
            |after.events| == |before.events| + 1 && before.events <= after.events &&
            var event := after.events[|before.events|];
            && event.did == msg.transferred && event.action == ADD
            && (event.error == "" <==> Succeeds(player, inputs, i, s.expected))
            && event.message == (if event.error == "" then msg.message else "")
            && (msg.to != player ==> event.error == "Message not intended for this player")
            && (msg.to == player && !ExpectedLast(msg.transferred, inputs[..i], msg.transferred in s.expected) ==>
                  event.error == "Receive was rejected by player")
  {
    assert inputs[..i + 1][..i] == inputs[..i];
    ExpectedIff(player, s, inputs[..i], inputs[i].msg.transferred);
  }

  /** A request to hand an object over is told of exactly if the object was removed, and touches nothing else. */
  lemma RemovalSays(player: Did, s: State, did: Did, removed: bool)
    ensures var after := Next(player, s, Receive(RequestObjectTransfer(did, removed)));
            after.expected == s.expected && after.additions == s.additions &&
            after.events == s.events + if removed then [Event(did, REMOVE, "", "")] else []
  {
  }

  class PlayerInventoryHandler {
    const did: Did
    var expectedObjs: map<Did, bool>
    var events: seq<Event>
    var additions: seq<Did>

    ghost function Abstract(): State
      reads this
    {
      State((set d | d in expectedObjs && expectedObjs[d]), events, additions)
    }

    constructor (did: Did)
      ensures this.did == did && Abstract() == State({}, [], [])
    {
      this.did, expectedObjs, events, additions := did, map[], [], [];
    }

    method ExpectObject(wanted: Did)
      modifies this
      ensures Abstract() == Next(did, old(Abstract()), Expect(wanted))
    {
      expectedObjs := expectedObjs[wanted := true];
    }

    /** The deferred part of Handle: it runs whichever way the message was dealt with. */
    method Conclude(msg: Message, failure: string)
      requires msg.TransferredObject?
      modifies this
      ensures expectedObjs == old(expectedObjs) - {msg.transferred} && additions == old(additions)
      ensures events == old(events) + [Event(msg.transferred, ADD, if failure == "" then msg.message else "", failure)]
    {
      expectedObjs := expectedObjs - {msg.transferred};
      if failure != "" {
        events := events + [Event(msg.transferred, ADD, "", failure)];
      } else {
        events := events + [Event(msg.transferred, ADD, msg.message, "")];
      }
    }

    method Handle(msg: Message)
      modifies this
      ensures Abstract() == Next(did, old(Abstract()), Receive(msg))
    {
      if msg.RequestObjectTransfer? {
        if msg.removed {
          events := events + [Event(msg.requested, REMOVE, "", "")];
        }
        return;
      }
      if msg.to != did {
        Conclude(msg, "Message not intended for this player");
        return;
      }
      var isExpected := msg.transferred in expectedObjs && expectedObjs[msg.transferred];
      if !isExpected {
        Conclude(msg, "Receive was rejected by player");
        return;
      }
      if msg.error != "" {
        Conclude(msg, msg.error);
        return;
      }
      if msg.add.Listed? {
        additions := additions + [msg.transferred];
      }
      Conclude(msg, AddError(msg.add));
    }

    method HandleAll(inputs: seq<Input>)
      modifies this
      ensures Abstract() == After(did, old(Abstract()), inputs)
    {
      for i := 0 to |inputs|
        invariant Abstract() == After(did, old(Abstract()), inputs[..i])
      {
        assert inputs[..i + 1][..i] == inputs[..i];
        match inputs[i] {
          case Expect(d) => ExpectObject(d);
          case Receive(msg) => Handle(msg);
        }
      }
      assert inputs[..|inputs|] == inputs;
    }
  }
}
