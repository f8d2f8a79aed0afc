/** importer/importer.go, convertImportInteraction: nested imported interactions become stored ones. */
module InteractionImport {
  import opened Wrappers
  import opened Interactions

  /**
   The attributes with the command of the enclosing interaction filled in where they have none. The source writes
   the command into the attributes before it converts them; chain items and failure branches inherit it this way,
   success branches do not.
   */
  function Fields(attrs: ImportInteraction, inherited: Option<string>): map<string, Attribute> {
    var entries := if attrs.value.Attributes? then attrs.value.entries else map[];
    if "command" in entries || inherited.None? then entries else entries["command" := Text(inherited.value)]
  }

  /** A nil map cannot take the inherited command. */
  predicate CannotInherit(attrs: ImportInteraction, inherited: Option<string>) {
    inherited.Some? && attrs.value.NoAttributes?
  }

  function TextField(attrs: ImportInteraction, inherited: Option<string>, field: string): Option<string> {
    var fields := Fields(attrs, inherited);
    if field in fields && IsText(fields[field]) then Some(fields[field].text) else None
  }

  predicate HasField(attrs: ImportInteraction, field: string) {
    attrs.value.Attributes? && field in attrs.value.entries
  }

  datatype Outcome = Fine | Fails | Panics

  /** Whether a conversion succeeds, independent of the random nonces. */
  function ConvertOutcome(attrs: ImportInteraction, inherited: Option<string>): Outcome
    decreases attrs, 1
  {
    if CannotInherit(attrs, inherited) then Panics
    else if attrs.typ == "CipherInteraction" then
      if TextField(attrs, inherited, "command").None? || TextField(attrs, inherited, "secret").None? ||
         !HasField(attrs, "success_interaction") then Fails
      else
        var success := PartOutcome(attrs.value.entries["success_interaction"], None);
        if !success.Fine? then success
        else if !HasField(attrs, "failure_interaction") then Fails
        else PartOutcome(attrs.value.entries["failure_interaction"], TextField(attrs, inherited, "command"))
    else if attrs.typ == "ChainedInteraction" then
      if TextField(attrs, inherited, "command").None? || !HasField(attrs, "interactions") then Fails
      else
        var items := attrs.value.entries["interactions"];
        if !items.List? || items.items == [] then Fails
        else PartsOutcome(items.items, TextField(attrs, inherited, "command"))
    else if attrs.typ in LEAF_TYPES then Fine
    else Fails
  }

  /** A part is a mapping, or a text that holds one. */
  predicate IsInteraction(part: Attribute) {
    part.Mapping? || (part.Document? && part.content.Some?)
  }

  function InteractionIn(part: Attribute): ImportInteraction
    requires IsInteraction(part)
  {
    if part.Mapping? then part.interaction else part.content.value
  }

  /** Nothing there, or a text with nothing in it. */
  predicate IsNil(part: Attribute) {
    part.Null? || (part.Document? && part.content.None?)
  }

  /** A nil part panics when its type is read; one that is no mapping cannot be cast. */
  function PartOutcome(part: Attribute, inherited: Option<string>): Outcome
    decreases part, 1
  {
    if IsInteraction(part) then ConvertOutcome(InteractionIn(part), inherited)
    else if IsNil(part) then Panics
    else Fails
  }

  function PartsOutcome(parts: seq<Attribute>, inherited: Option<string>): Outcome
    decreases parts
  {
    if parts == [] then Fine
    else
      var first := PartOutcome(parts[0], inherited);
      if !first.Fine? then first else PartsOutcome(parts[1..], inherited)
  }

  /**
   What can be converted: a chain has a command and at least one item, a cipher a command, a secret and both branches,
   and every part is an interaction that can be converted in its turn; anything else is of a known type.
   */
  ghost predicate WellFormed(attrs: ImportInteraction, inherited: Option<string>)
    decreases attrs, 1
  {
    (inherited.Some? ==> attrs.value.Attributes?) &&
    if attrs.typ == "CipherInteraction" then
      TextField(attrs, inherited, "command").Some? && TextField(attrs, inherited, "secret").Some? &&
      HasField(attrs, "success_interaction") && HasField(attrs, "failure_interaction") &&
      WellFormedPart(attrs.value.entries["success_interaction"], None) &&
      WellFormedPart(attrs.value.entries["failure_interaction"], TextField(attrs, inherited, "command"))
    else if attrs.typ == "ChainedInteraction" then
      TextField(attrs, inherited, "command").Some? && HasField(attrs, "interactions") &&
      attrs.value.entries["interactions"].List? &&
      var items := attrs.value.entries["interactions"].items;
      |items| > 0 && forall k | 0 <= k < |items| :: WellFormedPart(items[k], TextField(attrs, inherited, "command"))
    else attrs.typ in LEAF_TYPES
  }

  ghost predicate WellFormedPart(part: Attribute, inherited: Option<string>)
    decreases part, 1
  {
    match part
    case Mapping(interaction) => WellFormed(interaction, inherited)
    case Document(_, Some(interaction)) => WellFormed(interaction, inherited)
    case _ => false
  }

  lemma {:induction false} FineIffWellFormed(attrs: ImportInteraction, inherited: Option<string>)
    ensures ConvertOutcome(attrs, inherited).Fine? <==> WellFormed(attrs, inherited)
    decreases attrs, 1
  {
    if HasField(attrs, "success_interaction") {
      PartFineIff(attrs.value.entries["success_interaction"], None);
    }
    if HasField(attrs, "failure_interaction") {
      PartFineIff(attrs.value.entries["failure_interaction"], TextField(attrs, inherited, "command"));
    }
    if HasField(attrs, "interactions") && attrs.value.entries["interactions"].List? {
      PartsFineIff(attrs.value.entries["interactions"].items, TextField(attrs, inherited, "command"));
    }
    hide PartOutcome, PartsOutcome, WellFormedPart;
  }

  lemma {:induction false} PartFineIff(part: Attribute, inherited: Option<string>)
    ensures PartOutcome(part, inherited).Fine? <==> WellFormedPart(part, inherited)
    decreases part, 1
  {
    if IsInteraction(part) {
      FineIffWellFormed(InteractionIn(part), inherited);
    }
  }

  lemma {:induction false} PartsFineIff(parts: seq<Attribute>, inherited: Option<string>)
    ensures PartsOutcome(parts, inherited).Fine? <==> forall k | 0 <= k < |parts| :: WellFormedPart(parts[k], inherited)
    decreases parts
  {
    if parts != [] {
      PartFineIff(parts[0], inherited);
      PartsFineIff(parts[1..], inherited);
      hide PartOutcome, WellFormedPart;
      assert forall k | 0 <= k < |parts| :: parts[k] == if k == 0 then parts[0] else parts[1..][k - 1];
      if forall k | 0 <= k < |parts| :: WellFormedPart(parts[k], inherited) {
        forall k | 0 <= k < |parts[1..]| ensures WellFormedPart(parts[1..][k], inherited) {
          assert parts[1..][k] == parts[k + 1];
        }
      }
    }
  }

  /** The first part that is not fine decides: a nil one panics, and one that holds no interaction is an error. */
  lemma {:induction false} FirstBadPart(parts: seq<Attribute>, inherited: Option<string>, k: nat)
    requires k < |parts| && forall j | 0 <= j < k :: PartOutcome(parts[j], inherited).Fine?
    requires !PartOutcome(parts[k], inherited).Fine?
    ensures PartsOutcome(parts, inherited) == PartOutcome(parts[k], inherited)
    ensures parts[k].Null? || parts[k] == Document("", None) ==> PartsOutcome(parts, inherited).Panics?
    ensures parts[k].Text? || parts[k].List? || parts[k].Other? ==> PartsOutcome(parts, inherited).Fails?
  {
    if k > 0 {
      FirstBadPart(parts[1..], inherited, k - 1);
    }
  }

  /** The command a part has of its own. */
  function OwnCommand(part: Attribute): Option<string> {
    if IsInteraction(part) then TextField(InteractionIn(part), None, "command") else None
  }

  predicate HasOwnCommand(part: Attribute) {
    IsInteraction(part) && HasField(InteractionIn(part), "command")
  }

  /** A part that has no command of its own is stored under the one it inherits, if it inherits any. */
  lemma PartCommand(part: Attribute, inherited: Option<string>, bytes: Bytes)
    requires EncodesPart(part, inherited, bytes)
    ensures !HasOwnCommand(part) && inherited.Some? ==> GetCommand(bytes.value) == inherited.value
    ensures !HasOwnCommand(part) && inherited.None? ==> GetCommand(bytes.value) == ""
    ensures HasOwnCommand(part) && OwnCommand(part).Some? ==> GetCommand(bytes.value) == OwnCommand(part).value
  {
  }

  /** Chain items and failure branches inherit the command of what they are part of, success branches do not. */
  lemma PartsInherit(attrs: ImportInteraction, i: Interaction)
    requires Compiles(attrs, None, i)
    ensures i.Chained? && attrs.typ == "ChainedInteraction" ==>
              var items := attrs.value.entries["interactions"].items;
              |i.interactionsBytes| == |items| &&
              forall k | 0 <= k < |items| && !HasOwnCommand(items[k]) ::
                GetCommand(i.interactionsBytes[k].value) == i.command
    ensures i.Cipher? && attrs.typ == "CipherInteraction" ==>
              (!HasOwnCommand(attrs.value.entries["failure_interaction"]) ==>
                 GetCommand(i.failureBytes.value) == i.command) &&
              (!HasOwnCommand(attrs.value.entries["success_interaction"]) ==>
                 GetCommand(i.sealedBytes.payload.value) == "")
  {
    var command := TextField(attrs, None, "command");
    if attrs.typ == "ChainedInteraction" {
      var items := attrs.value.entries["interactions"].items;
      forall k | 0 <= k < |items|
        ensures !HasOwnCommand(items[k]) ==> GetCommand(i.interactionsBytes[k].value) == i.command
      {
        PartCommand(items[k], command, i.interactionsBytes[k]);
      }
    } else if attrs.typ == "CipherInteraction" {
      PartCommand(attrs.value.entries["failure_interaction"], command, i.failureBytes);
      PartCommand(attrs.value.entries["success_interaction"], None, i.sealedBytes.payload);
    }
  }

  ghost predicate EncodesPart(part: Attribute, inherited: Option<string>, bytes: Bytes)
    decreases part, 1
  {
    IsInteraction(part) && InteractionFromCbor(bytes).Ok? && Compiles(InteractionIn(part), inherited, bytes.value)
  }

  /** i is what the conversion makes of attrs, under some choice of nonces. */
  ghost predicate Compiles(attrs: ImportInteraction, inherited: Option<string>, i: Interaction)
    decreases attrs, 1
  {
    ConvertOutcome(attrs, inherited).Fine? &&
    if attrs.typ == "CipherInteraction" then
      i.Cipher? && Some(i.command) == TextField(attrs, inherited, "command") &&
      Some(i.sealedBytes.key) == SealKey(TextField(attrs, inherited, "secret"), i.sealedBytes.nonce) &&
      EncodesPart(attrs.value.entries["success_interaction"], None, i.sealedBytes.payload) &&
      EncodesPart(attrs.value.entries["failure_interaction"], TextField(attrs, inherited, "command"), i.failureBytes)
    else if attrs.typ == "ChainedInteraction" then
      i.Chained? && Some(i.command) == TextField(attrs, inherited, "command") &&
      EncodesParts(attrs.value.entries["interactions"].items, TextField(attrs, inherited, "command"),
                   i.interactionsBytes)
    else i == Leaf(attrs.typ, Fields(attrs, inherited))
  }

  function SealKey(secret: Option<string>, nonce: nat): Option<Key> {
    if secret.Some? then Some(Scrypt(secret.value, nonce)) else None
  }

  ghost predicate EncodesParts(parts: seq<Attribute>, inherited: Option<string>, bytes: seq<Bytes>)
    decreases parts
  {
    |bytes| == |parts| && forall k | 0 <= k < |parts| :: EncodesPart(parts[k], inherited, bytes[k])
  }

  /** inherited is the command the source has just written into the attributes. */
  method ConvertImportInteraction(attrs: ImportInteraction, inherited: Option<string>) returns (r: Result<Interaction>)
    ensures r.Ok? <==> ConvertOutcome(attrs, inherited).Fine?
    ensures r.Panicked? <==> ConvertOutcome(attrs, inherited).Panics?
    ensures r.Ok? ==> Compiles(attrs, inherited, r.value)
    decreases attrs, 2
  {
    if CannotInherit(attrs, inherited) {
      return Panicked;
    }
    if attrs.typ == "" {
      return Err("Interaction must have type set");
    }
    match attrs.typ {
      case "CipherInteraction" => r := ConvertCipher(attrs, inherited);
      case "ChainedInteraction" => r := ConvertChain(attrs, inherited);
      case _ =>
        if attrs.typ in LEAF_TYPES {
          r := Ok(Leaf(attrs.typ, Fields(attrs, inherited)));
        } else {
          r := Err("protobuf type not found");
        }
    }
  }

  method ConvertPart(part: Attribute, inherited: Option<string>) returns (r: Result<Interaction>)
    ensures r.Ok? <==> PartOutcome(part, inherited).Fine?
    ensures r.Panicked? <==> PartOutcome(part, inherited).Panics?
    ensures r.Ok? ==> EncodesPart(part, inherited, InteractionToCbor(r.value))
    decreases part, 3
  {
    if IsInteraction(part) {
      r := ConvertImportInteraction(InteractionIn(part), inherited);
    } else {
      r := if IsNil(part) then Panicked else Err("must be ImportInteraction");
    }
  }

  method ConvertCipher(attrs: ImportInteraction, inherited: Option<string>) returns (r: Result<Interaction>)
    requires attrs.typ == "CipherInteraction" && !CannotInherit(attrs, inherited)
    ensures r.Ok? <==> ConvertOutcome(attrs, inherited).Fine?
    ensures r.Panicked? <==> ConvertOutcome(attrs, inherited).Panics?
    ensures r.Ok? ==> Compiles(attrs, inherited, r.value)
    decreases attrs, 1
  {
    hide InteractionFromCbor, Fields, TypeUrl;
    var command := TextField(attrs, inherited, "command");
    var secret := TextField(attrs, inherited, "secret");
    if command.None? || secret.None? || !HasField(attrs, "success_interaction") {
      return Err("CipherInteraction must have command, secret and success_interaction");
    }
    var success := ConvertPart(attrs.value.entries["success_interaction"], None);
    if !success.Ok? {
      return success;
    }
    if !HasField(attrs, "failure_interaction") {
      return Err("CipherInteraction must have failure_interaction");
    }
    var failure := ConvertPart(attrs.value.entries["failure_interaction"], command);
    if !failure.Ok? {
      return failure;
    }
    var nonce: nat := *;
    r := Ok(NewCipherInteraction(command.value, secret.value, success.value, failure.value, nonce));
  }

  method ConvertChain(attrs: ImportInteraction, inherited: Option<string>) returns (r: Result<Interaction>)
    requires attrs.typ == "ChainedInteraction" && !CannotInherit(attrs, inherited)
    ensures r.Ok? <==> ConvertOutcome(attrs, inherited).Fine?
    ensures r.Panicked? <==> ConvertOutcome(attrs, inherited).Panics?
    ensures r.Ok? ==> Compiles(attrs, inherited, r.value)
    decreases attrs, 1
  {
    hide InteractionFromCbor, Fields, TypeUrl, EncodesPart, DecodeAll, PartOutcome;
    var command := TextField(attrs, inherited, "command");
    if command.None? {
      return Err("ChainedInteraction must have command");
    }
    if !HasField(attrs, "interactions") {
      return Err("ChainedInteraction must have an array of interactions");
    }
    var list := attrs.value.entries["interactions"];
    if !list.List? || list.items == [] {
      return Err("ChainedInteraction must have one or more valid Interactions");
    }
    var items := list.items;
    var interactions: seq<Interaction> := [];
    for k := 0 to |items|
      invariant |interactions| == k
      invariant PartsOutcome(items, command) == PartsOutcome(items[k..], command)
      invariant forall j | 0 <= j < k :: EncodesPart(items[j], command, InteractionToCbor(interactions[j]))
    {
      assert items[k..][1..] == items[k + 1..];
      var interaction := ConvertPart(items[k], command);
      if !interaction.Ok? {
        return interaction;
      }
      interactions := interactions + [interaction.value];
    }
    var chain := NewChainedInteraction(command.value, interactions);
    ChainEncodes(items, command, interactions, chain.interactionsBytes);
    r := Ok(chain);
  }

  lemma ChainEncodes(items: seq<Attribute>, command: Option<string>, interactions: seq<Interaction>, bytes: seq<Bytes>)
    requires |items| == |interactions| && DecodeAll(bytes) == Ok(interactions)
    requires forall k | 0 <= k < |items| :: EncodesPart(items[k], command, InteractionToCbor(interactions[k]))
    ensures EncodesParts(items, command, bytes)
  {
    hide Compiles, TypeUrl;
    forall k | 0 <= k < |items| ensures EncodesPart(items[k], command, bytes[k]) {
      assert EncodesPart(items[k], command, InteractionToCbor(interactions[k]));
    }
  }
}
