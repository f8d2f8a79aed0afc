/**
 game/interactions.go: stored interactions. A chain and a cipher hold their parts encoded; a cipher's success part
 is sealed under a key made from the secret. Sealing and encoding are ideal: a sealed value opens with its key
 alone, and decoding gives back what was encoded.
 */
module Interactions {
  import opened Wrappers

  /**
   The scalar, list and mapping values an imported interaction can hold. A Document is a text that, read as YAML, is a
   mapping or nothing at all; any other text stays a Text.
   */
  datatype Attribute =
    | Text(text: string)
    | Document(text: string, content: Option<ImportInteraction>)
    | Mapping(interaction: ImportInteraction)
    | List(items: seq<Attribute>)
    | Null
    | Other

  /** NoAttributes is a nil map: it can be read, not written. */
  datatype Attributes = NoAttributes | Attributes(entries: map<string, Attribute>)

  datatype ImportInteraction = ImportInteraction(typ: string, value: Attributes)

  const LEAF_TYPES := {
    "RespondInteraction", "ChangeLocationInteraction", "ChangeNamedLocationInteraction", "CreateObjectInteraction",
    "PickUpObjectInteraction", "DropObjectInteraction", "GetTreeValueInteraction", "SetTreeValueInteraction" }

  datatype Interaction =
    | Leaf(typ: string, fields: map<string, Attribute>)
    | Chained(command: string, interactionsBytes: seq<Bytes>)
    | Cipher(command: string, sealedBytes: Sealed, failureBytes: Bytes)

  datatype Bytes = Cbor(typeUrl: string, value: Interaction)

  datatype Key = Scrypt(secret: string, salt: nat)

  datatype Sealed = Sealed(nonce: nat, key: Key, payload: Bytes)

  const TYPE_PREFIX := "type.googleapis.com/jasonsgame."

  function TypeUrl(i: Interaction): string {
    match i
    case Leaf(typ, _) => TYPE_PREFIX + typ
    case Chained(_, _) => TYPE_PREFIX + "ChainedInteraction"
    case Cipher(_, _, _) => TYPE_PREFIX + "CipherInteraction"
  }

  predicate IsText(a: Attribute) {
    a.Text? || a.Document?
  }

  function FieldText(fields: map<string, Attribute>, field: string): string {
    if field in fields && IsText(fields[field]) then fields[field].text else ""
  }

  function GetCommand(i: Interaction): string {
    if i.Leaf? then FieldText(i.fields, "command") else i.command
  }

  function InteractionToCbor(i: Interaction): Bytes {
    Cbor(TypeUrl(i), i)
  }

  function InteractionFromCbor(bytes: Bytes): Result<Interaction> {
    if bytes.typeUrl == TypeUrl(bytes.value) then Ok(bytes.value) else Err("error casting interaction")
  }

  /** The parts of a chain; one that does not decode spoils them all. */
  function DecodeAll(bytes: seq<Bytes>): Result<seq<Interaction>> {
    if forall k | 0 <= k < |bytes| :: InteractionFromCbor(bytes[k]).Ok? then Ok(Values(bytes))
    else Err("error decoding interaction")
  }

  function Values(bytes: seq<Bytes>): (values: seq<Interaction>)
    ensures |values| == |bytes|
    ensures forall k | 0 <= k < |bytes| :: values[k] == bytes[k].value
  {
    if bytes == [] then [] else [bytes[0].value] + Values(bytes[1..])
  }

  method NewChainedInteraction(command: string, interactions: seq<Interaction>) returns (i: Interaction)
    ensures i.Chained? && i.command == command
    ensures DecodeAll(i.interactionsBytes) == Ok(interactions)
  {
    hide TypeUrl;
    var interactionBytes: seq<Bytes> := [];
    for k := 0 to |interactions|
      invariant |interactionBytes| == k
      invariant forall j | 0 <= j < k :: interactionBytes[j] == InteractionToCbor(interactions[j])
    {
      interactionBytes := interactionBytes + [InteractionToCbor(interactions[k])];
    }
    assert Values(interactionBytes) == interactions;
    i := Chained(command, interactionBytes);
  }

  method ChainedInteractions(interactionsBytes: seq<Bytes>) returns (r: Result<seq<Interaction>>)
    ensures r == DecodeAll(interactionsBytes)
  {
    hide TypeUrl;
    var interactions: seq<Interaction> := [];
    for k := 0 to |interactionsBytes|
      invariant |interactions| == k
      invariant forall j | 0 <= j < k :: InteractionFromCbor(interactionsBytes[j]) == Ok(interactions[j])
    {
      var interaction := InteractionFromCbor(interactionsBytes[k]);
      if !interaction.Ok? {
        return Err("error decoding interaction");
      }
      interactions := interactions + [interaction.value];
    }
    assert Values(interactionsBytes) == interactions;
    r := Ok(interactions);
  }

  /** The nonce is drawn at random. */
  function NewCipherInteraction(command: string, secret: string, toSeal: Interaction, failure: Interaction,
                                nonce: nat): Interaction {
    Cipher(command, Sealed(nonce, Scrypt(secret, nonce), InteractionToCbor(toSeal)), InteractionToCbor(failure))
  }

  function Open(sealedBytes: Sealed, key: Key): Option<Bytes> {
    if key == sealedBytes.key then Some(sealedBytes.payload) else None
  }

  function Unseal(i: Interaction, secret: string): Result<(Interaction, bool)>
    requires i.Cipher?
  {
    var unsealed := Open(i.sealedBytes, Scrypt(secret, i.sealedBytes.nonce));
    match InteractionFromCbor(if unsealed.Some? then unsealed.value else i.failureBytes)
    case Ok(next) => Ok((next, unsealed.Some?))
    case _ => Err("error decoding interaction")
  }

  /** The sealed part comes back on exactly the secret, under every nonce, and the failure part on all else. */
  lemma UnsealsOnSecretOnly(command: string, secret: string, toSeal: Interaction, failure: Interaction, nonce: nat,
                            guess: string)
    ensures Unseal(NewCipherInteraction(command, secret, toSeal, failure, nonce), guess) ==
            if guess == secret then Ok((toSeal, true)) else Ok((failure, false))
  {
  }
}
