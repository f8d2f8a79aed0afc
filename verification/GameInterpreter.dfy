/** game/game.go, handleInteractionInput: running a stored interaction, against what the imported one says. */
module GameInterpreter {
  import opened Wrappers
  import opened Interactions
  import opened InteractionImport

  /** One leaf action carried out, with the player's arguments and the did of the object it is attached to. */
  datatype LeafRun = LeafRun(typ: string, fields: map<string, Attribute>, args: string, did: string)

  type History = seq<LeafRun>

  /** What the rest of the system answers to an action, given all that was done before. */
  type World = (History, LeafRun) -> bool

  const NEVER_FAIL := { "RespondInteraction", "ChangeLocationInteraction", "ChangeNamedLocationInteraction" }

  function LeafOk(world: World, history: History, run: LeafRun): bool {
    if run.typ in NEVER_FAIL then true
    else if run.typ == "DropObjectInteraction" && FieldText(run.fields, "did") != run.did then false
    else world(history, run)
  }

  /** Actions one after another, up to and including the first that fails. */
  function RunAll(world: World, runs: seq<LeafRun>, history: History): (History, bool)
    decreases |runs|
  {
    if runs == [] then (history, true)
    else if LeafOk(world, history, runs[0]) then RunAll(world, runs[1..], history + [runs[0]])
    else (history + [runs[0]], false)
  }

  /** The action at this place, with what was carried out before it. */
  predicate OkAt(world: World, runs: seq<LeafRun>, history: History, j: nat)
    requires j < |runs|
  {
    LeafOk(world, history + runs[..j], runs[j])
  }

  /** What running actions one after another means: k are carried out, and only the last of them may fail. */
  lemma {:induction false} RunsUpToFailure(world: World, runs: seq<LeafRun>, history: History) returns (k: nat)
    ensures k <= |runs| && RunAll(world, runs, history).0 == history + runs[..k]
    ensures forall j | 0 <= j < k - 1 :: OkAt(world, runs, history, j)
    ensures RunAll(world, runs, history).1 ==> k == |runs| && (k > 0 ==> OkAt(world, runs, history, k - 1))
    ensures !RunAll(world, runs, history).1 ==> k > 0 && !OkAt(world, runs, history, k - 1)
    decreases |runs|
  {
    hide LeafOk;
    assert history + runs[..0] == history;
    if runs == [] {
      k := 0;
    } else if LeafOk(world, history, runs[0]) {
      var rest := RunsUpToFailure(world, runs[1..], history + [runs[0]]);
      k := rest + 1;
      Shifted(runs, history, rest);
      forall j | 0 < j < k ensures OkAt(world, runs, history, j) == OkAt(world, runs[1..], history + [runs[0]], j - 1) {
        Shifted(runs, history, j - 1);
      }
    } else {
      k := 1;
      assert runs[..1] == [runs[0]];
    }
  }

  /** Answers and changes of place cannot fail, and a drop can only fail early for an object it is not attached to. */
  lemma {:induction false} HarmlessRunsSucceed(world: World, runs: seq<LeafRun>, history: History)
    requires forall run :: run in runs ==>
               run.typ in {"RespondInteraction", "ChangeLocationInteraction", "ChangeNamedLocationInteraction"}
    ensures RunAll(world, runs, history) == (history + runs, true)
    decreases |runs|
  {
    if runs == [] {
      assert history + runs == history;
    } else {
      assert runs[0] in runs;
      HarmlessRunsSucceed(world, runs[1..], history + [runs[0]]);
      assert history + [runs[0]] + runs[1..] == history + runs;
    }
  }

  lemma AttachedDropIsTried(world: World, history: History, run: LeafRun)
    requires run.typ == "DropObjectInteraction" && FieldText(run.fields, "did") == run.did
    ensures LeafOk(world, history, run) == world(history, run)
  {
  }

  lemma Shifted(runs: seq<LeafRun>, history: History, j: nat)
    requires runs != [] && j <= |runs[1..]|
    ensures history + [runs[0]] + runs[1..][..j] == history + runs[..j + 1]
  {
    assert runs[..j + 1] == [runs[0]] + runs[1..][..j];
  }

  /**
   The direct reading of an imported interaction: the leaf actions it stands for on these arguments. A chain is its
   items in order, a cipher one of its branches; only an interaction that is not nested knows what it is attached to.
   */
  function MeaningOf(attrs: ImportInteraction, inherited: Option<string>, args: string, did: string): seq<LeafRun>
    requires ConvertOutcome(attrs, inherited).Fine?
    decreases attrs, 1
  {
    if attrs.typ == "CipherInteraction" then
      if Some(args) == TextField(attrs, inherited, "secret") then
        MeaningOfPart(attrs.value.entries["success_interaction"], None, args)
      else MeaningOfPart(attrs.value.entries["failure_interaction"], TextField(attrs, inherited, "command"), args)
    else if attrs.typ == "ChainedInteraction" then
      MeaningOfParts(attrs.value.entries["interactions"].items, TextField(attrs, inherited, "command"), args)
    else [LeafRun(attrs.typ, Fields(attrs, inherited), args, did)]
  }

  function MeaningOfPart(part: Attribute, inherited: Option<string>, args: string): seq<LeafRun>
    requires PartOutcome(part, inherited).Fine?
    decreases part, 1
  {
    MeaningOf(InteractionIn(part), inherited, args, "")
  }

  function MeaningOfParts(parts: seq<Attribute>, inherited: Option<string>, args: string): seq<LeafRun>
    requires PartsOutcome(parts, inherited).Fine?
    decreases parts
  {
    if parts == [] then []
    else MeaningOfPart(parts[0], inherited, args) + MeaningOfParts(parts[1..], inherited, args)
  }

  /** What the game does with a stored interaction: the actions carried out, and whether all went well. */
  function Exec(world: World, i: Interaction, args: string, did: string, history: History): (History, bool)
    decreases i, 1
  {
    match i
    case Leaf(typ, fields) =>
      var run := LeafRun(typ, fields, args, did);
      (history + [run], LeafOk(world, history, run))
    case Cipher(_, sealedBytes, failureBytes) =>
      if Unseal(i, args).Ok? then Exec(world, Unseal(i, args).value.0, args, "", history) else (history, false)
    case Chained(_, interactionsBytes) =>
      if DecodeAll(interactionsBytes).Ok? then ExecAll(world, interactionsBytes, args, history) else (history, false)
  }

  function ExecAll(world: World, bytes: seq<Bytes>, args: string, history: History): (History, bool)
    decreases bytes
  {
    if bytes == [] then (history, true)
    else
      var first := Exec(world, bytes[0].value, args, "", history);
      if first.1 then ExecAll(world, bytes[1..], args, first.0) else first
  }

  lemma {:induction false} RunAllConcat(world: World, first: seq<LeafRun>, rest: seq<LeafRun>, history: History)
    ensures RunAll(world, first + rest, history) ==
            if RunAll(world, first, history).1 then RunAll(world, rest, RunAll(world, first, history).0)
            else RunAll(world, first, history)
    decreases |first|
  {
    if first == [] {
      assert first + rest == rest;
    } else {
      assert (first + rest)[1..] == first[1..] + rest;
      RunAllConcat(world, first[1..], rest, history + [first[0]]);
    }
  }

  /**
   Compilation preserves meaning: whatever nonces were drawn, running the stored interaction carries out exactly the
   leaf actions of the imported one, in order, and stops with the first that fails.
   */
  lemma {:induction false} CompiledMeansTheSame(attrs: ImportInteraction, inherited: Option<string>, i: Interaction,
                                               world: World, args: string, did: string, history: History)
    requires Compiles(attrs, inherited, i)
    ensures Exec(world, i, args, did, history) == RunAll(world, MeaningOf(attrs, inherited, args, did), history)
    decreases attrs, 1
  {
    if attrs.typ == "CipherInteraction" {
      CipherMeansTheSame(attrs, inherited, i, world, args, did, history);
    } else if attrs.typ == "ChainedInteraction" {
      var items := attrs.value.entries["interactions"].items;
      var command := TextField(attrs, inherited, "command");
      PartsMeanTheSame(items, command, i.interactionsBytes, world, args, history);
      forall k | 0 <= k < |items| ensures InteractionFromCbor(i.interactionsBytes[k]).Ok? {
        assert EncodesPart(items[k], command, i.interactionsBytes[k]);
      }
    } else {
      var runs := MeaningOf(attrs, inherited, args, did);
      assert runs[1..] == [];
    }
  }

  lemma {:induction false} CipherMeansTheSame(attrs: ImportInteraction, inherited: Option<string>, i: Interaction,
                                             world: World, args: string, did: string, history: History)
    requires Compiles(attrs, inherited, i) && attrs.typ == "CipherInteraction"
    ensures Exec(world, i, args, did, history) == RunAll(world, MeaningOf(attrs, inherited, args, did), history)
    decreases attrs, 0
  {
    var success := attrs.value.entries["success_interaction"];
    var failure := attrs.value.entries["failure_interaction"];
    var secret := TextField(attrs, inherited, "secret");
    hide RunAll, Fields, TypeUrl;
    if Some(args) == secret {
      assert Unseal(i, args) == Ok((i.sealedBytes.payload.value, true));
      PartMeansTheSame(success, None, i.sealedBytes.payload, world, args, history);
    } else {
      assert Unseal(i, args) == Ok((i.failureBytes.value, false));
      PartMeansTheSame(failure, TextField(attrs, inherited, "command"), i.failureBytes, world, args, history);
    }
  }

  lemma {:induction false} PartMeansTheSame(part: Attribute, inherited: Option<string>, bytes: Bytes,
                                           world: World, args: string, history: History)
    requires PartOutcome(part, inherited).Fine? && EncodesPart(part, inherited, bytes)
    ensures Exec(world, bytes.value, args, "", history) == RunAll(world, MeaningOfPart(part, inherited, args), history)
    decreases part, 1
  {
    CompiledMeansTheSame(InteractionIn(part), inherited, bytes.value, world, args, "", history);
  }

  lemma {:induction false} PartsMeanTheSame(parts: seq<Attribute>, inherited: Option<string>, bytes: seq<Bytes>,
                                           world: World, args: string, history: History)
    requires PartsOutcome(parts, inherited).Fine? && EncodesParts(parts, inherited, bytes)
    ensures ExecAll(world, bytes, args, history) == RunAll(world, MeaningOfParts(parts, inherited, args), history)
    decreases parts
  {
    if parts != [] {
      assert EncodesPart(parts[0], inherited, bytes[0]);
      PartMeansTheSame(parts[0], inherited, bytes[0], world, args, history);
      var first := MeaningOfPart(parts[0], inherited, args);
      assert EncodesParts(parts[1..], inherited, bytes[1..]);
      PartsMeanTheSame(parts[1..], inherited, bytes[1..], world, args, RunAll(world, first, history).0);
      RunAllConcat(world, first, MeaningOfParts(parts[1..], inherited, args), history);
    }
  }

  class Game {
    const world: World
    var history: History

    constructor (world: World)
      ensures this.world == world && history == []
    {
      this.world, history := world, [];
    }

    method HandleInteractionInput(interaction: Interaction, args: string, did: string) returns (ok: bool)
      modifies this
      ensures (history, ok) == Exec(world, interaction, args, did, old(history))
      decreases interaction, 1
    {
      match interaction {
        case Leaf(typ, fields) => ok := HandleLeaf(LeafRun(typ, fields, args, did));
        case Cipher(_, _, _) =>
          var next := Unseal(interaction, args);
          if !next.Ok? {
            return false;
          }
          ok := HandleInteractionInput(next.value.0, args, "");
        case Chained(_, interactionsBytes) => ok := HandleChain(interactionsBytes, args);
      }
    }

    method HandleChain(bytes: seq<Bytes>, args: string) returns (ok: bool)
      modifies this
      ensures (history, ok) ==
              if DecodeAll(bytes).Ok? then ExecAll(world, bytes, args, old(history)) else (old(history), false)
      decreases bytes, 0
    {
      var interactions := ChainedInteractions(bytes);
      if !interactions.Ok? {
        return false;
      }
      for k := 0 to |bytes|
        invariant ExecAll(world, bytes, args, old(history)) == ExecAll(world, bytes[k..], args, history)
      {
        assert bytes[k..][1..] == bytes[k + 1..];
        assert interactions.value[k] == bytes[k].value;
        ok := HandleInteractionInput(bytes[k].value, args, "");
        if !ok {
          return;
        }
      }
      ok := true;
    }

    method HandleLeaf(run: LeafRun) returns (ok: bool)
      modifies this
      ensures history == old(history) + [run] && ok == LeafOk(world, old(history), run)
    {
      ok := LeafOk(world, history, run);
      history := history + [run];
    }
  }

  /** An object can be dropped only by its own interaction: from inside a chain or a cipher it never works. */
  lemma NestedDropFails(world: World, history: History, runs: seq<LeafRun>, k: nat)
    requires k < |runs| && runs[k].typ == "DropObjectInteraction" && runs[k].did == ""
    requires FieldText(runs[k].fields, "did") != ""
    ensures !RunAll(world, runs, history).1
    decreases k
  {
    if k > 0 && LeafOk(world, history, runs[0]) {
      NestedDropFails(world, history + [runs[0]], runs[1..], k - 1);
    }
  }

  /** Every action of a nested interaction runs with the empty did. */
  lemma {:induction false} NestedRunsAreUnattached(attrs: ImportInteraction, inherited: Option<string>, args: string,
                                                   did: string)
    requires ConvertOutcome(attrs, inherited).Fine? && attrs.typ !in LEAF_TYPES
    ensures forall run :: run in MeaningOf(attrs, inherited, args, did) ==> run.did == ""
    decreases attrs, 1
  {
    if attrs.typ == "CipherInteraction" {
      var success := attrs.value.entries["success_interaction"];
      var failure := attrs.value.entries["failure_interaction"];
      if Some(args) == TextField(attrs, inherited, "secret") {
        PartIsUnattached(success, None, args);
      } else {
        PartIsUnattached(failure, TextField(attrs, inherited, "command"), args);
      }
    } else {
      PartsAreUnattached(attrs.value.entries["interactions"].items, TextField(attrs, inherited, "command"), args);
    }
  }

  lemma {:induction false} PartIsUnattached(part: Attribute, inherited: Option<string>, args: string)
    requires PartOutcome(part, inherited).Fine?
    ensures forall run :: run in MeaningOfPart(part, inherited, args) ==> run.did == ""
    decreases part, 1
  {
    if InteractionIn(part).typ !in LEAF_TYPES {
      NestedRunsAreUnattached(InteractionIn(part), inherited, args, "");
    }
  }

  lemma {:induction false} PartsAreUnattached(parts: seq<Attribute>, inherited: Option<string>, args: string)
    requires PartsOutcome(parts, inherited).Fine?
    ensures forall run :: run in MeaningOfParts(parts, inherited, args) ==> run.did == ""
    decreases parts
  {
    if parts != [] {
      PartIsUnattached(parts[0], inherited, args);
      PartsAreUnattached(parts[1..], inherited, args);
    }
  }
}
