/** game/trees/inventory_tree.go: a tree's inventory, stored as a map from object name to object did. */
module Inventory {
  import opened Wrappers
  import opened ChainTrees

  type Listing = map<string, Did>

  predicate Injective(names: Listing) {
    forall m, n | m in names && n in names && names[m] == names[n] :: m == n
  }

  predicate Lists(names: Listing, did: Did) {
    exists n :: n in names && names[n] == did
  }

  function Without(names: Listing, did: Did): Listing {
    map n | n in names && names[n] != did :: names[n]
  }

  /**
   Listing a did under a name. A name another object holds keeps one of the two,
   and the iteration order of a Go map decides which.
   */
  predicate AddedTo(before: Listing, did: Did, name: string, after: Listing) {
    || after == before[name := did]
    || (name in before && after == before)
  }

  /** objects is the same inventory keyed by did. */
  ghost predicate IsInverse(names: Listing, objects: map<Did, string>) {
    (forall n | n in names :: names[n] in objects && objects[names[n]] == n) &&
    (forall d | d in objects :: objects[d] in names && names[objects[d]] == d)
  }

  /** A listing determines its inverse, the inverse determines the listing, and only injective listings have one. */
  lemma InverseUnique(names: Listing, objects: map<Did, string>, names': Listing, objects': map<Did, string>)
    requires IsInverse(names, objects) && IsInverse(names', objects')
    ensures names == names' <==> objects == objects'
    ensures Injective(names)
  {
    if names == names' {
      forall d ensures d in objects <==> d in objects' {
        assert d in objects ==> objects[d] in names && names[objects[d]] == d;
        assert d in objects' ==> objects'[d] in names && names[objects'[d]] == d;
      }
      forall d | d in objects ensures objects[d] == objects'[d] {
        assert objects[d] in names;
        assert objects'[d] in names;
      }
    }
    if objects == objects' {
      forall n ensures n in names <==> n in names' {
        assert n in names ==> objects[names[n]] == n;
        assert n in names' ==> objects[names'[n]] == n;
      }
    }
  }

  class InventoryTree {
    var names: Listing
    /** How many blocks the inventory's tree has taken; it stands for the tree's tip. */
    var tip: nat

    constructor ()
      ensures names == map[] && Injective(names) && tip == 0
    {
      names, tip := map[], 0;
    }

    method All() returns (objects: map<Did, string>)
      ensures forall d | d in objects :: objects[d] in names && names[objects[d]] == d
      ensures forall n | n in names :: names[n] in objects
      ensures Injective(names) ==> IsInverse(names, objects)
    {
      objects := map[];
      var todo := names.Keys;
      while todo != {}
        invariant todo <= names.Keys
        invariant forall d | d in objects :: objects[d] in names && names[objects[d]] == d
        invariant forall n | n in names && n !in todo :: names[n] in objects
        decreases todo
      {
        var name :| name in todo;
        todo := todo - {name};
        objects := objects[names[name] := name];
      }
    }

    method Exists(did: Did) returns (exists_: bool)
      ensures exists_ <==> Lists(names, did)
    {
      var allObjects := All();
      exists_ := did in allObjects;
    }

    /** The empty did stands for no such object. */
    method DidForName(name: string) returns (did: Did)
      ensures did == if name in names then names[name] else ""
    {
      did := if name in names then names[name] else "";
    }

    /** accepted says whether the network takes the block that stores the new map. */
    method UpdateObjects(objects: map<Did, string>, accepted: bool) returns (r: Result<Unit>)
      modifies this
      ensures r.Ok? <==> accepted
      ensures !r.Ok? ==> r.Err? && names == old(names)
      ensures tip == if r.Ok? then old(tip) + 1 else old(tip)
      ensures r.Ok? ==> names.Keys == objects.Values
      ensures r.Ok? ==> forall n | n in names :: names[n] in objects && objects[names[n]] == n
      ensures r.Ok? ==> Injective(names)
    {
      var reversed: Listing := map[];
      var todo := objects.Keys;
      while todo != {}
        invariant todo <= objects.Keys
        invariant forall n | n in reversed :: reversed[n] in objects && objects[reversed[n]] == n
        invariant forall d | d in objects && d !in todo :: objects[d] in reversed
        decreases todo
      {
        var did :| did in todo;
        todo := todo - {did};
        reversed := reversed[objects[did] := did];
      }
      if !accepted {
        return Err("error updating objects in inventory");
      }
      forall n ensures n in reversed <==> n in objects.Values {
        if n in objects.Values {
          var d :| d in objects && objects[d] == n;
        }
      }
      names, tip := reversed, tip + 1;
      r := Ok(Unit);
    }

    method Remove(did: Did, accepted: bool) returns (r: Result<Unit>)
      modifies this
      ensures r.Ok? <==> accepted || !Lists(old(names), did)
      ensures !r.Ok? ==> r.Err? && names == old(names)
      ensures !Lists(old(names), did) ==> names == old(names)
      ensures tip == if r.Ok? && Lists(old(names), did) then old(tip) + 1 else old(tip)
      ensures Injective(old(names)) ==> Injective(names)
      ensures r.Ok? && Injective(old(names)) ==> names == Without(old(names), did)
    {
      var allObjects := All();
      if did !in allObjects {
        NotListed(names, did);
        return Ok(Unit);
      }
      var rest := map d | d in allObjects && d != did :: allObjects[d];
      r := UpdateObjects(rest, accepted);
      if r.Ok? && Injective(old(names)) {
        RemovedInverse(old(names), allObjects, did, rest, names);
      }
    }

    /** name is what the object's own tree gives: None when it cannot be fetched or is not a text. */
    method Add(did: Did, name: Option<string>, accepted: bool) returns (r: Result<Unit>)
      modifies this
      ensures r.Ok? <==> Lists(old(names), did) || (name.Some? && accepted)
      ensures !r.Ok? ==> r.Err? && names == old(names)
      ensures Lists(old(names), did) ==> names == old(names)
      ensures tip == if r.Ok? && !Lists(old(names), did) then old(tip) + 1 else old(tip)
      ensures Injective(old(names)) ==> Injective(names)
      ensures r.Ok? && !Lists(old(names), did) && Injective(old(names)) ==> AddedTo(old(names), did, name.value, names)
    {
      var allObjects := All();
      if did in allObjects {
        return Ok(Unit);
      }
      if name.None? {
        return Err("error casting name to string");
      }
      r := UpdateObjects(allObjects[did := name.value], accepted);
      if r.Ok? && Injective(old(names)) {
        AddedInverse(old(names), allObjects, did, name.value, names);
      }
    }

    /** Like Add, but an object that is already listed is listed again, under its present name. */
    method ForceAdd(did: Did, name: Option<string>, accepted: bool) returns (r: Result<Unit>)
      modifies this
      ensures r.Ok? <==> name.Some? && accepted
      ensures !r.Ok? ==> r.Err? && names == old(names)
      ensures tip == if r.Ok? then old(tip) + 1 else old(tip)
      ensures Injective(old(names)) ==> Injective(names)
      ensures r.Ok? && Injective(old(names)) ==> AddedTo(Without(old(names), did), did, name.value, names)
    {
      var allObjects := All();
      if name.None? {
        return Err("error casting name to string");
      }
      r := UpdateObjects(allObjects[did := name.value], accepted);
      if r.Ok? && Injective(old(names)) {
        var rest := map d | d in allObjects && d != did :: allObjects[d];
        RestIsInverse(old(names), allObjects, did, rest);
        assert rest[did := name.value] == allObjects[did := name.value];
        AddedInverse(Without(old(names), did), rest, did, name.value, names);
      }
    }
  }

  lemma NotListed(names: Listing, did: Did)
    requires !Lists(names, did)
    ensures Without(names, did) == names
  {
  }

  lemma RestIsInverse(before: Listing, objects: map<Did, string>, did: Did, rest: map<Did, string>)
    requires IsInverse(before, objects)
    requires rest == map d | d in objects && d != did :: objects[d]
    ensures IsInverse(Without(before, did), rest)
  {
  }

  lemma RemovedInverse(before: Listing, objects: map<Did, string>, did: Did, rest: map<Did, string>, after: Listing)
    requires IsInverse(before, objects)
    requires rest == map d | d in objects && d != did :: objects[d]
    requires after.Keys == rest.Values
    requires forall n | n in after :: after[n] in rest && rest[after[n]] == n
    ensures after == Without(before, did)
  {
    var w := Without(before, did);
    RestIsInverse(before, objects, did, rest);
    forall n ensures n in after <==> n in w {
      if n in w {
        assert rest[w[n]] == n;
        assert n in rest.Values;
      }
    }
  }

  lemma AddedInverse(before: Listing, objects: map<Did, string>, did: Did, name: string, after: Listing)
    requires IsInverse(before, objects) && did !in objects
    requires after.Keys == objects[did := name].Values
    requires forall n | n in after :: after[n] in objects[did := name] && objects[did := name][after[n]] == n
    ensures AddedTo(before, did, name, after)
  {
    var all := objects[did := name];
    assert all[did] == name && name in all.Values;
    forall n ensures n in after <==> n == name || n in before {
      if n in before {
        assert all[before[n]] == n;
        assert n in all.Values;
      }
      if n in after && n != name {
        assert after[n] in objects;
      }
    }
    forall n | n in after && n != name ensures n in before && after[n] == before[n] {
      assert after[n] in objects && objects[after[n]] == n;
    }
    if after[name] != did {
      assert after[name] in objects && objects[after[name]] == name;
    }
  }

  /** With a name nobody else holds, listing changes that entry only. */
  lemma AddedUnderFreshName(before: Listing, did: Did, name: string, after: Listing)
    requires Injective(before) && !Lists(before, did) && name !in before
    requires AddedTo(before, did, name, after)
    ensures Injective(after) && Lists(after, did)
    ensures forall d | d != did :: Lists(after, d) <==> Lists(before, d)
    ensures Without(after, did) == before
  {
    assert after[name] == did;
    forall d | d != did ensures Lists(after, d) <==> Lists(before, d) {
      if Lists(before, d) {
        var n :| n in before && before[n] == d;
        assert after[n] == d;
      }
    }
  }

  /** Listing keeps an inventory one-to-one, whichever object keeps a contested name. */
  lemma AddedToInjective(before: Listing, did: Did, name: string, after: Listing)
    requires Injective(before) && !Lists(before, did)
    requires AddedTo(before, did, name, after)
    ensures Injective(after)
    ensures name !in before ==> Lists(after, did)
  {
    if name !in before {
      assert after[name] == did;
    }
  }

  /** With a name another object holds, exactly one of the two ends up listed. */
  lemma AddedUnderTakenName(before: Listing, did: Did, name: string, after: Listing)
    requires Injective(before) && !Lists(before, did) && name in before
    requires AddedTo(before, did, name, after)
    ensures Lists(after, did) <==> !Lists(after, before[name])
  {
    if after == before {
      assert before[name] == before[name];
    } else {
      assert after[name] == did;
      forall n | n in after ensures after[n] != before[name] {
      }
    }
  }

  /** Removing and adding back under the same name restores the inventory. */
  lemma RemoveThenAdd(names: Listing, name: string, after: Listing)
    requires Injective(names) && name in names
    requires AddedTo(Without(names, names[name]), names[name], name, after)
    ensures after == names
  {
    assert name !in Without(names, names[name]);
    assert Without(names, names[name])[name := names[name]] == names;
  }
}
