/**
 importer/flatmap: nested data to a flat map from joined path to printed value. The recursive calls share one
 result map and visit the keys of a Go map in any order.
 */
module Flatmap {
  import opened Text
  import opened Wrappers
  import opened TreeData

  /** VOther is a value of any other kind, such as a float, a nil or a map whose keys are not texts. */
  datatype Value =
    | VBool(flag: bool)
    | VInt(number: int)
    | VString(text: string)
    | VMap(entries: map<string, Value>)
    | VSlice(items: seq<Value>)
    | VOther

  /** No value of another kind anywhere: flattening one panics. */
  predicate Printable(v: Value) {
    match v
    case VMap(entries) => forall k | k in entries :: Printable(entries[k])
    case VSlice(items) => forall i | 0 <= i < |items| :: Printable(items[i])
    case VOther => false
    case _ => true
  }

  /** The position a path component names in a list of count items. */
  function ItemIndex(component: string, count: nat): Option<nat> {
    match ParseDigits(component, Ten)
    case Some(i) => if i < count && Itoa(i) == component then Some(i) else None
    case None => None
  }

  lemma ItemIndexOfItoa(i: nat, count: nat)
    ensures ItemIndex(Itoa(i), count) == if i < count then Some(i) else None
  {
    DigitsRoundTrip(i, Ten);
  }

  /** What the nested data means: the printed scalar a path leads to. */
  function LeafIn(v: Value, path: Path): Option<string>
    decreases |path|
  {
    match v
    case VBool(flag) => if path == [] then Some(if flag then "true" else "false") else None
    case VInt(number) => if path == [] then Some(Itoa(number)) else None
    case VString(text) => if path == [] then Some(text) else None
    case VMap(entries) =>
      if path != [] && path[0] in entries then LeafIn(entries[path[0]], path[1..]) else None
    case VSlice(items) =>
      if path == [] then None
      else
        var i := ItemIndex(path[0], |items|);
        if i.Some? then LeafIn(items[i.value], path[1..]) else None
    case VOther => None
  }

  /** Scalars are leaves at the empty path, printed as Go prints them; maps and lists are not. */
  lemma PrintedScalars(flag: bool, number: int, text: string, entries: map<string, Value>, items: seq<Value>)
    ensures LeafIn(VBool(flag), []) == Some(if flag then "true" else "false")
    ensures LeafIn(VInt(number), []) == Some(Itoa(number)) && LeafIn(VString(text), []) == Some(text)
    ensures LeafIn(VMap(entries), []) == LeafIn(VSlice(items), []) == LeafIn(VOther, []) == None
  {
  }

  /** A path goes through the keys of maps and the printed positions of lists. */
  lemma LeafBelow(entries: map<string, Value>, items: seq<Value>, component: string, rest: Path)
    ensures LeafIn(VMap(entries), [component] + rest) ==
            if component in entries then LeafIn(entries[component], rest) else None
    ensures forall i | 0 <= i < |items| :: LeafIn(VSlice(items), [Itoa(i)] + rest) == LeafIn(items[i], rest)
    ensures (forall i | 0 <= i < |items| :: component != Itoa(i)) ==> LeafIn(VSlice(items), [component] + rest).None?
  {
    assert ([component] + rest)[1..] == rest;
    forall i | 0 <= i < |items| ensures LeafIn(VSlice(items), [Itoa(i)] + rest) == LeafIn(items[i], rest) {
      ItemIndexOfItoa(i, |items|);
      assert ([Itoa(i)] + rest)[1..] == rest;
    }
  }

  /** No leaf lies below another. */
  lemma {:induction false} LeavesPrefixFree(v: Value, p: Path, q: Path)
    requires LeafIn(v, p).Some? && LeafIn(v, q).Some? && p <= q
    ensures p == q
    decreases |p|
  {
    if p == [] {
      assert !v.VMap? && !v.VSlice?;
    } else {
      var child :=
        match v
        case VMap(entries) => entries[p[0]]
        case VSlice(items) => items[ItemIndex(p[0], |items|).value]
        case _ => v;
      LeavesPrefixFree(child, p[1..], q[1..]);
      assert p == [p[0]] + p[1..] && q == [q[0]] + q[1..];
    }
  }

  /** The flat key of a path. */
  function KeyOf(path: Path): string {
    Join(path, '/')
  }

  lemma {:induction false} KeyOfSnoc(at: Path, component: string)
    requires at != []
    ensures KeyOf(at + [component]) == KeyOf(at) + "/" + component
  {
    var all := at + [component];
    assert all[1..] == at[1..] + [component];
    if |at| == 1 {
      assert KeyOf(at) == at[0] && KeyOf(all[1..]) == component;
    } else {
      KeyOfSnoc(at[1..], component);
      assert KeyOf(all) == at[0] + "/" + (KeyOf(at[1..]) + "/" + component);
    }
  }

  ghost predicate HasLeafKey(at: Path, v: Value, key: string) {
    exists path: Path :: LeafIn(v, path).Some? && KeyOf(at + path) == key
  }

  ghost predicate IsLeafKey(at: Path, v: Value, key: string, text: string) {
    exists path: Path :: LeafIn(v, path) == Some(text) && KeyOf(at + path) == key
  }

  /**
   The leaves of v, which sits at path `at`, are added over what was there. Paths with the same key are the one
   thing left open: any one of them keeps its value.
   */
  ghost predicate FlattenedInto(before: map<string, string>, at: Path, v: Value, after: map<string, string>) {
    && (forall key | key in after ::
          IsLeafKey(at, v, key, after[key]) || (key in before && before[key] == after[key] && !HasLeafKey(at, v, key)))
    && (forall key | key in before :: key in after)
    && (forall path: Path | LeafIn(v, path).Some? :: KeyOf(at + path) in after)
  }

  /** whole is part with one more child. */
  ghost predicate Grows(part: Value, component: string, child: Value, whole: Value) {
    forall path: Path ::
      if path != [] && path[0] == component then
        LeafIn(whole, path) == LeafIn(child, path[1..]) && LeafIn(part, path) == None
      else LeafIn(whole, path) == LeafIn(part, path)
  }

  lemma ChildKeys(at: Path, part: Value, component: string, child: Value, whole: Value, path: Path)
    requires Grows(part, component, child, whole)
    ensures LeafIn(whole, [component] + path) == LeafIn(child, path)
    ensures KeyOf(at + ([component] + path)) == KeyOf((at + [component]) + path)
  {
    assert ([component] + path)[1..] == path;
    assert at + ([component] + path) == (at + [component]) + path;
  }

  /** A leaf of the whole is a leaf of the child or of the part. */
  lemma WholeKeys(at: Path, part: Value, component: string, child: Value, whole: Value, key: string)
    requires Grows(part, component, child, whole)
    ensures forall text :: IsLeafKey(at + [component], child, key, text) ==> IsLeafKey(at, whole, key, text)
    ensures forall text :: IsLeafKey(at, part, key, text) ==> IsLeafKey(at, whole, key, text)
    ensures HasLeafKey(at, whole, key) ==> HasLeafKey(at + [component], child, key) || HasLeafKey(at, part, key)
  {
    forall text | IsLeafKey(at + [component], child, key, text) ensures IsLeafKey(at, whole, key, text) {
      var path: Path :| LeafIn(child, path) == Some(text) && KeyOf((at + [component]) + path) == key;
      ChildKeys(at, part, component, child, whole, path);
    }
    forall text | IsLeafKey(at, part, key, text) ensures IsLeafKey(at, whole, key, text) {
      var path: Path :| LeafIn(part, path) == Some(text) && KeyOf(at + path) == key;
      assert LeafIn(whole, path) == Some(text);
    }
    if HasLeafKey(at, whole, key) {
      var path: Path :| LeafIn(whole, path).Some? && KeyOf(at + path) == key;
      if path != [] && path[0] == component {
        assert path == [component] + path[1..];
        ChildKeys(at, part, component, child, whole, path[1..]);
        assert HasLeafKey(at + [component], child, key);
      } else {
        assert HasLeafKey(at, part, key);
      }
    }
  }

  /** Flattening part by part. */
  lemma AddPart(before: map<string, string>, at: Path, part: Value, middle: map<string, string>,
                component: string, child: Value, whole: Value, after: map<string, string>)
    requires Grows(part, component, child, whole)
    requires FlattenedInto(before, at, part, middle) && FlattenedInto(middle, at + [component], child, after)
    ensures FlattenedInto(before, at, whole, after)
  {
    hide IsLeafKey, HasLeafKey, LeafIn, KeyOf;
    forall key | key in after
      ensures IsLeafKey(at, whole, key, after[key]) ||
              (key in before && before[key] == after[key] && !HasLeafKey(at, whole, key))
    {
      WholeKeys(at, part, component, child, whole, key);
      PartHasKey(at, part, key);
    }
    forall path: Path | LeafIn(whole, path).Some? ensures KeyOf(at + path) in after {
      if path != [] && path[0] == component {
        assert path == [component] + path[1..];
        ChildKeys(at, part, component, child, whole, path[1..]);
      } else {
        assert KeyOf(at + path) in middle;
      }
    }
  }

  lemma PartHasKey(at: Path, v: Value, key: string)
    ensures forall text :: IsLeafKey(at, v, key, text) ==> HasLeafKey(at, v, key)
  {
  }

  lemma NothingFlattened(before: map<string, string>, at: Path, v: Value)
    requires v == VMap(map[]) || v == VSlice([])
    ensures FlattenedInto(before, at, v, before)
  {
    assert forall path: Path :: LeafIn(v, path).None?;
  }

  lemma ScalarFlattened(before: map<string, string>, at: Path, v: Value, text: string)
    requires !v.VMap? && !v.VSlice? && LeafIn(v, []) == Some(text)
    ensures FlattenedInto(before, at, v, before[KeyOf(at) := text])
  {
    assert at + [] == at;
    assert forall path: Path :: LeafIn(v, path).Some? ==> path == [];
    assert IsLeafKey(at, v, KeyOf(at), text);
  }

  lemma MapGrows(entries: map<string, Value>, k: string, v: Value)
    requires k !in entries
    ensures Grows(VMap(entries), k, v, VMap(entries[k := v]))
  {
  }

  lemma SliceGrows(items: seq<Value>, i: nat)
    requires i < |items|
    ensures Grows(VSlice(items[..i]), Itoa(i), items[i], VSlice(items[..i + 1]))
  {
    ItemIndexOfItoa(i, i);
    ItemIndexOfItoa(i, i + 1);
    forall component: string | component != Itoa(i) ensures ItemIndex(component, i) == ItemIndex(component, i + 1) {
    }
  }

  class Flattener {
    var result: map<string, string>

    constructor ()
      ensures result == map[]
    {
      result := map[];
    }

    /** ok is false when the source panics. */
    method Flatten(thing: map<string, Value>) returns (ok: bool)
      requires result == map[]
      modifies this
      ensures ok <==> Printable(VMap(thing))
      ensures ok ==> FlattenedInto(map[], [], VMap(thing), result)
    {
      hide FlattenedInto, LeafIn;
      var todo := thing.Keys;
      ghost var part: map<string, Value> := map[];
      NothingFlattened(result, [], VMap(part));
      while todo != {}
        invariant todo <= thing.Keys
        invariant part == map k | k in thing && k !in todo :: thing[k]
        invariant forall k | k in part :: Printable(part[k])
        invariant FlattenedInto(map[], [], VMap(part), result)
        decreases todo
      {
        var k :| k in todo;
        todo := todo - {k};
        ghost var middle := result;
        assert [] + [k] == [k];
        ok := FlattenValue(k, [k], thing[k]);
        if !ok {
          return;
        }
        MapGrows(part, k, thing[k]);
        AddPart(map[], [], VMap(part), middle, k, thing[k], VMap(part[k := thing[k]]), result);
        part := part[k := thing[k]];
      }
      ok := true;
      assert part == thing;
    }

    method FlattenValue(prefix: string, ghost at: Path, v: Value) returns (ok: bool)
      requires at != [] && prefix == KeyOf(at)
      modifies this
      ensures ok <==> Printable(v)
      ensures ok ==> FlattenedInto(old(result), at, v, result)
      decreases v, 1
    {
      hide FlattenedInto, KeyOf;
      ok := true;
      match v {
        case VBool(flag) =>
          result := result[prefix := if flag then "true" else "false"];
          ScalarFlattened(old(result), at, v, if flag then "true" else "false");
        case VInt(number) =>
          result := result[prefix := Itoa(number)];
          ScalarFlattened(old(result), at, v, Itoa(number));
        case VMap(_) => ok := FlattenMap(prefix, at, v);
        case VSlice(_) => ok := FlattenSlice(prefix, at, v);
        case VString(text) =>
          result := result[prefix := text];
          ScalarFlattened(old(result), at, v, text);
        case VOther => ok := false;
      }
    }

    method FlattenMap(prefix: string, ghost at: Path, v: Value) returns (ok: bool)
      requires v.VMap? && at != [] && prefix == KeyOf(at)
      modifies this
      ensures ok <==> Printable(v)
      ensures ok ==> FlattenedInto(old(result), at, v, result)
      decreases v, 0
    {
      hide FlattenedInto, KeyOf, LeafIn;
      var todo := v.entries.Keys;
      ghost var part: map<string, Value> := map[];
      NothingFlattened(result, at, VMap(part));
      while todo != {}
        invariant todo <= v.entries.Keys
        invariant part == map k | k in v.entries && k !in todo :: v.entries[k]
        invariant forall k | k in part :: Printable(part[k])
        invariant FlattenedInto(old(result), at, VMap(part), result)
        decreases todo
      {
        var k :| k in todo;
        todo := todo - {k};
        KeyOfSnoc(at, k);
        ghost var middle := result;
        ok := FlattenValue(prefix + "/" + k, at + [k], v.entries[k]);
        if !ok {
          return;
        }
        MapGrows(part, k, v.entries[k]);
        AddPart(old(result), at, VMap(part), middle, k, v.entries[k], VMap(part[k := v.entries[k]]), result);
        part := part[k := v.entries[k]];
      }
      ok := true;
      assert part == v.entries;
    }

    method FlattenSlice(prefix: string, ghost at: Path, v: Value) returns (ok: bool)
      requires v.VSlice? && at != [] && prefix == KeyOf(at)
      modifies this
      ensures ok <==> Printable(v)
      ensures ok ==> FlattenedInto(old(result), at, v, result)
      decreases v, 0
    {
      hide FlattenedInto, KeyOf, LeafIn;
      NothingFlattened(result, at, VSlice([]));
      for i := 0 to |v.items|
        invariant forall j | 0 <= j < i :: Printable(v.items[j])
        invariant FlattenedInto(old(result), at, VSlice(v.items[..i]), result)
      {
        KeyOfSnoc(at, Itoa(i));
        ghost var middle := result;
        ok := FlattenValue(prefix + "/" + Itoa(i), at + [Itoa(i)], v.items[i]);
        if !ok {
          return;
        }
        SliceGrows(v.items, i);
        AddPart(old(result), at, VSlice(v.items[..i]), middle, Itoa(i), v.items[i], VSlice(v.items[..i + 1]), result);
      }
      ok := true;
      assert v.items[..|v.items|] == v.items;
    }
  }

  /** The part of a key that Keys keeps: a key is cut at its first dot. */
  function TopLevel(key: string): string {
    Split(key, '.')[0]
  }

  /** Keys: each cut key once, in the order of a Go map. */
  method Keys(m: map<string, string>) returns (result: seq<string>)
    ensures forall k :: k in result <==> exists key :: key in m && TopLevel(key) == k
    ensures forall i, j | 0 <= i < j < |result| :: result[i] != result[j]
  {
    var ks: set<string> := {};
    var todo := m.Keys;
    while todo != {}
      invariant todo <= m.Keys
      invariant forall k :: k in ks <==> exists key :: key in m && key !in todo && TopLevel(key) == k
      decreases todo
    {
      var key :| key in todo;
      todo := todo - {key};
      ks := ks + {TopLevel(key)};
    }
    result := [];
    var left := ks;
    while left != {}
      invariant left <= ks
      invariant forall k :: k in result <==> k in ks && k !in left
      invariant forall i, j | 0 <= i < j < |result| :: result[i] != result[j]
      decreases left
    {
      var k :| k in left;
      left := left - {k};
      result := result + [k];
    }
  }
}
