/**
 importer/importer.go, loadBasicData: nested data is flattened, and the flat keys are replayed in sorted order as
 writes below "jasons-game".
 */
module ImportData {
  import opened Wrappers
  import opened Text
  import opened TreeData
  import opened Flatmap
  import Interactions

  datatype Payload = Payload(data: map<string, Value>, interactions: seq<Interactions.ImportInteraction>,
                             inventory: seq<string>)

  /** ImportHash is the ideal hash of a payload: equal for equal payloads only. */
  datatype Cell = Scalar(text: string) | Encoded(bytes: Interactions.Bytes) | ImportHash(payload: Payload)

  const RESERVED_KEYS := ["inventory", "interactions"]

  /** The path of a SetData transaction: a leading slash is dropped, an empty component is an error. */
  function DecodePath(path: string): Option<Path> {
    var trimmed := if path != "" && path[0] == '/' then path[1..] else path;
    if trimmed == "" then Some([])
    else if "" in Split(trimmed, '/') then None
    else Some(Split(trimmed, '/'))
  }

  function DataPath(key: string): string {
    ROOT + "/" + key
  }

  lemma DecodeDataPath(key: string)
    ensures DecodePath(DataPath(key)) == if "" in Split(key, '/') then None else Some([ROOT] + Split(key, '/'))
  {
    SplitPrefix(ROOT, key, '/');
  }

  /** A key that was cut at a dot is looked up in vain, which gives Go's zero value. */
  function ValueOf(flat: map<string, string>, key: string): string {
    if key in flat then flat[key] else ""
  }

  /** The writes for a list of keys. */
  function Replay(flat: map<string, string>, keys: seq<string>): (updates: seq<Update<Cell>>)
    ensures |updates| == |keys|
    ensures forall k | 0 <= k < |keys| :: updates[k] == ([ROOT] + Split(keys[k], '/'), Scalar(ValueOf(flat, keys[k])))
  {
    if keys == [] then []
    else
      var last := keys[|keys| - 1];
      Replay(flat, keys[..|keys| - 1]) + [([ROOT] + Split(last, '/'), Scalar(ValueOf(flat, last)))]
  }

  /** The tree holds the data and nothing else: each path leads to the printed scalar of the nested data. */
  ghost predicate Rebuilds(data: map<string, Value>, tree: Node<Cell>) {
    forall path: Path ::
      LeafAt(tree, path) ==
      if path != [] && path[0] == ROOT && LeafIn(VMap(data), path[1..]).Some? then
        Some(Scalar(LeafIn(VMap(data), path[1..]).value))
      else None
  }

  predicate CleanComponent(component: string) {
    component != "" && '/' !in component && '.' !in component
  }

  /** No key or index on the way to a leaf is empty or holds a slash or a dot. */
  ghost predicate CleanLeaves(data: map<string, Value>) {
    forall path: Path | LeafIn(VMap(data), path).Some? ::
      forall component :: component in path ==> CleanComponent(component)
  }

  ghost predicate Loadable(data: map<string, Value>) {
    (forall key :: key in RESERVED_KEYS ==> key !in data) && Printable(VMap(data)) && CleanLeaves(data)
  }

  /** One write for each leaf, in some order. */
  ghost predicate Replays(data: map<string, Value>, updates: seq<Update<Cell>>) {
    WritesLeaves(data, updates) && DistinctPaths(updates) && WritesAll(data, updates)
  }

  ghost predicate WritesLeaves(data: map<string, Value>, updates: seq<Update<Cell>>) {
    forall k | 0 <= k < |updates| :: WritesLeaf(data, updates[k])
  }

  ghost predicate WritesLeaf(data: map<string, Value>, update: Update<Cell>) {
    update.0 != [] && update.0[0] == ROOT && update.1.Scalar? &&
    LeafIn(VMap(data), update.0[1..]) == Some(update.1.text)
  }

  ghost predicate DistinctPaths(updates: seq<Update<Cell>>) {
    forall i, j | 0 <= i < j < |updates| :: updates[i].0 != updates[j].0
  }

  ghost predicate WritesAll(data: map<string, Value>, updates: seq<Update<Cell>>) {
    forall path: Path | LeafIn(VMap(data), path).Some? :: IsWritten(updates, [ROOT] + path)
  }

  ghost predicate IsWritten(updates: seq<Update<Cell>>, path: Path) {
    exists k :: 0 <= k < |updates| && updates[k].0 == path
  }

  lemma LeafPathsApart(data: map<string, Value>, p: Path, q: Path)
    requires p != [] && p[0] == ROOT && LeafIn(VMap(data), p[1..]).Some?
    requires q != [] && q[0] == ROOT && LeafIn(VMap(data), q[1..]).Some?
    requires p != q
    ensures !(p <= q)
  {
    assert p == [p[0]] + p[1..] && q == [q[0]] + q[1..];
    if p <= q {
      assert q[..|p|][1..] == q[1..][..|p[1..]|];
      LeavesPrefixFree(VMap(data), p[1..], q[1..]);
    }
  }

  lemma ReplayPrefixFree(data: map<string, Value>, updates: seq<Update<Cell>>)
    requires Replays(data, updates)
    ensures PrefixFree(updates)
  {
    forall i, j | 0 <= i < |updates| && 0 <= j < |updates| && i != j ensures !Comparable(updates[i].0, updates[j].0) {
      assert i < j || j < i;
      LeafPathsApart(data, updates[i].0, updates[j].0);
      LeafPathsApart(data, updates[j].0, updates[i].0);
    }
  }

  /** Written one by one in any order, the leaves give back the data. */
  lemma ReplayRebuilds(data: map<string, Value>, updates: seq<Update<Cell>>)
    requires Replays(data, updates)
    ensures Rebuilds(data, SetAll(Dir(map[]), updates))
  {
    ReplayPrefixFree(data, updates);
    var tree := SetAll(Dir(map[]), updates);
    forall path: Path
      ensures LeafAt(tree, path) ==
              if path != [] && path[0] == ROOT && LeafIn(VMap(data), path[1..]).Some? then
                Some(Scalar(LeafIn(VMap(data), path[1..]).value))
              else None
    {
      if path != [] && path[0] == ROOT && LeafIn(VMap(data), path[1..]).Some? {
        assert path == [ROOT] + path[1..];
        var k :| 0 <= k < |updates| && updates[k].0 == path;
        WrittenLeafSurvives(Dir(map[]), updates, k);
      } else if LeafAt(tree, path).Some? {
        OnlyWrittenLeaves(updates, path);
      }
    }
  }

  lemma {:induction false} SplitHolds(s: string, sep: char, c: char)
    requires exists part :: part in Split(s, sep) && c in part
    ensures c in s
  {
    if s != "" && c !in s {
      var part :| part in Split(s, sep) && c in part;
      var rest := Split(s[1..], sep);
      assert part in rest[1..] ==> part in rest;
      assert part in rest || part == [s[0]] + rest[0];
      assert rest[0] in rest;
      SplitHolds(s[1..], sep, c);
    }
  }

  /** The writes cover the leaves only if all components are clean. */
  lemma RebuildsOnlyClean(data: map<string, Value>, flat: map<string, string>, keys: seq<string>)
    requires forall k | 0 <= k < |keys| :: '.' !in keys[k] && "" !in Split(keys[k], '/')
    requires Rebuilds(data, SetAll(Dir(map[]), Replay(flat, keys)))
    ensures CleanLeaves(data)
  {
    forall path: Path, component | LeafIn(VMap(data), path).Some? && component in path
      ensures CleanComponent(component)
    {
      var full := [ROOT] + path;
      assert full[1..] == path;
      assert LeafAt(SetAll(Dir(map[]), Replay(flat, keys)), full).Some?;
      OnlyWrittenLeaves(Replay(flat, keys), full);
      var k :| 0 <= k < |keys| && Replay(flat, keys)[k].0 == full;
      assert Split(keys[k], '/') == full[1..];
      if '.' in component {
        SplitHolds(keys[k], '/', '.');
      }
    }
  }

  /** A clean path can be read back from its key, and no other path has that key. */
  lemma CleanKey(path: Path)
    requires path != [] && forall component :: component in path ==> CleanComponent(component)
    ensures Split(KeyOf(path), '/') == path && TopLevel(KeyOf(path)) == KeyOf(path)
  {
    SplitJoin(path, '/');
    forall k | 0 <= k < |path| ensures '.' !in path[k] {
      assert CleanComponent(path[k]);
    }
    if '.' in KeyOf(path) {
      JoinOnlyHolds(path, '/', '.');
    }
    SplitWhole(KeyOf(path), '.');
  }

  lemma CleanLeafKey(data: map<string, Value>, path: Path)
    requires CleanLeaves(data) && LeafIn(VMap(data), path).Some?
    ensures Split(KeyOf(path), '/') == path && TopLevel(KeyOf(path)) == KeyOf(path) && "" !in path
  {
    assert path != [];
    hide LeafIn, Split, Join;
    CleanKey(path);
  }

  lemma FlatKeyPath(data: map<string, Value>, flat: map<string, string>, key: string) returns (path: Path)
    requires FlattenedInto(map[], [], VMap(data), flat) && key in flat
    ensures LeafIn(VMap(data), path) == Some(flat[key]) && KeyOf(path) == key
  {
    hide LeafIn, KeyOf;
    assert IsLeafKey([], VMap(data), key, flat[key]);
    path :| LeafIn(VMap(data), path) == Some(flat[key]) && KeyOf([] + path) == key;
    assert [] + path == path;
  }

  /** Each flat key of clean data is one leaf. */
  lemma CleanFlatKey(data: map<string, Value>, flat: map<string, string>, key: string)
    requires CleanLeaves(data) && FlattenedInto(map[], [], VMap(data), flat) && key in flat
    ensures LeafIn(VMap(data), Split(key, '/')) == Some(flat[key])
    ensures TopLevel(key) == key && "" !in Split(key, '/')
  {
    hide *;
    var path := FlatKeyPath(data, flat, key);
    CleanLeafKey(data, path);
  }

  /** What Keys returns for a flattening of the data, sorted. */
  ghost predicate IsSortedKeys(data: map<string, Value>, flat: map<string, string>, keys: seq<string>) {
    && FlattenedInto(map[], [], VMap(data), flat)
    && (forall k :: k in keys <==> exists key :: key in flat && TopLevel(key) == k)
    && (forall i, j | 0 <= i < j < |keys| :: keys[i] != keys[j])
  }

  lemma CleanSortedKey(data: map<string, Value>, flat: map<string, string>, keys: seq<string>, k: nat)
    requires CleanLeaves(data) && IsSortedKeys(data, flat, keys) && k < |keys|
    ensures keys[k] in flat && LeafIn(VMap(data), Split(keys[k], '/')) == Some(flat[keys[k]])
    ensures "" !in Split(keys[k], '/')
  {
    hide CleanLeaves, FlattenedInto;
    assert keys[k] in keys;
    var key :| key in flat && TopLevel(key) == keys[k];
    CleanFlatKey(data, flat, key);
  }

  lemma CleanLeafWritten(data: map<string, Value>, flat: map<string, string>, keys: seq<string>, path: Path)
    requires CleanLeaves(data) && IsSortedKeys(data, flat, keys) && LeafIn(VMap(data), path).Some?
    ensures IsWritten(Replay(flat, keys), [ROOT] + path)
  {
    assert [] + path == path;
    var key := KeyOf(path);
    assert key in flat;
    CleanLeafKey(data, path);
    hide CleanLeaves, FlattenedInto, TopLevel, KeyOf;
    assert key in keys;
    var k :| 0 <= k < |keys| && keys[k] == key;
    assert Replay(flat, keys)[k].0 == [ROOT] + path;
  }

  lemma DistinctReplays(flat: map<string, string>, keys: seq<string>, i: nat, j: nat)
    requires i < j < |keys| && keys[i] != keys[j]
    ensures Replay(flat, keys)[i].0 != Replay(flat, keys)[j].0
  {
    JoinSplit(keys[i], '/');
    JoinSplit(keys[j], '/');
    hide Split, Join;
    var updates := Replay(flat, keys);
    assert updates[i].0[1..] == Split(keys[i], '/') && updates[j].0[1..] == Split(keys[j], '/');
  }

  lemma CleanUpdate(data: map<string, Value>, flat: map<string, string>, keys: seq<string>, k: nat)
    requires CleanLeaves(data) && IsSortedKeys(data, flat, keys) && k < |keys|
    ensures WritesLeaf(data, Replay(flat, keys)[k])
  {
    CleanSortedKey(data, flat, keys, k);
    hide CleanLeaves, IsSortedKeys, Split, LeafIn, Replay;
    assert Replay(flat, keys)[k].0[1..] == Split(keys[k], '/');
  }

  lemma CleanReplays(data: map<string, Value>, flat: map<string, string>, keys: seq<string>)
    requires CleanLeaves(data) && IsSortedKeys(data, flat, keys)
    ensures Replays(data, Replay(flat, keys))
  {
    var updates := Replay(flat, keys);
    assert WritesLeaves(data, updates) by {
      hide CleanLeaves, IsSortedKeys, WritesLeaf, Replay;
      forall k | 0 <= k < |keys| ensures WritesLeaf(data, updates[k]) {
        CleanUpdate(data, flat, keys, k);
      }
    }
    assert DistinctPaths(updates) by {
      assert forall i, j | 0 <= i < j < |keys| :: keys[i] != keys[j];
      hide CleanLeaves, IsSortedKeys, Replay, WritesLeaves;
      forall i, j | 0 <= i < j < |updates| ensures updates[i].0 != updates[j].0 {
        DistinctReplays(flat, keys, i, j);
      }
    }
    assert WritesAll(data, updates) by {
      hide CleanLeaves, IsSortedKeys, Replay, LeafIn, IsWritten, WritesLeaves, DistinctPaths;
      forall path: Path | LeafIn(VMap(data), path).Some? ensures IsWritten(updates, [ROOT] + path) {
        CleanLeafWritten(data, flat, keys, path);
      }
    }
    hide *;
    ReplaysFrom(data, updates);
  }

  lemma ReplaysFrom(data: map<string, Value>, updates: seq<Update<Cell>>)
    requires WritesLeaves(data, updates) && DistinctPaths(updates) && WritesAll(data, updates)
    ensures Replays(data, updates)
  {
  }

  lemma {:induction false} JoinSplit(s: string, sep: char)
    ensures Join(Split(s, sep), sep) == s
  {
    if s != "" {
      var rest := Split(s[1..], sep);
      JoinSplit(s[1..], sep);
      if s[0] == sep {
        assert ([""] + rest)[1..] == rest;
      } else {
        assert ([[s[0]] + rest[0]] + rest[1..])[1..] == rest[1..];
        assert s == [s[0]] + Join(rest, sep);
      }
    }
  }

  lemma NoReplay(tree: Node<Cell>, flat: map<string, string>)
    ensures SetAll(tree, Replay(flat, [])) == tree
  {
  }

  lemma ReplayOne(tree: Node<Cell>, flat: map<string, string>, keys: seq<string>, i: nat)
    requires i < |keys|
    ensures SetAll(tree, Replay(flat, keys[..i + 1])) ==
            SetPath(SetAll(tree, Replay(flat, keys[..i])), [ROOT] + Split(keys[i], '/'),
                    Leaf(Scalar(ValueOf(flat, keys[i]))))
  {
    assert keys[..i + 1][..i] == keys[..i];
    var updates := Replay(flat, keys[..i + 1]);
    assert updates[..i] == Replay(flat, keys[..i]);
  }

  lemma EmptyData()
    ensures Rebuilds(map[], Dir(map[])) && Loadable(map[])
  {
    var empty: Node<Cell> := Dir(map[]);
    assert forall path: Path :: LeafIn(VMap(map[]), path).None?;
    assert forall path: Path :: LeafAt(empty, path).None?;
  }

  lemma LoadableLoads(data: map<string, Value>, flat: map<string, string>, keys: seq<string>)
    requires CleanLeaves(data) && IsSortedKeys(data, flat, keys)
    ensures forall k | 0 <= k < |keys| :: "" !in Split(keys[k], '/')
    ensures Rebuilds(data, SetAll(Dir(map[]), Replay(flat, keys)))
  {
    hide IsSortedKeys, CleanLeaves, Rebuilds, Replays, Split, Replay;
    forall k | 0 <= k < |keys| ensures "" !in Split(keys[k], '/') {
      CleanSortedKey(data, flat, keys, k);
    }
    CleanReplays(data, flat, keys);
    ReplayRebuilds(data, Replay(flat, keys));
  }

  /** The replay into an empty tree gets through and gives back the data exactly when the data is loadable. */
  lemma LoadedIff(data: map<string, Value>, flat: map<string, string>, keys: seq<string>)
    requires Printable(VMap(data)) && IsSortedKeys(data, flat, keys)
    requires forall key :: key in RESERVED_KEYS ==> key !in data
    ensures Loadable(data) <==>
            (forall k | 0 <= k < |keys| :: "" !in Split(keys[k], '/')) &&
            Rebuilds(data, SetAll(Dir(map[]), Replay(flat, keys)))
  {
    hide FlattenedInto, CleanLeaves, Rebuilds, Replay, Printable, SetAll;
    if Loadable(data) {
      LoadableLoads(data, flat, keys);
    }
    if (forall k | 0 <= k < |keys| :: "" !in Split(keys[k], '/')) &&
       Rebuilds(data, SetAll(Dir(map[]), Replay(flat, keys))) {
      forall k | 0 <= k < |keys| ensures '.' !in keys[k] {
        assert keys[k] in keys;
      }
      RebuildsOnlyClean(data, flat, keys);
    }
  }

  lemma {:induction false} CountOnce(a: seq<string>, x: string)
    requires forall i, j | 0 <= i < j < |a| :: a[i] != a[j]
    ensures multiset(a)[x] <= 1
  {
    if a != [] {
      assert a == [a[0]] + a[1..];
      CountOnce(a[1..], x);
    }
  }

  lemma CountTwice(b: seq<string>, i: nat, j: nat)
    requires i < j < |b| && b[i] == b[j]
    ensures multiset(b)[b[i]] >= 2
  {
    assert b == b[..i] + [b[i]] + b[i + 1..j] + [b[j]] + b[j + 1..];
  }

  /** A reordering has no repeats either. */
  lemma SameDistinct(a: seq<string>, b: seq<string>)
    requires multiset(a) == multiset(b)
    requires forall i, j | 0 <= i < j < |a| :: a[i] != a[j]
    ensures forall i, j | 0 <= i < j < |b| :: b[i] != b[j]
  {
    forall i, j | 0 <= i < j < |b| ensures b[i] != b[j] {
      CountOnce(a, b[i]);
      if b[i] == b[j] {
        CountTwice(b, i, j);
      }
    }
  }
}
