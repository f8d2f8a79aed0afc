/** The data a chain tree carries: nested maps addressed by path, as SetData transactions update them. */
module TreeData {
  import opened Wrappers

  datatype Node<+V> = Leaf(value: V) | Dir(entries: map<string, Node<V>>)

  type Path = seq<string>

  /** Where a tree keeps what belongs to the game. */
  const ROOT := "jasons-game"

  /** The value at a path is replaced; missing or non-map nodes on the way become maps. */
  function SetPath<V>(t: Node<V>, path: Path, sub: Node<V>): Node<V>
    decreases |path|
  {
    if path == [] then sub
    else
      var entries := if t.Dir? then t.entries else map[];
      var child := if path[0] in entries then entries[path[0]] else Dir(map[]);
      Dir(entries[path[0] := SetPath(child, path[1..], sub)])
  }

  /** None stands for Go's nil: nothing is stored at the path. */
  function Resolve<V>(t: Node<V>, path: Path): Option<Node<V>>
    decreases |path|
  {
    if path == [] then Some(t)
    else if t.Dir? && path[0] in t.entries then Resolve(t.entries[path[0]], path[1..])
    else None
  }

  function LeafAt<V>(t: Node<V>, path: Path): Option<V> {
    match Resolve(t, path)
    case Some(Leaf(v)) => Some(v)
    case _ => None
  }

  predicate Comparable(p: Path, q: Path) {
    p <= q || q <= p
  }

  /** Reading after a write: at or below the path the new node, above it a map, elsewhere no change. */
  lemma {:induction false} ResolveAfterSet<V>(t: Node<V>, p: Path, sub: Node<V>, q: Path)
    ensures p <= q ==> Resolve(SetPath(t, p, sub), q) == Resolve(sub, q[|p|..])
    ensures q < p ==> Resolve(SetPath(t, p, sub), q).Some? && Resolve(SetPath(t, p, sub), q).value.Dir?
    ensures !Comparable(p, q) ==> Resolve(SetPath(t, p, sub), q) == Resolve(t, q)
    decreases |p|
  {
    if p != [] && q != [] && p[0] == q[0] {
      var entries := if t.Dir? then t.entries else map[];
      var child := if p[0] in entries then entries[p[0]] else Dir(map[]);
      ResolveAfterSet(child, p[1..], sub, q[1..]);
      assert p == [p[0]] + p[1..] && q == [q[0]] + q[1..];
      assert p <= q <==> p[1..] <= q[1..];
      assert q <= p <==> q[1..] <= p[1..];
      if p <= q {
        assert q[|p|..] == q[1..][|p[1..]|..];
      }
    }
  }

  /** The map at a path, empty where there is none. */
  function MapAt<V>(t: Node<V>, path: Path): map<string, Node<V>> {
    match Resolve(t, path)
    case Some(Dir(entries)) => entries
    case _ => map[]
  }

  /** A write below a path, seen from that path. */
  lemma {:induction false} MapAfterSetBelow<V>(t: Node<V>, path: Path, key: string, rest: Path, sub: Node<V>)
    ensures var entries := MapAt(t, path);
            MapAt(SetPath(t, path + [key] + rest, sub), path) ==
            entries[key := SetPath(if key in entries then entries[key] else Dir(map[]), rest, sub)]
    decreases |path|
  {
    var full := path + [key] + rest;
    if path == [] {
      assert full[0] == key && full[1..] == rest;
    } else {
      assert full[0] == path[0] && full[1..] == path[1..] + [key] + rest;
      var entries := if t.Dir? then t.entries else map[];
      var child := if path[0] in entries then entries[path[0]] else Dir(map[]);
      MapAfterSetBelow(child, path[1..], key, rest, sub);
    }
  }

  /** A path and the map above it. */
  lemma {:induction false} ResolveChild<V>(t: Node<V>, path: Path, key: string)
    ensures Resolve(t, path + [key]) == if key in MapAt(t, path) then Some(MapAt(t, path)[key]) else None
    decreases |path|
  {
    var full := path + [key];
    if path == [] {
      assert full[1..] == [];
    } else {
      assert full[1..] == path[1..] + [key];
      if t.Dir? && path[0] in t.entries {
        ResolveChild(t.entries[path[0]], path[1..], key);
      }
    }
  }

  /** A map that was written is the map that is read. */
  lemma MapAfterSet<V>(t: Node<V>, path: Path, entries: map<string, Node<V>>)
    ensures MapAt(SetPath(t, path, Dir(entries)), path) == entries
  {
    ResolveAfterSet(t, path, Dir(entries), path);
    assert path[|path|..] == [];
  }

  /** A write of a leaf, seen through leaves only. */
  lemma LeafAfterSet<V>(t: Node<V>, p: Path, v: V, q: Path)
    ensures LeafAt(SetPath(t, p, Leaf(v)), q) ==
            if p == q then Some(v) else if Comparable(p, q) then None else LeafAt(t, q)
  {
    ResolveAfterSet(t, p, Leaf(v), q);
    if p <= q && p != q {
      assert q[|p|..] != [];
    }
  }

  /** A write of a whole map, seen through leaves only. */
  lemma LeafAfterSetDir<V>(t: Node<V>, p: Path, sub: Node<V>, q: Path)
    requires sub.Dir?
    ensures LeafAt(SetPath(t, p, sub), q) ==
            if p <= q then LeafAt(sub, q[|p|..]) else if q <= p then None else LeafAt(t, q)
  {
    ResolveAfterSet(t, p, sub, q);
  }

  /** One leaf write: where and what. */
  type Update<V> = (Path, V)

  function SetAll<V>(t: Node<V>, updates: seq<Update<V>>): Node<V> {
    if updates == [] then t
    else
      var last := updates[|updates| - 1];
      SetPath(SetAll(t, updates[..|updates| - 1]), last.0, Leaf(last.1))
  }

  /** No path is a prefix of another; in particular the paths are distinct. */
  ghost predicate PrefixFree<V>(updates: seq<Update<V>>) {
    forall i, j | 0 <= i < |updates| && 0 <= j < |updates| && i != j :: !Comparable(updates[i].0, updates[j].0)
  }

  /** With no two paths in conflict, every write of the list survives, whatever the order. */
  lemma {:induction false} WrittenLeafSurvives<V>(t: Node<V>, updates: seq<Update<V>>, k: nat)
    requires PrefixFree(updates) && k < |updates|
    ensures LeafAt(SetAll(t, updates), updates[k].0) == Some(updates[k].1)
  {
    var n := |updates| - 1;
    LeafAfterSet(SetAll(t, updates[..n]), updates[n].0, updates[n].1, updates[k].0);
    if k < n {
      assert !Comparable(updates[n].0, updates[k].0);
      WrittenLeafSurvives(t, updates[..n], k);
    }
  }

  /** Writes elsewhere leave a path alone. */
  lemma {:induction false} UnrelatedPathUnchanged<V>(t: Node<V>, updates: seq<Update<V>>, q: Path)
    requires forall k | 0 <= k < |updates| :: !Comparable(updates[k].0, q)
    ensures Resolve(SetAll(t, updates), q) == Resolve(t, q)
  {
    if updates != [] {
      var n := |updates| - 1;
      UnrelatedPathUnchanged(t, updates[..n], q);
      ResolveAfterSet(SetAll(t, updates[..n]), updates[n].0, Leaf(updates[n].1), q);
    }
  }

  /** Without any assumption on the paths, only written paths can hold leaves in an empty tree. */
  lemma {:induction false} OnlyWrittenLeaves<V>(updates: seq<Update<V>>, q: Path)
    requires LeafAt(SetAll(Dir(map[]), updates), q).Some?
    ensures exists k | 0 <= k < |updates| :: updates[k].0 == q
  {
    if updates != [] {
      var n := |updates| - 1;
      LeafAfterSet(SetAll(Dir(map[]), updates[..n]), updates[n].0, updates[n].1, q);
      if updates[n].0 != q {
        OnlyWrittenLeaves(updates[..n], q);
        var k :| 0 <= k < n && updates[..n][k].0 == q;
        assert updates[k].0 == q;
      }
    }
  }
}
