/** cache/cache.go: nodes exported as length-prefixed frames, and loaded back. */
module NodeCache {
  import opened Wrappers

  type Byte = b: int | 0 <= b < 256

  type Bytes = seq<Byte>

  const PREFIX_SIZE := 8

  function Pow256(k: nat): nat {
    if k == 0 then 1 else 256 * Pow256(k - 1)
  }

  /** The lowest k bytes of a number, least significant first. */
  function LittleEndian(n: nat, k: nat): (bytes: Bytes)
    ensures |bytes| == k
  {
    if k == 0 then [] else [n % 256] + LittleEndian(n / 256, k - 1)
  }

  function FromLittleEndian(bytes: Bytes): nat {
    if bytes == [] then 0 else bytes[0] + 256 * FromLittleEndian(bytes[1..])
  }

  /** Byte i of a prefix counts the 256 to the power of i: the least significant byte comes first. */
  lemma {:induction false} ByteAt(n: nat, k: nat, i: nat)
    requires i < k
    ensures Pow256(i) > 0 && LittleEndian(n, k)[i] == n / Pow256(i) % 256
  {
    if i > 0 {
      ByteAt(n / 256, k - 1, i - 1);
      DivTwice(n, Pow256(i - 1));
    }
  }

  lemma DivTwice(n: nat, b: nat)
    requires b > 0
    ensures n / 256 / b == n / (256 * b)
  {
    var m := n / 256;
    var q, r := m / b, m % b;
    assert m == b * q + r;
    assert (256 * b) * q == 256 * (b * q);
    QuotientUnique(n, 256 * b, q, 256 * r + n % 256);
  }

  lemma QuotientUnique(n: nat, d: nat, q: nat, r: nat)
    requires n == d * q + r && r < d
    ensures n / d == q
  {
    var other, rest := n / d, n % d;
    assert n == d * other + rest;
    assert d * (other - q) == d * other - d * q;
    MultipleGrows(d, other - q);
  }

  lemma MultipleGrows(d: nat, x: int)
    ensures x >= 1 ==> d * x >= d
    ensures x <= -1 ==> d * x + d <= 0
  {
    assert d * x == d * (x - 1) + d && d * x == d * (x + 1) - d;
  }

  /** What does not fit in k bytes is lost, everything else comes back. */
  lemma {:induction false} LittleEndianRoundTrip(n: nat, k: nat)
    ensures FromLittleEndian(LittleEndian(n, k)) == n <==> n < Pow256(k)
  {
    if k > 0 {
      LittleEndianRoundTrip(n / 256, k - 1);
      assert LittleEndian(n, k)[1..] == LittleEndian(n / 256, k - 1);
    }
  }

  /** The same from the bytes' side. */
  lemma {:induction false} BytesRoundTrip(bytes: Bytes)
    ensures LittleEndian(FromLittleEndian(bytes), |bytes|) == bytes
  {
    if bytes != [] {
      BytesRoundTrip(bytes[1..]);
      assert FromLittleEndian(bytes) % 256 == bytes[0] && FromLittleEndian(bytes) / 256 == FromLittleEndian(bytes[1..]);
      assert bytes == [bytes[0]] + bytes[1..];
    }
  }

  /** The longest slice of bytes that can be made on a 64-bit machine; `make` panics beyond it. */
  const MAX_SLICE := 0x1_0000_0000_0000

  lemma SliceFitsPrefix(n: nat)
    requires n <= MAX_SLICE
    ensures n < Pow256(PREFIX_SIZE)
  {
    assert Pow256(8) == 256 * 256 * 256 * 256 * Pow256(4) && Pow256(4) == 256 * 256 * 256 * 256 * Pow256(0);
  }

  /** What can be in memory at all. */
  ghost predicate Encodable(nodes: seq<Bytes>) {
    forall node :: node in nodes ==> |node| <= MAX_SLICE
  }

  function Frame(node: Bytes): (frame: Bytes)
    ensures |frame| == PREFIX_SIZE + |node|
  {
    LittleEndian(|node|, PREFIX_SIZE) + node
  }

  function Encode(nodes: seq<Bytes>): Bytes {
    if nodes == [] then [] else Frame(nodes[0]) + Encode(nodes[1..])
  }

  lemma {:induction false} EncodeConcat(a: seq<Bytes>, b: seq<Bytes>)
    ensures Encode(a + b) == Encode(a) + Encode(b)
  {
    if a == [] {
      assert a + b == b;
    } else {
      assert (a + b)[1..] == a[1..] + b;
      EncodeConcat(a[1..], b);
    }
  }

  /** The nodes of the trees before the first one that cannot be fetched. */
  function FetchedNodes(trees: seq<Option<seq<Bytes>>>): seq<Bytes> {
    if trees == [] || trees[0].None? then [] else trees[0].value + FetchedNodes(trees[1..])
  }

  /** The nodes of all trees. */
  function AllNodes(trees: seq<Option<seq<Bytes>>>): seq<Bytes>
    requires forall t :: t in trees ==> t.Some?
  {
    if trees == [] then [] else AllNodes(trees[..|trees| - 1]) + trees[|trees| - 1].value
  }

  /** Nothing of the trees behind the first that fails is exported, and everything of those before it. */
  lemma {:induction false} FetchedUpToFailure(trees: seq<Option<seq<Bytes>>>, k: nat)
    requires k <= |trees| && (k < |trees| ==> trees[k].None?) && forall i | 0 <= i < k :: trees[i].Some?
    ensures FetchedNodes(trees) == AllNodes(trees[..k])
  {
    if k == 0 {
      assert trees[..k] == [];
    } else {
      FetchedUpToFailure(trees[1..], k - 1);
      assert trees[1..][..k - 1] == trees[..k][1..];
      FirstTree(trees[..k]);
    }
  }

  lemma {:induction false} FirstTree(trees: seq<Option<seq<Bytes>>>)
    requires trees != [] && forall t :: t in trees ==> t.Some?
    ensures AllNodes(trees) == trees[0].value + AllNodes(trees[1..])
  {
    var n := |trees| - 1;
    if n == 0 {
      assert trees[..n] == [] && trees[1..] == [];
    } else {
      FirstTree(trees[..n]);
      assert trees[..n][1..] == trees[1..][..n - 1];
    }
  }

  /** The inner loop of Export. */
  method WriteNodes(nodes: seq<Bytes>) returns (out: Bytes)
    ensures out == Encode(nodes)
  {
    out := [];
    for j := 0 to |nodes|
      invariant Encode(nodes) == out + Encode(nodes[j..])
    {
      assert nodes[j..][1..] == nodes[j + 1..];
      out := out + LittleEndian(|nodes[j]|, PREFIX_SIZE);
      out := out + nodes[j];
    }
  }

  /** The outer loop of Export; None stands for a tree that cannot be fetched. */
  method Export(trees: seq<Option<seq<Bytes>>>) returns (out: Bytes, r: Result<Unit>)
    ensures out == Encode(FetchedNodes(trees))
    ensures r.Ok? <==> forall t :: t in trees ==> t.Some?
  {
    out := [];
    for i := 0 to |trees|
      invariant forall k | 0 <= k < i :: trees[k].Some?
      invariant Encode(FetchedNodes(trees)) == out + Encode(FetchedNodes(trees[i..]))
    {
      if trees[i].None? {
        ghost var rest := FetchedNodes(trees[i..]);
        assert rest == [];
        assert !(forall t :: t in trees ==> t.Some?) by {
          assert trees[i] in trees;
        }
        return out, Err("error loading");
      }
      var written := WriteNodes(trees[i].value);
      EncodeConcat(trees[i].value, FetchedNodes(trees[i..][1..]));
      assert trees[i..][1..] == trees[i + 1..];
      out := out + written;
    }
    r := Ok(Unit);
  }

  datatype ReadStatus = Full | Eof | UnexpectedEof

  /** `io.ReadFull`: it takes what there is, and tells an empty source from a short one. */
  function ReadFull(stream: Bytes, size: nat): (Bytes, Bytes, ReadStatus) {
    if size <= |stream| then (stream[..size], stream[size..], Full)
    else (stream, [], if stream == [] then Eof else UnexpectedEof)
  }

  /** The whole frames at the start of a stream, up to a prefix that no slice can have. */
  function WholeFrames(stream: Bytes): seq<Bytes>
    decreases |stream|
  {
    if |stream| < PREFIX_SIZE then []
    else
      var size := FromLittleEndian(stream[..PREFIX_SIZE]);
      if size > MAX_SLICE || size > |stream| - PREFIX_SIZE then []
      else [stream[PREFIX_SIZE..PREFIX_SIZE + size]] + WholeFrames(stream[PREFIX_SIZE + size..])
  }

  /** The prefix at the front is longer than any slice. */
  predicate TooLong(stream: Bytes) {
    |stream| >= PREFIX_SIZE && FromLittleEndian(stream[..PREFIX_SIZE]) > MAX_SLICE
  }

  /** Reading frame by frame comes to such a prefix. */
  predicate Panics(stream: Bytes)
    decreases |stream|
  {
    |stream| >= PREFIX_SIZE &&
    var size := FromLittleEndian(stream[..PREFIX_SIZE]);
    TooLong(stream) || (size <= |stream| - PREFIX_SIZE && Panics(stream[PREFIX_SIZE + size..]))
  }

  /**
   The loop of Load, which goes on after a short read and only stops at the end of the stream, or with a run-time panic
   at a prefix that is too long. What was added before stays added.
   */
  method Load(stream: Bytes) returns (added: seq<Bytes>, r: Result<Unit>)
    ensures added == WholeFrames(stream)
    ensures r == if Panics(stream) then Panicked else Ok(Unit)
  {
    added := [];
    var gz := stream;
    while true
      invariant WholeFrames(stream) == added + WholeFrames(gz)
      invariant Panics(stream) == Panics(gz)
      decreases |gz|
    {
      var (dataSize, afterPrefix, prefixStatus) := ReadFull(gz, PREFIX_SIZE);
      if prefixStatus.Eof? {
        break;
      }
      if prefixStatus.UnexpectedEof? {
        gz := afterPrefix;
        continue;
      }
      var size := FromLittleEndian(dataSize);
      if size > MAX_SLICE {
        return added, Panicked;
      }
      var (data, rest, dataStatus) := ReadFull(afterPrefix, size);
      if !dataStatus.Full? {
        gz := rest;
        continue;
      }
      assert data == gz[PREFIX_SIZE..PREFIX_SIZE + size] && rest == gz[PREFIX_SIZE + size..];
      gz := rest;
      added := added + [data];
    }
    r := Ok(Unit);
  }

  /** A stream that begins with a whole frame. */
  lemma FrameThenRest(stream: Bytes) returns (node: Bytes, rest: Bytes)
    requires |stream| >= PREFIX_SIZE && FromLittleEndian(stream[..PREFIX_SIZE]) <= |stream| - PREFIX_SIZE
    ensures |node| == FromLittleEndian(stream[..PREFIX_SIZE])
    ensures stream == Frame(node) + rest && rest == stream[PREFIX_SIZE + |node|..]
  {
    var size := FromLittleEndian(stream[..PREFIX_SIZE]);
    BytesRoundTrip(stream[..PREFIX_SIZE]);
    node, rest := stream[PREFIX_SIZE..PREFIX_SIZE + size], stream[PREFIX_SIZE + size..];
    assert stream == stream[..PREFIX_SIZE] + node + rest;
  }

  lemma {:induction false} PanicsAfterNodes(stream: Bytes) returns (nodes: seq<Bytes>, rest: Bytes)
    requires Panics(stream)
    ensures Encodable(nodes) && stream == Encode(nodes) + rest && TooLong(rest)
    decreases |stream|
  {
    hide FromLittleEndian, LittleEndian, Frame;
    if TooLong(stream) {
      nodes, rest := [], stream;
    } else {
      var node, after := FrameThenRest(stream);
      var more;
      more, rest := PanicsAfterNodes(after);
      nodes := [node] + more;
      assert Encode(nodes) == Frame(node) + Encode(more);
    }
  }

  lemma {:induction false} NodesThenPanic(nodes: seq<Bytes>, rest: Bytes)
    requires Encodable(nodes)
    ensures Panics(Encode(nodes) + rest) == Panics(rest)
  {
    hide Panics, Frame;
    if nodes == [] {
      assert Encode(nodes) + rest == rest;
    } else {
      assert nodes[0] in nodes;
      var more := Encode(nodes[1..]) + rest;
      assert Encode(nodes) + rest == Frame(nodes[0]) + more;
      NodeThenPanic(nodes[0], more);
      NodesThenPanic(nodes[1..], rest);
    }
  }

  lemma NodeThenPanic(node: Bytes, rest: Bytes)
    requires |node| <= MAX_SLICE
    ensures Panics(Frame(node) + rest) == Panics(rest)
  {
    SliceFitsPrefix(|node|);
    hide Pow256;
    LittleEndianRoundTrip(|node|, PREFIX_SIZE);
    var stream := Frame(node) + rest;
    assert stream[..PREFIX_SIZE] == LittleEndian(|node|, PREFIX_SIZE);
    assert stream[PREFIX_SIZE + |node|..] == rest;
  }

  /** Load panics exactly on streams in which some whole frames are followed by a prefix that is too long. */
  lemma PanicsIff(stream: Bytes)
    ensures Panics(stream) <==>
            exists nodes, rest :: Encodable(nodes) && stream == Encode(nodes) + rest && TooLong(rest)
  {
    hide Encode;
    if Panics(stream) {
      var nodes, rest := PanicsAfterNodes(stream);
    }
    forall nodes, rest | Encodable(nodes) && stream == Encode(nodes) + rest && TooLong(rest) ensures Panics(stream) {
      NodesThenPanic(nodes, rest);
    }
  }

  /** How many of the exported nodes lie wholly in the first k bytes. */
  function NodesWithin(nodes: seq<Bytes>, k: nat): (m: nat)
    ensures m <= |nodes|
  {
    if nodes == [] || k < |Frame(nodes[0])| then 0 else 1 + NodesWithin(nodes[1..], k - |Frame(nodes[0])|)
  }

  lemma {:induction false} NodesWithinIsMaximal(nodes: seq<Bytes>, k: nat)
    ensures var m := NodesWithin(nodes, k);
            |Encode(nodes[..m])| <= k && (m < |nodes| ==> k < |Encode(nodes[..m + 1])|)
  {
    var m := NodesWithin(nodes, k);
    if nodes == [] || k < |Frame(nodes[0])| {
      if nodes != [] {
        assert nodes[..1] == [nodes[0]] && nodes[..1][1..] == [];
      }
    } else {
      NodesWithinIsMaximal(nodes[1..], k - |Frame(nodes[0])|);
      assert nodes[..m][1..] == nodes[1..][..m - 1];
      if m < |nodes| {
        assert nodes[..m + 1][1..] == nodes[1..][..m];
      }
    }
  }

  /** A frame at the front of a stream is read as its node. */
  lemma FirstFrame(node: Bytes, rest: Bytes)
    requires |node| <= MAX_SLICE
    ensures WholeFrames(Frame(node) + rest) == [node] + WholeFrames(rest)
  {
    SliceFitsPrefix(|node|);
    hide Pow256;
    LittleEndianRoundTrip(|node|, PREFIX_SIZE);
    var stream := Frame(node) + rest;
    assert stream[..PREFIX_SIZE] == LittleEndian(|node|, PREFIX_SIZE);
    assert stream[PREFIX_SIZE..PREFIX_SIZE + |node|] == node;
    assert stream[PREFIX_SIZE + |node|..] == rest;
  }

  /** A part of a frame is not read at all. */
  lemma PartialFrame(node: Bytes, k: nat)
    requires |node| <= MAX_SLICE && k < |Frame(node)|
    ensures WholeFrames(Frame(node)[..k]) == [] && !Panics(Frame(node)[..k])
  {
    SliceFitsPrefix(|node|);
    hide Pow256;
    LittleEndianRoundTrip(|node|, PREFIX_SIZE);
    if k >= PREFIX_SIZE {
      assert Frame(node)[..k][..PREFIX_SIZE] == LittleEndian(|node|, PREFIX_SIZE);
    }
  }

  lemma ShortStream(stream: Bytes)
    requires |stream| < PREFIX_SIZE
    ensures WholeFrames(stream) == [] && !Panics(stream)
  {
  }

  /**
   Loading the first k bytes of an export adds exactly the longest prefix of its nodes that lies in them;
   with all the bytes, every exported node in order. No cut makes it panic.
   */
  lemma {:induction false} LoadOfTruncatedExport(nodes: seq<Bytes>, k: nat)
    requires Encodable(nodes) && k <= |Encode(nodes)|
    ensures WholeFrames(Encode(nodes)[..k]) == nodes[..NodesWithin(nodes, k)]
    ensures k == |Encode(nodes)| ==> NodesWithin(nodes, k) == |nodes|
    ensures !Panics(Encode(nodes)[..k])
  {
    hide Pow256, WholeFrames, Frame, Panics;
    if nodes == [] {
      ShortStream(Encode(nodes)[..k]);
    } else {
      assert nodes[0] in nodes;
      var size := |Frame(nodes[0])|;
      var stream := Encode(nodes)[..k];
      if k < size {
        assert stream == Frame(nodes[0])[..k];
        PartialFrame(nodes[0], k);
      } else {
        var rest := Encode(nodes[1..])[..k - size];
        assert stream == Frame(nodes[0]) + rest;
        FirstFrame(nodes[0], rest);
        NodeThenPanic(nodes[0], rest);
        LoadOfTruncatedExport(nodes[1..], k - size);
        assert nodes[..NodesWithin(nodes, k)] == [nodes[0]] + nodes[1..][..NodesWithin(nodes[1..], k - size)];
      }
    }
  }
}
