/**
 The record of awarded prizes: trackPrizeDistribution in courts/court/prize_handler.go writes it in buckets
 of a hundred, service/cmd/winners/winners.go reads it back in order.
 */
module PrizeLedger {
  import opened Wrappers
  import opened Text
  import opened TreeData

  datatype Cell = Count(number: int) | Link(tip: string)

  datatype Award = Award(player: string, prize: string)

  const NUMBER_PATH := [ROOT, "prizeNumber"]
  const WINNERS_PATH := [ROOT, "winners"]
  const BUCKET_SIZE := 100

  /** The smallest multiple of the bucket size that is not below the number. */
  function Bucket(n: nat): (b: nat)
    ensures b % BUCKET_SIZE == 0 && b - BUCKET_SIZE < n <= b
  {
    (n + BUCKET_SIZE - 1) / BUCKET_SIZE * BUCKET_SIZE
  }

  function WinnerNode(award: Award): Node<Cell> {
    Dir(map["player" := Leaf(Link(award.player)), "prize" := Leaf(Link(award.prize))])
  }

  function PrizeNumber(tree: Node<Cell>): int {
    var leaf: Option<Cell> := LeafAt(tree, NUMBER_PATH);
    match leaf
    case Some(Count(n)) => n
    case _ => 0
  }

  /** The two transactions of one award. */
  function Record(tree: Node<Cell>, award: Award): Node<Cell>
    requires PrizeNumber(tree) >= 0
  {
    var n := PrizeNumber(tree) + 1;
    SetPath(SetPath(tree, NUMBER_PATH, Leaf(Count(n))),
            WINNERS_PATH + [Itoa(Bucket(n))] + [Itoa(n)], WinnerNode(award))
  }

  /** The tree of the prize handler. It is lost when a block is refused: the field is assigned nil. */
  class PrizeTree {
    var tree: Option<Node<Cell>>

    constructor ()
      ensures tree == Some(Dir(map[]))
    {
      tree := Some(Dir(map[]));
    }

    method TrackPrizeDistribution(award: Award, accepted: bool) returns (r: Result<Unit>)
      requires tree.Some? ==> PrizeNumber(tree.value) >= 0
      modifies this
      ensures old(tree).None? ==> r.Panicked? && tree.None?
      ensures old(tree).Some? ==>
                if accepted then r.Ok? && tree == Some(Record(old(tree).value, award)) else r.Err? && tree.None?
    {
      if tree.None? {
        return Panicked;
      }
      var prizeNum := PrizeNumber(tree.value) + 1;
      var bucket := Bucket(prizeNum);
      var counted := SetPath(tree.value, NUMBER_PATH, Leaf(Count(prizeNum)));
      if !accepted {
        tree := None;
        return Err("error playing prize transactions");
      }
      tree := Some(SetPath(counted, WINNERS_PATH + [Itoa(bucket)] + [Itoa(prizeNum)], WinnerNode(award)));
      r := Ok(Unit);
    }
  }

  /** The ledger after some awards, oldest first. */
  function Ledger(awards: seq<Award>): (tree: Node<Cell>)
    ensures PrizeNumber(tree) == |awards|
  {
    if awards == [] then Dir(map[])
    else
      var n := |awards| - 1;
      RecordCounts(Ledger(awards[..n]), awards[n]);
      Record(Ledger(awards[..n]), awards[n])
  }

  lemma RecordCounts(tree: Node<Cell>, award: Award)
    requires PrizeNumber(tree) >= 0
    ensures PrizeNumber(Record(tree, award)) == PrizeNumber(tree) + 1
  {
    var n := PrizeNumber(tree) + 1;
    var counted := SetPath(tree, NUMBER_PATH, Leaf(Count(n)));
    var path := WINNERS_PATH + [Itoa(Bucket(n))] + [Itoa(n)];
    assert NUMBER_PATH[1] != path[1];
    LeafAfterSet(tree, NUMBER_PATH, Count(n), NUMBER_PATH);
    LeafAfterSetDir(counted, path, WinnerNode(award), NUMBER_PATH);
  }

  /** Entry n is in the bucket of n. */
  function Entry(tree: Node<Cell>, bucket: string, number: string): Option<Node<Cell>> {
    var buckets := MapAt(tree, WINNERS_PATH);
    if bucket in buckets && buckets[bucket].Dir? && number in buckets[bucket].entries then
      Some(buckets[bucket].entries[number])
    else None
  }

  /** Every bucket is a map, and none is empty. */
  ghost predicate BucketsOk(tree: Node<Cell>) {
    forall b | b in MapAt(tree, WINNERS_PATH) ::
      MapAt(tree, WINNERS_PATH)[b].Dir? && MapAt(tree, WINNERS_PATH)[b].entries != map[]
  }

  /** An award replaces one bucket by the same bucket with one more entry. */
  lemma WinnersAfterRecord(tree: Node<Cell>, award: Award)
    requires PrizeNumber(tree) >= 0 && BucketsOk(tree)
    ensures var n := PrizeNumber(tree) + 1;
            var buckets := MapAt(tree, WINNERS_PATH);
            var old_ := if Itoa(Bucket(n)) in buckets then buckets[Itoa(Bucket(n))].entries else map[];
            MapAt(Record(tree, award), WINNERS_PATH) ==
            buckets[Itoa(Bucket(n)) := Dir(old_[Itoa(n) := WinnerNode(award)])]
  {
    hide Itoa, Bucket, WinnerNode, PrizeNumber;
    var n := PrizeNumber(tree) + 1;
    var bucket, number := Itoa(Bucket(n)), Itoa(n);
    var counted := SetPath(tree, NUMBER_PATH, Leaf(Count(n)));
    assert NUMBER_PATH[1] != WINNERS_PATH[1];
    ResolveAfterSet(tree, NUMBER_PATH, Leaf(Count(n)), WINNERS_PATH);
    assert MapAt(counted, WINNERS_PATH) == MapAt(tree, WINNERS_PATH);
    MapAfterSetBelow(counted, WINNERS_PATH, bucket, [number], WinnerNode(award));
    var buckets := MapAt(tree, WINNERS_PATH);
    SetOne(if bucket in buckets then buckets[bucket] else Dir(map[]), number, WinnerNode(award));
  }

  lemma SetOne(t: Node<Cell>, key: string, sub: Node<Cell>)
    requires t.Dir?
    ensures SetPath(t, [key], sub) == Dir(t.entries[key := sub])
  {
  }

  lemma RecordAddsEntry(tree: Node<Cell>, award: Award, b: string, k: string)
    requires PrizeNumber(tree) >= 0 && BucketsOk(tree)
    ensures BucketsOk(Record(tree, award))
    ensures var n := PrizeNumber(tree) + 1;
            Entry(Record(tree, award), b, k) ==
              if b == Itoa(Bucket(n)) && k == Itoa(n) then Some(WinnerNode(award)) else Entry(tree, b, k)
  {
    hide Itoa, Bucket, Record, MapAt, WinnerNode;
    WinnersAfterRecord(tree, award);
    var n := PrizeNumber(tree) + 1;
    var entries := MapAt(Record(tree, award), WINNERS_PATH)[Itoa(Bucket(n))].entries;
    assert Itoa(n) in entries;
  }

  /**
   The ledger after any awards holds exactly the entries 1 to N: entry n is the n-th award, in the bucket of n,
   and there is nothing else in it.
   */
  lemma {:induction false} LedgerExact(awards: seq<Award>, b: string, k: string)
    ensures BucketsOk(Ledger(awards))
    ensures forall n | 1 <= n <= |awards| && b == Itoa(Bucket(n)) && k == Itoa(n) ::
              Entry(Ledger(awards), b, k) == Some(WinnerNode(awards[n - 1]))
    ensures Entry(Ledger(awards), b, k).Some? ==> exists n :: 1 <= n <= |awards| && b == Itoa(Bucket(n)) && k == Itoa(n)
  {
    if awards != [] {
      var last := |awards|;
      LedgerExact(awards[..last - 1], b, k);
      RecordAddsEntry(Ledger(awards[..last - 1]), awards[last - 1], b, k);
      hide Itoa, Bucket, Record, Entry, WinnerNode, BucketsOk;
      forall n | 1 <= n <= last && b == Itoa(Bucket(n)) && k == Itoa(n)
        ensures Entry(Ledger(awards), b, k) == Some(WinnerNode(awards[n - 1]))
      {
        if k == Itoa(last) {
          ItoaInjective(n, last);
        } else {
          assert awards[..last - 1][n - 1] == awards[n - 1];
        }
      }
    }
  }

  lemma ItoaInjective(i: int, j: int)
    requires Itoa(i) == Itoa(j)
    ensures i == j
  {
    FormatIntInjective(i, j, Ten);
  }
}
