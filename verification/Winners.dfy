/** service/cmd/winners/winners.go: the export of the ledger, bucket by bucket and number by number. */
module Winners {
  import opened Wrappers
  import opened Text
  import opened Sorting
  import opened TreeData
  import opened PrizeLedger

  datatype Row = Row(number: string, player: string, prize: string, signupKey: string)

  /**
   What the network tells about other trees: the did a tip belongs to, and the owners of a tree that can be fetched.
   */
  datatype Directory = Directory(didOf: map<string, string>, ownersOf: map<string, seq<string>>)

  /**
   A line of the export: both tips have a did, the player's tree can be fetched, and its first owner is the signup key.
   */
  function RowFor(dir: Directory, number: string, player: string, prize: string): Option<Row> {
    if player !in dir.didOf || prize !in dir.didOf then None
    else if dir.didOf[player] !in dir.ownersOf || dir.ownersOf[dir.didOf[player]] == [] then None
    else Some(Row(number, dir.didOf[player], dir.didOf[prize], dir.ownersOf[dir.didOf[player]][0]))
  }

  /** Every winner and every prize can be looked up. */
  ghost predicate Known(dir: Directory, awards: seq<Award>) {
    forall i | 0 <= i < |awards| :: RowFor(dir, Itoa(i + 1), awards[i].player, awards[i].prize).Some?
  }

  function Atoi(s: string): Option<int> {
    ParseInt(s, Ten)
  }

  /** The keys are the printed forms of some numbers, listed in ascending order. */
  ghost predicate Listing(keys: set<string>, numbers: seq<int>) {
    Ascending(numbers) &&
    (forall n :: n in numbers ==> IsInt64(n) && Itoa(n) in keys) &&
    (forall k :: k in keys ==> exists n :: n in numbers && k == Itoa(n))
  }

  /** numbers is what the caller knows the keys to be; keys that are not numbers make the program panic. */
  method SortNumericKeys(keys: set<string>, ghost numbers: seq<int>) returns (r: Result<seq<string>>)
    ensures r.Ok? || r.Panicked?
    ensures r.Panicked? <==> exists key :: key in keys && Atoi(key).None?
    ensures Listing(keys, numbers) ==> r == Ok(ItoaAll(numbers))
  {
    var found: seq<int> := [];
    var todo := keys;
    while todo != {}
      invariant todo <= keys
      invariant forall key | key in keys && key !in todo :: Atoi(key).Some?
      invariant Listing(keys, numbers) ==>
                  NoRepeats(found) && (forall n :: n in found <==> n in numbers && Itoa(n) !in todo)
      decreases todo
    {
      var key :| key in todo;
      var number := Atoi(key);
      if number.None? {
        if Listing(keys, numbers) {
          KeyIsNumber(keys, numbers, key);
        }
        return Panicked;
      }
      if Listing(keys, numbers) {
        KeyIsNumber(keys, numbers, key);
        forall n | n in numbers && Itoa(n) == key ensures n == number.value {
          ItoaInjective(n, number.value);
        }
      }
      todo := todo - {key};
      found := found + [number.value];
    }
    if Listing(keys, numbers) {
      SortOfDistinct(found, numbers);
    }
    r := Ok(ItoaAll(SortInts(found)));
  }

  lemma KeyIsNumber(keys: set<string>, numbers: seq<int>, key: string)
    requires Listing(keys, numbers) && key in keys
    ensures Atoi(key).Some? && Atoi(key).value in numbers && Itoa(Atoi(key).value) == key
  {
    var n :| n in numbers && key == Itoa(n);
    IntRoundTrip(n, Ten);
  }

  /** The numbers from lo up to hi, both included. */
  function Range(lo: int, hi: int): (r: seq<int>)
    ensures |r| == if lo <= hi then hi - lo + 1 else 0
    ensures forall k | 0 <= k < |r| :: r[k] == lo + k
    ensures forall n :: n in r <==> lo <= n <= hi
    decreases hi - lo
  {
    if lo > hi then [] else [lo] + Range(lo + 1, hi)
  }

  /** The buckets that N awards fill. */
  function BucketList(n: nat): (r: seq<int>)
    ensures |r| == Bucket(n) / BUCKET_SIZE
    ensures forall k | 0 <= k < |r| :: r[k] == BUCKET_SIZE * (k + 1)
  {
    BucketsUpTo(Bucket(n) / BUCKET_SIZE)
  }

  function BucketsUpTo(count: nat): (r: seq<int>)
    ensures |r| == count
    ensures forall k | 0 <= k < |r| :: r[k] == BUCKET_SIZE * (k + 1)
  {
    if count == 0 then [] else BucketsUpTo(count - 1) + [BUCKET_SIZE * count]
  }

  function Min(a: int, b: int): int {
    if a <= b then a else b
  }

  ghost function RowOf(dir: Directory, awards: seq<Award>, i: nat): Row
    requires i < |awards| && Known(dir, awards)
  {
    RowFor(dir, Itoa(i + 1), awards[i].player, awards[i].prize).value
  }

  /** One row for each award, in order. */
  ghost function Rows(dir: Directory, awards: seq<Award>): (rows: seq<Row>)
    requires Known(dir, awards)
    ensures |rows| == |awards|
    ensures forall i | 0 <= i < |awards| :: rows[i] == RowOf(dir, awards, i)
  {
    seq(|awards|, i requires 0 <= i < |awards| => RowOf(dir, awards, i))
  }

  /**
   A number is in a bucket exactly when it is one of its hundred, and bucket lists hold the buckets of all numbers.
   */
  lemma BucketOfNumber(total: nat, n: nat, k: nat)
    requires 1 <= n <= total
    ensures Bucket(n) == BUCKET_SIZE * (k + 1) <==> BUCKET_SIZE * k < n <= BUCKET_SIZE * (k + 1)
    ensures 1 <= Bucket(n) / BUCKET_SIZE <= |BucketList(total)| && Bucket(n) == BUCKET_SIZE * (Bucket(n) / BUCKET_SIZE)
  {
  }

  lemma BucketIsKey(awards: seq<Award>, b: int)
    requires b in BucketList(|awards|)
    ensures Itoa(b) in MapAt(Ledger(awards), WINNERS_PATH)
  {
    hide Itoa, Ledger, MapAt, BucketsOk;
    var n := b - BUCKET_SIZE + 1;
    assert Bucket(n) == b;
    LedgerExact(awards, Itoa(b), Itoa(n));
  }

  lemma KeyIsBucket(awards: seq<Award>, key: string) returns (b: int)
    requires key in MapAt(Ledger(awards), WINNERS_PATH)
    ensures b in BucketList(|awards|) && key == Itoa(b)
  {
    hide Itoa, Ledger, MapAt;
    LedgerExact(awards, key, "");
    var k :| k in MapAt(Ledger(awards), WINNERS_PATH)[key].entries;
    LedgerExact(awards, key, k);
    var n :| 1 <= n <= |awards| && key == Itoa(Bucket(n)) && k == Itoa(n);
    b := Bucket(n);
    BucketOfNumber(|awards|, n, 0);
    assert BucketList(|awards|)[b / BUCKET_SIZE - 1] == b;
  }

  lemma BucketKeysListed(awards: seq<Award>)
    requires |awards| <= MAX_INT64 - BUCKET_SIZE
    ensures Listing(MapAt(Ledger(awards), WINNERS_PATH).Keys, BucketList(|awards|))
  {
    hide Itoa, Ledger, MapAt;
    var keys := MapAt(Ledger(awards), WINNERS_PATH).Keys;
    var numbers := BucketList(|awards|);
    forall b | b in numbers ensures IsInt64(b) && Itoa(b) in keys {
      BucketIsKey(awards, b);
    }
    forall key | key in keys ensures exists n :: n in numbers && key == Itoa(n) {
      var b := KeyIsBucket(awards, key);
    }
  }

  /** The numbers bucket k holds: no more than a hundred, and those not yet exported before it. */
  function NumbersIn(total: nat, k: nat): (r: seq<int>)
    ensures |r| <= BUCKET_SIZE
    ensures forall n :: n in r <==> BUCKET_SIZE * k < n <= Min(total, BUCKET_SIZE * (k + 1))
    ensures forall j | 0 <= j < |r| :: r[j] == BUCKET_SIZE * k + 1 + j
    ensures BUCKET_SIZE * k <= total ==> BUCKET_SIZE * k + |r| == Min(total, BUCKET_SIZE * (k + 1))
  {
    Range(BUCKET_SIZE * k + 1, Min(total, BUCKET_SIZE * (k + 1)))
  }

  lemma NumberKeysListed(awards: seq<Award>, k: nat)
    requires |awards| <= MAX_INT64 - BUCKET_SIZE && k < |BucketList(|awards|)|
    ensures var buckets := MapAt(Ledger(awards), WINNERS_PATH);
            var b := Itoa(BUCKET_SIZE * (k + 1));
            b in buckets && buckets[b].Dir? && Listing(buckets[b].entries.Keys, NumbersIn(|awards|, k))
  {
    hide Itoa, Ledger, MapAt;
    var b := BUCKET_SIZE * (k + 1);
    assert BucketList(|awards|)[k] == b;
    BucketIsKey(awards, b);
    LedgerExact(awards, Itoa(b), "");
    var keys := MapAt(Ledger(awards), WINNERS_PATH)[Itoa(b)].entries.Keys;
    forall n | n in NumbersIn(|awards|, k) ensures IsInt64(n) && Itoa(n) in keys {
      BucketOfNumber(|awards|, n, k);
      LedgerExact(awards, Itoa(b), Itoa(n));
    }
    forall key | key in keys ensures exists n :: n in NumbersIn(|awards|, k) && key == Itoa(n) {
      LedgerExact(awards, Itoa(b), key);
      var n :| 1 <= n <= |awards| && Itoa(b) == Itoa(Bucket(n)) && key == Itoa(n);
      ItoaInjective(b, Bucket(n));
      BucketOfNumber(|awards|, n, k);
    }
  }

  function LinkAt(node: Node<Cell>, key: string): Option<string> {
    var leaf: Option<Cell> := LeafAt(node, [key]);
    match leaf
    case Some(Link(tip)) => Some(tip)
    case _ => None
  }

  lemma LinksOfWinner(award: Award)
    ensures LinkAt(WinnerNode(award), "player") == Some(award.player)
    ensures LinkAt(WinnerNode(award), "prize") == Some(award.prize)
  {
    var node := WinnerNode(award);
    assert Resolve(node.entries["player"], ["player"][1..]) == Some(Leaf(Link(award.player)));
    assert Resolve(node.entries["prize"], ["prize"][1..]) == Some(Leaf(Link(award.prize)));
  }

  function RowAt(dir: Directory, number: string, winner: Node<Cell>): Option<Row> {
    var player, prize := LinkAt(winner, "player"), LinkAt(winner, "prize");
    if player.None? || prize.None? then None else RowFor(dir, number, player.value, prize.value)
  }

  /** The rows of a bucket for a list of its numbers; a field or a tree that is missing makes the program panic. */
  function BucketRows(dir: Directory, entries: map<string, Node<Cell>>, numbers: seq<string>): Result<seq<Row>> {
    if numbers == [] then Ok([])
    else
      var last := numbers[|numbers| - 1];
      match BucketRows(dir, entries, numbers[..|numbers| - 1])
      case Ok(rows) =>
        if last !in entries || RowAt(dir, last, entries[last]).None? then Panicked
        else Ok(rows + [RowAt(dir, last, entries[last]).value])
      case _ => Panicked
  }

  /** The inner loop of main. */
  method ExportBucket(dir: Directory, entries: map<string, Node<Cell>>, numbers: seq<string>)
    returns (r: Result<seq<Row>>)
    ensures r == BucketRows(dir, entries, numbers)
  {
    hide RowAt;
    var rows := [];
    for j := 0 to |numbers|
      invariant BucketRows(dir, entries, numbers[..j]) == Ok(rows)
    {
      assert numbers[..j + 1][..j] == numbers[..j];
      var num := numbers[j];
      if num !in entries || RowAt(dir, num, entries[num]).None? {
        RowsPanic(dir, entries, numbers, j + 1);
        return Panicked;
      }
      rows := rows + [RowAt(dir, num, entries[num]).value];
    }
    assert numbers[..|numbers|] == numbers;
    r := Ok(rows);
  }

  lemma {:induction false} RowsPanic(dir: Directory, entries: map<string, Node<Cell>>, numbers: seq<string>, j: nat)
    requires j <= |numbers| && BucketRows(dir, entries, numbers[..j]).Panicked?
    ensures BucketRows(dir, entries, numbers).Panicked?
  {
    if j == |numbers| {
      assert numbers[..j] == numbers;
    } else {
      assert numbers[..|numbers| - 1][..j] == numbers[..j];
      RowsPanic(dir, entries, numbers[..|numbers| - 1], j);
    }
  }

  lemma WinnerIsThere(awards: seq<Award>, k: nat, n: nat)
    requires |awards| <= MAX_INT64 - BUCKET_SIZE && k < |BucketList(|awards|)| && n in NumbersIn(|awards|, k)
    ensures Entry(Ledger(awards), Itoa(BUCKET_SIZE * (k + 1)), Itoa(n)) == Some(WinnerNode(awards[n - 1]))
  {
    hide Itoa, Ledger, BucketList, WinnerNode, Entry;
    BucketOfNumber(|awards|, n, k);
    LedgerExact(awards, Itoa(BUCKET_SIZE * (k + 1)), Itoa(n));
  }

  /** The rows of bucket k of a ledger are its part of the rows of all awards. */
  lemma {:induction false} LedgerBucketRows(dir: Directory, awards: seq<Award>, k: nat,
                                            entries: map<string, Node<Cell>>, j: nat)
    requires Known(dir, awards) && |awards| <= MAX_INT64 - BUCKET_SIZE && k < |BucketList(|awards|)|
    requires j <= |NumbersIn(|awards|, k)|
    requires forall n | n in NumbersIn(|awards|, k) ::
               Itoa(n) in entries && entries[Itoa(n)] == WinnerNode(awards[n - 1])
    ensures BUCKET_SIZE * k + j <= |awards|
    ensures BucketRows(dir, entries, ItoaAll(NumbersIn(|awards|, k))[..j]) ==
            Ok(Rows(dir, awards)[BUCKET_SIZE * k..BUCKET_SIZE * k + j])
  {
    hide Itoa, WinnerNode, LinkAt, RowFor, Ledger, NumbersIn, Range, ItoaAll, Rows;
    BucketsReachEnd(|awards|, k);
    var texts := ItoaAll(NumbersIn(|awards|, k));
    if j > 0 {
      LedgerBucketRows(dir, awards, k, entries, j - 1);
      var n := BUCKET_SIZE * k + j;
      assert NumbersIn(|awards|, k)[j - 1] == n;
      assert texts[..j][..j - 1] == texts[..j - 1];
      LinksOfWinner(awards[n - 1]);
      var a := BUCKET_SIZE * k;
      assert Rows(dir, awards)[a..a + j] == Rows(dir, awards)[a..a + j - 1] + [Rows(dir, awards)[a + j - 1]];
    } else {
      assert texts[..j] == [] && Rows(dir, awards)[BUCKET_SIZE * k..BUCKET_SIZE * k + j] == [];
    }
  }

  lemma BucketsReachEnd(total: nat, k: nat)
    requires k < |BucketList(total)|
    ensures BUCKET_SIZE * k < total <= BUCKET_SIZE * |BucketList(total)|
  {
  }

  lemma BucketsCover(total: nat)
    ensures total <= BUCKET_SIZE * |BucketList(total)|
  {
  }

  /** Everything one round of the outer loop needs of the ledger. */
  lemma RoundOfExport(dir: Directory, awards: seq<Award>, k: nat)
    requires Known(dir, awards) && |awards| <= MAX_INT64 - BUCKET_SIZE && k < |BucketList(|awards|)|
    ensures var buckets := MapAt(Ledger(awards), WINNERS_PATH);
            var b := Itoa(BUCKET_SIZE * (k + 1));
            b in buckets && buckets[b].Dir? && Listing(buckets[b].entries.Keys, NumbersIn(|awards|, k)) &&
            BUCKET_SIZE * k < |awards| &&
            BucketRows(dir, buckets[b].entries, ItoaAll(NumbersIn(|awards|, k))) ==
            Ok(Rows(dir, awards)[BUCKET_SIZE * k..Min(|awards|, BUCKET_SIZE * (k + 1))])
  {
    hide Itoa, Ledger, BucketList, WinnerNode, MapAt, NumbersIn, ItoaAll, BucketRows;
    NumberKeysListed(awards, k);
    BucketsReachEnd(|awards|, k);
    var entries := MapAt(Ledger(awards), WINNERS_PATH)[Itoa(BUCKET_SIZE * (k + 1))].entries;
    forall n | n in NumbersIn(|awards|, k) ensures Itoa(n) in entries && entries[Itoa(n)] == WinnerNode(awards[n - 1]) {
      WinnerIsThere(awards, k, n);
    }
    var texts := ItoaAll(NumbersIn(|awards|, k));
    LedgerBucketRows(dir, awards, k, entries, |texts|);
    assert texts[..|texts|] == texts;
  }

  /** The columns of a row: the number of the award, its player's and its prize's did, and the player's first owner. */
  lemma RowsHold(dir: Directory, awards: seq<Award>)
    ensures Known(dir, awards) <==>
            forall i | 0 <= i < |awards| ::
              awards[i].player in dir.didOf && awards[i].prize in dir.didOf &&
              dir.didOf[awards[i].player] in dir.ownersOf && dir.ownersOf[dir.didOf[awards[i].player]] != []
    ensures Known(dir, awards) ==>
              |Rows(dir, awards)| == |awards| &&
              forall i | 0 <= i < |awards| ::
                var row := Rows(dir, awards)[i];
                row.number == Itoa(i + 1) && row.player == dir.didOf[awards[i].player] &&
                row.prize == dir.didOf[awards[i].prize] && row.signupKey == dir.ownersOf[row.player][0]
  {
    hide Itoa;
    forall i | 0 <= i < |awards|
      ensures RowFor(dir, Itoa(i + 1), awards[i].player, awards[i].prize).Some? <==>
              awards[i].player in dir.didOf && awards[i].prize in dir.didOf &&
              dir.didOf[awards[i].player] in dir.ownersOf && dir.ownersOf[dir.didOf[awards[i].player]] != []
    {
    }
  }

  /** The outer loop of main for one court; awards is the history the ledger is known to record. */
  method ExportWinners(dir: Directory, tree: Node<Cell>, ghost awards: seq<Award>) returns (r: Result<seq<Row>>)
    ensures r.Ok? || r.Panicked?
    ensures Known(dir, awards) && tree == Ledger(awards) && |awards| <= MAX_INT64 - BUCKET_SIZE ==>
              r == Ok(Rows(dir, awards))
  {
    hide Itoa, Ledger, MapAt, BucketList, Bucket, Listing, BucketRows, NumbersIn, ItoaAll, Rows, Known, RowFor;
    ghost var known := Known(dir, awards) && tree == Ledger(awards) && |awards| <= MAX_INT64 - BUCKET_SIZE;
    if known {
      BucketKeysListed(awards);
      BucketsCover(|awards|);
    }
    var winners := MapAt(tree, WINNERS_PATH);
    var buckets := SortNumericKeys(winners.Keys, BucketList(|awards|));
    if !buckets.Ok? {
      return Panicked;
    }
    var rows := [];
    for i := 0 to |buckets.value|
      invariant known ==> rows == Rows(dir, awards)[..Min(|awards|, BUCKET_SIZE * i)]
    {
      var bucket := buckets.value[i];
      if known {
        RoundOfExport(dir, awards, i);
      }
      if bucket !in winners || !winners[bucket].Dir? {
        return Panicked;
      }
      var entries := winners[bucket].entries;
      var winnersList := SortNumericKeys(entries.Keys, NumbersIn(|awards|, i));
      if !winnersList.Ok? {
        return Panicked;
      }
      var exported := ExportBucket(dir, entries, winnersList.value);
      if !exported.Ok? {
        return Panicked;
      }
      rows := rows + exported.value;
    }
    assert known ==> Rows(dir, awards)[..|awards|] == Rows(dir, awards);
    r := Ok(rows);
  }
}
