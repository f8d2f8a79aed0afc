/** The library sorts the source calls: `sort.Ints`, `sort.IntSlice.Sort` and `sort.Strings`. */
module Sorting {

  ghost predicate Sorted(s: seq<int>) {
    s == [] || ((forall y | y in s[1..] :: s[0] <= y) && Sorted(s[1..]))
  }

  function InsertInt(x: int, s: seq<int>): (r: seq<int>)
    ensures |r| == |s| + 1
    ensures forall y :: y in r <==> y == x || y in s
  {
    if s == [] || x <= s[0] then [x] + s else [s[0]] + InsertInt(x, s[1..])
  }

  lemma {:induction false} InsertIntCounts(x: int, s: seq<int>)
    ensures multiset(InsertInt(x, s)) == multiset{x} + multiset(s)
  {
    if s != [] {
      assert s == [s[0]] + s[1..];
      InsertIntCounts(x, s[1..]);
    }
  }

  lemma {:induction false} InsertIntSorted(x: int, s: seq<int>)
    requires Sorted(s)
    ensures Sorted(InsertInt(x, s))
  {
    if s != [] {
      InsertIntSorted(x, s[1..]);
      if s[0] < x {
        assert InsertInt(x, s)[1..] == InsertInt(x, s[1..]);
      } else {
        assert s == [s[0]] + s[1..];
        assert InsertInt(x, s)[1..] == s;
      }
    }
  }

  function SortInts(s: seq<int>): (r: seq<int>)
    ensures |r| == |s|
  {
    if s == [] then [] else InsertInt(s[0], SortInts(s[1..]))
  }

  lemma {:induction false} SortIntsProperties(s: seq<int>)
    ensures Sorted(SortInts(s))
    ensures multiset(SortInts(s)) == multiset(s)
  {
    if s != [] {
      assert s == [s[0]] + s[1..];
      SortIntsProperties(s[1..]);
      InsertIntCounts(s[0], SortInts(s[1..]));
      InsertIntSorted(s[0], SortInts(s[1..]));
    }
  }

  /** A multiset of integers has one sorted listing, so any sort gives the same result. */
  lemma {:induction false} SortedUnique(a: seq<int>, b: seq<int>)
    requires Sorted(a) && Sorted(b)
    requires multiset(a) == multiset(b)
    ensures a == b
  {
    if a == [] {
      assert |multiset(b)| == 0;
    } else {
      SortedHead(a, b);
      assert a == [a[0]] + a[1..] && b == [b[0]] + b[1..];
      assert multiset(a[1..]) == multiset(a) - multiset{a[0]};
      assert multiset(b[1..]) == multiset(b) - multiset{b[0]};
      SortedUnique(a[1..], b[1..]);
    }
  }

  lemma SortedHead(a: seq<int>, b: seq<int>)
    requires a != [] && Sorted(a) && Sorted(b)
    requires multiset(a) == multiset(b)
    ensures b != [] && a[0] == b[0]
  {
    assert |multiset(a)| == |multiset(b)|;
    assert a[0] in multiset(b) && b[0] in multiset(a);
    assert a[0] in b && b[0] in a;
    HeadIsLeast(a, b[0]);
    HeadIsLeast(b, a[0]);
  }

  lemma HeadIsLeast(s: seq<int>, x: int)
    requires Sorted(s) && x in s
    ensures s[0] <= x
  {
    assert s == [s[0]] + s[1..];
  }

  /** Sorting forgets the order of its argument and nothing else. */
  lemma SortIntsIffSameMultiset(a: seq<int>, b: seq<int>)
    ensures SortInts(a) == SortInts(b) <==> multiset(a) == multiset(b)
  {
    SortIntsProperties(a);
    SortIntsProperties(b);
    if multiset(a) == multiset(b) {
      SortedUnique(SortInts(a), SortInts(b));
    }
  }

  ghost predicate Ascending(s: seq<int>) {
    forall i, j | 0 <= i < j < |s| :: s[i] < s[j]
  }

  ghost predicate NoRepeats(s: seq<int>) {
    forall i, j | 0 <= i < j < |s| :: s[i] != s[j]
  }

  lemma {:induction false} AscendingIsSorted(s: seq<int>)
    requires Ascending(s)
    ensures Sorted(s) && NoRepeats(s)
  {
    if s != [] {
      AscendingIsSorted(s[1..]);
    }
  }

  lemma {:induction false} CountWithoutRepeats(s: seq<int>, x: int)
    requires NoRepeats(s)
    ensures multiset(s)[x] == if x in s then 1 else 0
  {
    if s != [] {
      assert s == [s[0]] + s[1..];
      CountWithoutRepeats(s[1..], x);
    }
  }

  /** Sorting some distinct numbers gives the one ascending list of them. */
  lemma SortOfDistinct(s: seq<int>, ascending: seq<int>)
    requires NoRepeats(s) && Ascending(ascending)
    requires forall x :: x in s <==> x in ascending
    ensures SortInts(s) == ascending
  {
    AscendingIsSorted(ascending);
    forall x ensures multiset(s)[x] == multiset(ascending)[x] {
      CountWithoutRepeats(s, x);
      CountWithoutRepeats(ascending, x);
    }
    SortIntsProperties(s);
    SortedUnique(SortInts(s), ascending);
  }

  /** Byte-wise string order. */
  predicate StringLess(a: string, b: string) {
    b != "" && (a == "" || a[0] < b[0] || (a[0] == b[0] && StringLess(a[1..], b[1..])))
  }

  function InsertString(x: string, s: seq<string>): (r: seq<string>)
    ensures multiset(r) == multiset{x} + multiset(s)
  {
    if s == [] || !StringLess(s[0], x) then [x] + s
    else
      assert s == [s[0]] + s[1..];
      [s[0]] + InsertString(x, s[1..])
  }

  function SortStrings(s: seq<string>): (r: seq<string>)
    ensures multiset(r) == multiset(s)
    ensures |r| == |s|
    ensures forall x :: x in r <==> x in s
  {
    if s == [] then []
    else
      assert s == [s[0]] + s[1..];
      var r := InsertString(s[0], SortStrings(s[1..]));
      assert |multiset(r)| == |multiset(s)|;
      assert forall x :: x in r <==> x in multiset(r);
      r
  }

  /** The byte-wise order is a total one. */
  lemma {:induction false} StringOrder(a: string, b: string)
    ensures !(StringLess(a, b) && StringLess(b, a))
    ensures StringLess(a, b) || StringLess(b, a) || a == b
  {
    if a != "" && b != "" && a[0] == b[0] {
      StringOrder(a[1..], b[1..]);
      assert a == [a[0]] + a[1..] && b == [b[0]] + b[1..];
    }
  }

  lemma {:induction false} StringLessTransitive(a: string, b: string, c: string)
    requires StringLess(a, b) && StringLess(b, c)
    ensures StringLess(a, c)
  {
    if a != "" && a[0] == b[0] == c[0] {
      StringLessTransitive(a[1..], b[1..], c[1..]);
    }
  }

  ghost predicate InOrder(s: seq<string>) {
    forall i, j | 0 <= i < j < |s| :: !StringLess(s[j], s[i])
  }

  lemma {:induction false} InsertKeepsOrder(x: string, s: seq<string>)
    requires InOrder(s)
    ensures InOrder(InsertString(x, s))
  {
    hide StringLess;
    if s != [] {
      var low := if StringLess(s[0], x) then s[0] else x;
      var rest := if StringLess(s[0], x) then InsertString(x, s[1..]) else s;
      assert InsertString(x, s) == [low] + rest;
      if StringLess(s[0], x) {
        assert forall i | 0 <= i < |s[1..]| :: s[1..][i] == s[i + 1];
        InsertKeepsOrder(x, s[1..]);
      }
      hide InsertString, InOrder;
      forall y | y in rest ensures !StringLess(y, low) {
        assert InsertString(x, s)[1..] == rest;
        assert y in multiset(rest);
        InsertedAbove(x, s, low, y);
      }
      LowFirst(low, rest);
    }
  }

  lemma LowFirst(low: string, rest: seq<string>)
    requires InOrder(rest) && forall y | y in rest :: !StringLess(y, low)
    ensures InOrder([low] + rest)
  {
  }

  lemma InsertedAbove(x: string, s: seq<string>, low: string, y: string)
    requires s != [] && InOrder(s) && low == (if StringLess(s[0], x) then s[0] else x)
    requires y in multiset(InsertString(x, s)[1..])
    ensures !StringLess(y, low)
  {
    assert s == [s[0]] + s[1..];
    var rest := if StringLess(s[0], x) then InsertString(x, s[1..]) else s;
    assert InsertString(x, s)[1..] == rest;
    hide InsertString;
    StringOrder(s[0], x);
    if y == x {
      StringOrder(x, low);
    } else {
      assert y in multiset(s);
      var k :| 0 <= k < |s| && s[k] == y;
      StringOrder(y, s[0]);
      if StringLess(y, low) && low == x && y != s[0] {
        StringOrder(y, x);
        if s[0] != x {
          StringLessTransitive(y, x, s[0]);
        }
      }
    }
  }

  /** What `sort.Strings` gives: the same texts, none before a smaller one. */
  lemma {:induction false} SortStringsInOrder(s: seq<string>)
    ensures InOrder(SortStrings(s)) && multiset(SortStrings(s)) == multiset(s)
  {
    if s != [] {
      SortStringsInOrder(s[1..]);
      InsertKeepsOrder(s[0], SortStrings(s[1..]));
    }
  }
}
