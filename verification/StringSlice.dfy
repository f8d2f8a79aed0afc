/** utils/stringslice: the membership checks behind every ownership test. */
module StringSlice {

  method Index(vs: seq<string>, t: string) returns (index: int)
    ensures index == -1 <==> t !in vs
    ensures index != -1 ==> 0 <= index < |vs| && vs[index] == t && t !in vs[..index]
  {
    for i := 0 to |vs|
      invariant t !in vs[..i]
    {
      if vs[i] == t {
        return i;
      }
    }
    index := -1;
  }

  method Include(vs: seq<string>, t: string) returns (found: bool)
    ensures found <==> t in vs
  {
    var index := Index(vs, t);
    found := index >= 0;
  }

  /** All with the test "is included in auths", the form every caller uses. */
  method AllIncluded(vs: seq<string>, auths: seq<string>) returns (all: bool)
    ensures all <==> forall s :: s in vs ==> s in auths
  {
    for i := 0 to |vs|
      invariant forall k | 0 <= k < i :: vs[k] in auths
    {
      var found := Include(auths, vs[i]);
      if !found {
        return false;
      }
    }
    all := true;
  }

  /** What Equal decides: the same length, and each element of the first in the second. */
  predicate EqualSlices(vs: seq<string>, vs2: seq<string>) {
    |vs| == |vs2| && forall s :: s in vs ==> s in vs2
  }

  method Equal(vs: seq<string>, vs2: seq<string>) returns (equal: bool)
    ensures equal <==> EqualSlices(vs, vs2)
  {
    if |vs| != |vs2| {
      return false;
    }
    equal := AllIncluded(vs, vs2);
  }

  ghost predicate Distinct(vs: seq<string>) {
    forall i, j | 0 <= i < j < |vs| :: vs[i] != vs[j]
  }

  /** On a first slice without repeats, Equal is equality up to order. */
  lemma {:induction false} EqualIsPermutation(vs: seq<string>, vs2: seq<string>)
    requires Distinct(vs)
    ensures EqualSlices(vs, vs2) <==> multiset(vs) == multiset(vs2)
  {
    if multiset(vs) == multiset(vs2) {
      assert |multiset(vs)| == |multiset(vs2)|;
      forall s | s in vs ensures s in vs2 {
        assert s in multiset(vs2);
      }
    } else if EqualSlices(vs, vs2) {
      DistinctInclusion(vs, vs2);
    }
  }

  lemma {:induction false} DistinctInclusion(vs: seq<string>, vs2: seq<string>)
    requires Distinct(vs) && EqualSlices(vs, vs2)
    ensures multiset(vs) == multiset(vs2)
  {
    if vs != [] {
      assert vs[0] in vs;
      var k :| 0 <= k < |vs2| && vs2[k] == vs[0];
      var rest := vs2[..k] + vs2[k + 1..];
      assert vs2 == vs2[..k] + [vs2[k]] + vs2[k + 1..];
      assert vs == [vs[0]] + vs[1..];
      forall s | s in vs[1..] ensures s in rest {
        assert s in vs && s != vs[0];
      }
      DistinctInclusion(vs[1..], rest);
    }
  }

  /** Exactly on such a first slice: of two places with one text, one can be given a text of its own. */
  lemma DistinctIff(vs: seq<string>)
    ensures Distinct(vs) <==> forall vs2 :: EqualSlices(vs, vs2) <==> multiset(vs) == multiset(vs2)
  {
    if Distinct(vs) {
      forall vs2 ensures EqualSlices(vs, vs2) <==> multiset(vs) == multiset(vs2) {
        EqualIsPermutation(vs, vs2);
      }
    } else {
      var vs2 := RepeatReplaced(vs);
    }
  }

  lemma RepeatReplaced(vs: seq<string>) returns (vs2: seq<string>)
    requires !Distinct(vs)
    ensures EqualSlices(vs, vs2) && multiset(vs) != multiset(vs2) && !EqualSlices(vs2, vs)
  {
    var i, j :| 0 <= i < j < |vs| && vs[i] == vs[j];
    var new_ := FreshText(vs);
    vs2 := vs[i := new_];
    forall s | s in vs ensures s in vs2 {
      var k :| 0 <= k < |vs| && vs[k] == s;
      assert vs2[if k == i then j else k] == s;
    }
    assert vs2[i] == new_;
    assert new_ in multiset(vs2) && new_ !in multiset(vs);
  }

  lemma {:induction false} FreshText(vs: seq<string>) returns (t: string)
    ensures t !in vs && forall s | s in vs :: |s| < |t|
  {
    if vs == [] {
      t := "a";
    } else {
      var rest := FreshText(vs[1..]);
      t := rest + vs[0] + "a";
    }
  }

  /** It is not symmetric: this pair is equal one way round only. */
  lemma EqualIsNotSymmetric()
    ensures EqualSlices(["a", "a"], ["a", "b"]) && !EqualSlices(["a", "b"], ["a", "a"])
  {
    assert "b" in ["a", "b"];
  }

  /**
   An equal answer carries over to the other way round, whatever the second slice, exactly for the same first slices.
   */
  lemma EqualCarriesOverIff(vs: seq<string>)
    ensures Distinct(vs) <==> forall vs2 :: EqualSlices(vs, vs2) ==> EqualSlices(vs2, vs)
  {
    if Distinct(vs) {
      forall vs2 | EqualSlices(vs, vs2) ensures EqualSlices(vs2, vs) {
        EqualIsPermutation(vs, vs2);
        forall s | s in vs2 ensures s in vs {
          assert s in multiset(vs);
        }
      }
    } else {
      var vs2 := RepeatReplaced(vs);
    }
  }

  /** The answer is always the same both ways round only where there is at most one text to compare. */
  lemma SymmetricIff(vs: seq<string>)
    ensures |vs| <= 1 <==> forall vs2 :: EqualSlices(vs, vs2) <==> EqualSlices(vs2, vs)
  {
    if |vs| <= 1 {
      forall vs2 ensures EqualSlices(vs, vs2) <==> EqualSlices(vs2, vs) {
        ShortSlices(vs, vs2);
      }
    } else if Distinct(vs) {
      var vs2 := seq(|vs|, _ => vs[0]);
      assert EqualSlices(vs2, vs);
      assert vs[1] in vs && vs[1] !in vs2;
    } else {
      var vs2 := RepeatReplaced(vs);
    }
  }

  lemma ShortSlices(vs: seq<string>, vs2: seq<string>)
    requires |vs| <= 1
    ensures EqualSlices(vs, vs2) <==> vs == vs2
    ensures EqualSlices(vs2, vs) <==> vs == vs2
  {
    if |vs| == |vs2| == 1 {
      assert vs[0] in vs && vs2[0] in vs2;
    }
  }

  /** Against one expected element it is plain equality. */
  lemma EqualToSingleton(vs: seq<string>, t: string)
    ensures EqualSlices(vs, [t]) <==> vs == [t]
  {
    if EqualSlices(vs, [t]) {
      assert vs[0] in vs;
    }
  }
}
