// Facts about sequences without repetition, used by several modules.
module Sequences {

  ghost function Elements<T>(s: seq<T>): set<T> {
    set x | x in s
  }

  ghost predicate NoRepeat<T>(s: seq<T>) {
    forall i, j :: 0 <= i < j < |s| ==> s[i] != s[j]
  }

  // A sequence has at most as many distinct elements as positions, and exactly as many iff none repeats.
  lemma {:induction false} CountElements<T>(s: seq<T>)
    ensures |Elements(s)| <= |s|
    ensures NoRepeat(s) <==> |Elements(s)| == |s|
  {
    if s != [] {
      var n := |s| - 1;
      var init := s[..n];
      CountElements(init);
      assert s == init + [s[n]];
      if s[n] in init {
        assert Elements(s) == Elements(init);
      } else {
        assert Elements(s) == Elements(init) + {s[n]};
        assert NoRepeat(init) ==> NoRepeat(s) by {
          forall i, j | NoRepeat(init) && 0 <= i < j < |s|
            ensures s[i] != s[j]
          {
            assert s[i] == init[i];
          }
        }
      }
      assert NoRepeat(s) ==> NoRepeat(init);
    }
  }

  lemma AddElement<T>(s: seq<T>, x: T)
    ensures Elements(s + [x]) == Elements(s) + {x}
    ensures NoRepeat(s) && x !in s ==> NoRepeat(s + [x])
  {
  }

  lemma SplitLast<T>(a: seq<T>, b: seq<T>)
    requires b != []
    ensures (a + b[..|b| - 1]) + [b[|b| - 1]] == a + b
    ensures b[..|b| - 1] + [b[|b| - 1]] == b
  {
  }

  lemma SubsetCount<T>(a: set<T>, b: set<T>)
    requires a <= b
    ensures |a| <= |b|
    ensures |a| == |b| ==> a == b
  {
    assert |b| == |a| + |b - a| by {
      assert b == a + (b - a);
    }
  }

  // Pigeonhole: a repetition-free listing of members of s that is as long as s lists all of them,
  // and then s repeats nothing either.
  lemma FullListing<T>(path: seq<T>, s: seq<T>)
    requires NoRepeat(path) && |path| == |s|
    requires forall i :: 0 <= i < |path| ==> path[i] in s
    ensures forall x :: x in s ==> x in path
    ensures NoRepeat(s)
  {
    CountElements(path);
    CountElements(s);
    assert Elements(path) <= Elements(s);
    SubsetCount(Elements(path), Elements(s));
    forall x | x in s
      ensures x in path
    {
      assert x in Elements(s);
    }
  }
}
