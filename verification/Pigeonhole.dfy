/** Counting facts about finite ranges, used where the source relies on a table being a bijection. */
module Pigeonhole {

  /** The integers lo, lo + 1, ..., hi - 1. */
  ghost function Range(lo: int, hi: int): (s: set<int>)
    requires lo <= hi
    ensures forall i :: i in s <==> lo <= i < hi
    ensures |s| == hi - lo
    decreases hi - lo
  {
    if lo == hi then {} else Range(lo, hi - 1) + {hi - 1}
  }

  ghost predicate Distinct(s: seq<int>) {
    forall i, j :: 0 <= i < j < |s| ==> s[i] != s[j]
  }

  lemma DistinctSize(s: seq<int>)
    requires Distinct(s)
    ensures |set x | x in s| == |s|
  {
    if s != [] {
      var front, last := s[..|s| - 1], s[|s| - 1];
      DistinctSize(front);
      assert s == front + [last];
      assert (set x | x in s) == (set x | x in front) + {last};
    }
  }

  /** n distinct values in a range of n integers hit every one of them. */
  lemma EveryValueIsHit(s: seq<int>, lo: int, hi: int, v: int)
    requires lo <= v < hi && |s| == hi - lo
    requires Distinct(s)
    requires forall i :: 0 <= i < |s| ==> lo <= s[i] < hi
    ensures v in s
  {
    var hit := set x | x in s;
    DistinctSize(s);
    if v !in s {
      assert hit <= Range(lo, hi) - {v};
      SubsetSize(hit, Range(lo, hi) - {v});
    }
  }

  lemma SubsetSize<T>(a: set<T>, b: set<T>)
    requires a <= b
    ensures |a| <= |b|
  {
    if a != {} {
      var x :| x in a;
      SubsetSize(a - {x}, b - {x});
    }
  }
}
