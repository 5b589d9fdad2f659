/** Facts about sequences and sets that several modules need. */
module Collections {

  lemma Assoc<T>(a: seq<T>, b: seq<T>, c: seq<T>)
    ensures a + (b + c) == (a + b) + c
    ensures a + [] == a && [] + c == c
  {
  }

  lemma SplitLast<T>(s: seq<T>)
    requires s != []
    ensures s == s[..|s| - 1] + [s[|s| - 1]]
  {
  }

  /** A part is no larger than the whole, and as large only if it is the whole. */
  lemma SubsetSize<T>(part: set<T>, all: set<T>)
    requires part <= all
    ensures |part| <= |all| && (|part| == |all| <==> part == all)
  {
    assert all == part + (all - part);
  }

  /** A list without repetition is no longer than a set that holds it. */
  lemma {:induction false} DistinctFit<T>(s: seq<T>, all: set<T>)
    requires forall i :: 0 <= i < |s| ==> s[i] in all
    requires forall i, j :: 0 <= i < j < |s| ==> s[i] != s[j]
    ensures |s| <= |all|
  {
    if s == [] {
    } else {
      DistinctFit(s[1..], all - {s[0]});
    }
  }

  /** A list has no more elements than places. */
  lemma {:induction false} ElementsFit<T>(s: seq<T>, elements: set<T>)
    requires forall x :: x in elements ==> x in s
    ensures |elements| <= |s|
  {
    if s == [] {
      assert elements == {};
    } else {
      ElementsFit(s[1..], elements - {s[0]});
      SubsetSize(elements, (elements - {s[0]}) + {s[0]});
    }
  }
}
